/** The bearer-token gate in front of protected routes. The token is the second
    field of the Authorization header split on single spaces; the scheme word is
    never looked at. Token verification is a predicate of the token and the signing
    secret, supplied by the caller; the gate consults nothing else. */
module AuthGuard {

  import opened Optional

  const MissingTokenText := "未提供 Token"
  const InvalidTokenText := "Token 無效或已過期"

  /** `s.split(" ")`: the maximal space-free pieces between single spaces, so two
      adjacent spaces give an empty piece and a string without spaces gives itself. */
  function SplitOnSpace(s: string): (parts: seq<string>)
    ensures |parts| >= 1
    ensures forall i | 0 <= i < |parts| :: ' ' !in parts[i]
    ensures |parts| == 1 <==> ' ' !in s
  {
    if |s| == 0 then [""]
    else
      var rest := SplitOnSpace(s[1..]);
      if s[0] == ' ' then [""] + rest
      else [[s[0]] + rest[0]] + rest[1..]
  }

  /** `parts.join(" ")`. */
  function JoinWithSpace(parts: seq<string>): string
    requires |parts| >= 1
  {
    if |parts| == 1 then parts[0] else parts[0] + " " + JoinWithSpace(parts[1..])
  }

  /** Splitting loses nothing: joining the pieces back gives the header. */
  lemma {:induction false} JoinSplit(s: string)
    ensures JoinWithSpace(SplitOnSpace(s)) == s
  {
    if |s| > 0 {
      var rest := SplitOnSpace(s[1..]);
      JoinSplit(s[1..]);
      if s[0] == ' ' {
        assert s == [s[0]] + s[1..];
      } else {
        var parts := [[s[0]] + rest[0]] + rest[1..];
        if |rest| == 1 {
          assert s == [s[0]] + rest[0];
        } else {
          assert parts[1..] == rest[1..];
          assert JoinWithSpace(rest) == rest[0] + " " + JoinWithSpace(rest[1..]);
          assert s == [s[0]] + s[1..];
        }
      }
    }
  }

  /** Splitting a join of space-free pieces gives the pieces back. */
  lemma {:induction false} SplitJoin(parts: seq<string>)
    requires |parts| >= 1
    requires forall i | 0 <= i < |parts| :: ' ' !in parts[i]
    ensures SplitOnSpace(JoinWithSpace(parts)) == parts
  {
    if |parts| == 1 {
      SplitSpaceFree(parts[0]);
    } else {
      SplitJoin(parts[1..]);
      SplitPrefix(parts[0], JoinWithSpace(parts[1..]));
      assert [parts[0]] + parts[1..] == parts;
    }
  }

  /** A space-free string is a single piece. */
  lemma {:induction false} SplitSpaceFree(w: string)
    requires ' ' !in w
    ensures SplitOnSpace(w) == [w]
  {
    if |w| > 0 {
      assert ' ' !in w[1..] by {
        forall c | c in w[1..] ensures c != ' ' { assert c in w; }
      }
      SplitSpaceFree(w[1..]);
      assert w == [w[0]] + w[1..];
    }
  }

  /** A space-free word followed by a space splits off as the first piece. */
  lemma {:induction false} SplitPrefix(w: string, rest: string)
    requires ' ' !in w
    ensures SplitOnSpace(w + " " + rest) == [w] + SplitOnSpace(rest)
  {
    if |w| == 0 {
      assert w + " " + rest == [' '] + rest;
      assert (w + " " + rest)[1..] == rest;
    } else {
      assert ' ' !in w[1..] by {
        forall c | c in w[1..] ensures c != ' ' { assert c in w; }
      }
      SplitPrefix(w[1..], rest);
      var s := w + " " + rest;
      assert s[0] == w[0];
      assert s[1..] == w[1..] + " " + rest;
      assert [w[0]] + w[1..] == w;
    }
  }

  /** `authHeader && authHeader.split(" ")[1]`, where `None` stands for `undefined`.
      An absent header gives nothing; an empty header is falsy and so is itself the
      result; otherwise the second piece, if there is one. */
  function BearerToken(header: Option<string>): (token: Option<string>)
    ensures token.None? <==> header.None? || (header.value != "" && ' ' !in header.value)
    ensures token.Some? ==> ' ' !in token.value
  {
    match header
    case None => None
    case Some(h) =>
      if h == "" then Some("")
      else
        var parts := SplitOnSpace(h);
        if |parts| > 1 then Some(parts[1]) else None
  }

  /** Whatever the scheme word, the token is the second space-separated word. */
  lemma BearerTokenOfWords(parts: seq<string>)
    requires |parts| >= 2
    requires forall i | 0 <= i < |parts| :: ' ' !in parts[i]
    ensures BearerToken(Some(JoinWithSpace(parts))) == Some(parts[1])
  {
    SplitJoin(parts);
  }

  /** "Bearer " carries the empty token, which is present (not null) and so goes to
      verification. */
  lemma EmptyBearerIsPresent()
    ensures BearerToken(Some("Bearer ")) == Some("")
  {
  }

  /** What the gate does with a request: pass it on, or answer it. */
  datatype GateOutcome = Next | Reject(status: nat, message: string)

  /** `authenticateToken`: 401 without a token, 403 when verification fails, and
      otherwise `next()` with the request untouched. */
  function Authenticate(header: Option<string>, secret: string, verify: (string, string) -> bool)
    : (g: GateOutcome)
    ensures g == Reject(401, "未提供 Token") <==> BearerToken(header).None?
    ensures g == Reject(403, "Token 無效或已過期") <==>
      BearerToken(header).Some? && !verify(BearerToken(header).value, secret)
    ensures g == Next <==> BearerToken(header).Some? && verify(BearerToken(header).value, secret)
  {
    match BearerToken(header)
    case None => Reject(401, MissingTokenText)
    case Some(token) =>
      if verify(token, secret) then Next else Reject(403, InvalidTokenText)
  }

  /** Every request ends in exactly one of 401, 403 or `next`. */
  lemma GateIsThreeWay(header: Option<string>, secret: string, verify: (string, string) -> bool)
    ensures var g := Authenticate(header, secret, verify);
      g == Next || g == Reject(401, "未提供 Token") || g == Reject(403, "Token 無效或已過期")
  {
  }

  /** A present but empty header, and the header "Bearer ", are not treated as
      missing: their empty token goes to verification, so unless the verifier
      accepts "" the answer is 403, not 401. */
  lemma EmptyHeaderIsForbidden(secret: string, verify: (string, string) -> bool)
    requires !verify("", secret)
    ensures Authenticate(Some(""), secret, verify) == Reject(403, "Token 無效或已過期")
    ensures Authenticate(Some("Bearer "), secret, verify) == Reject(403, "Token 無效或已過期")
  {
  }
}
