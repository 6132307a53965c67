/** Bearer tokens as abstract records: the signed claims and the lifetime the signer
    was asked for. Signatures, secrets and clocks are not modelled; a token's
    validity is decided by a verification predicate the caller supplies. */
module Tokens {

  import opened Optional

  /** The token payload. Register signs only the user id; login and Google sign-in
      also sign the email. */
  datatype Claims = Claims(userId: string, email: Option<string>)

  datatype Token = Token(claims: Claims, lifetimeSeconds: nat)

  predicate AllDigits(s: string) {
    forall i | 0 <= i < |s| :: IsDigit(s[i])
  }

  /** The decimal value of a digit string (most significant digit first). */
  function DigitsValue(s: string): nat
    requires AllDigits(s)
  {
    if |s| == 0 then 0
    else DigitsValue(s[..|s| - 1]) * 10 + (s[|s| - 1] as int - '0' as int)
  }

  /** Seconds per unit letter of a duration string. */
  function UnitSeconds(unit: char): Option<nat> {
    match unit
    case 's' => Some(1)
    case 'm' => Some(60)
    case 'h' => Some(3600)
    case 'd' => Some(86400)
    case _ => None
  }

  /** The lifetime in seconds that an `expiresIn` string such as "1h" or "1d" denotes:
      a non-empty run of decimal digits followed by one unit letter. */
  function DurationSeconds(spec: string): (r: Option<nat>)
    ensures r.Some? ==> |spec| >= 2 && AllDigits(spec[..|spec| - 1])
    ensures r.Some? ==> UnitSeconds(spec[|spec| - 1]).Some?
  {
    if |spec| < 2 || !AllDigits(spec[..|spec| - 1]) then None
    else
      match UnitSeconds(spec[|spec| - 1])
      case None => None
      case Some(unit) => Some(DigitsValue(spec[..|spec| - 1]) * unit)
  }

  /** "1<unit>" lasts exactly one unit: "1h" is 3600 seconds and "1d" is 86400. */
  lemma OneUnitDuration(unit: char)
    requires UnitSeconds(unit).Some?
    ensures DurationSeconds(['1', unit]) == UnitSeconds(unit)
  {
    var spec := ['1', unit];
    assert spec[..1] == "1";
    assert "1"[..0] == "";
    assert DigitsValue("1") == 1;
  }

  /** Mints a token over `claims` that lasts as long as `expiresIn` says. */
  function Sign(claims: Claims, expiresIn: string): (t: Token)
    requires DurationSeconds(expiresIn).Some?
    ensures t.claims == claims
    ensures t.lifetimeSeconds == DurationSeconds(expiresIn).value
  {
    Token(claims, DurationSeconds(expiresIn).value)
  }

  /** The token returned by registration: the user id only, valid for "1h". */
  function RegistrationToken(userId: string): (t: Token)
    ensures t.claims == Claims(userId, None)
    ensures t.lifetimeSeconds == 3600
  {
    OneUnitDuration('h');
    assert "1h" == ['1', 'h'];
    Sign(Claims(userId, None), "1h")
  }

  /** The token returned by login and by Google sign-in: user id and email, valid
      for "1d". */
  function SessionToken(userId: string, email: string): (t: Token)
    ensures t.claims == Claims(userId, Some(email))
    ensures t.lifetimeSeconds == 86400
  {
    OneUnitDuration('d');
    assert "1d" == ['1', 'd'];
    Sign(Claims(userId, Some(email)), "1d")
  }
}
