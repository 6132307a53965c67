/** The Google sign-in verify callback: resolve the provider's profile to a local
    user (find by email, or create one on first sign-in) and mint a session token.
    The time stamp that makes the password marker unique is a parameter. */
module GoogleVerify {

  import opened Optional
  import opened Tokens
  import opened Users

  const SentinelPrefix := "GOOGLE_AUTH_"

  /** The part of the provider profile the callback reads: the listed email
      addresses (absent when the provider sent none) and the display name. */
  datatype Profile = Profile(emails: Option<seq<string>>, displayName: string)

  datatype VerifyError = NoEmail | StoreFailure

  /** What the callback hands to `done`: the user with a token, or an error. */
  datatype VerifyResult = Done(user: User, token: Token) | Failed(error: VerifyError)

  /** `profile.emails?.[0]?.value`. */
  function FirstEmail(p: Profile): (e: Option<string>)
    ensures e.Some? <==> p.emails.Some? && |p.emails.value| > 0
    ensures e.Some? ==> e.value == p.emails.value[0]
  {
    match p.emails
    case None => None
    case Some(list) => if |list| == 0 then None else Some(list[0])
  }

  /** The verify callback. Returns what it passes to `done` and the user table
      afterwards. */
  function Verify(users: seq<User>, storeUp: bool, profile: Profile, stamp: string)
    : (out: (VerifyResult, seq<User>))
    ensures !Truthy(FirstEmail(profile)) ==> out == (Failed(NoEmail), users)
    ensures Truthy(FirstEmail(profile)) && !storeUp ==> out == (Failed(StoreFailure), users)
    ensures Truthy(FirstEmail(profile)) && storeUp ==> out.0.Done?
    ensures out.0.Done? ==>
      && out.0.user in out.1
      && out.0.user.email == FirstEmail(profile).value
      && out.0.token == Token(Claims(out.0.user.id, Some(out.0.user.email)), 86400)
    ensures out.0.Done? && HasEmail(users, FirstEmail(profile).value) ==>
      && out.1 == users
      && out.0.user == FindByEmail(users, FirstEmail(profile).value).value
    ensures out.0.Done? && !HasEmail(users, FirstEmail(profile).value) ==>
      && out.1 == users + [out.0.user]
      && out.0.user.id !in UserIds(users)
      && out.0.user.name == Some(profile.displayName)
      && out.0.user.passwordHash == "GOOGLE_AUTH_" + stamp
    ensures out.0.Failed? ==> out.1 == users
    ensures ValidStore(users) ==> ValidStore(out.1)
  {
    var email := FirstEmail(profile);
    if !Truthy(email) then (Failed(NoEmail), users)
    else if !storeUp then (Failed(StoreFailure), users)
    else
      var (user, users') :=
        match FindByEmail(users, email.value)
        case Some(existing) => (existing, users)
        case None => CreateUser(users, email.value, SentinelPrefix + stamp, Some(profile.displayName));
      (Done(user, SessionToken(user.id, user.email)), users')
  }

  /** Signing in twice with the same email creates nothing the second time and
      resolves to the same user. */
  lemma VerifyIsIdempotent(
    users: seq<User>, first: Profile, second: Profile, stamp1: string, stamp2: string)
    requires ValidStore(users)
    requires Truthy(FirstEmail(first)) && FirstEmail(second) == FirstEmail(first)
    ensures
      var once := Verify(users, true, first, stamp1);
      var twice := Verify(once.1, true, second, stamp2);
      && once.0.Done? && twice.0.Done?
      && twice.1 == once.1
      && twice.0.user == once.0.user
  {
  }

  /** An account created by Google sign-in carries the marker instead of a hash. */
  lemma CreatedAccountsAreMarked(users: seq<User>, profile: Profile, stamp: string)
    requires Truthy(FirstEmail(profile)) && !HasEmail(users, FirstEmail(profile).value)
    ensures
      var out := Verify(users, true, profile, stamp);
      && out.0.Done?
      && |out.0.user.passwordHash| >= |SentinelPrefix|
      && out.0.user.passwordHash[..|SentinelPrefix|] == SentinelPrefix
  {
  }
}
