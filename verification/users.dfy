/** The user table as the credential code sees it: look up by email, append a new
    user. The table is a list whose emails are pairwise distinct (the email column
    is unique), so a lookup by email finds at most one user. */
module Users {

  import opened Optional
  import Ids

  /** A stored account. `passwordHash` holds a password hash for password accounts and
      a "GOOGLE_AUTH_"-prefixed marker for accounts created by Google sign-in. */
  datatype User = User(id: string, email: string, passwordHash: string, name: Option<string>)

  predicate EmailsUnique(users: seq<User>) {
    forall i, j | 0 <= i < j < |users| :: users[i].email != users[j].email
  }

  predicate IdsUnique(users: seq<User>) {
    forall i, j | 0 <= i < j < |users| :: users[i].id != users[j].id
  }

  /** The invariant the database keeps for the user table. */
  predicate ValidStore(users: seq<User>) {
    EmailsUnique(users) && IdsUnique(users)
  }

  predicate HasEmail(users: seq<User>, email: string) {
    exists i | 0 <= i < |users| :: users[i].email == email
  }

  /** The identities of a user list, in list order. */
  function UserIds(users: seq<User>): seq<string> {
    Ids.IdsOf(users, (u: User) => u.id)
  }

  /** `findUnique({ where: { email } })`: the first user with this email, if any. */
  function FindByEmail(users: seq<User>, email: string): (r: Option<User>)
    ensures r.Some? <==> HasEmail(users, email)
    ensures r.Some? ==> r.value in users && r.value.email == email
  {
    if |users| == 0 then None
    else if users[0].email == email then Some(users[0])
    else
      var rest := FindByEmail(users[1..], email);
      assert HasEmail(users, email) <==> HasEmail(users[1..], email) by {
        if HasEmail(users, email) {
          var i :| 0 <= i < |users| && users[i].email == email;
          assert users[1..][i - 1].email == email;
        }
        if HasEmail(users[1..], email) {
          var i :| 0 <= i < |users| - 1 && users[1..][i].email == email;
          assert users[i + 1].email == email;
        }
      }
      rest
  }

  /** In a valid table the lookup finds the one user that carries the email. */
  lemma FindsTheStoredUser(users: seq<User>, k: nat)
    requires ValidStore(users) && k < |users|
    ensures FindByEmail(users, users[k].email) == Some(users[k])
  {
  }

  /** `user.create(...)`: appends a user under an identity no stored user has. */
  function CreateUser(users: seq<User>, email: string, passwordHash: string, name: Option<string>)
    : (out: (User, seq<User>))
    ensures out.1 == users + [out.0]
    ensures out.0.email == email && out.0.passwordHash == passwordHash && out.0.name == name
    ensures out.0.id !in UserIds(users)
    ensures ValidStore(users) && !HasEmail(users, email) ==> ValidStore(out.1)
  {
    var u := User(Ids.FreshId(UserIds(users)), email, passwordHash, name);
    assert forall i | 0 <= i < |users| :: users[i].id != u.id by {
      forall i | 0 <= i < |users| ensures users[i].id != u.id {
        assert UserIds(users)[i] == users[i].id;
      }
    }
    (u, users + [u])
  }
}
