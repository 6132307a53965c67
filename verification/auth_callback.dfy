/** The front-end page that the server's Google callback redirects to with
    `?token=...`: keep the token and go home, or go back to the login page. */
module AuthCallback {

  import opened Optional

  const TokenKey := "authToken"
  const HomePath := "/"
  const FailurePath := "/login?error=callback_failed"

  /** The decoded query string as (name, value) pairs in order. */
  type Query = seq<(string, string)>

  /** `URLSearchParams.get(name)`: the value of the first pair with that name. */
  function QueryGet(query: Query, name: string): (v: Option<string>)
    ensures v.None? <==> forall i | 0 <= i < |query| :: query[i].0 != name
    ensures v.Some? ==> exists i | 0 <= i < |query| ::
      query[i] == (name, v.value) && forall j | 0 <= j < i :: query[j].0 != name
  {
    if |query| == 0 then None
    else if query[0].0 == name then Some(query[0].1)
    else
      var rest := QueryGet(query[1..], name);
      assert rest.Some? ==> exists i | 0 <= i < |query| ::
        query[i] == (name, rest.value) && forall j | 0 <= j < i :: query[j].0 != name
      by {
        if rest.Some? {
          var i :| 0 <= i < |query| - 1 && query[1..][i] == (name, rest.value)
            && forall j | 0 <= j < i :: query[1..][j].0 != name;
          assert query[i + 1] == (name, rest.value);
          forall j | 0 <= j < i + 1 ensures query[j].0 != name {
            if j > 0 { assert query[j] == query[1..][j - 1]; }
          }
        }
      }
      assert rest.None? ==> forall i | 0 <= i < |query| :: query[i].0 != name by {
        if rest.None? {
          forall i | 0 <= i < |query| ensures query[i].0 != name {
            if i > 0 { assert query[i] == query[1..][i - 1]; }
          }
        }
      }
      rest
  }

  /** The effect of the page: the local storage afterwards and the one place it
      navigates to. */
  datatype Effect = Effect(storage: map<string, string>, navigateTo: string)

  /** A non-empty token is stored under "authToken" and the page goes home; a missing
      or empty token leaves storage alone and goes to the login page with an error. */
  function HandleCallback(query: Query, storage: map<string, string>): (e: Effect)
    ensures e.navigateTo == "/" <==> Truthy(QueryGet(query, "token"))
    ensures e.navigateTo != "/" ==> e.navigateTo == "/login?error=callback_failed"
    ensures Truthy(QueryGet(query, "token")) ==>
      "authToken" in e.storage && e.storage["authToken"] == QueryGet(query, "token").value
    ensures !Truthy(QueryGet(query, "token")) ==> e.storage == storage
    ensures forall k | k != "authToken" :: (k in e.storage <==> k in storage)
    ensures forall k | k != "authToken" && k in storage :: e.storage[k] == storage[k]
  {
    match QueryGet(query, "token")
    case Some(token) =>
      if token != "" then Effect(storage[TokenKey := token], HomePath)
      else Effect(storage, FailurePath)
    case None => Effect(storage, FailurePath)
  }

  /** `?token=` with nothing after it takes the failure branch. */
  lemma EmptyTokenFails(storage: map<string, string>)
    ensures HandleCallback([("token", "")], storage) == Effect(storage, "/login?error=callback_failed")
  {
  }
}
