/** The session store: the signed-in branch held in memory, seeded from
    the browser's local storage when the application loads, replaced by
    `setUser` and cleared by `logout`. */
module Auth {
  import opened Js

  /** The browser's local storage: string keys to string values. */
  type Storage = map<string, string>

  /** The auth slice's state; `user` is null when nobody is signed in. */
  datatype AuthState = AuthState(user: Value)

  /** The state the store starts in: the parsed "branch" entry, null when
      the entry is missing or parses to a falsy value. `parse` stands for
      `JSON.parse`, None where it throws, in which case loading fails. */
  function InitialAuth(storage: Storage, parse: string -> Option<Value>): (r: Option<AuthState>)
    ensures "branch" !in storage ==> r == Some(AuthState(Null))
    ensures "branch" in storage ==> (r.None? <==> parse(storage["branch"]).None?)
    ensures r.Some? ==> Truthy(r.value.user) || r.value.user == Null
    ensures "branch" in storage && parse(storage["branch"]).Some? && Truthy(parse(storage["branch"]).value) ==>
      r == Some(AuthState(parse(storage["branch"]).value))
    ensures "branch" in storage && parse(storage["branch"]).Some? && !Truthy(parse(storage["branch"]).value) ==>
      r == Some(AuthState(Null))
  {
    if "branch" !in storage then Some(AuthState(Null))
    else
      match parse(storage["branch"])
      case None => None
      case Some(v) => Some(AuthState(Or(v, Null)))
  }

  /** The role `setUser` looks at: `payload?.user?.role`. */
  function NestedRole(payload: Value): Value
  {
    Prop(Prop(payload, "user"), "role")
  }

  /** `setUser` as written: the payload becomes the user only when its
      nested `user.role` is "branch"; any other payload leaves the state
      as it was. */
  function SetUser(s: AuthState, payload: Value): (r: AuthState)
    ensures NestedRole(payload) == Str("branch") ==> r.user == payload
    ensures NestedRole(payload) != Str("branch") ==> r == s
  {
    if NestedRole(payload) == Str("branch") then AuthState(payload) else s
  }

  /** Dispatching the same payload twice is dispatching it once. */
  lemma SetUserIdempotent(s: AuthState, payload: Value)
    ensures SetUser(SetUser(s, payload), payload) == SetUser(s, payload)
  {
  }

  /** The branch record the sign-in page dispatches carries its role at
      the top level and no nested user, so `setUser` ignores it. */
  lemma SetUserIgnoresBranchRecord(s: AuthState, branch: Value)
    requires Prop(branch, "role") == Str("branch")
    requires !Prop(branch, "user").Obj?
    ensures SetUser(s, branch) == s
  {
  }

  /** `setUser` as evidently intended: a payload whose own role is
      "branch" becomes the user; any other payload is ignored. */
  function SetUserFixed(s: AuthState, payload: Value): (r: AuthState)
    ensures Prop(payload, "role") == Str("branch") ==> r.user == payload
    ensures Prop(payload, "role") != Str("branch") ==> r == s
    ensures Truthy(r.user) || r == s
  {
    if Prop(payload, "role") == Str("branch") then AuthState(payload) else s
  }

  /** The corrected reducer takes the branch record, is idempotent, and
      still refuses a record with any other role. */
  lemma SetUserFixedAcceptsBranchRecord(s: AuthState, branch: Value)
    requires Prop(branch, "role") == Str("branch")
    ensures SetUserFixed(s, branch).user == branch
    ensures SetUserFixed(SetUserFixed(s, branch), branch) == SetUserFixed(s, branch)
    ensures forall other :: Prop(other, "role") != Str("branch") ==> SetUserFixed(s, other) == s
  {
  }

  /** `logout`: nobody is signed in, and the "branch" and "token" entries
      are gone from storage while every other entry stays. */
  function Logout(s: AuthState, storage: Storage): (r: (AuthState, Storage))
    ensures r.0.user == Null
    ensures r.1.Keys == storage.Keys - {"branch", "token"}
    ensures forall k :: k in r.1 ==> r.1[k] == storage[k]
  {
    (AuthState(Null), storage - {"branch", "token"})
  }

  /** After a logout, reloading the application starts signed out, and a
      second logout changes nothing. */
  lemma LogoutThenReload(s: AuthState, storage: Storage, parse: string -> Option<Value>)
    ensures InitialAuth(Logout(s, storage).1, parse) == Some(AuthState(Null))
    ensures Logout(Logout(s, storage).0, Logout(s, storage).1) == Logout(s, storage)
  {
    var once := Logout(s, storage);
    assert "branch" !in once.1;
    assert once.1 - {"branch", "token"} == once.1;
  }
}
