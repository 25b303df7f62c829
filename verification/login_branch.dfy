/** The branch sign-in page: the required-field check, the decision taken
    on the server's answer (role, token, redirect), the fallback on a
    failed request, and the restore of a stored session on opening. */
module LoginBranch {
  import opened Js
  import opened Forms
  import opened Auth

  /** A toast notification. */
  datatype Toast = ErrorToast(msg: string) | SuccessToast(msg: string)

  /** What one step of the page leaves behind: the errors shown, the
      toast raised, the payload dispatched to `setUser`, the storage and
      the route navigated to. */
  datatype Outcome = Outcome(
    errors: Object,
    toast: Option<Toast>,
    dispatched: Option<Value>,
    storage: Storage,
    navigateTo: Option<string>)

  /** A sign-in attempt is either stopped on the page or sent. */
  datatype Attempt = Rejected(errors: Object, toast: Toast) | Request(body: seq<Entry>)

  const RoleError: string := "Access Denied: Only Branch accounts can log in here."
  const TokenError: string := "Login failed: Authentication token is missing."
  const FallbackError: string := "Login failed. Please check your credentials and try again."

  /** `!value && message`: the message for an empty input, false otherwise. */
  function Required(value: string, message: string): (r: Value)
    ensures r == Str(message) <==> value == ""
    ensures r == Bool(false) <==> value != ""
  {
    if value == "" then Str(message) else Bool(false)
  }

  /** The submit handler's own check: an empty email or password stops the
      attempt with an error on each empty field; otherwise the request body
      carries both inputs once each. */
  function HandleLogin(email: string, password: string): (r: Attempt)
    ensures r.Rejected? <==> email == "" || password == ""
    ensures r.Rejected? ==>
      && (Get(r.errors, "email") == Str("Email is required") <==> email == "")
      && (Get(r.errors, "password") == Str("Password is required") <==> password == "")
      && !Truthy(Get(r.errors, "general"))
      && r.toast.ErrorToast?
    ensures r.Request? ==>
      && ValuesAt(r.body, Plain("email")) == [Str(email)]
      && ValuesAt(r.body, Plain("password")) == [Str(password)]
      && |r.body| == 2
  {
    if email == "" || password == "" then
      Rejected(map["email" := Required(email, "Email is required"),
                   "password" := Required(password, "Password is required")],
               ErrorToast("Please fill in all required fields"))
    else
      var body := [Entry(Plain("email"), Str(email)), Entry(Plain("password"), Str(password))];
      assert ValuesAt(body, Plain("email")) == [Str(email)] by {
        ValuesAtAppend([body[0]], [body[1]], Plain("email"));
        ValuesAtSingle(body[0], Plain("email"));
        ValuesAtSingle(body[1], Plain("email"));
      }
      assert ValuesAt(body, Plain("password")) == [Str(password)] by {
        ValuesAtAppend([body[0]], [body[1]], Plain("password"));
        ValuesAtSingle(body[0], Plain("password"));
        ValuesAtSingle(body[1], Plain("password"));
      }
      Request(body)
  }

  /** `redirect || "/"`: the `redirect` query parameter unless it is
      missing or empty. */
  function Target(redirect: Option<string>): (r: string)
    ensures redirect.Some? && redirect.value != "" ==> r == redirect.value
    ensures !(redirect.Some? && redirect.value != "") ==> r == "/"
  {
    if redirect.Some? && redirect.value != "" then redirect.value else "/"
  }

  /** The answer to a request that succeeded. A record whose role is not
      "branch" is refused with a general error and nothing is written; a
      branch with a token is dispatched, stored under "branch" and
      "token", and the page moves on to the redirect target; a branch
      without a token gets an error and nothing is written. `stringify`
      stands for `JSON.stringify`. */
  function OnSuccess(data: Value, storage: Storage, redirect: Option<string>,
                     stringify: Value -> string): (r: Outcome)
    ensures var branch := Prop(data, "admin");
      Prop(branch, "role") != Str("branch") ==>
        && r.errors == map["general" := Str(RoleError)]
        && r.toast == Some(ErrorToast(RoleError))
        && r.dispatched.None? && r.storage == storage && r.navigateTo.None?
    ensures var branch := Prop(data, "admin");
      Prop(branch, "role") == Str("branch") && Truthy(Prop(branch, "token")) ==>
        && r.errors == map[]
        && r.dispatched == Some(branch)
        && r.storage.Keys == storage.Keys + {"branch", "token"}
        && r.storage["branch"] == stringify(branch)
        && r.storage["token"] == ToJsString(Prop(branch, "token"))
        && (forall k :: k in storage && k != "branch" && k != "token" ==> r.storage[k] == storage[k])
        && r.navigateTo == Some(Target(redirect))
    ensures var branch := Prop(data, "admin");
      Prop(branch, "role") == Str("branch") && !Truthy(Prop(branch, "token")) ==>
        && r.errors == map["general" := Str(TokenError)]
        && r.toast.Some? && r.toast.value.ErrorToast?
        && r.dispatched.None? && r.storage == storage && r.navigateTo.None?
    ensures r.dispatched.Some? <==> r.navigateTo.Some?
    ensures r.dispatched.None? ==> r.storage == storage
  {
    var branch := Prop(data, "admin");
    if Prop(branch, "role") != Str("branch") then
      Outcome(map["general" := Str(RoleError)], Some(ErrorToast(RoleError)), None, storage, None)
    else if Truthy(Prop(branch, "token")) then
      Outcome(map[], Some(SuccessToast("Login successful!")), Some(branch),
              storage["branch" := stringify(branch)]["token" := ToJsString(Prop(branch, "token"))],
              Some(Target(redirect)))
    else
      Outcome(map["general" := Str(TokenError)], Some(ErrorToast("An unexpected error occurred during login.")),
              None, storage, None)
  }

  /** The answer to a request that failed: the error's message, or the
      fixed fallback, shown as a general error; nothing else changes. */
  function OnError(error: Value, storage: Storage): (r: Outcome)
    ensures Truthy(Prop(error, "message")) ==> r.errors == map["general" := Prop(error, "message")]
    ensures !Truthy(Prop(error, "message")) ==> r.errors == map["general" := Str(FallbackError)]
    ensures Truthy(Get(r.errors, "general"))
    ensures r.dispatched.None? && r.storage == storage && r.navigateTo.None?
  {
    var message := Or(Prop(error, "message"), Str(FallbackError));
    Outcome(map["general" := message], Some(ErrorToast(ToJsString(message))), None, storage, None)
  }

  /** `branch && token`: both entries are present and non-empty. */
  predicate BothStored(storage: Storage)
  {
    "branch" in storage && storage["branch"] != "" && "token" in storage && storage["token"] != ""
  }

  /** The condition under which a stored session is taken over: both
      entries are present and non-empty, the "branch" entry parses, and
      the parsed record has role "branch" and the stored token. */
  predicate Restorable(storage: Storage, parse: string -> Option<Value>)
  {
    && BothStored(storage)
    && parse(storage["branch"]).Some?
    && Prop(parse(storage["branch"]).value, "role") == Str("branch")
    && Prop(parse(storage["branch"]).value, "token") == Str(storage["token"])
  }

  /** The check on opening the page. A restorable session is dispatched
      and the page moves to "/"; with both entries present but the record
      unreadable, of another role or with another token, the whole
      storage is cleared; with an entry missing or empty nothing happens.
      A parsed null throws on `.role` and is cleared like a parse
      failure. */
  function Restore(storage: Storage, parse: string -> Option<Value>): (r: Outcome)
    ensures r.errors == map[] && r.toast.None?
    ensures Restorable(storage, parse) ==>
      && r.dispatched == Some(parse(storage["branch"]).value)
      && r.storage == storage && r.navigateTo == Some("/")
    ensures !Restorable(storage, parse) ==> r.dispatched.None? && r.navigateTo.None?
    ensures !Restorable(storage, parse) && BothStored(storage) ==> r.storage == map[]
    ensures !BothStored(storage) ==> r.storage == storage
  {
    if BothStored(storage) then
      if Restorable(storage, parse) then
        Outcome(map[], None, Some(parse(storage["branch"]).value), storage, Some("/"))
      else
        Outcome(map[], None, None, map[], None)
    else
      Outcome(map[], None, None, storage, None)
  }

  /** A sign-in that stored a session, followed by a reload of the page,
      restores the same branch record, given that parsing undoes
      stringifying and the token is text. */
  lemma LoginThenRestore(data: Value, storage: Storage, redirect: Option<string>,
                         stringify: Value -> string, parse: string -> Option<Value>)
    requires Prop(Prop(data, "admin"), "role") == Str("branch")
    requires Prop(Prop(data, "admin"), "token").Str? && Prop(Prop(data, "admin"), "token").s != ""
    requires parse(stringify(Prop(data, "admin"))) == Some(Prop(data, "admin"))
    requires stringify(Prop(data, "admin")) != ""
    ensures var after := OnSuccess(data, storage, redirect, stringify).storage;
      Restorable(after, parse) && Restore(after, parse).dispatched == Some(Prop(data, "admin"))
  {
  }

  /** The dispatch of a successful sign-in as written: the store ignores
      the branch record, so the signed-in state in memory stays as it was
      while storage already holds the new session. */
  lemma LoginDispatchIgnored(data: Value, s: AuthState, storage: Storage, redirect: Option<string>,
                             stringify: Value -> string)
    requires Prop(Prop(data, "admin"), "role") == Str("branch") && Truthy(Prop(Prop(data, "admin"), "token"))
    requires !Prop(Prop(data, "admin"), "user").Obj?
    ensures var out := OnSuccess(data, storage, redirect, stringify);
      && out.dispatched.Some?
      && SetUser(s, out.dispatched.value) == s
      && "branch" in out.storage
  {
    SetUserIgnoresBranchRecord(s, Prop(data, "admin"));
  }

  /** With the corrected reducer, the state after a successful sign-in is
      the state a reload reads back from storage. */
  lemma LoginDispatchFixed(data: Value, s: AuthState, storage: Storage, redirect: Option<string>,
                           stringify: Value -> string, parse: string -> Option<Value>)
    requires Prop(Prop(data, "admin"), "role") == Str("branch") && Truthy(Prop(Prop(data, "admin"), "token"))
    requires parse(stringify(Prop(data, "admin"))) == Some(Prop(data, "admin"))
    ensures var out := OnSuccess(data, storage, redirect, stringify);
      && out.dispatched.Some?
      && Some(SetUserFixed(s, out.dispatched.value)) == InitialAuth(out.storage, parse)
  {
    var branch := Prop(data, "admin");
    assert branch.Obj?;
    assert Truthy(branch);
  }
}
