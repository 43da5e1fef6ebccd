/** Authentication of API requests by a bearer token, and the guard of the
    admin-only endpoints. */
module Auth {
  import opened Common
  import opened Store
  import opened Text

  const BearerPrefix := "Bearer "

  /** The authenticated user as the request sees it. */
  datatype AuthUser = AuthUser(id: int, username: string, isAdmin: bool)

  /** The result of authentication: the user and the token that found it. */
  datatype Authenticated = Authenticated(user: AuthUser, apiKey: string)

  /** pat occurs in s at position k. */
  predicate OccursAt(s: string, pat: string, k: int)
  {
    0 <= k && k + |pat| <= |s| && s[k..k + |pat|] == pat
  }

  /** The first position at or after i where pat occurs in s. */
  function FindFrom(s: string, pat: string, i: nat): (r: Option<nat>)
    requires i <= |s|
    ensures r.Some? ==> i <= r.value && OccursAt(s, pat, r.value) &&
                        forall k :: i <= k < r.value ==> !OccursAt(s, pat, k)
    ensures r.None? ==> forall k :: i <= k <= |s| ==> !OccursAt(s, pat, k)
    decreases |s| - i
  {
    if i + |pat| > |s| then None
    else if s[i..i + |pat|] == pat then Some(i)
    else if i == |s| then None
    else FindFrom(s, pat, i + 1)
  }

  /** The first position where pat occurs in s, as str.find gives it. */
  function FindFirst(s: string, pat: string): (r: Option<nat>)
    ensures r.Some? ==> OccursAt(s, pat, r.value) && forall k :: 0 <= k < r.value ==> !OccursAt(s, pat, k)
    ensures r.None? ==> forall k :: 0 <= k <= |s| ==> !OccursAt(s, pat, k)
  {
    FindFrom(s, pat, 0)
  }

  /** str.replace(old, new, 1): the first occurrence of old replaced. */
  function ReplaceFirst(s: string, target: string, replacement: string): (r: string)
  {
    var at := FindFirst(s, target);
    if at.None? then s else s[..at.value] + replacement + s[at.value + |target|..]
  }

  /** The api key carried by an Authorization header: the first "Bearer "
      removed, wherever it is, then the surrounding whitespace. */
  function ExtractToken(header: string): string
  {
    Strip(ReplaceFirst(header, BearerPrefix, ""))
  }

  /** The user whose api key the request carries. A missing or empty
      header, a key that no user has, or a user with an empty name is
      refused; the first user with the key is the one that counts. */
  function AuthenticateRequest(users: seq<User>, header: Option<string>): (r: Result<Authenticated>)
    ensures r.Err? ==> r.error == NotAuthorized
    ensures (header.None? || header.value == "") ==> r.Err?
    ensures r.Ok? <==>
      header.Some? && header.value != "" &&
      exists i :: 0 <= i < |users| && users[i].apiKey == ExtractToken(header.value) && users[i].username != "" &&
        forall j :: 0 <= j < i ==> users[j].apiKey != ExtractToken(header.value)
    ensures r.Ok? ==>
      r.value.apiKey == ExtractToken(header.value) &&
      exists i :: 0 <= i < |users| && users[i].apiKey == r.value.apiKey &&
        r.value.user == AuthUser(users[i].id, users[i].username, users[i].isAdmin) &&
        forall j :: 0 <= j < i ==> users[j].apiKey != r.value.apiKey
  {
    if header.None? || header.value == "" then Err(NotAuthorized)
    else
      var token := ExtractToken(header.value);
      var found := First(users, (u: User) => u.apiKey == token);
      if found.None? then Err(NotAuthorized)
      else
        var user := AuthUser(found.value.id, found.value.username, found.value.isAdmin);
        if user.username == "" then Err(NotAuthorized)
        else Ok(Authenticated(user, token))
  }

  /** The guard of the admin endpoints. */
  function AdminUserGuard(user: AuthUser): (r: Result<()>)
  {
    if !user.isAdmin then Err(NotAuthorized) else Ok(())
  }

  /** A request reaches an admin endpoint exactly when its key belongs
      first to a named admin. */
  lemma AdminAccess(users: seq<User>, header: Option<string>)
    requires AuthenticateRequest(users, header).Ok?
    ensures AdminUserGuard(AuthenticateRequest(users, header).value.user).Ok? <==>
      exists i :: 0 <= i < |users| && users[i].apiKey == ExtractToken(header.value) && users[i].isAdmin &&
        forall j :: 0 <= j < i ==> users[j].apiKey != ExtractToken(header.value)
  {
    var a := AuthenticateRequest(users, header).value;
    var i :| 0 <= i < |users| && users[i].apiKey == a.apiKey &&
      a.user == AuthUser(users[i].id, users[i].username, users[i].isAdmin) &&
      forall j :: 0 <= j < i ==> users[j].apiKey != a.apiKey;
    forall i' | 0 <= i' < |users| && users[i'].apiKey == a.apiKey &&
                (forall j :: 0 <= j < i' ==> users[j].apiKey != a.apiKey)
      ensures i' == i
    {
    }
  }

  /** Removing the first "Bearer " of a header that starts with it leaves
      the rest. */
  lemma {:induction false} ExtractFromBearer(token: string)
    ensures ExtractToken(BearerPrefix + token) == Strip(token)
  {
    var h := BearerPrefix + token;
    assert h[0..|BearerPrefix|] == BearerPrefix;
    assert OccursAt(h, BearerPrefix, 0);
    assert FindFirst(h, BearerPrefix) == Some(0);
    assert h[..0] + "" + h[|BearerPrefix|..] == token;
  }
}
