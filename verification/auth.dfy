/**
 * The mobile session module (`AuthProvider` in mobile/src/hooks/auth.tsx) as a
 * sequential state machine. Each operation is one atomic transition of an
 * immutable `State`: the AsyncStorage contents, the React `userData` record,
 * the API client's `authorization` default header and the `loading` flag.
 * The operations follow the code as written; `AuthFindings` holds the two
 * places where it departs from the intended design.
 */
module Auth {
  import opened Wrappers
  import opened UserCodec

  const TokenKey: string := "@GoBarber:token"
  const UserKey: string := "@GoBarber:user"

  /** AsyncStorage: string keys to string values. */
  type Store = map<string, string>

  /**
   * `userData`. The code initialises it to `{}` and `updateUser` may write a
   * user beside an `undefined` token, so both parts are optional.
   */
  datatype AuthState = AuthState(token: Option<string>, user: Option<User>)

  /** `{} as AuthState`: no token and no user. */
  const NoSession: AuthState := AuthState(None, None)

  datatype State = State(
    store: Store,
    userData: AuthState,
    authorization: Option<string>,
    loading: bool)

  /** How the promise returned by an operation settles. */
  datatype Outcome = Resolved | Rejected

  datatype Completion = Completion(state: State, outcome: Outcome)

  /** The settled result of `api.post('/sessions', …)`. */
  datatype SessionResponse = Accepted(token: string, user: User) | Refused

  function Lookup(store: Store, key: string): Option<string> {
    if key in store then Some(store[key]) else None
  }

  /** JavaScript truthiness of a `string | null` read from storage. */
  predicate Truthy(v: Option<string>) {
    v.Some? && v.value != ""
  }

  /** The `authorization` header value for `token`: the `Bearer` scheme, a space, then the token. */
  function Bearer(token: string): (r: string)
    ensures |r| == |token| + 7 && r[..7] == "Bearer " && r[7..] == token
  {
    "Bearer " + token
  }

  /** Every key other than the two session keys reads the same in both stores. */
  ghost predicate OthersUnchanged(before: Store, after: Store) {
    forall k :: k != TokenKey && k != UserKey ==> Lookup(before, k) == Lookup(after, k)
  }

  /**
   * The provider when it mounts: the persisted store, the header the API
   * client was created with, no session and `loading` true.
   */
  function Mount(store: Store, authorization: Option<string>): (r: State)
    ensures r.loading && PublishedUser(r) == None && r.userData.token == None
    ensures r.store == store && r.authorization == authorization
  {
    State(store, NoSession, authorization, true)
  }

  /**
   * The `user` field published through the context: the in-memory user,
   * absent whenever there is no session.
   */
  function PublishedUser(s: State): (r: Option<User>)
    ensures r.Some? ==> s.userData == AuthState(s.userData.token, r)
    ensures s.userData.user.Some? ==> r == s.userData.user
    ensures s.userData == NoSession ==> r == None
  {
    s.userData.user
  }

  /**
   * `signIn`. Every write follows the awaited backend call, so a refused call
   * changes nothing and rejects; an accepted one writes both keys, sets the
   * header and the session.
   */
  function SignIn(s: State, response: SessionResponse): (r: Completion)
    ensures response.Refused? ==> r.outcome == Rejected && r.state == s
    ensures response.Accepted? ==>
      && r.outcome == Resolved
      && Lookup(r.state.store, TokenKey) == Some(response.token)
      && Lookup(r.state.store, UserKey) == Some(Encode(response.user))
      && r.state.authorization == Some(Bearer(response.token))
      && r.state.userData == AuthState(Some(response.token), Some(response.user))
    ensures OthersUnchanged(s.store, r.state.store)
    ensures r.state.loading == s.loading
  {
    match response
    case Refused => Completion(s, Rejected)
    case Accepted(token, user) =>
      var store := s.store[TokenKey := token][UserKey := Encode(user)];
      Completion(State(store, AuthState(Some(token), Some(user)), Some(Bearer(token)), s.loading), Resolved)
  }

  /**
   * `signOut`: removes exactly the two session keys and forgets the session.
   * The header is not touched.
   */
  function SignOut(s: State): (r: State)
    ensures TokenKey !in r.store && UserKey !in r.store
    ensures OthersUnchanged(s.store, r.store)
    ensures r.store.Keys == s.store.Keys - {TokenKey, UserKey}
    ensures r.userData == NoSession && PublishedUser(r) == None
    ensures r.authorization == s.authorization && r.loading == s.loading
  {
    s.(store := s.store - {TokenKey, UserKey}, userData := NoSession)
  }

  /**
   * `updateUser`: replaces the user beside whatever token is in memory (none
   * if nobody signed in) and persists only the user key.
   */
  function UpdateUser(s: State, u: User): (r: State)
    ensures r.userData.token == s.userData.token && PublishedUser(r) == Some(u)
    ensures Lookup(r.store, UserKey) == Some(Encode(u))
    ensures Lookup(r.store, TokenKey) == Lookup(s.store, TokenKey)
    ensures OthersUnchanged(s.store, r.store)
    ensures r.authorization == s.authorization && r.loading == s.loading
  {
    s.(userData := AuthState(s.userData.token, Some(u)), store := s.store[UserKey := Encode(u)])
  }

  /**
   * `loadStorages`, as written. When both entries are truthy the header is set
   * first; if the user entry then fails to parse, the promise rejects before
   * the session is set and before `loading` is cleared.
   */
  function LoadStorages(s: State): (r: Completion)
    ensures r.state.store == s.store
    ensures var token := Lookup(s.store, TokenKey); var user := Lookup(s.store, UserKey);
      && (!(Truthy(token) && Truthy(user)) ==>
            r == Completion(s.(loading := false), Resolved))
      && (Truthy(token) && Truthy(user) ==>
            r.state.authorization == Some(Bearer(token.value)))
      && (Truthy(token) && Truthy(user) && Decode(user.value).Some? ==>
            && r.outcome == Resolved && !r.state.loading
            && r.state.userData == AuthState(token, Decode(user.value)))
      && (Truthy(token) && Truthy(user) && Decode(user.value).None? ==>
            && r.outcome == Rejected && r.state.loading == s.loading
            && r.state.userData == s.userData)
  {
    var token := Lookup(s.store, TokenKey);
    var user := Lookup(s.store, UserKey);
    if Truthy(token) && Truthy(user) then
      var s' := s.(authorization := Some(Bearer(token.value)));
      match Decode(user.value)
      case None => Completion(s', Rejected)
      case Some(u) => Completion(s'.(userData := AuthState(token, Some(u)), loading := false), Resolved)
    else
      Completion(s.(loading := false), Resolved)
  }

  /**
   * Signing in and then restoring from the resulting store (a restart) brings
   * back the same session and header, and ends loading, provided the token is
   * non-empty.
   */
  lemma SignInThenRestore(s: State, token: string, user: User, header: Option<string>)
    requires token != ""
    ensures var signedIn := SignIn(s, Accepted(token, user)).state;
      var r := LoadStorages(Mount(signedIn.store, header));
      && r.outcome == Resolved
      && r.state.userData == signedIn.userData
      && PublishedUser(r.state) == Some(user)
      && r.state.authorization == Some(Bearer(token))
      && !r.state.loading
  {
    DecodeEncode(user);
  }

  /** The same holds when restoring over the very state sign-in produced. */
  lemma SignInThenLoadInPlace(s: State, token: string, user: User)
    requires token != ""
    ensures var signedIn := SignIn(s, Accepted(token, user)).state;
      LoadStorages(signedIn) == Completion(signedIn.(loading := false), Resolved)
  {
    DecodeEncode(user);
  }

  /** An empty token is stored by sign-in but counts as absent on restore. */
  lemma SignInEmptyTokenNotRestored(s: State, user: User, header: Option<string>)
    ensures var signedIn := SignIn(s, Accepted("", user)).state;
      var r := LoadStorages(Mount(signedIn.store, header));
      && Lookup(signedIn.store, TokenKey) == Some("")
      && r.state.userData == NoSession && r.state.authorization == header
      && !r.state.loading
  {
  }

  /** Restoring twice from an unchanged store gives the state restoring once gave. */
  lemma LoadStoragesIdempotent(s: State)
    ensures LoadStorages(LoadStorages(s).state).state == LoadStorages(s).state
  {
  }

  /** Signing out twice is signing out once. */
  lemma SignOutIdempotent(s: State)
    ensures SignOut(SignOut(s)) == SignOut(s)
  {
  }

  /** After `loadStorages` resolves, `loading` is false, whatever the store held. */
  lemma LoadStoragesEndsLoading(s: State)
    ensures LoadStorages(s).outcome == Resolved ==> !LoadStorages(s).state.loading
  {
  }

  /**
   * `loadStorages` resolves exactly when the user entry is not a truthy string
   * that fails to parse, in particular whenever the app itself wrote it.
   */
  lemma LoadStoragesResolves(s: State)
    ensures LoadStorages(s).outcome == Resolved <==>
      !(Truthy(Lookup(s.store, TokenKey)) && Truthy(Lookup(s.store, UserKey))
        && Decode(Lookup(s.store, UserKey).value).None?)
  {
  }

  /** A store holding no session restores to no session. */
  lemma RestoreFromEmptyStore(header: Option<string>)
    ensures var r := LoadStorages(Mount(map[], header));
      r == Completion(Mount(map[], header).(loading := false), Resolved)
      && PublishedUser(r.state) == None
  {
  }

  /**
   * `updateUser` with nobody signed in: the session is half populated and the
   * user is persisted without a token, so a restart does not restore it.
   */
  lemma UpdateUserWithoutSession(s: State, u: User, header: Option<string>)
    requires s.userData == NoSession && TokenKey !in s.store
    ensures var r := UpdateUser(s, u);
      && r.userData == AuthState(None, Some(u))
      && Lookup(r.store, UserKey) == Some(Encode(u)) && TokenKey !in r.store
      && LoadStorages(Mount(r.store, header)).state.userData == NoSession
  {
  }

  /** Starting from a session `(t1, u1)`, updating to `u2` keeps `t1` in memory and storage. */
  lemma UpdateUserKeepsToken(s: State, t1: string, u1: User, u2: User)
    requires s.userData == AuthState(Some(t1), Some(u1))
    ensures var r := UpdateUser(s, u2);
      && r.userData == AuthState(Some(t1), Some(u2))
      && Decode(r.store[UserKey]) == Some(u2)
      && Lookup(r.store, TokenKey) == Lookup(s.store, TokenKey)
  {
    DecodeEncode(u2);
  }
}
