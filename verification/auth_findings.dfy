/**
 * Two places where the session module as written departs from its intended
 * design, each with the code as written (in `Auth`), an input exhibiting the
 * difference, and the corrected operation with the intended property.
 */
module AuthFindings {
  import opened Wrappers
  import opened UserCodec
  import opened Auth

  /**
   * `signOut` as intended: besides removing the two keys and the session it
   * clears the API client's authorization header.
   */
  function SignOutClearingHeader(s: State): (r: State)
    ensures r.authorization == None
    ensures TokenKey !in r.store && UserKey !in r.store
    ensures OthersUnchanged(s.store, r.store)
    ensures r.userData == NoSession && r.loading == s.loading
  {
    SignOut(s).(authorization := None)
  }

  /** As written, signing out after signing in leaves `Bearer <token>` on the client. */
  lemma SignOutKeepsStaleHeader(u: User)
    ensures var signedIn := SignIn(Mount(map[], None), Accepted("abc", u)).state;
      var out := SignOut(signedIn);
      && PublishedUser(out) == None
      && out.authorization == Some("Bearer abc")
      && SignOutClearingHeader(signedIn).authorization == None
  {
    assert Bearer("abc") == "Bearer abc";
  }

  /**
   * `loadStorages` as intended: a user entry that does not parse counts as no
   * session (nothing is set), and `loading` always ends false.
   */
  function Restore(s: State): (r: State)
    ensures !r.loading && r.store == s.store
    ensures var token := Lookup(s.store, TokenKey); var user := Lookup(s.store, UserKey);
      if Truthy(token) && Truthy(user) && Decode(user.value).Some? then
        && r.userData == AuthState(token, Decode(user.value))
        && r.authorization == Some(Bearer(token.value))
      else
        r == s.(loading := false)
  {
    var token := Lookup(s.store, TokenKey);
    var user := Lookup(s.store, UserKey);
    if Truthy(token) && Truthy(user) then
      match Decode(user.value)
      case Some(u) =>
        s.(authorization := Some(Bearer(token.value)), userData := AuthState(token, Some(u)), loading := false)
      case None => s.(loading := false)
    else
      s.(loading := false)
  }

  /** Wherever the code as written resolves, the corrected restore agrees with it. */
  lemma RestoreAgreesWithLoadStorages(s: State)
    ensures LoadStorages(s).outcome == Resolved ==> LoadStorages(s) == Completion(Restore(s), Resolved)
    ensures LoadStorages(s).outcome == Rejected ==> LoadStorages(s).state.loading == s.loading
  {
  }

  /** Restoring twice from an unchanged store gives the state restoring once gave. */
  lemma RestoreIdempotent(s: State)
    ensures Restore(Restore(s)) == Restore(s)
  {
  }

  /**
   * A corrupt user entry beside a token: as written the header is set, the
   * promise rejects and the provider stays loading; the corrected restore
   * finishes loading with no session and the header untouched.
   */
  lemma CorruptUserEntryKeepsLoading()
    ensures var s := Mount(map[TokenKey := "abc", UserKey := "{"], None);
      var asWritten := LoadStorages(s);
      && asWritten.outcome == Rejected
      && asWritten.state.loading
      && asWritten.state.authorization == Some("Bearer abc")
      && PublishedUser(asWritten.state) == None
      && Restore(s) == s.(loading := false)
  {
    var s := Mount(map[TokenKey := "abc", UserKey := "{"], None);
    assert Bearer("abc") == "Bearer abc";
    assert Lookup(s.store, TokenKey) == Some("abc");
    assert Lookup(s.store, UserKey) == Some("{");
    assert Decode("{") == None by {
      assert !(IdOpen <= "{");
    }
  }
}
