/**
 * Sequences of session operations. `Run` replays the code as written;
 * `IntendedRun` replays the corrected sign-out and restore of `AuthFindings`.
 * The lemmas state what every sequence of operations preserves.
 */
module AuthLifecycle {
  import opened Wrappers
  import opened UserCodec
  import opened Auth
  import opened AuthFindings

  /** One call on the context; a refused sign-in leaves the state as it was. */
  datatype Event =
    | SignInEvent(response: SessionResponse)
    | SignOutEvent
    | UpdateUserEvent(user: User)
    | LoadEvent

  function Step(s: State, e: Event): State {
    match e
    case SignInEvent(response) => SignIn(s, response).state
    case SignOutEvent => SignOut(s)
    case UpdateUserEvent(u) => UpdateUser(s, u)
    case LoadEvent => LoadStorages(s).state
  }

  function Run(s: State, events: seq<Event>): State
    decreases |events|
  {
    if events == [] then s else Run(Step(s, events[0]), events[1..])
  }

  /**
   * Memory is never ahead of storage: an in-memory token is the stored token
   * and is on the client as `Bearer <token>`, and an in-memory user is what
   * the stored user entry decodes to.
   */
  ghost predicate Coherent(s: State) {
    && (s.userData.token.Some? ==>
          && Lookup(s.store, TokenKey) == s.userData.token
          && s.authorization == Some(Bearer(s.userData.token.value)))
    && (s.userData.user.Some? ==>
          UserKey in s.store && Decode(s.store[UserKey]) == s.userData.user)
  }

  lemma MountCoherent(store: Store, header: Option<string>)
    ensures Coherent(Mount(store, header))
  {
  }

  lemma StepKeepsCoherent(s: State, e: Event)
    requires Coherent(s)
    ensures Coherent(Step(s, e))
  {
    match e
    case SignInEvent(response) =>
      if response.Accepted? {
        DecodeEncode(response.user);
      }
    case SignOutEvent =>
    case UpdateUserEvent(u) =>
      DecodeEncode(u);
    case LoadEvent =>
  }

  lemma {:induction false} RunKeepsCoherent(s: State, events: seq<Event>)
    requires Coherent(s)
    ensures Coherent(Run(s, events))
    decreases |events|
  {
    if events != [] {
      StepKeepsCoherent(s, events[0]);
      RunKeepsCoherent(Step(s, events[0]), events[1..]);
    }
  }

  /**
   * After a restart, restoring from the store brings back the session that
   * was in memory, provided its token is non-empty.
   */
  lemma RestartRecoversSession(s: State, header: Option<string>)
    requires Coherent(s)
    requires s.userData.token.Some? && s.userData.token.value != "" && s.userData.user.Some?
    ensures var r := LoadStorages(Mount(s.store, header));
      && r.outcome == Resolved && !r.state.loading
      && r.state.userData == s.userData
      && r.state.authorization == s.authorization
  {
    var entry := s.store[UserKey];
    assert Encode(Decode(entry).value) == entry;
  }

  /** Whatever happened since the app mounted, a restart recovers a non-empty-token session. */
  lemma RestartAfterAnyRun(store: Store, header: Option<string>, events: seq<Event>, header': Option<string>)
    requires var s := Run(Mount(store, header), events);
      s.userData.token.Some? && s.userData.token.value != "" && s.userData.user.Some?
    ensures var s := Run(Mount(store, header), events);
      LoadStorages(Mount(s.store, header')).state.userData == s.userData
  {
    MountCoherent(store, header);
    RunKeepsCoherent(Mount(store, header), events);
    RestartRecoversSession(Run(Mount(store, header), events), header');
  }

  lemma OthersUnchangedTransitive(a: Store, b: Store, c: Store)
    requires OthersUnchanged(a, b) && OthersUnchanged(b, c)
    ensures OthersUnchanged(a, c)
  {
  }

  /** No sequence of operations touches a storage key other than the two session keys. */
  lemma {:induction false} RunKeepsOtherKeys(s: State, events: seq<Event>)
    ensures OthersUnchanged(s.store, Run(s, events).store)
    decreases |events|
  {
    if events != [] {
      var next := Step(s, events[0]);
      assert OthersUnchanged(s.store, next.store);
      RunKeepsOtherKeys(next, events[1..]);
      OthersUnchangedTransitive(s.store, next.store, Run(s, events).store);
    }
  }

  /** Once `loading` is false no operation sets it again. */
  lemma {:induction false} RunStaysLoaded(s: State, events: seq<Event>)
    requires !s.loading
    ensures !Run(s, events).loading
    decreases |events|
  {
    if events != [] {
      RunStaysLoaded(Step(s, events[0]), events[1..]);
    }
  }

  /** Only `loadStorages` changes `loading`: a run without it keeps the flag. */
  lemma {:induction false} RunWithoutLoadKeepsLoading(s: State, events: seq<Event>)
    requires LoadEvent !in events
    ensures Run(s, events).loading == s.loading
    decreases |events|
  {
    if events != [] {
      assert events[0] != LoadEvent;
      assert LoadEvent !in events[1..] by {
        assert forall i :: 0 <= i < |events[1..]| ==> events[1..][i] == events[i + 1];
      }
      RunWithoutLoadKeepsLoading(Step(s, events[0]), events[1..]);
    }
  }

  function IntendedStep(s: State, e: Event): State {
    match e
    case SignInEvent(response) => SignIn(s, response).state
    case SignOutEvent => SignOutClearingHeader(s)
    case UpdateUserEvent(u) => UpdateUser(s, u)
    case LoadEvent => Restore(s)
  }

  function IntendedRun(s: State, events: seq<Event>): State
    decreases |events|
  {
    if events == [] then s else IntendedRun(IntendedStep(s, events[0]), events[1..])
  }

  /** The header is `Bearer <token>` exactly when a token is in memory, and absent otherwise. */
  ghost predicate HeaderMatchesSession(s: State) {
    s.authorization == (if s.userData.token.Some? then Some(Bearer(s.userData.token.value)) else None)
  }

  /** With the corrected operations the header tracks the session through any run. */
  lemma {:induction false} IntendedRunKeepsHeader(s: State, events: seq<Event>)
    requires HeaderMatchesSession(s)
    ensures HeaderMatchesSession(IntendedRun(s, events))
    decreases |events|
  {
    if events != [] {
      IntendedRunKeepsHeader(IntendedStep(s, events[0]), events[1..]);
    }
  }

  /** With the corrected restore, any run that restores ends with `loading` false. */
  lemma {:induction false} IntendedRunLoads(s: State, events: seq<Event>)
    requires LoadEvent in events
    ensures !IntendedRun(s, events).loading
    decreases |events|
  {
    if events[0] == LoadEvent {
      RunStaysLoadedIntended(Restore(s), events[1..]);
    } else {
      assert LoadEvent in events[1..] by {
        var i :| 0 <= i < |events| && events[i] == LoadEvent;
        assert events[1..][i - 1] == LoadEvent;
      }
      IntendedRunLoads(IntendedStep(s, events[0]), events[1..]);
    }
  }

  lemma {:induction false} RunStaysLoadedIntended(s: State, events: seq<Event>)
    requires !s.loading
    ensures !IntendedRun(s, events).loading
    decreases |events|
  {
    if events != [] {
      RunStaysLoadedIntended(IntendedStep(s, events[0]), events[1..]);
    }
  }

  /** As written, a stale header survives sign-out: the header does not track the session. */
  lemma RunCanDesyncHeader(u: User)
    ensures var s := Run(Mount(map[], None), [SignInEvent(Accepted("abc", u)), SignOutEvent]);
      !HeaderMatchesSession(s)
  {
    SignOutKeepsStaleHeader(u);
    var s0 := Mount(map[], None);
    var s1 := Step(s0, SignInEvent(Accepted("abc", u)));
    var s2 := Step(s1, SignOutEvent);
    var events := [SignInEvent(Accepted("abc", u)), SignOutEvent];
    assert events[1..] == [SignOutEvent];
    assert Run(s0, events) == Run(s1, [SignOutEvent]);
    assert [SignOutEvent][1..] == [];
    assert Run(s1, [SignOutEvent]) == s2;
  }
}
