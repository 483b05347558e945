# goBarber mobile session, modelled in Dafny

This project models the session module of the goBarber mobile app
(`AuthProvider` in `mobile/src/hooks/auth.tsx`): how the app signs a user in
against the backend, persists the token and the user record in AsyncStorage
under `@GoBarber:token` and `@GoBarber:user`, puts `Bearer <token>` on the API
client's `authorization` header, updates the user, signs out, and on start-up
restores the session from storage (`loadStorages`) before clearing `loading`.

The module is a sequential state machine over an immutable `Auth.State` of
four parts: the store (a `map<string, string>` for AsyncStorage), `userData`
(optional token and optional user, since the code starts from `{}` and
`updateUser` may pair a user with an undefined token), the optional header,
and the `loading` flag. Each operation is one pure transition:

- `wrappers.dfy` — `Option`, the `null`/`undefined` of the source.
- `user_codec.dfy` — the `User` record and a concrete `Encode`/`Decode` pair
  standing for `JSON.stringify`/`JSON.parse`. It writes the same JSON object
  shape (`{"id":"…","name":"…","email":"…","avatar_url":"…"}`) with the
  escapes `JSON.stringify` uses (`\"`, `\\`, `\b \t \n \f \r`, `\u00XX` for the
  other control characters); the round trip is proved in both directions
  rather than assumed, and a raw control character never decodes.
- `auth.dfy` — the keys, the state, `SignIn` (the backend's answer is an
  input: `Accepted(token, user)` or `Refused`), `SignOut`, `UpdateUser`,
  `LoadStorages`, and the published `user` field, all as the code is written.
- `auth_findings.dfy` — two departures of the code from its intended design,
  each with a witness and a corrected operation.
- `auth_lifecycle.dfy` — arbitrary sequences of operations: what every run of
  the code preserves (memory never ahead of storage, other keys untouched,
  `loading` never set again) and what the corrected operations add (header
  set exactly when a token is in memory; `loading` false after any restore).

Where the intended design and the code differ, the code is modelled:
`signOut` leaves the header in place; `updateUser` with nobody signed in
stores the user beside no token; `loadStorages` uses JavaScript truthiness,
so an empty token or user entry counts as missing; and a user entry that
`JSON.parse` rejects leaves the header set and `loading` true. The corrected
versions of the first and last are kept beside them (see Findings).

## Model

| member | source | states |
|---|---|---|
| UserCodec.Encode | mobile/src/hooks/auth.tsx:55 | the serialised user record is never the empty string, so it is always truthy when read back |
| UserCodec.Decode | mobile/src/hooks/auth.tsx:94 | parsing the stored user entry succeeds only on text that is exactly the encoding of the user it yields |
| UserCodec.ReadLiteral | mobile/src/hooks/auth.tsx:94 | a successfully read string literal is exactly the escape of its contents followed by the closing quote and the remaining text; a raw control character fails |
| UserCodec.EncodeNoControl | mobile/src/hooks/auth.tsx:55 | the stored user entry never holds a raw control character, whatever the user's fields contain |
| UserCodec.DecodeRejectsControl | mobile/src/hooks/auth.tsx:94 | a text holding a raw control character fails to parse; `JSON.parse` agrees for one inside a string literal, but accepts tab, line feed and carriage return between tokens |
| UserCodec.TrailingLineBreakRejected | mobile/src/hooks/auth.tsx:94 | an encoded entry followed by a line feed fails to parse here, where `JSON.parse` accepts it as trailing whitespace (a gap admitted under Auth.LoadStorages) |
| UserCodec.LineBreakStoredEscaped | mobile/src/hooks/auth.tsx:55 | a name holding a line break is stored without a raw control character and parses back to the same user |
| UserCodec.RawLineBreakRejected | mobile/src/hooks/auth.tsx:94 | the same record with the line break written raw fails to parse |
| UserCodec.DecodeEncode | mobile/src/hooks/auth.tsx:94 | parsing the text written at line 55 gives back the same user record |
| UserCodec.DecodeIff | mobile/src/hooks/auth.tsx:94 | a text decodes to a user exactly when it is that user's encoding (both directions) |
| UserCodec.EncodeInjective | mobile/src/hooks/auth.tsx:55 | two different users never share a stored user entry |
| Auth.Bearer | mobile/src/hooks/auth.tsx:58 | the header value is `Bearer ` (seven characters) followed by the token, so the token is recovered from the header by dropping that prefix |
| Auth.PublishedUser | mobile/src/hooks/auth.tsx:105 | an in-memory user is published, a published user is the in-memory one, and nothing is published when there is no session |
| Auth.Mount | mobile/src/hooks/auth.tsx:42-43 | on mount there is no session, no published user, and loading is true; storage and header are whatever existed |
| Auth.SignIn | mobile/src/hooks/auth.tsx:45-64 | a refused backend call rejects and changes nothing; an accepted one stores the token and the encoded user, sets `Bearer <token>` and the session; no other key and not loading changes |
| Auth.SignOut | mobile/src/hooks/auth.tsx:66-70 | exactly the two session keys are removed, the session and published user become absent, header and loading are unchanged |
| Auth.UpdateUser | mobile/src/hooks/auth.tsx:72-82 | the session pairs the in-memory token (possibly none) with the new user, only the user key is written, token key, header and loading are unchanged |
| Auth.LoadStorages | mobile/src/hooks/auth.tsx:84-98 | storage is only read; with a missing or empty entry only loading changes (to false); with both truthy the header is set, and the session is restored and loading cleared if the user parses, else the call rejects with session and loading unchanged |
| Auth.SignInThenRestore | mobile/src/hooks/auth.tsx:53-58 | after a sign-in with a non-empty token, restoring from the stored entries on a fresh mount gives back the same session and header and ends loading |
| Auth.SignInThenLoadInPlace | mobile/src/hooks/auth.tsx:84-98 | restoring over the state sign-in produced changes nothing but loading |
| Auth.SignInEmptyTokenNotRestored | mobile/src/hooks/auth.tsx:91 | an empty token is stored by sign-in but is falsy on restore, which restores nothing |
| Auth.LoadStoragesIdempotent | mobile/src/hooks/auth.tsx:84-98 | restoring twice from an unchanged store gives the state restoring once gave |
| Auth.SignOutIdempotent | mobile/src/hooks/auth.tsx:66-70 | signing out twice is the same as signing out once |
| Auth.LoadStoragesEndsLoading | mobile/src/hooks/auth.tsx:97 | whenever restore completes, loading is false |
| Auth.LoadStoragesResolves | mobile/src/hooks/auth.tsx:91-97 | restore completes exactly unless both entries are truthy and the user entry does not parse |
| Auth.RestoreFromEmptyStore | mobile/src/hooks/auth.tsx:91-97 | from an empty store restore ends loading with no session and the header untouched |
| Auth.UpdateUserWithoutSession | mobile/src/hooks/auth.tsx:74-77 | with nobody signed in, updating stores the user with no token, leaves the session half populated, and a restart does not restore it |
| Auth.UpdateUserKeepsToken | mobile/src/hooks/auth.tsx:72-82 | from session (t1, u1), updating to u2 gives (t1, u2), the stored user decodes to u2, the stored token is unchanged |
| AuthFindings.SignOutClearingHeader | mobile/src/hooks/auth.tsx:66-70 | corrected sign-out: removes both keys and the session and also clears the header |
| AuthFindings.SignOutKeepsStaleHeader | mobile/src/hooks/auth.tsx:66-70 | as written, signing in with "abc" then out leaves no user but the header "Bearer abc" |
| AuthFindings.Restore | mobile/src/hooks/auth.tsx:84-98 | corrected restore: loading always ends false; the session and header are set exactly when both entries are truthy and the user parses, otherwise nothing else changes |
| AuthFindings.RestoreAgreesWithLoadStorages | mobile/src/hooks/auth.tsx:84-98 | wherever the code's restore completes it equals the corrected one; where it rejects, loading is as before |
| AuthFindings.RestoreIdempotent | mobile/src/hooks/auth.tsx:84-98 | the corrected restore applied twice equals applying it once |
| AuthFindings.CorruptUserEntryKeepsLoading | mobile/src/hooks/auth.tsx:92-97 | with token "abc" and user entry "{", the code sets the header, rejects and stays loading with no user; the corrected restore only ends loading |
| AuthLifecycle.MountCoherent | mobile/src/hooks/auth.tsx:42-43 | the mounted state has memory no newer than storage |
| AuthLifecycle.StepKeepsCoherent | mobile/src/hooks/auth.tsx:45-98 | every operation keeps the in-memory token equal to the stored one and on the header, and the in-memory user equal to the decoded stored one |
| AuthLifecycle.RunKeepsCoherent | mobile/src/hooks/auth.tsx:45-98 | any sequence of operations keeps that coherence |
| AuthLifecycle.RestartRecoversSession | mobile/src/hooks/auth.tsx:84-98 | from a coherent state with a non-empty token and a user, a restart restores the same session and header and ends loading |
| AuthLifecycle.RestartAfterAnyRun | mobile/src/hooks/auth.tsx:53-94 | after any sequence of operations from mount, a restart restores an in-memory session whose token is non-empty |
| AuthLifecycle.RunKeepsOtherKeys | mobile/src/hooks/auth.tsx:53-79 | no sequence of operations changes a storage key other than the two session keys |
| AuthLifecycle.RunStaysLoaded | mobile/src/hooks/auth.tsx:97 | once loading is false no sequence of operations sets it again |
| AuthLifecycle.RunWithoutLoadKeepsLoading | mobile/src/hooks/auth.tsx:43 | without a restore, no sequence of operations changes loading |
| AuthLifecycle.IntendedRunKeepsHeader | mobile/src/hooks/auth.tsx:58-69 | with the corrected sign-out and restore, the header is `Bearer <token>` exactly when a token is in memory and absent otherwise, through any run |
| AuthLifecycle.IntendedRunLoads | mobile/src/hooks/auth.tsx:97 | with the corrected restore, any run containing a restore ends with loading false |
| AuthLifecycle.RunStaysLoadedIntended | mobile/src/hooks/auth.tsx:97 | with the corrected operations, once loading is false it stays false |
| AuthLifecycle.RunCanDesyncHeader | mobile/src/hooks/auth.tsx:66-70 | as written, sign-in followed by sign-out leaves a header with no session in memory |

## Left out

- React machinery: `createContext`, `useState`, `useCallback` dependency lists and stale closures, `useEffect` scheduling and rendering. `updateUser` reads the current in-memory token.
- Async interleaving: each operation is one atomic transition. The module does not serialise concurrent calls.
- `useAuth` (mobile/src/hooks/auth.tsx:112-120): the context defaults to `{}`, so its guard never throws, and there is nothing to model.
- The sign-in credentials and the `POST /sessions` request. The backend's settled answer is an input. A response body without `token` or `user` is not modelled.
- AsyncStorage failures. Every read and write succeeds. So does the axios header assignment.
- The API client's initial header comes from `mobile/src/services/api`, which is not part of this model. It is a parameter of `Auth.Mount`.
- UserCodec.Decode: accepts only the exact text `Encode` writes: field order, no whitespace, and each character in the one spelling `JSON.stringify` gives it. Every text it accepts is one `JSON.parse` accepts too. The converse fails: `JSON.parse` also accepts other spellings of the same record, such as whitespace, another key order, `\/` or upper-case `\u` escapes. It also accepts JSON values that are not user records, such as `null`. The app only ever writes `Encode`'s output.
- Auth.LoadStorages: rejects whenever `Decode` fails, and `Decode` fails on more texts than those where `JSON.parse` throws. Take a user entry `JSON.parse` accepts but `Decode` refuses, such as `null` beside the token `t`. The code sets the header, restores the token with that value as the user, and ends loading. The model sets the header, rejects and stays loading. A raw control character inside a string literal of the entry makes both reject. A tab, line feed or carriage return between tokens does not: for a token `t` and the user entry `Encode(u)` followed by a line feed, `JSON.parse` accepts the entry and the code restores `u` and ends loading, while the model rejects and stays loading.
- Strings are sequences of Unicode scalar values, not UTF-16 code units. A JavaScript string may hold a lone surrogate, which `JSON.stringify` writes as a `\uXXXX` escape. Such a string cannot be expressed here, so that escape is not modelled.
- The backend `ProvidersController` and the `Button` styles, which hold no session logic.

## Findings

| source | as written | input that shows it | evidently intended | confidence | as-written member | corrected member |
|---|---|---|---|---|---|---|
| mobile/src/hooks/auth.tsx:66-70 | `signOut` removes the keys and the session but never clears `api.defaults.headers.authorization` | sign in with token "abc", then sign out: no user, header still "Bearer abc" | the header is cleared on sign-out, so it is set exactly when a session is present | medium, not executed | AuthFindings.SignOutKeepsStaleHeader | AuthFindings.SignOutClearingHeader |
| mobile/src/hooks/auth.tsx:91-97 | the header is set before `JSON.parse`; if the parse throws, the promise rejects before `setLoading(false)` | store token "abc" and user entry "{": header "Bearer abc", no user, loading stays true | an unreadable user entry counts as no session and loading ends false | medium, not executed | AuthFindings.CorruptUserEntryKeepsLoading | AuthFindings.Restore |
