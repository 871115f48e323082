# Grimoire, modelled and proved

Grimoire is a daemon that unlocks a password vault, holds the decrypted keys in
memory, and releases secrets to command-line clients and SSH sessions over a local
socket. This project models the parts of it on which its promises rest and proves
those promises, for every input, every interleaving and every reachable state.

## What is modelled

**The service** (`Service.dfy`, `ServiceState.dfy`, `Machine.dfy`, `Handlers.dfy`,
`Driver.dfy`).
The state behind the read-write lock is a value, `Svc`, next to what outlives the
process: login file, backoff file, cache file and credential. Every operation of
`ServiceState` is a function on that value; the classes `ApprovalCache`, `DiskStore`
and `ServiceState` update their fields as the program does and are proved to compute
those functions. `Machine` runs requests as threads: a program counter per request,
one critical section per step, any interleaving, with prompts, server, disk,
credential store and clock as inputs of each step, and restarts and auto-lock rounds as steps
of their own. `Handlers` writes each critical section as a method over the objects
and proves that it does what the machine's step says; `Driver` performs any sequence
of actions on the objects, restarts included, and so carries the theorems about runs
over to their fields. Every step appends to a log of events (touches, authentications,
grants, releases, recorded failures, clears).

What the machine notes down is not taken on trust. `Unlocking`, `Authentication`,
`Refusal` and `Pin` say of a section's inputs and the state it meets when a password
opens the vault, when the user has proved to be present, when a password was wrong and
which PIN is in force; each is proved to be exactly what the sections do, and the
properties of runs are stated about the actions of the run (`History`). `Flow` and
`Approval` say what each request comes to from beginning to end.

**The channel** (`Codec.dfy`). Length framing, directional keys, counters and nonces,
the codec object and the request loop, over an arbitrary byte stream.

**The offline cache** (`Envelope.dfy`, `VaultCache.dfy`, `CacheAgreement.dfy`,
`Durable.dfy`, `Ownership.dfy`). The byte envelope, the sealed and authenticated
record, the floor on derivation parameters, the cache-first unlock, and what the files
say over runs, file operations failing or not.

**Decoders and selectors** (`Request.dfy`, `UriMatch.dfy`, `Run.dfy`, `Text.dfy`). The
untagged parameter decoder, the git credential matcher, and the whole of
`grimoire run`: manifests, references, resolution and substitution.

Cryptography, HTTP, the Bitwarden SDK, JSON text, lower-casing and white space are
parameters: records of functions (`Crypto`, `Wire`, `Exchange`) with the ideal laws as
a predicate that a theorem assumes only where it needs them. About the cache the only
assumption beyond correct primitives is that a ciphertext does not open under another
key (`VaultCaches.WrongKeyFails`); the channel assumes that what opens was sealed by the
peer (`Codec.Unforged`). `Witness.dfy` gives concrete primitives that meet every law, so
no theorem holds for want of any; the concrete runs below use them.

## The main results

- **Residency.** In every reachable state the SDK client holds keys exactly while the
  vault is unlocked, which is exactly while a session exists; the account fields are
  present exactly when somebody is logged in. A session never has three failed PINs
  between sections, so the check on entry to the approval flow cannot fire.
- **Gated release.** Whenever a gated request or a signature reads plaintext, the vault
  is unlocked at that moment, and an earlier action of the run was this request proving
  the user to be present (a biometric yes, the session's PIN, a password the server
  accepts or that opens the vault), or finding a grant less than 300 seconds old of a
  request with the same scope key that had. This holds for the handlers that never look
  at the vault state. Conversely every such proof in the approval flow ends in the grant,
  whatever runs in between.
- **PIN.** Over every run, the PIN accepted is the last one set since the vault was
  unlocked, and the third wrong one in a row locks it.
- **Grants.** The approval cache says yes exactly when the log shows a grant within the
  last 300 seconds and no lock, logout or restart since; every grant follows an
  authentication in the same request. Two keys drawn for unresolvable peers are equal
  exactly when a multiple of 2^32 draws lies between them; such keys are never
  pre-approved until the counter reaches the process-id range, and a concrete run shows
  one served on a process's grant at the first draw past that bound.
- **Backoff.** With at most k requests between check and record, no 30-second window
  holds more than k wrong passwords from the seventh since the last right one on;
  without overlap the n-th is at least 30n - 179 seconds after the first. Across any
  number of restarts the window is 29 seconds and the distance 29n - 178. What is a
  wrong password is said of each section's inputs.
- **Auto-lock.** A round of the worker locks exactly when the last activity among the
  actions of the run is 900 seconds ago or longer; never 930 seconds idle.
- **Unlocking.** A password opens the vault exactly when the cache file holds a record
  with parameters at the floor (PBKDF2 100 000; Argon2id 3 iterations, 64 MiB, 1 lane),
  the code of its hash and keys it unwraps, or the server hands out keys it unwraps; and
  those are the keys installed.
- **Cache.** After an online unlock by any of the three requests that can do one, later
  unlocks, across locks and restarts, succeed from the cache for exactly the passwords
  with the same hash and install the same keys. What a cache file opens to is always the
  logged-in account's while file operations succeed; when reads, writes and deletions
  may each fail, exactly three kinds of step end that. Restarting is locking, and keeps
  the failure count exactly and the remaining delay within a second, as far as the two
  files can be read.
- **Channel.** What is decoded is a subsequence of what the peer encoded; no pair of
  key and nonce repeats.
- **Decoders.** The wire normal form of every request and exactly which handler input
  does not survive it, and what every handler takes out of a JSON object; exactly when
  the credential matcher answers, and exactly which added items change its answer; what
  every vault reference means, slot by slot; the environment `grimoire run` hands over,
  and exactly when it does.

## Where the code differs from what it says

The model follows the code; each difference has a theorem.

- The receive check is documented as refusing counters at or below the last accepted
  one (codec.rs:60-61, 175). As coded it also refuses the very next one, so an in-order
  stream loses every odd message and a connection serves one request:
  `Codec.DocumentedAcceptsAll`, `Codec.CodedAcceptsEven`, `Codec.ServesAtMostOne`.
- The counter moves on before decryption; a payload carrying 2^64 - 1 sets it back to
  zero: `Codec.CounterRegressesIff`, `Codec.LastCounterAllowsReplay`. (A debug build
  would panic there instead; the model is the release build's wrap-around.)
- A cache file that cannot be read or does not parse fails the unlock outright, without
  asking the server, and nothing else does: `Service.MalformedCacheBlocksUnlock`. The
  writer accepts bodies over 256 MiB that the reader then refuses:
  `Envelope.RoundTripIffBodyFits`.
- "Locked means no grants" and "logged out means no sync time" fail when a lock or a
  logout overtakes a step already under way; `Interleavings.UntidyIffLate` says exactly
  when, `Interleavings.LateGrantHappens` and `Interleavings.LateStampHappens` give runs.
- The cache unlock relies on the cache file being the account's and never compares. A
  logout whose deletion fails ends that, but so does a login whose state file could not
  be written, which is only logged (state.rs:243-246): after a restart nobody is logged
  in, or an older account whose file could not be replaced is, and the cache is still
  there. `Ownership.ForeignCacheIff` gives the exact condition for every step,
  `Ownership.StaleLoginHappens` a run that ends locked as one account over the other's
  cache. So does a crash in the middle of a logout, between its first two deletions:
  `Ownership.CrashInLogoutIff`.
- Manifests are said to override earlier ones (main.rs:942); the first entry wins:
  `RunPipeline.LaterOverridesIff`.
- The approval flow's password prompt neither checks nor counts towards the backoff:
  `Backoffs.ApprovalPasswordIgnoresBackoff`.
- `vault.totp` requests can never reach their handler with parameters:
  `Requests.OnlyTotpUnreachable`. The vault listing never carries URIs, so the git
  helper can find no match: `UriMatching.ChooseCredential`.

## Model

| member | source | states |
|---|---|---|
| Residency.KeyResidency | crates/grimoire-service/src/state.rs:216-336 | in every state reachable from any store under any interleaving: keyed iff unlocked iff session; client, login, email and URL present iff logged in, and agreeing |
| Residency.PinNeverExhausted | crates/grimoire-service/src/approval.rs:26-36 | no reachable state has a session with three failed attempts and no thread ever stands at the entry lock, under any number of concurrent prompts |
| Residency.LastPinAttemptLocks | crates/grimoire-service/src/approval.rs:59-73 | in any reachable state, a PIN other than the session's after two failures leaves the vault locked, without grants and without keys |
| Residency.StepSound | crates/grimoire-service/src/session.rs:112-169 | every step of every request, worker and restart keeps the state invariant |
| Service.UnlockSound | crates/grimoire-service/src/state.rs:253-336 | whichever way an unlock ends the invariant holds, account, grants and backoff are unchanged, and success means locked before and unlocked after |
| Service.FailedUnlockLeavesNoTrace | crates/grimoire-service/src/state.rs:299-317 | a failed unlock changes nothing but the client, writes no file, and leaves that client without keys |
| Service.UnlockFromCacheStep | crates/grimoire-service/src/state.rs:339-411 | a cache attempt that fails changes only the client, one that succeeds opens a fresh session with keys; the account is the same |
| Service.UnlockOnlineStep | crates/grimoire-service/src/state.rs:310-336 | the same for the online half, which on error leaves an unkeyed client unkeyed and the store untouched |
| Service.CacheFailureMayLeaveKeys | crates/grimoire-service/src/state.rs:386-401 | a cache attempt fails with keys in memory iff the keys opened and filling the cipher store failed; recreating the client is what undoes it |
| Service.MalformedCacheBlocksUnlock | crates/grimoire-sdk/src/cache.rs:409-419 | for each password and other input, a locked vault's unlock has the same failing outcome for every answer of the server iff a cache file exists and either cannot be read or does not parse |
| Service.ThirdWrongPinLocks | crates/grimoire-service/src/state.rs:502-516 | from two failed attempts a PIN other than the session's exceeds the limit, and the lock that follows leaves no grants and no keys |
| Service.LockSound | crates/grimoire-service/src/state.rs:502-517 | locking keeps the invariant |
| Service.StartSound | crates/grimoire-service/src/state.rs:112-170 | whatever the files hold, a fresh process satisfies the invariant |
| Unlocking.UnlockOutcome | crates/grimoire-service/src/state.rs:253-411 | for every sound state and inputs: an unlock succeeds iff the vault is locked, the cache file does not get in the way and either its record opens with the password or the server hands out keys it unwraps; it fails as a wrong password iff neither does and the server or the unwrapping says so; success installs exactly the unwrapped keys, a fresh session without PIN, and the token |
| Unlocking.FileOpensIff | crates/grimoire-sdk/src/cache.rs:169-250 | the cache alone opens iff its record, decrypted as its flag says, has parameters at the floor, the 64-character code of the password's hash, and wrapped keys that unwrap, and its ciphers are accepted; then its ciphers, sync time and keys are taken |
| Unlocking.CacheUnlockIsStrong | crates/grimoire-sdk/src/cache.rs:96-128 | whatever bytes are in the file: a success from it means PBKDF2 with at least 100000 iterations or Argon2id with at least 3 iterations, 64 MiB and one lane, and the code of the derived hash |
| Pins.SetThenVerify | crates/grimoire-service/src/state.rs:542-576 | after setting a PIN of four bytes or more in an unlocked vault, exactly that PIN is accepted, being right zeroes the failures and being wrong adds one; any other setting is refused and changes nothing |
| Pins.SessionIsHistory | crates/grimoire-service/src/state.rs:26-66 | over every run: the session's PIN is the last one set since the vault was last unlocked, and its failures are the wrong PINs given since then and since the last right one |
| Pins.PinDecidesOverRuns | crates/grimoire-service/src/approval.rs:59-73 | over every run: a PIN given is accepted iff it is that one, and a third wrong one in a row locks the vault and leaves no grants and no keys |
| Interleavings.UntidyIffLate | crates/grimoire-service/src/approval.rs:83-90 | from a tidy state a step leaves grants on a vault that is not unlocked, or a sync time on a logged-out one, iff it is a grant written after a lock or a stamp written after a logout |
| Interleavings.TidyWithoutLateSteps | crates/grimoire-service/src/session.rs:423-443 | runs without such late steps stay tidy |
| Interleavings.LockOvertakesGrant | crates/grimoire-service/src/session.rs:423-443 | wherever a grant is about to be written, an interposed lock ends locked with that grant present |
| Interleavings.LogoutOvertakesStamp | crates/grimoire-service/src/sync_worker.rs:74-86 | an interposed logout ends logged out with a sync time |
| Interleavings.LateGrantHappens | crates/grimoire-service/src/session.rs:403-443 | a concrete run from a concrete store ends locked with a grant |
| Interleavings.LateStampHappens | crates/grimoire-service/src/sync_worker.rs:73-99 | a concrete run, an unlock, a sync and a logout before its stamp, ends logged out with a sync time |
| Release.GatedRelease | crates/grimoire-service/src/session.rs:112-149 | a step that releases plaintext or a signature, in any reachable state: unlocked and keyed right then, by a request at its read, and an earlier action of the run was this request proving the user to be present, or finding its own key under a grant less than 300 s old, there ever since, whose request had proved it |
| Release.GrantsFollowAuthentication | crates/grimoire-service/src/approval.rs:38-112 | every grant in the log of any run is the work of an action that put the key in the cache for 300 s, names a key its peer resolves to, and comes no earlier than an action of the same request proving the user to be present |
| Release.ReadsAreVouched | crates/grimoire-service/src/session.rs:124-147 | over every run no request stands at its read without the same |
| Release.ReleasesIff | crates/grimoire-service/src/session.rs:449-680 | a section hands out decrypted data iff it is the read of a request other than a sync, from an unlocked vault |
| Release.ApprovalsWereProved | crates/grimoire-service/src/state.rs:76-90 | every approval in the cache of a reachable state was given by an action of the run to a request that had proved the user to be present |
| Authentications.AuthenticatesIff | crates/grimoire-service/src/approval.rs:38-98 | every section counts as an authentication of its own request iff a biometric prompt says yes and prompts are neither terminal nor off, or the PIN is the session's, or the vault is unlocked and the server accepts the password, or the password opens the vault |
| Authentications.WasProved | crates/grimoire-service/src/approval.rs:38-98 | over every run each authentication in the log is the work of such an action |
| Approvals.ProofLeadsToGrant | crates/grimoire-service/src/approval.rs:38-112 | from any such proof in the approval flow, two more sections of the request, whatever others do in between, leave 300 s of approval for its caller and the request at its read |
| Approvals.ApprovalFlow | crates/grimoire-service/src/approval.rs:21-100 | the whole flow run alone: it ends at the read with that approval iff the user consents by biometrics, else with a PIN set by that PIN, else by an accepted password, and otherwise in an error with nobody approved, a third wrong PIN locking the vault |
| Approvals.GateRequest | crates/grimoire-service/src/session.rs:112-149 | a gated request alone, to its read or to the prompts: touches the activity time, fails unless unlocked, and reads on iff its own key has a live approval |
| Approvals.ScopeIsSession | crates/grimoire-service/src/session.rs:82-94 | two processes share approvals iff they have the same session leader or are the same process |
| Approvals.ReadReply | crates/grimoire-service/src/session.rs:449-702 | what each read is answered by vault state, and that only a sync changes anything, the ciphers |
| Flows.UnlockRequest | crates/grimoire-service/src/session.rs:251-323 | auth.unlock alone, beginning to end: refused while the delay lasts, failing without a password, opening the vault with approval for the caller iff the password does, counted iff refused as wrong |
| Flows.LoginRequest | crates/grimoire-service/src/session.rs:188-249 | auth.login likewise, leaving the account at the server asked for or the default one |
| Flows.AuthorizeRequest | crates/grimoire-service/src/session.rs:365-447 | auth.authorize likewise, by unlocking a locked vault or by the server's word on an open one |
| Approvals.AgentRequest | crates/grimoire-service/src/ssh_agent.rs:127-255 | the SSH agent likewise, up to the gate, every failed unlock counting |
| Approvals.LockRequest | crates/grimoire-service/src/state.rs:502-517 | auth.lock and the automatic lock: keys, ciphers, token, session and approvals are gone and the account stays, iff the vault was unlocked (and idle for 900 s) |
| Approvals.AutoLockRequest | crates/grimoire-service/src/sync_worker.rs:8-34 | a round of the auto-lock worker alone: locks iff unlocked and idle for 900 s |
| Approvals.LogoutRequest | crates/grimoire-service/src/state.rs:519-540 | auth.logout: nothing of the account stays in memory and its files go as far as they can be deleted; the failure count stays |
| Approvals.SetPinRequest | crates/grimoire-service/src/session.rs:345-363 | auth.set_pin answers and sets iff unlocked and four bytes or more |
| Approvals.SyncRequest | crates/grimoire-service/src/sync_worker.rs:36-171 | a sync alone: stamped iff asked with a token and answered; on a revoked login cache file and credential go and the vault locks; otherwise nothing changes |
| Flows.AloneIsRun | crates/grimoire-service/src/session.rs:112-169 | a request taking all the steps is a run of the machine |
| Grants.ApprovalRefinesLog | crates/grimoire-service/src/state.rs:75-90 | over every run, the cache approves a key at any time t iff the log shows a grant less than 300 s before t with no lock, logout or restart after it |
| Grants.FoldMeetsSpec | crates/grimoire-service/src/state.rs:83-90 | replaying grants and clears into a map answers as the declarative reading of the log does |
| Grants.ExecAccounts | crates/grimoire-service/src/session.rs:112-446 | every section logs exactly the grants and clears that account for its effect on the cache |
| Scopes.UnresolvedNeverPreApproved | crates/grimoire-service/src/session.rs:82-94 | while the down-counter is above the process-id range, a peer without a process id never finds its key in the cache and goes on to the prompts |
| Scopes.CounterReachesEveryPid | crates/grimoire-service/src/session.rs:83-92 | after U32_MAX - pid draws the key equals pid, and not before |
| Counters.KeysRepeatIff | crates/grimoire-service/src/session.rs:78-94 | over any run, two keys drawn by the same process for unresolvable peers are equal iff the number of draws from the one to the other is a multiple of 2^32, and it is at least one: any 2^32 draws in a row give distinct keys |
| Counters.RunsInStep | crates/grimoire-service/src/session.rs:83-93 | over any run, the n-th draw since the process started has logged the n-th key counting down, and the counter stands at the number of draws in the log |
| Counters.CounterFindsGrant | crates/grimoire-service/src/session.rs:112-145 | from any sound unlocked state with a live grant whose key is not yet passed, requests of unresolvable peers can draw the counter down to it, and the one that draws it is served although nobody has authenticated |
| Counters.BoundIsTight | crates/grimoire-service/src/session.rs:82-94 | a concrete run from a concrete store in which that happens at the first draw past the bound of UnresolvedNeverPreApproved |
| Backoffs.BackoffUnderConcurrency | crates/grimoire-service/src/session.rs:202-246 | with at most k requests between check and record, no half-open 30 s window of a process holds more than k of the run's wrong passwords from the seventh since the last right one on; the same of counted failures with count seven or more |
| Backoffs.BackoffAcrossRestarts | crates/grimoire-service/src/state.rs:113-124 | with working files and clocks the same holds of 29 s windows over any number of restarts, whichever processes met them |
| Backoffs.SequentialBackoffAcrossRestarts | crates/grimoire-sdk/src/persist.rs:94-131 | without overlap and across restarts at least 29n - 178 s |
| Backoffs.RestartRemembers | crates/grimoire-service/src/state.rs:113-124 | a restart keeps the count and, of the last failure's time, the second it fell in, however often it is repeated |
| Backoffs.SequentialBackoff | crates/grimoire-service/src/state.rs:172-200 | without overlap the n-th wrong password since the last right one comes at least the sum of the imposed delays, 30n - 179 s from seven on, after the first |
| Backoffs.DelayTable | crates/grimoire-prompt/src/pin.rs:11-17 | the service's schedule equals the prompt agent's for every count, and both are 0, 0, 1, 2, 4, 8, 16, 30, 30, ... |
| Backoffs.TotalDelayClosedForm | crates/grimoire-service/src/state.rs:172-185 | the delays before the n-th failure sum to 30n - 179 |
| Backoffs.AnyBackoff | crates/grimoire-service/src/session.rs:233-442 | every section, in every sound state: a wrong password (at login, unlock and authorisation refused as such; at the agent any failure) adds one, dates it now and saves it; a right one zeroes the count and removes the file; anything else leaves all three alone |
| Backoffs.RefusedAreFailures | crates/grimoire-service/src/state.rs:187-206 | over every run the failures in the log are, in order and time, the wrong passwords of its actions since the last right one |
| Backoffs.RefusalsCounted | crates/grimoire-service/src/state.rs:187-200 | and carry counts of at least their position, the count in memory no lower than their number |
| Backoffs.PassesIff | crates/grimoire-service/src/state.rs:172-185 | the check passes iff at least the delay has gone by since the last failure, and the seconds reported are what is left, rounded up |
| Backoffs.CheckedIff | crates/grimoire-service/src/session.rs:199-213 | all four requests are turned away at their check iff the delay lasts, with no change, and otherwise go on from now |
| Refusals.RefusedVerifyRecords | crates/grimoire-service/src/session.rs:413-432 | at the verification of an open vault's password, the request goes on to record iff the server refuses it as wrong and to reset iff it accepts, and no other section leads there |
| Refusals.WasJudged | crates/grimoire-service/src/session.rs:413-432 | over every run, a request about to record or reset was judged so by an earlier action |
| Backoffs.ApprovalPasswordIgnoresBackoff | crates/grimoire-service/src/approval.rs:81-97 | the approval password sections behave identically for every failure count and never change it |
| AutoLocking.NeverLocksRecentlyTouched | crates/grimoire-service/src/sync_worker.rs:15-28 | over every run each automatic lock comes at least 900 s after every earlier touch, also one between the worker's two checks |
| AutoLocking.NeverIdleTooLong | crates/grimoire-service/src/sync_worker.rs:8-31 | while the last round is at most 30 s old, no unlocked vault has been idle for 930 s |
| AutoLocking.LocksIffIdle | crates/grimoire-service/src/sync_worker.rs:8-34 | over every run a round of the worker locks an unlocked vault iff the run's last activity is 900 s ago or longer |
| AutoLocking.ActivityIsLastTouch | crates/grimoire-service/src/state.rs:208-210 | over every run the activity time is that of the last gated request, accepted login, successful unlock or restart among its actions |
| CacheAgreement.CacheUnlockAgreesAcrossRuns | crates/grimoire-service/src/state.rs:253-411 | after an online unlock by auth.unlock, auth.authorize or the SSH agent that wrote its cache, over any later run that leaves file and credential alone, a locked vault's unlock succeeds from the cache, with the very same keys and an untouched store, iff the candidate derives the same hash (with the floor met and the ciphers accepted), and asks the server iff it does not |
| CacheAgreement.LaterRequestsAgreeAcrossRuns | crates/grimoire-service/src/session.rs:295-420 | so does the next step of any request standing at any of the three sections that try a password: a matching password unlocks and goes on, another one leaves the vault locked and unkeyed when the server refuses |
| CacheAgreement.UnlockSectionGoesOn | crates/grimoire-service/src/ssh_agent.rs:223-253 | each of the three sections goes on as after a success iff its unlock succeeded |
| Machine.UnlockSectionEffect | crates/grimoire-service/src/session.rs:295-322 | each of the three leaves what its unlock leaves, but for the failure count and the grants |
| CacheAgreement.CacheUnlockAgrees | crates/grimoire-service/src/state.rs:339-411 | the same for one unlock: exactly those passwords, and the same user key, private key and user id |
| CacheAgreement.CachedKeysAgree | crates/grimoire-sdk/src/cache.rs:169-221 | opening, floor, code check and key initialisation together succeed iff the parameters are at the floor, in numbers, and the hash is the same, and yield the original keys |
| CacheAgreement.OnlineUnlockWrites | crates/grimoire-service/src/state.rs:317-333 | a successful online unlock leaves a file that parses to its own sealed record |
| CacheAgreement.RunsUntouched | crates/grimoire-service/src/sync_worker.rs:103-151 | a run whose log shows no cache change has left file and credential byte for byte |
| Durable.CacheOwnership | crates/grimoire-service/src/state.rs:415-500 | in every reachable memory and disk, file operations succeeding: a cache file is a record of the logged-in account sealed under some key or none, there is none when logged out, and the two state files mirror memory |
| Durable.EmptyStoreConsistent | crates/grimoire-sdk/src/persist.rs:62-66 | a store without files is one that theorem may start from |
| Durable.OpenedRecordIsTheAccounts | crates/grimoire-service/src/state.rs:344-395 | in every such state, whatever the file opens to under whatever the credential store holds by then carries the logged-in email and URL, and so does the record a cache unlock takes keys from; the unlock never compares them |
| Durable.SealedOpens | crates/grimoire-sdk/src/cache.rs:313-334 | a sealed file opens to its record iff it was sealed without a key or the same key is offered, and else to an error |
| Durable.OneOwner | crates/grimoire-sdk/src/cache.rs:276-311 | no file is a sealed record of two accounts, whatever the keys |
| Durable.FailedDeleteLeavesForeignCache | crates/grimoire-service/src/state.rs:519-536 | after a logout the next account finds a cache iff one existed and its deletion failed, and then it is not that account's |
| Ownership.ForeignCacheIff | crates/grimoire-service/src/state.rs:216-251 | from any state whose cache file is the logged-in account's, a step leaves one that is not iff it is a logout that cannot delete an existing file, an unlock whose failed write leaves foreign bytes, or a restart with a cache file present that does not find the account in its login file, whether writing or reading that failed or an older account's is still there |
| Ownership.OwnedWithoutOrphaning | crates/grimoire-service/src/state.rs:415-443 | over any run without such a step, however the other file operations fail, the cache file stays the account's; for this direction the primitives need no law |
| Ownership.UnlockFile | crates/grimoire-service/src/state.rs:310-333 | the cache file after an unlock: what it wrote, what a failed write left, or untouched |
| Ownership.WrittenNeedsCredential | crates/grimoire-service/src/state.rs:455-500 | with a credential store that has or takes a key, the file an unlock writes is encrypted, opens iff the key offered is the one the store then holds, and names the hash of its ciphers |
| Ownership.FailedDeleteHappens | crates/grimoire-service/src/state.rs:530-531 | a concrete run of the first cause, with primitives that meet every law |
| Ownership.TornWriteHappens | crates/grimoire-service/src/state.rs:491-494 | likewise of the second |
| Ownership.UnreadableLoginHappens | crates/grimoire-service/src/state.rs:243-247 | likewise of the third, whether the failed login write left an unreadable file or none; no deletion fails |
| Ownership.StaleLoginHappens | crates/grimoire-sdk/src/persist.rs:26-59 | likewise with a login file that can be neither removed nor opened: the run ends locked as the first account over a cache file that is the second one's |
| Ownership.BootOwned | crates/grimoire-service/src/state.rs:112-170 | a fresh process over files whose cache, if any, is the account's of the login file is a state those theorems may start from |
| Ownership.CrashInLogoutIff | crates/grimoire-service/src/state.rs:526-536 | a process that dies between a logout's deletions leaves a cache with nobody logged in iff it dies after the login file is gone and before an existing cache file is; with these two the other way round it never would |
| Witnesses.TellingIsIdeal | crates/grimoire-sdk/src/cache.rs:215-334 | concrete primitives meet every law assumed of the cache's cryptography, including that a ciphertext does not open under another key |
| ChannelWitnesses.TellingWireIsIdeal | crates/grimoire-protocol/src/codec.rs:122-194 | likewise for the channel's cipher and key exchange |
| Durable.RestartRefinesLock | crates/grimoire-service/src/state.rs:112-170 | a restart gives the state that locking gives but for sync time, timers and failure count iff the login file can be read, and nobody is logged in iff it cannot; the failure count is exact iff the backoff file can be read or there was none; the files stay |
| Durable.RestartKeepsLastAttempt | crates/grimoire-service/src/state.rs:115-124 | the last attempt is lost iff the platform cannot represent it or the backoff file cannot be read, and otherwise moves by less than a second and never into the future |
| Durable.RestartKeepsBackoff | crates/grimoire-sdk/src/persist.rs:94-131 | the remaining delay, asked at any later time, changes by at most one second |
| ServiceObjects.ApprovalCache.constructor | crates/grimoire-service/src/state.rs:69-73 | starts without grants |
| ServiceObjects.ApprovalCache.IsApproved | crates/grimoire-service/src/state.rs:76-80 | answers whether the key's expiry is still ahead |
| ServiceObjects.ApprovalCache.Grant | crates/grimoire-service/src/state.rs:83-85 | sets one key's expiry, keeping all others |
| ServiceObjects.ApprovalCache.Clear | crates/grimoire-service/src/state.rs:88-90 | leaves no grant |
| ServiceObjects.DiskStore.SaveLoginState | crates/grimoire-sdk/src/persist.rs:26-59 | on success the file holds the account; on failure it is as before or, truncated, unreadable |
| ServiceObjects.DiskStore.LoadLoginState | crates/grimoire-sdk/src/persist.rs:62-78 | a missing file is nobody; an unreadable one, or one that cannot be opened, is an error |
| ServiceObjects.DiskStore.ClearLoginState | crates/grimoire-sdk/src/persist.rs:141-151 | on success no file, on failure the old one, and nothing else changes |
| ServiceObjects.DiskStore.SaveBackoff | crates/grimoire-sdk/src/persist.rs:110-131 | on success the file holds count and epoch; on failure it is as before or, truncated, unreadable |
| ServiceObjects.DiskStore.LoadBackoff | crates/grimoire-sdk/src/persist.rs:96-107 | anything but a readable file counts as no failures |
| ServiceObjects.DiskStore.ClearBackoff | crates/grimoire-sdk/src/persist.rs:134-138 | likewise for the backoff file |
| ServiceObjects.DiskStore.ReadCacheFile | crates/grimoire-sdk/src/cache.rs:409-419 | nothing when the file is missing or not seen, an error when it cannot be read, else the parsed envelope or the parser's error |
| ServiceObjects.DiskStore.WriteCacheFile | crates/grimoire-sdk/src/cache.rs:360-406 | the file becomes the envelope's bytes, or is untouched when the body does not fit, or arbitrary when the write fails |
| ServiceObjects.DiskStore.DeleteCacheFile | crates/grimoire-sdk/src/cache.rs:445-455 | on success no cache file, on failure the old one |
| ServiceObjects.DiskStore.DeleteCek | crates/grimoire-service/src/state.rs:532-536 | likewise for the credential |
| ServiceObjects.DiskStore.CekForSealing | crates/grimoire-service/src/state.rs:460-487 | the stored key, else a stored fresh one, else none |
| ServiceObjects.VerifySessionPin | crates/grimoire-service/src/state.rs:47-59 | the loop without early exit answers whether the session has a PIN and it is the candidate |
| ServiceObjects.ServiceState.constructor | crates/grimoire-service/src/state.rs:112-170 | starts locked or logged out from what it can read of the files, sound, with the restored backoff |
| ServiceObjects.ServiceState.MasterPasswordBackoffRemaining | crates/grimoire-service/src/state.rs:172-185 | the seconds left of the delay |
| ServiceObjects.ServiceState.RecordPasswordFailure | crates/grimoire-service/src/state.rs:187-200 | one more failure, in memory and on disk, and nothing else |
| ServiceObjects.ServiceState.ResetPasswordAttempts | crates/grimoire-service/src/state.rs:202-206 | no failures, in memory and on disk, and nothing else |
| ServiceObjects.ServiceState.Touch | crates/grimoire-service/src/state.rs:208-210 | moves the activity time and nothing else |
| ServiceObjects.ServiceState.Login | crates/grimoire-service/src/state.rs:216-251 | the whole new state and store of a login, the login file written, as before or unreadable, keeping the invariant |
| ServiceObjects.ServiceState.Unlock | crates/grimoire-service/src/state.rs:253-336 | the whole new state and store of a cache-first unlock; the invariant is kept and an error changes the client alone |
| ServiceObjects.ServiceState.UnlockFromCache | crates/grimoire-service/src/state.rs:339-411 | result and state, with keys left loaded when filling the cipher store fails |
| ServiceObjects.ServiceState.BuildCache | crates/grimoire-service/src/state.rs:415-500 | the store afterwards, whatever fails on the way |
| ServiceObjects.ServiceState.UnlockOnline | crates/grimoire-service/src/state.rs:310-336 | result, state and store of the online half |
| ServiceObjects.ServiceState.Lock | crates/grimoire-service/src/state.rs:502-517 | the locked state, or an error and no change; the invariant is kept |
| ServiceObjects.ServiceState.Logout | crates/grimoire-service/src/state.rs:519-540 | the logged-out state and store, from any state whatever, sound |
| ServiceObjects.ServiceState.SetPin | crates/grimoire-service/src/state.rs:542-556 | the PIN is set iff unlocked and of four bytes or more |
| ServiceObjects.ServiceState.VerifyPin | crates/grimoire-service/src/state.rs:558-576 | accepts iff the session's PIN is the candidate; success zeroes the failures, anything else adds one |
| ServiceObjects.ServiceState.PinSet | crates/grimoire-service/src/state.rs:212-214 | whether the session has a PIN |
| ServiceObjects.ServiceState.PinAttemptsExceeded | crates/grimoire-service/src/state.rs:578-582 | whether the session has used up its attempts |
| ServiceObjects.ServiceState.CheckPin | crates/grimoire-service/src/approval.rs:61-72 | accepts iff the session's PIN is the candidate, and the third failure locks in the same section |
| ServiceObjects.ServiceState.VerifyPassword | crates/grimoire-service/src/state.rs:585-595 | the server's verdict, asked only while unlocked |
| SectionHandlers.Handlers.ResolveScopeKey | crates/grimoire-service/src/session.rs:82-94 | the session leader, the process id, or the next key of the wrapping down-counter |
| SectionHandlers.Handlers.Gate | crates/grimoire-service/src/session.rs:112-149 | each section of the gate, on the objects, has the state, counter and continuation of the machine's step |
| SectionHandlers.Handlers.ApproveByPin | crates/grimoire-service/src/approval.rs:26-76 | the same for the PIN part of the approval flow |
| SectionHandlers.Handlers.PinSection | crates/grimoire-service/src/approval.rs:60-72 | the same for the section that verifies a PIN and may lock |
| SectionHandlers.Handlers.ApproveAndGrant | crates/grimoire-service/src/approval.rs:38-112 | the same for biometric and password approval and for the grant after its own lock section |
| SectionHandlers.Handlers.ResetAndGrant | crates/grimoire-service/src/session.rs:298-305 | what a successful unlock ends with under the write lock |
| SectionHandlers.Handlers.Login | crates/grimoire-service/src/session.rs:188-249 | each section of a login is the machine's step |
| SectionHandlers.Handlers.Unlock | crates/grimoire-service/src/session.rs:251-293 | check and prompt of an unlock are the machine's steps |
| SectionHandlers.Handlers.UnlockSection | crates/grimoire-service/src/session.rs:295-322 | so is its write section: reset and grant on success, a recorded failure only on a wrong password |
| SectionHandlers.Handlers.Authorize | crates/grimoire-service/src/session.rs:365-446 | each section of an authorisation but the unlock is the machine's step |
| SectionHandlers.Handlers.AuthorizeUnlockSection | crates/grimoire-service/src/session.rs:403-420 | so is the unlock, which does not grant yet |
| SectionHandlers.Handlers.Agent | crates/grimoire-service/src/ssh_agent.rs:127-221 | each section of the agent before the unlock is the machine's step |
| SectionHandlers.Handlers.AgentUnlockSection | crates/grimoire-service/src/ssh_agent.rs:223-253 | so is the unlock, where every error counts as a failure |
| SectionHandlers.Handlers.RunSync | crates/grimoire-service/src/sync_worker.rs:74-98 | a sync changes the client's ciphers at most and leads to the stamp, to the revocation or to nothing |
| SectionHandlers.Handlers.SyncRound | crates/grimoire-service/src/sync_worker.rs:36-99 | a sync under the read lock and the stamp in a section of its own are the machine's steps |
| SectionHandlers.Handlers.HandleAuthRevoked | crates/grimoire-service/src/sync_worker.rs:154-172 | cache file, credential and lock, one after the other |
| SectionHandlers.Handlers.HandleLock | crates/grimoire-service/src/session.rs:325-335 | locks an unlocked vault, answers anyway |
| SectionHandlers.Handlers.HandleLogout | crates/grimoire-service/src/session.rs:337-343 | logs out from any state |
| SectionHandlers.Handlers.HandleSetPin | crates/grimoire-service/src/session.rs:345-359 | answers as `set_pin` does |
| SectionHandlers.Handlers.IsIdle | crates/grimoire-service/src/sync_worker.rs:15-18 | unlocked, and last touched at least 900 s ago |
| SectionHandlers.Handlers.AutoLockRound | crates/grimoire-service/src/sync_worker.rs:12-30 | the check, and the second check under the write lock, are the machine's steps |
| SectionHandlers.Handlers.ReadSdk | crates/grimoire-service/src/session.rs:449-702 | the reading section's answer, and that it releases decrypted data only from an unlocked vault |
| SectionHandlers.Handlers.RunSection | crates/grimoire-service/src/session.rs:112-169 | any section of any request, on the objects, is the machine's step, and hands out decrypted data iff the machine logs it |
| Drivers.Driver.constructor | crates/grimoire-service/src/state.rs:112-170 | fresh objects over the files stand where the machine boots |
| Drivers.Driver.RestartProcess | crates/grimoire-service/src/state.rs:112-170 | new objects over the same files, each of which may or may not be readable, are the machine's restart |
| Drivers.Driver.Perform | crates/grimoire-service/src/session.rs:112-169 | one action on the objects is one step, and the theorems hold of the fields: keys, unlocked status and session go together, the approval map approves iff the log does, and decrypted data came out only of an unlocked vault for a request that had shown its approval |
| Drivers.Driver.PerformAll | crates/grimoire-service/src/session.rs:112-169 | any sequence of actions leaves the objects where the machine's run ends |
| Envelope.ParseCharacterised | crates/grimoire-sdk/src/cache.rs:457-499 | bytes parse to an envelope iff they start with its serialisation and the body is within the limit |
| Envelope.RoundTripIffBodyFits | crates/grimoire-sdk/src/cache.rs:371-380 | a written file reads back iff its body is at most 256 MiB, and is refused otherwise |
| Envelope.FileLayout | crates/grimoire-sdk/src/cache.rs:360-406 | which byte of the file holds what |
| Envelope.VaultHashAgrees | crates/grimoire-sdk/src/cache.rs:422-442 | the header-only reader returns the hash of the envelope the file holds |
| Envelope.BuildFile | crates/grimoire-sdk/src/cache.rs:371-380 | the growing buffer ends as the serialisation |
| Envelope.CopyFromSlice | crates/grimoire-sdk/src/cache.rs:475-479 | fills a fixed array with a slice of its length |
| Envelope.ParseFile | crates/grimoire-sdk/src/cache.rs:457-499 | the copying parser computes the specification, errors included |
| VaultCaches.ConstantTimeEqHmac | crates/grimoire-sdk/src/cache.rs:241-250 | the fold without early exit decides equality of two 64-character codes |
| VaultCaches.XorFoldDetectsDifference | crates/grimoire-sdk/src/cache.rs:241-250 | the accumulated difference is zero iff the strings are equal |
| VaultCaches.OpenSealed | crates/grimoire-sdk/src/cache.rs:276-334 | opening a sealed record gives it back, with its own key or, if sealed without, with any |
| VaultCaches.OpenSealedIff | crates/grimoire-sdk/src/cache.rs:276-334 | for every key offered: the record if none was needed or it is the same, an error otherwise |
| VaultCaches.FloorImpliesConvertible | crates/grimoire-sdk/src/cache.rs:96-128 | the floor is PBKDF2 with 100000 iterations or Argon2id with 3 iterations, 64 MiB and one lane, and parameters that meet it always convert back to the same |
| VaultCaches.KdfRoundTrip | crates/grimoire-sdk/src/cache.rs:51-93 | converting parameters there and back is the identity |
| VaultCaches.BuiltVerifies | crates/grimoire-sdk/src/cache.rs:169-213 | a built record verifies for a hash iff that hash has the same code |
| VaultCaches.CanonicalIsFaithful | crates/grimoire-sdk/src/cache.rs:215-221 | two records have the same authenticated form iff they differ at most in the code |
| Codec.ConnectionSafety | crates/grimoire-service/src/session.rs:49-73 | on any byte stream, what the loop serves is a subsequence of what the client encoded, and of the client's own complete stream at most one message |
| Codec.UnforgedIsGenuine | crates/grimoire-protocol/src/codec.rs:122-194 | if whatever opens was sealed by the peer under that nonce, then it is the message at the index that the payload's counter names |
| Codec.DecodedIsSubsequence | crates/grimoire-protocol/src/codec.rs:159-194 | for any delivery without the last counter, a codec decodes the peer's messages at increasing indices at least two apart |
| Codec.ServedIsSubsequence | crates/grimoire-service/src/session.rs:49-73 | the loop, which ends at the first error, needs no such proviso |
| Codec.CounterRegressesIff | crates/grimoire-protocol/src/codec.rs:175-183 | the remembered counter goes back iff a payload with the last counter passes the check, genuine or not |
| Codec.LastCounterAllowsReplay | crates/grimoire-protocol/src/codec.rs:182-183 | then a bare codec accepts a message twice, and the loop does not |
| Codec.DocumentedAcceptsAll | crates/grimoire-protocol/src/codec.rs:60-61 | the documented rule accepts every message of an in-order stream |
| Codec.CodedAcceptsEven | crates/grimoire-protocol/src/codec.rs:175-183 | the coded rule accepts exactly those at even indices |
| Codec.ServesAtMostOne | crates/grimoire-service/src/session.rs:49-73 | the loop serves exactly the first message of an in-order stream, or none |
| Codec.NoNoncePairRepeats | crates/grimoire-protocol/src/codec.rs:70-134 | both ends hold the same two keys, crosswise, and over 2^64 encodes in each direction no key and nonce recur together |
| Codec.FrameRoundTrip | crates/grimoire-protocol/src/codec.rs:297-320 | a frame reads back, leaving the rest, iff it is within the limit, which only the reader enforces |
| Codec.FramesOfConcatenated | crates/grimoire-protocol/src/codec.rs:281-320 | a stream of frames splits into exactly its payloads |
| Codec.WireLayout | crates/grimoire-protocol/src/codec.rs:137-157 | which byte of a message on the wire holds what, and what its nonce is |
| Codec.RepliesAreInOrder | crates/grimoire-service/src/session.rs:49-73 | the replies of a fresh server are the stream, in order, of its answers to what it served |
| Codec.EncryptedCodec.Client | crates/grimoire-protocol/src/codec.rs:90-103 | sends under the first derived key, receives under the second, from counter zero |
| Codec.EncryptedCodec.Server | crates/grimoire-protocol/src/codec.rs:107-120 | the other way round |
| Codec.EncryptedCodec.Encode | crates/grimoire-protocol/src/codec.rs:137-157 | the frame of the payload at the send counter, which moves on by one, wrapping |
| Codec.EncryptedCodec.Decode | crates/grimoire-protocol/src/codec.rs:159-194 | result and counter of the receive rule, the counter moving before decryption |
| Codec.EncryptedCodec.HandleClient | crates/grimoire-service/src/session.rs:49-73 | the loop serves the specified messages and writes each reply under its own counter |
| Requests.WireNormalForm | crates/grimoire-protocol/src/request.rs:27-141 | decoding the encoding gives the value, but a TOTP parameter becomes an item one and the empty parameter an unlock |
| Requests.WireImage | crates/grimoire-protocol/src/request.rs:27-39 | normalising settles after one round, and a value is decodable from some JSON iff it is normal |
| Requests.DecodedIsNormal | crates/grimoire-protocol/src/request.rs:27-39 | no JSON value, object or array, decodes to a TOTP or an empty parameter |
| Requests.OverlapOnlyOn | crates/grimoire-protocol/src/request.rs:41-141 | two variants accept the same object only if it is empty or holds just an id |
| Requests.OrderOnlyMattersFor | crates/grimoire-protocol/src/request.rs:28-39 | on all other objects any order of the variants decodes alike |
| Requests.RequestRoundTrip | crates/grimoire-protocol/src/request.rs:5-24 | a whole request survives the wire up to that normal form |
| Requests.RequestReads | crates/grimoire-protocol/src/request.rs:5-24 | what a decoded request says is what the object has under its four names, the last two optional |
| Requests.WireTransparentIff | crates/grimoire-service/src/session.rs:188-519 | a handler gets the same input across the wire as in process iff it is not an item handler given a TOTP parameter |
| Requests.OnlyTotpUnreachable | crates/grimoire-service/src/session.rs:512-519 | every other method gets each valid input intact; for any JSON whatever the TOTP handler sees invalid parameters |
| Requests.DecodeSays | crates/grimoire-protocol/src/request.rs:28-40 | what a parameter object decodes to is what its fields, by name, say, in the first variant whose fields they are |
| Requests.RefReads | crates/grimoire-protocol/src/request.rs:116-123 | a reference object decodes iff it has exactly an id and a field, both texts |
| Requests.AccountHandlersReceive | crates/grimoire-service/src/session.rs:188-380 | what the login, unlock, PIN and authorise handlers take out of any decodable parameter object, by its fields |
| Requests.VaultHandlersReceive | crates/grimoire-service/src/session.rs:449-680 | likewise the listing, item, code, reference and signing handlers |
| UriMatching.MatchVaultItems | crates/grimoire-cli/src/commands/credential_helper.rs:102-178 | the loop's answer is the specified outcome |
| UriMatching.OutcomeCharacterised | crates/grimoire-cli/src/commands/credential_helper.rs:155-178 | an id iff exactly one item attains the maximum priority, nothing iff no item matches, an error iff two tie, counting those tied |
| UriMatching.PermutationInvariant | crates/grimoire-cli/src/commands/credential_helper.rs:113-178 | permuting the items changes nothing |
| UriMatching.AddedItemIgnoredIff | crates/grimoire-cli/src/commands/credential_helper.rs:113-178 | an added item changes nothing iff it does not match, is below the best, or beats it under the very same id |
| UriMatching.PriorityOfEveryUri | crates/grimoire-cli/src/commands/credential_helper.rs:70-147 | every URI text is a scheme or none, a host, a port and a path, and the priority is decided by the host and the normalised paths alone, whatever scheme and port |
| UriMatching.PriorityReads | crates/grimoire-cli/src/commands/credential_helper.rs:113-147 | in particular, for paths written with any slashes and suffixes around plain ones, by the plain paths |
| UriMatching.NormalizeDecomposes | crates/grimoire-cli/src/commands/credential_helper.rs:62-68 | normalising takes off a slash in front and a slash, ".git" and another slash behind, each iff it is there to take |
| UriMatching.DecorationIgnored | crates/grimoire-cli/src/commands/credential_helper.rs:62-68 | a slash in front, ".git" and a slash behind normalise away |
| UriMatching.UriReads | crates/grimoire-cli/src/commands/credential_helper.rs:70-98 | a location written with either scheme or none is read back lower-cased and without port; bare text is refused iff empty or with a blank |
| UriMatching.ListVault | crates/grimoire-sdk/src/vault.rs:101-140 | the summaries of the items the filters let through, in order |
| UriMatching.ListsOne | crates/grimoire-sdk/src/vault.rs:101-140 | an item is listed iff it is of the kind asked for and its name or user name has the text in it, whatever the case, with its own id, name and kind, its subtitle as user name, and no URI |
| UriMatching.ListsParts | crates/grimoire-sdk/src/vault.rs:101-140 | a longer vault lists as its parts do, in order |
| UriMatching.ListedHasNoUris | crates/grimoire-sdk/src/vault.rs:110-123 | for every vault and filter no listed item has a URI |
| UriMatching.ChooseCredential | crates/grimoire-cli/src/main.rs:838-897 | from the listing through the user-name filter to the choice, the helper finds nothing, for every vault, request and user name |
| UriMatching.ListedItemsNeverMatch | crates/grimoire-cli/src/commands/credential_helper.rs:113-157 | items without URIs match nothing |
| UriMatching.ParseCredentialRequest | crates/grimoire-cli/src/commands/credential_helper.rs:15-37 | up to the first blank line: an error iff some line lacks a delimiter, else the last value of each key |
| UriMatching.LastValueIs | crates/grimoire-cli/src/commands/credential_helper.rs:15-37 | a key has a value iff some line is the key, the sign and the value and no later line has the key |
| RunPipeline.ParseRefCharacterised | crates/grimoire-cli/src/main.rs:1058-1074 | a value is read as a reference iff it is that reference's text with both parts non-empty and no slash in the field |
| RunPipeline.ParseManifest | crates/grimoire-cli/src/commands/manifest.rs:29-98 | all entries in order iff every line is good, else the first bad line, numbered from one, and what is wrong with it |
| RunPipeline.WrittenLineReads | crates/grimoire-cli/src/commands/manifest.rs:51-95 | an entry written out with any white space around name and reference is read back as that entry |
| RunPipeline.GoodLineIsWritten | crates/grimoire-cli/src/commands/manifest.rs:51-95 | and only a valid name, an equals sign and a readable reference, with white space around either, are read as an entry |
| RunPipeline.OtherLines | crates/grimoire-cli/src/commands/manifest.rs:51-95 | which lines are skipped, and which of the three errors each of the others is |
| RunPipeline.NameIsWritten | crates/grimoire-cli/src/commands/manifest.rs:14-26 | a valid name is non-empty, of letters, digits and underscores, and does not start with a digit |
| RunPipeline.EntriesAreReferences | crates/grimoire-cli/src/commands/manifest.rs:69-94 | every entry has a valid variable name and a readable reference |
| RunPipeline.UnionConcat | crates/grimoire-cli/src/commands/manifest.rs:102-108 | entry lists one after the other amount to one left-biased union |
| RunPipeline.UnionKeys | crates/grimoire-cli/src/commands/manifest.rs:102-108 | a name is in the union iff some entry sets it, with the reference of the first that does |
| RunPipeline.MergedSnoc | crates/grimoire-cli/src/main.rs:943-946 | applying one more manifest extends the union on the right |
| RunPipeline.LaterOverridesIff | crates/grimoire-cli/src/main.rs:942-946 | for any list of manifests, the comment's later-wins rule agrees with the code iff, for every name not already set, the first file to set it and the last give it the same reference |
| RunPipeline.FirstVersusLast | crates/grimoire-cli/src/main.rs:942-946 | for every name the code takes what the first file to set it says, the comment's rule what the last says |
| RunPipeline.InjectedAreReferences | crates/grimoire-cli/src/commands/manifest.rs:82-108 | every variable a manifest brings in holds a reference, so none reaches the command unresolved |
| RunPipeline.ResolveRefs | crates/grimoire-service/src/session.rs:558-576 | one result per reference in order: x iff the reference means x in the vault, an error iff it means nothing |
| RunPipeline.ResolvesIffMeans | crates/grimoire-service/src/session.rs:580-629 | for every vault and reference, the answer is x iff exactly one item is selected, by exact name after "//" or by id prefix, its details are there, and the field, in either spelling, names a slot of it that holds x |
| RunPipeline.SelectsIff | crates/grimoire-service/src/session.rs:586-606 | an item is selected iff it alone has the name or prefix; none and several are errors of their own, the several counted |
| RunPipeline.ErrorsIff | crates/grimoire-service/src/session.rs:586-629 | which error every other reference gets |
| RunPipeline.SubstitutedGives | crates/grimoire-cli/src/main.rs:934-1044 | every variable reaches the command as it was or, for a reference, as what it means |
| RunPipeline.PasswordReachesCommand | crates/grimoire-service/src/session.rs:616-618 | so a password reference is the selected item's password |
| RunPipeline.LongerPrefixesAgree | crates/grimoire-service/src/session.rs:580-606 | an id prefix selects an item iff only that item's id starts so, and then every longer prefix of the id selects it too |
| RunPipeline.ServiceIsHonest | crates/grimoire-service/src/session.rs:558-576 | the service's results are those of one meaning of references, which ResolvesIffMeans gives |
| RunPipeline.Process.ApplyManifestEntries | crates/grimoire-cli/src/commands/manifest.rs:102-108 | the environment becomes the union of the entries under what was set before |
| RunPipeline.Process.Collect | crates/grimoire-cli/src/main.rs:948-955 | each reference-valued variable paired with its own reference, once, in any order |
| RunPipeline.Process.AnyError | crates/grimoire-cli/src/main.rs:1007-1018 | whether any result is an error |
| RunPipeline.Process.Replace | crates/grimoire-cli/src/main.rs:1020-1026 | each paired variable set to its own result, all others left alone |
| RunPipeline.Process.HandleRun | crates/grimoire-cli/src/main.rs:934-1044 | the command runs iff it is given, every manifest is good and every reference is answered and resolves; it gets the merged environment with each reference replaced, over a vault by what it means there; on giving up nothing has been replaced |

## Left out

- Cryptographic primitives: functions with ideal laws; the channel assumes that a payload which opens was encoded by the peer, the cache that two different hashes of interest have different codes (`NoCollision`).
- HTTP, prompts, biometrics and the Bitwarden SDK: verdicts and replies are inputs of the step that asks for them.
- JSON text, number formats and duplicate keys: JSON values are trees, and serialising the cache record is assumed to be invertible and never to fail.
- Lock fairness and duration: a section is instantaneous, time passes between sections, so a slow server inside the write lock is not seen by others as a delay.
- The sync spawned after an unlock: a sync may begin at any time instead.
- 32-bit widths of failure and attempt counts: unbounded, since reaching 2^32 failures takes thousands of years.
- The wall clock: a constant offset from the monotonic clock.
- The session-leader lookup through /proc: a fixed function of the process id.
- Failed file operations: a failed write of the login or backoff file leaves the old file or an unreadable one, a failed cache write arbitrary bytes, a failed delete the file; the read of a file that is there may fail.
- A crash inside a section: restarts fall between sections; only a logout's deletions are taken apart (`Ownership.CrashInLogoutIff`).
- Permissions, fsync, zeroisation, memory locking and timing: not functional.
- The listing of public keys to SSH clients, which has no approval gate, is not counted as a release of secrets; the choice of the key to sign with and the signature format are not modelled.
- The status handlers `handle_status` and `handle_sync_status`, which only report.
- Idle timeouts of connections and failures to write a reply: a connection that ends earlier serves a prefix.
- Cipher freshness in the cache: records are built with no ciphers and sync never rewrites them, so nothing is claimed.
- Splitting a manifest's text into lines, and warnings about its permissions.
- Environment variables that are not Unicode and values with NUL characters, on which the standard library panics or reports the variable as unset.
- A failing exec: the model ends where the environment is handed over.
- CacheAgreement.CacheUnlockAgreesAcrossRuns: assumes that the cache file can be read when the time comes, that the record's body is within the reader's limit, that the credential store still answers, and that the candidate's hash does not collide; without the first the unlock fails (`Service.MalformedCacheBlocksUnlock`), without the others it falls back to the server.
- Durable.CacheOwnership: assumes that file writes and deletes, and the reads of a restart, succeed; `Ownership.ForeignCacheIff` says exactly what happens otherwise.
- Durable.OpenedRecordIsTheAccounts: assumes besides that a ciphertext does not open under another key, which matters only when the stored credential was replaced after the file was sealed.
- Backoffs.BackoffAcrossRestarts: assumes working file operations, a clock after 1970 and a platform that can represent instants a second before the start; otherwise a restart can forget the last attempt's time.
- RunPipeline.LongerPrefixesAgree: leaves aside ids and prefixes that start with two slashes, which select by name instead (`RunPipeline.SelectsIff` covers both); ids are UUIDs.
- Service installers, clipboard, password generation, native prompt interfaces and packaging.
