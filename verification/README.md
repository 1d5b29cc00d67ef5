# A verified model of the token-exchange service

This project models the core of an RFC 8693 token-exchange server (its `sts-*` crates, its command line and its
architecture check) in Dafny and proves what the service promises about whole runs: single use of credentials, one live
token per assertion and role, permanent revocation, sound minting, safe key rotation. `dafny verify dfyconfig.toml` checks it.

| file | models |
|---|---|
| `ReplayStore.dfy` | the in-memory and the file-backed replay store, one caller at a time, against an eagerly purged map |
| `ReplayProtocol.dfy`, `ReplayBounds.dfy` | any number of concurrent attempts on either store, at the grain of single file steps |
| `Form.dfy`, `Scopes.dfy`, `Text.dfy`, `WordSet.dfy`, `ActorChain.dfy`, `KeyOwnership.dfy`, `Dpop.dfy`, `Jwks.dfy` | form parsing and building, downscoping, actor chains, key ownership, DPoP windows, key sets |
| `Exchange.dfy`, `Genuine.dfy`, `Recording.dfy`, `Admission.dfy`, `Minting.dfy`, `Refusals.dfy` | every gate of the token endpoint in order, what makes a token genuine, recording, minting, what a minted token guarantees, exactly when one is issued and why one is refused |
| `Revocations.dfy`, `Server.dfy`, `ServerSafety.dfy`, `Runs.dfy` | the service as a state machine over a clock, and the results about its runs |
| `RunBuilding.dfy`, `TwoTokens.dfy`, `Roles.dfy`, `Slips.dfy`, `Example.dfy` | runs built to order: two exchanges that both yield a live token, one assertion in two roles, revoked tokens that are still reported active, a concrete service |
| `Rotation.dfy`, `Restart.dfy` | concurrent key rotations with crashes, and servers restarted among them |
| `Cycles.dfy`, `BitLength.dfy` | `find_cycles`, RSA modulus bit length |

Signing is ideal (a signature verifies under exactly the key that made it) and SHA-256 is injective. Clock readings,
decoded tokens, fresh `jti` values and scheduling are parameters. State machines are functions `Step(state, label)`;
a run is a sequence of labels, so every statement about `Exec` or `Reachable` is about every interleaving. An attempt on
the shared directory may stop for good between any two of its steps. In `Server.dfy` each replica has its own
configuration and revocation list; replicas share the file store, while the in-memory store has a single process. Each
request reads the clock once or several times, as in the source, and any amount of time may pass between a reading and
its use.

## What turned out to need a condition

- Single use on disk holds exactly as long as no reading has passed any expiry that the key was presented with
  (`ReplayProtocol.OneAcceptedWhileNonePassed`). Once one has, `ReplayBounds.PassedExpiryAdmitsTwo` builds the failing
  interleaving for every key and every two expiries of which the older has passed.
- The in-memory store looks a key up before it sweeps, so a retry of an expired key that is still listed is a replay for
  it and a new entry for the eager map. Over a run the two agree on what is live exactly as long as no such retry carries
  an expiry that is still to come (`ReplayStore.MemoryAgreesExactlyWhen`); then every answer but `Replay` is the same.
  One expiry per key is enough for that. `ReplayStore.RevivedKeyBreaksAgreement` shows a run that drifts apart.
- One assertion yields one live token if it is used in one mode, or if its subject is not an actor at some replica and, at
  some replica, a client with an impersonation policy (`Runs.OneAssertionOneLiveToken`). Otherwise it is recorded under two
  keys. Any two requests that present it in the two roles, pass the gates and share no live credential have a run in which
  both tokens are reported active (`Roles.TwoRolesTwoLiveTokens`), and such requests exist: where clients are the actors and
  use the same keys, as configuration has it by default, and `both` modes are on, the assertion of every plain delegation by
  an actor that policy also lets impersonate is good for the second request (`Roles.EveryDualServiceHasTwo`; `Example` is
  one such service). By default there is no impersonation policy, and then the property holds.
- A client assertion beside a delegation does not cap the token. On disk it backs a second live token in the leeway after it
  has expired, whenever two requests share nothing else (`TwoTokens.AccompanyingAssertionTwoLiveTokens`).
- The verdict of the form parser does not depend on order, but which error it reports does, exactly when a target
  parameter and another parameter both repeat (`Form.ErrorKindIgnoresOrderExactlyWhen`).
- The command line's bit length agrees with the server's in one more case than a non-zero first octet: a single zero
  octet before an octet with its top bit set (`BitLength.CliAgreesExactlyWhen`).
- After `/revoke` has returned 200, an introspection that reads the clock and answers later can still report the token
  active, if the token expires in between; one that reads the clock as it answers cannot (`Runs.RevocationIsPermanent`).
  That happens to a token that was listed while active, when another request purges the expired entry in between
  (`Slips.PurgedEntrySlips`), and to one whose revocation came too late (`Slips.StaleReadingSlips`); a token whose `iat` lies
  beyond the leeway in the future is not listed by a 200 at all (`Slips.EarlyRevocationIsLost`). The list is per process,
  so a replica that did not serve the revocation goes on reporting the token active (`Runs.IssuedTokenIsReported`).
- `rotate_pqc_key` reads both files before it takes the lock. No key is lost as long as the key file then still holds the
  key that was read (`Rotation.NoKeyIsLost`); otherwise going on loses the active key, unless the overlap that was read
  happened to list its id (`Rotation.DisturbedPqcLosesTheActiveKey`), and such states are reached from every initial one.

## Model

| member | source | states |
|---|---|---|
| `ReplayStore.InMemoryReplayStore.constructor` | crates/sts-replay/src/lib.rs:82-89 | starts empty; a sweep interval of zero counts as one |
| `ReplayStore.InMemoryReplayStore.CheckAndRecord` | crates/sts-replay/src/lib.rs:91-130 | the map, the counter and the verdict after a call are those of `MemoryCheck`, whose relation to the eager map is proved below |
| `ReplayStore.FileReplayStore.SweepExpired` | crates/sts-replay/src/lib.rs:172-185 | removes exactly the files whose expiry has passed, in whatever order the directory lists them |
| `ReplayStore.FileReplayStore.ActiveEntryCount` | crates/sts-replay/src/lib.rs:198-208 | counts every file once |
| `ReplayStore.FileReplayStore.CheckAndRecord` | crates/sts-replay/src/lib.rs:187-244 | directory, counter and verdict after a call are those of `FileCheck`, which is proved to answer as the eager map does |
| `ReplayStore.SweepMeaning` | crates/sts-replay/src/lib.rs:91-128 | lazy sweeping loses no live entry, invents none, and leaves the store full exactly when its live entries fill it |
| `ReplayStore.FileStepIsEager` | crates/sts-replay/src/lib.rs:212-244 | one call on stores that agree on live entries: same verdict, and they still agree |
| `ReplayStore.FileStoreIsEager` | crates/sts-replay/src/lib.rs:187-244 | on non-decreasing times the file store gives exactly the eager map's verdicts, for every sweep interval |
| `ReplayStore.MemoryStepAgainstEager` | crates/sts-replay/src/lib.rs:97-130 | accepts only what the eager map accepts; exactly when the verdicts coincide and exactly when the live entries still agree afterwards |
| `ReplayStore.MemoryAgreesExactlyWhen` | crates/sts-replay/src/lib.rs:97-130 | over every run on non-decreasing times, the live entries agree after every call exactly when no call revives a stale key |
| `ReplayStore.MemoryStoreIsStricter` | crates/sts-replay/src/lib.rs:91-130 | as long as no stale key is revived, every answer of a run other than a replay is the eager map's answer, so an unseen key is turned away as full exactly when that map is full |
| `ReplayStore.OneExpiryRevivesNothing` | crates/sts-replay/src/lib.rs:97-130 | when every key carries one expiry no call revives a stale key |
| `ReplayStore.RevivedKeyBreaksAgreement` | crates/sts-replay/src/lib.rs:104-117 | a three-call run in which a retried stale key makes the in-memory store accept what the eager map refuses as full |
| `ReplayStore.MemorySingleUse` | crates/sts-replay/src/lib.rs:97-130 | once accepted, a key is accepted by no later call at a time up to its expiry |
| `ReplayStore.FileSingleUse` | crates/sts-replay/src/lib.rs:212-244 | the same for the file store |
| `ReplayStore.MemoryReplayIsGenuine` | crates/sts-replay/src/lib.rs:104-117 | a replay verdict names a key that was held at the start or accepted earlier |
| `ReplayStore.MemoryIsBounded` | crates/sts-replay/src/lib.rs:118-128 | the map never exceeds `max_seen` |
| `ReplayStore.ReplayPolicy.CheckAndRecord` | crates/sts-replay/src/lib.rs:256-271 | the configured store, whichever it is, is called and nothing else changes |
| `ReplayProtocol.StepKeepsOwners` | crates/sts-replay/src/lib.rs:222-240 | every file was created by an attempt for its key and, once written, holds that attempt's expiry |
| `ReplayProtocol.RunKeepsHeld` | crates/sts-replay/src/lib.rs:172-244 | in every interleaving, until a clock reading passes the expiry, a file or entry that was recorded for a key with that expiry or a later one stays in place |
| `ReplayProtocol.AtMostOneAccepted` | crates/sts-replay/src/lib.rs:172-244 | any interleaving of any number of attempts, stopping anywhere: two accepted attempts for one key, with this expiry or later ones, are the same one until some clock reading passes the expiry; on disk no attempt for the key carries an earlier expiry |
| `ReplayProtocol.OneAcceptedWhileNonePassed` | crates/sts-replay/src/lib.rs:172-244 | whatever expiries a key is presented with, at most one attempt for it is accepted as long as no reading has passed any of them |
| `ReplayProtocol.ReplayHasAWinner` | crates/sts-replay/src/lib.rs:229-240 | an attempt turned away as a replay lost to another recorded attempt for the same key |
| `ReplayBounds.StoresAreBounded` | crates/sts-replay/src/lib.rs:198-244 | with at most n calls in flight, in every interleaving the directory holds at most `max_seen` + n - 1 files and the in-memory map at most `max_seen` entries |
| `ReplayBounds.SweepAlone` | crates/sts-replay/src/lib.rs:172-185 | the steps of an undisturbed sweep remove exactly the expired files |
| `ReplayBounds.AloneIsFileCheck` | crates/sts-replay/src/lib.rs:212-244 | refinement: an attempt whose file steps nobody interrupts computes the sequential store's entries and verdict |
| `ReplayBounds.PassedExpiryAdmitsTwo` | crates/sts-replay/src/lib.rs:225-233 | the converse on disk: for every key and every two expiries of which a reading has passed the older, two attempts with the newer are both accepted before it passes |
| `Dpop.EntryCoversWindow` | crates/sts-dpop/src/lib.rs:296-304 | for all i64 values, with saturation and negative leeway: a proof that passes the `iat` check has a live replay entry, and from `iat` on the two end together |
| `Dpop.IatExactlyWhen` | crates/sts-dpop/src/lib.rs:477-487 | the check accepts exactly an `iat` no further than the leeway from now, and with a negative leeway only now |
| `Dpop.ProofIsSpent` | crates/sts-http/src/lib.rs:1599-1608 | once recorded, a proof is accepted by no later call made at a time that passes its `iat` check, with either store |
| `Dpop.SpentProofHasLeftItsWindow` | crates/sts-dpop/src/lib.rs:477-487 | in every interleaving, a proof recorded twice implies a clock reading from which on it fails the `iat` check |
| `KeyOwnership.OwnerIsTheLongestMatch` | crates/sts-verify/src/lib.rs:445-469 | the identity that a kid is accepted for is the longest registered one that matches it |
| `KeyOwnership.OwnerExistsExactlyWhenMatched` | crates/sts-verify/src/lib.rs:445-469 | a kid has an accepted identity exactly when some registered identity matches it |
| `KeyOwnership.OwnerIsUnique` | crates/sts-verify/src/lib.rs:463-468 | a kid is accepted for one registered identity only |
| `Genuine.BelongsExactlyWhen` | crates/sts-verify/src/lib.rs:445-469 | a kid is accepted for exactly the longest registered identity that it equals or goes on from after a separator |
| `Genuine.VerifiesExactlyWhen` | crates/sts-jose/src/lib.rs:447-477 | a signature is accepted exactly when it was made with the first key listed under the token's kid, a key for its algorithm, which is supported and allowed |
| `Genuine.SubjectExactlyWhen` | crates/sts-verify/src/lib.rs:352-374 | a subject token is accepted exactly when signed RS256 under the provider's keys, issued by it, addressed to this server and within its window and the leeway |
| `Genuine.AssertionExactlyWhen` | crates/sts-verify/src/lib.rs:395-505 | an assertion is accepted exactly when signed under the key set with an allowed algorithm by the identity that owns the kid, issued by its own subject, addressed to this server, not expired beyond the leeway, not too long-lived and bound to the subject token where asked for |
| `Genuine.ActiveExactlyWhen` | crates/sts-http/src/lib.rs:1702-1736 | introspection takes for active exactly access tokens signed with the server's key or one it publishes, with its issuer and a configured audience, from `iat` less the leeway up to `exp` |
| `Minting.KidAuthenticatesOneIdentity` | crates/sts-http/src/lib.rs:1843-1847 | two genuine assertions under one kid name the same registered actor or client, whatever key sets and endpoints they were used with |
| `Text.SplitJoin` | crates/sts-core/src/lib.rs:303-318 | splitting a joined list of words gives the list back |
| `Text.TrimExactly` | crates/sts-core/src/lib.rs:303-310 | trimming takes away whitespace at the two ends and nothing else |
| `Text.WordsOfJoined` | crates/sts-core/src/lib.rs:303-318 | the words of any joined list are the words of its members, whatever whitespace they hold |
| `Scopes.IntersectMeaning` | crates/sts-core/src/lib.rs:312-314 | an order-preserving subsequence with each common word as often as on the left and no other word |
| `Scopes.GrantMeaning` | crates/sts-core/src/lib.rs:195-205 | what is left of the requested words is exactly the permitted ones, in order and multiplicity; the subject's scopes bind only when they must or when they meet the target's |
| `Scopes.DownscopeMeaning` | crates/sts-core/src/lib.rs:189-215 | the same through the joined string; refused exactly when nothing permitted was asked for, never an empty grant |
| `Scopes.DownscopeIdempotent` | crates/sts-core/src/lib.rs:189-215 | requesting the granted string again grants the same string |
| `Scopes.StrictGrantIsLenientGrant` | crates/sts-core/src/lib.rs:199-205 | whenever the strict mode succeeds the lenient mode gives the same string |
| `ActorChain.ParseSerialised` | crates/sts-http/src/lib.rs:2141-2168 | parsing a serialised chain gives it back exactly when it has at most ten levels and only non-empty subs, and is refused otherwise |
| `ActorChain.ParseExactlyWhen` | crates/sts-http/src/lib.rs:2145-2168 | for every JSON value, the parser accepts exactly those that denote a chain of at most ten named actors, and gives that chain back |
| `ActorChain.SanitiseIdempotent` | crates/sts-http/src/lib.rs:2145-2168 | sanitising an accepted JSON value twice is sanitising it once |
| `ActorChain.MintedChainIsBounded` | crates/sts-core/src/lib.rs:222-224 | a minted chain has at most eleven actors, all named |
| `Form.RecognisesExactly` | crates/sts-http/src/lib.rs:1201-1217 | exactly the twelve parameter names are recognised, each as its own parameter, and any other pair is passed over unchanged |
| `Form.ParseTokenForm` | crates/sts-http/src/lib.rs:1176-1199 | the loop over name-value pairs with its set of seen keys computes `Parse` of what the names stand for |
| `Form.ParseMeaning` | crates/sts-http/src/lib.rs:1268-1292 | success exactly without repeats, and then each field holds its one non-empty value and an empty `actor_token` is noted; an error names a kind of key that does repeat |
| `Form.ParseIgnoresOrder` | crates/sts-http/src/lib.rs:1176-1199 | verdict and form are unchanged by permuting pairs and by adding or removing unrecognised ones |
| `Form.ErrorKindIgnoresOrderExactlyWhen` | crates/sts-http/src/lib.rs:1186-1195 | the kind of error is independent of order exactly when target and other parameters do not both repeat |
| `Form.PushAll` | crates/sts-cli/src/main.rs:874-884 | pushes every value in order under the parameter's name, or fails exactly when one is blank |
| `Form.BuildForm` | crates/sts-cli/src/main.rs:747-773 | the form lists every given value once under its wire name, in the parameters' order; it fails exactly when some value is blank |
| `Form.FormRoundTrip` | crates/sts-cli/src/main.rs:747-777 | from the name-value pairs the command line writes, the server reads back exactly the fields it put in when there is at most one audience and one resource, and answers `invalid_target` otherwise |
| `Exchange.SubjectScopeString` | crates/sts-http/src/lib.rs:2118-2139 | a refusal exactly when `scp` is neither absent, null, a string nor an array of strings; nothing exactly when there is no word; else every word of `scope` and of the `scp` strings once, in ascending order |
| `Exchange.SubjectScopeMeaning` | crates/sts-http/src/lib.rs:2118-2139 | the same of the function that the gates use |
| `Exchange.ExtendFromArray` | crates/sts-http/src/lib.rs:2128-2135 | extends the ordered set by the words of every string, or refuses exactly when some element is no string |
| `WordSet.InsertKeepsOrder` | crates/sts-http/src/lib.rs:2119-2122 | inserting keeps the listing ascending and without repeats |
| `WordSet.OneListing` | crates/sts-http/src/lib.rs:2119-2122 | an ascending listing is determined by the set of its words |
| `Admission.ScopeExactlyWhen` | crates/sts-http/src/lib.rs:2091-2116 | a scope is resolved exactly when the subject's scopes are well formed and some requested word, or some default, is allowed by the target and by the subject's own words where they bind; then exactly all such words are granted, in order |
| `Admission.TargetExactlyWhen` | crates/sts-core/src/lib.rs:161-180 | a target is resolved exactly when audience and resource, whichever are given, both name it, a resource being an absolute URI without a fragment |
| `Admission.MayActExactlyWhen` | crates/sts-http/src/lib.rs:1998-2020 | an actor passes exactly when the subject token has no `may_act`, or an object there that names the actor, as its issuer too if it names one |
| `Admission.PassesExactlyWhen` | crates/sts-http/src/lib.rs:1368-1449 | a request gets as far as recording exactly when it is in order (form, parameters, client, proof, subject, target, scope, caller, signing key), and then records exactly the actor's assertion of a delegation, a client assertion and a proof, in that order |
| `Admission.PresentedIsUsable` | crates/sts-http/src/lib.rs:1434-1450 | the credentials of one request never collide with each other in the store |
| `Minting.DelegationBacking` | crates/sts-http/src/lib.rs:1414-1449 | a delegation past its gates has a genuine, registered, `may_act`-allowed actor whose assertion leads the recording |
| `Minting.ImpersonationBacking` | crates/sts-http/src/lib.rs:1493-1531 | an impersonation past its gates has a genuine, registered client whose policy allows target and subject, and no actor |
| `Minting.PrepareFormIsBacked` | crates/sts-http/src/lib.rs:1368-1412 | whatever passes every gate is backed: subject, target, scope, caller, exactly the presented credentials to record, DPoP binding and signing decision |
| `Minting.MintSound` | crates/sts-http/src/lib.rs:1414-1571 | for every request: sub, aud, scope, act, client_id, cnf and signing are backed by tokens that are genuine, `may_act` and policy, and exp is the least of `iat` + ttl, the subject token's own exp and the caller's assertion's own exp |
| `Minting.ActFollowsMode` | crates/sts-http/src/lib.rs:1742-1758 | a delegation-only server mints no token without `act`, an impersonation-only server none with it, in `Both` mode `act` is carried exactly when a non-empty `actor_token` was sent, and where delegation is on an empty `actor_token` gets no token |
| `Minting.MintedIsActive` | crates/sts-http/src/lib.rs:1702-1736 | a minted token passes every introspection check at every time from `iat` up to `exp`, also on a later server that still publishes the key |
| `Minting.ServesItself` | crates/sts-http/src/lib.rs:693-708 | a server with any extra keys finds its own signing key under its kid |
| `Recording.RecordCredentials` | crates/sts-http/src/lib.rs:1439-1450 | on either store, credentials are recorded in order under one reading until one is refused |
| `Recording.SuccessRecordsAll` | crates/sts-http/src/lib.rs:1849-1859 | on either store, after full success every presented credential that has not expired is on record with its expiry |
| `Recording.RecordsAllExactlyWhen` | crates/sts-http/src/lib.rs:1439-1450 | on either store, recording goes through exactly when no credential has a live entry, all but the last leave room for one more and, in memory, no expired entry of a credential is still listed when its turn comes, stated in the counter and size at the start |
| `Minting.IssuesExactlyWhen` | crates/sts-http/src/lib.rs:1368-1571 | from request, tokens, policy, clock and store: a token is issued exactly when the request is in order and its credentials are storable |
| `Minting.TokenInner` | crates/sts-http/src/lib.rs:1368-1571 | on either store a token is issued exactly when the request is in order and its credentials are storable; the answer tells the token's own binding, remaining life, scope and algorithm, the token is sound and active from `iat` to `exp`, all unexpired credentials are then on record, and a request that fails in any gate leaves the store as it was |
| `Minting.MayActRefuses` | crates/sts-http/src/lib.rs:1998-2020 | a delegation whose subject's `may_act` is no object, is empty or names another actor gets no token and leaves the store alone |
| `Refusals.RefusalIsExplained` | crates/sts-http/src/lib.rs:1368-1531 | every error of the gates names a condition that the request does fail: form, header, repeats, grant type, parameters, client, proof, subject, target, scope, actor, policy or signing key, and never an unavailable store |
| `Refusals.RecordingRefusal` | crates/sts-http/src/lib.rs:1439-1450 | recording stops at the first credential that the store refuses; a store full of live entries is reported unavailable, a held key by the error of its kind of credential |
| `Jwks.PublishedJwks` | crates/sts-http/src/lib.rs:693-708 | the loop publishes the signer's key and then each extra key whose kid is free |
| `Jwks.PublishedLookup` | crates/sts-jose/src/lib.rs:459-461 | looking a kid up in the published set finds the signer's key first and otherwise what the extra keys say |
| `Jwks.PublishedIdsAreDistinct` | crates/sts-http/src/lib.rs:693-708 | no kid names two published keys |
| `Rotation.BuildRetained` | crates/sts-cli/src/main.rs:1432-1438 | the staged overlap holds the retiring key and exactly the old overlap keys under other kids |
| `Rotation.StepKeepsInv` | crates/sts-cli/src/main.rs:1417-1451 | every step, failure and crash keeps each once-active key active or alone under its kid in the overlap file, as long as a PQC rotation locks while the key file holds the key it has read |
| `Rotation.OneRotationAtATime` | crates/sts-cli/src/main.rs:1720-1751 | at most one live rotation is past the lock, whatever was read before it |
| `Rotation.LockIsGivenBack` | crates/sts-cli/src/main.rs:1747-1751 | a lock file that is there belongs to a live rotation or to one that died, never to one that ended or failed |
| `Rotation.RsaRotates` | crates/sts-cli/src/main.rs:1427-1443 | from every state with a free lock, an undisturbed RSA rotation makes its fresh key active, leaves the old key and exactly the other ids of the old overlap in the overlap file, and frees the lock |
| `Rotation.FinishedHasRotated` | crates/sts-cli/src/main.rs:1427-1443 | in every run, a rotation that came to its end without failing has made the key that it generated active |
| `Rotation.NoKeyIsLost` | crates/sts-cli/src/main.rs:1417-1451 | over every run of concurrent rotations with crashes and fresh kids, PQC rotations included while the key file holds what they have read, a server restarted at any point, even one that reads the overlap file later than the key file, publishes every key that was ever active under a kid that finds that key |
| `Rotation.DisturbedPqcLosesTheActiveKey` | crates/sts-cli/src/main.rs:560-606 | from every such state, a PQC rotation that takes the lock when the key file holds another key than it has read, and goes on, loses that key |
| `Rotation.DisturbedPqcLosesAKey` | crates/sts-cli/src/main.rs:560-606 | and such a state is reached from every initial one: two PQC rotations read, one finishes, the other loses its key |
| `Restart.TokenOutlivesRotation` | crates/sts-cli/src/main.rs:1417-1451 | a token minted by a server started at any point of a run of rotations with crashes is reported active from `iat` to `exp` by a server restarted at any later point |
| `Revocations.RevocationState.Revoke` | crates/sts-http/src/lib.rs:232-243 | the list and the answer are those of `Enlist` |
| `Revocations.RevocationState.IsRevoked` | crates/sts-http/src/lib.rs:245-251 | purges what has expired and reports whether the token is listed |
| `Revocations.EnlistMeaning` | crates/sts-http/src/lib.rs:232-256 | success lists the token with its expiry, refusal means a list full of live entries; nothing live is lost, nothing else is added, the bound is kept |
| `ServerSafety.StepKeepsExchanges` | crates/sts-http/src/lib.rs:1434-1466 | every step keeps: issued tokens passed the gates, are minted at the reading under which all their credentials were accepted, and store attempts carry that credential and reading |
| `ServerSafety.StepKeepsRevocations` | crates/sts-http/src/lib.rs:1335-1355 | every step keeps: a successfully revoked token is listed or expired or unknown, lists hold true expiries and only revoked tokens, and stay bounded |
| `ServerSafety.TwiceRecordedIsExpired` | crates/sts-http/src/lib.rs:1439-1450 | two slots, of one exchange or of two, that both recorded one credential imply that the clock is past its expiry |
| `ServerSafety.RunKeeps` | crates/sts-http/src/lib.rs:1335-1466 | these invariants hold after every run, and of two tokens that share any credential the later is issued only after the earlier of its expiries has passed |
| `Runs.IssuedTokenIsSound` | crates/sts-http/src/lib.rs:1368-1571 | every token that any replica issues in any run is sound in the sense of `MintSound`, for the request it was issued on |
| `Runs.SharedCredentialHasExpired` | crates/sts-http/src/lib.rs:1439-1450 | in every run, of two tokens that share an actor's assertion, a client's assertion or a proof, the later is issued only after the earlier expiry of that credential |
| `Runs.OneProofOneTimelyToken` | crates/sts-http/src/lib.rs:1573-1608 | in every run, of two tokens issued on one DPoP proof the later is issued when the proof's `iat` is out of its window as the replica with the smaller leeway sees it |
| `Runs.OneAssertionOneOnlineCall` | crates/sts-http/src/lib.rs:1320-1345 | introspection and revocation serve only callers whose assertion was recorded, and one client assertion once until it expires |
| `Runs.OneLiveToken` | crates/sts-http/src/lib.rs:1434-1466 | in every concurrent run, tokens issued on one primary credential that introspection ever reports active are one token |
| `Runs.OneAssertionOneLiveToken` | crates/sts-http/src/lib.rs:1527-1547 | one assertion yields at most one token that is ever reported active, in whatever modes it is presented, if these are one mode or its subject is not both an actor and a client with an impersonation policy, although assertions are accepted for a leeway after expiry |
| `TwoTokens.NothingLiveSharedBothLive` | crates/sts-http/src/lib.rs:1434-1466 | any two exchanges that share no credential, or on disk only such as have expired by the second, can both yield a token reported active |
| `TwoTokens.AccompanyingAssertionTwoLiveTokens` | crates/sts-http/src/lib.rs:1444-1455 | whenever two requests bring one client assertion, the second in the leeway after it has expired, and share nothing else, some run on disk has both tokens reported active |
| `Roles.MoveParses` | crates/sts-http/src/lib.rs:1176-1199 | sending an actor's assertion as the client's moves exactly those two fields of the form that the server reads |
| `Roles.SwappedIsInOrder` | crates/sts-config/src/lib.rs:574-580 | where clients are the actors and use the same keys, every plain delegation in order is in order as an impersonation, if policy lets its actor impersonate |
| `Roles.TwoRolesTwoLiveTokens` | crates/sts-http/src/lib.rs:1493-1531 | whenever two requests present one assertion in the two roles, pass the gates and share no live credential, the subject has both roles and some run has both tokens reported active |
| `Roles.OneDelegationTwoLiveTokens` | crates/sts-http/src/lib.rs:1742-1758 | in such a service one plain delegation that passes the gates is enough for that, on either store |
| `Roles.EveryDualServiceHasTwo` | crates/sts-config/src/lib.rs:296-301 | every configuration with clients that are the actors and may impersonate has such a run for every plain delegation that passes its gates |
| `Example.OneAssertionTwoTokens` | crates/sts-http/src/lib.rs:1493-1531 | a concrete configuration, assertion and pair of requests with both tokens reported active |
| `Runs.CredentialsStayRecorded` | crates/sts-http/src/lib.rs:1439-1450 | every credential behind an issued token stays in the shared store until it expires, whatever else runs |
| `Runs.RevocationIsPermanent` | crates/sts-http/src/lib.rs:1335-1355 | after a 200, introspection at the process answers active only with a reading before the expiry and an answer at or after it; never when it reads as it answers |
| `Runs.IssuedTokenStaysRevoked` | crates/sts-http/src/lib.rs:1702-1736 | a token of the run, revoked after it was issued, is never again reported active by a one-reading introspection |
| `Slips.StaleReadingSlips` | crates/sts-http/src/lib.rs:1320-1333 | from every state with an active token, a run in which a slow introspection reports it active after a late revocation has returned 200 |
| `Slips.PurgedEntrySlips` | crates/sts-http/src/lib.rs:232-256 | from every state with an active token and another that outlives it, the first is revoked and listed, and an introspection that begins after the 200 reports it active once the expired entry has been purged |
| `Slips.EarlyRevocationIsLost` | crates/sts-http/src/lib.rs:1346-1354 | a token that becomes active only later is not listed by a 200 and is reported active then |
| `Slips.SlipsAreReachable` | crates/sts-http/src/lib.rs:1320-1355 | such states are reached from the initial one, for any two tokens of one process of which the second outlives the first |
| `Runs.IssuedTokenIsReported` | crates/sts-http/src/lib.rs:1677-1736 | in every run an issued token is reported active between `iat` and `exp` by every process that publishes its key, unless a revocation there succeeded |
| `Runs.ReportedIsOurs` | crates/sts-http/src/lib.rs:1708-1731 | whatever introspection reports active in a run is signed with a key that the process publishes, for one of its targets, within its time |
| `Runs.ForgedIsNeverActive` | crates/sts-http/src/lib.rs:1708-1712 | a token signed with no key that the process publishes is never answered active |
| `Runs.RevocationListsAreBounded` | crates/sts-http/src/lib.rs:232-243 | no revocation list exceeds `max_seen` in any run |
| `Cycles.CycleFinder.Visit` | scripts/check_architecture_boundaries.py:72-83 | terminates, restores the path, keeps every reported cycle a closed walk, and leaves the finished crates in topological order but for the edges that close a reported cycle |
| `Cycles.CycleFinder.RecordCycle` | scripts/check_architecture_boundaries.py:73-76 | appends the part of the path from the node's first occurrence, closed by the node |
| `Cycles.EveryWalkIsTouched` | scripts/check_architecture_boundaries.py:67-87 | once all crates are in such an order, each closed walk of the graph runs through the last edge of a reported cycle |
| `Cycles.FindCycles` | scripts/check_architecture_boundaries.py:67-87 | terminates on every closed finite graph, reports only closed walks, each closed walk of the graph runs through the last edge of a reported one, and nothing is reported exactly when the graph is acyclic |
| `BitLength.ModulusBitsExact` | crates/sts-jose/src/lib.rs:1025-1031 | for every octet string, 2^(bits-1) <= n < 2^bits, and 0 for zero |
| `BitLength.StrengthTest` | crates/sts-jose/src/lib.rs:1025-1031 | a minimum of t bits means n >= 2^(t-1), so 2048 bits means n >= 2^2047 |
| `BitLength.ZeroModulus` | crates/sts-cli/src/main.rs:1848-1864 | both computations single out exactly the zero modulus |
| `BitLength.CliAgreesExactlyWhen` | crates/sts-cli/src/main.rs:1848-1864 | the command line's result is the exact bit length iff the first octet is non-zero or a single zero octet precedes one with its top bit set |

## Left out

- Signature, hash, base64, ASN.1 and JWT library internals: taken as ideal functions. A token string decodes to at most
  one token; the revocation list is keyed by the string.
- A failure of the signer after recording (the internal server error): no token is issued, nothing else to state.
- Routing, response headers, metadata documents, metrics, OpenAPI, OIDC discovery and fetching of key sets.
- URL parsing and `canonical_htu`: a DPoP proof enters as its thumbprint, `jti` and numeric `iat`.
- Percent-decoding: a form enters as decoded pairs. Error message texts; only the OAuth error family is kept.
- `sts-config`: its guarantees are `Exchange.ValidConfig` (non-blank identities, ttl and `max_seen` at least one,
  non-negative leeway, a supported signing algorithm).
- i64 overflow outside the DPoP window: other time arithmetic is over unbounded integers. Length limits count
  characters instead of bytes; with non-ASCII input the limits of the source are reached earlier.
- Poisoned locks and I/O failures, beyond "the call reports an unavailable store and nothing is accepted" (`Stop`). A
  written expiry appears in its file in one step.
- ReplayProtocol.AtMostOneAccepted: the per-replica call counter is replaced by an arbitrary choice of when to sweep, and
  a sweep may reach expired files in any order and repeatedly, which allows more runs than the source has.
- ReplayBounds.StoresAreBounded: counting the directory is one atomic step; the directory starts empty.
- ReplayProtocol.ReplayHasAWinner: does not say that the winner's entry was still live, because it need not be: the
  in-memory store also turns away a key whose listed entry has expired.
- Refusals.RefusalIsExplained: does not say which of several failing gates the error names; that is the order of the gates in
  `Exchange.Prepare`.
- Rotation.NoKeyIsLost: a lock file left by a crash is removed by an operator only after its process has died.
- TwoTokens.AccompanyingAssertionTwoLiveTokens: on disk only; in memory it also takes a sweep between the two requests.
- Cycles.FindCycles: dependencies and roots are visited in any order instead of sorted order, and a cycle is reported as
  its list of nodes instead of the joined text.
- Form.BuildForm: the pushes run as one loop over the twelve parameters instead of a statement each. Reading the secret
  files and building the DPoP proof are not part of it.
- Dry runs, key inspection, rendering and redaction of the command line, file permissions, deployment files.
