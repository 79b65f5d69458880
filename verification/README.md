# Egress gateway: verified models

Dafny models of the egress gateway's certificate service, CA state, request guard and three smaller cores, with
proofs about every run, every input or every interleaving. `dafny verify dfyconfig.toml` checks the whole project
(Dafny 4.11).

## What is modelled

**The inspection certificate service** (`internal/inspection/sds.go`, `leaf.go`).
`SecretServer.dfy` holds the program's own state: a recency list of elements, a map from names to elements, counters
and a set of subscriptions, updated in place by methods that carry the program's loops. Each method is proved equal to
a function of `SecretProtocol.dfy` and `SecretCache.dfy`. `SecretStreams.dfy` then lets any number of streams, each
with a receiver and a sender, interleave at the points where they take the lock or use a channel, and records what each
client was told. The results are about all such runs:

- *Names held* (`SecretViews`): whatever fails, the names the server keeps for a healthy stream are the names its
  client holds.
- *Coherence* (`SecretCoherence`): while no issue fails, each of them is also cached, at the version held, although
  another stream's request may evict or renew it.
- *Coherence under failure* (`SecretFailure`): this second half is lost when an issue fails in mid-batch, because the
  evictions and renewals already done are told to nobody. `CoherenceLost` gives a run of four steps, for every CA that
  can issue. `CoherentIffHarmless` and `RunCoherentIff` say exactly when nothing is lost, in terms of the state before
  the request: `SecretForecast` foretells where a batch stops and what it spares from the CA's period, the cache and
  the outcome of key generation.
- *No silent loss* (`SecretStreams`), *accounting, batches and validity* (`SecretAccounts`, `SecretResults`), and
  *recency* of one request and of whole runs (`SecretRecency`, `SecretRuns`). A test of the program expects that no response lists a name as resource and as removed
  (`internal/inspection/sds_test.go:147-151`). This is false in general: `HalvesOverlap` gives the family of examples,
  `DisjointIff` the exact condition on the state before. It is met by every request for one name and by every request
  for names none of which is cached (`HalvesDisjoint`).

**The CA state** (`internal/inspection/ca.go`). `Files.dfy` is a directory of names, inodes and contents.
`Publication.dfy` runs any number of publishers without a lock; `AuthorityState.dfy` runs any number of calls of
`Open`, each interrupted, failed or killed at any system call; `AuthorityOpen.dfy` is one call as the program writes it, on
directories with any contents and with any of its system calls failing. One refusal is broader than its message: the
program answers any failure to look for the public file, but its absence, as a public file without private state
(`internal/inspection/ca.go:69-71`), so `LostStateRefusal` ties it to that failure.

**Names and targets** (`internal/request/guard.lua`, `canonicalName` in `leaf.go`). `Hostnames.dfy` compares the two
readings of a host name on every string. They differ outside ASCII, where the service lower-cases KELVIN SIGN to "k",
and on four all-digit labels that are no IPv4 address, such as `1.1.1.01`; in both cases the guard is the stricter.
`Guard.dfy` proves the canonical target a fixed point and follows requests through both passes and both hops, with an
arbitrary authorisation filter between the passes.

**Smaller cores.** `Telemetry.dfy` (the bounded walk along parent spans), `Compose.dfy` (Pod composition and the
unordered walk over trust mounts), `Envoy.dfy` and `EnvoyFrame.dfy` (the rewrite of an Envoy bootstrap).

The `…Rules` files, `SecretIdle.dfy` and `SecretCertificates.dfy` state what the operations do without the functions that
compute it: on subscriptions, certificates, headers, names, Pods and places in a tree.

Times are integers in nanoseconds; a certificate keeps whole seconds (RFC 5280 section 4.1.2.5). Strings are sequences
of Unicode scalar values with their UTF-8 length. What the program takes from outside is a parameter: the clock, the
outcome of key generation and signing per name, temporary file names, the authorisation filter, the order in which a
map or set is walked.

## Model

| member | source | states |
|---|---|---|
| SecretServer.NewSecretServer | internal/inspection/sds.go:54-59 | a server exists exactly for a present authority and a capacity between 1 and 128, and starts empty |
| SecretServer.SecretServer.Process | internal/inspection/sds.go:136-174 | the method on list, map and subscriptions yields exactly the state and status of the protocol function, and keeps the representation invariant on every path |
| SecretServer.SecretServer.UpdateLocked | internal/inspection/sds.go:182-248 | drop idle names, serve the batch, answer; on an issue failure the part already done stays and no response is made |
| SecretServer.SecretServer.ServeOne | internal/inspection/sds.go:204-240 | one requested name: refusal, hit, expiry, failed issue, or issue with eviction, as the batch function says |
| SecretServer.SecretServer.Insert | internal/inspection/sds.go:230-239 | a fresh element goes in front; a full list loses its last element, which leaves the resources and joins the removed names |
| SecretServer.SecretServer.Remove | internal/inspection/sds.go:250-255 | list and map lose exactly the entry of that name |
| SecretServer.SecretServer.DropIdle | internal/inspection/sds.go:183-194 | unsubscribed names leave the cache exactly when no subscription holds them |
| SecretServer.SecretServer.NotifyWatches | internal/inspection/sds.go:158-172 | every subscription gets its own part of the response, in whatever order the set is walked |
| SecretServer.SecretServer.Register | internal/inspection/sds.go:70-77 | a new empty subscription, or ResourceExhausted at twice the capacity |
| SecretServer.SecretServer.Unregister | internal/inspection/sds.go:78 | ending a stream takes its subscription away and leaves the cache alone |
| SecretServer.SecretWatch.Notify | internal/inspection/sds.go:159-171 | filter by interest, forget removed names, queue a nonempty event |
| SecretServer.SecretWatch.Enqueue | internal/inspection/sds.go:125-134 | silent events vanish, four fit, one more raises an error instead |
| SecretServer.SecretWatch.Fail | internal/inspection/sds.go:119-124 | only the first error is kept |
| SecretServer.SecretWatch.Subscribe | internal/inspection/sds.go:142-150 | unsubscribed names go before subscribed and initially held ones come |
| SecretServer.UnlinkIsWithout | internal/inspection/sds.go:250-255 | unlinking the element a map pointer leads to is removing that name from the list of entries |
| SecretServer.IndexedLookup | internal/inspection/sds.go:210-211 | the map finds exactly what a search of the list finds |
| SecretCache.ServeKeepsWellFormed | internal/inspection/sds.go:182-255 | after every batch, one stopped by an issue failure included: at most capacity entries, no duplicate names, every name issuable, each entry what issuing its name produced, versions distinct and at most the counter |
| SecretProtocol.ProcessSound | internal/inspection/sds.go:136-174 | the same invariant over any request and any outcome; counters never fall |
| SecretIdle.IdleDropped | internal/inspection/sds.go:183-194 | after any request that reaches the cache, an internal error included, a name it unsubscribes and does not ask for is out of the cache if no other subscription holds it |
| SecretIdle.UnsubscribeDrops | internal/inspection/sds.go:183-194 | a request that only unsubscribes drops exactly the unsubscribed names no other subscription holds, and keeps every other entry |
| SecretIdle.AbandonedGone | internal/inspection/sds.go:183-255 | on every run such a name stays out of the cache until a request asks for it again |
| SecretIdle.OverLimit | internal/inspection/sds.go:151-153 | past 128 names a request is refused and touches neither cache nor counters |
| SecretAccounts.BatchAccounted | internal/inspection/sds.go:195-240 | name by name through a whole batch: what is held, handed out and told removed |
| SecretAccounts.TwiceAnswered | internal/inspection/sds.go:230-239 | a name handed out is also told removed exactly when an earlier name of the batch had evicted it |
| SecretAccounts.BatchFronted | internal/inspection/sds.go:204-240 | of k valid names the last min(k, capacity) are handed out and lead the recency list, last first |
| SecretRecency.UnboundedByLastUse | internal/inspection/sds.go:213-238 | the unbounded order is the distinct names by last use |
| SecretForecast.BatchMoves | internal/inspection/sds.go:204-240 | finished or stopped, a batch moves the recency order as its valid names used in turn, up to the first that fails, which is dropped |
| SecretRecency.WithoutIsDrops | internal/inspection/sds.go:250-255 | removals move the recency order as drops |
| SecretResults.UpdateIsReplay | internal/inspection/sds.go:182-248 | answered or not, a request moves the recency order as its idle drops and then its batch do |
| SecretRuns.RunReplays | internal/inspection/sds.go:136-255 | every run, failures included, leaves the cache in the order that the uses and drops of its requests leave an empty one |
| SecretRuns.RunInclusion | internal/inspection/sds.go:204-255 | of two services that saw the same uses and drops the smaller cache holds a prefix of the larger |
| SecretRuns.RunMostRecent | internal/inspection/sds.go:213-238 | after a run without drops the cache is exactly the first `capacity` distinct names by last use |
| SecretForecast.StopsIff | internal/inspection/sds.go:204-222 | a batch stops if and only if some valid name has no entry in time or loses it to the names before it, and cannot be issued |
| SecretForecast.StopsAtFirst | internal/inspection/sds.go:219-222 | it has then served the names before the first such name, and stops there |
| SecretResults.ExactAccounting | internal/inspection/sds.go:182-248 | names afterwards = (kept + valid requested) - (removed - resources); every requested name is answered; nothing else is |
| SecretResults.HandedOutIff | internal/inspection/sds.go:213-245 | handed out are exactly the valid names asked for that are in the recency order at the end of the batch |
| SecretResults.RemovedIff | internal/inspection/sds.go:205-246 | told removed are exactly the invalid names asked for and the names the batch pushes out of the order at some point |
| SecretResults.BothHalves | internal/inspection/sds.go:230-246 | a name is in both halves if and only if it is valid, cached on entry, pushed out of the order before its turn and in the order at the end |
| SecretResults.DisjointIff | internal/inspection/sds_test.go:147-151 | the halves of a response are disjoint if and only if there is no such name among those asked for |
| SecretResults.HalvesOverlap | internal/inspection/sds_test.go:147-151 | a counterexample to unconditional disjointness, for every cache of one |
| SecretResults.AnswerSorted | internal/inspection/sds.go:241-246 | both halves of a response are in order without repetition, and its nonce is the next |
| Text.LessIff | internal/inspection/sds.go:204 | names are in order where the first ends, or has the smaller character, at the first difference |
| SecretResults.BatchExactness | internal/inspection/sds.go:195-246 | for a batch of valid names the response lists exactly the last min(k, capacity) in sorted order, and the cache begins with them reversed |
| SecretResults.ServedLeafValidity | internal/inspection/sds.go:210-238 | a certificate handed out, fresh or cached, is valid at that moment exactly when its CA has not expired and the clock is at most a minute behind the issue; it never outlives the CA |
| Leaf.LeafWindow | internal/inspection/leaf.go:42-63 | within the hour a leaf is valid exactly while its CA is, from a minute before its issue |
| SecretCertificates.IssueFailsIff | internal/inspection/leaf.go:43-53 | issuing fails exactly outside the CA's period, in its last minute, or without a key |
| SecretCertificates.IssuedLeaf | internal/inspection/leaf.go:54-72 | what is issued names the host, is signed by the CA, and is valid from a minute before for an hour or until the CA ends, in whole seconds |
| SecretCertificates.AnswerMade | internal/inspection/sds.go:210-239 | everything a request answers with was issued by it, with the key made for that name and ten minutes to live, or was cached before and is in time |
| SecretCertificates.CachedCertificates | internal/inspection/sds.go:219-238 | on every run each cached certificate was issued so by some request of it that asked for the name |
| SecretCertificates.SentCertificates | internal/inspection/sds.go:158-172 | on every run so was each certificate a client is sent |
| SecretStreams.NoSilentLoss | internal/inspection/sds.go:69-134 | on every run: at most 2*capacity subscriptions, at most 4 queued events, delivered plus queued are exactly the nonempty events of a healthy stream, nonces increase |
| SecretStreams.StepChannels | internal/inspection/sds.go:69-174 | every step of every stream keeps that |
| SecretStreams.FailureIsFinal | internal/inspection/sds.go:81-116 | a failed stream stays failed, a stopped one delivers nothing more, a record is never rewritten |
| StreamRules.OpenIff | internal/inspection/sds.go:70-77 | a stream opens exactly when it is new and fewer than twice the capacity are open, with an empty subscription |
| StreamRules.ReceiveRefuses | internal/inspection/sds.go:83-95 | a broken stream, a rejection, a foreign type and more than 128 names each stop the receiver with their status and change nothing else; a stopped receiver takes nothing |
| StreamRules.ReceiveHandles | internal/inspection/sds.go:96-99 | any other request is the server's, and its error stops the receiver |
| StreamRules.StoppedForGood | internal/inspection/sds.go:81-100 | on every run a stopped receiver handles nothing more |
| StreamRules.SenderSteps | internal/inspection/sds.go:102-116 | the sender hands over events in order and ends at a refusal, an error or the end of the call, and then only takes its subscription away |
| StreamRules.NotifyRule | internal/inspection/sds.go:125-134 | a subscription forgets removed names and queues what concerns it behind at most three events, or gets an error |
| SecretViews.NamesHeld | internal/inspection/sds.go:69-174 | over every run, issue failures included, for every healthy stream: the server's names are the names its client holds after all events sent and its own unsubscribes |
| SecretViews.StepHeld | internal/inspection/sds.go:69-174 | every step keeps that |
| SecretCoherence.CrossStreamCoherence | internal/inspection/sds.go:136-174 | over every run without issue failure each of those names is also cached, at the version held |
| SecretCoherence.InternalIff | internal/inspection/sds.go:151-157 | a request ends in an internal error if and only if it is within the name limit and some name of its batch must be issued and cannot be |
| SecretCoherence.HeldWithinCapacity | internal/inspection/sds.go:136-174 | on those runs a healthy stream never holds more names than the capacity |
| SecretFailure.IssueFailureBreaksCoherence | internal/inspection/sds.go:219-222 | in every coherent state with a full cache of one, a first issue that succeeds and a second that fails leave a healthy stream naming a certificate the cache has lost |
| SecretFailure.CoherenceLost | internal/inspection/sds.go:154-157 | such a state is reached: a run of four steps after which coherence is gone |
| SecretForecast.StoppedEntry | internal/inspection/sds.go:204-240 | a stopped batch leaves an entry as it was exactly when the name stays in the order up to the first failure and, if asked for there, is in time |
| SecretFailure.CoherentIffHarmless | internal/inspection/sds.go:136-174 | coherence survives any request if and only if no issue fails or every name another healthy stream holds is spared in that sense |
| SecretFailure.RunCoherentIff | internal/inspection/sds.go:69-174 | a run is coherent at every point if and only if each of its requests is harmless in that sense |
| Publication.StepKeepsOwn | internal/inspection/ca.go:216-244 | one system call of a publisher keeps its own state consistent, the file complete and an existing file as it is |
| Publication.StepKeepsOther | internal/inspection/ca.go:216-244 | and disturbs no other publisher |
| Publication.FirstWriterWins | internal/inspection/ca.go:123-138 | for any publishers, interleaving and kills: at most one link takes effect, the file is there exactly then, complete and the winner's |
| Publication.SuccessIffWinner | internal/inspection/ca.go:123-138 | a finished publisher succeeded if and only if its certificate is the winner's |
| Publication.PublishedForGood | internal/inspection/ca.go:123-138 | once published, the file keeps inode and content for ever |
| Publication.NoLeftovers | internal/inspection/ca.go:216-244 | if no publisher dies, every new temporary file is that of a publisher still running |
| AuthorityState.RunSound | internal/inspection/ca.go:43-138 | the invariant of lock, directories and live calls, on every run of calls, kills, failing system calls and failing removals from empty directories |
| AuthorityState.Agreement | internal/inspection/ca.go:43-138 | all successful calls return one certificate, that of the committed state; the public file, whenever present, is that certificate |
| AuthorityState.NeverOverwritten | internal/inspection/ca.go:91-137 | neither state file nor public certificate changes once it exists |
| AuthorityState.RefusalsUnreachable | internal/inspection/ca.go:68-114 | the refusals for foreign, invalid and mismatched state are out of reach of every run; if no system call fails, so is the one for lost state, and a call fails only for the lock or the certificate's period |
| AuthorityState.LostStateRefusal | internal/inspection/ca.go:69-71 | on every run a call ends in the refusal for a lost private state if and only if its own search for the public file failed other than by absence |
| AuthorityState.FailureCause | internal/inspection/ca.go:62-119 | why a call fails, event by event: a step gives only a held lock or the period, a failing system call the answer of the place it fails at |
| AuthorityState.ListingRefuses | internal/inspection/ca.go:72-82 | whatever the private directory holds, a call refuses it as foreign exactly for an entry that is neither the lock nor a regular temporary file |
| AuthorityState.LoadingSteps | internal/inspection/ca.go:62-114 | the steps up to the material, whatever the directories hold: taking the lock, reading the state, refusing or accepting it, looking for the public file |
| AuthorityState.FailingSteps | internal/inspection/ca.go:53-119 | what a failing system call and a failing removal make of a call at each place |
| AuthorityState.LockFreed | internal/inspection/ca.go:34 | closing an authority or killing its process frees the lock and changes nothing else |
| AuthorityState.NoLeftovers | internal/inspection/ca.go:216-244 | on every run without kills and failing removals, a call that has opened or failed has left no temporary file |
| AuthorityState.Generated | internal/inspection/ca.go:140-158 | a first call makes a genuine CA for its own key, valid from a minute before the call for ten years, in whole seconds |
| AuthorityState.Recoverability | internal/inspection/ca.go:65-120 | from every state kills and failures leave with the lock free, the next undisturbed call succeeds if and only if nothing is committed or the committed certificate is in force |
| AuthorityState.SoloOpens | internal/inspection/ca.go:65-120 | a call left alone ends opened, from any point it had reached |
| AuthorityState.ExpiredRefused | internal/inspection/ca.go:106-108 | outside its period the certificate is refused and both directories stay as they were |
| AuthorityState.FreeExists | internal/inspection/ca.go:217 | a temporary name not in use can always be drawn |
| AuthorityOpen.Volume.WriteAtomic | internal/inspection/ca.go:212-244 | whichever system calls fail: the outcome, what is bound to the target, and whether a temporary name stays behind |
| AuthorityOpen.PublishCertificate | internal/inspection/ca.go:123-138 | success and mismatch each exactly when, failing calls included; an existing file is never replaced and one that appears is the certificate |
| AuthorityOpen.Store.LoadState | internal/inspection/ca.go:65-100 | the state read, the state generated or the refusal, for every content and every failing call; foreign is any entry but the lock and regular temporary files; what is committed is complete |
| AuthorityOpen.Store.Open | internal/inspection/ca.go:43-121 | on directories with any contents and any failing calls: exactly when it succeeds, the exact cause of each of the seven refusals, and that nothing committed changes |
| Hostnames.HostnameAgreesWithCanonicalName | internal/request/guard.lua:5-15 | for every string the guard accepts it exactly when the service does, it is ASCII and not four all-digit labels; the canonical names are equal |
| Hostnames.ChecksAgree | internal/inspection/leaf.go:27-36 | the checks on runs and patterns and the checks on split labels accept the same lower-case names |
| Hostnames.QuadIsNumeric | internal/request/guard.lua:9 | the digit pattern matches exactly the names of four all-digit labels |
| Hostnames.RunsAreLabels | internal/request/guard.lua:10-12 | the runs the guard walks are the nonempty labels the service splits |
| Hostnames.KelvinSign | internal/inspection/leaf.go:23 | outside ASCII the two differ |
| Hostnames.LeadingZero | internal/request/guard.lua:9 | and on four all-digit labels that are no address |
| NameRules.CanonicalIff | internal/inspection/leaf.go:19-38 | a name is accepted exactly if, lowered, it is labels of letters, digits and inner hyphens of 1 to 63 characters joined by dots, within 253 bytes, and no IPv4 address |
| NameRules.AddressIff | internal/inspection/leaf.go:24 | an address literal is exactly four numbers up to 255 in decimal joined by dots |
| NameRules.Refused | internal/inspection/leaf.go:24-34 | 127.0.0.1 and a_b are refused |
| Guard.PrintParse | internal/request/guard.lua:24-29 | reading back a printed port gives the port |
| Guard.TargetFixed | internal/request/guard.lua:17-30 | a canonical target reads back as itself under any scheme; its port is canonical decimal in 1..65535 and its name canonical |
| Guard.Handle.OnRequest | internal/request/guard.lua:32-75 | one run of the filter on headers, metadata and response, as the pass function says |
| GuardRules.TargetIff | internal/request/guard.lua:17-30 | an authority names its host with its port, in 1..65535 and canonical decimal, or with 443 for https and 80 otherwise |
| GuardRules.FirstPass | internal/request/guard.lua:42-66 | which request is refused with 415, 403 and 400, and which is admitted, each exactly, on site, connection and headers |
| GuardRules.FirstPassShows | internal/request/guard.lua:67-74 | an admitted request carries its canonical target, scheme and forwarded scheme, all other headers as they were, and the target is recorded |
| GuardRules.SecondPass | internal/request/guard.lua:36-41 | the second pass refuses exactly a changed authority, scheme or path, and otherwise changes nothing |
| GuardRules.ForwardedExactly | internal/request/guard.lua:32-75 | a whole chain forwards exactly a readable, secured, identified and well addressed request that authorisation allows with its target as shown |
| Guard.ForwardedTarget | internal/request/guard.lua:35-74 | what leaves carries exactly the authorised canonical target; at an HTTPS workload its host is what the certificate service makes of the SNI |
| Guard.HopsAuthoriseSameTarget | internal/request/guard.lua:67-74 | the egress chain authorises the very target the workload chain forwarded |
| Telemetry.Descends | test/telemetry/collector.go:65-83 | true if and only if some number of first-parent steps reaches a span whose parent is the ancestor |
| Telemetry.ShortestFits | test/telemetry/collector.go:66 | len(spans)+1 rounds are enough, cycles included |
| Telemetry.Pigeonhole | test/telemetry/collector.go:66 | more visits than spans repeat a span |
| Telemetry.AncestryIff | test/telemetry/collector.go:64-83 | the walk decides transitive ancestry for every child and ancestor if and only if from a child of each recorded span it reaches that span's own parent |
| Telemetry.SharedIdMissesAncestor | test/telemetry/collector.go:72-77 | with a shared identifier it can miss an ancestor |
| Compose.ProtectBusiness | enrollment/compose.go:153-214 | accepts exactly the Pods that touch nothing of the Gateway's |
| Compose.MountTrust | enrollment/compose.go:123-138 | whatever order the map yields, all selected containers are mountable or the loop fails; then the first container of each name has one mount more |
| Compose.OrderIndependent | enrollment/compose.go:123-138 | every order of the names gives the same answer and the same containers |
| Compose.ComposePod | enrollment/compose.go:45-141 | the loops compute the composition, all or nothing |
| Compose.CompositionConservative | enrollment/compose.go:79-141 | business containers keep contents and order but for one bundle mount on the first container of each selected name; managed init containers come first; no reserved volume is mounted but that bundle file; proxy variables are distinct |
| Compose.MetadataKept | enrollment/compose.go:63-77 | labels, security and every business annotation survive; every other annotation is one of the Gateway's |
| ComposeRules.ManagedPlaced | enrollment/compose.go:79-141 | at a workload every managed container comes first, in order; at an egress they do but for the trust containers, and the proxy is the main container; images, pull policy, trust path, environment, policy and origin trust of each, and the volumes, exactly |
| ComposeRules.FixedIdentity | enrollment/compose.go:216-229 | the fifteen fixed variables of the proxy and their values |
| ComposeRules.AllowedIff | enrollment/compose.go:153-215 | a business Pod is accepted exactly if it has no key, volume, token, identity, container, mount or device of the Gateway's |
| ComposeRules.ComposedIff | enrollment/compose.go:47-138 | composition succeeds exactly for such a Pod with complete options, variables that fit, and trust mounts that can be made |
| ComposeRules.PathIff | enrollment/compose.go:152 | a clean path is one or more proper names, each after a slash |
| ComposeRules.AnnotationsExactly | enrollment/compose.go:68-77 | the annotations afterwards, for each role |
| Compose.ExtendDistinct | enrollment/compose.go:98-109 | accepted extra variables are appended as given and all names stay distinct |
| Compose.BaseEnvDistinct | enrollment/compose.go:216-229 | the fixed variables have distinct names |
| Envoy.PrepareEnvoy | internal/daemon/envoy.go:34-105 | the nested loops compute the rewrite by places, and the flag says whether any listener has an ext_authz filter |
| Envoy.RewriteHttpFilters | internal/daemon/envoy.go:62-79 | the innermost loop rewrites each filter on its own and finds the shared authorisation filter exactly when there is one |
| EnvoyFrame.PrepareIdempotent | internal/daemon/envoy.go:37-105 | preparing a prepared bootstrap succeeds and changes nothing |
| EnvoyFrame.PrepareSucceeds | internal/daemon/envoy.go:34-83 | success if and only if static, an object and, with the policy extension, some ext_authz filter exists and each has an object configuration |
| EnvoyFrame.PreparedFilters | internal/daemon/envoy.go:64-78 | with the policy extension some ext_authz filter exists and every one fails closed on the complete body; every guard filter runs the given configuration |
| EnvoyFrame.PreparedSockets | internal/daemon/envoy.go:42-102 | administration ends on its private socket, and each named cluster is static with its private socket as the only endpoint |
| EnvoyFrame.PrepareFrame | internal/daemon/envoy.go:37-102 | every place of the tree apart from the written ones holds what it held, or still does not exist |
| EnvoyRules.FiltersIff | internal/daemon/envoy.go:47-63 | the filters looked at are, by place, the HTTP filters of the connection managers of all listeners |
| EnvoyRules.PrepareIff | internal/daemon/envoy.go:31-83 | success exactly for an object without dynamic resources whose authorisation filters, if policy is shared, exist and have object configurations |
| EnvoyRules.PreparedFiltersAt | internal/daemon/envoy.go:64-78 | in the result, by place, every authorisation filter decides closed on the complete body and every guard filter has the configured source |
| EnvoyRules.PreparedAuthorises | internal/daemon/envoy.go:81-83 | with shared policy the result has an authorisation filter |
| EnvoyRules.PreparedSocketsAt | internal/daemon/envoy.go:37-108 | the sockets of administration and the two clusters, in full |

## Left out

- Cryptography and encodings: keys, signatures, PEM, protobuf and JSON text; certificates are values with a name, a period and the identity of their keys, and key generation may fail.
- The merging of trust bundles, which rests on the recovery behaviour of the PEM decoder.
- Directory permissions, symlinks and clean paths, and the mode and size limits on reading the state file.
- gRPC transport, message size limits, sockets, and goroutine scheduling below one use of the lock or of a channel; receiving from the transport is a step with an arbitrary outcome.
- The mutex itself: each method of the server runs alone.
- The unexported `update` entry point of the server, which only its tests call.
- Wrap-around of the version and nonce counters at 2^64, and the monotonic part of Go's clock readings.
- Power loss: calls are killed and system calls fail, but what was written stays written. The content of a file appears as one write, partial until then.
- AuthorityState.Generate: ten calendar years are a length of 3650 to 3653 days that chance supplies.
- AuthorityOpen.Store.Open: one temporary name serves both directories, drawn in advance and not in use, where the program retries on a name in use.
- AuthorityState.Check: a certificate that is no CA, out of its period, not self-signed or of an unsupported key type gets one reason, where the program has three messages.
- The list of `container/list` is a sequence of element references; its internal pointers are not modelled.
- SecretServer.Element: the value of an element never changes, so it is a constant of the object.
- Leaf.CanonicalName: of the address literals only dotted quads are read, because every IPv6 form holds a colon, which no label may hold; Unicode lower-casing is exact where its result is ASCII.
- Guard: header values are single strings, Lua numbers are exact integers, and the texts of refusals are dropped. Decoding of repeated headers by the proxy is not part of this model.
- Compose: a Pod is a value, so the deep copy is the identity; fields that composition never reads or writes are one opaque component. A managed `base-trust` container with fewer than two command words, on which the program would panic, is kept as it is; the embedded specification has none. Network expansion (`networking.ExpandPod`, `networking.ExpandPolicy`) follows composition and is not part of this model.
- Envoy: the JSON tree is a value, rewritten by rebuilding it, where the program assigns into shared maps; a decoded tree shares nothing, so the result is the same, but aliasing is not expressed. YAML decoding, encoding and the file written are left out.
- Reading exported spans, daemon supervision, configuration and tracing: straight-line code over libraries, which would add easy members only.
