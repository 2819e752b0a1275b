# Proofs for the lemonade-nexus core

A Dafny model of the parts of lemonade-nexus that carry its hardest promises, and proofs of
those promises. `dafny verify dfyconfig.toml` checks all of it.

## What is modelled

**The threshold storage key** (`Scalars`, `Polynomials`, `Interpolation`, `HolderPlan`,
`StorageKeys`, `Enrollment`, `Unlock`). A key is shared among holders by a polynomial; a plan
publishes the commitment of every share. Scalars are integers modulo an arbitrary prime above
65535 and a point is its discrete logarithm. The chain runs from "a polynomial has no more
roots than its degree" over Lagrange interpolation in the exponent to what a user sees: plan
validation is exact although it interpolates from the first t holders only, enrollment is
sound and complete, a point encapsulated under one plan is recovered under any later one, and
fewer than t holders fit every key.

**The userspace netstack** (`Fragmentation`, `ConnectionPump`, `StackLifecycle`). IPv4
fragmentation as sections 2.3 and 3.2 of RFC 791 have it, two-way byte bridging with
half-close, and who owns which socket. The socket library, the bridge and the network are an
arbitrary environment: a script of answers, or sets of handles that accepted. Theorems
quantify over every script.

**The attestation stream** (`AttestdFraming`, `ResponseAssembler`, `AttestdStream`). The
emitter, the bounded reader and the reassembly state machine between them. JSON, hexadecimal
text, SHA-256 and the evidence encoding are function values; the round trip assumes only that
the two JSON objects of a bundle, hexadecimal text and evidence decode to what was encoded.

**Concurrent request tracking, response pipes and relay records** (`MeshPortProxies`,
`ProxyPipe`, `RelayRecords`). Each critical section is one step; theorems hold for every
interleaving of steps of any number of threads.

**Peer route admission** (`Cidrs`, `CidrText`, `PeerRoutes`). Prefixes as 32-bit words, the
texts they come from, the symmetric collision rule, and the text that is installed.

**Schedulers** (`PairSlots`, `HolePuncher`, `PeerLiveness`, `ConnectionPool`). Pair slots and
probe passes, liveness with hysteresis, and the pool with least-recently-used eviction.

An object that the source updates in place is a class whose methods are proved to move its
`View` along a step function; the theorems are about those functions and about runs of steps.

## Where a promise needs a condition

- `Unlock`: the partial of a holder whose share is zero is the identity, which the requester
  rejects; `HonestPartialVerifies` states the exact condition, `ZeroShareExists` a plan with
  such a share.
- `RelayRecords`: by the comment at line 162 of `BoringtunMesh.hpp` a peer with a relay path
  keeps it over a sync, and by the one at line 110 of `BoringtunMesh.cpp` a record is the
  endpoint last written. A sync that took its snapshot before the path was set gives the
  dataplane the listed endpoint after all, and no later sync repairs it: `SyncUndoesRelay`.
  `RecordIsGivenExactly` states exactly when a relayed peer's record is what the dataplane was
  last given, `QuietPathIsKept` under what circumstances it stays so. A sync that lists the
  peer with no endpoint gives nothing: an empty text leaves the endpoint the dataplane has
  (lines 350 to 373 of `UserspaceDataplane.cpp`), although the sync records it. That the
  record of a relayed peer is its relay's local endpoint holds in every run
  (`RunIsRecorded`).
- `RelayRecords`: by the comment at line 513 of `BoringtunMesh.cpp` a newer endpoint record
  wins a merge; the code is followed here. `UpdateLastsExactly` states exactly when it does, for
  every merge after the update, wanted or not and with other merges in between;
  `StaleRecordReturns` and `ListedRecordIsForgotten` are runs in which it does not.
- `HolePuncher`: by line 146 of `HolePunch.hpp` every peer being probed gets the burst that
  was asked for. A relayed peer with a new target waits for its slot instead
  (`NewTargetMissesBurst`); `BurstIsProbedExactly` is the exact condition.
- `PeerRoutes`: what follows the digits of a prefix length is ignored when a subnet is
  checked, and the text is installed as it was given. `InstalledIffNothingFollows` states
  exactly when the installed routes are the granted ones, `MoreThanGranted` an input on which
  they are not.
- `ConnectionPool`: setups in flight can exceed their bound when an established entry is
  marked as connecting; `ConnectingKeepsBound` is the exact condition.

## Model

| member | source | states |
|---|---|---|
| `ThresholdParams.ThresholdFor` | crates/storage-threshold/src/params.rs:24-30 | the threshold is the least number that is at least 65% of the holders, a strict majority, and exists exactly for 1 to 50 holders |
| `ThresholdParams.ThresholdIn` | crates/storage-threshold/src/params.rs:48-54 | succeeds exactly between the minimum and 50 holders, with that threshold, and fails with HolderCount |
| `ThresholdParams.PlanThreshold` | crates/storage-threshold/src/params.rs:37-39 | a plan threshold is at least 2 and at most the holder count |
| `ThresholdParams.CreationThreshold` | crates/storage-threshold/src/params.rs:44-46 | a first key uses the plan threshold of its size, which is at least 4 |
| `ThresholdParams.PlanThresholds` | crates/storage-threshold/src/params.rs:57-59 | the thresholds of permitted plans are exactly 2 to 33, with none skipped |
| `Polynomials.RootsForceZero` | crates/storage-threshold/src/plan.rs:111-116 | a polynomial with no more coefficients than distinct roots is zero; the fact behind checking a plan from its first t holders |
| `Polynomials.AgreementIsIdentity` | crates/storage-threshold/src/plan.rs:111-128 | polynomials with n coefficients that agree at n distinct nodes are the same |
| `Interpolation.InterpolationIsExact` | crates/storage-threshold/src/plan.rs:148-174 | the Lagrange sum over distinct nodes, as many as coefficients or more, is the value of the polynomial anywhere |
| `Interpolation.InterpolantExists` | crates/storage-threshold/src/plan.rs:148-174 | some polynomial with one coefficient per node passes through any values at distinct nodes |
| `HolderPlan.Interpolate` | crates/storage-threshold/src/plan.rs:153-174 | the sum of Lagrange-weighted points is the interpolated point, for every set of points; holder zero, as node or target, is an error |
| `HolderPlan.InterpolatedIsExact` | crates/storage-threshold/src/plan.rs:148-174 | points on a polynomial with no more coefficients than points interpolate, in the exponent, to its value at every target |
| `HolderPlan.HolderOf` | crates/storage-threshold/src/plan.rs:182-189 | the 16-bit number in the first two bytes of an identifier, when the others are zero: exists exactly for a non-zero identifier below 65536, and is then that identifier |
| `HolderPlan.PlanOf` | crates/storage-threshold/src/plan.rs:39-53 | a package is a plan exactly with 3 to 50 holders and 16-bit identifiers; the plan holds the same commitments and key; the errors tell a bad count from a bad identifier |
| `HolderPlan.FromPackage` | crates/storage-threshold/src/plan.rs:39-53 | the loop over the package builds that plan |
| `HolderPlan.MatchesBaseIffConsistent` | crates/storage-threshold/src/plan.rs:117-128 | comparing the key and the other commitments with the first t holders decides whether one polynomial carries them all |
| `HolderPlan.Validate` | crates/storage-threshold/src/plan.rs:117-128 | succeeds if and only if one polynomial of degree at most t-1 passes through every commitment and has the storage key as constant term; fails with Crypto |
| `HolderPlan.PlanPolynomialIsUnique` | crates/storage-threshold/src/plan.rs:111-128 | that polynomial is unique |
| `HolderPlan.InterpolateShare` | crates/storage-threshold/src/plan.rs:132-137 | exactly for a non-zero holder outside the plan, the commitment of its point on every polynomial that carries the plan |
| `StorageKeys.FromKeyPackage` | crates/storage-threshold/src/keys.rs:63-75 | accepts exactly 16-bit identifiers with a plan threshold whose commitment is that of the secret; the error names the first of these that fails |
| `StorageKeys.SecretIsOnPolynomial` | crates/storage-threshold/src/keys.rs:118-126 | the secret of a share that is in a consistent plan is its point on the polynomial |
| `StorageKeys.FinishOutcome` | crates/storage-threshold/src/keys.rs:465-482 | what passes is a valid share that is in a consistent plan, with the storage key of the plan it replaces |
| `StorageKeys.Finish` | crates/storage-threshold/src/keys.rs:465-482 | the checks on the output of key generation and refresh, with the error of the first that fails |
| `StorageKeys.ParseMessages` | crates/storage-threshold/src/keys.rs:484-497 | succeeds exactly when no sender is zero and every message decodes, keeps them in order, and otherwise gives the error of the first that is not accepted |
| `StorageKeys.FirstBadDecides` | crates/storage-threshold/src/keys.rs:484-497 | the first message with a wrong length, undecodable bytes or a zero sender decides the error |
| `StorageKeys.RefreshPart1` | crates/storage-threshold/src/keys.rs:239-253 | starts exactly when the new holder count keeps the threshold; the errors tell a changed threshold from a bad count |
| `StorageKeys.PrepareRefresh` | crates/storage-threshold/src/keys.rs:291-346 | up to the library, passes exactly under the guards, with the old commitment of every holder and every enrolled participant as what the library is handed; otherwise the error of the first failing check |
| `StorageKeys.OldCommitmentsAreOnPlan` | crates/storage-threshold/src/keys.rs:322-337 | on a consistent plan each of these is the point of its polynomial, interpolated ones included |
| `StorageKeys.RefreshPart3` | crates/storage-threshold/src/keys.rs:284-357 | accepts exactly when every guard holds and the library output passes, whatever the library returned; otherwise the error of the first failing check |
| `StorageKeys.RefreshKeepsKey` | crates/storage-threshold/src/keys.rs:276-283 | an accepted refresh keeps the storage key and the threshold and leaves every commitment on one polynomial |
| `StorageKeys.HonestOutputPasses` | crates/storage-threshold/src/keys.rs:465-482 | adding a polynomial with constant term zero to every share passes the final checks, for every holder set that keeps the threshold |
| `StorageKeys.HonestRefreshIsPrepared` | crates/storage-threshold/src/keys.rs:284-346 | an honest refresh starts and passes every guard before the library runs |
| `StorageKeys.HonestRefreshIsAccepted` | crates/storage-threshold/src/keys.rs:276-357 | the whole of an honest refresh is accepted, for each participant: with polynomials of t coefficients and constant term zero and at least t old holders among them, every guard passes and so does the output that adds all polynomials to every share |
| `StorageKeys.OtherDegreeIsRefused` | crates/storage-threshold/src/keys.rs:299-306 | a package of a polynomial with more, or fewer, than t coefficients is refused with Crypto |
| `StorageKeys.AcceptedRefreshMeans` | crates/storage-threshold/src/keys.rs:276-357 | an accepted refresh was of this holder's own share, which lay on the old polynomial, with packages of exactly the threshold's size and at least a threshold of old holders; the new plan has as many holders as took part |
| `StorageKeys.RefusalsAreNamed` | crates/storage-threshold/src/keys.rs:291-345 | which error each guard gives, in order |
| `Enrollment.RepairPart1` | crates/storage-threshold/src/keys.rs:364-411 | exactly under its guards, one delta per helper keyed by recipient; the error names the guard that failed |
| `Enrollment.HelperGuardsExactly` | crates/storage-threshold/src/keys.rs:364-390 | step 1 passes exactly for a current share of the plan, at least t distinct helpers of the plan with this one among them, and a non-zero new holder outside it |
| `Enrollment.ParseScalars` | crates/storage-threshold/src/keys.rs:511-524 | every message a canonical scalar, in order, or the error of the first that is not |
| `Enrollment.FirstBadScalar` | crates/storage-threshold/src/keys.rs:511-524 | the first message that is not a scalar decides the error |
| `Enrollment.RepairPart2` | crates/storage-threshold/src/keys.rs:416-423 | the sum of the deltas, exactly for at least t parsable ones |
| `Enrollment.RepairPart3` | crates/storage-threshold/src/keys.rs:431-460 | past its guards, accepts arbitrary sigmas if and only if they sum to the new holder's point on the plan's polynomial, and returns that share; what it accepts is exactly what the runs below call accepted, so nothing on an inconsistent plan; the error is that of the first failing check |
| `Enrollment.ExchangeSums` | crates/storage-threshold/src/keys.rs:413-423 | summing deltas by recipient and by sender gives the same total |
| `Enrollment.SigmaIsColumnSum` | crates/storage-threshold/src/keys.rs:416-423 | the sigma of a helper in the honest run is the sum of what it received |
| `Enrollment.HonestHelpersPass` | crates/storage-threshold/src/keys.rs:359-423 | every honest helper passes the guards of step 1 with its point as share, and receives enough deltas for step 2 |
| `Enrollment.HonestEnrollmentSucceeds` | crates/storage-threshold/src/keys.rs:359-460 | for any helper set of at least t holders whose deltas sum to their weighted shares, and any new holder outside the plan, step 3 accepts the messages of step 2 and returns the new holder's point |
| `Enrollment.EnrolledIsOnPlan` | crates/storage-threshold/src/keys.rs:425-460 | an accepted share is the plan's point at its identifier, rebuilt by at least t holders of the plan, and what the next refresh takes as its old commitment |
| `Enrollment.RunStaysSane` | crates/storage-threshold/src/keys.rs:1-22 | over every finite run of accepted refreshes and enrollments the key and threshold never change and every plan and enrolled share stays on one polynomial of degree below t |
| `Unlock.Encapsulate` | crates/storage-threshold/src/wrap.rs:19-31 | exactly for a decodable key, r times the generator and r times the key, both of which decode again |
| `Unlock.CreatePartial` | crates/storage-threshold/src/unlock.rs:74-107 | a partial exactly for the current share of the plan (its key, threshold and commitment) and a decodable base, whose point is the base times the secret; the two errors are told apart |
| `Unlock.VerifyPartial` | crates/storage-threshold/src/unlock.rs:113-139 | with a sound proof verifier, an accepted partial is the base times the holder's secret, and is not the identity; Proof and InvalidArgument are told apart |
| `Unlock.PartialsInterpolate` | crates/storage-threshold/src/unlock.rs:141-168 | such points of any t or more holders of a consistent plan interpolate to the base scalar times the storage key |
| `Unlock.CombinePartials` | crates/storage-threshold/src/unlock.rs:147-168 | succeeds exactly when enough partials were given and all verify; on a consistent plan the result is the same shared point whichever holders answered |
| `Unlock.FewerFitEveryKey` | crates/storage-threshold/src/lib.rs:3-9 | any shares of fewer than t holders and any key lie on one polynomial of t coefficients |
| `Unlock.OneForEachKey` | crates/storage-threshold/src/lib.rs:3-9 | for t-1 holders it is exactly one polynomial for each key |
| `Unlock.FewerFitEveryPoint` | crates/storage-threshold/src/lib.rs:3-9 | for fewer than t holders of a plan and any point whatever, a consistent plan with the same holders and threshold gives these holders the same shares and has that point as what t partials combine to |
| `Unlock.HonestPartialVerifies` | crates/storage-threshold/src/unlock.rs:68-139 | the partial of an honest holder verifies if and only if its share is not zero |
| `Unlock.PartialIsBound` | crates/storage-threshold/src/unlock.rs:48-139 | an honest partial verifies if and only if it is for the very network, epoch, plan digest and nonce, base, holder and storage key it was made for, under a plan in which that share is still the holder's and not zero |
| `Unlock.ZeroShareExists` | crates/storage-threshold/src/unlock.rs:68-139 | a consistent plan one of whose shares is zero |
| `Unlock.UnlockAfterRun` | crates/storage-threshold/src/unlock.rs:141-168 | a point encapsulated under the first plan of any run of refreshes and enrollments is what any t accepted partials of the last plan combine to |
| `Fragmentation.UdpRoundTrip` | crates/virtual-netstack/src/stack.rs:389-397 | ports, checksum and payload of an emitted datagram read back, and the length field is the number of its bytes |
| `Fragmentation.MaxChunk` | crates/virtual-netstack/src/stack.rs:401-402 | for every MTU from 68 the greatest multiple of eight that fits behind the header, which is positive |
| `Fragmentation.UdpSender.Send` | crates/virtual-netstack/src/stack.rs:381-425 | emits the fragments of an accepted datagram with a given checksum under the next identifier; one above 65507 bytes is dropped and uses none |
| `Fragmentation.UdpSender.EmitFragments` | crates/virtual-netstack/src/stack.rs:403-424 | the loop appends exactly the fragments of the datagram |
| `Fragmentation.FragmentsAreSlices` | crates/virtual-netstack/src/stack.rs:404-424 | each fragment carries the bytes at its offset and marks whether more follow |
| `Fragmentation.FragmentsTile` | crates/virtual-netstack/src/stack.rs:403-424 | the payloads concatenate to the datagram |
| `Fragmentation.FragmentsAreWellFormed` | crates/virtual-netstack/src/stack.rs:381-425 | for every MTU from 68 and every accepted datagram the fragments fit the MTU, start where the previous ends, carry multiples of eight except the last, and only the last clears more-frags |
| `Fragmentation.ReassemblesTo` | crates/virtual-netstack/src/stack.rs:375-425 | the fragments of a datagram in any order, repeated and mixed with those of others between the same addresses under another identifier, or between others, reassemble to exactly it |
| `Fragmentation.PartReassemblesTo` | crates/virtual-netstack/src/stack.rs:375-425 | with any of them lost, a buffer that completes still reassembles to exactly the datagram |
| `Fragmentation.SeriesReassembles` | crates/virtual-netstack/src/stack.rs:375-425 | so it is for each of up to 65536 successive datagrams, however interleaved: what completes is exactly the datagram, and with nothing lost it completes |
| `Fragmentation.SeriesDelivers` | crates/virtual-netstack/src/stack.rs:375-425 | and then the receiver decodes the ports, the data and the checksum handed to the sender out of the reassembled bytes, and a length field that is theirs |
| `ConnectionPump.Flush` | crates/virtual-netstack/src/stack.rs:774-793 | writes the longest prefix that the bridge takes and keeps the rest |
| `ConnectionPump.TakenIsRoom` | crates/virtual-netstack/src/stack.rs:774-793 | of any number of pending bytes the bridge takes as many as it has room for |
| `ConnectionPump.Receive` | crates/virtual-netstack/src/stack.rs:619-628 | takes everything until the socket has no more |
| `ConnectionPump.ReceivedIsAll` | crates/virtual-netstack/src/stack.rs:619-628 | the socket gives every byte before its first answer without any |
| `ConnectionPump.ReadUntilBlocked` | crates/virtual-netstack/src/stack.rs:647-663 | reads everything until the bridge blocks, and meets the end exactly on zero bytes or a failure |
| `ConnectionPump.BridgeGivesAll` | crates/virtual-netstack/src/stack.rs:647-663 | so does the bridge, and it ends exactly on an end of file, an empty read or a failure |
| `ConnectionPump.PumpIn` | crates/virtual-netstack/src/stack.rs:618-643 | no byte taken from the socket is lost or reordered; as many are written as the bridge has room for; the bridge is half-closed exactly when the peer of an established connection sends no more and all is written |
| `ConnectionPump.PumpOut` | crates/virtual-netstack/src/stack.rs:645-676 | the same from bridge to socket: everything there is read until the bridge ends and not after, as much is sent as a socket that can send accepts, and the socket is closed exactly when the bridge of an established connection ended and all was sent |
| `ConnectionPump.CloseHandsOverAll` | crates/virtual-netstack/src/stack.rs:645-676 | when the socket is closed every byte that the bridge gives over the whole life of the connection was handed over |
| `ConnectionPump.Pump` | crates/virtual-netstack/src/stack.rs:608-686 | under every behaviour of both ends, bytes in equal bytes out plus what is buffered, in both directions, and as much moves as either end has and takes; a connection is given up exactly when its socket closed with nothing left to write |
| `StackLifecycle.ConnKeepsValid` | crates/virtual-netstack/src/stack.rs:492-517 | a new connection keeps one owner per socket and reports before it moves bytes |
| `StackLifecycle.FinishKeepsValid` | crates/virtual-netstack/src/stack.rs:592-598 | releasing a connection frees its socket and ends its reports with one close |
| `StackLifecycle.RelistenKeepsValid` | crates/virtual-netstack/src/stack.rs:471-474 | a listener's accepted socket changes hands without a second owner |
| `StackLifecycle.PumpKeepsValid` | crates/virtual-netstack/src/stack.rs:608-686 | pumping keeps owners and reports |
| `StackLifecycle.Stack.constructor` | crates/virtual-netstack/src/stack.rs:187-207 | an empty stack is valid |
| `StackLifecycle.Stack.InsertConn` | crates/virtual-netstack/src/stack.rs:505-517 | the state after a connection is inserted |
| `StackLifecycle.Stack.FinishConn` | crates/virtual-netstack/src/stack.rs:592-598 | the state after a connection is released |
| `StackLifecycle.Stack.AddForward` | crates/virtual-netstack/src/stack.rs:255-283 | an endpoint that can be listened on has exactly one listener, with this target; other listeners, bindings, connections and reports stay |
| `StackLifecycle.Stack.RemoveEgress` | crates/virtual-netstack/src/stack.rs:315-328 | exactly the matching connections are released |
| `StackLifecycle.Stack.BindUdp` | crates/virtual-netstack/src/stack.rs:331-352 | a local endpoint that is not bound yet gets one binding on an unused socket, and one that is bound keeps its own; listeners, other bindings, connections and reports stay |
| `StackLifecycle.Stack.Promote` | crates/virtual-netstack/src/stack.rs:470-524 | with a bridge the accepted socket becomes a new connection, which for an observed listener has reported that it opened with the listener's port, the bridge's port and the remote endpoint, and else nothing; without one it is dropped |
| `StackLifecycle.Stack.FindAccepting` | crates/virtual-netstack/src/stack.rs:456-468 | exactly the accepting listeners, each once |
| `StackLifecycle.Stack.ManageListeners` | crates/virtual-netstack/src/stack.rs:448-525 | every accepting listener with a bridge yields a new connection on its socket, watched exactly when the listener is observed and under its own attribution; there is no other new connection, and every other listener is untouched |
| `StackLifecycle.Stack.OpenEgress` | crates/virtual-netstack/src/stack.rs:550-580 | a new connection on an unused socket, exactly when both steps succeed |
| `StackLifecycle.Stack.PumpOne` | crates/virtual-netstack/src/stack.rs:608-685 | one connection goes through the pump; the others stay |
| `StackLifecycle.Stack.PumpConns` | crates/virtual-netstack/src/stack.rs:602-694 | every connection goes through the pump once, moving what either end has and takes, and exactly those whose socket closed with everything written are released |
| `StackLifecycle.Stack.Teardown` | crates/virtual-netstack/src/stack.rs:760-764 | no connection is left |
| `StackLifecycle.Stack.Run` | crates/virtual-netstack/src/stack.rs:696-769 | over every run, each socket has exactly one owner throughout; at the end every connection of an observed listener reported opened once before any byte moved and closed once after the last, with the attribution it was accepted under, no other reported either, and no connection or connection socket is left |
| `AttestdFraming.EncodeLength` | projects/LemonadeNexusAttestd/src/AttestdFraming.cpp:8-14 | four bytes that decode to the length |
| `AttestdFraming.FrameDecodes` | projects/LemonadeNexusAttestd/src/AttestdFraming.cpp:5-18 | length, kind and payload stand where a reader looks for them; above the frame bound there are no bytes |
| `ResponseAssembler.Assembler.Offer` | projects/LemonadeNexusAttestd/src/AttestdCodec.cpp:467-600 | one frame moves the state as the grammar has it, and the result says whether the stream goes on |
| `ResponseAssembler.Assembler.FinishBundle` | projects/LemonadeNexusAttestd/src/AttestdCodec.cpp:625-648 | the bundle, or the error that names a short or a different stream |
| `ResponseAssembler.Assembler.TakeResultKey` | projects/LemonadeNexusAttestd/src/AttestdCodec.cpp:615-618 | the key is handed over at most once |
| `ResponseAssembler.OfferedIsExplained` | projects/LemonadeNexusAttestd/src/AttestdCodec.cpp:467-600 | whatever frames were offered without an error were a header, chunks and an end, or one frame that is a refusal or a result |
| `ResponseAssembler.ErrorsAbsorb` | projects/LemonadeNexusAttestd/src/AttestdCodec.cpp:461-468 | after an error every further frame is malformed and leaves nothing done |
| `ResponseAssembler.ErrorsMeanFrames` | projects/LemonadeNexusAttestd/src/AttestdCodec.cpp:467-547 | which error a frame gives, in terms of the frames before it: oversized, one chunk too many, over the declared length, over the response or the chunk budget, and else malformed |
| `ResponseAssembler.EvidenceIsBounded` | projects/LemonadeNexusAttestd/src/AttestdCodec.cpp:467-547 | held evidence never exceeds the declared length, the chunk budget or the byte budget, errors included |
| `ResponseAssembler.OneAnswer` | projects/LemonadeNexusAttestd/src/AttestdCodec.cpp:602-648 | at most one of bundle, refusal, sealed key, unsealed key and secret is ever available |
| `ResponseAssembler.AnswersMeanFrames` | projects/LemonadeNexusAttestd/src/AttestdCodec.cpp:482-597 | each single-frame answer is the content of the one frame offered, with its version and type |
| `ResponseAssembler.FrameGivesAnswer` | projects/LemonadeNexusAttestd/src/AttestdCodec.cpp:482-597 | and one frame gives a refusal, a sealed key, an unsealed key or a secret if and only if it is well formed, with its content |
| `ResponseAssembler.BundleMeansGrammar` | projects/LemonadeNexusAttestd/src/AttestdCodec.cpp:625-648 | a bundle means exactly a header, chunks and an end, with the length and digest they declared |
| `AttestdStream.EmitBundle` | projects/LemonadeNexusAttestd/src/AttestdCodec.cpp:402-438 | refuses before emitting when the chunk budget is short, emits a prefix of the frames, and succeeds exactly when the sink takes them all |
| `AttestdStream.ReadFramedResponse` | projects/LemonadeNexusAttestd/src/AttestdClient.cpp:245-307 | the loop computes what the framed bytes mean, with every transport fault |
| `AttestdStream.ReadFrames` | projects/LemonadeNexusAttestd/src/AttestdClient.cpp:253-291 | rounds that check both bounds against the declared length first |
| `AttestdStream.ReadSingleFrame` | projects/LemonadeNexusAttestd/src/AttestdClient.cpp:91-131 | the same rounds with the total left to the assembler |
| `AttestdStream.ReaderFindsFrames` | projects/LemonadeNexusAttestd/src/AttestdClient.cpp:253-291 | a complete answer at the head of a stream is found, whatever follows |
| `AttestdStream.ReaderMeansFrames` | projects/LemonadeNexusAttestd/src/AttestdClient.cpp:253-291 | an answer means that frames carrying it head the stream |
| `AttestdStream.ReadThrough` | projects/LemonadeNexusAttestd/src/AttestdClient.cpp:253-291 | accepted frames are read one by one, whatever follows |
| `AttestdStream.PrefixIsTruncated` | projects/LemonadeNexusAttestd/src/AttestdClient.cpp:253-291 | a stream that stops anywhere within an answer is truncated |
| `AttestdStream.BoundsAreFaults` | projects/LemonadeNexusAttestd/src/AttestdClient.cpp:262-275 | both bounds bite on the declared length alone, after any accepted frames |
| `AttestdStream.RefusedFrameIsFault` | projects/LemonadeNexusAttestd/src/AttestdClient.cpp:276-291 | a frame that the assembler refuses is a fault of the same name |
| `AttestdStream.AnswerIsFetched` | projects/LemonadeNexusAttestd/src/AttestdClient.cpp:292-307 | a complete answer is the bundle, truncated when its chunks are not the declared length, and else malformed |
| `AttestdStream.RefusalIsRead` | projects/LemonadeNexusAttestd/src/AttestdClient.cpp:245-307 | a refusal at the head of a stream reads as that refusal, with its code and detail |
| `AttestdStream.ReadingIsReassembly` | projects/LemonadeNexusAttestd/src/AttestdClient.cpp:253-291 | over every byte stream the reader stops with a state if and only if complete frames that lead to it head the stream |
| `AttestdStream.BundleReassembles` | projects/LemonadeNexusAttestd/src/AttestdCodec.cpp:402-438 | the emitted frames reassemble to the same evidence and challenge digest with no error |
| `AttestdStream.RoundTrip` | projects/LemonadeNexusAttestd/src/AttestdClient.cpp:245-307 | reading the concatenated emitted bytes, whatever follows them, gives the bundle |
| `AttestdStream.SmallPayloadsFit` | projects/LemonadeNexusAttestd/src/AttestdCodec.cpp:405-409 | the response bound never bites a bundle within the chunk budget whose two JSON payloads leave room for the frame headers |
| `MeshPortProxies.Proxies.constructor` | projects/LemonadeNexusSDK/src/MeshProxy.hpp:34-41 | a fresh listener |
| `MeshPortProxies.Proxies.Prune` | projects/LemonadeNexusSDK/src/MeshProxy.hpp:112-114 | exactly the expired pipes go, in order |
| `MeshPortProxies.Proxies.TakeWake` | projects/LemonadeNexusSDK/src/MeshProxy.hpp:119-123 | a pending wake-up is handed out exactly when nothing is open |
| `MeshPortProxies.Proxies.EnterHandler` | projects/LemonadeNexusSDK/src/MeshProxy.hpp:44-49 | a handler enters exactly while no switch runs |
| `MeshPortProxies.Proxies.LeaveHandler` | projects/LemonadeNexusSDK/src/MeshProxy.hpp:50-58 | the last to leave takes the wake-up |
| `MeshPortProxies.Proxies.AddPipe` | projects/LemonadeNexusSDK/src/MeshProxy.hpp:62-68 | a pipe is tracked exactly while not closed |
| `MeshPortProxies.Proxies.ReleasePipe` | projects/LemonadeNexusSDK/src/MeshProxy.hpp:79-86 | a destroyed pipe checks for the wake-up |
| `MeshPortProxies.Proxies.StartSwitch` | projects/LemonadeNexusSDK/src/MeshProxy.hpp:89-98 | a switch begins exactly when nothing is open, and otherwise arms the wake-up |
| `MeshPortProxies.Proxies.StopSwitch` | projects/LemonadeNexusSDK/src/MeshProxy.hpp:99-102 | a switch ends |
| `MeshPortProxies.Proxies.AbandonSwitch` | projects/LemonadeNexusSDK/src/MeshProxy.hpp:103-107 | a switch and its wake-up are dropped |
| `MeshPortProxies.Proxies.OpenAgain` | projects/LemonadeNexusSDK/src/MeshProxy.hpp:70-73 | pipes are accepted again |
| `MeshPortProxies.Proxies.TakeAll` | projects/LemonadeNexusSDK/src/MeshProxy.cpp:82-93 | every live tracked pipe is taken, and none is tracked after |
| `MeshPortProxies.StepKeepsValid` | projects/LemonadeNexusSDK/src/MeshProxy.hpp:43-124 | every critical section and every step outside the lock keeps the invariant |
| `MeshPortProxies.RunIsValid` | projects/LemonadeNexusSDK/src/MeshProxy.hpp:29-124 | in every interleaving: an accepted live pipe is tracked or was taken by a cancel_all; while switching no handler is open and no tracked pipe lives; a pending wake-up has a handler, a live pipe or a dying pipe to check it; none is lost or doubled |
| `MeshPortProxies.HandlersAreCounted` | projects/LemonadeNexusSDK/src/MeshProxy.hpp:44-58 | over every run the count is that of the handlers that entered and did not leave |
| `MeshPortProxies.NoWakeIsLost` | projects/LemonadeNexusSDK/src/MeshProxy.hpp:87-123 | once everything finished, every armed wake-up was delivered or made unnecessary |
| `MeshPortProxies.LastOutWakes` | projects/LemonadeNexusSDK/src/MeshProxy.hpp:119-123 | the step that leaves nothing open delivers the pending wake-up |
| `MeshPortProxies.WakesOnlyIdle` | projects/LemonadeNexusSDK/src/MeshProxy.hpp:119-123 | a wake-up is handed out only when one is pending and nothing is open, one at a time |
| `MeshPortProxies.SwitchWaits` | projects/LemonadeNexusSDK/src/MeshProxy.hpp:84-110 | a run in which a switch waits for a handler and its pipe and is woken by the last of them |
| `MeshPortProxies.ClosedMeansTaken` | projects/LemonadeNexusSDK/src/MeshProxy.cpp:82-93 | from a cancel_all to the next reopen every accepted live pipe was taken, and is held or cancelled |
| `MeshPortProxies.CancelStopsStarts` | projects/LemonadeNexusSDK/src/MeshProxy.hpp:59-68 | from a cancel_all to the next reopen no pipe is accepted |
| `ProxyPipe.Pipe.constructor` | projects/LemonadeNexusSDK/src/MeshProxy.cpp:48-60 | a fresh pipe |
| `ProxyPipe.Pipe.ReceiveHeaders` | projects/LemonadeNexusSDK/src/MeshProxy.cpp:153-160 | headers are recorded, and the request goes on unless cancelled |
| `ProxyPipe.Pipe.ReceiveContent` | projects/LemonadeNexusSDK/src/MeshProxy.cpp:161-169 | a chunk is appended and counted, unless cancelled |
| `ProxyPipe.Pipe.EndWorker` | projects/LemonadeNexusSDK/src/MeshProxy.cpp:171-177 | the worker has ended |
| `ProxyPipe.Pipe.CancelPipe` | projects/LemonadeNexusSDK/src/MeshProxy.cpp:62-69 | the pipe is cancelled |
| `ProxyPipe.Pipe.Provide` | projects/LemonadeNexusSDK/src/MeshProxy.cpp:242-257 | the oldest chunk is taken and its size given back, or the response is done; the count never falls below the chunk taken |
| `ProxyPipe.StepKeepsValid` | projects/LemonadeNexusSDK/src/MeshProxy.cpp:153-257 | every critical section keeps the count equal to the size of the queue, and the queue without its last chunk below the limit |
| `ProxyPipe.RunIsValid` | projects/LemonadeNexusSDK/src/MeshProxy.cpp:153-257 | so it is in every interleaving of worker, writer and cancels |
| `ProxyPipe.ChunksLeaveInOrder` | projects/LemonadeNexusSDK/src/MeshProxy.cpp:161-257 | in every interleaving what was handed out and what is queued are together exactly what was put in, in order |
| `ProxyPipe.NothingMoreComes` | projects/LemonadeNexusSDK/src/MeshProxy.cpp:161-177 | once the worker ended or the pipe is cancelled nothing more is put in |
| `ProxyPipe.EndIsWhole` | projects/LemonadeNexusSDK/src/MeshProxy.cpp:242-252 | when the writer ends the response every chunk ever put in was handed to it, and the worker had ended unless someone cancelled |
| `ProxyPipe.BrokenStays` | projects/LemonadeNexusSDK/src/MeshProxy.cpp:254-260 | once the client takes no more nothing more is handed out, and until then the writer goes on |
| `ProxyPipe.OneChunkResponse` | projects/LemonadeNexusSDK/src/MeshProxy.cpp:153-257 | the run of a response of one chunk, from its headers to its end |
| `ProxyPipe.NoDeadlock` | projects/LemonadeNexusSDK/src/MeshProxy.cpp:161-247 | worker and writer never both wait, and a chunk that is there can be taken |
| `ProxyPipe.WakesAreNotified` | projects/LemonadeNexusSDK/src/MeshProxy.cpp:62-257 | a step that ends what a thread waits for notifies, and it stays ended until that thread goes on |
| `RelayRecords.Work` | projects/LemonadeNexusSDK/src/BoringtunMesh.cpp:480-501 | for every list, the wanted peers, the endpoint records and the endpoints handed to the dataplane; a peer listed with no endpoint is recorded so and nothing is handed over for it |
| `RelayRecords.WritesAreListed` | projects/LemonadeNexusSDK/src/BoringtunMesh.cpp:484-487 | a sync gives a peer for which its own snapshot has a relay only that relay's local endpoint, and any other only what is listed for it, never an empty one |
| `RelayRecords.HandedExactly` | projects/LemonadeNexusSDK/src/BoringtunMesh.cpp:484-500 | an endpoint is handed over if and only if some routed entry of the peer has it, not empty, while the record at its turn is another |
| `RelayRecords.ChangesAreHanded` | projects/LemonadeNexusSDK/src/BoringtunMesh.cpp:494-500 | so every routed peer of a list with another record, or none, is handed its endpoint |
| `RelayRecords.WorkRecords` | projects/LemonadeNexusSDK/src/BoringtunMesh.cpp:481-501 | afterwards each wanted peer is recorded at the endpoint that holds for it |
| `RelayRecords.SecondSyncWritesNothing` | projects/LemonadeNexusSDK/src/BoringtunMesh.cpp:491-500 | working on the same list again writes no endpoint |
| `RelayRecords.MergeMaps` | projects/LemonadeNexusSDK/src/BoringtunMesh.cpp:508-522 | paths and records after a merge, from the snapshot and the current paths |
| `RelayRecords.Records.SetPeerRelay` | projects/LemonadeNexusSDK/src/BoringtunMesh.cpp:656-660 | path and record are set together |
| `RelayRecords.Records.DonePeerRelay` | projects/LemonadeNexusSDK/src/BoringtunMesh.cpp:661-669 | the dataplane took the endpoint, which is not empty, and has it from then on |
| `RelayRecords.Records.UndoPeerRelay` | projects/LemonadeNexusSDK/src/BoringtunMesh.cpp:661-666 | and removed together when the dataplane refuses |
| `RelayRecords.Records.ClearPeerRelay` | projects/LemonadeNexusSDK/src/BoringtunMesh.cpp:672-683 | a cleared path leaves the listed endpoint as record, or none |
| `RelayRecords.Records.ForgetAll` | projects/LemonadeNexusSDK/src/BoringtunMesh.cpp:257-261 | stopping forgets both |
| `RelayRecords.Records.TakeSnapshot` | projects/LemonadeNexusSDK/src/BoringtunMesh.cpp:472-478 | a sync starts from the records as they are |
| `RelayRecords.Records.AddedPeer` | projects/LemonadeNexusSDK/src/BoringtunMesh.cpp:481-501 | one peer of a sync, on its own snapshot: what the dataplane is given for it, which is nothing when no endpoint is listed |
| `RelayRecords.Records.MergeSync` | projects/LemonadeNexusSDK/src/BoringtunMesh.cpp:508-522 | the merge under the lock |
| `RelayRecords.StepKeepsRecorded` | projects/LemonadeNexusSDK/src/BoringtunMesh.cpp:472-522 | every critical section keeps the relay records |
| `RelayRecords.RunIsRecorded` | projects/LemonadeNexusSDK/src/BoringtunMesh.cpp:472-522 | in every interleaving of syncs, relay updates and stops, whenever the lock is free each relayed peer is recorded at its relay's local endpoint |
| `RelayRecords.RecordIsGivenExactly` | projects/LemonadeNexusSDK/src/BoringtunMesh.cpp:110-112 | after every step of every run, merges included, the record of a relayed peer is what the dataplane was last given for it if and only if whoever gave it last saw the relay path |
| `RelayRecords.QuietPathIsKept` | projects/LemonadeNexusSDK/src/BoringtunMesh.cpp:653-670 | a relay path set while no sync is between snapshot and merge, and no other update of the peer is out, keeps path, record and dataplane in agreement until the peer is updated or dropped |
| `RelayRecords.SyncUndoesRelay` | projects/LemonadeNexusSDK/src/BoringtunMesh.cpp:480-522 | a run in which a sync that took its snapshot before gives the dataplane the listed endpoint of a relayed peer, the merge records the relay's, and the next sync repeats neither |
| `RelayRecords.EmptyListingKeepsRelay` | projects/LemonadeNexus/src/Boringtun/UserspaceDataplane.cpp:350-373 | a run in which such a sync lists the peer with no endpoint: it records that, and the dataplane keeps the relay's |
| `RelayRecords.MergeLeaves` | projects/LemonadeNexusSDK/src/BoringtunMesh.cpp:508-522 | what every merge of every run leaves as a peer's record, from the state at its snapshot, what it worked on and the path at the merge |
| `RelayRecords.UpdateLastsExactly` | projects/LemonadeNexusSDK/src/BoringtunMesh.cpp:513-521 | over every run and any merge, whether the record that the last relay update before it left is there afterwards, by the kind of update, whether the sync wants the peer, its snapshot and what it recorded, and the merges in between; and that a path set stays exactly while every merge since wants the peer |
| `RelayRecords.SyncRecordStands` | projects/LemonadeNexusSDK/src/BoringtunMesh.cpp:508-521 | without an update since the snapshot: nothing for a peer the sync does not want; else what the sync recorded, or where the snapshot has a path the relay's endpoint, unless a merge in between dropped it |
| `RelayRecords.StaleRecordReturns` | projects/LemonadeNexusSDK/src/BoringtunMesh.cpp:513-521 | a run in which a path is set and cleared during a sync: the removed record comes back and the listed endpoint is not given again |
| `RelayRecords.ListedRecordIsForgotten` | projects/LemonadeNexusSDK/src/BoringtunMesh.cpp:518-520 | a run in which a path is cleared with a listed endpoint during a sync that saw it: that record is forgotten |
| `Cidrs.MaskIsComplement` | projects/LemonadeNexus/include/LemonadeNexus/Boringtun/IpRouter.hpp:68-72 | the mask of a prefix length leaves exactly the bits below it free |
| `Cidrs.OverlapsIffShared` | projects/LemonadeNexusSDK/src/BoringtunMesh.cpp:50-52 | two aligned blocks overlap if and only if they share an address |
| `Cidrs.WithinIffIncluded` | projects/LemonadeNexusSDK/src/BoringtunMesh.cpp:54-57 | one aligned block is within another if and only if all its addresses are |
| `CidrText.ParsedIsAligned` | projects/LemonadeNexus/include/LemonadeNexus/Boringtun/IpRouter.hpp:38-73 | every parsed prefix is aligned |
| `CidrText.IntReadsBack` | projects/LemonadeNexus/include/LemonadeNexus/Boringtun/IpRouter.hpp:38-48 | a prefix length is read after blanks, with or without a sign and whatever follows, unless it does not fit 32 bits |
| `CidrText.AddressRoundTrip` | projects/LemonadeNexus/include/LemonadeNexus/Boringtun/IpRouter.hpp:51-66 | four printed octets parse to their address, most significant first |
| `CidrText.PrefixRoundTrip` | projects/LemonadeNexus/include/LemonadeNexus/Boringtun/IpRouter.hpp:35-73 | a printed prefix parses to its block, for every address and length |
| `CidrText.SubnetRoundTrip` | projects/LemonadeNexusSDK/src/BoringtunMesh.cpp:69-77 | a printed prefix without host bits is accepted as a subnet, and is a list of its own |
| `CidrText.SubnetGoesOn` | projects/LemonadeNexusSDK/src/BoringtunMesh.cpp:69-77 | a subnet text that goes on after a comma is accepted as without, and what follows is read as more of the list |
| `CidrText.RouteReadsBack` | projects/LemonadeNexus/include/LemonadeNexus/Boringtun/IpRouter.hpp:75-92 | a granted route text read as a list is the tunnel address, the subnet, and what the subnet text lists after a comma |
| `PeerRoutes.ReadPlane` | projects/LemonadeNexusSDK/src/BoringtunMesh.cpp:531-535 | the parsable plane texts in order, or the default plane |
| `PeerRoutes.FindCollisions` | projects/LemonadeNexusSDK/src/BoringtunMesh.cpp:574-594 | the nested loops clear a flag exactly when some other valid claim collides |
| `PeerRoutes.PeerAllowedIps` | projects/LemonadeNexusSDK/src/BoringtunMesh.cpp:528-617 | one text per entry: the tunnel address when granted, with the subnet when that is granted too, and otherwise nothing |
| `PeerRoutes.ClaimsAreWellFormed` | projects/LemonadeNexusSDK/src/BoringtunMesh.cpp:59-77 | a valid tunnel claim is one unreserved address in the plane; a valid subnet claim lies in the pool and holds no reserved address |
| `PeerRoutes.TunnelGrantedExactly` | projects/LemonadeNexusSDK/src/BoringtunMesh.cpp:574-583 | a tunnel address is granted if and only if the claim is valid and no other valid tunnel claim shares it |
| `PeerRoutes.SubnetGrantedExactly` | projects/LemonadeNexusSDK/src/BoringtunMesh.cpp:584-593 | a subnet is granted if and only if the tunnel address is, the claim is valid and it shares no address with any valid claim of another peer |
| `PeerRoutes.RoutesAreDisjoint` | projects/LemonadeNexusSDK/src/BoringtunMesh.cpp:574-617 | routes of different entries never share an address |
| `PeerRoutes.RoutesAreAllowed` | projects/LemonadeNexusSDK/src/BoringtunMesh.cpp:537-572 | no address of a route is reserved, each is in the plane or the private pool, and no route is wider than a /24 |
| `PeerRoutes.RoutesAvoidBothEnds` | projects/LemonadeNexusSDK/src/BoringtunMesh.cpp:537-544 | no route holds this device's or the server's tunnel address |
| `PeerRoutes.RoutesAreReordered` | projects/LemonadeNexusSDK/src/BoringtunMesh.cpp:574-576 | permuting the list permutes the result |
| `PeerRoutes.InstalledRoutes` | projects/LemonadeNexusSDK/src/BoringtunMesh.cpp:596-616 | an entry's text, read as the dataplane reads it, is its granted routes and what follows a comma in a granted subnet's text |
| `PeerRoutes.InstalledIffNothingFollows` | projects/LemonadeNexusSDK/src/BoringtunMesh.cpp:606-609 | exactly the granted routes are installed if and only if nothing parsable follows a comma there |
| `PeerRoutes.MoreThanGranted` | projects/LemonadeNexusSDK/src/BoringtunMesh.cpp:606-609 | an input on which one more block than was granted is installed |
| `PairSlots.SlotInstant` | projects/LemonadeNexusSDK/src/HolePunch.cpp:162-166 | a clock reading leads to the end of its window; the delay is from 1 to the interval, despite the truncating remainder |
| `PairSlots.DelayIsLeast` | projects/LemonadeNexusSDK/src/HolePunch.cpp:162-166 | the delay is the least positive one that lands on the pair's grid, for every clock, negative ones included |
| `PairSlots.SameWindowSameInstant` | projects/LemonadeNexusSDK/src/HolePunch.cpp:162-166 | two readings lead to the same instant if and only if they fall between the same two slots |
| `PairSlots.PairSlotOffset` | projects/LemonadeNexusSDK/src/HolePunch.cpp:146-160 | the loops compute the hash of the two keys in order, reduced by the interval |
| `PairSlots.KnownHashes` | projects/LemonadeNexusSDK/src/HolePunch.cpp:146-160 | known values of the 64-bit FNV-1a hash, of one byte and of a pair |
| `PairSlots.MixedTellsApart` | projects/LemonadeNexusSDK/src/HolePunch.cpp:152-156 | strings that differ in one byte hash apart |
| `PairSlots.PairsHashApart` | projects/LemonadeNexusSDK/src/HolePunch.cpp:146-160 | so do pairs in which one key differs in one byte |
| `PairSlots.OffsetIsShared` | projects/LemonadeNexusSDK/src/HolePunch.cpp:146-160 | both ends compute the same offset, below the interval |
| `PairSlots.PairMeets` | projects/LemonadeNexusSDK/src/HolePunch.cpp:168-176 | both ends of a pair come to the same instant of the grid |
| `HolePuncher.GatherTargets` | projects/LemonadeNexusSDK/src/HolePunch.cpp:121-133 | the loop collects the probe targets |
| `HolePuncher.GatheredOnce` | projects/LemonadeNexusSDK/src/HolePunch.cpp:121-133 | every non-empty endpoint once and no other |
| `HolePuncher.NextSlotIsLater` | projects/LemonadeNexusSDK/src/HolePunch.cpp:168-176 | a slot is always later, for every interval |
| `HolePuncher.NextSlotIsOnGrid` | projects/LemonadeNexusSDK/src/HolePunch.cpp:168-176 | and in the wall clock on the grid that the other end computes |
| `HolePuncher.BurstIsExact` | projects/LemonadeNexusSDK/src/HolePunch.cpp:269-282 | a burst is as many probes as were set, an interval apart, and then waits for a slot |
| `HolePuncher.Puncher.Reset` | projects/LemonadeNexusSDK/src/HolePunch.cpp:178-182 | nothing is kept |
| `HolePuncher.Puncher.Renew` | projects/LemonadeNexusSDK/src/HolePunch.cpp:184-191 | the listed peers are renewed |
| `HolePuncher.Puncher.BurstNow` | projects/LemonadeNexusSDK/src/HolePunch.cpp:193-198 | every entry is due with a full burst |
| `HolePuncher.Puncher.CountedHandshake` | projects/LemonadeNexusSDK/src/HolePunch.cpp:221-231 | a handshake from before a renewal does not count while the renewal is fresh |
| `HolePuncher.Puncher.Look` | projects/LemonadeNexusSDK/src/HolePunch.cpp:217-285 | one peer of a pass |
| `HolePuncher.Puncher.Maintain` | projects/LemonadeNexusSDK/src/HolePunch.cpp:200-292 | a whole pass: what is kept and when the next one is due; without an own key everything is forgotten |
| `HolePuncher.PassIsPunctual` | projects/LemonadeNexusSDK/src/HolePunch.cpp:200-292 | after every pass on any list and schedule at most 16 peers were probed; every entry is a listed peer's and due later, or the probes ran out and the wake-up is exactly the minimum gap away; the wake-up is within both gaps and not past the earliest entry |
| `HolePuncher.ListedExactly` | projects/LemonadeNexusSDK/src/HolePunch.cpp:217-220 | listed are exactly the keys of the list other than this device's |
| `HolePuncher.ProbedExactly` | projects/LemonadeNexusSDK/src/HolePunch.cpp:217-285 | in a pass over any list and schedule a peer is probed if and only if probes are left at its turn and it needs them and is renewed, or direct with new targets or newly so, or its entry holds and its time has come |
| `HolePuncher.CappedStaysDue` | projects/LemonadeNexusSDK/src/HolePunch.cpp:264-268 | a due peer that is not probed keeps its entry due and the wake-up is the minimum gap away |
| `HolePuncher.EntriesExactly` | projects/LemonadeNexusSDK/src/HolePunch.cpp:217-242 | after a pass a listed peer has an entry if and only if it has a target and is relayed with a direct path preferred, or not relayed and without a fresh handshake newer than its renewal |
| `HolePuncher.EntryExactly` | projects/LemonadeNexusSDK/src/HolePunch.cpp:243-282 | the whole entry of a peer after a pass: burst, time, mode and targets, for new targets, a move onto a relay, a renewal and a probe |
| `HolePuncher.RenewalLastsExactly` | projects/LemonadeNexusSDK/src/HolePunch.cpp:223-231 | a pass ends a renewal exactly when it finds a later handshake or the renewal is too old |
| `HolePuncher.RenewedIsProbed` | projects/LemonadeNexusSDK/src/HolePunch.cpp:184-191 | a renewed peer is probed by the next pass that lists it, relayed or not, if and only if probes are left; else it stays due with a whole burst and the pass comes back after the minimum gap |
| `HolePuncher.BurstIsProbedExactly` | projects/LemonadeNexusSDK/src/HolePunch.cpp:193-198 | after a burst was asked for, a peer that was being probed and still needs it is probed if and only if it is not relayed, has its old targets or was renewed, and probes are left |
| `HolePuncher.NewTargetMissesBurst` | projects/LemonadeNexusSDK/src/HolePunch.cpp:193-198 | after a first pass from an empty schedule, a relayed peer with a new target that the burst misses |
| `PeerLiveness.Judge` | projects/LemonadeNexusSDK/src/MeshOrchestrator.cpp:854-863 | one peer of a pass: its liveness and the count it leaves |
| `PeerLiveness.Orchestrator.DoMonitor` | projects/LemonadeNexusSDK/src/MeshOrchestrator.cpp:813-865 | the liveness part of a monitor pass |
| `PeerLiveness.Orchestrator.DoPeerRefresh` | projects/LemonadeNexusSDK/src/MeshOrchestrator.cpp:466-498 | the carry-over of a refresh |
| `PeerLiveness.Orchestrator.Forget` | projects/LemonadeNexusSDK/src/MeshOrchestrator.cpp:162-168 | stopping forgets both |
| `PeerLiveness.CountIsWithinRow` | projects/LemonadeNexusSDK/src/MeshOrchestrator.cpp:94-100 | over every run the stored count never exceeds the row of counted stale passes, nor reaches the limit |
| `PeerLiveness.OfflineTakesARow` | projects/LemonadeNexusSDK/src/MeshOrchestrator.cpp:854-863 | a pass turns an online peer offline only as the last of a full row of counted stale passes; an uncounted pass never does |
| `PeerLiveness.RowTurnsOffline` | projects/LemonadeNexusSDK/src/MeshOrchestrator.cpp:94-100 | and a row of that many counted stale passes does, whatever uncounted passes and refreshes that list the peer again lie between |
| `PeerLiveness.SignalDecides` | projects/LemonadeNexusSDK/src/MeshOrchestrator.cpp:94-100 | over runs, a fresh signal turns any peer online and ends its row; a pass without a signal, or with a stale one that does not count, leaves it as it was |
| `PeerLiveness.RefreshKeepsOnline` | projects/LemonadeNexusSDK/src/MeshOrchestrator.cpp:469-497 | a refresh keeps the state of every peer it lists again |
| `PeerLiveness.CarriedOverKeeps` | projects/LemonadeNexusSDK/src/MeshOrchestrator.cpp:469-497 | a listed peer keeps its identity; a new one has the server's bit |
| `ConnectionPool.Pool.constructor` | projects/LemonadeNexusSDK/include/LemonadeNexusSDK/RoutingConnectionPool.hpp:32-33 | an empty pool |
| `ConnectionPool.Pool.CountInFlight` | projects/LemonadeNexusSDK/src/RoutingConnectionPool.cpp:5-10 | the number of requested and connecting entries |
| `ConnectionPool.Pool.FindLeastRecent` | projects/LemonadeNexusSDK/src/RoutingConnectionPool.cpp:25-31 | an established entry of least last use, in whatever order the table lists them, or none exactly when none is established |
| `ConnectionPool.Pool.TryToBegin` | projects/LemonadeNexusSDK/src/RoutingConnectionPool.cpp:12-38 | succeeds exactly for a pooled identifier, or with setups to spare and room or something to evict; reports what it evicted |
| `ConnectionPool.Pool.Mark` | projects/LemonadeNexusSDK/src/RoutingConnectionPool.cpp:40-56 | only the state of that entry changes |
| `ConnectionPool.Pool.MarkEstablishedAt` | projects/LemonadeNexusSDK/src/RoutingConnectionPool.cpp:45-51 | only that entry changes, to established and used now |
| `ConnectionPool.Pool.TouchAt` | projects/LemonadeNexusSDK/src/RoutingConnectionPool.cpp:58-61 | only its last use changes |
| `ConnectionPool.Pool.Drop` | projects/LemonadeNexusSDK/src/RoutingConnectionPool.cpp:63-66 | only that entry goes |
| `ConnectionPool.PoolIsBounded` | projects/LemonadeNexusSDK/src/RoutingConnectionPool.cpp:12-66 | over every run the pool never exceeds its endpoints |
| `ConnectionPool.EvictionIsExact` | projects/LemonadeNexusSDK/src/RoutingConnectionPool.cpp:24-36 | an eviction removes exactly one established entry of least last use and changes nothing else |
| `ConnectionPool.SetupsAreBounded` | projects/LemonadeNexusSDK/src/RoutingConnectionPool.cpp:12-66 | over every run that marks as connecting only what is in flight, setups stay within their bound |
| `ConnectionPool.ConnectingKeepsBound` | projects/LemonadeNexusSDK/src/RoutingConnectionPool.cpp:40-43 | marking as connecting keeps the bound if and only if the entry is missing, already in flight, or there is room |
| `ConnectionPool.SetupsCanExceed` | projects/LemonadeNexusSDK/src/RoutingConnectionPool.cpp:40-43 | a run in which an established entry marked as connecting exceeds the bound |

## Left out

- The insides of the signature, proof, curve, TCP and tunnel libraries. The signature
  library's results are parameters; its enrollment step 1 has the contract that a helper's
  deltas sum to its weighted share; the proof verifier has the contract that an accepted
  proof means equal logarithms, and an honest one is accepted for its own transcript and no
  other; an honest refresh adds everyone's polynomial to every share.
- A failing call into the signature library, which only passes its error on.
- Key generation parts 1 and 2, serialization of plans and shares, and zeroization.
- Unlock.Encapsulate: the random scalar is a parameter.
- Fragmentation.UdpSender.Send: the UDP checksum is a parameter, and the constant header
  fields (version, hop limit, protocol, header checksum) are not part of a packet here.
- StackLifecycle.Stack.Run: tokens are unbounded numbers, and a listen fails only on port
  zero, so listening again succeeds as it did first; egress listeners, ephemeral ports,
  delivery of received UDP and the polling loop's waiting are not modelled.
- ConnectionPump.Pump: the wake-up that says whether any byte moved is not modelled.
- AttestdStream.EmitBundle: a sink is how many frames it takes before it refuses one.
- AttestdStream.ReadFramedResponse: a deadline is the end of the stream, and the texts that
  explain a fault are not modelled.
- Requests, refusal texts and the request decoders of the attestation daemon.
- MeshPortProxies.Proxies.TakeAll: cancelling each taken pipe is the step `Cancel`.
- ProxyPipe.Pipe.Provide: a wait is a precondition; the status and type of a response, the
  HTTP client and joining the worker are not modelled.
- RelayRecords.Work: the dataplane is whether it takes a peer; that it loses one is the step
  `Dropped`, and which unlisted peers a sync removes is not modelled.
- PeerRoutes.PeerAllowedIps: warnings are not modelled.
- PairSlots.SlotInstant: clock sums are unbounded, without 64-bit overflow.
- HolePuncher.ProbedExactly: for peers that the list has once, as are the other theorems about
  who is probed; `PassIsPunctual` and `ListedExactly` are for every list.
- HolePuncher.Puncher.Maintain: how many datagrams a probe sent is a parameter.
- PeerLiveness.Orchestrator.DoMonitor: paths, timestamps and the freshness of a signal are
  represented by the signal itself. The theorems over runs are for refreshed lists with
  distinct keys.
- The file, process, HTTP and platform code around these parts, and the small decision
  functions beside them.
