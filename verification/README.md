# HotStuff-2, modelled and proved in Dafny

This project models the consensus core of the Go HotStuff-2 library: the replica and its message
handlers, a cluster of replicas exchanging messages, quorum certificates with their wire formats,
and three small stateful algorithms (violation detector, delay queue, timeout backoff). It proves
what the library promises of them, over every run.

`dafny verify dfyconfig.toml` checks everything.

## How it is built

- **The replica** exists twice. `HotStuff2.dfy` and `Context.dfy` are classes with the source's own
  fields, loops and in-place updates. `Replica.dfy` and `ContextSpec.dfy` give the same handlers as
  functions on values. Every method is proved to take the object exactly where the function says,
  whatever order the vote and NEWVIEW maps are listed in, and the theorems are proved about the
  functions.
- **Nondeterminism is a parameter.** `Env` holds what the outside world answers during one step: the
  storage calls, `Verify`, `CreateBlock`, the minimum-block-time check, the clock, `NewVote`, and which
  of several equally high certificates a map iteration meets first. Each handler is one atomic step.
  Each `go` call (start, advance after a certificate, propose after advancing) is a pending task that
  fires later, at any time, as a step of its own.
- **The cluster** (`Cluster.dfy`) is a step relation over n replicas. What was broadcast may be
  delivered any number of times, in any order, to anybody, or never; a crashed replica just takes no
  more steps. A log records every vote in the order it was signed, tagged as cast in `onProposal` or
  as the leader's implicit vote.
- **The safety argument** (`VoteLog.dfy`) is about that log alone: quorum overlap, the lock and the
  two-chain rule, by induction on the order in which blocks were created, because nothing makes the
  view of a certificate lower than the view of the block built on it. `ClusterInvariant.dfy` connects
  it to the replicas, `Agreement.dfy` to runs, `FourReplicas.dfy` and `OneReplica.dfy` to the fault
  bounds for which the promises hold.
- **One replica** has its own theorems over whole lives (`ReplicaHistory.dfy`) and over lives that
  follow each other through storage (`Restarts.dfy`).
- **What an event does** is proved separately (`Effects.dfy`), in terms of what can be observed of a
  replica afterwards and without naming the functions that make up a handler: when a proposal makes it
  catch up and vote, when a vote counts, who is left with the next view, when a leader goes back, when
  and on what it proposes.
- **The gated variant.** `Config.gated` is false for the library as it is, and the class refines that
  machine only. When true, the leader's implicit vote is one more modelled step with the rules of
  `onProposal`: only if it has not voted in the view, only by the SafeNode rule, and after locking the
  certificate it builds on. The cluster theorems are proved for the runs of both machines.

## Hypotheses of the cluster theorems

The code does not establish these alone; each is a named predicate.

- Crash faults only: every message was sent by a replica running this code (`Cluster.Allowed`).
  Signatures enter through this too: a vote in a message was signed by the replica it names.
- Any two quorums share enough validators, which is at least 4f+2-n: three for agreement and the locked
  branch (`Agreement.Resilient`), two for unique certificates, one on the gated machine. `Config.validate`
  (config.go:106-111) asks for n >= 3f+1 only. With n = 3f+1 this says f >= 2, f >= 1 and every f; it
  also covers n = 3f+2 from f = 3 on and n = 3f+3 from f = 4 on.
- `CreateBlock` returns a new non-zero hash and the parent it was asked for; `Verify` accepts a block
  with a known parent only at the parent's height plus one (`Cluster.Fresh`, `VoteLog.HeightOk`).
- The genesis certificate, if there is one, is for the genesis block (`Cluster.SetupOk`). Its view and
  the start views are arbitrary, view 0 for both included.
- For unique certificates: no view falls below its prune horizon (`Agreement.AboveHorizon`). For
  agreement and the locked branch: no view falls, and none reaches the last 32-bit view
  (`Agreement.ViewsNeverFall`). Only the leader's sync-back (hotstuff2.go:694-704) and a late
  `advanceViewWithQC` (hotstuff2.go:775-777) can lower a view.

For n = 3f+1 agreement also holds for f = 0, and `FourReplicas.AgreementExactly` and
`OneReplica.UniqueExactly` prove that the condition on f cannot be dropped.

## Where the code and its documentation disagree

- README.md:195 and docs/PROTOCOL.md:66 promise agreement always. It holds for every f except f = 1
  (`FourReplicas.AgreementExactly`). `FourReplicas.TwoBlocksAtHeightOne` is a run of four fresh
  replicas, none faulty and no view falling. They start in view 0 from a common genesis block and a
  certificate of view 0 for it, accept only blocks on a parent they store, as types.go:234-238 and
  docs/INTEGRATION_GUIDE.md:319-322 ask of `Verify`, and commit two blocks at height 1. Two things
  combine: the leader's implicit vote (hotstuff2.go:926-935) skips `HasVoted`, `SafeToVote` and
  `UpdateLockedQC`, and with f = 1 two leaders can be the whole overlap of two quorums; and the
  `go hs.propose()` of `Start` (hotstuff2.go:129) can run several views late, on a high certificate older
  than the replica's lock: voting for a proposal of the present view raises the lock
  (hotstuff2.go:332-354), but the high certificate only when the proposal makes it catch up
  (hotstuff2.go:263-276). With gated leaders agreement holds for every f.
- One certificate per view likewise holds exactly for f >= 1 or gated leaders
  (`OneReplica.UniqueExactly`): with f = 0 a replica that times out into a view and proposes there
  proposes and certifies a second block when the advance to that view that its previous certificate
  left pending (hotstuff2.go:504-507) fires.
- A restart keeps the lock but forgets which views were voted in. `Restarts.TwoVotes` is a replica with
  working storage that votes for two blocks in one view, before and after a crash. It cannot happen
  exactly when no `onProposal` vote was cast in the view that storage holds at the restart
  (`Restarts.RevotesExactly`, for views that do not fall).
- A proposal makes a replica without a high certificate catch up on a certificate of view 0, which it
  does not take over, since 0 is not above the 0 that stands for none (hotstuff2.go:254-266,
  `Effects.ProposalMoves`).
- `IsAncestor` gives up after a thousand links: the SafeNode rule rejects extensions of a lock more
  than a thousand heights below (`Context.AncestryExactly`).
- A PROPOSE message computes its bounds in 32 bits (payload.go:235-253). Behind a block of exactly
  2^32-5 bytes the certificate is read from the start of the body, with 0xFFFFFFFB as its view
  (`Payload.AtTheBound`, and `Payload.CertificateLost` for a concrete message); with a length field
  above that the receiver slices out of range (`Payload.LongBlockPanics`). `Payload.RoundTripExactly`
  and `Payload.LengthExactly` give the exact condition for every length, 2^32 and above included.
- A certificate cut off right after its hash makes `QCFromBytes` read past the end
  (`QCCodec.OutOfRangeExactly`).

## Reading choices

A hash is its byte string, so `hash.String()` is taken to be injective and the maps are keyed by the
hash. A block is what consensus reads of it: hash, height, parent. uint32 arithmetic wraps
(`Types.Succ32`). Only the Ed25519 scheme is modelled; `verify(key, digest, signature)` is an
uninterpreted predicate, of which `QuorumCert.ChecksSize` says that it accepts 64-byte signatures only.
`sort.Slice` is an in-place insertion sort; with distinct indices every sort gives its result. Durations
are whole nanoseconds and the backoff multiplier is a fraction.

## Model

| member | source | states |
|---|---|---|
| FourReplicas.AgreementExactly | hotstuff2.go:325-382 | in all runs of 3f+1 replicas in which no view falls, no two replicas commit different blocks at one height, if and only if f is not 1 or the leaders' implicit votes are gated; the same whether or not Verify insists on a stored parent |
| FourReplicas.TwoBlocksAtHeightOne | hotstuff2.go:869-940 | the run of four correct replicas with a common genesis block, every accepted block on a stored parent, that commits two blocks at height 1 |
| Agreement.AgreementInRun | hotstuff2.go:519-589 | agreement in every run in which no view falls, when any two quorums share three validators (n = 3f+1: f >= 2), or one if leaders are gated (n = 3f+1: every f) |
| Agreement.LockedBranchInRun | hotstuff2.go:325-354 | once a block and its child are certified in consecutive views, every block certified in that view or later, at any time, descends from it; quorums as for agreement |
| Agreement.UniqueCertificatePerView | hotstuff2.go:300-309 | any two certificates of one view held anywhere certify the same block, even when the leader proposes and votes more than once, when any two quorums share two validators (n = 3f+1: f >= 1), or one if leaders are gated |
| OneReplica.UniqueExactly | hotstuff2.go:1022-1028 | that uniqueness holds in all runs if and only if f >= 1 or leaders are gated |
| OneReplica.TwoCertificates | hotstuff2.go:775-802 | the run of a single replica, without any message and with no view falling, that certifies two blocks in one view |
| Agreement.QCIntegrity | hotstuff2.go:394-488 | every certificate held as lock, high certificate, by block, in NEWVIEWs, messages or pending tasks is backed by votes that 2f+1 distinct validators really signed for its view and block |
| Agreement.CommitIsTwoChain | context.go:397-431 | what a replica commits is a created block certified in the view before its certified child |
| Agreement.LogVotesOnce | hotstuff2.go:305-309 | in the global log no replica casts two onProposal votes in one view |
| Agreement.InvAlways | hotstuff2.go:206-217 | every reachable cluster state has a well-formed history of which all replicas' knowledge is true |
| ClusterInvariant.HandleStep | hotstuff2.go:206-217 | any step of any replica keeps the history well-formed and the replica's knowledge true of it |
| ClusterInvariant.FormedIsGenuine | hotstuff2.go:437-462 | a certificate formed from stored votes is backed by really signed votes for a created block |
| VoteLog.LockedBranch | context.go:344-361 | the locked-branch theorem from the vote log alone |
| VoteLog.UniqueCertificate | config.go:243-245 | two certified blocks of one view are equal, by quorum overlap with the leader discounted |
| VoteLog.SameHeightSameBlock | hotstuff2.go:519-589 | two blocks of one height, each certified with its child in consecutive views, are equal |
| ReplicaHistory.CommitDiscipline | hotstuff2.go:519-589 | in every run committed is write-once, at most one commit and so one Execute happens per height, and each has a child in the block store with a validated certificate one view after the block's own |
| ReplicaHistory.CheckCommitExactly | hotstuff2.go:519-589 | checkCommit commits exactly when the height is free and CanCommit holds, and otherwise changes nothing |
| ReplicaHistory.LocksNeverFall | context.go:110-148 | between any two points of any run the lock and the high certificate never go back and commits are never undone |
| Restarts.RestartKeepsLock | hotstuff2.go:57-80 | with working storage the stored view is the live view, and a rebuilt replica holds a lock no lower than any taken since the start |
| Restarts.LocksSurviveRestarts | hotstuff2.go:346-351 | over any number of restarts the lock never goes back, if the certificate that GetQC returns for the last block does not |
| Restarts.RevotesExactly | hotstuff2.go:57-80 | after any number of crashes, with working storage and views that do not fall, every further life votes only in views not voted in before, and never against an earlier vote, if and only if no onProposal vote was cast in the stored view |
| Restarts.TwoVotes | hotstuff2.go:57-80 | two lives with working storage whose onProposal votes in one view are for different blocks |
| Restarts.VotesUniqueAcrossLives | hotstuff2.go:305-309 | if no life starts in a view already voted in, no two lives vote in one view |
| ReplicaHistory.OneVotePerView | hotstuff2.go:279-309 | two onProposal votes in one view only after the view fell below the prune horizon used by then |
| ReplicaHistory.DistinctVoteViews | context.go:509-530 | at most one onProposal vote in every view if the view never drops below the horizon |
| ReplicaHistory.QuorumFormsQC | hotstuff2.go:437-462 | in every run of a replica whose own key is registered, 2f+1 stored votes make NewQC and Validate succeed, with the same certificate for every order GetVotes may list them in |
| ReplicaProperties.HandleKeeps | hotstuff2.go:228-384 | any step remembers unpruned votes, votes once per view and never lowers the lock a vote found |
| ReplicaProperties.HandleSignsHere | hotstuff2.go:869-940 | a step signs at most one vote and creates at most one block, in the view it ends in, and prunes only below it |
| Effects.ProposalMoves | hotstuff2.go:243-284 | a proposal of a later view on a certificate no lower than the high one puts the replica in that view, stored too if PutView works, with a high certificate at least as high (unless it had none and this one is of view 0) and a higher certificate kept; a proposal of any other view but the present one changes nothing |
| Effects.ProposalVotesExactly | hotstuff2.go:278-383 | a proposal is voted for if and only if its view is the present one or caught up with, the replica does not lead it and has not voted in it, the time and Verify checks pass, the SafeNode rule holds, and no storage call that matters fails, PutHighestLockedQC included when the lock rises; then exactly one signed vote is broadcast and counted |
| Effects.ProposalStoresExactly | hotstuff2.go:318-354 | which proposals are stored, and that a safe one leaves the lock no lower than its certificate |
| Effects.VoteCountsExactly | hotstuff2.go:394-432 | a vote is filed if and only if a registered validator signed it and its timestamp is 0 or at most 60000 ms before or after the clock, and short of a quorum does nothing else |
| Effects.QuorumCertifies | hotstuff2.go:437-508 | the vote that completes a quorum stores the certificate, raises high certificate and lock, commits the parent by the two-chain rule, and leaves the advance to the next view with its leader and nobody else |
| Effects.QuorumAlwaysCertifies | hotstuff2.go:437-508 | in every run of a replica whose own key is registered, 2f+1 distinct stored votes do this |
| Effects.StartProposes | hotstuff2.go:869-940 | the pending call makes exactly the leader of the present view propose, on the high certificate |
| Effects.NewViewMoves | hotstuff2.go:611-709 | a NEWVIEW is recorded with its certificate, and moves the replica only forward to a view it catches up with or, as its leader, back to it |
| Effects.NewViewGoesBackExactly | hotstuff2.go:694-709 | a NEWVIEW lowers the view if and only if the replica leads that view, has a quorum of NEWVIEWs for it and has not voted in it; for an earlier view it has voted in, it neither goes back nor proposes |
| Effects.NewViewProposesExactly | hotstuff2.go:711-739 | exactly a leader in the view with 2f+1 NEWVIEWs proposes, on a highest of the certificates sent, or else the high one |
| Effects.TimeoutExactly | hotstuff2.go:748-857 | the timeout of the present view, and no other, enters the next, announces it, keeps the last ten views, and makes a leader with a quorum propose |
| Effects.AdvanceExactly | hotstuff2.go:775-802 | the pending advance enters its view, keeps the last ten, and leaves a proposal pending exactly for the leader |
| HotStuff2.RestoredExactly | hotstuff2.go:50-80 | the restored replica: last block committed, its certificate high, the higher of that and the stored lock locked, the stored view or 0, nothing else |
| HotStuff2.HotStuff2.NewHotStuff2WithHooks | hotstuff2.go:50-100 | fails exactly when GetLastBlock does, and otherwise builds the replica that the last block and whatever of certificate, view and lock can be read determine |
| HotStuff2.HotStuff2.Start | hotstuff2.go:103-133 | leaves a proposal pending exactly for the leader of the present view |
| HotStuff2.HotStuff2.OnProposal | hotstuff2.go:228-384 | the handler moves the object as the transition function says |
| HotStuff2.HotStuff2.VoteFor | hotstuff2.go:318-383 | stores, applies the SafeNode rule, locks, persists and votes, in that order, stopping at each failure |
| HotStuff2.HotStuff2.OnVote | hotstuff2.go:394-432 | admits and counts a vote as the transition function says |
| HotStuff2.HotStuff2.TryFormQCIfQuorum | hotstuff2.go:437-508 | forms and uses a certificate as specified, for any order of the votes |
| HotStuff2.HotStuff2.CheckCommit | hotstuff2.go:519-589 | the commit the specification makes, or nothing |
| HotStuff2.HotStuff2.OnNewView | hotstuff2.go:611-739 | tracks, synchronizes forward or back, and proposes as specified |
| HotStuff2.HotStuff2.OnViewTimeout | hotstuff2.go:748-769 | ignores stale timeouts and otherwise advances one view |
| HotStuff2.HotStuff2.AdvanceViewWithQC | hotstuff2.go:775-802 | enters the view, prunes, and leaves a proposal pending for its leader |
| HotStuff2.HotStuff2.AdvanceView | hotstuff2.go:810-857 | enters the view, prunes, announces it, and proposes if the quorum is already there |
| HotStuff2.HotStuff2.Propose | hotstuff2.go:869-940 | proposes on the high certificate in whatever view the call finds |
| HotStuff2.HotStuff2.ProposeWithNewViewQuorum | hotstuff2.go:952-1033 | proposes on a highest NEWVIEW certificate, else on the high certificate |
| HotStuff2.HotStuff2.Step | hotstuff2.go:165-217 | one event of any kind is one step of the transition function |
| Context.Context.constructor | context.go:60-86 | the fresh context, its genesis block committed and its certificate both lock and high |
| Context.Context.UpdateLockedQC | context.go:110-124 | replaces the lock exactly by a strictly higher view |
| Context.Context.UpdateHighQC | context.go:134-148 | likewise for the high certificate |
| Context.Context.AddVote | context.go:151-168 | files the vote and counts the validators for its block |
| Context.Context.GetVotes | context.go:171-186 | lists exactly the stored votes, each once, in any order |
| Context.Context.HasVoted | context.go:202-217 | true exactly when some vote of the validator in the view is stored |
| Context.Context.HighestQCFromNewViews | context.go:475-494 | a certificate sent for the view that none of the others exceeds |
| Context.Context.IsAncestor | context.go:316-341 | the walk of at most a thousand links decides reachability by that many parent links |
| Context.AncestryExactly | context.go:364-386 | with heights that fit, exact chain membership for gaps up to a thousand, and false beyond |
| Context.Context.SafeToVote | context.go:344-361 | no lock, a higher justify view, or an extension of the locked block |
| Context.Context.CanCommit | context.go:397-431 | the two-chain rule with its genesis case |
| Context.Context.AddNewView | context.go:436-447 | records the certificate and counts the senders |
| Context.Context.PruneVotes | context.go:509-530 | the loops remove exactly the votes and NEWVIEWs of views below the horizon |
| ContextSpec.HighestQC | context.go:475-494 | whatever the iteration meets first, the chosen certificate is a highest one |
| QuorumCert.NewQC | quorum_cert.go:50-125 | the deduplicating loops compute the specified certificate or the error |
| QuorumCert.FormSound | quorum_cert.go:57-124 | success gives strictly ascending distinct signers, at least 2f+1, each with the timestamp and signature of an input vote for the certificate's view and block |
| QuorumCert.FormExactly | quorum_cert.go:57-124 | success exactly with 2f+1 distinct validators, all votes matching and 64-byte signatures; duplicates never help |
| QuorumCert.OrderIndependent | quorum_cert.go:57-124 | permuting votes of distinct validators gives the identical certificate |
| QuorumCert.QuorumGivesValidQC | quorum_cert.go:242-333 | a quorum of authentic votes gives a certificate that Validate accepts |
| QuorumCert.AggregateLayout | quorum_cert.go:130-170 | the aggregate is read back as it was written: count, signers, signatures |
| QuorumCert.AggregateSignatures | quorum_cert.go:130-170 | sorts in place and fills the buffer in that layout, or fails on a signature of the wrong size |
| QuorumCert.ValidExactly | quorum_cert.go:242-333 | a certificate is valid if and only if it has 2f+1 or more distinct registered signers, names the Ed25519 scheme, its aggregate repeats their number and indices, and the i-th 64 bytes behind them are the i-th signer's signature of the vote it stands for |
| QuorumCert.Validate | quorum_cert.go:242-274 | accepts exactly the valid certificates |
| QuorumCert.ValidateEd25519 | quorum_cert.go:277-333 | the layout and every signature over the rebuilt digest |
| Sorting.SortSlice | quorum_cert.go:95-97 | the array is sorted in place by the key, as the sorting function says |
| Sorting.AscendingUnique | quorum_cert.go:135-140 | strictly ascending lists with the same members are equal, so distinct indices leave every sort one result |
| QCCodec.RoundTripExactly | quorum_cert.go:403-530 | a certificate survives the wire if and only if timestamps run parallel to signers, lengths fit their fields and the hash parses |
| QCCodec.Ed25519RoundTrip | quorum_cert.go:130-169 | for a valid Ed25519 certificate that is: at most 992 signers and a hash below 65536 bytes |
| QCCodec.DecodeSound | quorum_cert.go:452-530 | re-encoding any successful decode gives a prefix of the input |
| QCCodec.OutOfRangeExactly | quorum_cert.go:475-477 | the inputs on which the unchecked read of the signer count panics |
| QCCodec.QCLayout | quorum_cert.go:403-449 | where each field stands in the encoding, signers and timestamps one by one |
| QCCodec.Bytes | quorum_cert.go:403-449 | the moving offset fills the buffer with the encoding |
| QCCodec.FromBytes | quorum_cert.go:452-530 | the moving offset reads what the decoder specifies, the out-of-range case included |
| Votes.DigestInjective | vote.go:118-129 | no two votes differing in view, hash, index or timestamp share a digest |
| Votes.DigestLayout | vote.go:118-129 | where each signed field stands in the digest, as big-endian numbers |
| Votes.VoteLayout | vote.go:175-210 | where each field stands in the encoding |
| Votes.MakeDigest | vote.go:118-129 | the buffer holds the digest |
| Votes.Bytes | vote.go:175-210 | the moving offset fills the buffer with the encoding |
| Votes.RoundTrip | vote.go:175-274 | decoding inverts encoding whenever the length fields hold the lengths |
| Votes.DecodeSound | vote.go:213-274 | a buffer decodes only to a vote whose encoding starts it |
| Votes.FromBytes | vote.go:213-274 | reads what the decoder specifies and never out of range, on any input |
| Payload.RoundTripExactly | payload.go:111-315 | decoding gives back a PROPOSE, VOTE or NEWVIEW if and only if its nested values survive: for a block of any length, what its first n bytes and the wrapped offsets select, n being the length modulo 2^32 |
| Payload.LengthExactly | payload.go:132-153 | with a faithful block codec that is: below 2^32-5 bytes when the certificate fits; at 2^32-5 without one, or with one whose encoding starts the body itself; never above |
| Payload.RoundTrip | payload.go:111-315 | decoding inverts encoding for PROPOSE, VOTE and NEWVIEW, with and without a certificate, for blocks below 2^32-5 bytes, and at that length without a certificate |
| Payload.AtTheBound | payload.go:247-253 | at 2^32-5 bytes the certificate decoded is the one read from the start of the body, whose view is 0xFFFFFFFB |
| Payload.CertificateLost | payload.go:247-253 | a block of 2^32-5 zeros turns every certificate into an empty one for view 0xFFFFFFFB |
| Payload.LongBlockPanics | payload.go:235-243 | when the length modulo 2^32 is above 2^32-5 decoding is out of range |
| Payload.DecodeSound | payload.go:196-315 | the encoding of a decoded message starts the buffer if and only if its flag byte is 0 or 1 and a certificate read at a wrapped offset also stands behind its block |
| Payload.MessageLayout | payload.go:111-175 | the type byte is 0, 1 or 2 for PROPOSE, VOTE and NEWVIEW; where view, sender, block length, block, flag and certificate stand |
| Payload.Bytes | payload.go:111-130 | header and payload make up the encoding |
| Payload.SerializePropose | payload.go:132-153 | fills the buffer with block length, block, flag and certificate |
| Payload.SerializeNewView | payload.go:159-175 | fills the buffer with flag and certificate |
| Detector.ViolationDetector.RecordVote | twins/detector.go:73-149 | reports each earlier vote of the validator and view that clashes, naming both, in order; the double-sign count stays the number of clashing pairs of votes |
| Detector.ViolationDetector.RecordConflictingVote | twins/detector.go:87-112 | records the vote, and exactly one injected double-sign after what the vote itself causes |
| Detector.ViolationDetector.RecordCommit | twins/detector.go:152-183 | likewise for commits of one height: the fork count stays the number of clashing pairs |
| Detector.ViolationDetector.RecordProposal | twins/detector.go:187-224 | likewise for proposals |
| Detector.ViolationDetector.RecordNewView | twins/detector.go:228-269 | likewise for NEWVIEWs, which clash when view or block of the certificate differ |
| Detector.ViolationDetector.VerifyQuorumIntersection | twins/detector.go:416-453 | reports exactly when fewer than f+1 signers are shared |
| Detector.ViolationDetector.GetViolationsByType | twins/detector.go:456-467 | exactly the violations of the kind |
| Detector.ViolationDetector.GetViolationCount | twins/detector.go:470-479 | each kind that occurred, with its number of violations |
| Detector.OneMorePairs | twins/detector.go:115-149 | a new record adds as many clashing pairs as it clashes with records of its own slot |
| Detector.ReportsExactly | twins/detector.go:115-149 | the violations a record causes name exactly the earlier records that clash with it, as many as there are |
| Detector.SilentExactly | twins/detector.go:115-269 | a kind is unreported if and only if each owner said one thing in each slot |
| Detector.ValidQuorumsOverlap | quorum_cert.go:242-263 | two validated certificates over n validators share at least 4f+2-n |
| Detector.IntersectionNeverFires | twins/detector.go:416-453 | with n = 3f+1 the check never reports two certificates that pass Validate |
| Interceptors.DelayInterceptor.InterceptOutgoing | twins/interceptors.go:258-309 | releases exactly the messages whose time this call is, keeps the others, loses and invents none, and leaves at most maxDelay queued |
| Interceptors.DelayInterceptor.Release | twins/interceptors.go:290-308 | the release loop splits the queue into due and not due, both in order |
| Interceptors.DelayInterceptor.Flush | twins/interceptors.go:320-334 | releases the whole queue in order; then everything intercepted has gone |
| Interceptors.LeavesExactlyOnTime | twins/interceptors.go:280-308 | a message is released by call n if and only if n is its arrival plus its delay |
| Interceptors.InQueueOrder | twins/interceptors.go:290-308 | what is released and what remains keep the order of the queue |
| Interceptors.OneEntry | twins/interceptors.go:290-308 | an entry goes out from the call of its release number on, and remains before |
| Interceptors.LaterCallsDoNotMatter | twins/interceptors.go:258-309 | what a call releases is settled by the calls up to it |
| Pacemaker.Validate | pacemaker.go:140-169 | no error exactly for sensible configurations |
| Pacemaker.Pacemaker.IncreaseTimeout | pacemaker.go:324-343 | counts the failure and raises the timeout to the truncated product, or to the cap exactly when the product reaches it |
| Pacemaker.Pacemaker.ResetTimeout | pacemaker.go:347-356 | forgets the failures and returns to the base |
| Pacemaker.Pacemaker.OnCommit | pacemaker.go:273-274 | likewise on a commit |
| Pacemaker.BackoffBounds | pacemaker.go:324-343 | after any number of increases the timeout lies between base and cap and never falls |
| Pacemaker.GrowsExponentially | pacemaker.go:324-343 | unless capped, den^k * ((num-den) x_k - (den-1)) >= num^k * ((num-den) x_0 - (den-1)); for 3/2, 2^k (x_k - 1) >= 3^k (x_0 - 1) |
| Pacemaker.OneIncrease | pacemaker.go:331-338 | one increase gives the cap if and only if num x_k >= den * cap, and otherwise the product truncated to whole nanoseconds |
| Pacemaker.GrowsAtMost | pacemaker.go:324-343 | den^k * x_k <= num^k * x_0 after k increases |
| Pacemaker.ReachesCapExactly | pacemaker.go:324-343 | the cap is reached if and only if the start is the cap or the first increase has an effect, and then within cap minus base increases |

## Left out

- Restarts inside the cluster: replicas there live once; what a restart keeps and forgets, and when it leads to a second vote, is proved for one replica.
- Byzantine senders: the handlers rely on well-formed messages, and the repository's own fault model is crash faults.
- Interleaving inside a handler: each handler is one atomic step, as under one processing loop; only the `go` calls run apart.
- Liveness and real time: timer expiry, message loss, `WaitForMinBlockTime` and the commit delay are free choices of the environment.
- The BLS path and the internals of both signature schemes.
- `NewVote`'s clock: the timestamp is whatever the environment gives; the 60-second window of `Vote.Verify` is checked against a free clock, for times below 2^63 milliseconds.
- `PutQC` failures in `onProposal` and `onNewView`, which the code ignores, and the order of `Put` calls within one storage.
- `SafeNode` and two-chain checks of the detector, `RecordQC`, and the detector call inside the delay interceptor: one comparison or one call each.
- Detector.ViolationDetector.RecordVote: a violation keeps its kind, node, view and the two clashing records (who, view or height, block, node), not its description; an injected one names no records.
- QuorumCert.NewQC: does not say which of several errors is returned.
- Pacemaker.Pacemaker.IncreaseTimeout: the multiplier is a fraction, not a float64, and durations do not overflow 63 bits.
- Configuration plumbing, hooks, logging, statistics, getters, `timer/`, the twins executor and generator, and the demos.
