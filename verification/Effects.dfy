/** What one event does to a replica, told by what can be observed of it afterwards: its view, what is
    stored, sent, signed and created, and which calls are pending. */
module Effects {
  import opened Types
  import opened ContextSpec
  import opened Replica
  import opened ReplicaProperties
  import QuorumCert
  import ReplicaHistory
  import Votes

  /** Checking for a certificate moves nothing but certificates, commits and pending calls. */
  lemma TryFormQCFrame(cfg: Config, s: Node, view: uint32, node: Hash, env: Env)
    ensures var t := TryFormQC(cfg, s, view, node, env);
      && t == s.(ctx := s.ctx.(qcs := t.ctx.qcs, lockedQC := t.ctx.lockedQC, highQC := t.ctx.highQC,
                               committed := t.ctx.committed),
                 storedLock := t.storedLock, commits := t.commits, tasks := t.tasks)
      && NotAbove(s.ctx.lockedQC, t.ctx.lockedQC) && NotAbove(s.ctx.highQC, t.ctx.highQC)
      && (t.storedLock == s.storedLock || t.storedLock == t.ctx.lockedQC) && s.tasks <= t.tasks
      && (forall h :: h in s.ctx.qcs ==> h in t.ctx.qcs && (h != node ==> t.ctx.qcs[h] == s.ctx.qcs[h]))
  {
    hide UseQC, VotesList, QuorumCert.Form, QuorumCert.Valid;
    var q := FormQC(cfg, view, node, VotesFor(s.ctx, view, node));
    if |VotesFor(s.ctx, view, node)| >= cfg.Quorum() && q.Some? {
      FormedFor(cfg, view, node, VotesFor(s.ctx, view, node));
      UseQCKeeps(cfg, s, q.value, env);
      UseQCStores(cfg, s, q.value, env);
    }
  }

  lemma UseQCStores(cfg: Config, s: Node, qc: QC, env: Env)
    ensures var t := UseQC(cfg, s, qc, env); t.storedLock == s.storedLock || t.storedLock == t.ctx.lockedQC
  {
    hide CheckCommit;
    var s1 := s.(ctx := AddQC(s.ctx, qc));
    var s2 := Lock(s1.(ctx := UpdateHighQC(s1.ctx, Some(qc))), qc, env);
    if qc.node in s2.ctx.blocks && s2.ctx.blocks[qc.node].prevHash in s2.ctx.blocks {
      CheckCommitKeeps(s2, s2.ctx.blocks[s2.ctx.blocks[qc.node].prevHash], qc);
    }
  }

  lemma FormedFor(cfg: Config, view: uint32, node: Hash, m: map<uint16, Vote>)
    requires FormQC(cfg, view, node, m).Some?
    ensures FormQC(cfg, view, node, m).value.view == view && FormQC(cfg, view, node, m).value.node == node
  {
    hide QuorumCert.Valid;
  }

  /** Storing a vote and checking for a certificate: the vote is filed, everything else as above. */
  lemma CountVoteFrame(cfg: Config, s: Node, v: Vote, env: Env)
    ensures var t := TryFormQC(cfg, s.(ctx := AddVote(s.ctx, v)), v.view, v.node, env);
      && t == s.(ctx := s.ctx.(votes := t.ctx.votes, qcs := t.ctx.qcs, lockedQC := t.ctx.lockedQC,
                               highQC := t.ctx.highQC, committed := t.ctx.committed),
                 storedLock := t.storedLock, commits := t.commits, tasks := t.tasks)
      && Files(s.ctx, t.ctx, v) && s.tasks <= t.tasks
      && NotAbove(s.ctx.lockedQC, t.ctx.lockedQC) && NotAbove(s.ctx.highQC, t.ctx.highQC)
      && (t.storedLock == s.storedLock || t.storedLock == t.ctx.lockedQC) && s.tasks <= t.tasks
      && (forall h :: h in s.ctx.qcs ==> h in t.ctx.qcs && (h != v.node ==> t.ctx.qcs[h] == s.ctx.qcs[h]))
  {
    hide TryFormQC, AddVote, Files;
    AddVoteFiles(s.ctx, v);
    TryFormQCFrame(cfg, s.(ctx := AddVote(s.ctx, v)), v.view, v.node, env);
    SameFiles(s.ctx, AddVote(s.ctx, v), TryFormQC(cfg, s.(ctx := AddVote(s.ctx, v)), v.view, v.node, env).ctx, v);
  }

  /** The stored votes are those of before and v, which replaces an earlier vote of its validator for
      the same block and view. */
  ghost predicate Files(c: Ctx, d: Ctx, v: Vote) {
    forall view, node :: VotesFor(d, view, node) ==
      if view == v.view && node == v.node then VotesFor(c, view, node)[v.validator := v] else VotesFor(c, view, node)
  }

  lemma AddVoteFiles(c: Ctx, v: Vote)
    ensures AddVote(c, v) == c.(votes := AddVote(c, v).votes) && Files(c, AddVote(c, v), v)
  {}

  lemma SameFiles(c: Ctx, d: Ctx, e: Ctx, v: Vote)
    requires Files(c, d, v) && d.votes == e.votes
    ensures Files(c, e, v)
  {
    forall view, node ensures VotesFor(e, view, node) == VotesFor(d, view, node) {
      assert VotesIn(e, view) == VotesIn(d, view);
    }
  }

  /** A vote of the validator in the view is stored, for whatever block. */
  ghost predicate Voted(c: Ctx, view: uint32, i: uint16) { exists node :: i in VotesFor(c, view, node) }

  lemma VotedIs(c: Ctx, view: uint32, i: uint16)
    ensures Voted(c, view, i) <==> HasVoted(c, view, i)
  {
    if HasVoted(c, view, i) {
      var node :| node in VotesIn(c, view) && i in VotesIn(c, view)[node];
      assert i in VotesFor(c, view, node);
    }
    if Voted(c, view, i) {
      var node :| i in VotesFor(c, view, node);
      assert node in VotesIn(c, view) && i in VotesIn(c, view)[node];
    }
  }

  // ---- Proposals ----

  /** A proposal of a later view, on a certificate no lower than the high certificate. */
  predicate CatchesUp(s: Node, view: uint32, justify: Option<QC>) {
    && view > s.ctx.view && justify.Some?
    && (s.ctx.highQC.None? || justify.value.view >= s.ctx.highQC.value.view)
  }

  /** A certificate above the high certificate; one of view 0 is not above none. */
  predicate RaisesHigh(s: Node, justify: Option<QC>) {
    justify.Some? && justify.value.view > if s.ctx.highQC.Some? then s.ctx.highQC.value.view else 0
  }

  predicate RaisesLock(s: Node, justify: Option<QC>) {
    justify.Some? && (s.ctx.lockedQC.None? || justify.value.view > s.ctx.lockedQC.value.view)
  }

  /** The block is new to a replica that may vote for it: of the view the replica is in, or catches
      up to, which it does not lead and has not voted in. */
  ghost predicate TakesUp(cfg: Config, s: Node, view: uint32, justify: Option<QC>, env: Env) {
    && (view == s.ctx.view || CatchesUp(s, view, justify))
    && cfg.leader(view) != cfg.me && !Voted(s.ctx, view, cfg.me) && env.accept && env.verifyOk
  }

  /** The block extends the lock, once it is stored itself, or its certificate is above the lock. */
  ghost predicate Extends(s: Node, b: Block, justify: Option<QC>) {
    || s.ctx.lockedQC.None? || RaisesLock(s, justify)
    || Reaches(s.ctx.parents[b.hash := b.prevHash], b.hash, s.ctx.lockedQC.value.node)
  }

  /** At most a thousand parent links lead from the block to the ancestor. */
  ghost predicate Reaches(parents: map<Hash, Hash>, from: Hash, to: Hash) {
    exists k: nat :: k <= 1000 && Up(parents, from, k) == Some(to)
  }

  /** The signed vote for a block: its signature is over the digest of the other fields. */
  function SignedVote(cfg: Config, view: uint32, node: Hash, time: uint64): Vote {
    Vote(view, node, cfg.me, cfg.sign(Votes.DigestOf(view, node, cfg.me, time)), time)
  }

  lemma SyncMoves(s: Node, view: uint32, justify: Option<QC>, env: Env)
    ensures var t := SyncToProposal(s, view, justify, env);
      if CatchesUp(s, view, justify)
      then && t.ctx.view == view && t.storedView == (if env.putView then view else s.storedView)
           && t.ctx.highQC == (if RaisesHigh(s, justify) then justify else s.ctx.highQC)
           && t.ctx.qcs == (if RaisesHigh(s, justify) then s.ctx.qcs[justify.value.node := justify.value] else s.ctx.qcs)
           && t == s.(ctx := s.ctx.(view := view, highQC := t.ctx.highQC, qcs := t.ctx.qcs), storedView := t.storedView)
      else t == s
  {}

  /** The replica signs a vote for the block: nothing stops it on the way, and if the certificate raised
      the lock, the new lock is in storage. */
  ghost predicate Signs(s: Node, b: Block, justify: Option<QC>, env: Env) {
    env.putBlock && Extends(s, b, justify) && (RaisesLock(s, justify) ==> env.putLock) && env.signed.Some?
  }

  lemma ExtendsIsSafe(s: Node, b: Block, justify: Option<QC>)
    ensures SafeToVote(AddBlock(s.ctx, b), b, justify) <==> Extends(s, b, justify)
  {}

  /** Locking the certificate of the block. */
  lemma LockJustifyMoves(s: Node, justify: Option<QC>, env: Env)
    ensures var t := LockJustify(s, justify, env);
      && t.ctx.lockedQC == (if RaisesLock(s, justify) then justify else s.ctx.lockedQC)
      && t.storedLock == (if RaisesLock(s, justify) && env.putLock then justify else s.storedLock)
      && t == s.(ctx := s.ctx.(lockedQC := t.ctx.lockedQC, qcs := t.ctx.qcs), storedLock := t.storedLock)
      && (forall h :: h in s.ctx.qcs ==>
            h in t.ctx.qcs && (t.ctx.qcs[h] == s.ctx.qcs[h] || Some(t.ctx.qcs[h]) == justify))
      && (justify.Some? ==> justify.value.node in t.ctx.qcs)
  {}

  lemma VoteOnEffects(cfg: Config, s: Node, view: uint32, b: Block, justify: Option<QC>, env: Env)
    ensures var t := VoteOn(cfg, s, view, b, justify, env);
      && t.ctx.view == s.ctx.view && t.storedView == s.storedView && t.made == s.made && t.horizon == s.horizon
      && t.ctx.blocks == s.ctx.blocks[b.hash := b] && t.ctx.parents == s.ctx.parents[b.hash := b.prevHash]
      && t.ctx.newviews == s.ctx.newviews && NotAbove(s.ctx.highQC, t.ctx.highQC)
      && (forall h :: h in s.ctx.qcs ==>
            h in t.ctx.qcs && (h == b.hash || t.ctx.qcs[h] == s.ctx.qcs[h] || Some(t.ctx.qcs[h]) == justify))
      && (env.putBlock && Extends(s, b, justify) ==>
            NotAbove(justify, t.ctx.lockedQC) && (justify.Some? ==> justify.value.node in t.ctx.qcs))
      && (Signs(s, b, justify, env) ==>
            var v := SignedVote(cfg, view, b.hash, env.signed.value);
            && t.sent == s.sent + [VoteMsg(view, cfg.me, v)] && Files(s.ctx, t.ctx, v)
            && t.casts == s.casts + [Cast(view, b.hash, true, justify, s.ctx.lockedQC,
                                          if RaisesLock(s, justify) then justify else s.ctx.lockedQC, s.horizon)]
            && (RaisesLock(s, justify) ==> NotAbove(justify, t.storedLock)))
      && (!Signs(s, b, justify, env) ==>
            t.sent == s.sent && t.casts == s.casts && t.tasks == s.tasks && t.commits == s.commits
            && t.ctx.votes == s.ctx.votes && t.ctx.highQC == s.ctx.highQC)
  {
    hide TryFormQC, AddVote, SafeToVote, Extends, LockJustify, Files, NotAbove;
    ExtendsIsSafe(s, b, justify);
    var s1 := s.(ctx := AddBlock(s.ctx, b));
    var s2 := LockJustify(s1, justify, env);
    LockJustifyMoves(s1, justify, env);
    JustifyIsRaised(s, justify);
    if Signs(s, b, justify, env) {
      var v := SignedVote(cfg, view, b.hash, env.signed.value);
      var c := Cast(view, b.hash, true, justify, s.ctx.lockedQC, s2.ctx.lockedQC, s2.horizon);
      var s3 := Send(s2, VoteMsg(view, cfg.me, v)).(casts := s2.casts + [c]);
      var t := TryFormQC(cfg, s3.(ctx := AddVote(s3.ctx, v)), v.view, v.node, env);
      CountVoteFrame(cfg, s3, v, env);
      assert t == VoteOn(cfg, s, view, b, justify, env);
      FromSame(s.ctx, s3.ctx, t.ctx, v);
      NotAboveChain(justify, s2.ctx.lockedQC, t.ctx.lockedQC);
      NotAboveSame(justify);
    }
    NotAboveSame(s.ctx.highQC);
  }

  lemma JustifyIsRaised(s: Node, justify: Option<QC>)
    ensures NotAbove(justify, if RaisesLock(s, justify) then justify else s.ctx.lockedQC)
  {}

  lemma NotAboveSame(p: Option<QC>)
    ensures NotAbove(p, p)
  {}

  lemma NotAboveChain(p: Option<QC>, q: Option<QC>, r: Option<QC>)
    requires NotAbove(p, q) && NotAbove(q, r)
    ensures NotAbove(p, r)
  {}

  lemma FromSame(b: Ctx, c: Ctx, d: Ctx, v: Vote)
    requires b.votes == c.votes && Files(c, d, v)
    ensures Files(b, d, v)
  {
    forall view, node ensures VotesFor(b, view, node) == VotesFor(c, view, node) {
      assert VotesIn(b, view) == VotesIn(c, view);
    }
  }

  /** What a proposal does to a replica that it makes catch up, or does not concern. */
  lemma ProposalMoves(cfg: Config, s: Node, view: uint32, sender: uint16, b: Block, justify: Option<QC>, env: Env)
    ensures var t := Handle(cfg, s, Deliver(Propose(view, sender, b, justify)), env);
      && t.made == s.made && t.horizon == s.horizon && t.ctx.newviews == s.ctx.newviews
      && t.ctx.view == (if CatchesUp(s, view, justify) then view else s.ctx.view)
      && t.storedView == (if CatchesUp(s, view, justify) && env.putView then view else s.storedView)
      && NotAbove(s.ctx.highQC, t.ctx.highQC)
      && (CatchesUp(s, view, justify) && RaisesHigh(s, justify) ==>
            var node := justify.value.node; node in t.ctx.qcs && (node == b.hash || t.ctx.qcs[node] == justify.value))
      && (CatchesUp(s, view, justify) && (s.ctx.highQC.Some? || justify.value.view > 0) ==> NotAbove(justify, t.ctx.highQC))
      && (view != s.ctx.view && !CatchesUp(s, view, justify) ==> t == s)
  {
    hide VoteOn, SyncToProposal, HasVoted, Voted, Extends, Files;
    var s1 := SyncToProposal(s, view, justify, env);
    SyncMoves(s, view, justify, env);
    VoteOnEffects(cfg, s1, view, b, justify, env);
  }

  /** A proposal is voted for exactly when the replica may vote in its view, the SafeNode rule holds
      and nothing fails on the way; the vote is signed, broadcast and counted, once. */
  lemma ProposalVotesExactly(cfg: Config, s: Node, view: uint32, sender: uint16, b: Block, justify: Option<QC>, env: Env)
    ensures var t := Handle(cfg, s, Deliver(Propose(view, sender, b, justify)), env);
      if TakesUp(cfg, s, view, justify, env) && Signs(s, b, justify, env)
      then var v := SignedVote(cfg, view, b.hash, env.signed.value);
           && t.sent == s.sent + [VoteMsg(view, cfg.me, v)] && Files(s.ctx, t.ctx, v)
           && t.casts == s.casts + [Cast(view, b.hash, true, justify, s.ctx.lockedQC,
                                         if RaisesLock(s, justify) then justify else s.ctx.lockedQC, s.horizon)]
           && NotAbove(justify, t.ctx.lockedQC) && (RaisesLock(s, justify) ==> NotAbove(justify, t.storedLock))
      else t.sent == s.sent && t.casts == s.casts && t.tasks == s.tasks && t.commits == s.commits
           && t.ctx.votes == s.ctx.votes
  {
    hide VoteOn, SyncToProposal, HasVoted, Voted, Extends, NotAbove, Files;
    var s1 := SyncToProposal(s, view, justify, env);
    SyncMoves(s, view, justify, env);
    SameVotes(s, s1, view, cfg.me);
    VotedIs(s.ctx, view, cfg.me);
    SameExtends(s, s1, b, justify);
    VoteOnEffects(cfg, s1, view, b, justify, env);
    var t := Handle(cfg, s, Deliver(Propose(view, sender, b, justify)), env);
    if TakesUp(cfg, s, view, justify, env) && Signs(s, b, justify, env) {
      FromSame(s.ctx, s1.ctx, t.ctx, SignedVote(cfg, view, b.hash, env.signed.value));
    }
  }

  lemma SameExtends(s: Node, t: Node, b: Block, justify: Option<QC>)
    requires s.ctx.lockedQC == t.ctx.lockedQC && s.ctx.parents == t.ctx.parents
    ensures Extends(s, b, justify) <==> Extends(t, b, justify)
  {}

  /** Its block is stored exactly by a replica that takes it up, before the SafeNode rule is applied. */
  lemma ProposalStoresExactly(cfg: Config, s: Node, view: uint32, sender: uint16, b: Block, justify: Option<QC>, env: Env)
    ensures var t := Handle(cfg, s, Deliver(Propose(view, sender, b, justify)), env);
      if TakesUp(cfg, s, view, justify, env)
      then t.ctx.blocks == s.ctx.blocks[b.hash := b] && t.ctx.parents == s.ctx.parents[b.hash := b.prevHash]
           && (env.putBlock && Extends(s, b, justify) ==>
                 NotAbove(justify, t.ctx.lockedQC) && (justify.Some? ==> justify.value.node in t.ctx.qcs))
      else t.ctx.blocks == s.ctx.blocks && t.ctx.parents == s.ctx.parents
           && t.ctx.lockedQC == s.ctx.lockedQC && t.storedLock == s.storedLock
  {
    hide VoteOn, SyncToProposal, HasVoted, Voted, Extends, NotAbove;
    var s1 := SyncToProposal(s, view, justify, env);
    SyncMoves(s, view, justify, env);
    SameVotes(s, s1, view, cfg.me);
    VotedIs(s.ctx, view, cfg.me);
    SameExtends(s, s1, b, justify);
    VoteOnEffects(cfg, s1, view, b, justify, env);
  }

  // ---- Votes and certificates ----

  /** A known validator signed the vote, and its timestamp is 0 or within a minute of the clock, before
      or after it; times are in milliseconds. */
  predicate Counts(cfg: Config, v: Vote, now: uint64) {
    && v.validator in cfg.validators.keys
    && cfg.validators.verify(cfg.validators.keys[v.validator],
                             Votes.DigestOf(v.view, v.node, v.validator, v.timestamp), v.signature)
    && (v.timestamp == 0 || -60000 <= now as int - v.timestamp <= 60000)
  }

  /** A delivered vote is filed exactly if it counts, and does nothing else short of a quorum. */
  lemma VoteCountsExactly(cfg: Config, s: Node, view: uint32, sender: uint16, v: Vote, env: Env)
    ensures var t := Handle(cfg, s, Deliver(VoteMsg(view, sender, v)), env);
      if Counts(cfg, v, env.now)
      then && Files(s.ctx, t.ctx, v)
           && t.ctx.view == s.ctx.view && t.storedView == s.storedView && t.ctx.newviews == s.ctx.newviews
           && t.ctx.blocks == s.ctx.blocks && t.ctx.parents == s.ctx.parents
           && t.sent == s.sent && t.casts == s.casts && t.made == s.made && t.horizon == s.horizon
           && (|VotesFor(t.ctx, v.view, v.node)| < 2 * cfg.validators.f + 1 ==>
                 t == s.(ctx := s.ctx.(votes := t.ctx.votes)))
      else t == s
  {
    hide FormQC, UseQC, AddVote, Files;
    CountVoteFrame(cfg, s, v, env);
    AddVoteFiles(s.ctx, v);
    var s1 := s.(ctx := AddVote(s.ctx, v));
    var t := TryFormQC(cfg, s1, v.view, v.node, env);
    TryFormQCQuiet(cfg, s1, v.view, v.node, env);
    SameVotesFor(s1.ctx, t.ctx, v.view, v.node);
  }

  lemma SameVotesFor(c: Ctx, d: Ctx, view: uint32, node: Hash)
    requires c.votes == d.votes
    ensures VotesFor(c, view, node) == VotesFor(d, view, node)
  {
    assert VotesIn(c, view) == VotesIn(d, view);
  }

  /** The block the certificate of view `view` for `node` commits: the parent, if its height is free and
      it was certified in the view just before, or is an uncertified genesis block followed in view 1. */
  predicate Commits(c: Ctx, node: Hash, view: uint32) {
    && node in c.blocks && c.blocks[node].prevHash in c.blocks
    && var b := c.blocks[c.blocks[node].prevHash];
    && b.hash == c.blocks[node].prevHash && b.height !in c.committed
    && if b.hash in c.qcs then view == Succ32(c.qcs[b.hash].view) else b.height == 0 && view == 1
  }

  /** The certificate is stored, and raises high certificate and lock. */
  ghost predicate Certs(s: Node, t: Node, qc: QC, env: Env) {
    && t.ctx.qcs == s.ctx.qcs[qc.node := qc]
    && t.ctx.highQC == (if s.ctx.highQC.None? || qc.view > s.ctx.highQC.value.view then Some(qc) else s.ctx.highQC)
    && t.ctx.lockedQC == (if RaisesLock(s, Some(qc)) then Some(qc) else s.ctx.lockedQC)
    && t.storedLock == (if RaisesLock(s, Some(qc)) && env.putLock then Some(qc) else s.storedLock)
  }

  /** What the certificate, once stored, commits. */
  ghost predicate Decides(s: Node, t: Node, qc: QC) {
    var c := s.ctx.(qcs := t.ctx.qcs);
    if Commits(c, qc.node, qc.view)
    then var b := c.blocks[c.blocks[qc.node].prevHash];
         var r := CommitRecord(b, c.blocks[qc.node], qc, if b.hash in c.qcs then Some(c.qcs[b.hash]) else None);
         t.ctx.committed == s.ctx.committed[b.height := b] && t.commits == s.commits + [r]
    else t.ctx.committed == s.ctx.committed && t.commits == s.commits
  }

  /** What a replica does with a certificate it formed: if the certificate cannot be put into storage,
      it is only kept in memory. */
  ghost predicate Uses(cfg: Config, s: Node, t: Node, qc: QC, env: Env) {
    if !env.putQC then t == s.(ctx := s.ctx.(votes := t.ctx.votes, qcs := s.ctx.qcs[qc.node := qc])) else
    && Certs(s, t, qc, env) && Decides(s, t, qc)
    && t.tasks == s.tasks + (if cfg.leader(Succ32(qc.view)) == cfg.me then [Advance(Succ32(qc.view), qc)] else [])
  }

  lemma UseQCUses(cfg: Config, s: Node, qc: QC, env: Env)
    ensures Uses(cfg, s, UseQC(cfg, s, qc, env), qc, env)
  {
    hide Commits;
    if env.putQC {
      var s3, s4 := UseQCStages(cfg, s, qc, env);
      hide UseQC;
      SameCommits(s.ctx.(qcs := s3.ctx.qcs), s3.ctx, qc);
      assert Certs(s, s4, qc, env) && Decides(s, s4, qc);
    }
  }

  /** The certificate raised, then the commit, then the pending call. */
  lemma UseQCStages(cfg: Config, s: Node, qc: QC, env: Env) returns (s3: Node, s4: Node)
    requires env.putQC
    ensures s3 == s.(ctx := s.ctx.(qcs := s3.ctx.qcs, highQC := s3.ctx.highQC, lockedQC := s3.ctx.lockedQC),
                     storedLock := s3.storedLock)
    ensures Certs(s, s3, qc, env) && qc.node in s3.ctx.qcs
    ensures s4 == s3.(ctx := s3.ctx.(committed := s4.ctx.committed), commits := s4.commits) && Decides(s3, s4, qc)
    ensures UseQC(cfg, s, qc, env) ==
            s4.(tasks := s4.tasks + (if cfg.leader(Succ32(qc.view)) == cfg.me then [Advance(Succ32(qc.view), qc)] else []))
  {
    hide CheckCommit, Decides, Lock, Certs;
    var s1 := s.(ctx := AddQC(s.ctx, qc));
    s3 := Lock(s1.(ctx := UpdateHighQC(s1.ctx, Some(qc))), qc, env);
    CertStage(s, qc, env);
    assert s3.ctx.qcs == s.ctx.qcs[qc.node := qc];
    CommitStage(s3, qc);
    s4 := if qc.node in s3.ctx.blocks && s3.ctx.blocks[qc.node].prevHash in s3.ctx.blocks
          then CheckCommit(s3, s3.ctx.blocks[s3.ctx.blocks[qc.node].prevHash], qc) else s3;
  }

  lemma CertStage(s: Node, qc: QC, env: Env)
    ensures var s1 := s.(ctx := AddQC(s.ctx, qc));
      var t := Lock(s1.(ctx := UpdateHighQC(s1.ctx, Some(qc))), qc, env);
      && Certs(s, t, qc, env)
      && t == s.(ctx := s.ctx.(qcs := t.ctx.qcs, highQC := t.ctx.highQC, lockedQC := t.ctx.lockedQC),
                 storedLock := t.storedLock)
  {}

  lemma CommitStage(s: Node, qc: QC)
    requires qc.node in s.ctx.qcs && s.ctx.qcs[qc.node] == qc
    ensures var t := if qc.node in s.ctx.blocks && s.ctx.blocks[qc.node].prevHash in s.ctx.blocks
                     then CheckCommit(s, s.ctx.blocks[s.ctx.blocks[qc.node].prevHash], qc) else s;
      && t == s.(ctx := s.ctx.(committed := t.ctx.committed), commits := t.commits) && Decides(s, t, qc)
  {}

  lemma SameCommits(c: Ctx, d: Ctx, qc: QC)
    requires c.blocks == d.blocks && c.committed == d.committed && c.qcs == d.qcs
    ensures Commits(c, qc.node, qc.view) == Commits(d, qc.node, qc.view)
  {}

  /** A vote that completes a quorum: the certificate formed is stored, raises lock and high
      certificate, commits by the two-chain rule, and the leader of the next view, nobody else, is left
      with the advance to that view. */
  lemma QuorumCertifies(cfg: Config, s: Node, view: uint32, sender: uint16, v: Vote, env: Env, qc: QC)
    requires Counts(cfg, v, env.now)
    requires var m := VotesFor(s.ctx, v.view, v.node)[v.validator := v];
      |m| >= cfg.Quorum() && FormQC(cfg, v.view, v.node, m) == Some(qc)
    ensures qc.view == v.view && qc.node == v.node
    ensures Uses(cfg, s, Handle(cfg, s, Deliver(VoteMsg(view, sender, v)), env), qc, env)
  {
    hide FormQC, UseQC, AddVote, Uses;
    AddVoteFiles(s.ctx, v);
    FormedFor(cfg, v.view, v.node, VotesFor(s.ctx, v.view, v.node)[v.validator := v]);
    var s1 := s.(ctx := AddVote(s.ctx, v));
    UseQCUses(cfg, s1, qc, env);
    UsesToo(cfg, s, s1, UseQC(cfg, s1, qc, env), qc, env);
  }

  lemma UsesToo(cfg: Config, s: Node, s1: Node, t: Node, qc: QC, env: Env)
    requires s1 == s.(ctx := s.ctx.(votes := s1.ctx.votes)) && Uses(cfg, s1, t, qc, env)
    ensures Uses(cfg, s, t, qc, env)
  {}

  /** In every run of a replica whose own key is registered, the vote that makes the stored votes of
      distinct validators for a block 2f+1 yields a valid certificate that is used in this way. */
  lemma QuorumAlwaysCertifies(cfg: Config, b: ReplicaHistory.Start, states: seq<Node>, steps: seq<Step>, k: nat,
      view: uint32, sender: uint16, v: Vote) returns (qc: QC)
    requires ReplicaHistory.KeysOk(cfg) && QuorumCert.ChecksSize(cfg.validators) && |cfg.validators.keys| < 0x1_0000
    requires ReplicaHistory.Life(cfg, b, states, steps)
    requires k < |steps| && steps[k].input == Deliver(VoteMsg(view, sender, v))
    requires Counts(cfg, v, steps[k].env.now)
    requires |VotesFor(states[k].ctx, v.view, v.node)[v.validator := v]| >= 2 * cfg.validators.f + 1
    ensures qc.view == v.view && qc.node == v.node && QuorumCert.Valid(qc, cfg.validators)
    ensures Uses(cfg, states[k], states[k + 1], qc, steps[k].env)
  {
    hide Handle, QuorumCert.Valid, QuorumCert.Form, ReplicaHistory.KeysOk, Uses, Files, ReplicaHistory.Fresh;
    var s, t, env := states[k], states[k + 1], steps[k].env;
    assert Follows(cfg, s, steps[k], t);
    VoteCountsExactly(cfg, s, view, sender, v, env);
    var m := VotesFor(s.ctx, v.view, v.node)[v.validator := v];
    FiledFor(s.ctx, t.ctx, v);
    var listed := VotesList(m);
    ReplicaHistory.QuorumFormsQC(cfg, b, states, steps, k + 1, v.view, v.node, listed);
    qc := FormQC(cfg, v.view, v.node, m).value;
    QuorumCertifies(cfg, s, view, sender, v, env, qc);
  }

  lemma FiledFor(c: Ctx, d: Ctx, v: Vote)
    requires Files(c, d, v)
    ensures VotesFor(d, v.view, v.node) == VotesFor(c, v.view, v.node)[v.validator := v]
  {}

  // ---- Proposing ----

  /** The block a leader creates on a certificate: its parent is the certified block, one height lower
      if it is stored; without a certificate, or above an unknown block, the height is 1. */
  function BlockOn(c: Ctx, justify: Option<QC>, h: Hash): Block {
    match justify
    case None => Block(h, 1, ZERO_HASH)
    case Some(q) => Block(h, if q.node in c.blocks then Succ32(c.blocks[q.node].height) else 1, q.node)
  }

  /** t is s after `announced` was sent and a block proposed in the view on the certificate: created,
      stored, broadcast, and with one implicit vote for it signed and filed but not sent. */
  ghost predicate Proposes(cfg: Config, s: Node, announced: seq<Msg>, t: Node, view: uint32, justify: Option<QC>,
                           env: Env)
    requires env.created.Some?
  {
    var b := BlockOn(s.ctx, justify, env.created.value);
    && t.made == s.made + [Made(view, b, justify)]
    && t.ctx.blocks == s.ctx.blocks[b.hash := b] && t.ctx.parents == s.ctx.parents[b.hash := b.prevHash]
    && t.sent == s.sent + announced + (if env.putBlock then [Propose(view, cfg.me, b, justify)] else [])
    && if env.putBlock && env.signed.Some? && (cfg.gated ==> Gate(cfg, s, view, b, justify, env))
       then var lock := if cfg.gated && RaisesLock(s, justify) then justify else s.ctx.lockedQC;
            && t.casts == s.casts + [Cast(view, b.hash, false, justify, s.ctx.lockedQC, lock, t.horizon)]
            && VotesFor(t.ctx, view, b.hash) ==
               VotesFor(s.ctx, view, b.hash)[cfg.me := SignedVote(cfg, view, b.hash, env.signed.value)]
       else t.casts == s.casts
  }

  /** What a gated leader checks before its implicit vote. */
  ghost predicate Gate(cfg: Config, s: Node, view: uint32, b: Block, justify: Option<QC>, env: Env) {
    && !Voted(s.ctx, view, cfg.me) && Extends(s, b, justify) && (RaisesLock(s, justify) ==> env.putLock)
  }

  lemma SameGate(cfg: Config, s: Node, t: Node, view: uint32, b: Block, justify: Option<QC>, env: Env)
    requires VotesIn(s.ctx, view) == VotesIn(t.ctx, view)
    requires s.ctx.lockedQC == t.ctx.lockedQC && s.ctx.parents == t.ctx.parents
    ensures Gate(cfg, s, view, b, justify, env) <==> Gate(cfg, t, view, b, justify, env)
  {
    assert forall node :: VotesFor(s.ctx, view, node) == VotesFor(t.ctx, view, node);
  }

  /** Nothing was created or signed, and only `announced` was sent. */
  ghost predicate Silent(s: Node, announced: seq<Msg>, t: Node) {
    t.made == s.made && t.casts == s.casts && t.sent == s.sent + announced
    && t.ctx.blocks == s.ctx.blocks && t.ctx.parents == s.ctx.parents
  }

  /** Nothing was undone: the certificates are no lower and the pending calls still pend. */
  ghost predicate Grew(s: Node, t: Node) {
    && t.ctx.view == s.ctx.view && t.storedView == s.storedView && t.horizon == s.horizon
    && t.ctx.newviews == s.ctx.newviews && s.tasks <= t.tasks
    && NotAbove(s.ctx.highQC, t.ctx.highQC) && NotAbove(s.ctx.lockedQC, t.ctx.lockedQC)
    && forall h :: h in s.ctx.qcs ==> h in t.ctx.qcs
  }

  lemma GrewOn(s: Node, t: Node, u: Node)
    requires Grew(s, t) && Grew(t, u)
    ensures Grew(s, u)
  {}

  /** No block was stored and nothing sent. */
  ghost predicate Kept(s: Node, t: Node) {
    t.made == s.made && t.sent == s.sent && t.ctx.blocks == s.ctx.blocks && t.ctx.parents == s.ctx.parents
  }

  lemma LeaderVoteFrame(cfg: Config, s: Node, view: uint32, node: Hash, justify: Option<QC>, lockBefore: Option<QC>,
                        env: Env)
    ensures var t := LeaderVote(cfg, s, view, node, justify, lockBefore, env);
      && Grew(s, t) && Kept(s, t)
      && if env.signed.Some?
         then && t.casts == s.casts + [Cast(view, node, false, justify, lockBefore, s.ctx.lockedQC, s.horizon)]
              && VotesFor(t.ctx, view, node) ==
                 VotesFor(s.ctx, view, node)[cfg.me := SignedVote(cfg, view, node, env.signed.value)]
         else t == s
  {
    hide TryFormQC, AddVote, Files;
    if env.signed.Some? {
      var v := SignedVote(cfg, view, node, env.signed.value);
      var s1 := s.(casts := s.casts + [Cast(view, node, false, justify, lockBefore, s.ctx.lockedQC, s.horizon)]);
      CountVoteFrame(cfg, s1, v, env);
      FiledFor(s.ctx, LeaderVote(cfg, s, view, node, justify, lockBefore, env).ctx, v);
    }
  }

  lemma GatedVoteFrame(cfg: Config, s: Node, view: uint32, b: Block, justify: Option<QC>, env: Env)
    requires b.hash in s.ctx.parents && s.ctx.parents[b.hash] == b.prevHash
    ensures var t := GatedVote(cfg, s, view, b, justify, env);
      && Grew(s, t) && Kept(s, t)
      && if env.signed.Some? && Gate(cfg, s, view, b, justify, env)
         then && t.casts == s.casts + [Cast(view, b.hash, false, justify, s.ctx.lockedQC,
                                            if RaisesLock(s, justify) then justify else s.ctx.lockedQC, s.horizon)]
              && VotesFor(t.ctx, view, b.hash) ==
                 VotesFor(s.ctx, view, b.hash)[cfg.me := SignedVote(cfg, view, b.hash, env.signed.value)]
         else t.casts == s.casts
  {
    hide LeaderVote, SafeToVote, HasVoted, Voted, LockJustify, Extends, VotesFor;
    var s1 := LockJustify(s, justify, env);
    LockJustifyMoves(s, justify, env);
    LeaderVoteFrame(cfg, s1, view, b.hash, justify, s.ctx.lockedQC, env);
    SafeStored(s, b, justify);
    VotedIs(s.ctx, view, cfg.me);
    assert Grew(s, s1);
    SameVotesFor(s.ctx, s1.ctx, view, b.hash);
    GrewOn(s, s1, LeaderVote(cfg, s1, view, b.hash, justify, s.ctx.lockedQC, env));
  }

  lemma SafeStored(s: Node, b: Block, justify: Option<QC>)
    requires b.hash in s.ctx.parents && s.ctx.parents[b.hash] == b.prevHash
    ensures SafeToVote(s.ctx, b, justify) <==> Extends(s, b, justify)
  {
    assert s.ctx.parents[b.hash := b.prevHash] == s.ctx.parents;
  }

  lemma SameExtendsStored(s: Node, t: Node, b: Block, justify: Option<QC>)
    requires s.ctx.lockedQC == t.ctx.lockedQC && t.ctx.parents == s.ctx.parents[b.hash := b.prevHash]
    ensures Extends(s, b, justify) <==> Extends(t, b, justify)
  {
    assert t.ctx.parents[b.hash := b.prevHash] == t.ctx.parents;
  }

  lemma ProposeOnEffects(cfg: Config, s: Node, view: uint32, justify: Option<QC>, env: Env)
    ensures var t := ProposeOn(cfg, s, view, justify, env);
      Grew(s, t) && if env.created.Some? then Proposes(cfg, s, [], t, view, justify, env) else t == s
  {
    hide LeaderVote, GatedVote, VotesFor;
    if env.created.Some? && env.putBlock {
      var b := BlockOn(s.ctx, justify, env.created.value);
      var s1 := s.(ctx := AddBlock(s.ctx, b), made := s.made + [Made(view, b, justify)]);
      var s2 := Send(s1, Propose(view, cfg.me, b, justify));
      assert Grew(s, s2);
      hide Grew, HasVoted, Voted, Extends;
      SameVotesFor(s.ctx, s2.ctx, view, b.hash);
      if cfg.gated {
        SameVotes(s, s2, view, cfg.me);
        VotedIs(s.ctx, view, cfg.me);
        VotedIs(s2.ctx, view, cfg.me);
        SameExtendsStored(s, s2, b, justify);
        GatedVoteFrame(cfg, s2, view, b, justify, env);
        GrewOn(s, s2, GatedVote(cfg, s2, view, b, justify, env));
      } else {
        LeaderVoteFrame(cfg, s2, view, b.hash, justify, s2.ctx.lockedQC, env);
        GrewOn(s, s2, LeaderVote(cfg, s2, view, b.hash, justify, s2.ctx.lockedQC, env));
      }
    }
  }

  /** The pending propose call: the leader of the present view proposes on the high certificate. */
  lemma StartProposes(cfg: Config, s: Node, i: nat, env: Env)
    requires i < |s.tasks| && s.tasks[i] == StartProposing
    ensures var t := Handle(cfg, s, Fire(i), env);
      && t.ctx.view == s.ctx.view && t.storedView == s.storedView && t.ctx.newviews == s.ctx.newviews
      && (|t.tasks| >= |s.tasks| - 1 && t.tasks[..|s.tasks| - 1] == s.tasks[..i] + s.tasks[i + 1..])
      && if cfg.leader(s.ctx.view) == cfg.me && env.created.Some?
         then Proposes(cfg, s, [], t, s.ctx.view, s.ctx.highQC, env) else Silent(s, [], t)
  {
    hide ProposeOn, Proposes;
    var s1 := DropTask(s, i);
    ProposeOnEffects(cfg, s1, s.ctx.view, s.ctx.highQC, env);
    if env.created.Some? {
      ProposesToo(cfg, s, s1, [], ProposeOn(cfg, s1, s.ctx.view, s.ctx.highQC, env), s.ctx.view, s.ctx.highQC, env);
    }
  }

  // ---- NEWVIEW messages ----

  /** A certificate of the highest view among those sent, or none if none was. */
  ghost predicate Best(m: map<uint16, Option<QC>>, best: Option<QC>) {
    && (best.Some? ==> exists i :: i in m && m[i] == best)
    && forall i :: i in m && m[i].Some? ==> best.Some? && m[i].value.view <= best.value.view
  }

  lemma HighestIsBest(m: map<uint16, Option<QC>>, hint: Option<QC>)
    ensures Best(m, HighestQC(m, hint))
  {}

  /** A leader that went past the view goes back if the NEWVIEWs for it now are a quorum and it has
      not voted in it. */
  ghost predicate GoesBack(cfg: Config, s: Node, view: uint32, sender: uint16, qc: Option<QC>) {
    && view < s.ctx.view && cfg.leader(view) == cfg.me && !Voted(s.ctx, view, cfg.me)
    && |NewViewsIn(s.ctx, view)[sender := qc]| >= 2 * cfg.validators.f + 1
  }

  /** The NEWVIEWs for the view after one is received: its own, and the replica's if it follows. */
  function Received(cfg: Config, s: Node, view: uint32, sender: uint16, qc: Option<QC>): map<uint16, Option<QC>> {
    var m := NewViewsIn(s.ctx, view)[sender := qc];
    if CatchesUp(s, view, qc) then m[cfg.me := Raise(s.ctx.highQC, qc)] else m
  }

  /** The leader of the view is in it, has a quorum of NEWVIEWs, and gets a block. */
  ghost predicate Leads(cfg: Config, s: Node, view: uint32, sender: uint16, qc: Option<QC>, env: Env) {
    && cfg.leader(view) == cfg.me && env.created.Some?
    && (view == s.ctx.view || CatchesUp(s, view, qc) || GoesBack(cfg, s, view, sender, qc))
    && |Received(cfg, s, view, sender, qc)| >= 2 * cfg.validators.f + 1
  }

  /** A NEWVIEW is recorded and its certificate stored, perhaps as high certificate; the replica follows
      it forward, or as its leader goes back, and moves no further. */
  lemma NewViewMoves(cfg: Config, s: Node, view: uint32, sender: uint16, qc: Option<QC>, env: Env)
    ensures var t := Handle(cfg, s, Deliver(NewView(view, sender, qc)), env);
      var moves := CatchesUp(s, view, qc) || GoesBack(cfg, s, view, sender, qc);
      && t.ctx.view == (if moves then view else s.ctx.view)
      && t.storedView == (if moves && env.putView then view else s.storedView)
      && t.ctx.newviews == s.ctx.newviews[view := Received(cfg, s, view, sender, qc)]
      && NotAbove(Raise(s.ctx.highQC, qc), t.ctx.highQC) && (qc.Some? ==> qc.value.node in t.ctx.qcs)
  {
    hide ProposeOn, Proposes, HasVoted, Voted, NotAbove, GoesBack, CatchesUp, Raise, Received, OnNewView, Announced;
    var s2 := NewViewStages(cfg, s, view, sender, qc, env);
    NotAboveSame(Raise(s.ctx.highQC, qc));
    var best := HighestQC(Received(cfg, s, view, sender, qc), env.hint);
    ProposeOnEffects(cfg, s2, view, if best.Some? then best else s2.ctx.highQC, env);
  }

  /** After a NEWVIEW exactly a leader in its view with a quorum of NEWVIEWs proposes, on a highest of
      the certificates sent; a replica that followed has announced itself before. */
  lemma NewViewProposesExactly(cfg: Config, s: Node, view: uint32, sender: uint16, qc: Option<QC>, env: Env)
    ensures var t := Handle(cfg, s, Deliver(NewView(view, sender, qc)), env);
      var announced := Announced(cfg, s, view, qc);
      if Leads(cfg, s, view, sender, qc, env)
      then exists best ::
             && Best(Received(cfg, s, view, sender, qc), best)
             && Proposes(cfg, s, announced, t, view, if best.Some? then best else Raise(s.ctx.highQC, qc), env)
      else Silent(s, announced, t) && t.ctx.votes == s.ctx.votes && t.tasks == s.tasks
           && t.ctx.highQC == Raise(s.ctx.highQC, qc)
  {
    hide ProposeOn, Proposes, IsHighest, Best, HasVoted, Voted, GoesBack, CatchesUp;
    hide Raise, Received, OnNewView, Announced, Grew;
    var s2 := NewViewStages(cfg, s, view, sender, qc, env);
    if cfg.IsLeader(view) && view == s2.ctx.view && |Received(cfg, s, view, sender, qc)| >= cfg.Quorum() {
      var best := HighestQC(Received(cfg, s, view, sender, qc), env.hint);
      HighestIsBest(Received(cfg, s, view, sender, qc), env.hint);
      var justify := if best.Some? then best else s2.ctx.highQC;
      ProposeOnEffects(cfg, s2, view, justify, env);
      if env.created.Some? {
        ProposesToo(cfg, s, s2, Announced(cfg, s, view, qc), ProposeOn(cfg, s2, view, justify, env), view, justify, env);
      }
    }
  }

  /** The state in which a NEWVIEW has been tracked and the replica moved where it moves, before anything
      is proposed. */
  ghost predicate Moved(cfg: Config, s: Node, t: Node, view: uint32, sender: uint16, qc: Option<QC>, moves: bool,
                        env: Env) {
    && t == s.(ctx := s.ctx.(view := if moves then view else s.ctx.view,
                             newviews := s.ctx.newviews[view := Received(cfg, s, view, sender, qc)],
                             highQC := Raise(s.ctx.highQC, qc), qcs := t.ctx.qcs),
               storedView := if moves && env.putView then view else s.storedView,
               sent := s.sent + Announced(cfg, s, view, qc))
    && (qc.Some? ==> qc.value.node in t.ctx.qcs)
  }

  /** What a replica that follows a NEWVIEW broadcasts. */
  function Announced(cfg: Config, s: Node, view: uint32, qc: Option<QC>): seq<Msg> {
    if CatchesUp(s, view, qc) then [NewView(view, cfg.me, Raise(s.ctx.highQC, qc))] else []
  }

  lemma NewViewStages(cfg: Config, s: Node, view: uint32, sender: uint16, qc: Option<QC>, env: Env) returns (s2: Node)
    ensures Moved(cfg, s, s2, view, sender, qc, CatchesUp(s, view, qc) || GoesBack(cfg, s, view, sender, qc), env)
    ensures OnNewView(cfg, s, view, sender, qc, env) ==
            if cfg.IsLeader(view) && view == s2.ctx.view && |Received(cfg, s, view, sender, qc)| >= cfg.Quorum()
            then var best := HighestQC(Received(cfg, s, view, sender, qc), env.hint);
                 ProposeOn(cfg, s2, view, if best.Some? then best else s2.ctx.highQC, env)
            else s2
  {
    hide ProposeOn, HasVoted, Voted, HighestQC, SyncForward, TrackNewView, SyncBack, Moved, Received, GoesBack;
    var s1 := SyncForward(cfg, TrackNewView(s, view, sender, qc), view, qc, env);
    ForwardMoves(cfg, s, view, sender, qc, env);
    s2 := if cfg.IsLeader(view) then SyncBack(cfg, s1, view, env) else s1;
    BackMoves(cfg, s, s1, view, sender, qc, env);
    assert s2.ctx.newviews == s.ctx.newviews[view := Received(cfg, s, view, sender, qc)] by {
      MovedNewViews(cfg, s, s2, view, sender, qc, CatchesUp(s, view, qc) || GoesBack(cfg, s, view, sender, qc), env);
    }
  }

  lemma MovedNewViews(cfg: Config, s: Node, t: Node, view: uint32, sender: uint16, qc: Option<QC>, moves: bool, env: Env)
    requires Moved(cfg, s, t, view, sender, qc, moves, env)
    ensures t.ctx.newviews == s.ctx.newviews[view := Received(cfg, s, view, sender, qc)]
  {}

  lemma BackMoves(cfg: Config, s: Node, s1: Node, view: uint32, sender: uint16, qc: Option<QC>, env: Env)
    requires Moved(cfg, s, s1, view, sender, qc, CatchesUp(s, view, qc), env)
    ensures Moved(cfg, s, if cfg.IsLeader(view) then SyncBack(cfg, s1, view, env) else s1, view, sender, qc,
                  CatchesUp(s, view, qc) || GoesBack(cfg, s, view, sender, qc), env)
  {
    hide HasVoted, Voted, Announced, Raise;
    SameVotes(s, s1, view, cfg.me);
    VotedIs(s.ctx, view, cfg.me);
  }

  lemma ForwardMoves(cfg: Config, s: Node, view: uint32, sender: uint16, qc: Option<QC>, env: Env)
    ensures Moved(cfg, s, SyncForward(cfg, TrackNewView(s, view, sender, qc), view, qc, env), view, sender, qc,
                  CatchesUp(s, view, qc), env)
  {
    hide TrackNewView, Raise;
    var t0 := TrackNewView(s, view, sender, qc);
    TrackMoves(s, view, sender, qc);
    var m := NewViewsIn(s.ctx, view)[sender := qc];
    if CatchesUp(s, view, qc) {
      assert t0.ctx.newviews[view := m[cfg.me := t0.ctx.highQC]] == s.ctx.newviews[view := m[cfg.me := t0.ctx.highQC]];
    } else {
      assert s.sent + [] == s.sent;
    }
  }

  lemma TrackMoves(s: Node, view: uint32, sender: uint16, qc: Option<QC>)
    ensures var t := TrackNewView(s, view, sender, qc);
      && t == s.(ctx := s.ctx.(newviews := t.ctx.newviews, highQC := Raise(s.ctx.highQC, qc), qcs := t.ctx.qcs))
      && t.ctx.newviews == s.ctx.newviews[view := NewViewsIn(s.ctx, view)[sender := qc]]
      && NewViewsIn(t.ctx, view) == NewViewsIn(s.ctx, view)[sender := qc]
      && (qc.Some? ==> qc.value.node in t.ctx.qcs)
      && (t.ctx.highQC.Some? ==> s.ctx.highQC.Some? || qc.Some?)
      && (qc.Some? ==> (qc.value.view >= ViewOrZero(t.ctx.highQC) <==>
                          s.ctx.highQC.None? || qc.value.view >= s.ctx.highQC.value.view))
  {}

  lemma ProposesToo(cfg: Config, s: Node, s2: Node, announced: seq<Msg>, t: Node, view: uint32, justify: Option<QC>,
                    env: Env)
    requires env.created.Some? && Proposes(cfg, s2, [], t, view, justify, env)
    requires s2.made == s.made && s2.casts == s.casts && s2.sent == s.sent + announced && s2.ctx.blocks == s.ctx.blocks
    requires s2.ctx.parents == s.ctx.parents && s2.ctx.lockedQC == s.ctx.lockedQC && s2.ctx.votes == s.ctx.votes
    ensures Proposes(cfg, s, announced, t, view, justify, env)
  {
    var b := BlockOn(s.ctx, justify, env.created.value);
    hide Gate;
    SameVotesFor(s.ctx, s2.ctx, view, b.hash);
    assert VotesIn(s.ctx, view) == VotesIn(s2.ctx, view);
    SameGate(cfg, s, s2, view, b, justify, env);
    assert s2.sent + [] == s.sent + announced;
  }

  /** A NEWVIEW takes a leader back exactly to a view with a quorum in which it has not voted, and for an
      earlier view in which it has voted no NEWVIEW makes it propose again. */
  lemma NewViewGoesBackExactly(cfg: Config, s: Node, view: uint32, sender: uint16, qc: Option<QC>, env: Env)
    ensures var t := Handle(cfg, s, Deliver(NewView(view, sender, qc)), env);
      && (t.ctx.view < s.ctx.view <==>
            && view < s.ctx.view && cfg.leader(view) == cfg.me && !Voted(s.ctx, view, cfg.me)
            && |NewViewsIn(s.ctx, view)[sender := qc]| >= 2 * cfg.validators.f + 1)
      && (t.ctx.view < s.ctx.view ==> t.ctx.view == view)
      && (view < s.ctx.view && Voted(s.ctx, view, cfg.me) ==>
            t.ctx.view == s.ctx.view && t.made == s.made && t.casts == s.casts && t.sent == s.sent)
  {
    hide Handle, HasVoted, Voted, Proposes, Received, Raise;
    assert s.sent + [] == s.sent;
    NewViewMoves(cfg, s, view, sender, qc, env);
    NewViewProposesExactly(cfg, s, view, sender, qc, env);
  }

  // ---- View changes ----

  /** The timeout of the present view, and no other, takes the replica to the next: its own NEWVIEW is
      counted and broadcast, older views are forgotten, and a leader with a quorum proposes. */
  lemma TimeoutExactly(cfg: Config, s: Node, view: uint32, env: Env)
    ensures var t := Handle(cfg, s, Timeout(view), env);
      var next: uint32 := if view == 0xFFFF_FFFF then 0 else view + 1;
      var received := NewViewsIn(s.ctx, next)[cfg.me := s.ctx.highQC];
      var announced := [NewView(next, cfg.me, s.ctx.highQC)];
      if view != s.ctx.view then t == s else
      && t.ctx.view == next && t.storedView == (if env.putView then next else s.storedView)
      && KeepsNewViews(s.ctx.newviews[next := received], t.ctx.newviews, next)
      && if cfg.leader(next) == cfg.me && env.created.Some? && |received| >= 2 * cfg.validators.f + 1
         then exists best :: Best(received, best)
                             && Proposes(cfg, s, announced, t, next, if best.Some? then best else s.ctx.highQC, env)
         else Silent(s, announced, t) && KeepsFrom(s.ctx, t.ctx, next)
  {
    hide ProposeOn, Proposes, IsHighest, Best, HighestQC, AdvanceView, KeepsNewViews, KeepsFrom;
    if view == s.ctx.view {
      var next := Succ32(view);
      var s2 := AdvanceStages(cfg, s, next, env);
      var received := NewViewsIn(s.ctx, next)[cfg.me := s.ctx.highQC];
      if cfg.IsLeader(next) && |received| >= cfg.Quorum() {
        var best := HighestQC(received, env.hint);
        HighestIsBest(received, env.hint);
        var justify := if best.Some? then best else s.ctx.highQC;
        ProposeOnEffects(cfg, s2, next, justify, env);
        if env.created.Some? {
          var announced := [NewView(next, cfg.me, s.ctx.highQC)];
          PrunedProposes(cfg, s, s2, announced, ProposeOn(cfg, s2, next, justify, env), next, justify, env);
        }
      }
    }
  }

  /** The replica is in the next view and has announced it, before anything is proposed. */
  lemma AdvanceStages(cfg: Config, s: Node, next: uint32, env: Env) returns (s2: Node)
    ensures var received := NewViewsIn(s.ctx, next)[cfg.me := s.ctx.highQC];
      && s2 == s.(ctx := s.ctx.(view := next, votes := s2.ctx.votes, newviews := s2.ctx.newviews),
                  storedView := if env.putView then next else s.storedView,
                  sent := s.sent + [NewView(next, cfg.me, s.ctx.highQC)], horizon := s2.horizon)
      && KeepsFrom(s.ctx, s2.ctx, next) && KeepsNewViews(s.ctx.newviews[next := received], s2.ctx.newviews, next)
      && AdvanceView(cfg, s, next, env) ==
         if cfg.IsLeader(next) && |received| >= cfg.Quorum()
         then var best := HighestQC(received, env.hint);
              ProposeOn(cfg, s2, next, if best.Some? then best else s.ctx.highQC, env)
         else s2
  {
    hide ProposeOn, IsHighest, HighestQC, PruneVotes, KeepsFrom;
    var s1 := EnterView(s, next, env);
    PrunesOld(s1.ctx, next);
    assert NewViewsIn(s1.ctx, next) == NewViewsIn(s.ctx, next);
    s2 := AnnounceView(cfg, Prune(s1, next), next);
    assert s2.ctx.newviews[next] == NewViewsIn(s.ctx, next)[cfg.me := s.ctx.highQC];
    SameKeeps(s.ctx, s1.ctx, Prune(s1, next).ctx, s2.ctx, next);
  }

  lemma SameKeeps(a: Ctx, b: Ctx, c: Ctx, d: Ctx, view: uint32)
    requires a.votes == b.votes && c.votes == d.votes && KeepsFrom(b, c, view)
    ensures KeepsFrom(a, d, view)
  {}

  /** The votes of views at most ten below the given one are kept, the others forgotten. */
  ghost predicate KeepsFrom(c: Ctx, d: Ctx, view: uint32) {
    && (forall v :: v in d.votes <==> v in c.votes && v + 10 >= view)
    && (forall v :: v in d.votes ==> d.votes[v] == c.votes[v])
  }

  /** Likewise for the NEWVIEWs. */
  ghost predicate KeepsNewViews(m: map<uint32, map<uint16, Option<QC>>>, n: map<uint32, map<uint16, Option<QC>>>,
                                view: uint32) {
    (forall v :: v in n <==> v in m && v + 10 >= view) && forall v :: v in n ==> n[v] == m[v]
  }

  lemma PrunesOld(c: Ctx, view: uint32)
    ensures var d := PruneVotes(c, view);
      && d == c.(votes := d.votes, newviews := d.newviews)
      && KeepsFrom(c, d, view) && KeepsNewViews(c.newviews, d.newviews, view)
      && NewViewsIn(d, view) == NewViewsIn(c, view)
  {}

  lemma PrunedProposes(cfg: Config, s: Node, s2: Node, announced: seq<Msg>, t: Node, view: uint32, justify: Option<QC>,
                       env: Env)
    requires env.created.Some? && Proposes(cfg, s2, [], t, view, justify, env)
    requires s2.made == s.made && s2.casts == s.casts && s2.sent == s.sent + announced && s2.ctx.blocks == s.ctx.blocks
    requires s2.ctx.parents == s.ctx.parents && s2.ctx.lockedQC == s.ctx.lockedQC && KeepsFrom(s.ctx, s2.ctx, view)
    ensures Proposes(cfg, s, announced, t, view, justify, env)
  {
    var b := BlockOn(s.ctx, justify, env.created.value);
    hide Gate;
    assert VotesIn(s.ctx, view) == VotesIn(s2.ctx, view);
    SameGate(cfg, s, s2, view, b, justify, env);
    assert s2.sent + [] == s.sent + announced;
  }

  /** The pending advance: the replica enters the view, forgets older ones, and exactly its leader is
      left with a proposal to make. */
  lemma AdvanceExactly(cfg: Config, s: Node, i: nat, env: Env)
    requires i < |s.tasks| && s.tasks[i].Advance?
    ensures var t := Handle(cfg, s, Fire(i), env);
      var view := s.tasks[i].view;
      && t.ctx.view == view && t.storedView == (if env.putView then view else s.storedView)
      && t.tasks == s.tasks[..i] + s.tasks[i + 1..] + (if cfg.leader(view) == cfg.me then [StartProposing] else [])
      && KeepsFrom(s.ctx, t.ctx, view) && KeepsNewViews(s.ctx.newviews, t.ctx.newviews, view) && Silent(s, [], t)
      && t.ctx.lockedQC == s.ctx.lockedQC && t.ctx.highQC == s.ctx.highQC && t.ctx.qcs == s.ctx.qcs
  {
    hide PruneVotes;
    PrunesOld(s.ctx.(view := s.tasks[i].view), s.tasks[i].view);
  }
}
