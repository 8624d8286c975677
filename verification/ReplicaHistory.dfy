/** What a replica's runs leave behind: commits, locks, storage and stored votes, whatever messages,
    timeouts and storage failures it meets. */
module ReplicaHistory {
  import opened Types
  import opened ContextSpec
  import opened Replica
  import opened ReplicaProperties
  import QuorumCert
  import Quorums

  // ---- The invariants ----

  /** Blocks and certificates are stored under the hashes they are for. */
  ghost predicate Keyed(blocks: map<Hash, Block>, qcs: map<Hash, QC>) {
    (forall h :: h in blocks ==> blocks[h].hash == h) && (forall h :: h in qcs ==> qcs[h].node == h)
  }

  ghost predicate VoteFits(cfg: Config, view: uint32, node: Hash, i: uint16, v: Vote) {
    v.view == view && v.node == node && v.validator == i && QuorumCert.Authentic(v, cfg.validators)
  }

  /** Every stored vote is filed where it belongs and bears its validator's signature. */
  ghost predicate VotesAuthentic(cfg: Config, votes: map<uint32, map<Hash, map<uint16, Vote>>>) {
    forall v, h, i :: v in votes && h in votes[v] && i in votes[v][h] ==> VoteFits(cfg, v, h, i, votes[v][h][i])
  }

  /** The two-chain witness of a commit. */
  ghost predicate Witnessed(cfg: Config, r: CommitRecord) {
    && r.child.prevHash == r.block.hash && r.childQC.node == r.child.hash
    && QuorumCert.Valid(r.childQC, cfg.validators)
    && match r.blockQC
       case None => r.block.height == 0 && r.childQC.view == 1
       case Some(q) => q.node == r.block.hash && r.childQC.view == Succ32(q.view)
  }

  ghost predicate AllWitnessed(cfg: Config, commits: seq<CommitRecord>) {
    forall k :: 0 <= k < |commits| ==> Witnessed(cfg, commits[k])
  }

  /** The child that justified each commit is stored. */
  ghost predicate ChildrenStored(blocks: map<Hash, Block>, commits: seq<CommitRecord>) {
    forall k :: 0 <= k < |commits| ==> commits[k].child.hash in blocks
  }

  /** The committed blocks are those of the start and one per commit, each at its own height. */
  ghost predicate CommitsFit(base: map<uint32, Block>, committed: map<uint32, Block>, commits: seq<CommitRecord>) {
    && (forall h :: h in base ==> h in committed && committed[h] == base[h])
    && (forall k :: 0 <= k < |commits| ==> var b := commits[k].block;
          b.height !in base && b.height in committed && committed[b.height] == b)
    && (forall k, l :: 0 <= k < l < |commits| ==> commits[k].block.height != commits[l].block.height)
    && (forall h :: h in committed ==> h in base || exists k :: 0 <= k < |commits| && commits[k].block.height == h)
  }

  ghost predicate Good(cfg: Config, base: map<uint32, Block>, s: Node) {
    && Keyed(s.ctx.blocks, s.ctx.qcs)
    && CommitsFit(base, s.ctx.committed, s.commits) && AllWitnessed(cfg, s.commits)
    && ChildrenStored(s.ctx.blocks, s.commits)
  }

  /** Locks and high certificates are no lower, and no commit is undone. */
  ghost predicate Later(s: Node, t: Node) {
    && NotAbove(s.ctx.lockedQC, t.ctx.lockedQC) && NotAbove(s.ctx.highQC, t.ctx.highQC)
    && s.commits <= t.commits
  }

  /** Storage holds the present view, and any lock taken since the start; `start` is the lock the
      replica started with and `kept` the one storage held then. */
  ghost predicate Durable(start: Option<QC>, kept: Option<QC>, s: Node) {
    && s.storedView == s.ctx.view
    && (s.storedLock == s.ctx.lockedQC || (s.ctx.lockedQC == start && s.storedLock == kept))
  }

  /** The storage calls of a step succeed. */
  predicate Reliable(env: Env) { env.putView && env.putLock }

  datatype Frame = Frame(cfg: Config, base: map<uint32, Block>, start: Option<QC>, kept: Option<QC>)

  /** The replica's own key is registered and its signatures verify. */
  ghost predicate KeysOk(cfg: Config) {
    cfg.me in cfg.validators.keys && forall d :: cfg.validators.verify(cfg.validators.keys[cfg.me], d, cfg.sign(d))
  }

  /** What every step keeps. Only the signatures of stored votes turn on the replica's own key. */
  ghost predicate Onward(f: Frame, env: Env, s: Node, t: Node) {
    && (Good(f.cfg, f.base, s) ==> Good(f.cfg, f.base, t))
    && Later(s, t)
    && (Reliable(env) && Durable(f.start, f.kept, s) ==> Durable(f.start, f.kept, t))
    && (KeysOk(f.cfg) && VotesAuthentic(f.cfg, s.ctx.votes) ==> VotesAuthentic(f.cfg, t.ctx.votes))
  }

  lemma OnwardTransitive(f: Frame, env: Env, s: Node, t: Node, u: Node)
    requires Onward(f, env, s, t) && Onward(f, env, t, u)
    ensures Onward(f, env, s, u)
  {
    hide Good, Durable, VotesAuthentic, KeysOk;
  }

  // ---- The small changes ----

  /** A change of the view only, with its storage. */
  lemma EnterOnward(f: Frame, env: Env, s: Node, view: uint32)
    ensures Onward(f, env, s, EnterView(s, view, env))
  {
    hide KeysOk, Keyed, VotesAuthentic, CommitsFit, AllWitnessed, ChildrenStored;
  }

  lemma PruneOnward(f: Frame, env: Env, s: Node, view: uint32)
    ensures Onward(f, env, s, Prune(s, view))
  {
    hide KeysOk, Keyed, VoteFits, CommitsFit, AllWitnessed, ChildrenStored;
  }

  /** Messages, NEWVIEW records, tasks and histories of votes and blocks do not matter here. */
  lemma SideOnward(f: Frame, env: Env, s: Node, t: Node)
    requires t.ctx == s.ctx.(newviews := t.ctx.newviews)
    requires t == s.(ctx := t.ctx, sent := t.sent, tasks := t.tasks, casts := t.casts, made := t.made)
    ensures Onward(f, env, s, t)
  {
    hide KeysOk, Keyed, VotesAuthentic, CommitsFit, AllWitnessed, ChildrenStored;
  }

  lemma QCOnward(f: Frame, env: Env, s: Node, qc: QC)
    ensures Onward(f, env, s, s.(ctx := AddQC(s.ctx, qc)))
    ensures Onward(f, env, s, s.(ctx := UpdateHighQC(s.ctx, Some(qc))))
    ensures Onward(f, env, s, Lock(s, qc, env))
  {
    hide KeysOk, VotesAuthentic, CommitsFit, AllWitnessed, ChildrenStored;
  }

  lemma AddBlockOnward(f: Frame, env: Env, s: Node, b: Block)
    ensures Onward(f, env, s, s.(ctx := AddBlock(s.ctx, b)))
  {
    hide KeysOk, VotesAuthentic, CommitsFit, AllWitnessed;
  }

  lemma AddVoteOnward(f: Frame, env: Env, s: Node, v: Vote)
    requires KeysOk(f.cfg) ==> QuorumCert.Authentic(v, f.cfg.validators)
    ensures Onward(f, env, s, s.(ctx := AddVote(s.ctx, v)))
  {
    hide KeysOk, QuorumCert.Authentic, Keyed, CommitsFit, AllWitnessed, ChildrenStored;
  }

  lemma CommitsFitMore(base: map<uint32, Block>, committed: map<uint32, Block>, commits: seq<CommitRecord>,
      r: CommitRecord)
    requires CommitsFit(base, committed, commits) && r.block.height !in committed
    ensures CommitsFit(base, committed[r.block.height := r.block], commits + [r])
  {
    var more := commits + [r];
    forall h | h in committed[r.block.height := r.block]
      ensures h in base || exists k :: 0 <= k < |more| && more[k].block.height == h
    {
      if h == r.block.height {
        assert more[|commits|].block.height == h;
      } else if h !in base {
        var k :| 0 <= k < |commits| && commits[k].block.height == h;
        assert more[k].block.height == h;
      }
    }
  }

  lemma CommitOnward(f: Frame, env: Env, s: Node, b: Block, qc: QC)
    requires QuorumCert.Valid(qc, f.cfg.validators)
    ensures Onward(f, env, s, CheckCommit(s, b, qc))
  {
    hide KeysOk, QuorumCert.Valid, VotesAuthentic, CommitsFit;
    var t := CheckCommit(s, b, qc);
    if Good(f.cfg, f.base, s) && t != s {
      CommitsFitMore(f.base, s.ctx.committed, s.commits, t.commits[|s.commits|]);
    }
  }

  /** checkCommit commits exactly when the height is free and the two-chain rule of CanCommit holds. */
  lemma CheckCommitExactly(s: Node, b: Block, qc: QC)
    ensures var t := CheckCommit(s, b, qc);
      if b.height !in s.ctx.committed && CanCommit(s.ctx, b, qc)
      then t.ctx == Commit(s.ctx, b) && t.commits == s.commits + [t.commits[|s.commits|]] && t.commits[|s.commits|].block == b
      else t == s
  {}

  // ---- The handlers ----

  lemma UseQCOnward(f: Frame, env: Env, s: Node, qc: QC)
    requires QuorumCert.Valid(qc, f.cfg.validators)
    ensures Onward(f, env, s, UseQC(f.cfg, s, qc, env))
  {
    hide Onward, QuorumCert.Valid, CheckCommit;
    var s1 := s.(ctx := AddQC(s.ctx, qc));
    QCOnward(f, env, s, qc);
    if env.putQC {
      var s2 := s1.(ctx := UpdateHighQC(s1.ctx, Some(qc)));
      QCOnward(f, env, s1, qc);
      OnwardTransitive(f, env, s, s1, s2);
      var s3 := Lock(s2, qc, env);
      QCOnward(f, env, s2, qc);
      OnwardTransitive(f, env, s, s2, s3);
      if qc.node in s3.ctx.blocks && s3.ctx.blocks[qc.node].prevHash in s3.ctx.blocks {
        var s4 := CheckCommit(s3, s3.ctx.blocks[s3.ctx.blocks[qc.node].prevHash], qc);
        CommitOnward(f, env, s3, s3.ctx.blocks[s3.ctx.blocks[qc.node].prevHash], qc);
        OnwardTransitive(f, env, s, s3, s4);
        AdvancePending(f, env, s, s4, qc);
      } else {
        AdvancePending(f, env, s, s3, qc);
      }
    }
  }

  lemma AdvancePending(f: Frame, env: Env, s: Node, t: Node, qc: QC)
    requires Onward(f, env, s, t)
    ensures Onward(f, env, s, t.(tasks := t.tasks + [Advance(Succ32(qc.view), qc)]))
  {
    hide Onward;
    var u := t.(tasks := t.tasks + [Advance(Succ32(qc.view), qc)]);
    SideOnward(f, env, t, u);
    OnwardTransitive(f, env, s, t, u);
  }

  lemma TryFormQCOnward(f: Frame, env: Env, s: Node, view: uint32, node: Hash)
    ensures Onward(f, env, s, TryFormQC(f.cfg, s, view, node, env))
  {
    hide Onward, UseQC, QuorumCert.Form, QuorumCert.Valid;
    var q := FormQC(f.cfg, view, node, VotesFor(s.ctx, view, node));
    if |VotesFor(s.ctx, view, node)| >= f.cfg.Quorum() && q.Some? {
      UseQCOnward(f, env, s, q.value);
    } else {
      SideOnward(f, env, s, s);
    }
  }

  lemma SignedIsAuthentic(cfg: Config, view: uint32, node: Hash, time: uint64)
    ensures KeysOk(cfg) ==> QuorumCert.Authentic(SignVote(cfg, view, node, time), cfg.validators)
  {}

  lemma CastVoteOnward(f: Frame, env: Env, s: Node, view: uint32, block: Block, justify: Option<QC>,
      lockBefore: Option<QC>)
    ensures Onward(f, env, s, CastVote(f.cfg, s, view, block, justify, lockBefore, env))
  {
    hide Onward, KeysOk, TryFormQC, AddVote, SignVote, QuorumCert.Authentic;
    if env.signed.None? {
      SideOnward(f, env, s, s);
    } else {
      var v := SignVote(f.cfg, view, block.hash, env.signed.value);
      SignedIsAuthentic(f.cfg, view, block.hash, env.signed.value);
      var c := Cast(view, block.hash, true, justify, lockBefore, s.ctx.lockedQC, s.horizon);
      var s1 := Send(s, VoteMsg(view, f.cfg.me, v)).(casts := s.casts + [c]);
      SideOnward(f, env, s, s1);
      var s2 := s1.(ctx := AddVote(s1.ctx, v));
      AddVoteOnward(f, env, s1, v);
      OnwardTransitive(f, env, s, s1, s2);
      TryFormQCOnward(f, env, s2, view, block.hash);
      OnwardTransitive(f, env, s, s2, TryFormQC(f.cfg, s2, view, block.hash, env));
    }
  }

  lemma LockJustifyOnward(f: Frame, env: Env, s: Node, justify: Option<QC>)
    ensures Onward(f, env, s, LockJustify(s, justify, env))
  {
    hide Onward, AddQC, Lock;
    if justify.Some? {
      var s1 := s.(ctx := AddQC(s.ctx, justify.value));
      QCOnward(f, env, s, justify.value);
      QCOnward(f, env, s1, justify.value);
      OnwardTransitive(f, env, s, s1, Lock(s1, justify.value, env));
    } else {
      SideOnward(f, env, s, s);
    }
  }

  lemma VoteOnOnward(f: Frame, env: Env, s: Node, view: uint32, block: Block, justify: Option<QC>)
    ensures Onward(f, env, s, VoteOn(f.cfg, s, view, block, justify, env))
  {
    hide Onward, KeysOk, CastVote, SafeToVote, AddBlock, LockJustify;
    var s1 := s.(ctx := AddBlock(s.ctx, block));
    AddBlockOnward(f, env, s, block);
    var s2 := LockJustify(s1, justify, env);
    LockJustifyOnward(f, env, s1, justify);
    OnwardTransitive(f, env, s, s1, s2);
    CastVoteOnward(f, env, s2, view, block, justify, s1.ctx.lockedQC);
    OnwardTransitive(f, env, s, s2, CastVote(f.cfg, s2, view, block, justify, s1.ctx.lockedQC, env));
  }

  lemma OnProposalOnward(f: Frame, env: Env, s: Node, view: uint32, block: Block, justify: Option<QC>)
    ensures Onward(f, env, s, OnProposal(f.cfg, s, view, block, justify, env))
  {
    hide Onward, KeysOk, VoteOn, EnterView, AddQC, UpdateHighQC, Considers;
    var s1 := SyncToProposal(s, view, justify, env);
    SideOnward(f, env, s, s);
    if s1 != s {
      var s0 := EnterView(s, view, env);
      EnterOnward(f, env, s, view);
      var h := s0.(ctx := UpdateHighQC(s0.ctx, justify));
      QCOnward(f, env, s0, justify.value);
      QCOnward(f, env, h, justify.value);
      OnwardTransitive(f, env, s, s0, h);
      OnwardTransitive(f, env, s, h, h.(ctx := AddQC(h.ctx, justify.value)));
    }
    VoteOnOnward(f, env, s1, view, block, justify);
    OnwardTransitive(f, env, s, s1, VoteOn(f.cfg, s1, view, block, justify, env));
  }

  lemma LeaderVoteOnward(f: Frame, env: Env, s: Node, view: uint32, node: Hash, justify: Option<QC>, lockBefore: Option<QC>)
    ensures Onward(f, env, s, LeaderVote(f.cfg, s, view, node, justify, lockBefore, env))
  {
    hide Onward, KeysOk, TryFormQC, AddVote, SignVote, QuorumCert.Authentic;
    SideOnward(f, env, s, s);
    if env.signed.Some? {
      var v := SignVote(f.cfg, view, node, env.signed.value);
      SignedIsAuthentic(f.cfg, view, node, env.signed.value);
      var s1 := s.(casts := s.casts + [Cast(view, node, false, justify, lockBefore, s.ctx.lockedQC, s.horizon)]);
      SideOnward(f, env, s, s1);
      var s2 := s1.(ctx := AddVote(s1.ctx, v));
      AddVoteOnward(f, env, s1, v);
      OnwardTransitive(f, env, s, s1, s2);
      TryFormQCOnward(f, env, s2, view, node);
      OnwardTransitive(f, env, s, s2, TryFormQC(f.cfg, s2, view, node, env));
    }
  }

  lemma GatedVoteOnward(f: Frame, env: Env, s: Node, view: uint32, block: Block, justify: Option<QC>)
    ensures Onward(f, env, s, GatedVote(f.cfg, s, view, block, justify, env))
  {
    hide Onward, KeysOk, LeaderVote, LockJustify, SafeToVote, HasVoted;
    SideOnward(f, env, s, s);
    var s1 := LockJustify(s, justify, env);
    LockJustifyOnward(f, env, s, justify);
    LeaderVoteOnward(f, env, s1, view, block.hash, justify, s.ctx.lockedQC);
    OnwardTransitive(f, env, s, s1, LeaderVote(f.cfg, s1, view, block.hash, justify, s.ctx.lockedQC, env));
  }

  lemma ProposeOnOnward(f: Frame, env: Env, s: Node, view: uint32, justify: Option<QC>)
    ensures Onward(f, env, s, ProposeOn(f.cfg, s, view, justify, env))
  {
    hide Onward, KeysOk, LeaderVote, GatedVote, AddBlock, NewBlock;
    SideOnward(f, env, s, s);
    if env.created.Some? {
      var h := env.created.value;
      var block := NewBlock(s.ctx, justify, h);
      var s0 := s.(made := s.made + [Made(view, block, justify)]);
      SideOnward(f, env, s, s0);
      var s1 := s0.(ctx := AddBlock(s0.ctx, block));
      AddBlockOnward(f, env, s0, block);
      OnwardTransitive(f, env, s, s0, s1);
      var s2 := Send(s1, Propose(view, f.cfg.me, block, justify));
      SideOnward(f, env, s1, s2);
      OnwardTransitive(f, env, s, s1, s2);
      if f.cfg.gated {
        GatedVoteOnward(f, env, s2, view, block, justify);
        OnwardTransitive(f, env, s, s2, GatedVote(f.cfg, s2, view, block, justify, env));
      } else {
        LeaderVoteOnward(f, env, s2, view, h, justify, s2.ctx.lockedQC);
        OnwardTransitive(f, env, s, s2, LeaderVote(f.cfg, s2, view, h, justify, s2.ctx.lockedQC, env));
      }
    }
  }

  lemma ProposeQuorumOnward(f: Frame, env: Env, s: Node, t: Node, view: uint32)
    requires Onward(f, env, s, t)
    ensures Onward(f, env, s, ProposeWithNewViewQuorum(f.cfg, t, view, env))
  {
    hide Onward, KeysOk, ProposeOn;
    var best := if view in t.ctx.newviews then HighestQC(t.ctx.newviews[view], env.hint) else None;
    var justify := if best.Some? then best else t.ctx.highQC;
    ProposeOnOnward(f, env, t, view, justify);
    OnwardTransitive(f, env, s, t, ProposeOn(f.cfg, t, view, justify, env));
  }

  lemma AdvanceOnward(f: Frame, env: Env, s: Node, next: uint32)
    ensures Onward(f, env, s, AdvanceView(f.cfg, s, next, env)) && Onward(f, env, s, AdvanceViewWithQC(f.cfg, s, next, env))
  {
    hide Onward, KeysOk, ProposeWithNewViewQuorum, EnterView, Prune;
    var s1 := EnterView(s, next, env);
    EnterOnward(f, env, s, next);
    var s2 := Prune(s1, next);
    PruneOnward(f, env, s1, next);
    OnwardTransitive(f, env, s, s1, s2);
    var s3 := s2.(tasks := s2.tasks + [StartProposing]);
    SideOnward(f, env, s2, s3);
    OnwardTransitive(f, env, s, s2, s3);
    var s4 := AnnounceView(f.cfg, s2, next);
    SideOnward(f, env, s2, s4);
    OnwardTransitive(f, env, s, s2, s4);
    ProposeQuorumOnward(f, env, s, s4, next);
  }

  lemma OnNewViewOnward(f: Frame, env: Env, s: Node, view: uint32, sender: uint16, qc: Option<QC>)
    ensures Onward(f, env, s, OnNewView(f.cfg, s, view, sender, qc, env))
  {
    hide Onward, KeysOk, ProposeWithNewViewQuorum, EnterView, HasVoted;
    var s1 := TrackNewView(s, view, sender, qc);
    TrackOnward(f, env, s, view, sender, qc);
    SideOnward(f, env, s1, s1);
    var s2 := SyncForward(f.cfg, s1, view, qc, env);
    EnterOnward(f, env, s1, view);
    SideOnward(f, env, EnterView(s1, view, env), AnnounceView(f.cfg, EnterView(s1, view, env), view));
    OnwardTransitive(f, env, s1, EnterView(s1, view, env), AnnounceView(f.cfg, EnterView(s1, view, env), view));
    OnwardTransitive(f, env, s, s1, s2);
    var s3 := SyncBack(f.cfg, s2, view, env);
    EnterOnward(f, env, s2, view);
    SideOnward(f, env, s2, s2);
    OnwardTransitive(f, env, s, s2, s3);
    ProposeQuorumOnward(f, env, s, s3, view);
  }

  lemma TrackOnward(f: Frame, env: Env, s: Node, view: uint32, sender: uint16, qc: Option<QC>)
    ensures Onward(f, env, s, TrackNewView(s, view, sender, qc))
  {
    hide Onward;
    var s0 := s.(ctx := AddNewView(s.ctx, view, sender, qc));
    SideOnward(f, env, s, s0);
    if qc.Some? {
      var h := s0.(ctx := UpdateHighQC(s0.ctx, qc));
      QCOnward(f, env, s0, qc.value);
      QCOnward(f, env, h, qc.value);
      OnwardTransitive(f, env, s, s0, h);
      OnwardTransitive(f, env, s, h, h.(ctx := AddQC(h.ctx, qc.value)));
    }
  }

  lemma HandleOnward(f: Frame, env: Env, s: Node, input: Input)
    ensures Onward(f, env, s, Handle(f.cfg, s, input, env))
  {
    hide Onward, KeysOk, OnProposal, OnNewView, AdvanceView;
    hide AdvanceViewWithQC, ProposeOn, TryFormQC, AddVote, QuorumCert.Authentic;
    SideOnward(f, env, s, s);
    match input
    case Deliver(Propose(view, _, block, justify)) => OnProposalOnward(f, env, s, view, block, justify);
    case Deliver(VoteMsg(_, _, v)) =>
      if Admits(f.cfg, v, env.now) {
        var s1 := s.(ctx := AddVote(s.ctx, v));
        AddVoteOnward(f, env, s, v);
        TryFormQCOnward(f, env, s1, v.view, v.node);
        OnwardTransitive(f, env, s, s1, TryFormQC(f.cfg, s1, v.view, v.node, env));
      }
    case Deliver(NewView(view, sender, qc)) => OnNewViewOnward(f, env, s, view, sender, qc);
    case Timeout(view) => AdvanceOnward(f, env, s, Succ32(view));
    case Fire(i) =>
      if i < |s.tasks| {
        var s1 := DropTask(s, i);
        SideOnward(f, env, s, s1);
        match s.tasks[i]
        case Advance(view, _) =>
          AdvanceOnward(f, env, s1, view);
          OnwardTransitive(f, env, s, s1, AdvanceViewWithQC(f.cfg, s1, view, env));
        case StartProposing =>
          ProposeOnOnward(f, env, s1, s1.ctx.view, s1.ctx.highQC);
          OnwardTransitive(f, env, s, s1, ProposeOn(f.cfg, s1, s1.ctx.view, s1.ctx.highQC, env));
      }
  }

  // ---- Whole runs ----

  ghost predicate AllReliable(steps: seq<Step>) { forall i :: 0 <= i < |steps| ==> Reliable(steps[i].env) }

  lemma {:induction false} RunsOnward(f: Frame, states: seq<Node>, steps: seq<Step>, k: nat)
    requires Trace(f.cfg, states, steps) && k < |states|
    ensures Good(f.cfg, f.base, states[0]) ==> Good(f.cfg, f.base, states[k])
    ensures AllReliable(steps) && Durable(f.start, f.kept, states[0]) ==> Durable(f.start, f.kept, states[k])
    ensures KeysOk(f.cfg) && VotesAuthentic(f.cfg, states[0].ctx.votes) ==> VotesAuthentic(f.cfg, states[k].ctx.votes)
  {
    hide Good, Durable, Handle, KeysOk, VotesAuthentic;
    if k > 0 {
      RunsOnward(f, states, steps, k - 1);
      assert Follows(f.cfg, states[k - 1], steps[k - 1], states[k]);
      HandleOnward(f, steps[k - 1].env, states[k - 1], steps[k - 1].input);
    }
  }

  /** Locks and high certificates never fall, and commits are never undone, between any two points
      of any run. */
  lemma {:induction false} LocksNeverFall(cfg: Config, states: seq<Node>, steps: seq<Step>, j: nat, k: nat)
    requires Trace(cfg, states, steps) && j <= k < |states|
    ensures Later(states[j], states[k])
  {
    hide Handle, KeysOk, Good, Durable, VotesAuthentic;
    if j < k {
      LocksNeverFall(cfg, states, steps, j, k - 1);
      assert Follows(cfg, states[k - 1], steps[k - 1], states[k]);
      HandleOnward(Frame(cfg, map[], None, None), steps[k - 1].env, states[k - 1], steps[k - 1].input);
    }
  }

  /** How a replica may start: the last block and its certificate, the view and the lock. */
  datatype Start = Start(lastBlock: Option<Block>, lastQC: Option<QC>, view: uint32, lock: Option<QC>)

  ghost function Fresh(cfg: Config, b: Start): Node { Started(cfg, b.lastBlock, b.lastQC, b.view, b.lock) }

  lemma FreshGood(cfg: Config, b: Start)
    ensures var s := Fresh(cfg, b);
      && Good(cfg, s.ctx.committed, s) && Durable(s.ctx.lockedQC, b.lock, s) && VotingInv(cfg, s)
      && s.ctx.votes == map[]
  {}

  /** A run of one replica from its start. */
  ghost predicate Life(cfg: Config, b: Start, states: seq<Node>, steps: seq<Step>) {
    Trace(cfg, states, steps) && states[0] == Fresh(cfg, b)
  }

  /** Commit discipline: at most one block is committed, and executed, at each height, never the
      height of the last stored block; it is never replaced later in the run; and a validated
      certificate of a child in the next view justifies it. */
  lemma CommitDiscipline(cfg: Config, b: Start, states: seq<Node>, steps: seq<Step>, j: nat, k: nat)
    requires Life(cfg, b, states, steps) && j <= k < |states|
    ensures CommitsFit(states[0].ctx.committed, states[k].ctx.committed, states[k].commits)
    ensures AllWitnessed(cfg, states[k].commits) && ChildrenStored(states[k].ctx.blocks, states[k].commits)
    ensures var early, late := states[j].ctx.committed, states[k].ctx.committed;
      forall h :: h in early ==> h in late && late[h] == early[h]
  {
    hide Handle, KeysOk, Keyed, VotesAuthentic, Witnessed, Fresh;
    var f := Frame(cfg, states[0].ctx.committed, states[0].ctx.lockedQC, b.lock);
    FreshGood(cfg, b);
    RunsOnward(f, states, steps, j);
    RunsOnward(f, states, steps, k);
    LocksNeverFall(cfg, states, steps, j, k);
  }

  // ---- One vote per view ----

  /** Two onProposal votes in one view need the view to have fallen below the prune horizon: the
      view of the second is below the largest PruneBelow used by then. */
  lemma OneVotePerView(cfg: Config, b: Start, states: seq<Node>, steps: seq<Step>, k: nat, i: nat, j: nat)
    requires Life(cfg, b, states, steps) && k < |states| && i < j < |states[k].casts|
    requires var casts := states[k].casts; casts[i].viaProposal && casts[j].viaProposal && casts[i].view == casts[j].view
    ensures states[k].casts[j].view < states[k].casts[j].horizon
  {
    hide Handle, Remembers, Fresh;
    FreshGood(cfg, b);
    VotingAlways(cfg, states, steps, k);
  }

  /** The replica's view is at or above its prune horizon throughout the run. */
  ghost predicate StaysAbove(states: seq<Node>) { forall k :: 0 <= k < |states| ==> states[k].ctx.view >= states[k].horizon }

  lemma {:induction false} CastsAbove(cfg: Config, states: seq<Node>, steps: seq<Step>, k: nat)
    requires Trace(cfg, states, steps) && StaysAbove(states) && states[0].casts == [] && k < |states|
    ensures forall i :: 0 <= i < |states[k].casts| ==> states[k].casts[i].view >= states[k].casts[i].horizon
  {
    hide Handle;
    if k > 0 {
      CastsAbove(cfg, states, steps, k - 1);
      var s, t := states[k - 1], states[k];
      assert Follows(cfg, s, steps[k - 1], t);
      HandleSignsHere(cfg, s, steps[k - 1].input, steps[k - 1].env);
      forall i | 0 <= i < |t.casts| ensures t.casts[i].view >= t.casts[i].horizon {
        if i < |s.casts| { assert t.casts[i] == t.casts[..|s.casts|][i]; }
      }
    }
  }

  /** A replica whose view never drops below its prune horizon casts at most one onProposal vote in
      any view. */
  lemma DistinctVoteViews(cfg: Config, b: Start, states: seq<Node>, steps: seq<Step>, k: nat, i: nat, j: nat)
    requires Life(cfg, b, states, steps) && StaysAbove(states) && k < |states| && i < j < |states[k].casts|
    requires states[k].casts[i].viaProposal && states[k].casts[j].viaProposal
    ensures states[k].casts[i].view != states[k].casts[j].view
  {
    hide Handle;
    CastsAbove(cfg, states, steps, k);
    if states[k].casts[i].view == states[k].casts[j].view { OneVotePerView(cfg, b, states, steps, k, i, j); }
  }

  // ---- A quorum of stored votes always gives a valid certificate ----

  lemma VotersAre(m: map<uint16, Vote>)
    requires forall j :: j in m ==> m[j].validator == j
    ensures QuorumCert.Voters(VotesList(m)) == m.Keys
  {
    var votes := VotesList(m);
    forall j | j in m.Keys ensures j in QuorumCert.Voters(votes) { assert m[j] in m.Values; }
    forall j | j in QuorumCert.Voters(votes) ensures j in m.Keys {
      var v :| v in votes && v.validator == j;
      assert v in m.Values;
    }
  }

  lemma {:induction false} DistinctByCount(votes: seq<Vote>)
    ensures |QuorumCert.Voters(votes)| <= |votes|
    ensures |QuorumCert.Voters(votes)| == |votes| ==> QuorumCert.Distinct(votes)
  {
    if votes != [] {
      hide QuorumCert.Voters, QuorumCert.Distinct;
      var n := |votes| - 1;
      var front, last := votes[..n], votes[n];
      DistinctByCount(front);
      QuorumCert.VotersAppend(front, last);
      assert votes == front + [last];
      if |QuorumCert.Voters(votes)| == |votes| {
        assert last.validator !in QuorumCert.Voters(front);
        QuorumCert.DistinctAppend(front, last);
      }
    }
  }

  /** In every run, as soon as 2f+1 validators' votes for a block are stored, NewQC and Validate
      succeed, and every order in which GetVotes may list them gives the same certificate. */
  lemma QuorumFormsQC(cfg: Config, b: Start, states: seq<Node>, steps: seq<Step>, k: nat, view: uint32, node: Hash,
      listed: seq<Vote>)
    requires KeysOk(cfg) && QuorumCert.ChecksSize(cfg.validators) && |cfg.validators.keys| < 0x1_0000
    requires Life(cfg, b, states, steps) && k < |states|
    requires var m := VotesFor(states[k].ctx, view, node);
      |m| >= cfg.Quorum() && |listed| == |m| && forall w :: w in listed <==> w in m.Values
    ensures var q := QuorumCert.Form(view, node, listed, cfg.Quorum(), QuorumCert.ED25519);
      && q.Some? && QuorumCert.Valid(q.value, cfg.validators)
      && FormQC(cfg, view, node, VotesFor(states[k].ctx, view, node)) == q
  {
    hide Handle, KeysOk, QuorumCert.Form, QuorumCert.Valid;
    hide QuorumCert.Authentic, CommitsFit, AllWitnessed, Keyed, Fresh;
    FreshGood(cfg, b);
    RunsOnward(Frame(cfg, states[0].ctx.committed, states[0].ctx.lockedQC, b.lock), states, steps, k);
    var m := VotesFor(states[k].ctx, view, node);
    forall i | i in m ensures VoteFits(cfg, view, node, i, m[i]) {}
    ListedFormsQC(cfg, view, node, m, listed);
  }

  lemma ListedDistinct(m: map<uint16, Vote>, listed: seq<Vote>)
    requires forall i :: i in m ==> m[i].validator == i
    requires |listed| == |m| && forall w :: w in listed <==> w in m.Values
    ensures QuorumCert.Distinct(listed) && QuorumCert.Voters(listed) == m.Keys
  {
    VotersAre(m);
    var own := VotesList(m);
    assert QuorumCert.Voters(own) == QuorumCert.Voters(listed);
    assert |m| == |m.Keys|;
    DistinctByCount(listed);
  }

  lemma ListedFormsQC(cfg: Config, v: uint32, node: Hash, m: map<uint16, Vote>, listed: seq<Vote>)
    requires QuorumCert.ChecksSize(cfg.validators) && |cfg.validators.keys| < 0x1_0000
    requires forall i :: i in m ==> VoteFits(cfg, v, node, i, m[i])
    requires |m| >= cfg.Quorum() && |listed| == |m| && forall w :: w in listed <==> w in m.Values
    ensures var q := QuorumCert.Form(v, node, listed, cfg.Quorum(), QuorumCert.ED25519);
      q.Some? && QuorumCert.Valid(q.value, cfg.validators) && FormQC(cfg, v, node, m) == q
  {
    hide QuorumCert.Form, QuorumCert.Valid, QuorumCert.ChecksSize;
    hide QuorumCert.Authentic, QuorumCert.Voters, QuorumCert.Distinct, VotesList;
    var own := VotesList(m);
    ListedDistinct(m, own);
    ListedDistinct(m, listed);
    assert |m| == |m.Keys| && |cfg.validators.keys| == |cfg.validators.keys.Keys|;
    assert m.Keys <= cfg.validators.keys.Keys by { Known(cfg, v, node, m); }
    Quorums.SubsetSize(m.Keys, cfg.validators.keys.Keys);
    forall w | w in own
      ensures w.view == v && w.node == node && QuorumCert.Authentic(w, cfg.validators)
    {
      assert w in m.Values;
    }
    QuorumCert.QuorumGivesValidQC(v, node, own, cfg.validators);
    QuorumCert.OrderIndependent(v, node, own, listed, cfg.Quorum(), QuorumCert.ED25519);
  }

  lemma Known(cfg: Config, v: uint32, node: Hash, m: map<uint16, Vote>)
    requires forall i :: i in m ==> VoteFits(cfg, v, node, i, m[i])
    ensures m.Keys <= cfg.validators.keys.Keys
  {}
}
