/** What one replica keeps in every run, whatever messages, timeouts and storage failures it meets:
    no assumption is made on who sent what. */
module ReplicaProperties {
  import opened Types
  import opened ContextSpec
  import opened Replica

  datatype Step = Step(input: Input, env: Env)

  /** A run of one replica: the states it passes through and the steps between them. */
  ghost predicate Trace(cfg: Config, states: seq<Node>, steps: seq<Step>) {
    && |states| == |steps| + 1
    && forall k :: 0 <= k < |steps| ==> Follows(cfg, states[k], steps[k], states[k + 1])
  }

  ghost predicate Follows(cfg: Config, s: Node, step: Step, t: Node) { t == Handle(cfg, s, step.input, step.env) }

  // ---- One vote per view, and locks that only rise ----

  /** Votes are remembered unless their view was pruned. */
  ghost predicate Remembers(cfg: Config, s: Node) {
    forall i :: 0 <= i < |s.casts| && s.casts[i].view >= s.horizon ==> HasVoted(s.ctx, s.casts[i].view, cfg.me)
  }

  /** Two firm votes in one view only when the view had dropped below the prune horizon. */
  ghost predicate VotesOnce(gated: bool, casts: seq<Cast>) {
    forall i, j :: (0 <= i < j < |casts| && Firm(gated, casts[i]) && Firm(gated, casts[j])
                    && casts[i].view == casts[j].view) ==> casts[j].view < casts[j].horizon
  }

  /** Each vote leaves the lock at least where it was, a firm vote at least at its justify
      certificate, and later votes find it no lower. */
  ghost predicate LocksRise(gated: bool, s: Node) {
    && (forall i :: 0 <= i < |s.casts| ==>
          && NotAbove(s.casts[i].lockBefore, s.casts[i].lockAfter)
          && NotAbove(s.casts[i].lockAfter, s.ctx.lockedQC)
          && (Firm(gated, s.casts[i]) ==> NotAbove(s.casts[i].justify, s.casts[i].lockAfter)))
    && (forall i, j :: 0 <= i < j < |s.casts| ==> NotAbove(s.casts[i].lockAfter, s.casts[j].lockBefore))
  }

  /** Only a replica that does not lead a view votes there in onProposal. */
  ghost predicate Roles(cfg: Config, casts: seq<Cast>) {
    forall i :: 0 <= i < |casts| && casts[i].viaProposal ==> !cfg.IsLeader(casts[i].view)
  }

  ghost predicate VotingInv(cfg: Config, s: Node) {
    Remembers(cfg, s) && VotesOnce(cfg.gated, s.casts) && LocksRise(cfg.gated, s) && Roles(cfg, s.casts)
  }

  /** A change that signs nothing, forgets no vote and does not lower the lock. */
  ghost predicate Quiet(s: Node, t: Node) {
    && t.casts == s.casts && t.horizon == s.horizon
    && NotAbove(s.ctx.lockedQC, t.ctx.lockedQC)
    && forall v, i :: HasVoted(s.ctx, v, i) ==> HasVoted(t.ctx, v, i)
  }

  lemma QuietKeeps(cfg: Config, s: Node, t: Node)
    requires VotingInv(cfg, s) && Quiet(s, t)
    ensures VotingInv(cfg, t)
  {}

  lemma SameVotesQuiet(s: Node, t: Node)
    requires t.casts == s.casts && t.horizon == s.horizon && t.ctx.votes == s.ctx.votes
    requires NotAbove(s.ctx.lockedQC, t.ctx.lockedQC)
    ensures Quiet(s, t)
  {
    forall v, i | HasVoted(s.ctx, v, i) ensures HasVoted(t.ctx, v, i) {
      var node :| node in VotesIn(s.ctx, v) && i in VotesIn(s.ctx, v)[node];
      assert node in VotesIn(t.ctx, v);
    }
  }

  lemma AddVoteQuiet(s: Node, vote: Vote)
    ensures Quiet(s, s.(ctx := AddVote(s.ctx, vote)))
    ensures HasVoted(AddVote(s.ctx, vote), vote.view, vote.validator)
  {
    var c := AddVote(s.ctx, vote);
    forall v, i | HasVoted(s.ctx, v, i) ensures HasVoted(c, v, i) {
      var node :| node in VotesIn(s.ctx, v) && i in VotesIn(s.ctx, v)[node];
      assert node in VotesIn(c, v) && i in VotesIn(c, v)[node];
    }
    assert vote.node in VotesIn(c, vote.view);
  }

  /** checkCommit changes nothing but the committed blocks. */
  lemma CheckCommitKeeps(s: Node, b: Block, qc: QC)
    ensures var t := CheckCommit(s, b, qc);
      t == s.(ctx := s.ctx.(committed := t.ctx.committed), commits := t.commits)
  {}

  /** Using a certificate stores it, may commit, may spawn a task, and moves the lock and the high
      certificate only by the raising rule. */
  lemma UseQCKeeps(cfg: Config, s: Node, qc: QC, env: Env)
    ensures var t := UseQC(cfg, s, qc, env);
      && t == s.(ctx := s.ctx.(qcs := s.ctx.qcs[qc.node := qc], lockedQC := t.ctx.lockedQC, highQC := t.ctx.highQC,
                               committed := t.ctx.committed),
                 storedLock := t.storedLock, commits := t.commits, tasks := t.tasks)
      && t.ctx.lockedQC == (if env.putQC then Raise(s.ctx.lockedQC, Some(qc)) else s.ctx.lockedQC)
      && t.ctx.highQC == (if env.putQC then Raise(s.ctx.highQC, Some(qc)) else s.ctx.highQC)
      && (t.tasks == s.tasks || t.tasks == s.tasks + [Advance(Succ32(qc.view), qc)])
  {
    hide CheckCommit;
    if env.putQC {
      var s1 := s.(ctx := AddQC(s.ctx, qc));
      var s2 := Lock(s1.(ctx := UpdateHighQC(s1.ctx, Some(qc))), qc, env);
      if qc.node in s2.ctx.blocks && s2.ctx.blocks[qc.node].prevHash in s2.ctx.blocks {
        CheckCommitKeeps(s2, s2.ctx.blocks[s2.ctx.blocks[qc.node].prevHash], qc);
      }
    }
  }

  lemma TryFormQCQuiet(cfg: Config, s: Node, view: uint32, node: Hash, env: Env)
    ensures var t := TryFormQC(cfg, s, view, node, env);
      && Quiet(s, t) && t.ctx.votes == s.ctx.votes && t.ctx.view == s.ctx.view && t.made == s.made && t.sent == s.sent
      && t.storedView == s.storedView
  {
    hide FormQC, UseQC;
    var t := TryFormQC(cfg, s, view, node, env);
    if t != s {
      UseQCKeeps(cfg, s, FormQC(cfg, view, node, VotesFor(s.ctx, view, node)).value, env);
    }
    SameVotesQuiet(s, t);
  }

  /** What a vote about to be signed must satisfy for the voting invariant. */
  ghost predicate MaySign(cfg: Config, s: Node, c: Cast) {
    && c.horizon == s.horizon && c.lockAfter == s.ctx.lockedQC && NotAbove(c.lockBefore, c.lockAfter)
    && (c.viaProposal ==> !cfg.IsLeader(c.view))
    && (Firm(cfg.gated, c) ==> !HasVoted(s.ctx, c.view, cfg.me) && NotAbove(c.justify, c.lockAfter))
    && forall i :: 0 <= i < |s.casts| ==> NotAbove(s.casts[i].lockAfter, c.lockBefore)
  }

  /** Signing it, recording it, and possibly forming a certificate. */
  lemma SignedKeeps(cfg: Config, s: Node, c: Cast, v: Vote, t: Node, env: Env)
    requires VotingInv(cfg, s) && MaySign(cfg, s, c)
    requires v.validator == cfg.me && v.view == c.view
    requires t == s.(ctx := AddVote(s.ctx, v), casts := s.casts + [c], sent := t.sent)
    ensures VotingInv(cfg, TryFormQC(cfg, t, v.view, v.node, env))
  {
    hide TryFormQC, AddVote, HasVoted;
    AddVoteQuiet(s, v);
    assert VotingInv(cfg, t);
    TryFormQCQuiet(cfg, t, v.view, v.node, env);
    QuietKeeps(cfg, t, TryFormQC(cfg, t, v.view, v.node, env));
  }

  /** Signing a vote in onProposal, in a view the replica has not voted in. */
  lemma CastVoteKeeps(cfg: Config, s: Node, view: uint32, block: Block, justify: Option<QC>,
      lockBefore: Option<QC>, env: Env)
    requires VotingInv(cfg, s) && MaySign(cfg, s, Cast(view, block.hash, true, justify, lockBefore, s.ctx.lockedQC, s.horizon))
    ensures VotingInv(cfg, CastVote(cfg, s, view, block, justify, lockBefore, env))
  {
    hide TryFormQC, AddVote, MaySign, VotingInv;
    if env.signed.Some? {
      var v := SignVote(cfg, view, block.hash, env.signed.value);
      var c := Cast(view, block.hash, true, justify, lockBefore, s.ctx.lockedQC, s.horizon);
      var s1 := Send(s, VoteMsg(view, cfg.me, v)).(casts := s.casts + [c]);
      SignedKeeps(cfg, s, c, v, s1.(ctx := AddVote(s1.ctx, v)), env);
    }
  }

  /** Locking the justify certificate first makes the vote lawful in a view not yet voted in. */
  lemma LockedMaySign(cfg: Config, s: Node, view: uint32, node: Hash, via: bool, justify: Option<QC>, env: Env)
    requires VotingInv(cfg, s) && !HasVoted(s.ctx, view, cfg.me) && (via ==> !cfg.IsLeader(view))
    ensures var t := LockJustify(s, justify, env);
      && VotingInv(cfg, t)
      && MaySign(cfg, t, Cast(view, node, via, justify, s.ctx.lockedQC, t.ctx.lockedQC, t.horizon))
  {
    hide HasVoted, Remembers, VotesOnce;
    var t := LockJustify(s, justify, env);
    SameVotesQuiet(s, t);
    QuietKeeps(cfg, s, t);
    SameVotes(s, t, view, cfg.me);
  }

  lemma VoteOnKeeps(cfg: Config, s: Node, view: uint32, block: Block, justify: Option<QC>, env: Env)
    requires VotingInv(cfg, s) && !HasVoted(s.ctx, view, cfg.me) && !cfg.IsLeader(view)
    ensures VotingInv(cfg, VoteOn(cfg, s, view, block, justify, env))
  {
    hide CastVote, HasVoted, SafeToVote, VotingInv, MaySign, LockJustify;
    var s1 := s.(ctx := AddBlock(s.ctx, block));
    SameVotesQuiet(s, s1);
    QuietKeeps(cfg, s, s1);
    SameVotes(s, s1, view, cfg.me);
    LockedMaySign(cfg, s1, view, block.hash, true, justify, env);
    CastVoteKeeps(cfg, LockJustify(s1, justify, env), view, block, justify, s1.ctx.lockedQC, env);
  }

  /** Synchronizing signs nothing and leaves votes, horizon and lock alone. */
  lemma SyncSpares(s: Node, view: uint32, justify: Option<QC>, env: Env)
    ensures var t := SyncToProposal(s, view, justify, env);
      t.casts == s.casts && t.horizon == s.horizon && t.ctx.votes == s.ctx.votes && t.ctx.lockedQC == s.ctx.lockedQC
  {
    hide Raise, ViewOrZero;
    var s1 := EnterView(s, view, env);
    if justify.Some? {
      var s2 := s1.(ctx := AddQC(UpdateHighQC(s1.ctx, justify), justify.value));
      assert SyncToProposal(s, view, justify, env) in {s, s1, s2};
    }
  }

  lemma SyncKeeps(cfg: Config, s: Node, view: uint32, justify: Option<QC>, env: Env)
    requires VotingInv(cfg, s)
    ensures VotingInv(cfg, SyncToProposal(s, view, justify, env))
  {
    hide VotingInv, Quiet, HasVoted, SyncToProposal;
    var t := SyncToProposal(s, view, justify, env);
    SyncSpares(s, view, justify, env);
    SameVotesQuiet(s, t);
    QuietKeeps(cfg, s, t);
  }

  lemma OnProposalKeeps(cfg: Config, s: Node, view: uint32, block: Block, justify: Option<QC>, env: Env)
    requires VotingInv(cfg, s)
    ensures VotingInv(cfg, OnProposal(cfg, s, view, block, justify, env))
  {
    hide VoteOn, VotingInv, HasVoted, SyncToProposal;
    var s1 := SyncToProposal(s, view, justify, env);
    SyncKeeps(cfg, s, view, justify, env);
    if Considers(cfg, s1, view, env) { VoteOnKeeps(cfg, s1, view, block, justify, env); }
  }

  lemma SameVotes(s: Node, t: Node, view: uint32, i: uint16)
    requires s.ctx.votes == t.ctx.votes
    ensures HasVoted(s.ctx, view, i) <==> HasVoted(t.ctx, view, i)
  {
    assert VotesIn(s.ctx, view) == VotesIn(t.ctx, view);
  }

  lemma LeaderVoteKeeps(cfg: Config, s: Node, view: uint32, node: Hash, justify: Option<QC>,
                        lockBefore: Option<QC>, env: Env)
    requires VotingInv(cfg, s) && MaySign(cfg, s, Cast(view, node, false, justify, lockBefore, s.ctx.lockedQC, s.horizon))
    ensures VotingInv(cfg, LeaderVote(cfg, s, view, node, justify, lockBefore, env))
  {
    hide TryFormQC, AddVote, MaySign, VotingInv;
    if env.signed.Some? {
      var v := SignVote(cfg, view, node, env.signed.value);
      var c := Cast(view, node, false, justify, lockBefore, s.ctx.lockedQC, s.horizon);
      SignedKeeps(cfg, s, c, v, s.(ctx := AddVote(s.ctx, v), casts := s.casts + [c]), env);
    }
  }

  lemma GatedVoteKeeps(cfg: Config, s: Node, view: uint32, block: Block, justify: Option<QC>, env: Env)
    requires VotingInv(cfg, s)
    ensures VotingInv(cfg, GatedVote(cfg, s, view, block, justify, env))
  {
    hide LeaderVote, VotingInv, HasVoted, SafeToVote, MaySign, LockJustify;
    if !HasVoted(s.ctx, view, cfg.me) {
      LockedMaySign(cfg, s, view, block.hash, false, justify, env);
      LeaderVoteKeeps(cfg, LockJustify(s, justify, env), view, block.hash, justify, s.ctx.lockedQC, env);
    }
  }

  /** Proposing signs at most the leader's implicit vote. */
  lemma ProposeOnKeeps(cfg: Config, s: Node, view: uint32, justify: Option<QC>, env: Env)
    requires VotingInv(cfg, s)
    ensures VotingInv(cfg, ProposeOn(cfg, s, view, justify, env))
  {
    hide LeaderVote, GatedVote, VotingInv, NewBlock;
    if env.created.Some? {
      var block := NewBlock(s.ctx, justify, env.created.value);
      var s1 := s.(ctx := AddBlock(s.ctx, block), made := s.made + [Made(view, block, justify)]);
      SameVotesQuiet(s, s1);
      QuietKeeps(cfg, s, s1);
      var s2 := Send(s1, Propose(view, cfg.me, block, justify));
      SameVotesQuiet(s, s2);
      QuietKeeps(cfg, s, s2);
      if cfg.gated {
        GatedVoteKeeps(cfg, s2, view, block, justify, env);
      } else {
        AsItIsMaySign(cfg, s2, view, block.hash, justify);
        LeaderVoteKeeps(cfg, s2, view, block.hash, justify, s2.ctx.lockedQC, env);
      }
    }
  }

  lemma AsItIsMaySign(cfg: Config, s: Node, view: uint32, node: Hash, justify: Option<QC>)
    requires VotingInv(cfg, s) && !cfg.gated
    ensures MaySign(cfg, s, Cast(view, node, false, justify, s.ctx.lockedQC, s.ctx.lockedQC, s.horizon))
  {}

  lemma PruneKeeps(cfg: Config, s: Node, view: uint32)
    requires VotingInv(cfg, s)
    ensures VotingInv(cfg, Prune(s, view))
  {
    var t := Prune(s, view);
    forall i | 0 <= i < |t.casts| && t.casts[i].view >= t.horizon
      ensures HasVoted(t.ctx, t.casts[i].view, cfg.me)
    {
      var w := s.casts[i].view;
      assert HasVoted(s.ctx, w, cfg.me);
      assert VotesIn(t.ctx, w) == VotesIn(s.ctx, w);
    }
  }

  lemma AdvanceKeeps(cfg: Config, s: Node, next: uint32, env: Env)
    requires VotingInv(cfg, s)
    ensures VotingInv(cfg, AdvanceViewWithQC(cfg, s, next, env))
    ensures VotingInv(cfg, AdvanceView(cfg, s, next, env))
  {
    hide ProposeOn, PruneVotes, VotingInv;
    var s0 := EnterView(s, next, env);
    SameVotesQuiet(s, s0);
    QuietKeeps(cfg, s, s0);
    PruneKeeps(cfg, s0, next);
    var s1 := Prune(s0, next);
    SameVotesQuiet(s1, AdvanceViewWithQC(cfg, s, next, env));
    QuietKeeps(cfg, s1, AdvanceViewWithQC(cfg, s, next, env));
    var s2 := AnnounceView(cfg, s1, next);
    SameVotesQuiet(s1, s2);
    QuietKeeps(cfg, s1, s2);
    ProposeWithNewViewQuorumKeeps(cfg, s2, next, env);
  }

  lemma ProposeWithNewViewQuorumKeeps(cfg: Config, s: Node, view: uint32, env: Env)
    requires VotingInv(cfg, s)
    ensures VotingInv(cfg, ProposeWithNewViewQuorum(cfg, s, view, env))
  {
    hide ProposeOn;
    var best := if view in s.ctx.newviews then HighestQC(s.ctx.newviews[view], env.hint) else None;
    ProposeOnKeeps(cfg, s, view, if best.Some? then best else s.ctx.highQC, env);
  }

  lemma OnNewViewKeeps(cfg: Config, s: Node, view: uint32, sender: uint16, qc: Option<QC>, env: Env)
    requires VotingInv(cfg, s)
    ensures VotingInv(cfg, OnNewView(cfg, s, view, sender, qc, env))
  {
    hide ProposeWithNewViewQuorum, VotingInv, HasVoted;
    var s0 := TrackNewView(s, view, sender, qc);
    SameVotesQuiet(s, s0);
    QuietKeeps(cfg, s, s0);
    var s1 := SyncForward(cfg, s0, view, qc, env);
    SameVotesQuiet(s0, s1);
    QuietKeeps(cfg, s0, s1);
    var s2 := SyncBack(cfg, s1, view, env);
    SameVotesQuiet(s1, s2);
    QuietKeeps(cfg, s1, s2);
    ProposeWithNewViewQuorumKeeps(cfg, s2, view, env);
  }

  lemma HandleKeeps(cfg: Config, s: Node, input: Input, env: Env)
    requires VotingInv(cfg, s)
    ensures VotingInv(cfg, Handle(cfg, s, input, env))
  {
    hide VotingInv, OnProposal, OnNewView, AdvanceView, AdvanceViewWithQC, ProposeOn, TryFormQC, AddVote, HasVoted;
    match input
    case Deliver(Propose(view, _, block, justify)) => OnProposalKeeps(cfg, s, view, block, justify, env);
    case Deliver(VoteMsg(_, _, v)) =>
      var s1 := s.(ctx := AddVote(s.ctx, v));
      AddVoteQuiet(s, v);
      QuietKeeps(cfg, s, s1);
      TryFormQCQuiet(cfg, s1, v.view, v.node, env);
      QuietKeeps(cfg, s1, TryFormQC(cfg, s1, v.view, v.node, env));
    case Deliver(NewView(view, sender, qc)) => OnNewViewKeeps(cfg, s, view, sender, qc, env);
    case Timeout(view) => AdvanceKeeps(cfg, s, Succ32(view), env);
    case Fire(i) =>
      if i < |s.tasks| {
        var s1 := DropTask(s, i);
        SameVotesQuiet(s, s1);
        QuietKeeps(cfg, s, s1);
        match s.tasks[i]
        case Advance(view, _) => AdvanceKeeps(cfg, s1, view, env);
        case StartProposing => ProposeOnKeeps(cfg, s1, s1.ctx.view, s1.ctx.highQC, env);
      }
  }

  // ---- Where votes and blocks are made ----

  /** A step signs at most one vote and creates at most one block, both in the view it ends in, and
      prunes only below that view. */
  ghost predicate SignsHere(s: Node, t: Node) {
    && (t.casts == s.casts
        || (|t.casts| == |s.casts| + 1 && t.casts[..|s.casts|] == s.casts
            && t.casts[|s.casts|].view == t.ctx.view && t.casts[|s.casts|].horizon == t.horizon))
    && (t.made == s.made
        || (|t.made| == |s.made| + 1 && t.made[..|s.made|] == s.made && t.made[|s.made|].view == t.ctx.view))
    && s.horizon <= t.horizon
    && (t.horizon <= s.horizon || t.horizon <= PruneBelow(t.ctx.view))
  }

  /** A step whose view and horizon stay put. */
  ghost predicate Stays(s: Node, t: Node) { SignsHere(s, t) && t.ctx.view == s.ctx.view && t.horizon == s.horizon }

  lemma LeaderVoteStays(cfg: Config, s: Node, view: uint32, node: Hash, justify: Option<QC>, lockBefore: Option<QC>, env: Env)
    requires view == s.ctx.view
    ensures var t := LeaderVote(cfg, s, view, node, justify, lockBefore, env);
      Stays(s, t) && t.made == s.made
  {
    hide TryFormQC, AddVote;
    if env.signed.Some? {
      var v := SignVote(cfg, view, node, env.signed.value);
      var c := Cast(view, node, false, justify, lockBefore, s.ctx.lockedQC, s.horizon);
      AddVoteView(s.ctx, v);
      TryFormQCQuiet(cfg, s.(ctx := AddVote(s.ctx, v), casts := s.casts + [c]), view, node, env);
    }
  }

  lemma ProposeOnSignsHere(cfg: Config, s: Node, view: uint32, justify: Option<QC>, env: Env)
    requires view == s.ctx.view
    ensures Stays(s, ProposeOn(cfg, s, view, justify, env))
  {
    hide LeaderVote, NewBlock, HasVoted, SafeToVote;
    if env.created.Some? && env.putBlock {
      var block := NewBlock(s.ctx, justify, env.created.value);
      var s1 := s.(ctx := AddBlock(s.ctx, block), made := s.made + [Made(view, block, justify)]);
      var s2 := Send(s1, Propose(view, cfg.me, block, justify));
      LeaderVoteStays(cfg, s2, view, block.hash, justify, s2.ctx.lockedQC, env);
      LeaderVoteStays(cfg, LockJustify(s2, justify, env), view, block.hash, justify, s2.ctx.lockedQC, env);
    }
  }

  lemma AddVoteView(c: Ctx, v: Vote)
    ensures AddVote(c, v).view == c.view
  {}

  lemma OnProposalSignsHere(cfg: Config, s: Node, view: uint32, block: Block, justify: Option<QC>, env: Env)
    ensures SignsHere(s, OnProposal(cfg, s, view, block, justify, env))
  {
    hide TryFormQC, AddVote, HasVoted, SafeToVote;
    var s1 := SyncToProposal(s, view, justify, env);
    var s2 := s1.(ctx := AddBlock(s1.ctx, block));
    var s3 := LockJustify(s2, justify, env);
    if Considers(cfg, s1, view, env) && env.signed.Some? {
      var v := SignVote(cfg, view, block.hash, env.signed.value);
      var c := Cast(view, block.hash, true, justify, s2.ctx.lockedQC, s3.ctx.lockedQC, s3.horizon);
      var s4 := Send(s3, VoteMsg(view, cfg.me, v)).(casts := s3.casts + [c]);
      AddVoteView(s4.ctx, v);
      TryFormQCQuiet(cfg, s4.(ctx := AddVote(s4.ctx, v)), view, block.hash, env);
    }
  }

  lemma ProposeQuorumSignsHere(cfg: Config, s: Node, view: uint32, env: Env)
    ensures Stays(s, ProposeWithNewViewQuorum(cfg, s, view, env))
  {
    hide ProposeOn;
    var best := if view in s.ctx.newviews then HighestQC(s.ctx.newviews[view], env.hint) else None;
    if s.ctx.view == view { ProposeOnSignsHere(cfg, s, view, if best.Some? then best else s.ctx.highQC, env); }
  }

  lemma AdvanceSignsHere(cfg: Config, s: Node, next: uint32, env: Env)
    ensures SignsHere(s, AdvanceView(cfg, s, next, env)) && SignsHere(s, AdvanceViewWithQC(cfg, s, next, env))
  {
    hide ProposeWithNewViewQuorum;
    var s1 := AnnounceView(cfg, Prune(EnterView(s, next, env), next), next);
    ProposeQuorumSignsHere(cfg, s1, next, env);
  }

  lemma OnNewViewSignsHere(cfg: Config, s: Node, view: uint32, sender: uint16, qc: Option<QC>, env: Env)
    ensures SignsHere(s, OnNewView(cfg, s, view, sender, qc, env))
  {
    hide ProposeWithNewViewQuorum, HasVoted;
    var s1 := SyncForward(cfg, TrackNewView(s, view, sender, qc), view, qc, env);
    var s2 := SyncBack(cfg, s1, view, env);
    ProposeQuorumSignsHere(cfg, s2, view, env);
  }

  lemma HandleSignsHere(cfg: Config, s: Node, input: Input, env: Env)
    ensures SignsHere(s, Handle(cfg, s, input, env))
  {
    hide OnProposal, OnNewView, AdvanceView, AdvanceViewWithQC, ProposeOn, TryFormQC, AddVote;
    match input
    case Deliver(Propose(view, _, block, justify)) => OnProposalSignsHere(cfg, s, view, block, justify, env);
    case Deliver(VoteMsg(_, _, v)) =>
      AddVoteView(s.ctx, v);
      TryFormQCQuiet(cfg, s.(ctx := AddVote(s.ctx, v)), v.view, v.node, env);
    case Deliver(NewView(view, sender, qc)) => OnNewViewSignsHere(cfg, s, view, sender, qc, env);
    case Timeout(view) => AdvanceSignsHere(cfg, s, Succ32(view), env);
    case Fire(i) =>
      if i < |s.tasks| {
        var s1 := DropTask(s, i);
        match s.tasks[i]
        case Advance(view, _) => AdvanceSignsHere(cfg, s1, view, env);
        case StartProposing => ProposeOnSignsHere(cfg, s1, s1.ctx.view, s1.ctx.highQC, env);
      }
  }

  lemma {:induction false} VotingAlways(cfg: Config, states: seq<Node>, steps: seq<Step>, k: nat)
    requires Trace(cfg, states, steps) && VotingInv(cfg, states[0]) && k < |states|
    ensures VotingInv(cfg, states[k])
  {
    hide Handle, VotingInv;
    if k > 0 {
      VotingAlways(cfg, states, steps, k - 1);
      assert Follows(cfg, states[k - 1], steps[k - 1], states[k]);
      HandleKeeps(cfg, states[k - 1], steps[k - 1].input, steps[k - 1].env);
    }
  }
}
