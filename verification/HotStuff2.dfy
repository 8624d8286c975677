/** hotstuff2.go: the replica object. Every handler is proved to take the replica exactly where the
    transition function of Replica says, for every order in which the vote maps may be listed. */
module HotStuff2 {
  import opened Types
  import Spec = ContextSpec
  import opened Replica
  import Context
  import QuorumCert
  import ReplicaHistory

  /** Every stored vote is filed under its validator. */
  ghost predicate Filed(votes: map<uint32, map<Hash, map<uint16, Vote>>>) {
    forall v, h, i :: v in votes && h in votes[v] && i in votes[v][h] ==> votes[v][h][i].validator == i
  }

  /** What a storage call returns: an error, or a value. */
  datatype Read<+T> = Failed | Got(value: T)

  /** What the storage holds and how it answers when a replica is built from it. */
  datatype Storage = Storage(lastBlock: Read<Option<Block>>, lastQC: Read<QC>, view: uint32, viewReadable: bool,
                             lock: Option<QC>, lockReadable: bool)
  {
    /** The certificate of the last block, asked for only if there is one. */
    function LastQC(): Option<QC>
      requires lastBlock.Got?
    {
      if lastBlock.value.Some? && lastQC.Got? then Some(lastQC.value) else None
    }

    /** The replica that starts from it. */
    function Restored(): Node
      requires lastBlock.Got?
    {
      Node(Rebuild(lastBlock.value, LastQC(), if viewReadable then Some(view) else None, if lockReadable then lock else None),
           view, lock, [], [], [], [], [], 0)
    }
  }

  class HotStuff2 {
    const cfg: Config
    const ctx: Context.Context
    var storedView: uint32
    var storedLock: Option<QC>
    var sent: seq<Msg>
    var tasks: seq<Task>
    ghost var commits: seq<CommitRecord>
    ghost var casts: seq<Cast>
    ghost var made: seq<Made>
    ghost var horizon: nat

    ghost function Now(): Node
      reads this, ctx
    {
      Node(ctx.State(), storedView, storedLock, sent, tasks, commits, casts, made, horizon)
    }

    ghost predicate Valid()
      reads this, ctx
    {
      !cfg.gated && Filed(ctx.votes)
    }

    constructor (c: Config, lastBlock: Option<Block>, lastQC: Option<QC>, st: Storage)
      ensures Valid() && fresh(ctx) && cfg == c.(gated := false)
      ensures Now() == Node(Rebuild(lastBlock, lastQC, if st.viewReadable then Some(st.view) else None,
                                    if st.lockReadable then st.lock else None), st.view, st.lock, [], [], [], [], [], 0)
    {
      cfg := c.(gated := false);
      ctx := new Context.Context(lastBlock, lastQC);
      storedView, storedLock, sent, tasks := st.view, st.lock, [], [];
      commits, casts, made, horizon := [], [], [], 0;
      new;
      if st.viewReadable { ctx.SetView(st.view); }
      if st.lockReadable && st.lock.Some? { var _ := ctx.UpdateLockedQC(st.lock); }
    }

    /** NewHotStuff2WithHooks: None when GetLastBlock fails; the other reads may fail. */
    static method NewHotStuff2WithHooks(c: Config, st: Storage) returns (hs: Option<HotStuff2>)
      ensures hs.Some? <==> st.lastBlock.Got?
      ensures hs.Some? ==> fresh(hs.value) && hs.value.Valid() && hs.value.cfg == c.(gated := false)
      ensures hs.Some? ==> hs.value.Now() == st.Restored()
    {
      if st.lastBlock.Failed? { return None; }
      var lastQC: Option<QC> := None;
      if st.lastBlock.value.Some? {
        if st.lastQC.Got? { lastQC := Some(st.lastQC.value); }
      }
      var r := new HotStuff2(c, st.lastBlock.value, lastQC, st);
      hs := Some(r);
    }

    /** Start: the leader of the present view has a proposal pending. */
    method Start()
      modifies this
      ensures Now() == old(Now()).(tasks := old(tasks) + if cfg.IsLeader(old(ctx.view)) then [StartProposing] else [])
      ensures ctx.State() == old(ctx.State())
    {
      if cfg.IsLeader(ctx.view) { tasks := tasks + [StartProposing]; }
    }

    method EnterView(view: uint32, env: Env)
      requires Valid()
      modifies this, ctx
      ensures Valid() && Now() == Replica.EnterView(old(Now()), view, env)
    {
      ctx.SetView(view);
      if env.putView { storedView := view; }
    }

    /** Replaces the lock if the certificate is higher, and stores the new lock. */
    method Lock(qc: QC, env: Env) returns (raised: bool)
      requires Valid()
      modifies this, ctx
      ensures Valid() && Now() == Replica.Lock(old(Now()), qc, env) && (raised <==> Raises(old(ctx.State()), qc))
    {
      raised := ctx.UpdateLockedQC(Some(qc));
      if raised && env.putLock { storedLock := Some(qc); }
    }

    method CheckCommit(block: Block, qc: QC)
      requires Valid()
      modifies this, ctx
      ensures Valid() && Now() == Replica.CheckCommit(old(Now()), block, qc)
    {
      if block.height in ctx.committed { return; }
      if qc.node !in ctx.blocksByHash { return; }
      var qcBlock := ctx.blocksByHash[qc.node];
      if qcBlock.prevHash != block.hash { return; }
      if block.hash !in ctx.qcsByNode {
        if block.height == 0 {
          if qc.view != 1 { return; }
        } else {
          return;
        }
      } else {
        var blockQC := ctx.qcsByNode[block.hash];
        if qc.view != Succ32(blockQC.view) { return; }
      }
      var blockQC := if block.hash in ctx.qcsByNode then Some(ctx.qcsByNode[block.hash]) else None;
      commits := commits + [CommitRecord(block, qcBlock, qc, blockQC)];
      ctx.Commit(block);
    }

    /** The part of tryFormQCIfQuorum that uses a validated certificate. */
    method UseQC(qc: QC, env: Env)
      requires Valid()
      modifies this, ctx
      ensures Valid() && Now() == Replica.UseQC(cfg, old(Now()), qc, env)
    {
      hide Replica.CheckCommit;
      ctx.AddQC(qc);
      if !env.putQC { return; }
      var _ := ctx.UpdateHighQC(Some(qc));
      var _ := Lock(qc, env);
      if qc.node in ctx.blocksByHash {
        var parentHash := ctx.blocksByHash[qc.node].prevHash;
        if parentHash in ctx.blocksByHash { CheckCommit(ctx.blocksByHash[parentHash], qc); }
      }
      var nextView := Succ32(qc.view);
      if cfg.IsLeader(nextView) { tasks := tasks + [Advance(nextView, qc)]; }
    }

    method TryFormQCIfQuorum(view: uint32, node: Hash, voteCount: nat, env: Env)
      requires Valid() && voteCount == |Spec.VotesFor(ctx.State(), view, node)|
      modifies this, ctx
      ensures Valid() && Now() == TryFormQC(cfg, old(Now()), view, node, env)
    {
      hide Replica.UseQC, QuorumCert.Form, QuorumCert.Valid;
      if voteCount < cfg.Quorum() { return; }
      var votes := ctx.GetVotes(view, node);
      AnyOrder(cfg, ctx.votes, ctx.State(), view, node, votes);
      var qc := QuorumCert.NewQC(view, node, votes, cfg.validators, QuorumCert.ED25519);
      if qc.None? { return; }
      var ok := QuorumCert.Validate(qc.value, cfg.validators);
      if !ok { return; }
      UseQC(qc.value, env);
    }

    method OnProposal(view: uint32, block: Block, justify: Option<QC>, env: Env)
      requires Valid()
      modifies this, ctx
      ensures Valid() && Now() == Replica.OnProposal(cfg, old(Now()), view, block, justify, env)
    {
      hide VoteOn, Filed, Spec.HasVoted;
      ghost var s := Now();
      if justify.Some? && view > ctx.view {
        if justify.value.view >= Spec.ViewOrZero(ctx.highQC) {
          var higher := justify.value.view > Spec.ViewOrZero(ctx.highQC);
          EnterView(view, env);
          if higher {
            var _ := ctx.UpdateHighQC(justify);
            ctx.AddQC(justify.value);
          }
        }
      }
      assert Now() == SyncToProposal(s, view, justify, env);
      if view != ctx.view { return; }
      if !env.accept { return; }
      if cfg.IsLeader(view) { return; }
      var voted := ctx.HasVoted(view, cfg.me);
      if voted { return; }
      if !env.verifyOk { return; }
      VoteFor(view, block, justify, env);
    }

    /** The rest of onProposal, for a verified block. */
    method VoteFor(view: uint32, block: Block, justify: Option<QC>, env: Env)
      requires Valid()
      modifies this, ctx
      ensures Valid() && Now() == VoteOn(cfg, old(Now()), view, block, justify, env)
    {
      hide TryFormQC, Filed, Spec.SafeToVote, SignVote;
      ctx.AddBlock(block);
      if !env.putBlock { return; }
      var safe := ctx.SafeToVote(block, justify);
      if !safe { return; }
      ghost var s := Now();
      if justify.Some? {
        ctx.AddQC(justify.value);
        var raised := Lock(justify.value, env);
        if raised && !env.putLock { return; }
      }
      assert Now() == LockJustify(s, justify, env);
      if env.signed.None? { return; }
      SignAndSend(view, block, justify, s.ctx.lockedQC, env);
    }

    method SignAndSend(view: uint32, block: Block, justify: Option<QC>, ghost lockBefore: Option<QC>, env: Env)
      requires Valid() && env.signed.Some?
      modifies this, ctx
      ensures Valid() && Now() == CastVote(cfg, old(Now()), view, block, justify, lockBefore, env)
    {
      hide TryFormQC, Spec.VotesFor;
      var vote := SignVote(cfg, view, block.hash, env.signed.value);
      sent := sent + [VoteMsg(view, cfg.me, vote)];
      casts := casts + [Cast(view, block.hash, true, justify, lockBefore, ctx.lockedQC, horizon)];
      AddKeepsFiled(ctx.State(), vote);
      var voteCount := ctx.AddVote(vote);
      TryFormQCIfQuorum(view, block.hash, voteCount, env);
    }

    method OnVote(vote: Vote, env: Env)
      requires Valid()
      modifies this, ctx
      ensures Valid() && Now() == Replica.OnVote(cfg, old(Now()), vote, env)
    {
      hide TryFormQC, Spec.VotesFor, Admits;
      if !Admits(cfg, vote, env.now) { return; }
      AddKeepsFiled(ctx.State(), vote);
      var voteCount := ctx.AddVote(vote);
      TryFormQCIfQuorum(vote.view, vote.node, voteCount, env);
    }

    /** The common part of propose and proposeWithNewViewQuorum. */
    method ProposeOn(view: uint32, justify: Option<QC>, env: Env)
      requires Valid()
      modifies this, ctx
      ensures Valid() && Now() == Replica.ProposeOn(cfg, old(Now()), view, justify, env)
    {
      hide LeaderVote, GatedVote, Filed;
      var parentHash, height: uint32 := ZERO_HASH, 1;
      if justify.Some? {
        parentHash := justify.value.node;
        if parentHash in ctx.blocksByHash { height := Succ32(ctx.blocksByHash[parentHash].height); }
      }
      if env.created.None? { return; }
      var block := Block(env.created.value, height, parentHash);
      assert block == NewBlock(ctx.State(), justify, env.created.value);
      ctx.AddBlock(block);
      made := made + [Made(view, block, justify)];
      if !env.putBlock { return; }
      sent := sent + [Msg.Propose(view, cfg.me, block, justify)];
      VoteAsLeader(view, block.hash, justify, env);
    }

    method VoteAsLeader(view: uint32, node: Hash, justify: Option<QC>, env: Env)
      requires Valid()
      modifies this, ctx
      ensures Valid() && Now() == LeaderVote(cfg, old(Now()), view, node, justify, old(ctx.lockedQC), env)
    {
      hide TryFormQC, Spec.VotesFor;
      if env.signed.None? { return; }
      var vote := SignVote(cfg, view, node, env.signed.value);
      casts := casts + [Cast(view, node, false, justify, ctx.lockedQC, ctx.lockedQC, horizon)];
      AddKeepsFiled(ctx.State(), vote);
      var voteCount := ctx.AddVote(vote);
      TryFormQCIfQuorum(view, node, voteCount, env);
    }

    method Propose(env: Env)
      requires Valid()
      modifies this, ctx
      ensures Valid() && Now() == DoPropose(cfg, old(Now()), env)
    {
      hide Replica.ProposeOn;
      if !cfg.IsLeader(ctx.view) { return; }
      ProposeOn(ctx.view, ctx.highQC, env);
    }

    /** `hint` is the certificate the iteration over the NEWVIEWs came upon. */
    method ProposeWithNewViewQuorum(view: uint32, env: Env) returns (ghost hint: Option<QC>)
      requires Valid()
      modifies this, ctx
      ensures Valid() && Now() == Replica.ProposeWithNewViewQuorum(cfg, old(Now()), view, env.(hint := hint))
    {
      hide Replica.ProposeOn, Spec.IsHighest;
      hint := env.hint;
      if !cfg.IsLeader(view) { return; }
      if ctx.view != view { return; }
      var justify := ctx.HighestQCFromNewViews(view);
      hint := justify;
      if justify.None? { justify := ctx.highQC; }
      ghost var s := Now();
      NothingHighest(ctx.State(), view, hint);
      assert Replica.ProposeWithNewViewQuorum(cfg, s, view, env.(hint := hint))
          == Replica.ProposeOn(cfg, s, view, justify, env.(hint := hint));
      HintUnused(cfg, s, view, justify, env, hint);
      ProposeOn(view, justify, env);
    }

    /** PruneVotes as both view changes call it, with the horizon it leaves. */
    method Prune(nextView: uint32)
      requires Valid()
      modifies this, ctx
      ensures Valid() && Now() == Replica.Prune(old(Now()), nextView)
    {
      ctx.PruneVotes(nextView, Spec.KEEP_VIEWS);
      horizon := if Spec.PruneBelow(nextView) > horizon then Spec.PruneBelow(nextView) else horizon;
    }

    /** Broadcasts a NEWVIEW with the high certificate and counts it. */
    method AnnounceView(view: uint32)
      requires Valid()
      modifies this, ctx
      ensures Valid() && Now() == Replica.AnnounceView(cfg, old(Now()), view)
    {
      var highQC := ctx.highQC;
      sent := sent + [NewView(view, cfg.me, highQC)];
      var _ := ctx.AddNewView(view, cfg.me, highQC);
    }

    method AdvanceViewWithQC(nextView: uint32, env: Env)
      requires Valid()
      modifies this, ctx
      ensures Valid() && Now() == Replica.AdvanceViewWithQC(cfg, old(Now()), nextView, env)
    {
      hide Replica.EnterView, Replica.Prune, Filed;
      EnterView(nextView, env);
      Prune(nextView);
      if cfg.IsLeader(nextView) { tasks := tasks + [StartProposing]; }
    }

    method AdvanceView(nextView: uint32, env: Env) returns (ghost hint: Option<QC>)
      requires Valid()
      modifies this, ctx
      ensures Valid() && Now() == Replica.AdvanceView(cfg, old(Now()), nextView, env.(hint := hint))
    {
      hide Replica.AdvanceView, Replica.EnterView, Replica.Prune;
      hide Replica.AnnounceView, Replica.ProposeWithNewViewQuorum, Filed;
      hint := env.hint;
      ghost var s := Now();
      EnterView(nextView, env);
      Prune(nextView);
      AnnounceView(nextView);
      ghost var s1 := Now();
      if cfg.IsLeader(nextView) {
        var enough := ctx.HasNewViewQuorum(nextView, cfg.Quorum());
        if enough { hint := ProposeWithNewViewQuorum(nextView, env); }
      }
      AdvanceSteps(cfg, s, s1, nextView, env, hint);
    }

    method OnViewTimeout(view: uint32, env: Env) returns (ghost hint: Option<QC>)
      requires Valid()
      modifies this, ctx
      ensures Valid() && Now() == OnTimeout(cfg, old(Now()), view, env.(hint := hint))
    {
      hide Replica.AdvanceView;
      hint := env.hint;
      var currentView := ctx.view;
      if view != currentView { return; }
      hint := AdvanceView(Succ32(currentView), env);
    }

    method OnNewView(view: uint32, sender: uint16, qc: Option<QC>, env: Env) returns (ghost hint: Option<QC>)
      requires Valid()
      modifies this, ctx
      ensures Valid() && Now() == Replica.OnNewView(cfg, old(Now()), view, sender, qc, env.(hint := hint))
    {
      hide Replica.OnNewView, Replica.SyncForward;
      hide Replica.TrackNewView, Replica.ProposeWithNewViewQuorum, Replica.SyncBack;
      hide Filed, Spec.HasNewViewQuorum;
      hint := env.hint;
      ghost var s := Now();
      TrackNewView(view, sender, qc);
      SyncForward(view, qc, env);
      ghost var s2 := Now();
      if cfg.IsLeader(view) {
        SyncBack(view, env);
        hint := Lead(view, env);
      }
      NewViewSteps(cfg, s, s2, view, sender, qc, env, hint);
    }

    /** Records a NEWVIEW message and its certificate. */
    method TrackNewView(view: uint32, sender: uint16, qc: Option<QC>)
      requires Valid()
      modifies this, ctx
      ensures Valid() && Now() == Replica.TrackNewView(old(Now()), view, sender, qc)
    {
      var _ := ctx.AddNewView(view, sender, qc);
      if qc.Some? {
        var _ := ctx.UpdateHighQC(qc);
        ctx.AddQC(qc.value);
      }
    }

    /** The leader's way back to a view with a NEWVIEW quorum it has not voted in. */
    method SyncBack(view: uint32, env: Env)
      requires Valid()
      modifies this, ctx
      ensures Valid() && Now() == Replica.SyncBack(cfg, old(Now()), view, env)
    {
      hide Filed, Spec.HasVoted, Spec.HasNewViewQuorum, Replica.EnterView;
      if view < ctx.view {
        var quorate := ctx.HasNewViewQuorum(view, cfg.Quorum());
        if quorate {
          var voted := ctx.HasVoted(view, cfg.me);
          if !voted { EnterView(view, env); }
        }
      }
    }

    /** The leader of the view proposes once it is in that view and has the quorum. */
    method Lead(view: uint32, env: Env) returns (ghost hint: Option<QC>)
      requires Valid()
      modifies this, ctx
      ensures Valid()
      ensures Now() == if view != old(ctx.view) || !Spec.HasNewViewQuorum(old(ctx.State()), view, cfg.Quorum()) then old(Now())
                       else Replica.ProposeWithNewViewQuorum(cfg, old(Now()), view, env.(hint := hint))
    {
      hide Filed, Replica.ProposeWithNewViewQuorum, Spec.HasNewViewQuorum;
      hint := env.hint;
      if view != ctx.view { return; }
      var enough := ctx.HasNewViewQuorum(view, cfg.Quorum());
      if !enough { return; }
      hint := ProposeWithNewViewQuorum(view, env);
    }

    /** View synchronization forward, on a NEWVIEW of a later view. */
    method SyncForward(view: uint32, qc: Option<QC>, env: Env)
      requires Valid()
      modifies this, ctx
      ensures Valid() && Now() == Replica.SyncForward(cfg, old(Now()), view, qc, env)
    {
      hide Replica.EnterView, Replica.AnnounceView, Filed;
      if view > ctx.view && qc.Some? {
        if qc.value.view >= Spec.ViewOrZero(ctx.highQC) {
          EnterView(view, env);
          AnnounceView(view);
        }
      }
    }

    /** A pending `go` call runs. */
    method RunTask(i: nat, env: Env)
      requires Valid() && i < |tasks|
      modifies this, ctx
      ensures Valid() && Now() == FireTask(cfg, old(Now()), i, env)
    {
      hide Replica.AdvanceViewWithQC, DoPropose, Filed;
      var task := tasks[i];
      tasks := tasks[..i] + tasks[i + 1..];
      match task
      case Advance(view, _) => AdvanceViewWithQC(view, env);
      case StartProposing => Propose(env);
    }

    /** onReceive */
    method Receive(msg: Msg, env: Env) returns (ghost hint: Option<QC>)
      requires Valid()
      modifies this, ctx
      ensures Valid() && Now() == Handle(cfg, old(Now()), Deliver(msg), env.(hint := hint))
    {
      hide Replica.OnProposal, Replica.OnVote, Replica.OnNewView, OnTimeout, FireTask, Filed;
      hint := env.hint;
      match msg
      case Propose(view, _, block, justify) => OnProposal(view, block, justify, env);
      case VoteMsg(_, _, vote) => OnVote(vote, env);
      case NewView(view, sender, qc) => hint := OnNewView(view, sender, qc, env);
    }

    /** One event: a message received, a timeout, or a pending call. */
    method Step(input: Input, env: Env) returns (ghost hint: Option<QC>)
      requires Valid()
      modifies this, ctx
      ensures Valid() && Now() == Handle(cfg, old(Now()), input, env.(hint := hint))
    {
      hide Replica.OnProposal, Replica.OnVote, Replica.OnNewView, OnTimeout, FireTask, Filed;
      hint := env.hint;
      match input
      case Deliver(msg) => hint := Receive(msg, env);
      case Timeout(view) => hint := OnViewTimeout(view, env);
      case Fire(i) => if i < |tasks| { RunTask(i, env); }
    }
  }

  /** The replica built from storage: the last block committed and stored, its certificate as high
      certificate, the higher of that and the stored lock as lock, the stored view, or 0, and nothing
      else. What cannot be read counts as absent. */
  lemma RestoredExactly(st: Storage)
    requires st.lastBlock.Got?
    ensures var s, b := st.Restored(), st.lastBlock.value;
      && s.ctx.view == (if st.viewReadable then st.view else 0)
      && s.ctx.highQC == (if b.Some? && st.lastQC.Got? then Some(st.lastQC.value) else None)
      && (st.lockReadable ==> Spec.NotAbove(st.lock, s.ctx.lockedQC)) && Spec.NotAbove(s.ctx.highQC, s.ctx.lockedQC)
      && (s.ctx.lockedQC == s.ctx.highQC || (st.lockReadable && s.ctx.lockedQC == st.lock))
      && s.ctx.committed == (if b.Some? then map[b.value.height := b.value] else map[])
      && s.ctx.blocks == (if b.Some? then map[b.value.hash := b.value] else map[])
      && s.ctx.qcs == (if s.ctx.highQC.Some? then map[s.ctx.highQC.value.node := s.ctx.highQC.value] else map[])
      && s.ctx.votes == map[] && s.ctx.newviews == map[] && s.ctx.parents == map[]
      && s.sent == [] && s.tasks == [] && s.commits == [] && s.casts == [] && s.made == []
  {}

  lemma SyncIgnoresHint(cfg: Config, s: Node, t: Node, view: uint32, qc: Option<QC>, env: Env, hint: Option<QC>)
    ensures SyncForward(cfg, s, view, qc, env.(hint := hint)) == SyncForward(cfg, s, view, qc, env)
    ensures SyncBack(cfg, t, view, env.(hint := hint)) == SyncBack(cfg, t, view, env)
    ensures EnterView(s, view, env.(hint := hint)) == EnterView(s, view, env)
  {}

  /** onNewView put together from its parts. */
  lemma NewViewSteps(cfg: Config, s: Node, s2: Node, view: uint32, sender: uint16, qc: Option<QC>, env: Env,
      hint: Option<QC>)
    requires s2 == SyncForward(cfg, TrackNewView(s, view, sender, qc), view, qc, env)
    ensures OnNewView(cfg, s, view, sender, qc, env.(hint := hint)) ==
            if !cfg.IsLeader(view) then s2 else
            var s3 := SyncBack(cfg, s2, view, env);
            if view != s3.ctx.view || !Spec.HasNewViewQuorum(s3.ctx, view, cfg.Quorum()) then s3
            else ProposeWithNewViewQuorum(cfg, s3, view, env.(hint := hint))
  {
    hide TrackNewView, ProposeWithNewViewQuorum, Spec.HasNewViewQuorum;
    SyncIgnoresHint(cfg, TrackNewView(s, view, sender, qc), s2, view, qc, env, hint);
    hide SyncForward, SyncBack;
  }

  /** advanceView put together from its parts. */
  lemma AdvanceSteps(cfg: Config, s: Node, s1: Node, next: uint32, env: Env, hint: Option<QC>)
    requires s1 == AnnounceView(cfg, Prune(EnterView(s, next, env), next), next)
    ensures AdvanceView(cfg, s, next, env.(hint := hint)) ==
            if cfg.IsLeader(next) && Spec.HasNewViewQuorum(s1.ctx, next, cfg.Quorum())
            then ProposeWithNewViewQuorum(cfg, s1, next, env.(hint := hint)) else s1
  {
    hide ProposeWithNewViewQuorum, Spec.HasNewViewQuorum, Prune, AnnounceView;
    SyncIgnoresHint(cfg, s, s, next, None, env, hint);
  }

  /** Proposing on a chosen certificate does not look at the NEWVIEWs again. */
  lemma HintUnused(cfg: Config, s: Node, view: uint32, justify: Option<QC>, env: Env, hint: Option<QC>)
    ensures ProposeOn(cfg, s, view, justify, env.(hint := hint)) == ProposeOn(cfg, s, view, justify, env)
  {
    hide FormQC, TryFormQC, Spec.VotesFor, Spec.AddVote, NewBlock, SignVote, Spec.HasVoted, Spec.SafeToVote;
    forall t, node { QCHintUnused(cfg, t, view, node, env, hint); }
  }

  lemma QCHintUnused(cfg: Config, s: Node, view: uint32, node: Hash, env: Env, hint: Option<QC>)
    ensures TryFormQC(cfg, s, view, node, env.(hint := hint)) == TryFormQC(cfg, s, view, node, env)
  {
    hide FormQC, CheckCommit, Spec.VotesFor;
  }

  lemma NothingHighest(c: Spec.Ctx, view: uint32, hint: Option<QC>)
    requires Spec.IsHighest(Spec.NewViewsIn(c, view), hint)
    ensures view !in c.newviews ==> hint == None
  {}

  lemma AddKeepsFiled(c: Spec.Ctx, vote: Vote)
    requires Filed(c.votes)
    ensures Filed(Spec.AddVote(c, vote).votes)
  {}

  /** Any listing of the stored votes gives the certificate of the specification. */
  lemma AnyOrder(cfg: Config, votes: map<uint32, map<Hash, map<uint16, Vote>>>, c: Spec.Ctx, view: uint32,
      node: Hash, listed: seq<Vote>)
    requires votes == c.votes && Filed(votes)
    requires var m := Spec.VotesFor(c, view, node); |listed| == |m| && forall w :: w in listed <==> w in m.Values
    ensures var q := QuorumCert.Form(view, node, listed, cfg.Quorum(), QuorumCert.ED25519);
      FormQC(cfg, view, node, Spec.VotesFor(c, view, node))
      == if q.Some? && QuorumCert.Valid(q.value, cfg.validators) then q else None
  {
    hide QuorumCert.Form, QuorumCert.Valid, QuorumCert.Distinct, QuorumCert.Voters, VotesList;
    var m := Spec.VotesFor(c, view, node);
    var own := VotesList(m);
    ReplicaHistory.ListedDistinct(m, own);
    ReplicaHistory.ListedDistinct(m, listed);
    QuorumCert.OrderIndependent(view, node, own, listed, cfg.Quorum(), QuorumCert.ED25519);
  }
}
