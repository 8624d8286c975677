/** One replica over several lives: what a restart from storage keeps, what it forgets, and exactly
    when it leads to a second vote in one view. */
module Restarts {
  import opened Types
  import opened ContextSpec
  import opened Replica
  import opened ReplicaProperties
  import opened ReplicaHistory
  import opened Signatures

  /** With working storage the stored view is the live one after every step, and a replica rebuilt
      from storage holds a lock no lower than any taken since the start. */
  lemma RestartKeepsLock(cfg: Config, b: Start, states: seq<Node>, steps: seq<Step>, k: nat,
      lastBlock: Option<Block>, lastQC: Option<QC>)
    requires Life(cfg, b, states, steps) && AllReliable(steps) && k < |states|
    ensures var s := states[k];
      var t := Fresh(cfg, Start(lastBlock, lastQC, s.storedView, s.storedLock));
      && s.storedView == s.ctx.view == t.ctx.view
      && (s.ctx.lockedQC != states[0].ctx.lockedQC || NotAbove(b.lastQC, lastQC) ==> NotAbove(s.ctx.lockedQC, t.ctx.lockedQC))
  {
    hide Handle, Good;
    FreshGood(cfg, b);
    RunsOnward(Frame(cfg, states[0].ctx.committed, states[0].ctx.lockedQC, b.lock), states, steps, k);
  }

  /** One life of a replica, from its start to a crash. */
  datatype Past = Past(start: Start, states: seq<Node>, steps: seq<Step>)

  ghost predicate Lived(cfg: Config, p: Past) { Life(cfg, p.start, p.states, p.steps) && AllReliable(p.steps) }

  /** The replica as the crash leaves it. */
  ghost function End(p: Past): Node
    requires p.states != []
  {
    p.states[|p.states| - 1]
  }

  /** The next life starts from the view and lock in storage. */
  ghost predicate Succeeds(before: Past, after: Past) {
    before.states != [] && after.start.view == End(before).storedView && after.start.lock == End(before).storedLock
  }

  /** Lives that follow each other, in which the storage calls succeed. */
  ghost predicate Lives(cfg: Config, lives: seq<Past>) {
    && (forall i :: 0 <= i < |lives| ==> Lived(cfg, lives[i]))
    && (forall i, j :: 0 <= i < j < |lives| && j == i + 1 ==> Succeeds(lives[i], lives[j]))
  }

  // ---- Locks ----

  /** The certificate GetQC returns for the last block does not go back. */
  ghost predicate LastQCsRise(lives: seq<Past>) {
    forall i, j :: 0 <= i < j < |lives| ==> NotAbove(lives[i].start.lastQC, lives[j].start.lastQC)
  }

  /** Across any number of restarts the lock never goes back, if the certificate of the last stored
      block does not: at no point of a later life is it lower than at any point of an earlier one. */
  lemma {:induction false} LocksSurviveRestarts(cfg: Config, lives: seq<Past>, i: nat, k: nat, j: nat, l: nat)
    requires Lives(cfg, lives) && LastQCsRise(lives)
    requires i < j < |lives| && k < |lives[i].states| && l < |lives[j].states|
    ensures NotAbove(lives[i].states[k].ctx.lockedQC, lives[j].states[l].ctx.lockedQC)
    decreases j
  {
    hide Handle, AllReliable, Trace, Fresh;
    var m, x := lives[j - 1], lives[j];
    assert Lived(cfg, m) && Lived(cfg, x) && Succeeds(m, x);
    var last: nat := |m.states| - 1;
    RestartKeepsLock(cfg, m.start, m.states, m.steps, last, x.start.lastBlock, x.start.lastQC);
    assert x.start == Start(x.start.lastBlock, x.start.lastQC, m.states[last].storedView, m.states[last].storedLock);
    LocksNeverFall(cfg, x.states, x.steps, 0, l);
    if i == j - 1 {
      LocksNeverFall(cfg, m.states, m.steps, k, last);
    } else {
      LocksSurviveRestarts(cfg, lives, i, k, j - 1, last);
    }
  }

  // ---- Votes ----

  /** The view never falls. */
  ghost predicate Rising(states: seq<Node>) {
    forall j, k :: 0 <= j <= k < |states| ==> states[j].ctx.view <= states[k].ctx.view
  }

  ghost predicate RisingLives(cfg: Config, lives: seq<Past>) {
    Lives(cfg, lives) && forall i :: 0 <= i < |lives| ==> Rising(lives[i].states)
  }

  /** An onProposal vote cast in a life. */
  ghost predicate Casts(p: Past, c: Cast) { p.states != [] && c in End(p).casts && c.viaProposal }

  /** Some life cast an onProposal vote in the view. */
  ghost predicate VotedBefore(lives: seq<Past>, view: uint32) {
    exists i, c :: 0 <= i < |lives| && Casts(lives[i], c) && c.view == view
  }

  /** Another life after these. */
  ghost predicate Continues(cfg: Config, lives: seq<Past>, next: Past) { RisingLives(cfg, lives + [next]) }

  /** Every further life votes only in views in which none of these did. */
  ghost predicate OnlyNewViews(cfg: Config, lives: seq<Past>) {
    forall next, c :: Continues(cfg, lives, next) && Casts(next, c) ==> !VotedBefore(lives, c.view)
  }

  /** No further life votes against one of these: for a different block in the same view. */
  ghost predicate NoConflict(cfg: Config, lives: seq<Past>) {
    forall next, c, i, d ::
      Continues(cfg, lives, next) && Casts(next, c) && 0 <= i < |lives| && Casts(lives[i], d) && c.view == d.view ==>
        c.node == d.node
  }

  /** While views do not fall, votes are for views between the first and the present one. */
  lemma {:induction false} CastsBetween(cfg: Config, states: seq<Node>, steps: seq<Step>, k: nat)
    requires Trace(cfg, states, steps) && Rising(states) && states[0].casts == [] && k < |states|
    ensures forall c :: c in states[k].casts ==> states[0].ctx.view <= c.view <= states[k].ctx.view
  {
    hide Handle;
    if k > 0 {
      CastsBetween(cfg, states, steps, k - 1);
      var s, t := states[k - 1], states[k];
      assert Follows(cfg, s, steps[k - 1], t);
      HandleSignsHere(cfg, s, steps[k - 1].input, steps[k - 1].env);
      forall c | c in t.casts ensures states[0].ctx.view <= c.view <= t.ctx.view {
        var i :| 0 <= i < |t.casts| && t.casts[i] == c;
        if i < |s.casts| { assert t.casts[i] == t.casts[..|s.casts|][i] == s.casts[i]; }
      }
    }
  }

  lemma LifeViews(cfg: Config, p: Past, c: Cast)
    requires Lived(cfg, p) && Rising(p.states)
    ensures p.start.view <= End(p).ctx.view == End(p).storedView
    ensures Casts(p, c) ==> p.start.view <= c.view <= End(p).ctx.view && !cfg.IsLeader(c.view)
  {
    hide Handle;
    var last: nat := |p.states| - 1;
    RestartKeepsLock(cfg, p.start, p.states, p.steps, last, None, None);
    CastsBetween(cfg, p.states, p.steps, last);
    FreshGood(cfg, p.start);
    VotingAlways(cfg, p.states, p.steps, last);
    if Casts(p, c) {
      var i :| 0 <= i < |End(p).casts| && End(p).casts[i] == c;
      assert Roles(cfg, End(p).casts);
    }
  }

  /** Views rise from life to life. */
  lemma {:induction false} ViewsRise(cfg: Config, lives: seq<Past>, i: nat, j: nat)
    requires RisingLives(cfg, lives) && i <= j < |lives|
    ensures lives[i].states != [] && lives[j].states != []
    ensures End(lives[i]).ctx.view <= End(lives[j]).ctx.view == End(lives[j]).storedView
    ensures i < j ==> End(lives[i]).ctx.view <= lives[j].start.view
    decreases j
  {
    hide Life, AllReliable, Rising;
    assert Lived(cfg, lives[j]) && Lived(cfg, lives[i]);
    NotEmpty(cfg, lives[i]);
    NotEmpty(cfg, lives[j]);
    assert Rising(lives[j].states);
    AnyCastLifeViews(cfg, lives[j]);
    if i < j {
      ViewsRise(cfg, lives, i, j - 1);
      assert Succeeds(lives[j - 1], lives[j]);
    }
  }

  lemma NotEmpty(cfg: Config, p: Past)
    requires Lived(cfg, p)
    ensures p.states != []
  {}

  lemma AnyCastLifeViews(cfg: Config, p: Past)
    requires Lived(cfg, p) && Rising(p.states)
    ensures p.states != [] && p.start.view <= End(p).ctx.view == End(p).storedView
  {
    LifeViews(cfg, p, Cast(0, ZERO_HASH, true, None, None, None, 0));
  }

  /** A later life votes in a view of an earlier one only if that is the view it started in. */
  lemma SameViewIsStart(cfg: Config, lives: seq<Past>, i: nat, d: Cast, j: nat, c: Cast)
    requires RisingLives(cfg, lives) && i < j < |lives|
    requires Casts(lives[i], d) && Casts(lives[j], c) && c.view == d.view
    ensures c.view == lives[j].start.view
  {
    hide Life, AllReliable, Rising;
    assert Lived(cfg, lives[i]) && Lived(cfg, lives[j]) && Rising(lives[i].states) && Rising(lives[j].states);
    LifeViews(cfg, lives[i], d);
    LifeViews(cfg, lives[j], c);
    ViewsRise(cfg, lives, i, j);
  }

  /** The environment in which everything outside works. */
  const FINE := Env(true, true, true, true, true, true, None, Some(0), 0, None)

  /** A replica that has not voted yet votes for a proposal on the block it is locked on. */
  lemma VotesFirst(cfg: Config, s: Node, block: Block) returns (t: Node)
    requires !cfg.IsLeader(s.ctx.view) && s.ctx.votes == map[] && s.casts == []
    requires s.ctx.lockedQC.None? || s.ctx.lockedQC.value.node == block.prevHash
    ensures t == Handle(cfg, s, Deliver(Propose(s.ctx.view, 0, block, None)), FINE)
    ensures t.ctx.view == s.ctx.view && t.storedView == s.storedView
    ensures cfg.Quorum() > 1 ==> t.storedLock == s.storedLock
    ensures |t.casts| == 1 && t.casts[0].viaProposal && t.casts[0].view == s.ctx.view && t.casts[0].node == block.hash
  {
    hide FormQC, UseQC, SafeToVote, VotesFor, AddVote;
    var view := s.ctx.view;
    t := Handle(cfg, s, Deliver(Propose(view, 0, block, None)), FINE);
    SafeHere(s.ctx, block, None);
    var s1 := s.(ctx := AddBlock(s.ctx, block));
    var v := SignVote(cfg, view, block.hash, 0);
    var c := Cast(view, block.hash, true, None, s.ctx.lockedQC, s.ctx.lockedQC, s.horizon);
    var s2 := Send(s1, VoteMsg(view, cfg.me, v)).(casts := s1.casts + [c]);
    var s3 := s2.(ctx := AddVote(s2.ctx, v));
    OwnVoteOnly(s2.ctx, v);
    assert t == CastVote(cfg, s1, view, block, None, s.ctx.lockedQC, FINE) == TryFormQC(cfg, s3, view, block.hash, FINE);
    TryFormQCQuiet(cfg, s3, view, block.hash, FINE);
    AddVoteView(s2.ctx, v);
  }

  /** A life of one step: the replica votes for the first proposal. */
  lemma VotesAtOnce(cfg: Config, b: Start, block: Block) returns (p: Past)
    requires !cfg.IsLeader(b.view)
    requires var lock := Fresh(cfg, b).ctx.lockedQC; lock.None? || lock.value.node == block.prevHash
    ensures p.start == b && Lived(cfg, p) && Rising(p.states) && p.states != []
    ensures End(p).storedView == b.view && (cfg.Quorum() > 1 ==> End(p).storedLock == b.lock)
    ensures |End(p).casts| == 1 && Casts(p, End(p).casts[0])
    ensures End(p).casts[0].view == b.view && End(p).casts[0].node == block.hash
  {
    hide Handle;
    var s := Fresh(cfg, b);
    var t := VotesFirst(cfg, s, block);
    var step := Step(Deliver(Propose(b.view, 0, block, None)), FINE);
    p := Past(b, [s, t], [step]);
    assert Follows(cfg, s, step, t);
  }

  lemma OwnVoteOnly(c: Ctx, v: Vote)
    requires c.votes == map[]
    ensures |VotesFor(AddVote(c, v), v.view, v.node)| == 1
  {
    assert VotesFor(AddVote(c, v), v.view, v.node) == map[v.validator := v];
  }

  lemma OneMore(cfg: Config, lives: seq<Past>, next: Past)
    requires RisingLives(cfg, lives) && lives != [] && Lived(cfg, next) && Rising(next.states)
    requires Succeeds(lives[|lives| - 1], next)
    ensures Continues(cfg, lives, next)
  {
    hide Life, AllReliable, Rising, Succeeds;
    var more, n := lives + [next], |lives|;
    forall i | 0 <= i < |more| ensures Lived(cfg, more[i]) && Rising(more[i].states) {
      if i < n { assert more[i] == lives[i]; }
    }
    forall i, j | 0 <= i < j < |more| && j == i + 1 ensures Succeeds(more[i], more[j]) {
      if j < n { assert more[i] == lives[i] && more[j] == lives[j]; }
    }
  }

  /** A replica that voted in the view it stored votes there again, for another block, whatever last
      block and certificate storage returns: the restart forgot the vote. */
  lemma VotesAgain(cfg: Config, lives: seq<Past>, i: nat, d: Cast, lastBlock: Option<Block>, lastQC: Option<QC>)
    returns (next: Past, c: Cast)
    requires RisingLives(cfg, lives) && i < |lives| && Casts(lives[i], d)
    requires lives[|lives| - 1].states != [] && d.view == End(lives[|lives| - 1]).storedView
    ensures Continues(cfg, lives, next) && Casts(next, c) && c.view == d.view && c.node != d.node
    ensures next.start.lastBlock == lastBlock && next.start.lastQC == lastQC
  {
    hide Life, AllReliable, Rising;
    assert Lived(cfg, lives[i]) && Rising(lives[i].states);
    LifeViews(cfg, lives[i], d);
    var s := End(lives[|lives| - 1]);
    var b := Start(lastBlock, lastQC, s.storedView, s.storedLock);
    var lock := Fresh(cfg, b).ctx.lockedQC;
    var block := Block(Hash(d.node.bytes + [0]), 0, if lock.Some? then lock.value.node else ZERO_HASH);
    assert |block.hash.bytes| != |d.node.bytes|;
    next := VotesAtOnce(cfg, b, block);
    c := End(next).casts[0];
    OneMore(cfg, lives, next);
  }

  lemma NothingForgotten(cfg: Config, lives: seq<Past>)
    requires RisingLives(cfg, lives) && lives != [] && lives[|lives| - 1].states != []
    requires !VotedBefore(lives, End(lives[|lives| - 1]).storedView)
    ensures OnlyNewViews(cfg, lives) && NoConflict(cfg, lives)
  {
    hide RisingLives, Casts, Continues;
    forall next, c, i, d |
      Continues(cfg, lives, next) && Casts(next, c) && 0 <= i < |lives| && Casts(lives[i], d)
      ensures c.view == d.view ==> d.view == End(lives[|lives| - 1]).storedView
    {
      ContinuesAt(cfg, lives, next, i);
      if c.view == d.view { SameViewIsStart(cfg, lives + [next], i, d, |lives|, c); }
    }
  }

  /** After any number of crashes, every further life votes only in new views, and never against an
      earlier vote, exactly when no vote was cast in the view that storage holds. */
  lemma RevotesExactly(cfg: Config, lives: seq<Past>)
    requires RisingLives(cfg, lives) && lives != [] && lives[|lives| - 1].states != []
    ensures OnlyNewViews(cfg, lives) <==> !VotedBefore(lives, End(lives[|lives| - 1]).storedView)
    ensures NoConflict(cfg, lives) <==> !VotedBefore(lives, End(lives[|lives| - 1]).storedView)
  {
    hide RisingLives, Casts, Continues;
    var stored := End(lives[|lives| - 1]).storedView;
    if VotedBefore(lives, stored) {
      var i, d :| 0 <= i < |lives| && Casts(lives[i], d) && d.view == stored;
      var next, c := VotesAgain(cfg, lives, i, d, None, None);
      assert VotedBefore(lives, c.view);
    } else {
      NothingForgotten(cfg, lives);
    }
  }

  lemma ContinuesAt(cfg: Config, lives: seq<Past>, next: Past, i: nat)
    requires Continues(cfg, lives, next) && i < |lives|
    ensures RisingLives(cfg, lives + [next]) && (lives + [next])[i] == lives[i] && (lives + [next])[|lives|] == next
    ensures Succeeds(lives[|lives| - 1], next)
  {
    hide Lived, Rising, Succeeds;
    var more, n := lives + [next], |lives|;
    assert Succeeds(more[n - 1], more[n]);
  }

  /** If no life started in a view already voted in, no two lives voted in one view. */
  lemma VotesUniqueAcrossLives(cfg: Config, lives: seq<Past>, i: nat, d: Cast, j: nat, c: Cast)
    requires RisingLives(cfg, lives)
    requires forall k :: 0 < k < |lives| ==> !VotedBefore(lives[..k], lives[k].start.view)
    requires i < j < |lives| && Casts(lives[i], d) && Casts(lives[j], c)
    ensures c.view != d.view
  {
    hide RisingLives, Casts;
    assert lives[..j][i] == lives[i];
    assert VotedBefore(lives[..j], d.view);
    if c.view == d.view { SameViewIsStart(cfg, lives, i, d, j, c); }
  }

  // ---- A second vote ----

  /** Validator 1 of four, in view 2, which validator 2 leads, with a genesis block and certificate. */
  function One(): Config {
    Config(1, ValidatorSet(1, map[0 := [], 1 := [], 2 := [], 3 := []], AnySignature()),
           (view: uint32) => (view % 4) as uint16, digest => Zeros(), false)
  }

  const GENESIS := Block(Hash([0]), 0, ZERO_HASH)
  const ROOT := QC(0, Hash([0]), [], [], [], [])
  const FIRST := Block(Hash([1]), 1, Hash([0]))
  const SECOND := Block(Hash([2]), 1, Hash([0]))

  /** Two lives with working storage: the replica votes for FIRST, crashes, and votes for SECOND in the
      same view. */
  lemma TwoVotes() returns (lives: seq<Past>, d: Cast, c: Cast)
    ensures RisingLives(One(), lives) && |lives| == 2
    ensures Casts(lives[0], d) && Casts(lives[1], c) && d.view == c.view == 2
    ensures d.node == FIRST.hash && c.node == SECOND.hash && d.node != c.node
  {
    hide Life, AllReliable, Rising;
    var b := Start(Some(GENESIS), Some(ROOT), 2, None);
    var p := VotesAtOnce(One(), b, FIRST);
    var q := VotesAtOnce(One(), b, SECOND);
    lives, d, c := [p, q], End(p).casts[0], End(q).casts[0];
    assert Succeeds(p, q);
    assert FIRST.hash.bytes[0] != SECOND.hash.bytes[0];
  }
}
