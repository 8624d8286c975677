/** A single replica (n = 1, f = 0) can certify two blocks in one view; for every f >= 1, or with gated
    leaders, certificates are unique in each view. */
module OneReplica {
  import opened Types
  import opened ContextSpec
  import opened Replica
  import opened Cluster
  import opened Signatures
  import Agreement
  import QuorumCert
  import Votes
  import ReplicaProperties

  function Validators(): ValidatorSet {
    ValidatorSet(0, map[0 := []], AnySignature())
  }

  function One(): Setup {
    Setup(1, Validators(), view => 0, i => (digest => Zeros()), false, None, None, i => 0)
  }

  function C(): Config { One().ConfigOf(0) }

  /** Everything outside works; CreateBlock, when asked, returns h. */
  function E(h: Option<Hash>): Env { Env(true, true, true, true, true, true, h, Some(0), 0, None) }

  function V(view: uint32, node: Hash): Vote { Vote(view, node, 0, Zeros(), 0) }

  /** One vote is a quorum. */
  lemma OneVote(view: uint32, node: Hash) returns (qc: QC)
    ensures FormQC(C(), view, node, map[0 := V(view, node)]) == Some(qc)
    ensures qc.view == view && qc.node == node
  {
    hide QuorumCert.Form, QuorumCert.Valid, QuorumCert.Voters, Votes.DigestOf, Zeros;
    var m := map[0 := V(view, node)];
    var votes := VotesList(m);
    assert m.Values == {V(view, node)};
    assert V(view, node) in m.Values;
    assert QuorumCert.Voters(votes) == {0} by { OneVoter(votes, V(view, node)); }
    forall v | v in votes ensures QuorumCert.Authentic(v, Validators()) { assert v in m.Values; }
    QuorumCert.QuorumGivesValidQC(view, node, votes, Validators());
    QuorumCert.FormSound(view, node, votes, 1, QuorumCert.ED25519);
    qc := FormQC(C(), view, node, m).value;
  }

  lemma OneVoter(votes: seq<Vote>, v: Vote)
    requires forall w :: w in votes <==> w in {v}
    ensures QuorumCert.Voters(votes) == {v.validator}
  {
    assert v in votes;
  }

  /** A stored certificate leaves a call of advanceViewWithQC pending. */
  lemma UseQCPends(s: Node, qc: QC, env: Env)
    requires env.putQC
    ensures UseQC(C(), s, qc, env).tasks == s.tasks + [Advance(Succ32(qc.view), qc)]
  {
    hide CheckCommit;
    var s1 := s.(ctx := AddQC(s.ctx, qc));
    var s2 := Lock(s1.(ctx := UpdateHighQC(s1.ctx, Some(qc))), qc, env);
    if qc.node in s2.ctx.blocks && s2.ctx.blocks[qc.node].prevHash in s2.ctx.blocks {
      ReplicaProperties.CheckCommitKeeps(s2, s2.ctx.blocks[s2.ctx.blocks[qc.node].prevHash], qc);
    }
  }

  lemma VotesElsewhere(c: Ctx, v: Vote)
    ensures forall view, node ::
      view != v.view || node != v.node ==> VotesFor(AddVote(c, v), view, node) == VotesFor(c, view, node)
    ensures VotesFor(AddVote(c, v), v.view, v.node) == VotesFor(c, v.view, v.node)[v.validator := v]
  {}

  /** t is s after it proposed the block h and certified it at once. */
  ghost predicate Certifies(s: Node, t: Node, view: uint32, h: Hash, qc: QC) {
    && qc.view == view && qc.node == h && t.ctx.qcs == s.ctx.qcs[h := qc]
    && t.ctx.view == s.ctx.view && t.horizon == s.horizon && t.tasks == s.tasks + [Advance(Succ32(view), qc)]
    && (forall v, node :: v != view || node != h ==> VotesFor(t.ctx, v, node) == VotesFor(s.ctx, v, node))
    && |t.made| == |s.made| + 1 && t.made[..|s.made|] == s.made && t.made[|s.made|].block.hash == h
  }

  lemma ProposesAndCertifies(s: Node, view: uint32, justify: Option<QC>, h: Hash) returns (t: Node, qc: QC)
    requires VotesFor(s.ctx, view, h) == map[]
    ensures t == ProposeOn(C(), s, view, justify, E(Some(h))) && Certifies(s, t, view, h, qc)
  {
    hide FormQC, UseQC, NewBlock, VotesFor, AddVote;
    var env := E(Some(h));
    t := ProposeOn(C(), s, view, justify, env);
    qc := OneVote(view, h);
    var block := NewBlock(s.ctx, justify, h);
    var s1 := s.(ctx := AddBlock(s.ctx, block), made := s.made + [Made(view, block, justify)]);
    var s2 := Send(s1, Propose(view, 0, block, justify));
    var s3 := s2.(ctx := AddVote(s2.ctx, V(view, h)),
                  casts := s2.casts + [Cast(view, h, false, justify, s2.ctx.lockedQC, s2.ctx.lockedQC, s2.horizon)]);
    VotesElsewhere(s2.ctx, V(view, h));
    SameVotesFor(s.ctx, s2.ctx);
    assert SignVote(C(), view, h, 0) == V(view, h);
    assert t == UseQC(C(), s3, qc, env);
    UseQCPends(s3, qc, env);
    ReplicaProperties.UseQCKeeps(C(), s3, qc, env);
    SameVotesFor(s3.ctx, t.ctx);
    ReplicaProperties.AddVoteView(s2.ctx, V(view, h));
    AddVoteOnly(s2.ctx, V(view, h));
  }

  lemma CertifiesToo(s: Node, r: Node, t: Node, view: uint32, h: Hash, qc: QC)
    requires Certifies(s, t, view, h, qc)
    requires r == s.(ctx := s.ctx.(newviews := r.ctx.newviews), sent := r.sent, storedView := r.storedView)
    ensures Certifies(r, t, view, h, qc)
  {
    hide VotesFor;
    SameVotesFor(r.ctx, s.ctx);
  }

  lemma SameVotesFor(c: Ctx, d: Ctx)
    requires c.votes == d.votes
    ensures forall view, node :: VotesFor(c, view, node) == VotesFor(d, view, node)
  {
    forall view ensures VotesIn(c, view) == VotesIn(d, view) {}
  }

  lemma AddVoteOnly(c: Ctx, v: Vote)
    ensures AddVote(c, v) == c.(votes := AddVote(c, v).votes)
  {}

  // ---- The run: no message is delivered, only pending calls and one timer fire ----

  const X := Hash([1])
  const A := Hash([2])
  const B := Hash([3])

  const FIRST := Action(0, Fire(0), E(Some(X)))
  const SECOND := Action(0, Timeout(0), E(Some(A)))
  const THIRD := Action(0, Fire(0), E(None))
  const FOURTH := Action(0, Fire(1), E(Some(B)))

  ghost predicate Does(s: Node, a: Action, t: Node) { t == Handle(C(), s, a.input, a.env) }

  /** The proposal of Start is certified in view 0 and leaves the advance to view 1 pending. */
  lemma Starts() returns (s: Node, q: QC)
    ensures Does(Boot(One(), 0), FIRST, s) && Certifies(DropTask(Boot(One(), 0), 0), s, 0, X, q)
  {
    hide ProposeOn, Certifies;
    var b := DropTask(Boot(One(), 0), 0);
    s, q := ProposesAndCertifies(b, 0, b.ctx.highQC, X);
  }

  /** The replica times out into view 1 and proposes there. */
  lemma TimesOut(s: Node) returns (t: Node, q: QC)
    requires s.ctx.view == 0 && VotesFor(s.ctx, 1, A) == map[]
    ensures Does(s, SECOND, t) && Certifies(s.(ctx := s.ctx.(view := 1)), t, 1, A, q)
  {
    hide ProposeOn, PruneVotes, HighestQC, VotesFor, Certifies;
    NothingPruned(s.ctx.(view := 1), 1);
    var s0 := AnnounceView(C(), EnterView(s, 1, SECOND.env), 1);
    var m := NewViewsIn(s.ctx, 1)[0 := s.ctx.highQC];
    assert s0.ctx.newviews[1] == m && |m| >= 1 by { assert 0 in m; }
    var best := HighestQC(m, None);
    var justify := if best.Some? then best else s.ctx.highQC;
    assert Handle(C(), s, Timeout(0), SECOND.env) == ProposeOn(C(), s0, 1, justify, SECOND.env);
    SameVotesFor(s.ctx, s0.ctx);
    t, q := ProposesAndCertifies(s0, 1, justify, A);
    CertifiesToo(s0, s.(ctx := s.ctx.(view := 1)), t, 1, A, q);
  }

  /** The pending advance finds the replica in view 1 already and leaves a proposal pending. */
  lemma Advances(s: Node) returns (t: Node)
    requires s.ctx.view == 1 && |s.tasks| == 2 && s.tasks[0].Advance? && s.tasks[0].view == 1
    ensures Does(s, THIRD, t) && t.ctx == s.ctx && t.tasks == [s.tasks[1], StartProposing]
    ensures t.made == s.made && t.horizon == s.horizon
  {
    hide PruneVotes;
    t := Handle(C(), s, Fire(0), THIRD.env);
    NothingPruned(s.ctx, 1);
    assert s.ctx.(view := 1) == s.ctx;
  }

  /** That proposal makes a second block in view 1, which is certified as well. */
  lemma ProposesAgain(s: Node) returns (t: Node, q: QC)
    requires s.ctx.view == 1 && |s.tasks| == 2 && s.tasks[1] == StartProposing && VotesFor(s.ctx, 1, B) == map[]
    ensures Does(s, FOURTH, t) && Certifies(DropTask(s, 1), t, 1, B, q)
  {
    hide ProposeOn, Certifies;
    t, q := ProposesAndCertifies(DropTask(s, 1), 1, s.ctx.highQC, B);
  }

  // ---- For which fault bounds certificates are unique ----

  ghost predicate TwoHeld(c: State, i: uint16, q: QC, j: uint16, p: QC) {
    i < |c.nodes| && Agreement.Holds(c.nodes[i], q) && j < |c.nodes| && Agreement.Holds(c.nodes[j], p)
  }

  /** All certificates held in a state for one view, other than the genesis certificate, are for one block. */
  ghost predicate Unique(su: Setup, c: State) {
    forall i: uint16, q: QC, j: uint16, p: QC ::
      TwoHeld(c, i, q, j, p) && su.genesisQC != Some(q) && su.genesisQC != Some(p) && q.view == p.view ==> q.node == p.node
  }

  /** A run of 3f+1 replicas in which no view falls below its prune horizon. */
  ghost predicate HorizonRun(f: nat, gated: bool, su: Setup, states: seq<State>, actions: seq<Action>) {
    && SetupOk(su) && su.n == 3 * f + 1 && su.validators.f == f && su.gated == gated
    && Run(su, states, actions) && Agreement.AboveHorizon(states, actions)
  }

  ghost predicate AlwaysUnique(f: nat, gated: bool) {
    forall su, states, actions, k: nat ::
      HorizonRun(f, gated, su, states, actions) && k < |states| ==> Unique(su, states[k])
  }

  /** A step of the only replica that creates the block h. */
  lemma CreateStep(c: State, s: Node, a: Action, t: Node, h: Hash) returns (d: State)
    requires c.nodes == [s] && a.replica == 0 && !a.input.Deliver? && a.env.created == Some(h)
    requires h !in c.created && h != ZERO_HASH && Does(s, a, t)
    requires |t.made| == |s.made| + 1 && t.made[..|s.made|] == s.made && t.made[|s.made|].block.hash == h
    ensures Leads(One(), c, a, d) && d.nodes == [t] && d.created.Keys == c.created.Keys + {h}
  {
    hide Handle, NewVotes;
    d := Next(One(), c, a);
    assert t.made == s.made + [t.made[|s.made|]];
    OneNewBlock(c.created, s.made, t.made[|s.made|]);
  }

  lemma QuietStep(c: State, s: Node, a: Action, t: Node) returns (d: State)
    requires c.nodes == [s] && a.replica == 0 && !a.input.Deliver? && a.env.created.None?
    requires Does(s, a, t) && t.made == s.made
    ensures Leads(One(), c, a, d) && d.nodes == [t] && d.created == c.created
  {
    hide Handle, NewVotes;
    d := Next(One(), c, a);
    NoNewBlocks(c.created, s.made);
  }

  lemma StoredIsHeld(s: Node, h: Hash)
    requires h in s.ctx.qcs
    ensures Agreement.Holds(s, s.ctx.qcs[h])
  {}

  /** The states of the replica along the run. */
  lemma ReplicaRun() returns (s1: Node, s2: Node, s3: Node, s4: Node, q: QC, p: QC)
    ensures Does(Boot(One(), 0), FIRST, s1) && Does(s1, SECOND, s2) && Does(s2, THIRD, s3) && Does(s3, FOURTH, s4)
    ensures s1.ctx.view == 0 && s2.ctx.view == s3.ctx.view == s4.ctx.view == 1
    ensures s1.horizon == s2.horizon == s3.horizon == s4.horizon == 0
    ensures |s1.made| == 1 && s1.made[0].block.hash == X
    ensures |s2.made| == 2 && s2.made[..1] == s1.made && s2.made[1].block.hash == A
    ensures s3.made == s2.made
    ensures |s4.made| == 3 && s4.made[..2] == s3.made && s4.made[2].block.hash == B
    ensures A in s4.ctx.qcs && s4.ctx.qcs[A] == q && q.view == 1 && q.node == A
    ensures B in s4.ctx.qcs && s4.ctx.qcs[B] == p && p.view == 1 && p.node == B
  {
    hide VotesFor, Does;
    Different();
    var b := Boot(One(), 0);
    NoVotes(b.ctx);
    var q0;
    s1, q0 := Starts();
    s2, q := TimesOut(s1);
    SameVotesFor(s1.ctx, s1.ctx.(view := 1));
    s3 := Advances(s2);
    s4, p := ProposesAgain(s3);
  }

  lemma NoVotes(c: Ctx)
    requires c.votes == map[]
    ensures forall view, node :: VotesFor(c, view, node) == map[]
  {}

  lemma Different()
    ensures X != A && X != B && A != B && X != ZERO_HASH && A != ZERO_HASH && B != ZERO_HASH
  {
    assert X.bytes[0] == 1 && A.bytes[0] == 2 && B.bytes[0] == 3;
  }

  /** The states of the cluster along the run. */
  lemma ClusterRun() returns (c1: State, c2: State, c3: State, c4: State)
    ensures Leads(One(), Init(One()), FIRST, c1) && Leads(One(), c1, SECOND, c2)
    ensures Leads(One(), c2, THIRD, c3) && Leads(One(), c3, FOURTH, c4)
    ensures InView(Init(One()), 0) && InView(c1, 0) && InView(c2, 1) && InView(c3, 1) && InView(c4, 1)
    ensures !Unique(One(), c4)
  {
    hide Leads, Agreement.Holds, Does;
    Different();
    var s1, s2, s3, s4, q, p := ReplicaRun();
    StartsAlone();
    c1 := CreateStep(Init(One()), Boot(One(), 0), FIRST, s1, X);
    c2 := CreateStep(c1, s1, SECOND, s2, A);
    c3 := QuietStep(c2, s2, THIRD, s3);
    c4 := CreateStep(c3, s3, FOURTH, s4, B);
    StoredIsHeld(s4, A);
    StoredIsHeld(s4, B);
    assert TwoHeld(c4, 0, q, 0, p);
  }

  /** The replica is in the given view and has pruned nothing. */
  ghost predicate InView(c: State, view: uint32) {
    |c.nodes| == 1 && c.nodes[0].ctx.view == view && c.nodes[0].horizon == 0
  }

  /** A run without any message in which one view ends up with two certificates, although no view falls. */
  lemma TwoCertificates() returns (states: seq<State>, actions: seq<Action>)
    ensures HorizonRun(0, false, One(), states, actions) && |actions| == 4 && !Unique(One(), states[4])
    ensures Agreement.ViewsNeverFall(states, actions) && forall k :: 0 <= k < 4 ==> !actions[k].input.Deliver?
  {
    hide Leads, Init, Unique;
    var c0 := Init(One());
    var c1, c2, c3, c4 := ClusterRun();
    states, actions := [c0, c1, c2, c3, c4], [FIRST, SECOND, THIRD, FOURTH];
    assert states[1] == c1 && states[2] == c2 && states[3] == c3 && states[4] == c4;
    assert InView(states[0], 0);
  }

  lemma StartsAlone()
    ensures Init(One()).nodes == [Boot(One(), 0)] && Init(One()).created == map[]
    ensures Boot(One(), 0).ctx.view == 0 && Boot(One(), 0).made == []
  {}

  /** Certificates of one view agree on the block exactly when f >= 1 or leaders are gated. */
  lemma UniqueExactly(f: nat, gated: bool)
    ensures AlwaysUnique(f, gated) <==> gated || f >= 1
  {
    hide Unique, HorizonRun;
    if f == 0 && !gated {
      var states, actions := TwoCertificates();
      assert |states| == 5 by { FiveStates(states, actions); }
    } else {
      forall su, states, actions, k: nat | HorizonRun(f, gated, su, states, actions) && k < |states|
        ensures Unique(su, states[k])
      {
        EveryOtherUnique(f, gated, su, states, actions, k);
      }
    }
  }

  lemma FiveStates(states: seq<State>, actions: seq<Action>)
    requires HorizonRun(0, false, One(), states, actions) && |actions| == 4
    ensures |states| == 5
  {}

  lemma EveryOtherUnique(f: nat, gated: bool, su: Setup, states: seq<State>, actions: seq<Action>, k: nat)
    requires (gated || f >= 1) && HorizonRun(f, gated, su, states, actions) && k < |states|
    ensures Unique(su, states[k])
  {
    hide Agreement.Holds, Run, Agreement.AboveHorizon;
    forall i: uint16, q: QC, j: uint16, p: QC |
      TwoHeld(states[k], i, q, j, p) && su.genesisQC != Some(q) && su.genesisQC != Some(p) && q.view == p.view
      ensures q.node == p.node
    {
      Agreement.UniqueCertificatePerView(su, states, actions, k, i, q, j, p);
    }
  }
}
