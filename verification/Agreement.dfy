/** The safety theorems, over every run of a cluster. */
module Agreement {
  import opened Types
  import opened ContextSpec
  import opened Replica
  import opened ReplicaProperties
  import opened VoteLog
  import opened Cluster
  import opened ClusterInvariant
  import QuorumCert

  ghost predicate Inv(su: Setup, c: State) {
    && |c.nodes| == su.n <= 0x1_0000 && WorldOk(WorldOf(su, c))
    && forall i: uint16 :: i < su.n ==> Sound(WorldOf(su, c), su.ConfigOf(i), c.nodes[i])
  }

  lemma InitInv(su: Setup)
    requires SetupOk(su)
    ensures Inv(su, Init(su))
  {
    hide Sound;
    var c := Init(su);
    forall i: uint16 | i < su.n ensures Sound(WorldOf(su, c), su.ConfigOf(i), c.nodes[i]) {
      assert c.nodes[i] == Boot(su, i);
      BootSound(su, i);
    }
  }

  lemma BootSound(su: Setup, i: uint16)
    requires SetupOk(su) && i < su.n
    ensures Sound(WorldOf(su, Init(su)), su.ConfigOf(i), Boot(su, i))
  {
    var w, s := WorldOf(su, Init(su)), Boot(su, i);
    assert KnowsQCs(w, s.ctx.qcs) && KnowsNewViews(w, s.ctx.newviews);
    assert KnowsBlocks(w, s.ctx.blocks, s.ctx.parents);
    assert KnowsCommits(w, s.commits, s.ctx.committed);
  }

  lemma {:induction false} OthersVotes(r: uint16, i: uint16, log: seq<Logged>, before: seq<Cast>, after: seq<Cast>)
    requires i != r
    ensures Mine(log + NewVotes(r, before, after), i) == Mine(log, i)
    decreases |after|
  {
    if |after| <= |before| {
      assert log + NewVotes(r, before, after) == log;
    } else {
      var n := |after| - 1;
      OthersVotes(r, i, log, before, after[..n]);
      var more := log + NewVotes(r, before, after);
      assert more[..|more| - 1] == log + NewVotes(r, before, after[..n]);
    }
  }

  lemma StepInv(su: Setup, c: State, a: Action)
    requires Inv(su, c) && Allowed(su, c, a)
    ensures Inv(su, Next(su, c, a)) && Grows(WorldOf(su, c), WorldOf(su, Next(su, c, a)))
  {
    hide Handle, Knows, WorldOk, VotingInv;
    var w, r := WorldOf(su, c), a.replica;
    var s := c.nodes[r];
    var t := Handle(su.ConfigOf(r), s, a.input, a.env);
    var d := Next(su, c, a);
    var x := WorldOf(su, d);
    if a.input.Deliver? {
      var j :| 0 <= j < |c.nodes| && a.input.msg in c.nodes[j].sent;
      assert Sound(w, su.ConfigOf(j), c.nodes[j]);
      MessageKnown(w, c.nodes[j], a.input.msg);
    }
    HandleStep(w, su.ConfigOf(r), s, a.input, a.env);
    assert x == Extended(w, r, s, t);
    forall i: uint16 | i < su.n ensures Sound(x, su.ConfigOf(i), d.nodes[i]) {
      assert Sound(w, su.ConfigOf(i), c.nodes[i]);
      if i != r {
        KnowsStays(w, x, c.nodes[i]);
        OthersVotes(r, i, w.log, s.casts, t.casts);
      }
    }
  }

  lemma MessageKnown(w: World, s: Node, m: Msg)
    requires Knows(w, s) && m in s.sent
    ensures MsgKnown(w, m)
  {}

  lemma {:induction false} InvAlways(su: Setup, states: seq<State>, actions: seq<Action>, k: nat)
    requires SetupOk(su) && Run(su, states, actions) && k < |states|
    ensures Inv(su, states[k])
  {
    hide Next, Allowed, Inv, Init;
    if k == 0 {
      InitInv(su);
    } else {
      InvAlways(su, states, actions, k - 1);
      assert Leads(su, states[k - 1], actions[k - 1], states[k]);
      StepInv(su, states[k - 1], actions[k - 1]);
    }
  }

  // ---- QC integrity ----

  /** Where a replica holds a certificate: as lock or high certificate, by block, from a NEWVIEW,
      in a message it broadcast, or in a pending task. */
  ghost predicate Holds(s: Node, q: QC) {
    || s.ctx.lockedQC == Some(q) || s.ctx.highQC == Some(q)
    || (exists h :: h in s.ctx.qcs && s.ctx.qcs[h] == q)
    || (exists v, i :: v in s.ctx.newviews && i in s.ctx.newviews[v] && s.ctx.newviews[v][i] == Some(q))
    || (exists m :: m in s.sent && ((m.Propose? && m.justify == Some(q)) || (m.NewView? && m.highQC == Some(q))))
    || (exists k :: k in s.tasks && k.Advance? && k.qc == q)
  }

  /** Every certificate a replica holds anywhere, other than the genesis certificate, is backed by
      votes that at least 2f+1 distinct validators really signed for exactly its view and block. */
  lemma QCIntegrity(su: Setup, states: seq<State>, actions: seq<Action>, k: nat, i: uint16, q: QC)
    requires SetupOk(su) && Run(su, states, actions) && k < |states| && i < |states[k].nodes|
    requires Holds(states[k].nodes[i], q) && su.genesisQC != Some(q)
    ensures |QuorumCert.SetOf(q.signers)| >= su.validators.Quorum()
    ensures forall v :: v in q.signers ==> v in Voters(states[k].log, q.view, q.node)
  {
    hide Run, Holds;
    InvAlways(su, states, actions, k);
    var c := states[k];
    assert Sound(WorldOf(su, c), su.ConfigOf(i), c.nodes[i]);
    HeldIsGenuine(WorldOf(su, c), c.nodes[i], q);
  }

  lemma HeldIsGenuine(w: World, s: Node, q: QC)
    requires WorldOk(w) && Knows(w, s) && Holds(s, q)
    ensures Genuine(w, w.log, q)
  {
    hide Genuine, Voters, CommitKnown;
    if exists m :: m in s.sent && m.Propose? && m.justify == Some(q) {
      var m :| m in s.sent && m.Propose? && m.justify == Some(q);
      assert MsgKnown(w, m);
      assert OriginOk(w, m.block.hash);
    } else if exists m :: m in s.sent && m.NewView? && m.highQC == Some(q) {
      var m :| m in s.sent && m.NewView? && m.highQC == Some(q);
      assert MsgKnown(w, m);
    }
  }

  // ---- Hypotheses on runs ----

  ghost predicate AtHorizon(s: Node) { s.ctx.view >= s.horizon }

  ghost predicate Climbs(s: Node, t: Node) { s.ctx.view <= t.ctx.view < MAX_UINT32 }

  /** The replica that acts ends at or above its prune horizon. */
  ghost predicate ActsAbove(d: State, a: Action) { a.replica < |d.nodes| ==> AtHorizon(d.nodes[a.replica]) }

  /** The view of the replica that acts does not fall, or reach the last 32-bit view, after which the
      counter wraps. */
  ghost predicate ActsUpward(c: State, a: Action, d: State) {
    a.replica < |c.nodes| == |d.nodes| ==> Climbs(c.nodes[a.replica], d.nodes[a.replica])
  }

  /** No replica's view is ever below its prune horizon. */
  ghost predicate AboveHorizon(states: seq<State>, actions: seq<Action>) {
    |states| == |actions| + 1 && forall k :: 0 <= k < |actions| ==> ActsAbove(states[k + 1], actions[k])
  }

  /** No replica's view falls. */
  ghost predicate ViewsNeverFall(states: seq<State>, actions: seq<Action>) {
    |states| == |actions| + 1 && forall k :: 0 <= k < |actions| ==> ActsUpward(states[k], actions[k], states[k + 1])
  }

  // ---- One vote per view in the log ----

  ghost predicate CastAbove(casts: seq<Cast>) { forall k :: 0 <= k < |casts| ==> casts[k].view >= casts[k].horizon }

  ghost predicate AllCastAbove(c: State) { forall i :: 0 <= i < |c.nodes| ==> CastAbove(c.nodes[i].casts) }

  lemma {:induction false} CastAboveAlways(su: Setup, states: seq<State>, actions: seq<Action>, k: nat)
    requires SetupOk(su) && Run(su, states, actions) && AboveHorizon(states, actions) && k < |states|
    ensures AllCastAbove(states[k])
  {
    hide Handle, Allowed, CastAbove;
    if k == 0 {
      StartsEmpty(su);
    } else {
      var c, a, d := states[k - 1], actions[k - 1], states[k];
      CastAboveAlways(su, states, actions, k - 1);
      assert Leads(su, c, a, d) && ActsAbove(d, a);
      assert a.replica < |c.nodes| by { AllowedReplica(su, c, a); }
      HandleSignsHere(su.ConfigOf(a.replica), c.nodes[a.replica], a.input, a.env);
      CastAboveStep(c.nodes[a.replica], d.nodes[a.replica]);
    }
  }

  lemma StartsEmpty(su: Setup)
    requires su.n <= 0x1_0000
    ensures AllCastAbove(Init(su))
  {
    forall i: uint16 | i < su.n ensures CastAbove(Init(su).nodes[i].casts) { assert Init(su).nodes[i] == Boot(su, i); }
  }

  lemma AllowedReplica(su: Setup, c: State, a: Action)
    requires Allowed(su, c, a)
    ensures a.replica < |c.nodes|
  {}

  lemma CastAboveStep(s: Node, t: Node)
    requires SignsHere(s, t) && CastAbove(s.casts) && t.ctx.view >= t.horizon
    ensures CastAbove(t.casts)
  {
    forall k | 0 <= k < |t.casts| ensures t.casts[k].view >= t.casts[k].horizon {
      if k < |s.casts| { assert t.casts[k] == t.casts[..|s.casts|][k]; }
    }
  }

  /** Two firm votes of one replica in the log are for different views. */
  lemma LogVotesOnce(su: Setup, c: State)
    requires Inv(su, c) && AllCastAbove(c)
    ensures DistinctViews(WorldOf(su, c))
  {
    var w := WorldOf(su, c);
    forall i, j | && 0 <= i < j < |w.log| && w.log[i].replica == w.log[j].replica
                  && Firm(w.gated, w.log[i].cast) && Firm(w.gated, w.log[j].cast)
      ensures w.log[i].cast.view != w.log[j].cast.view
    {
      var r := w.log[i].replica;
      LoggedReplica(su, c, i);
      assert Sound(w, su.ConfigOf(r), c.nodes[r]) && CastAbove(c.nodes[r].casts);
      MineAt(w.log, r, i);
      MineAt(w.log, r, j);
      RankGrows(w.log, r, i, j);
      assert VotesOnce(w.gated, c.nodes[r].casts);
    }
  }

  lemma LoggedReplica(su: Setup, c: State, i: nat)
    requires Inv(su, c) && i < |c.log|
    ensures c.log[i].replica < su.n == |c.nodes|
    ensures WorldOk(WorldOf(su, c)) && EventOk(WorldOf(su, c), i)
  {
    assert EventOk(WorldOf(su, c), i);
  }

  /** Any two certificates of one view, held anywhere, certify the same block, even when the leader
      of the view proposes and votes more than once, if two quorums share two validators, or one when
      leaders are gated. */
  lemma UniqueCertificatePerView(su: Setup, states: seq<State>, actions: seq<Action>, k: nat, i: uint16, q: QC,
      j: uint16, p: QC)
    requires SetupOk(su) && Run(su, states, actions) && AboveHorizon(states, actions) && k < |states|
    requires su.n + (if su.gated then 1 else 2) <= 4 * su.validators.f + 2
    requires i < |states[k].nodes| && Holds(states[k].nodes[i], q) && su.genesisQC != Some(q)
    requires j < |states[k].nodes| && Holds(states[k].nodes[j], p) && su.genesisQC != Some(p)
    requires q.view == p.view
    ensures q.node == p.node
  {
    hide Run, Holds, AboveHorizon;
    var c := states[k];
    var w := WorldOf(su, c);
    InvAlways(su, states, actions, k);
    CastAboveAlways(su, states, actions, k);
    LogVotesOnce(su, c);
    assert Sound(w, su.ConfigOf(i), c.nodes[i]) && Sound(w, su.ConfigOf(j), c.nodes[j]);
    HeldIsGenuine(w, c.nodes[i], q);
    HeldIsGenuine(w, c.nodes[j], p);
    GenuineIsCertified(w, w.log, q);
    GenuineIsCertified(w, w.log, p);
    UniqueCertificate(w, q.view, q.node, p.node);
  }

  // ---- Runs in which views never fall ----

  /** The votes of one replica are in ascending views, none beyond its present view, and nothing was
      pruned at or above it. */
  ghost predicate Settled(s: Node) {
    && s.horizon <= s.ctx.view && CastAbove(s.casts)
    && (forall k :: 0 <= k < |s.casts| ==> s.casts[k].view <= s.ctx.view)
    && (forall k, l :: 0 <= k < l < |s.casts| ==> s.casts[k].view <= s.casts[l].view)
  }

  lemma SettledStep(s: Node, t: Node)
    requires SignsHere(s, t) && Settled(s) && s.ctx.view <= t.ctx.view
    ensures Settled(t)
  {
    CastAboveStep(s, t);
    forall k | 0 <= k < |t.casts| ensures t.casts[k].view <= t.ctx.view {
      if k < |s.casts| { assert t.casts[k] == t.casts[..|s.casts|][k]; }
    }
    forall k, l | 0 <= k < l < |t.casts| ensures t.casts[k].view <= t.casts[l].view {
      assert t.casts[k] == t.casts[..|s.casts|][k];
      if l < |s.casts| { assert t.casts[l] == t.casts[..|s.casts|][l]; }
    }
  }

  /** Views lie below the wrap of the counter. */
  ghost predicate ViewsBounded(c: State) { forall h :: h in c.created ==> c.created[h].view < MAX_UINT32 }

  ghost predicate Calm(c: State) {
    ViewsBounded(c) && forall i :: 0 <= i < |c.nodes| ==> Settled(c.nodes[i])
  }

  lemma CalmStep(su: Setup, c: State, a: Action)
    requires Calm(c) && a.replica < |c.nodes|
    requires c.nodes[a.replica].ctx.view <= Next(su, c, a).nodes[a.replica].ctx.view < MAX_UINT32
    ensures Calm(Next(su, c, a))
  {
    hide Handle;
    var s, t := c.nodes[a.replica], Next(su, c, a).nodes[a.replica];
    HandleSignsHere(su.ConfigOf(a.replica), s, a.input, a.env);
    SettledStep(s, t);
    if t.made != s.made {
      ExtendedBlock(WorldOf(su, c), a.replica, s, t, t.made[|s.made|]);
    }
  }

  lemma StartsCalm(su: Setup)
    requires SetupOk(su)
    ensures Calm(Init(su))
  {
    forall i: uint16 | i < su.n ensures Settled(Init(su).nodes[i]) { assert Init(su).nodes[i] == Boot(su, i); }
  }

  lemma {:induction false} CalmAlways(su: Setup, states: seq<State>, actions: seq<Action>, k: nat)
    requires SetupOk(su) && Run(su, states, actions) && ViewsNeverFall(states, actions) && k < |states|
    ensures Calm(states[k])
  {
    hide Handle, Allowed, Init, Calm, SetupOk;
    if k == 0 {
      StartsCalm(su);
    } else {
      var c, a, d := states[k - 1], actions[k - 1], states[k];
      CalmAlways(su, states, actions, k - 1);
      assert Leads(su, c, a, d) && ActsUpward(c, a, d);
      AllowedReplica(su, c, a);
      CalmStep(su, c, a);
    }
  }

  /** Any two quorums share three validators, or one when the leaders' implicit votes are gated. With
      n = 3f+1 that is f >= 2, or any f. */
  ghost predicate Resilient(su: Setup) { su.n + (if su.gated then 1 else 3) <= 4 * su.validators.f + 2 }

  lemma LogAscends(su: Setup, c: State)
    requires Inv(su, c) && Calm(c)
    ensures AscendingViews(WorldOf(su, c))
  {
    hide WorldOk, Knows, VotingInv, ViewsBounded;
    var w := WorldOf(su, c);
    forall i, j | 0 <= i < j < |w.log| && w.log[i].replica == w.log[j].replica
      ensures w.log[i].cast.view <= w.log[j].cast.view
    {
      var r := w.log[i].replica;
      LoggedReplica(su, c, i);
      assert Sound(w, su.ConfigOf(r), c.nodes[r]);
      MineAt(w.log, r, i);
      MineAt(w.log, r, j);
      RankGrows(w.log, r, i, j);
      assert Settled(c.nodes[r]);
    }
  }

  lemma RunHypotheses(su: Setup, states: seq<State>, actions: seq<Action>, k: nat)
    requires SetupOk(su) && Run(su, states, actions) && ViewsNeverFall(states, actions) && k < |states|
    requires Resilient(su)
    ensures Inv(su, states[k]) && Calm(states[k]) && Hypotheses(WorldOf(su, states[k]))
  {
    hide Settled, Sound, Run, ViewsNeverFall;
    var c := states[k];
    InvAlways(su, states, actions, k);
    CalmAlways(su, states, actions, k);
    SettledCastAbove(c);
    LogVotesOnce(su, c);
    LogAscends(su, c);
  }

  lemma SettledCastAbove(c: State)
    requires forall i :: 0 <= i < |c.nodes| ==> Settled(c.nodes[i])
    ensures AllCastAbove(c)
  {}

  /** Once p is certified in one view and its child in the next, every block certified in the view
      of p or later, at this or any later point of the run, is p or a descendant of p. */
  lemma LockedBranchInRun(su: Setup, states: seq<State>, actions: seq<Action>, k: nat, p: Hash,
      c: Hash, b: Hash)
    requires SetupOk(su) && Run(su, states, actions) && ViewsNeverFall(states, actions) && k < |states|
    requires Resilient(su) && TwoChain(WorldOf(su, states[k]), p, c)
    requires var w := WorldOf(su, states[k]);
      b in w.created && Certified(w.log, w.f, w.created[b].view, b) && w.created[b].view >= w.created[p].view
    ensures Descends(states[k].created, b, p)
  {
    hide Run, ViewsNeverFall, Resilient, Inv, Calm, Hypotheses, Certified;
    RunHypotheses(su, states, actions, k);
    LockedBranch(WorldOf(su, states[k]), p, c, b);
  }

  // ---- Agreement ----

  /** A commit record is a two-chain of certified blocks in consecutive views. */
  lemma CommitIsTwoChain(w: World, r: CommitRecord)
    requires WorldOk(w) && w.f >= 1 && CommitKnown(w, r)
    requires forall h :: h in w.created ==> w.created[h].view < MAX_UINT32
    ensures TwoChain(w, r.block.hash, r.child.hash)
  {
    var p, c := r.block.hash, r.child.hash;
    assert RootOk(w);
    GenuineIsCertified(w, w.log, r.childQC);
    CertifiedView(w, w.log, r.childQC.view, c);
    if r.blockQC.None? {
      ParentEarlier(w, c);
      JustifyFacts(w, c);
      CertifiedHeightPositive(w, p);
      assert false;
    } else {
      GenuineIsCertified(w, w.log, r.blockQC.value);
      CertifiedView(w, w.log, r.blockQC.value.view, p);
    }
  }

  ghost predicate Agree(c: State) {
    forall i, j, h ::
      0 <= i < |c.nodes| && 0 <= j < |c.nodes| && h in c.nodes[i].ctx.committed && h in c.nodes[j].ctx.committed ==>
      c.nodes[i].ctx.committed[h] == c.nodes[j].ctx.committed[h]
  }

  lemma CommittedAt(w: World, s: Node, h: uint32)
    requires Knows(w, s) && h in s.ctx.committed
    ensures s.ctx.committed[h].height == h
    ensures w.genesis.Some? && w.genesis.value.height == h ==> s.ctx.committed[h] == w.genesis.value
    ensures w.genesis == Some(s.ctx.committed[h])
         || exists k :: 0 <= k < |s.commits| && s.commits[k].block == s.ctx.committed[h] && CommitKnown(w, s.commits[k])
  {}

  /** No two replicas commit different blocks at the same height, if two quorums share three
      validators, or one when leaders vote once per view, by the SafeNode rule, and lock the certificate
      they build on. */
  lemma AgreementInRun(su: Setup, states: seq<State>, actions: seq<Action>, k: nat)
    requires SetupOk(su) && Run(su, states, actions) && ViewsNeverFall(states, actions) && k < |states|
    requires Resilient(su)
    ensures Agree(states[k])
  {
    hide Run, ViewsNeverFall, Calm, Hypotheses, Sound, WorldOk;
    RunHypotheses(su, states, actions, k);
    if su.validators.f >= 1 {
      StateAgrees(su, states[k]);
    } else {
      AloneAgrees(states[k]);
    }
  }

  lemma AloneAgrees(c: State)
    requires |c.nodes| <= 1
    ensures Agree(c)
  {}

  lemma StateAgrees(su: Setup, c: State)
    requires Inv(su, c) && Calm(c) && Hypotheses(WorldOf(su, c)) && su.validators.f >= 1
    ensures Agree(c)
  {
    hide Knows, VotingInv, Hypotheses, WorldOk, Settled;
    var w := WorldOf(su, c);
    forall i: uint16, j: uint16, h | i < su.n && j < su.n && h in c.nodes[i].ctx.committed && h in c.nodes[j].ctx.committed
      ensures c.nodes[i].ctx.committed[h] == c.nodes[j].ctx.committed[h]
    {
      assert Sound(w, su.ConfigOf(i), c.nodes[i]) && Sound(w, su.ConfigOf(j), c.nodes[j]);
      PairAgrees(w, c.nodes[i], c.nodes[j], h);
    }
  }

  lemma PairAgrees(w: World, s: Node, t: Node, h: uint32)
    requires Hypotheses(w) && w.f >= 1 && Knows(w, s) && Knows(w, t)
    requires forall x :: x in w.created ==> w.created[x].view < MAX_UINT32
    requires h in s.ctx.committed && h in t.ctx.committed
    ensures s.ctx.committed[h] == t.ctx.committed[h]
  {
    hide Knows, Hypotheses;
    CommittedAt(w, s, h);
    CommittedAt(w, t, h);
    if w.genesis != Some(s.ctx.committed[h]) && w.genesis != Some(t.ctx.committed[h]) {
      var k :| 0 <= k < |s.commits| && s.commits[k].block == s.ctx.committed[h] && CommitKnown(w, s.commits[k]);
      var l :| 0 <= l < |t.commits| && t.commits[l].block == t.ctx.committed[h] && CommitKnown(w, t.commits[l]);
      FromHypotheses(w);
      CommitIsTwoChain(w, s.commits[k]);
      CommitIsTwoChain(w, t.commits[l]);
      SameHeightSameBlock(w, s.commits[k].block.hash, s.commits[k].child.hash,
                          t.commits[l].block.hash, t.commits[l].child.hash);
    }
  }

  lemma FromHypotheses(w: World)
    requires Hypotheses(w)
    ensures WorldOk(w)
  {}
}
