/** A run of four fresh replicas (n = 4, f = 1) from a common genesis block and certificate, none of
    them faulty, no view ever falling and every accepted block on a stored parent, in which two of
    them commit different blocks at the same height. */
module FourReplicas {
  import opened Types
  import opened ContextSpec
  import opened Replica
  import opened Cluster
  import opened Signatures
  import opened VoteLog
  import Agreement
  import QuorumCert
  import Votes
  import ReplicaHistory
  import ReplicaProperties

  // ---- The setup: round-robin leaders, fresh replicas in view 0, a genesis certificate of view 0 ----

  const G := Hash([0])
  const BG := Block(G, 0, ZERO_HASH)
  const ROOT := QC(0, G, [], [], [], [])

  function Validators(): ValidatorSet {
    ValidatorSet(1, map[0 := [], 1 := [], 2 := [], 3 := []], AnySignature())
  }

  function Leader(view: uint32): uint16 { (view + 1) % 4 }

  function Four(): Setup {
    Setup(4, Validators(), Leader, i => (digest => Zeros()), false, Some(BG), Some(ROOT), i => 0)
  }

  function C(i: uint16): Config { Four().ConfigOf(i) }

  /** Everything outside works; CreateBlock, when asked, returns h. */
  function E(h: Option<Hash>, hint: Option<QC>): Env {
    Env(true, true, true, true, true, true, h, Some(0), 0, hint)
  }

  function Fine(): Env { E(None, None) }

  function V(view: uint32, node: Hash, i: uint16): Vote { Vote(view, node, i, Zeros(), 0) }

  lemma SignedVote(i: uint16, view: uint32, node: Hash)
    ensures SignVote(C(i), view, node, 0) == V(view, node, i)
    ensures i < 4 ==> forall j :: Admits(C(j), V(view, node, i), 0)
    ensures C(i).Quorum() == 3
  {}

  /** Three votes for one block form a certificate, the same at every replica. */
  lemma ThreeVotes(i: uint16, view: uint32, node: Hash, m: map<uint16, Vote>)
    requires |m| == 3 && forall j :: j in m ==> j < 4 && m[j] == V(view, node, j)
    ensures FormQC(C(i), view, node, m).Some?
    ensures FormQC(C(i), view, node, m).value.view == view && FormQC(C(i), view, node, m).value.node == node
  {
    hide VotesList, QuorumCert.Form, QuorumCert.Valid, QuorumCert.Voters, Votes.DigestOf, Zeros;
    var votes := VotesList(m);
    ReplicaHistory.VotersAre(m);
    forall v | v in votes ensures v.view == view && v.node == node && QuorumCert.Authentic(v, Validators()) {
      assert v in m.Values;
    }
    QuorumCert.QuorumGivesValidQC(view, node, votes, Validators());
    QuorumCert.FormSound(view, node, votes, 3, QuorumCert.ED25519);
  }

  // ---- What the steps of this run do ----

  /** The step broadcast the given messages and touched neither the created blocks nor the pending calls. */
  ghost predicate Sends(s: Node, t: Node, messages: seq<Msg>) {
    t.sent == s.sent + messages && t.made == s.made && t.tasks == s.tasks
  }

  lemma FirstNewView(c: Ctx, view: uint32, i: uint16, qc: Option<QC>)
    requires view !in c.newviews
    ensures !HasNewViewQuorum(AddNewView(c, view, i, qc), view, 3)
  {
    assert AddNewView(c, view, i, qc).newviews[view] == map[i := qc];
    assert |map[i := qc]| == 1;
  }

  /** A timeout in an early view that does not complete a NEWVIEW quorum. */
  lemma TimedOut(i: uint16, s: Node, v: uint32) returns (t: Node)
    requires s.ctx.view == v < 9 && v + 1 !in s.ctx.newviews
    ensures t == Handle(C(i), s, Timeout(v), Fine())
    ensures t.ctx == AddNewView(s.ctx.(view := v + 1), v + 1, i, s.ctx.highQC)
    ensures Sends(s, t, [NewView(v + 1, i, s.ctx.highQC)])
  {
    hide ProposeWithNewViewQuorum, PruneVotes, AddNewView, HasNewViewQuorum;
    t := Handle(C(i), s, Timeout(v), Fine());
    NothingPruned(s.ctx.(view := v + 1), v + 1);
    FirstNewView(s.ctx.(view := v + 1), v + 1, i, s.ctx.highQC);
  }

  /** The context after storing a proposed block and its certificate, locking and voting. */
  function Voted(i: uint16, c: Ctx, view: uint32, block: Block, justify: Option<QC>): Ctx {
    var stored := AddBlock(c, block);
    var locked := if justify.Some? then UpdateLockedQC(AddQC(stored, justify.value), justify) else stored;
    AddVote(locked, V(view, block.hash, i))
  }

  /** The first vote of a view touches the votes of that view only. */
  lemma FirstVote(c: Ctx, v: Vote)
    requires v.view !in c.votes
    ensures var d := AddVote(c, v);
      && d == c.(votes := d.votes) && v.view in d.votes && VotesFor(d, v.view, v.node) == map[v.validator := v]
      && forall w :: w != v.view ==> (w in c.votes <==> w in d.votes) && VotesIn(c, w) == VotesIn(d, w)
  {}

  lemma VoteAdded(c: Ctx, v: Vote)
    ensures VotesFor(AddVote(c, v), v.view, v.node) == VotesFor(c, v.view, v.node)[v.validator := v]
  {}

  lemma ProposalVoted(i: uint16, s: Node, sender: uint16, view: uint32, block: Block, justify: Option<QC>)
    returns (t: Node)
    requires s.ctx.view == view && Leader(view) != i && view !in s.ctx.votes
    requires SafeToVote(AddBlock(s.ctx, block), block, justify)
    ensures t == Handle(C(i), s, Deliver(Propose(view, sender, block, justify)), Fine())
    ensures t.ctx == Voted(i, s.ctx, view, block, justify)
    ensures Sends(s, t, [VoteMsg(view, i, V(view, block.hash, i))])
  {
    hide FormQC, SafeToVote, SignVote, Raise, AddVote, VotesFor;
    t := Handle(C(i), s, Deliver(Propose(view, sender, block, justify)), Fine());
    SignedVote(i, view, block.hash);
    var stored := AddBlock(s.ctx, block);
    var locked := if justify.Some? then UpdateLockedQC(AddQC(stored, justify.value), justify) else stored;
    FirstVote(locked, V(view, block.hash, i));
    assert |VotesFor(Voted(i, s.ctx, view, block, justify), view, block.hash)| == 1;
  }

  /** A proposal that the SafeNode rule forbids is stored but not voted for. */
  lemma ProposalStored(i: uint16, s: Node, sender: uint16, view: uint32, block: Block, justify: Option<QC>)
    returns (t: Node)
    requires s.ctx.view == view && Leader(view) != i && view !in s.ctx.votes
    requires !SafeToVote(AddBlock(s.ctx, block), block, justify)
    ensures t == Handle(C(i), s, Deliver(Propose(view, sender, block, justify)), Fine())
    ensures t.ctx == AddBlock(s.ctx, block) && Sends(s, t, [])
  {
    hide SafeToVote, AddBlock;
    t := Handle(C(i), s, Deliver(Propose(view, sender, block, justify)), Fine());
  }

  /** A second vote for a block, which does not complete a quorum. */
  lemma VoteStored(i: uint16, s: Node, view: uint32, node: Hash, own: uint16, j: uint16) returns (t: Node)
    requires own != j < 4 && VotesFor(s.ctx, view, node) == map[own := V(view, node, own)]
    ensures t == Handle(C(i), s, Deliver(VoteMsg(view, j, V(view, node, j))), Fine())
    ensures t.ctx == AddVote(s.ctx, V(view, node, j)) && Sends(s, t, [])
    ensures VotesFor(t.ctx, view, node) == map[own := V(view, node, own), j := V(view, node, j)]
  {
    hide FormQC, Admits;
    t := Handle(C(i), s, Deliver(VoteMsg(view, j, V(view, node, j))), Fine());
    SignedVote(j, view, node);
    assert VotesFor(AddVote(s.ctx, V(view, node, j)), view, node) == map[own := V(view, node, own), j := V(view, node, j)];
  }

  lemma ThirdVote(c: Ctx, view: uint32, node: Hash, own: uint16, j: uint16, k: uint16)
    requires own != j && j != k && own != k
    requires VotesFor(c, view, node) == map[own := V(view, node, own), j := V(view, node, j)]
    ensures var m := VotesFor(AddVote(c, V(view, node, k)), view, node);
      |m| == 3 && m.Keys == {own, j, k} && forall x :: x in m ==> m[x] == V(view, node, x)
  {
    hide VotesFor, AddVote, Zeros;
    var m := VotesFor(AddVote(c, V(view, node, k)), view, node);
    VoteAdded(c, V(view, node, k));
    assert m.Keys == {own, j, k};
    assert |m| == |m.Keys|;
  }

  /** The third vote: a certificate is formed, stored, and becomes lock and high certificate. */
  lemma QuorumReached(i: uint16, s: Node, view: uint32, node: Hash, own: uint16, j: uint16, k: uint16)
    returns (t: Node, qc: QC)
    requires own != j && j != k && own != k && own < 4 && j < 4 && k < 4
    requires VotesFor(s.ctx, view, node) == map[own := V(view, node, own), j := V(view, node, j)]
    requires Leader(Succ32(view)) != i
    ensures t == Handle(C(i), s, Deliver(VoteMsg(view, k, V(view, node, k))), Fine())
    ensures qc.view == view && qc.node == node
    ensures t == UseQC(C(i), s.(ctx := AddVote(s.ctx, V(view, node, k))), qc, Fine())
  {
    hide FormQC, Admits, UseQC, VotesFor, AddVote;
    t := Handle(C(i), s, Deliver(VoteMsg(view, k, V(view, node, k))), Fine());
    SignedVote(k, view, node);
    ThirdVote(s.ctx, view, node, own, j, k);
    var m := VotesFor(AddVote(s.ctx, V(view, node, k)), view, node);
    ThreeVotes(i, view, node, m);
    qc := FormQC(C(i), view, node, m).value;
  }

  /** The context after recording a NEWVIEW message. */
  function Tracked(c: Ctx, view: uint32, sender: uint16, qc: Option<QC>): Ctx {
    var d := AddNewView(c, view, sender, qc);
    if qc.Some? then AddQC(UpdateHighQC(d, qc), qc.value) else d
  }

  lemma NewViewTracked(i: uint16, s: Node, view: uint32, sender: uint16, qc: Option<QC>) returns (t: Node)
    requires s.ctx.view == view && |NewViewsIn(s.ctx, view)[sender := qc]| < 3
    ensures t == Handle(C(i), s, Deliver(NewView(view, sender, qc)), Fine())
    ensures t.ctx == Tracked(s.ctx, view, sender, qc) && Sends(s, t, [])
  {
    hide ProposeWithNewViewQuorum;
    t := Handle(C(i), s, Deliver(NewView(view, sender, qc)), Fine());
  }

  /** A NEWVIEW of a later view with a certificate at least as high: the replica follows. */
  lemma NewViewFollowed(i: uint16, s: Node, view: uint32, sender: uint16, qc: QC) returns (t: Node)
    requires s.ctx.view < view && qc.view >= ViewOrZero(s.ctx.highQC)
    requires |NewViewsIn(s.ctx, view)[sender := Some(qc)][i := Raise(s.ctx.highQC, Some(qc))]| < 3
    ensures t == Handle(C(i), s, Deliver(NewView(view, sender, Some(qc))), Fine())
    ensures var c := Tracked(s.ctx, view, sender, Some(qc));
      t.ctx == AddNewView(c.(view := view), view, i, c.highQC)
    ensures Sends(s, t, [NewView(view, i, Raise(s.ctx.highQC, Some(qc)))])
  {
    hide ProposeWithNewViewQuorum, HasVoted;
    t := Handle(C(i), s, Deliver(NewView(view, sender, Some(qc))), Fine());
    var s1 := TrackNewView(s, view, sender, Some(qc));
    var c := Tracked(s.ctx, view, sender, Some(qc));
    assert s1 == s.(ctx := c);
    var s2 := AnnounceView(C(i), EnterView(s1, view, Fine()), view);
    assert SyncForward(C(i), s1, view, Some(qc), Fine()) == s2;
    assert NewViewsIn(s2.ctx, view) == NewViewsIn(s.ctx, view)[sender := Some(qc)][i := c.highQC];
    assert !HasNewViewQuorum(s2.ctx, view, 3);
    assert t == s2;
  }

  /** The context after proposing: the new block and the leader's own vote. */
  function Proposed(i: uint16, c: Ctx, view: uint32, justify: Option<QC>, h: Hash): Ctx {
    AddVote(AddBlock(c, NewBlock(c, justify, h)), V(view, h, i))
  }

  /** The step proposed one block. */
  ghost predicate Makes(i: uint16, s: Node, t: Node, view: uint32, block: Block, justify: Option<QC>) {
    && t.sent == s.sent + [Propose(view, i, block, justify)]
    && t.made == s.made + [Made(view, block, justify)]
    && t.tasks == s.tasks
  }

  lemma ProposedOn(i: uint16, s: Node, view: uint32, justify: Option<QC>, h: Hash, hint: Option<QC>)
    requires view !in s.ctx.votes
    ensures var t := ProposeOn(C(i), s, view, justify, E(Some(h), hint));
      t.ctx == Proposed(i, s.ctx, view, justify, h) && Makes(i, s, t, view, NewBlock(s.ctx, justify, h), justify)
  {
    hide FormQC, SignVote, NewBlock;
    SignedVote(i, view, h);
    assert VotesFor(Proposed(i, s.ctx, view, justify, h), view, h) == map[i := V(view, h, i)];
  }

  /** The third NEWVIEW: the leader proposes on the highest certificate among them. */
  lemma NewViewProposes(i: uint16, s: Node, view: uint32, sender: uint16, qc: Option<QC>, best: Option<QC>, h: Hash)
    returns (t: Node)
    requires s.ctx.view == view && Leader(view) == i && view !in s.ctx.votes
    requires |NewViewsIn(s.ctx, view)[sender := qc]| == 3
    requires IsHighest(NewViewsIn(s.ctx, view)[sender := qc], best)
    ensures t == Handle(C(i), s, Deliver(NewView(view, sender, qc)), E(Some(h), best))
    ensures var c := Tracked(s.ctx, view, sender, qc);
      var justify := if best.Some? then best else c.highQC;
      t.ctx == Proposed(i, c, view, justify, h) && Makes(i, s, t, view, NewBlock(c, justify, h), justify)
  {
    hide ProposeOn, IsHighest, Proposed, NewBlock;
    t := Handle(C(i), s, Deliver(NewView(view, sender, qc)), E(Some(h), best));
    var c := Tracked(s.ctx, view, sender, qc);
    ProposedOn(i, s.(ctx := c), view, if best.Some? then best else c.highQC, h, best);
  }

  /** The proposal left pending by Start fires late. */
  lemma StartFires(i: uint16, s: Node, h: Hash) returns (t: Node)
    requires s.tasks == [StartProposing] && Leader(s.ctx.view) == i && s.ctx.view !in s.ctx.votes
    ensures t == Handle(C(i), s, Fire(0), E(Some(h), None))
    ensures t.ctx == Proposed(i, s.ctx, s.ctx.view, s.ctx.highQC, h)
    ensures t.sent == s.sent + [Propose(s.ctx.view, i, NewBlock(s.ctx, s.ctx.highQC, h), s.ctx.highQC)]
    ensures t.made == s.made + [Made(s.ctx.view, NewBlock(s.ctx, s.ctx.highQC, h), s.ctx.highQC)]
  {
    hide ProposeOn, Proposed, NewBlock;
    t := Handle(C(i), s, Fire(0), E(Some(h), None));
    ProposedOn(i, DropTask(s, 0), s.ctx.view, s.ctx.highQC, h, None);
  }

  // ---- Steps of the cluster ----

  ghost predicate LeadsTo(states: seq<State>, actions: seq<Action>, c: State) {
    && Run(Four(), states, actions) && Agreement.ViewsNeverFall(states, actions) && ParentsStored(states, actions)
    && states[|actions|] == c
  }

  /** The states some run leads to in which no view fell and every accepted block had a stored parent. */
  ghost predicate Reached(c: State) {
    |c.nodes| == 4 && exists states, actions :: LeadsTo(states, actions, c)
  }

  ghost predicate Carries(c: State, d: State) { forall m :: InNetwork(c, m) ==> InNetwork(d, m) }

  /** The state after replica i moved to t. */
  ghost predicate Moved(c: State, d: State, i: uint16, t: Node) {
    |c.nodes| == 4 && i < 4 && d.nodes == c.nodes[i := t] && Carries(c, d)
  }

  /** One step that keeps to the hypotheses. */
  ghost predicate Lawful(c: State, a: Action, d: State) {
    Leads(Four(), c, a, d) && Agreement.ActsUpward(c, a, d) && ParentStored(c, a)
  }

  lemma Extends(states: seq<State>, actions: seq<Action>, c: State, a: Action, d: State)
    requires LeadsTo(states, actions, c) && Lawful(c, a, d)
    ensures LeadsTo(states + [d], actions + [a], d)
  {
    hide Init, Next, Allowed, Agreement.ActsUpward, Leads, ParentStored;
    var longer, more, n := states + [d], actions + [a], |actions|;
    forall k | 0 <= k < |more| ensures Lawful(longer[k], more[k], longer[k + 1]) {
      if k < n {
        assert longer[k] == states[k] && longer[k + 1] == states[k + 1] && more[k] == actions[k];
        assert Leads(Four(), states[k], actions[k], states[k + 1]);
        assert Agreement.ActsUpward(states[k], actions[k], states[k + 1]);
        assert ParentStored(states[k], actions[k]);
      }
    }
    assert ParentsStored(longer, more);
  }

  lemma OneMore(c: State, a: Action, t: Node) returns (d: State)
    requires Reached(c) && |c.nodes| == 4 && a.replica < 4 && Allowed(Four(), c, a) && ParentStored(c, a)
    requires t == Handle(C(a.replica), c.nodes[a.replica], a.input, a.env)
    requires c.nodes[a.replica].ctx.view <= t.ctx.view < MAX_UINT32 && c.nodes[a.replica].sent <= t.sent
    ensures Reached(d) && Moved(c, d, a.replica, t) && forall m :: m in t.sent ==> InNetwork(d, m)
    ensures d.created == NewBlocks(c.created, c.nodes[a.replica].made, t.made)
  {
    hide Handle, NewBlocks, NewVotes, Allowed, Init, ParentStored;
    var states, actions :| LeadsTo(states, actions, c);
    d := Next(Four(), c, a);
    assert Lawful(c, a, d);
    Extends(states, actions, c, a, d);
    assert LeadsTo(states + [d], actions + [a], d);
    forall m | InNetwork(c, m) ensures InNetwork(d, m) {
      var k :| 0 <= k < |c.nodes| && m in c.nodes[k].sent;
      assert m in d.nodes[k].sent;
    }
    forall m | m in t.sent ensures InNetwork(d, m) { assert d.nodes[a.replica] == t; }
  }

  /** The blocks created so far fit the heights Verify asks for. */
  ghost predicate HeightFits(c: State, b: Block) {
    && (b.prevHash in c.created ==> b.height == c.created[b.prevHash].block.height + 1)
    && (b.prevHash == G ==> b.height == 1)
  }

  lemma AllowedFine(c: State, i: uint16, m: Msg)
    requires |c.nodes| == 4 && i < 4 && InNetwork(c, m) && (m.Propose? ==> HeightFits(c, m.block))
    ensures Allowed(Four(), c, Action(i, Deliver(m), Fine()))
  {}

  /** What the run needs to know of a replica that has committed only the genesis block. */
  datatype Sketch = Sketch(view: uint32, lock: Option<QC>, high: Option<QC>, blocks: map<Hash, Block>, qcs: map<Hash, QC>)

  ghost predicate At(s: Node, k: Sketch) { Sketched(s.ctx, k) }

  ghost predicate Sketched(c: Ctx, k: Sketch) {
    && c.view == k.view && c.lockedQC == k.lock && c.highQC == k.high && c.blocks == k.blocks && c.qcs == k.qcs
    && c.parents == (map h | h in k.blocks && h != G :: k.blocks[h].prevHash)
    && c.committed == map[0 := BG]
    && (forall v :: v in c.votes ==> v <= k.view) && (forall v :: v in c.newviews ==> v <= k.view)
  }

  /** No vote of the present view is stored. */
  ghost predicate Unvoted(s: Node) { s.ctx.view !in s.ctx.votes }

  /** The only vote stored for the block is the replica's own. */
  ghost predicate OwnVote(s: Node, view: uint32, node: Hash, i: uint16) {
    view in s.ctx.votes && VotesFor(s.ctx, view, node) == map[i := V(view, node, i)]
  }

  ghost predicate SameVotes(s: Node, t: Node, except: uint32) {
    forall v :: v != except ==> (v in s.ctx.votes <==> v in t.ctx.votes) && VotesIn(s.ctx, v) == VotesIn(t.ctx, v)
  }

  /** The new state, its replica i sketched by k, with the created blocks given. */
  ghost predicate Goes(c: State, d: State, i: uint16, k: Sketch, created: map<Hash, Origin>) {
    && Reached(d) && |c.nodes| == 4 && i < 4 && d.nodes == c.nodes[i := d.nodes[i]] && Carries(c, d)
    && d.created == created && At(d.nodes[i], k)
  }

  lemma SizeTwo<T>(i: uint16, x: T, j: uint16, y: T)
    ensures |map[i := x, j := y]| <= 2
  {
    var m := map[i := x, j := y];
    assert m.Keys == {i, j};
    assert |m| == |m.Keys|;
  }

  lemma SizeThree<T>(i: uint16, x: T, j: uint16, y: T, k: uint16, z: T)
    requires i != j && j != k && i != k
    ensures |map[i := x, j := y, k := z]| == 3
  {
    var m := map[i := x, j := y, k := z];
    assert m.Keys == {i, j, k};
    assert |m| == |m.Keys|;
  }

  lemma StepTimeout(c: State, i: uint16, k: Sketch) returns (d: State)
    requires Reached(c) && |c.nodes| == 4 && i < 4 && At(c.nodes[i], k) && k.view < 9
    ensures Goes(c, d, i, k.(view := k.view + 1), c.created) && d.nodes[i].tasks == c.nodes[i].tasks
    ensures Unvoted(d.nodes[i]) && d.nodes[i].ctx.votes == c.nodes[i].ctx.votes
    ensures NewViewsIn(d.nodes[i].ctx, k.view + 1) == map[i := k.high]
    ensures InNetwork(d, NewView(k.view + 1, i, k.high))
  {
    hide Handle, Reached, NewBlocks, InNetwork;
    var s := c.nodes[i];
    var t := TimedOut(i, s, k.view);
    NoNewBlocks(c.created, s.made);
    d := OneMore(c, Action(i, Timeout(k.view), Fine()), t);
    assert NewView(k.view + 1, i, k.high) in t.sent;
  }

  lemma StepTimeouts(c: State, i: uint16, k: Sketch) returns (d: State)
    requires Reached(c) && |c.nodes| == 4 && i < 4 && At(c.nodes[i], k) && k.view < 8
    ensures Goes(c, d, i, k.(view := k.view + 2), c.created) && d.nodes[i].tasks == c.nodes[i].tasks
    ensures Unvoted(d.nodes[i]) && d.nodes[i].ctx.votes == c.nodes[i].ctx.votes
    ensures InNetwork(d, NewView(k.view + 2, i, k.high))
  {
    hide Reached, InNetwork, At, NewViewsIn, Unvoted;
    var c1 := StepTimeout(c, i, k);
    d := StepTimeout(c1, i, k.(view := k.view + 1));
  }

  lemma VoteKept(c: Ctx, k: Sketch, v: Vote)
    requires Sketched(c, k) && v.view == k.view
    ensures Sketched(AddVote(c, v), k)
  {}

  lemma BlockKept(c: Ctx, k: Sketch, block: Block)
    requires Sketched(c, k) && block.hash != G
    ensures Sketched(AddBlock(c, block), k.(blocks := k.blocks[block.hash := block]))
  {
    var blocks := k.blocks[block.hash := block];
    var parents := map h | h in blocks && h != G :: blocks[h].prevHash;
    assert parents.Keys == c.parents.Keys + {block.hash};
    assert AddBlock(c, block).parents == parents;
  }

  lemma LockKept(c: Ctx, k: Sketch, qc: QC)
    requires Sketched(c, k)
    ensures Sketched(UpdateLockedQC(AddQC(c, qc), Some(qc)), k.(lock := Raise(k.lock, Some(qc)), qcs := k.qcs[qc.node := qc]))
  {}

  lemma VotedAt(i: uint16, s: Node, t: Node, k: Sketch, block: Block, justify: Option<QC>)
    requires At(s, k) && Unvoted(s) && t.ctx == Voted(i, s.ctx, k.view, block, justify) && block.hash != G
    ensures At(t, k.(lock := Raise(k.lock, justify), blocks := k.blocks[block.hash := block],
                     qcs := if justify.Some? then k.qcs[justify.value.node := justify.value] else k.qcs))
    ensures OwnVote(t, k.view, block.hash, i) && SameVotes(s, t, k.view)
  {
    hide Zeros, AddVote, VotesFor, VotesIn, Sketched;
    var stored, kb := AddBlock(s.ctx, block), k.(blocks := k.blocks[block.hash := block]);
    var locked := if justify.Some? then UpdateLockedQC(AddQC(stored, justify.value), justify) else stored;
    assert s.ctx.view == k.view by { InView(s.ctx, k); }
    BlockKept(s.ctx, k, block);
    if justify.Some? { LockKept(stored, kb, justify.value); }
    FirstVote(locked, V(k.view, block.hash, i));
    VoteKept(locked, k.(lock := Raise(k.lock, justify), blocks := kb.blocks,
                        qcs := if justify.Some? then k.qcs[justify.value.node := justify.value] else k.qcs),
             V(k.view, block.hash, i));
    SameIn(s.ctx, locked);
  }

  lemma InView(c: Ctx, k: Sketch)
    requires Sketched(c, k)
    ensures c.view == k.view && c.highQC == k.high && c.blocks == k.blocks
  {}

  lemma SameIn(c: Ctx, d: Ctx)
    requires c.votes == d.votes
    ensures forall w :: VotesIn(c, w) == VotesIn(d, w)
  {}

  ghost predicate OnStored(k: Sketch, b: Block) { b.prevHash in k.blocks && b.height == k.blocks[b.prevHash].height + 1 }

  lemma StepVote(c: State, i: uint16, k: Sketch, sender: uint16, block: Block, justify: Option<QC>) returns (d: State)
    requires Reached(c) && |c.nodes| == 4 && i < 4 && At(c.nodes[i], k) && Unvoted(c.nodes[i])
    requires InNetwork(c, Propose(k.view, sender, block, justify)) && HeightFits(c, block)
    requires k.view < 9 && Leader(k.view) != i && block.hash != G && OnStored(k, block)
    requires || k.lock.None? || k.lock.value.node == block.prevHash
             || (justify.Some? && justify.value.view > k.lock.value.view)
    ensures Goes(c, d, i, k.(lock := Raise(k.lock, justify), blocks := k.blocks[block.hash := block],
                             qcs := if justify.Some? then k.qcs[justify.value.node := justify.value] else k.qcs), c.created)
    ensures d.nodes[i].tasks == c.nodes[i].tasks && SameVotes(c.nodes[i], d.nodes[i], k.view)
    ensures InNetwork(d, VoteMsg(k.view, i, V(k.view, block.hash, i)))
  {
    hide Handle, Reached, NewBlocks, Allowed, SafeToVote, Voted, V, InNetwork, HeightFits, SameVotes, OwnVote, Raise;
    var s, m := c.nodes[i], Propose(k.view, sender, block, justify);
    SafeHere(s.ctx, block, justify);
    var t := ProposalVoted(i, s, sender, k.view, block, justify);
    VotedAt(i, s, t, k, block, justify);
    NoNewBlocks(c.created, s.made);
    AllowedFine(c, i, m);
    d := OneMore(c, Action(i, Deliver(m), Fine()), t);
    assert VoteMsg(k.view, i, V(k.view, block.hash, i)) in t.sent;
  }

  /** A block built on the genesis block, with no higher certificate, does not extend a later lock. */
  lemma UnsafeHere(s: Node, k: Sketch, block: Block, justify: QC)
    requires At(s, k) && block.prevHash == G && block.hash != G
    requires k.lock.Some? && k.lock.value.node != block.hash && k.lock.value.node != G && justify.view <= k.lock.value.view
    ensures !SafeToVote(AddBlock(s.ctx, block), block, Some(justify))
  {
    var parents := AddBlock(s.ctx, block).parents;
    forall n: nat ensures Up(parents, block.hash, n) != Some(k.lock.value.node) {
      if n > 0 { assert Up(parents, block.hash, n) == Up(parents, G, n - 1); }
    }
  }

  lemma StepStore(c: State, i: uint16, k: Sketch, sender: uint16, block: Block, justify: QC) returns (d: State)
    requires Reached(c) && |c.nodes| == 4 && i < 4 && At(c.nodes[i], k) && Unvoted(c.nodes[i])
    requires InNetwork(c, Propose(k.view, sender, block, Some(justify))) && HeightFits(c, block)
    requires k.view < 9 && Leader(k.view) != i && OnStored(k, block) && block.prevHash == G && block.hash != G
    requires k.lock.Some? && k.lock.value.node != block.hash && k.lock.value.node != G && justify.view <= k.lock.value.view
    ensures Goes(c, d, i, k.(blocks := k.blocks[block.hash := block]), c.created)
  {
    hide Handle, Reached, NewBlocks, Allowed, SafeToVote, InNetwork, HeightFits;
    var s, m := c.nodes[i], Propose(k.view, sender, block, Some(justify));
    UnsafeHere(s, k, block, justify);
    var t := ProposalStored(i, s, sender, k.view, block, Some(justify));
    NoNewBlocks(c.created, s.made);
    AllowedFine(c, i, m);
    d := OneMore(c, Action(i, Deliver(m), Fine()), t);
  }

  lemma StepTrack(c: State, i: uint16, k: Sketch, sender: uint16, qc: Option<QC>) returns (d: State)
    requires Reached(c) && |c.nodes| == 4 && i < 4 && At(c.nodes[i], k)
    requires k.view < 9 && InNetwork(c, NewView(k.view, sender, qc))
    requires |NewViewsIn(c.nodes[i].ctx, k.view)[sender := qc]| < 3
    ensures Goes(c, d, i, k.(high := Raise(k.high, qc),
                             qcs := if qc.Some? then k.qcs[qc.value.node := qc.value] else k.qcs), c.created)
    ensures NewViewsIn(d.nodes[i].ctx, k.view) == NewViewsIn(c.nodes[i].ctx, k.view)[sender := qc]
    ensures Unvoted(c.nodes[i]) ==> Unvoted(d.nodes[i])
  {
    hide Handle, Reached, NewBlocks, Allowed, InNetwork;
    var s, m := c.nodes[i], NewView(k.view, sender, qc);
    var t := NewViewTracked(i, s, k.view, sender, qc);
    assert t.ctx.view == k.view && t.sent == s.sent;
    NoNewBlocks(c.created, s.made);
    AllowedFine(c, i, m);
    d := OneMore(c, Action(i, Deliver(m), Fine()), t);
  }

  lemma FollowedAt(c: Ctx, i: uint16, k: Sketch, view: uint32, sender: uint16, qc: QC)
    requires Sketched(c, k) && k.view < view
    ensures NewViewsIn(c, view) == map[] && view !in c.votes
    ensures var e := Tracked(c, view, sender, Some(qc));
      var d := AddNewView(e.(view := view), view, i, e.highQC);
      && e.highQC == Raise(k.high, Some(qc)) && d.view == view && d.votes == c.votes
      && Sketched(d, k.(view := view, high := Raise(k.high, Some(qc)), qcs := k.qcs[qc.node := qc]))
      && NewViewsIn(d, view) == map[sender := Some(qc), i := Raise(k.high, Some(qc))]
  {
    hide Raise;
  }

  lemma StepFollow(c: State, i: uint16, k: Sketch, view: uint32, sender: uint16, qc: QC) returns (d: State)
    requires Reached(c) && |c.nodes| == 4 && i < 4 && At(c.nodes[i], k)
    requires InNetwork(c, NewView(view, sender, Some(qc)))
    requires k.view < view < 9 && qc.view >= ViewOrZero(k.high)
    ensures Goes(c, d, i, k.(view := view, high := Raise(k.high, Some(qc)), qcs := k.qcs[qc.node := qc]), c.created)
    ensures NewViewsIn(d.nodes[i].ctx, view) == map[sender := Some(qc), i := Raise(k.high, Some(qc))]
    ensures Unvoted(d.nodes[i]) && d.nodes[i].ctx.votes == c.nodes[i].ctx.votes
    ensures InNetwork(d, NewView(view, i, Raise(k.high, Some(qc))))
  {
    hide Handle, Reached, NewBlocks, Allowed, InNetwork, Raise, Sketched, Tracked, AddNewView, NewViewsIn;
    var s, m := c.nodes[i], NewView(view, sender, Some(qc));
    InView(s.ctx, k);
    FollowedAt(s.ctx, i, k, view, sender, qc);
    SizeTwo(sender, Some(qc), i, Raise(k.high, Some(qc)));
    var t := NewViewFollowed(i, s, view, sender, qc);
    NoNewBlocks(c.created, s.made);
    AllowedFine(c, i, m);
    d := OneMore(c, Action(i, Deliver(m), Fine()), t);
    assert NewView(view, i, Raise(k.high, Some(qc))) in t.sent;
  }

  /** The block a replica would propose on its high certificate. */
  function NextBlock(k: Sketch, h: Hash): Block {
    if k.high.None? then Block(h, 1, ZERO_HASH)
    else Block(h, if k.high.value.node in k.blocks then Succ32(k.blocks[k.high.value.node].height) else 1, k.high.value.node)
  }

  lemma NewViewsKept(c: Ctx, d: Ctx, k: Sketch)
    requires Sketched(c, k) && d == c.(newviews := d.newviews) && forall v :: v in d.newviews ==> v <= k.view
    ensures Sketched(d, k)
  {}

  lemma ProposedAt(i: uint16, s: Node, c: Ctx, t: Node, k: Sketch, h: Hash)
    requires At(s, k) && Unvoted(s) && c == s.ctx.(newviews := c.newviews) && t.ctx == Proposed(i, c, k.view, k.high, h)
    requires forall v :: v in c.newviews ==> v <= k.view
    requires h != G
    ensures NewBlock(c, k.high, h) == NextBlock(k, h)
    ensures At(t, k.(blocks := k.blocks[h := NextBlock(k, h)]))
    ensures OwnVote(t, k.view, h, i) && SameVotes(s, t, k.view)
  {
    hide Zeros, AddVote, VotesFor, VotesIn, Sketched;
    assert Sketched(c, k) by { NewViewsKept(s.ctx, c, k); }
    InView(c, k);
    InView(s.ctx, k);
    var block := NextBlock(k, h);
    BlockKept(c, k, block);
    var made := AddBlock(c, block);
    FirstVote(made, V(k.view, h, i));
    VoteKept(made, k.(blocks := k.blocks[h := block]), V(k.view, h, i));
    SameIn(s.ctx, made);
  }

  /** Tracking a NEWVIEW that carries a certificate already known adds only the NEWVIEW. */
  lemma TrackedAgain(c: Ctx, k: Sketch, sender: uint16, qc: Option<QC>)
    requires Sketched(c, k)
    requires qc.Some? ==> Raise(k.high, qc) == k.high && qc.value.node in k.qcs && k.qcs[qc.value.node] == qc.value
    ensures var d := Tracked(c, k.view, sender, qc);
      d.highQC == k.high && d == c.(newviews := d.newviews) && forall v :: v in d.newviews ==> v <= k.view
  {}

  /** The third NEWVIEW: the leader proposes on its high certificate, the highest among them. */
  lemma StepPropose(c: State, i: uint16, k: Sketch, sender: uint16, qc: Option<QC>, h: Hash) returns (d: State)
    requires Reached(c) && |c.nodes| == 4 && i < 4 && At(c.nodes[i], k) && Unvoted(c.nodes[i])
    requires InNetwork(c, NewView(k.view, sender, qc)) && k.view < 9 && Leader(k.view) == i
    requires h !in c.created && h != ZERO_HASH && h != G
    requires qc.Some? ==> Raise(k.high, qc) == k.high && qc.value.node in k.qcs && k.qcs[qc.value.node] == qc.value
    requires var m := NewViewsIn(c.nodes[i].ctx, k.view)[sender := qc]; |m| == 3 && IsHighest(m, k.high)
    ensures Goes(c, d, i, k.(blocks := k.blocks[h := NextBlock(k, h)]),
                 c.created[h := Origin(|c.created|, k.view, NextBlock(k, h), k.high)])
    ensures OwnVote(d.nodes[i], k.view, h, i) && SameVotes(c.nodes[i], d.nodes[i], k.view)
    ensures InNetwork(d, Propose(k.view, i, NextBlock(k, h), k.high))
  {
    hide Handle, Reached, NewBlocks, Proposed, NewBlock, IsHighest, InNetwork, OwnVote, SameVotes, Sketched, NextBlock;
    var s := c.nodes[i];
    InView(s.ctx, k);
    var t := NewViewProposes(i, s, k.view, sender, qc, k.high, h);
    var tracked := Tracked(s.ctx, k.view, sender, qc);
    TrackedAgain(s.ctx, k, sender, qc);
    ProposedAt(i, s, tracked, t, k, h);
    InView(t.ctx, k.(blocks := k.blocks[h := NextBlock(k, h)]));
    assert Makes(i, s, t, k.view, NextBlock(k, h), k.high);
    OneNewBlock(c.created, s.made, Made(k.view, NextBlock(k, h), k.high));
    d := OneMore(c, Action(i, Deliver(NewView(k.view, sender, qc)), E(Some(h), k.high)), t);
    assert Propose(k.view, i, NextBlock(k, h), k.high) in t.sent;
  }

  lemma StepStart(c: State, i: uint16, k: Sketch, h: Hash) returns (d: State)
    requires Reached(c) && |c.nodes| == 4 && i < 4 && At(c.nodes[i], k) && Unvoted(c.nodes[i])
    requires c.nodes[i].tasks == [StartProposing] && k.view < 9 && Leader(k.view) == i
    requires h !in c.created && h != ZERO_HASH && h != G
    ensures Goes(c, d, i, k.(blocks := k.blocks[h := NextBlock(k, h)]),
                 c.created[h := Origin(|c.created|, k.view, NextBlock(k, h), k.high)])
    ensures OwnVote(d.nodes[i], k.view, h, i)
    ensures InNetwork(d, Propose(k.view, i, NextBlock(k, h), k.high))
  {
    hide Handle, Reached, NewBlocks, Proposed, NewBlock, InNetwork, OwnVote, SameVotes;
    var s := c.nodes[i];
    var t := StartFires(i, s, h);
    ProposedAt(i, s, s.ctx, t, k, h);
    OneNewBlock(c.created, s.made, Made(k.view, NextBlock(k, h), k.high));
    d := OneMore(c, Action(i, Fire(0), E(Some(h), None)), t);
    assert Propose(k.view, i, NextBlock(k, h), k.high) in t.sent;
  }

  /** Delivering the two votes that complete a quorum with the replica's own. */
  lemma StepQuorum(c: State, i: uint16, k: Sketch, view: uint32, node: Hash, j: uint16, l: uint16)
    returns (d: State, s: Node, qc: QC)
    requires Reached(c) && |c.nodes| == 4 && i < 4 && At(c.nodes[i], k) && OwnVote(c.nodes[i], view, node, i)
    requires i != j && j != l && i != l && j < 4 && l < 4 && k.view < 9 && Leader(Succ32(view)) != i
    requires InNetwork(c, VoteMsg(view, j, V(view, node, j))) && InNetwork(c, VoteMsg(view, l, V(view, node, l)))
    ensures Reached(d) && Moved(c, d, i, d.nodes[i]) && d.created == c.created
    ensures At(s, k) && qc.view == view && qc.node == node && d.nodes[i] == UseQC(C(i), s, qc, Fine())
  {
    hide Handle, Reached, NewBlocks, Allowed, UseQC, Zeros, InNetwork, VotesFor, AddVote;
    var s0, mj, ml := c.nodes[i], VoteMsg(view, j, V(view, node, j)), VoteMsg(view, l, V(view, node, l));
    var s1 := VoteStored(i, s0, view, node, i, j);
    MoreVotes(s0, s1, k, V(view, node, j));
    NoNewBlocks(c.created, s0.made);
    AllowedFine(c, i, mj);
    var e := OneMore(c, Action(i, Deliver(mj), Fine()), s1);
    var s2;
    s2, qc := QuorumReached(i, s1, view, node, i, j, l);
    s := s1.(ctx := AddVote(s1.ctx, V(view, node, l)));
    MoreVotes(s1, s, k, V(view, node, l));
    ReplicaProperties.UseQCKeeps(C(i), s, qc, Fine());
    AllowedFine(e, i, ml);
    d := OneMore(e, Action(i, Deliver(ml), Fine()), s2);
  }

  lemma MoreVotes(s: Node, t: Node, k: Sketch, v: Vote)
    requires At(s, k) && v.view in s.ctx.votes && t.ctx == AddVote(s.ctx, v)
    ensures At(t, k) && v.view in t.ctx.votes
  {}

  /** The quorum certifies a block whose parent is the genesis block, already committed. */
  lemma StepCertify(c: State, i: uint16, k: Sketch, view: uint32, node: Hash, j: uint16, l: uint16)
    returns (d: State, qc: QC)
    requires Reached(c) && |c.nodes| == 4 && i < 4 && At(c.nodes[i], k) && OwnVote(c.nodes[i], view, node, i)
    requires i != j && j != l && i != l && j < 4 && l < 4 && k.view < 9 && Leader(Succ32(view)) != i
    requires InNetwork(c, VoteMsg(view, j, V(view, node, j))) && InNetwork(c, VoteMsg(view, l, V(view, node, l)))
    requires node in k.blocks && k.blocks[node].prevHash in k.blocks ==> k.blocks[k.blocks[node].prevHash].height == 0
    ensures qc.view == view && qc.node == node
    ensures Goes(c, d, i, k.(lock := Raise(k.lock, Some(qc)), high := Raise(k.high, Some(qc)),
                             qcs := k.qcs[node := qc]), c.created)
  {
    hide Reached, InNetwork, V, OwnVote;
    var s;
    d, s, qc := StepQuorum(c, i, k, view, node, j, l);
  }

  /** The quorum certifies the child, one view later, of a certified block, which is committed. */
  lemma StepCommit(c: State, i: uint16, k: Sketch, view: uint32, node: Hash, j: uint16, l: uint16) returns (d: State)
    requires Reached(c) && |c.nodes| == 4 && i < 4 && At(c.nodes[i], k) && OwnVote(c.nodes[i], view, node, i)
    requires i != j && j != l && i != l && j < 4 && l < 4 && k.view < 9 && Leader(Succ32(view)) != i
    requires InNetwork(c, VoteMsg(view, j, V(view, node, j))) && InNetwork(c, VoteMsg(view, l, V(view, node, l)))
    requires node in k.blocks && k.blocks[node].prevHash in k.blocks
    requires var b := k.blocks[k.blocks[node].prevHash];
      && b.hash == k.blocks[node].prevHash != node && b.height != 0
      && b.hash in k.qcs && view == k.qcs[b.hash].view + 1
    ensures Reached(d) && Moved(c, d, i, d.nodes[i])
    ensures var b := k.blocks[k.blocks[node].prevHash];
      b.height in d.nodes[i].ctx.committed && d.nodes[i].ctx.committed[b.height] == b
  {
    hide Reached, InNetwork, V, OwnVote;
    var s, qc;
    d, s, qc := StepQuorum(c, i, k, view, node, j, l);
  }

  // ---- The run ----

  const P1 := Hash([1])
  const C1 := Hash([2])
  const P2 := Hash([3])
  const C2 := Hash([4])
  const BP1 := Block(P1, 1, G)
  const BC1 := Block(C1, 2, P1)
  const BP2 := Block(P2, 1, G)
  const BC2 := Block(C2, 2, P2)

  const BARE := map[G := BG]
  const ONE := map[G := BG, P1 := BP1]
  const BOTH := map[G := BG, P1 := BP1, C1 := BC1]
  const ALL := map[G := BG, P1 := BP1, C1 := BC1, P2 := BP2]
  const LATE := map[G := BG, P2 := BP2]

  const FRESH := Sketch(0, Some(ROOT), Some(ROOT), BARE, map[G := ROOT])

  function QP(qp: QC): map<Hash, QC> { map[G := ROOT, P1 := qp] }

  function QPQ(qp: QC, qq: QC): map<Hash, QC> { map[G := ROOT, P1 := qp, P2 := qq] }

  lemma DifferentHashes()
    ensures G != P1 && G != C1 && G != P2 && G != C2 && P1 != C1 && P1 != P2 && P1 != C2 && C1 != P2 && C1 != C2 && P2 != C2
    ensures ZERO_HASH != G && ZERO_HASH != P1 && ZERO_HASH != C1 && ZERO_HASH != P2 && ZERO_HASH != C2
  {
    assert G.bytes[0] == 0 && P1.bytes[0] == 1 && C1.bytes[0] == 2 && P2.bytes[0] == 3 && C2.bytes[0] == 4;
  }

  /** Storing a certificate again changes nothing. */
  lemma SameQC(qcs: map<Hash, QC>, q: QC)
    requires q.node in qcs && qcs[q.node] == q
    ensures qcs[q.node := q] == qcs
  {}

  /** The created blocks, besides genesis. */
  ghost predicate Exist(c: State, blocks: map<Hash, Block>) {
    c.created.Keys == blocks.Keys - {G} && forall h :: h in c.created ==> c.created[h].block == blocks[h]
  }

  lemma NotYet(c: State, blocks: map<Hash, Block>, h: Hash)
    requires Exist(c, blocks) && h !in blocks
    ensures h !in c.created
  {}

  lemma SameExist(c: State, d: State, blocks: map<Hash, Block>)
    requires Exist(c, blocks) && d.created == c.created
    ensures Exist(d, blocks)
  {}

  lemma OneMoreExists(c: State, d: State, blocks: map<Hash, Block>, h: Hash, o: Origin)
    requires Exist(c, blocks) && h != G && d.created == c.created[h := o]
    ensures Exist(d, blocks[h := o.block])
  {}

  lemma AllFresh() returns (c: State)
    ensures Reached(c) && |c.nodes| == 4 && Exist(c, BARE)
    ensures forall i :: 0 <= i < 4 ==> At(c.nodes[i], FRESH)
    ensures c.nodes[1].tasks == [StartProposing]
  {
    c := Init(Four());
    assert LeadsTo([c], [], c);
    forall i: uint16 | i < 4 ensures c.nodes[i] == Boot(Four(), i) {}
  }

  /** Replicas 1, 2 and 3 enter view 1. */
  lemma EnterOne() returns (c: State)
    ensures Reached(c) && |c.nodes| == 4 && Exist(c, BARE)
    ensures forall i :: 1 <= i < 4 ==> At(c.nodes[i], FRESH.(view := 1)) && Unvoted(c.nodes[i])
    ensures At(c.nodes[0], FRESH) && c.nodes[1].tasks == [StartProposing]
    ensures NewViewsIn(c.nodes[2].ctx, 1) == map[2 := Some(ROOT)]
    ensures InNetwork(c, NewView(1, 1, Some(ROOT))) && InNetwork(c, NewView(1, 3, Some(ROOT)))
  {
    hide Reached, InNetwork, At, NewViewsIn, Unvoted;
    var c0 := AllFresh();
    var c1 := StepTimeout(c0, 1, FRESH);
    var c2 := StepTimeout(c1, 2, FRESH);
    c := StepTimeout(c2, 3, FRESH);
  }

  lemma HighestAt(m: map<uint16, Option<QC>>, i: uint16)
    requires i in m && forall j :: j in m ==> NotAbove(m[j], m[i])
    ensures IsHighest(m, m[i])
  {}

  /** View 1: replica 2 proposes P1 on the genesis certificate. */
  lemma ViewOneProposed() returns (c: State)
    ensures Reached(c) && |c.nodes| == 4 && Exist(c, ONE)
    ensures At(c.nodes[1], FRESH.(view := 1)) && Unvoted(c.nodes[1]) && c.nodes[1].tasks == [StartProposing]
    ensures At(c.nodes[2], FRESH.(view := 1, blocks := ONE)) && OwnVote(c.nodes[2], 1, P1, 2)
    ensures At(c.nodes[3], FRESH.(view := 1)) && Unvoted(c.nodes[3])
    ensures At(c.nodes[0], FRESH)
    ensures InNetwork(c, Propose(1, 2, BP1, Some(ROOT)))
  {
    hide Reached, InNetwork, At, OwnVote, SameVotes, NewViewsIn, Unvoted;
    DifferentHashes();
    var c3 := EnterOne();
    var root := Some(ROOT);
    SizeTwo(2, root, 1, root);
    SameQC(FRESH.qcs, ROOT);
    var c4 := StepTrack(c3, 2, FRESH.(view := 1), 1, root);
    SizeThree(2, root, 1, root, 3, root);
    HighestAt(map[2 := root, 1 := root, 3 := root], 2);
    c := StepPropose(c4, 2, FRESH.(view := 1), 3, root, P1);
  }

  /** Replicas 1 and 3 vote for it, and replica 2 certifies it. */
  lemma ViewOne() returns (c: State, qp: QC)
    ensures Reached(c) && |c.nodes| == 4 && Exist(c, ONE) && qp.view == 1 && qp.node == P1
    ensures At(c.nodes[1], FRESH.(view := 1, blocks := ONE)) && c.nodes[1].tasks == [StartProposing]
    ensures At(c.nodes[2], Sketch(1, Some(qp), Some(qp), ONE, QP(qp)))
    ensures At(c.nodes[3], FRESH.(view := 1, blocks := ONE))
    ensures At(c.nodes[0], FRESH)
  {
    hide Reached, InNetwork, At, OwnVote, SameVotes, Unvoted, V;
    DifferentHashes();
    var c5 := ViewOneProposed();
    SameQC(FRESH.qcs, ROOT);
    var c6 := StepVote(c5, 1, FRESH.(view := 1), 2, BP1, Some(ROOT));
    var c7 := StepVote(c6, 3, FRESH.(view := 1), 2, BP1, Some(ROOT));
    c, qp := StepCertify(c7, 2, FRESH.(view := 1, blocks := ONE), 1, P1, 1, 3);
  }

  lemma EnterTwo(c: State, qp: QC) returns (d: State)
    requires Reached(c) && |c.nodes| == 4 && qp.view == 1 && qp.node == P1
    requires At(c.nodes[1], FRESH.(view := 1, blocks := ONE))
    requires At(c.nodes[2], Sketch(1, Some(qp), Some(qp), ONE, QP(qp)))
    requires At(c.nodes[3], FRESH.(view := 1, blocks := ONE))
    ensures Reached(d) && |d.nodes| == 4 && d.created == c.created
    ensures At(d.nodes[1], FRESH.(view := 2, blocks := ONE)) && Unvoted(d.nodes[1]) && d.nodes[1].tasks == c.nodes[1].tasks
    ensures At(d.nodes[2], Sketch(2, Some(qp), Some(qp), ONE, QP(qp))) && Unvoted(d.nodes[2])
    ensures At(d.nodes[3], FRESH.(view := 2, blocks := ONE)) && Unvoted(d.nodes[3])
    ensures d.nodes[0] == c.nodes[0]
    ensures NewViewsIn(d.nodes[3].ctx, 2) == map[3 := Some(ROOT)]
    ensures InNetwork(d, NewView(2, 1, Some(ROOT))) && InNetwork(d, NewView(2, 2, Some(qp)))
  {
    hide Reached, InNetwork, At, NewViewsIn, Unvoted;
    var c1 := StepTimeout(c, 2, Sketch(1, Some(qp), Some(qp), ONE, QP(qp)));
    var c2 := StepTimeout(c1, 1, FRESH.(view := 1, blocks := ONE));
    d := StepTimeout(c2, 3, FRESH.(view := 1, blocks := ONE));
  }

  /** View 2: replica 3 proposes C1 on the certificate of P1. */
  lemma ViewTwoProposed() returns (c: State, qp: QC)
    ensures Reached(c) && |c.nodes| == 4 && Exist(c, BOTH) && qp.view == 1 && qp.node == P1
    ensures At(c.nodes[1], FRESH.(view := 2, blocks := ONE)) && Unvoted(c.nodes[1]) && c.nodes[1].tasks == [StartProposing]
    ensures At(c.nodes[2], Sketch(2, Some(qp), Some(qp), ONE, QP(qp))) && Unvoted(c.nodes[2])
    ensures At(c.nodes[3], Sketch(2, Some(ROOT), Some(qp), BOTH, QP(qp))) && OwnVote(c.nodes[3], 2, C1, 3)
    ensures At(c.nodes[0], FRESH)
    ensures InNetwork(c, Propose(2, 3, BC1, Some(qp)))
  {
    hide Reached, InNetwork, At, OwnVote, SameVotes, NewViewsIn, Unvoted, Exist, IsHighest;
    DifferentHashes();
    var c0;
    c0, qp := ViewOne();
    var c1 := EnterTwo(c0, qp);
    var root := Some(ROOT);
    SizeTwo(3, root, 2, Some(qp));
    var c2 := StepTrack(c1, 3, FRESH.(view := 2, blocks := ONE), 2, Some(qp));
    SizeThree(3, root, 2, Some(qp), 1, root);
    HighestAt(map[3 := root, 2 := Some(qp), 1 := root], 2);
    var k := Sketch(2, root, Some(qp), ONE, QP(qp));
    assert NextBlock(k, C1) == BC1 && ONE[C1 := BC1] == BOTH;
    SameExist(c0, c2, ONE);
    NotYet(c2, ONE, C1);
    c := StepPropose(c2, 3, k, 1, root, C1);
    OneMoreExists(c2, c, ONE, C1, c.created[C1]);
  }

  /** Replicas 1 and 2 vote for it, locking P1; their votes stay in the network. */
  lemma ViewTwo() returns (c: State, qp: QC)
    ensures Reached(c) && |c.nodes| == 4 && Exist(c, BOTH) && qp.view == 1 && qp.node == P1
    ensures At(c.nodes[1], Sketch(2, Some(qp), Some(ROOT), BOTH, QP(qp))) && c.nodes[1].tasks == [StartProposing]
    ensures At(c.nodes[2], Sketch(2, Some(qp), Some(qp), BOTH, QP(qp)))
    ensures At(c.nodes[3], Sketch(2, Some(ROOT), Some(qp), BOTH, QP(qp))) && OwnVote(c.nodes[3], 2, C1, 3)
    ensures At(c.nodes[0], FRESH)
    ensures InNetwork(c, VoteMsg(2, 1, V(2, C1, 1))) && InNetwork(c, VoteMsg(2, 2, V(2, C1, 2)))
  {
    hide Reached, InNetwork, At, OwnVote, SameVotes, Unvoted, V;
    DifferentHashes();
    var c0;
    c0, qp := ViewTwoProposed();
    SameQC(QP(qp), qp);
    var c1 := StepVote(c0, 1, FRESH.(view := 2, blocks := ONE), 3, BC1, Some(qp));
    c := StepVote(c1, 2, Sketch(2, Some(qp), Some(qp), ONE, QP(qp)), 3, BC1, Some(qp));
  }

  /** Replica 1 times out into view 4, where the proposal pending since its start fires: it builds P2
      on its high certificate, still that of the genesis block, although it is locked on P1. */
  lemma StaleStart(c: State, qp: QC) returns (d: State)
    requires Reached(c) && |c.nodes| == 4 && Exist(c, BOTH) && qp.view == 1 && qp.node == P1
    requires At(c.nodes[1], Sketch(2, Some(qp), Some(ROOT), BOTH, QP(qp))) && c.nodes[1].tasks == [StartProposing]
    ensures Reached(d) && |d.nodes| == 4 && Exist(d, ALL) && Carries(c, d)
    ensures At(d.nodes[1], Sketch(4, Some(qp), Some(ROOT), ALL, QP(qp))) && OwnVote(d.nodes[1], 4, P2, 1)
    ensures forall i :: 0 <= i < 4 && i != 1 ==> d.nodes[i] == c.nodes[i]
    ensures InNetwork(d, Propose(4, 1, BP2, Some(ROOT)))
  {
    hide Reached, InNetwork, At, OwnVote, SameVotes, NewViewsIn, Unvoted, Exist;
    DifferentHashes();
    var k := Sketch(2, Some(qp), Some(ROOT), BOTH, QP(qp));
    var c1 := StepTimeouts(c, 1, k);
    assert NextBlock(k.(view := 4), P2) == BP2 && BOTH[P2 := BP2] == ALL;
    SameExist(c, c1, BOTH);
    NotYet(c1, BOTH, P2);
    d := StepStart(c1, 1, k.(view := 4), P2);
    OneMoreExists(c1, d, BOTH, P2, d.created[P2]);
  }

  lemma KeepsOwnVote(s: Node, t: Node, except: uint32, view: uint32, node: Hash, i: uint16)
    requires OwnVote(s, view, node, i) && SameVotes(s, t, except) && view != except
    ensures OwnVote(t, view, node, i)
  {}

  /** Replica 3 times out into view 4 and, still locked on genesis, votes for P2. */
  lemma UnlockedVote(c: State, qp: QC) returns (d: State)
    requires Reached(c) && |c.nodes| == 4 && Exist(c, ALL) && InNetwork(c, Propose(4, 1, BP2, Some(ROOT)))
    requires At(c.nodes[3], Sketch(2, Some(ROOT), Some(qp), BOTH, QP(qp))) && OwnVote(c.nodes[3], 2, C1, 3)
    ensures Reached(d) && |d.nodes| == 4 && d.created == c.created && Carries(c, d)
    ensures At(d.nodes[3], Sketch(4, Some(ROOT), Some(qp), ALL, QP(qp))) && OwnVote(d.nodes[3], 2, C1, 3)
    ensures forall i :: 0 <= i < 4 && i != 3 ==> d.nodes[i] == c.nodes[i]
    ensures InNetwork(d, NewView(4, 3, Some(qp))) && InNetwork(d, VoteMsg(4, 3, V(4, P2, 3)))
  {
    hide Reached, InNetwork, At, SameVotes, OwnVote, NewViewsIn, Unvoted, V;
    DifferentHashes();
    var k := Sketch(2, Some(ROOT), Some(qp), BOTH, QP(qp));
    var c1 := StepTimeouts(c, 3, k);
    SameVotesKeepOwn(c.nodes[3], c1.nodes[3], 2, C1, 3);
    SameQC(QP(qp), ROOT);
    d := StepVote(c1, 3, k.(view := 4), 1, BP2, Some(ROOT));
    KeepsOwnVote(c1.nodes[3], d.nodes[3], 4, 2, C1, 3);
  }

  lemma SameVotesKeepOwn(s: Node, t: Node, view: uint32, node: Hash, i: uint16)
    requires OwnVote(s, view, node, i) && s.ctx.votes == t.ctx.votes
    ensures OwnVote(t, view, node, i)
  {}

  /** View 4: P2, which does not extend the locked P1, is certified by replicas 1, 3 and 0. */
  lemma ViewFour() returns (c: State, qp: QC, qq: QC)
    ensures Reached(c) && |c.nodes| == 4 && Exist(c, ALL)
    ensures qp.view == 1 && qp.node == P1 && qq.view == 4 && qq.node == P2
    ensures At(c.nodes[1], Sketch(4, Some(qq), Some(qq), ALL, QPQ(qp, qq)))
    ensures At(c.nodes[2], Sketch(2, Some(qp), Some(qp), BOTH, QP(qp)))
    ensures At(c.nodes[3], Sketch(4, Some(ROOT), Some(qp), ALL, QP(qp))) && OwnVote(c.nodes[3], 2, C1, 3)
    ensures At(c.nodes[0], Sketch(4, Some(ROOT), Some(qp), LATE, QP(qp)))
    ensures InNetwork(c, VoteMsg(2, 1, V(2, C1, 1))) && InNetwork(c, VoteMsg(2, 2, V(2, C1, 2)))
    ensures InNetwork(c, NewView(4, 3, Some(qp))) && InNetwork(c, Propose(4, 1, BP2, Some(ROOT)))
  {
    hide Reached, InNetwork, At, OwnVote, SameVotes, NewViewsIn, Unvoted, V;
    DifferentHashes();
    var c0;
    c0, qp := ViewTwo();
    var c1 := StaleStart(c0, qp);
    var c2 := UnlockedVote(c1, qp);
    var c3 := StepFollow(c2, 0, FRESH, 4, 3, qp);
    SameQC(QP(qp), ROOT);
    var c4 := StepVote(c3, 0, Sketch(4, Some(ROOT), Some(qp), BARE, QP(qp)), 1, BP2, Some(ROOT));
    c, qq := StepCertify(c4, 1, Sketch(4, Some(qp), Some(ROOT), ALL, QP(qp)), 4, P2, 3, 0);
  }

  /** Replica 2 follows into views 4 and 5; in view 4 its lock forbids a vote for P2. */
  lemma LockedReplicaFollows(c: State, qp: QC, qq: QC) returns (d: State)
    requires Reached(c) && |c.nodes| == 4 && Exist(c, ALL)
    requires qp.view == 1 && qp.node == P1 && qq.view == 4 && qq.node == P2
    requires At(c.nodes[2], Sketch(2, Some(qp), Some(qp), BOTH, QP(qp)))
    requires InNetwork(c, NewView(4, 3, Some(qp))) && InNetwork(c, Propose(4, 1, BP2, Some(ROOT)))
    requires InNetwork(c, NewView(5, 1, Some(qq)))
    ensures Reached(d) && |d.nodes| == 4 && d.created == c.created && Carries(c, d)
    ensures At(d.nodes[2], Sketch(5, Some(qp), Some(qq), ALL, QPQ(qp, qq))) && Unvoted(d.nodes[2])
    ensures forall i :: 0 <= i < 4 && i != 2 ==> d.nodes[i] == c.nodes[i]
    ensures NewViewsIn(d.nodes[2].ctx, 5) == map[1 := Some(qq), 2 := Some(qq)]
  {
    hide Reached, InNetwork, At, NewViewsIn, Unvoted;
    DifferentHashes();
    var k := Sketch(4, Some(qp), Some(qp), BOTH, QP(qp));
    SameQC(QP(qp), qp);
    var c3 := StepFollow(c, 2, k.(view := 2), 4, 3, qp);
    var c4 := StepStore(c3, 2, k, 1, BP2, ROOT);
    d := StepFollow(c4, 2, k.(blocks := ALL), 5, 1, qq);
  }

  /** Replica 1 times out into view 5, announcing the certificate of P2, and replica 0 follows. */
  lemma EnterFive() returns (c: State, qp: QC, qq: QC)
    ensures Reached(c) && |c.nodes| == 4 && Exist(c, ALL)
    ensures qp.view == 1 && qp.node == P1 && qq.view == 4 && qq.node == P2
    ensures At(c.nodes[1], Sketch(5, Some(qq), Some(qq), ALL, QPQ(qp, qq))) && Unvoted(c.nodes[1])
    ensures At(c.nodes[2], Sketch(2, Some(qp), Some(qp), BOTH, QP(qp)))
    ensures At(c.nodes[3], Sketch(4, Some(ROOT), Some(qp), ALL, QP(qp))) && OwnVote(c.nodes[3], 2, C1, 3)
    ensures At(c.nodes[0], Sketch(5, Some(ROOT), Some(qq), LATE, QPQ(qp, qq))) && Unvoted(c.nodes[0])
    ensures InNetwork(c, VoteMsg(2, 1, V(2, C1, 1))) && InNetwork(c, VoteMsg(2, 2, V(2, C1, 2)))
    ensures InNetwork(c, NewView(4, 3, Some(qp))) && InNetwork(c, Propose(4, 1, BP2, Some(ROOT)))
    ensures InNetwork(c, NewView(5, 1, Some(qq))) && InNetwork(c, NewView(5, 0, Some(qq)))
  {
    hide Reached, InNetwork, At, OwnVote, SameVotes, NewViewsIn, Unvoted, V;
    DifferentHashes();
    var c0;
    c0, qp, qq := ViewFour();
    var c1 := StepTimeout(c0, 1, Sketch(4, Some(qq), Some(qq), ALL, QPQ(qp, qq)));
    c := StepFollow(c1, 0, Sketch(4, Some(ROOT), Some(qp), LATE, QP(qp)), 5, 1, qq);
  }

  /** View 5: replica 2 proposes C2 on the certificate of P2. */
  lemma ViewFiveProposed() returns (c: State, qp: QC, qq: QC)
    ensures Reached(c) && |c.nodes| == 4 && Exist(c, ALL[C2 := BC2])
    ensures qp.view == 1 && qp.node == P1 && qq.view == 4 && qq.node == P2
    ensures At(c.nodes[1], Sketch(5, Some(qq), Some(qq), ALL, QPQ(qp, qq))) && Unvoted(c.nodes[1])
    ensures At(c.nodes[2], Sketch(5, Some(qp), Some(qq), ALL[C2 := BC2], QPQ(qp, qq))) && OwnVote(c.nodes[2], 5, C2, 2)
    ensures At(c.nodes[3], Sketch(4, Some(ROOT), Some(qp), ALL, QP(qp))) && OwnVote(c.nodes[3], 2, C1, 3)
    ensures At(c.nodes[0], Sketch(5, Some(ROOT), Some(qq), LATE, QPQ(qp, qq))) && Unvoted(c.nodes[0])
    ensures InNetwork(c, VoteMsg(2, 1, V(2, C1, 1))) && InNetwork(c, VoteMsg(2, 2, V(2, C1, 2)))
    ensures InNetwork(c, Propose(5, 2, BC2, Some(qq)))
  {
    hide Reached, InNetwork, At, OwnVote, SameVotes, NewViewsIn, Unvoted, V, Exist, IsHighest;
    DifferentHashes();
    var c0;
    c0, qp, qq := EnterFive();
    var c1 := LockedReplicaFollows(c0, qp, qq);
    SizeThree(1, Some(qq), 2, Some(qq), 0, Some(qq));
    HighestAt(map[1 := Some(qq), 2 := Some(qq), 0 := Some(qq)], 1);
    var k := Sketch(5, Some(qp), Some(qq), ALL, QPQ(qp, qq));
    assert NextBlock(k, C2) == BC2;
    SameExist(c0, c1, ALL);
    NotYet(c1, ALL, C2);
    c := StepPropose(c1, 2, k, 0, Some(qq), C2);
    OneMoreExists(c1, c, ALL, C2, c.created[C2]);
  }

  /** The whole run: replica 2 commits P2 and replica 3 commits P1, both at height 1. */
  lemma TwoBlocksAtHeightOne() returns (c: State)
    ensures Reached(c) && |c.nodes| == 4 && !Agreement.Agree(c)
  {
    hide Reached, InNetwork, At, OwnVote, SameVotes, Unvoted, V;
    DifferentHashes();
    var c0, qp, qq := ViewFiveProposed();
    var qcs := QPQ(qp, qq);
    SameQC(qcs, qq);
    var c1 := StepVote(c0, 1, Sketch(5, Some(qq), Some(qq), ALL, qcs), 2, BC2, Some(qq));
    var c2 := StepVote(c1, 0, Sketch(5, Some(ROOT), Some(qq), LATE, qcs), 2, BC2, Some(qq));
    var c3 := StepCommit(c2, 2, Sketch(5, Some(qp), Some(qq), ALL[C2 := BC2], qcs), 5, C2, 1, 0);
    c := StepCommit(c3, 3, Sketch(4, Some(ROOT), Some(qp), ALL, QP(qp)), 2, C1, 1, 2);
    assert c.nodes[2].ctx.committed[1] == BP2 && c.nodes[3].ctx.committed[1] == BP1;
  }

  // ---- For which fault bounds agreement holds ----

  /** A run of 3f+1 replicas in which no view falls; their leaders gated or as they are, and Verify, if
      strict, accepting only blocks on a stored parent. */
  ghost predicate CalmRun(f: nat, gated: bool, strict: bool, su: Setup, states: seq<State>, actions: seq<Action>) {
    && SetupOk(su) && su.n == 3 * f + 1 && su.validators.f == f && su.gated == gated
    && Run(su, states, actions) && Agreement.ViewsNeverFall(states, actions)
    && (strict ==> ParentsStored(states, actions))
  }

  /** In every state of every such run the replicas agree. */
  ghost predicate AlwaysAgree(f: nat, gated: bool, strict: bool) {
    forall su, states, actions, k: nat ::
      CalmRun(f, gated, strict, su, states, actions) && k < |states| ==> Agreement.Agree(states[k])
  }

  /** Agreement holds for every fault bound except one: with f = 1 it can be lost, even if Verify is
      strict, unless the leaders' implicit votes are gated. */
  lemma AgreementExactly(f: nat, gated: bool, strict: bool)
    ensures AlwaysAgree(f, gated, strict) <==> gated || f != 1
  {
    hide Agreement.Agree;
    if f == 1 && !gated {
      var c := TwoBlocksAtHeightOne();
      var states, actions :| LeadsTo(states, actions, c);
      assert CalmRun(1, false, strict, Four(), states, actions) && states[|actions|] == c;
    } else {
      forall su, states, actions, k: nat | CalmRun(f, gated, strict, su, states, actions) && k < |states|
        ensures Agreement.Agree(states[k])
      {
        EveryOtherAgrees(f, gated, strict, su, states, actions, k);
      }
    }
  }

  lemma EveryOtherAgrees(f: nat, gated: bool, strict: bool, su: Setup, states: seq<State>, actions: seq<Action>, k: nat)
    requires (gated || f != 1) && CalmRun(f, gated, strict, su, states, actions) && k < |states|
    ensures Agreement.Agree(states[k])
  {
    hide Agreement.Agree, Agreement.ViewsNeverFall, Run;
    if gated || f >= 2 {
      Agreement.AgreementInRun(su, states, actions, k);
    } else {
      Agreement.InvAlways(su, states, actions, k);
      Agreement.AloneAgrees(states[k]);
    }
  }
}
