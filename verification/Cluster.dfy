/** A cluster of replicas as a step relation. Messages, once broadcast, may be delivered any number
    of times, in any order, or never; a crashed replica takes no further step. */
module Cluster {
  import opened Types
  import opened ContextSpec
  import opened Replica
  import opened VoteLog

  /** What is fixed for a run: n validators, their keys and schedule, whether leaders are gated, the
      common genesis block and certificate, and the view each replica finds in its storage. */
  datatype Setup = Setup(n: nat, validators: ValidatorSet, leader: uint32 -> uint16,
                         signs: uint16 -> (seq<byte> -> seq<byte>), gated: bool,
                         genesis: Option<Block>, genesisQC: Option<QC>, startView: uint16 -> uint32)
  {
    function ConfigOf(i: uint16): Config { Config(i, validators, leader, signs(i), gated) }
  }

  /** All replicas, every vote in the order it was signed, and every block created. */
  datatype State = State(nodes: seq<Node>, log: seq<Logged>, created: map<Hash, Origin>)

  datatype Action = Action(replica: uint16, input: Input, env: Env)

  function Boot(su: Setup, i: uint16): Node {
    Started(su.ConfigOf(i), su.genesis, su.genesisQC, su.startView(i), None)
  }

  function Init(su: Setup): State
    requires su.n <= 0x1_0000
  {
    State(seq(su.n, i requires 0 <= i < su.n => Boot(su, i)), [], map[])
  }

  ghost function WorldOf(su: Setup, c: State): World {
    World(su.n, su.validators.f, su.leader, su.gated, su.genesis, su.genesisQC, c.log, c.created)
  }

  /** The genesis certificate, if any, is for the genesis block. */
  ghost predicate SetupOk(su: Setup) {
    && su.n <= 0x1_0000
    && (su.genesisQC.Some? ==> su.genesis.Some? && su.genesisQC.value.node == su.genesis.value.hash)
  }

  ghost predicate InNetwork(c: State, m: Msg) {
    exists i :: 0 <= i < |c.nodes| && m in c.nodes[i].sent
  }

  /** A hash CreateBlock may return: new and not the zero hash. */
  ghost predicate Fresh(w: World, h: Hash) {
    h !in w.created && h != ZERO_HASH && (w.genesis.Some? ==> h != w.genesis.value.hash)
  }

  /** Delivered messages were broadcast; CreateBlock returns fresh hashes; Verify accepts a block
      only at the height its parent demands. */
  ghost predicate Allowed(su: Setup, c: State, a: Action) {
    && a.replica < |c.nodes|
    && (a.input.Deliver? ==> InNetwork(c, a.input.msg))
    && (a.env.created.Some? ==> Fresh(WorldOf(su, c), a.env.created.value))
    && (a.env.verifyOk && a.input.Deliver? && a.input.msg.Propose? ==> HeightOk(WorldOf(su, c), a.input.msg.block))
  }

  /** The votes a replica added to its history. */
  function NewVotes(r: uint16, before: seq<Cast>, after: seq<Cast>): seq<Logged> {
    if |after| <= |before| then []
    else NewVotes(r, before, after[..|after| - 1]) + [Logged(r, after[|after| - 1])]
  }

  /** The blocks a replica added to its history, numbered in order of creation. */
  function NewBlocks(created: map<Hash, Origin>, before: seq<Made>, after: seq<Made>): map<Hash, Origin> {
    if |after| <= |before| then created
    else
      var rest, m := NewBlocks(created, before, after[..|after| - 1]), after[|after| - 1];
      rest[m.block.hash := Origin(|rest|, m.view, m.block, m.justify)]
  }

  lemma NoNewBlocks(created: map<Hash, Origin>, made: seq<Made>)
    ensures NewBlocks(created, made, made) == created
  {}

  lemma OneNewBlock(created: map<Hash, Origin>, made: seq<Made>, m: Made)
    ensures NewBlocks(created, made, made + [m]) == created[m.block.hash := Origin(|created|, m.view, m.block, m.justify)]
  {
    assert (made + [m])[..|made + [m]| - 1] == made;
  }

  ghost function Next(su: Setup, c: State, a: Action): State
    requires a.replica < |c.nodes|
  {
    var s := c.nodes[a.replica];
    var t := Handle(su.ConfigOf(a.replica), s, a.input, a.env);
    State(c.nodes[a.replica := t], c.log + NewVotes(a.replica, s.casts, t.casts), NewBlocks(c.created, s.made, t.made))
  }

  ghost predicate Leads(su: Setup, c: State, a: Action, d: State) { Allowed(su, c, a) && d == Next(su, c, a) }

  /** A run: the states it passes through and the actions between them, each allowed where it happens. */
  ghost predicate Run(su: Setup, states: seq<State>, actions: seq<Action>)
    requires su.n <= 0x1_0000
  {
    && |states| == |actions| + 1 && states[0] == Init(su)
    && forall k :: 0 <= k < |actions| ==> Leads(su, states[k], actions[k], states[k + 1])
  }

  /** The documented Verify: a replica passes a proposal only if it stores the parent, one height below. */
  ghost predicate ParentStored(c: State, a: Action) {
    a.replica < |c.nodes| && a.env.verifyOk && a.input.Deliver? && a.input.msg.Propose? ==>
      var b, blocks := a.input.msg.block, c.nodes[a.replica].ctx.blocks;
      b.prevHash in blocks && b.height == blocks[b.prevHash].height + 1
  }

  ghost predicate ParentsStored(states: seq<State>, actions: seq<Action>) {
    |states| == |actions| + 1 && forall k :: 0 <= k < |actions| ==> ParentStored(states[k], actions[k])
  }

  // ---- What the replicas know is true of the world ----

  ghost predicate QCKnown(w: World, q: Option<QC>) {
    (q.Some? ==> Genuine(w, w.log, q.value)) && Rooted(w, q)
  }

  ghost predicate KnowsQCs(w: World, qcs: map<Hash, QC>) {
    forall h :: h in qcs ==> qcs[h].node == h && Genuine(w, w.log, qcs[h])
  }

  ghost predicate KnowsNewViews(w: World, newviews: map<uint32, map<uint16, Option<QC>>>) {
    forall v, i :: v in newviews && i in newviews[v] ==> QCKnown(w, newviews[v][i])
  }

  ghost predicate Created(w: World, b: Block) { b.hash in w.created && w.created[b.hash].block == b }

  ghost predicate KnowsBlocks(w: World, blocks: map<Hash, Block>, parents: map<Hash, Hash>) {
    && (forall h :: h in blocks ==> blocks[h].hash == h && (w.genesis == Some(blocks[h]) || Created(w, blocks[h])))
    && (forall h :: h in parents ==> h in w.created && parents[h] == w.created[h].block.prevHash)
    && (w.genesis.Some? ==> w.genesis.value.hash in blocks)
  }

  ghost predicate VoteKnown(w: World, view: uint32, node: Hash, i: uint16, v: Vote) {
    v.view == view && v.node == node && v.validator == i && i in Voters(w.log, view, node)
  }

  ghost predicate KnowsVotes(w: World, votes: map<uint32, map<Hash, map<uint16, Vote>>>) {
    forall v, h, i :: v in votes && h in votes[v] && i in votes[v][h] ==> VoteKnown(w, v, h, i, votes[v][h][i])
  }

  ghost predicate MsgKnown(w: World, m: Msg) {
    match m
    case Propose(view, _, b, justify) =>
      Created(w, b) && w.created[b.hash].view == view && w.created[b.hash].justify == justify
    case VoteMsg(_, _, v) => v.validator in Voters(w.log, v.view, v.node)
    case NewView(_, _, q) => QCKnown(w, q)
  }

  ghost predicate KnowsMessages(w: World, sent: seq<Msg>) { forall m :: m in sent ==> MsgKnown(w, m) }

  ghost predicate KnowsTasks(w: World, tasks: seq<Task>) {
    forall k :: k in tasks && k.Advance? ==> Genuine(w, w.log, k.qc)
  }

  /** A commit is backed by the two-chain rule on created blocks and genuine certificates. */
  ghost predicate CommitKnown(w: World, r: CommitRecord) {
    && Created(w, r.block) && Created(w, r.child)
    && r.child.prevHash == r.block.hash
    && r.childQC.node == r.child.hash && Genuine(w, w.log, r.childQC)
    && match r.blockQC
       case None => r.block.height == 0 && r.childQC.view == 1
       case Some(q) => q.node == r.block.hash && Genuine(w, w.log, q) && r.childQC.view == Succ32(q.view)
  }

  ghost predicate KnowsCommits(w: World, commits: seq<CommitRecord>, committed: map<uint32, Block>) {
    && (forall k :: 0 <= k < |commits| ==> CommitKnown(w, commits[k]))
    && (forall h :: h in committed ==> committed[h].height == h)
    && (forall h :: h in committed ==>
          (w.genesis == Some(committed[h]) || exists k :: 0 <= k < |commits| && commits[k].block == committed[h]))
    && (w.genesis.Some? ==> w.genesis.value.height in committed && committed[w.genesis.value.height] == w.genesis.value)
  }

  ghost predicate Knows(w: World, s: Node) {
    && QCKnown(w, s.ctx.lockedQC) && QCKnown(w, s.ctx.highQC)
    && KnowsQCs(w, s.ctx.qcs) && KnowsNewViews(w, s.ctx.newviews) && KnowsBlocks(w, s.ctx.blocks, s.ctx.parents)
    && KnowsVotes(w, s.ctx.votes) && KnowsMessages(w, s.sent) && KnowsTasks(w, s.tasks)
    && KnowsCommits(w, s.commits, s.ctx.committed)
  }

  /** The world only grows: votes are appended, blocks added. */
  ghost predicate Grows(w: World, x: World) {
    && x == w.(log := x.log, created := x.created)
    && w.log <= x.log
    && forall h :: h in w.created ==> h in x.created && x.created[h] == w.created[h]
  }

  lemma GenuineStays(w: World, x: World, q: QC)
    requires Grows(w, x) && Genuine(w, w.log, q)
    ensures Genuine(x, x.log, q)
  {
    VotersGrow(w.log, x.log, q.view, q.node);
  }

  lemma KnowsStays(w: World, x: World, s: Node)
    requires Grows(w, x) && Knows(w, s)
    ensures Knows(x, s)
  {
    forall q: QC | Genuine(w, w.log, q) ensures Genuine(x, x.log, q) { GenuineStays(w, x, q); }
    forall v, h ensures Voters(w.log, v, h) <= Voters(x.log, v, h) { VotersGrow(w.log, x.log, v, h); }
    hide Genuine, Voters;
    assert KnowsQCs(x, s.ctx.qcs) && KnowsNewViews(x, s.ctx.newviews);
    assert KnowsBlocks(x, s.ctx.blocks, s.ctx.parents);
    assert KnowsVotes(x, s.ctx.votes);
    assert KnowsMessages(x, s.sent) && KnowsTasks(x, s.tasks);
    assert KnowsCommits(x, s.commits, s.ctx.committed);
  }
}
