/** Every step of the cluster keeps its world well-formed and its replicas' knowledge true of it. */
module ClusterInvariant {
  import opened Types
  import opened ContextSpec
  import opened Replica
  import opened ReplicaProperties
  import opened VoteLog
  import opened Cluster
  import QuorumCert

  // ---- The history of one replica inside the log ----

  /** The votes of r in the log. */
  ghost function Mine(log: seq<Logged>, r: uint16): seq<Cast> {
    if log == [] then []
    else
      var rest, last := Mine(log[..|log| - 1], r), log[|log| - 1];
      if last.replica == r then rest + [last.cast] else rest
  }

  /** The position of a logged vote within its replica's history. */
  ghost function Rank(log: seq<Logged>, r: uint16, i: nat): nat
    requires i <= |log|
  {
    |Mine(log[..i], r)|
  }

  lemma {:induction false} MineAt(log: seq<Logged>, r: uint16, i: nat)
    requires i < |log| && log[i].replica == r
    ensures Rank(log, r, i) < |Mine(log, r)| && Mine(log, r)[Rank(log, r, i)] == log[i].cast
  {
    var n := |log| - 1;
    if i < n {
      MineAt(log[..n], r, i);
      assert log[..n][..i] == log[..i];
    }
  }

  lemma {:induction false} RankGrows(log: seq<Logged>, r: uint16, i: nat, j: nat)
    requires i < j <= |log| && log[i].replica == r
    ensures Rank(log, r, i) < Rank(log, r, j)
  {
    MineAt(log[..j], r, i);
    assert log[..j][..i] == log[..i];
  }

  // ---- Growing the world ----

  ghost function WithVote(w: World, r: uint16, c: Cast): World { w.(log := w.log + [Logged(r, c)]) }

  ghost function WithBlock(w: World, m: Made): World {
    w.(created := w.created[m.block.hash := Origin(|w.created|, m.view, m.block, m.justify)])
  }

  /** What a vote about to be signed must satisfy. */
  ghost predicate VoteOk(w: World, r: uint16, c: Cast) {
    && r < w.n
    && c.node in w.created && w.created[c.node].view == c.view && w.created[c.node].justify == c.justify
    && (c.viaProposal <==> r != w.leader(c.view))
    && QCKnown(w, c.lockBefore)
    && (Firm(w.gated, c) ==> Safe(w, c) && NotAbove(c.justify, c.lockAfter))
    && (c.viaProposal ==> HeightOk(w, w.created[c.node].block))
    && forall i :: 0 <= i < |w.log| && w.log[i].replica == r ==> NotAbove(w.log[i].cast.lockAfter, c.lockBefore)
  }

  lemma AppendVote(w: World, r: uint16, c: Cast)
    requires WorldOk(w) && VoteOk(w, r, c)
    ensures WorldOk(WithVote(w, r, c)) && Grows(w, WithVote(w, r, c))
  {
    var x, n := WithVote(w, r, c), |w.log|;
    assert x.log[..n] == w.log;
    forall i | 0 <= i < |x.log| ensures EventOk(x, i) {
      if i < n {
        assert EventOk(w, i) && x.log[..i] == w.log[..i];
      }
    }
    forall h | h in x.created ensures OriginOk(x, h) {
      assert OriginOk(w, h);
      if w.created[h].justify.Some? { GenuineStays(w, x, w.created[h].justify.value); }
    }
  }

  ghost predicate IndicesOk(w: World) {
    forall h :: h in w.created ==> w.created[h].index < |w.created|
  }

  /** What a block about to be created must satisfy. */
  ghost predicate BlockOk(w: World, m: Made) {
    && Fresh(w, m.block.hash) && Rooted(w, m.justify)
    && match m.justify
       case None => m.block.prevHash == ZERO_HASH && m.block.height == 1
       case Some(q) => m.block.prevHash == q.node && Genuine(w, w.log, q)
  }

  lemma {:induction false} UpMore(small: map<Hash, Hash>, big: map<Hash, Hash>, h: Hash, k: nat)
    requires forall x :: x in small ==> x in big && big[x] == small[x]
    requires Up(small, h, k).Some?
    ensures Up(big, h, k) == Up(small, h, k)
    decreases k
  {
    if k > 0 { UpMore(small, big, small[h], k - 1); }
  }

  lemma DescendsMore(w: World, x: World, b: Hash, a: Hash)
    requires Grows(w, x) && Descends(w.created, b, a)
    ensures Descends(x.created, b, a)
  {
    var k: nat :| Above(w.created, b, k, a);
    UpMore(Parents(w.created), Parents(x.created), b, k);
    assert Above(x.created, b, k, a);
  }

  lemma HeightStays(w: World, m: Made, h: Hash)
    requires WorldOk(w) && BlockOk(w, m) && h in w.created && HeightOk(w, w.created[h].block)
    ensures HeightOk(WithBlock(w, m), w.created[h].block)
  {
    assert OriginOk(w, h) && RootOk(w);
  }

  lemma AddBlockToWorld(w: World, m: Made)
    requires WorldOk(w) && IndicesOk(w) && BlockOk(w, m)
    ensures WorldOk(WithBlock(w, m)) && IndicesOk(WithBlock(w, m)) && Grows(w, WithBlock(w, m))
  {
    hide EventOk, OriginOk;
    var x := WithBlock(w, m);
    forall i | 0 <= i < |x.log| ensures EventOk(x, i) { EventStays(w, m, i); }
    forall h | h in x.created ensures OriginOk(x, h) { OriginStays(w, m, h); }
    assert RootOk(w);
  }

  /** One more block leaves the logged votes lawful. */
  lemma EventStays(w: World, m: Made, i: nat)
    requires WorldOk(w) && BlockOk(w, m) && i < |w.log|
    ensures EventOk(WithBlock(w, m), i)
  {
    assert EventOk(w, i);
    hide WorldOk, Safe, HeightOk, Genuine, Rooted;
    var x, c := WithBlock(w, m), w.log[i].cast;
    assert Grows(w, x);
    if c.viaProposal { HeightStays(w, m, c.node); }
    if c.lockBefore.Some? { SameGenuine(w, x, w.log[..i], c.lockBefore.value); }
    if Safe(w, c) { SafeStays(w, x, c); }
    SameRoot(w, x, c.lockBefore);
  }

  lemma SafeStays(w: World, x: World, c: Cast)
    requires Grows(w, x) && Safe(w, c)
    ensures Safe(x, c)
  {
    hide Descends;
    if c.lockBefore.Some? && Descends(w.created, c.node, c.lockBefore.value.node) {
      DescendsMore(w, x, c.node, c.lockBefore.value.node);
    }
  }

  lemma SameGenuine(w: World, x: World, log: seq<Logged>, q: QC)
    requires x.root == w.root && x.f == w.f && Genuine(w, log, q)
    ensures Genuine(x, log, q)
  {}

  lemma SameRoot(w: World, x: World, q: Option<QC>)
    requires x.root == w.root && Rooted(w, q)
    ensures Rooted(x, q)
  {}

  lemma OriginStays(w: World, m: Made, h: Hash)
    requires WorldOk(w) && IndicesOk(w) && BlockOk(w, m) && h in WithBlock(w, m).created
    ensures OriginOk(WithBlock(w, m), h)
  {
    if h != m.block.hash {
      assert OriginOk(w, h);
    } else if m.justify.Some? {
      GenuineIsCertified(w, w.log, m.justify.value);
      if w.root != m.justify { CertifiedView(w, w.log, m.justify.value.view, m.justify.value.node); }
    }
  }

  // ---- What a step does to a replica's knowledge ----

  lemma LockKnows(w: World, s: Node, qc: QC, env: Env)
    requires Knows(w, s) && Genuine(w, w.log, qc)
    ensures Knows(w, Lock(s, qc, env)) && Knows(w, s.(ctx := AddQC(s.ctx, qc)))
    ensures Knows(w, s.(ctx := UpdateHighQC(s.ctx, Some(qc))))
  {
    hide Genuine, Voters, CommitKnown, MsgKnown, Created;
  }

  lemma DoCommitKnows(w: World, s: Node, b: Block, qc: QC)
    requires Knows(w, s) && qc.node in s.ctx.blocks && b.height !in s.ctx.committed
    requires CommitKnown(w, DoCommit(s, b, qc).commits[|s.commits|])
    ensures Knows(w, DoCommit(s, b, qc))
  {
    hide Genuine, Voters, CommitKnown, Created, MsgKnown;
    var t := DoCommit(s, b, qc);
    assert t.commits[..|s.commits|] == s.commits;
    forall h | h in t.ctx.committed
      ensures w.genesis == Some(t.ctx.committed[h])
           || exists k :: 0 <= k < |t.commits| && t.commits[k].block == t.ctx.committed[h]
    {
      if h == b.height {
        assert t.commits[|s.commits|].block == b;
      } else if w.genesis != Some(s.ctx.committed[h]) {
        var k :| 0 <= k < |s.commits| && s.commits[k].block == s.ctx.committed[h];
        assert t.commits[k].block == t.ctx.committed[h];
      }
    }
    assert KnowsCommits(w, t.commits, t.ctx.committed);
  }

  lemma CheckCommitKnows(w: World, s: Node, b: Block, qc: QC)
    requires WorldOk(w) && Knows(w, s) && Genuine(w, w.log, qc) && qc.node in w.created
    requires b.hash in s.ctx.blocks && s.ctx.blocks[b.hash] == b
    ensures Knows(w, CheckCommit(s, b, qc))
  {
    hide Genuine, KnowsVotes, KnowsMessages, KnowsTasks, KnowsNewViews;
    var t := CheckCommit(s, b, qc);
    assert RootOk(w);
    if t != s {
      assert CommitKnown(w, t.commits[|s.commits|]);
      hide CommitKnown, Knows, WorldOk;
      DoCommitKnows(w, s, b, qc);
    }
  }

  lemma UseQCKnows(w: World, cfg: Config, s: Node, qc: QC, env: Env)
    requires WorldOk(w) && Knows(w, s) && Genuine(w, w.log, qc) && qc.node in w.created
    ensures Knows(w, UseQC(cfg, s, qc, env))
  {
    hide Genuine, CheckCommit, Lock, AddQC, UpdateHighQC, WorldOk;
    LockKnows(w, s, qc, env);
    var s1 := s.(ctx := AddQC(s.ctx, qc));
    if env.putQC {
      LockKnows(w, s1, qc, env);
      var s2 := s1.(ctx := UpdateHighQC(s1.ctx, Some(qc)));
      LockKnows(w, s2, qc, env);
      var s3 := Lock(s2, qc, env);
      if qc.node in s3.ctx.blocks && s3.ctx.blocks[qc.node].prevHash in s3.ctx.blocks {
        CheckCommitKnows(w, s3, s3.ctx.blocks[s3.ctx.blocks[qc.node].prevHash], qc);
        AddTaskKnows(w, CheckCommit(s3, s3.ctx.blocks[s3.ctx.blocks[qc.node].prevHash], qc), qc);
      }
      AddTaskKnows(w, s3, qc);
    }
  }

  lemma AddTaskKnows(w: World, s: Node, qc: QC)
    requires Knows(w, s) && Genuine(w, w.log, qc)
    ensures Knows(w, s.(tasks := s.tasks + [Advance(Succ32(qc.view), qc)]))
  {
    hide Genuine, KnowsQCs, KnowsVotes, KnowsBlocks, MsgKnown, CommitKnown;
  }

  /** Each signer of a certificate formed from stored votes really voted. */
  lemma SignersVoted(w: World, c: Ctx, view: uint32, node: Hash, q: QC, i: uint16)
    requires KnowsVotes(w, c.votes) && i in q.signers && |q.signers| == |q.timestamps|
    requires forall n :: 0 <= n < |q.signers| ==> QuorumCert.Backed(q, n, VotesList(VotesFor(c, view, node)))
    ensures i in Voters(w.log, view, node)
  {
    hide Voters;
    var m := VotesFor(c, view, node);
    var n: nat :| n < |q.signers| && q.signers[n] == i;
    assert QuorumCert.Backed(q, n, VotesList(m));
    var v :| v in VotesList(m) && v.validator == i;
    assert v in m.Values;
    var j :| j in m && m[j] == v;
    assert VoteKnown(w, view, node, j, c.votes[view][node][j]);
  }

  /** A certificate formed from stored votes is genuine, and certifies a created block. */
  lemma FormedIsGenuine(w: World, cfg: Config, c: Ctx, view: uint32, node: Hash)
    requires WorldOk(w) && KnowsVotes(w, c.votes) && w.f == cfg.validators.f
    requires FormQC(cfg, view, node, VotesFor(c, view, node)).Some?
    ensures var q := FormQC(cfg, view, node, VotesFor(c, view, node)).value;
      q.view == view && q.node == node && Genuine(w, w.log, q) && node in w.created
  {
    hide QuorumCert.Form, QuorumCert.Valid, Voters, KnowsVotes, VotesFor;
    var m := VotesFor(c, view, node);
    var q := FormQC(cfg, view, node, m).value;
    QuorumCert.FormSound(view, node, VotesList(m), cfg.Quorum(), QuorumCert.ED25519);
    QuorumCert.SignerCount(q.signers);
    forall i | i in q.signers ensures i in Voters(w.log, view, node) { SignersVoted(w, c, view, node, q, i); }
    assert q.signers[0] in q.signers;
    var k := VoteOf(w.log, view, node, q.signers[0]);
    assert EventOk(w, k);
  }

  lemma TryFormQCKnows(w: World, cfg: Config, s: Node, view: uint32, node: Hash, env: Env)
    requires WorldOk(w) && Knows(w, s) && w.f == cfg.validators.f
    ensures Knows(w, TryFormQC(cfg, s, view, node, env))
  {
    hide FormQC, UseQC, KnowsQCs, KnowsNewViews, KnowsBlocks, KnowsMessages, KnowsTasks, KnowsCommits, Genuine, WorldOk;
    if FormQC(cfg, view, node, VotesFor(s.ctx, view, node)).Some? {
      FormedIsGenuine(w, cfg, s.ctx, view, node);
      UseQCKnows(w, cfg, s, FormQC(cfg, view, node, VotesFor(s.ctx, view, node)).value, env);
    }
  }

  lemma AddVoteKnows(w: World, s: Node, v: Vote)
    requires Knows(w, s) && v.validator in Voters(w.log, v.view, v.node)
    ensures Knows(w, s.(ctx := AddVote(s.ctx, v)))
  {
    hide Genuine, Voters, CommitKnown, MsgKnown, Created;
    var c := AddVote(s.ctx, v);
    forall x, h, i | x in c.votes && h in c.votes[x] && i in c.votes[x][h] ensures VoteKnown(w, x, h, i, c.votes[x][h][i]) {
      if !(x == v.view && h == v.node && i == v.validator) {
        assert x in s.ctx.votes && h in s.ctx.votes[x] && i in s.ctx.votes[x][h];
      }
    }
  }

  // ---- Handlers ----

  /** The world after replica r went from s to t. */
  ghost function Extended(w: World, r: uint16, s: Node, t: Node): World {
    w.(log := w.log + NewVotes(r, s.casts, t.casts), created := NewBlocks(w.created, s.made, t.made))
  }

  lemma ExtendedSame(w: World, r: uint16, s: Node, t: Node)
    requires t.casts == s.casts && t.made == s.made
    ensures Extended(w, r, s, t) == w
  {
    assert w.log + [] == w.log;
  }

  lemma ExtendedVote(w: World, r: uint16, s: Node, t: Node, c: Cast)
    requires t.casts == s.casts + [c] && t.made == s.made
    ensures Extended(w, r, s, t) == WithVote(w, r, c)
  {
    assert t.casts[..|s.casts|] == s.casts;
    assert NewVotes(r, s.casts, t.casts) == NewVotes(r, s.casts, s.casts) + [Logged(r, c)] == [Logged(r, c)];
  }

  lemma ExtendedBlock(w: World, r: uint16, s: Node, t: Node, m: Made)
    requires t.made == s.made + [m]
    ensures NewBlocks(w.created, s.made, t.made) == WithBlock(w, m).created
  {
    assert t.made[..|s.made|] == s.made;
  }

  /** The world is well-formed, what the replica knows is true of it, and the log holds exactly the
      replica's history of votes. */
  ghost predicate Tracks(w: World, cfg: Config, s: Node) {
    && cfg.me < w.n && w.f == cfg.validators.f && w.leader == cfg.leader && w.gated == cfg.gated
    && WorldOk(w) && IndicesOk(w) && Knows(w, s)
    && Mine(w.log, cfg.me) == s.casts
  }

  ghost predicate Sound(w: World, cfg: Config, s: Node) { Tracks(w, cfg, s) && VotingInv(cfg, s) }

  lemma MineAppend(log: seq<Logged>, r: uint16, c: Cast)
    ensures Mine(log + [Logged(r, c)], r) == Mine(log, r) + [c]
  {
    assert (log + [Logged(r, c)])[..|log|] == log;
  }

  /** Earlier votes of this replica left locks no higher than the present one. */
  lemma LocksBehind(w: World, cfg: Config, s: Node)
    requires Sound(w, cfg, s)
    ensures forall i :: 0 <= i < |w.log| && w.log[i].replica == cfg.me ==> NotAbove(w.log[i].cast.lockAfter, s.ctx.lockedQC)
  {
    forall i | 0 <= i < |w.log| && w.log[i].replica == cfg.me ensures NotAbove(w.log[i].cast.lockAfter, s.ctx.lockedQC) {
      MineAt(w.log, cfg.me, i);
    }
  }

  /** A vote for a created block by the SafeNode rule, after locking, obeys the rules of the world. */
  lemma SafeVoteOk(w: World, cfg: Config, s: Node, c: Cast, block: Block)
    requires Sound(w, cfg, s) && Created(w, block) && c.node == block.hash
    requires w.created[c.node].view == c.view && w.created[c.node].justify == c.justify
    requires (c.viaProposal <==> !cfg.IsLeader(c.view)) && (c.viaProposal ==> HeightOk(w, block))
    requires c.lockBefore == s.ctx.lockedQC && NotAbove(c.justify, c.lockAfter)
    requires SafeToVote(s.ctx, block, c.justify)
    ensures VoteOk(w, cfg.me, c)
  {
    LocksBehind(w, cfg, s);
    if c.lockBefore.Some? && IsAncestor(s.ctx.parents, c.lockBefore.value.node, block.hash) {
      var k: nat :| k <= MAX_DEPTH && Up(s.ctx.parents, block.hash, k) == Some(c.lockBefore.value.node);
      UpMore(s.ctx.parents, Parents(w.created), block.hash, k);
      assert Above(w.created, block.hash, k, c.lockBefore.value.node);
    }
  }

  lemma CastsDoNotMatter(w: World, s: Node, t: Node)
    requires Knows(w, s) && t == s.(casts := t.casts, made := t.made, horizon := t.horizon, storedView := t.storedView)
    ensures Knows(w, t)
  {}

  /** Signing a vote the world accepts, broadcasting it or not, recording it, and possibly forming
      a certificate. */
  lemma SignKnows(w: World, cfg: Config, s: Node, v: Vote, c: Cast, announce: bool, env: Env)
    requires Tracks(w, cfg, s) && VoteOk(w, cfg.me, c)
    requires v.validator == cfg.me && v.view == c.view && v.node == c.node
    ensures var s0 := if announce then Send(s, VoteMsg(v.view, cfg.me, v)) else s;
      var t := TryFormQC(cfg, s0.(ctx := AddVote(s.ctx, v), casts := s.casts + [c]), v.view, v.node, env);
      Tracks(WithVote(w, cfg.me, c), cfg, t) && Grows(w, WithVote(w, cfg.me, c)) && t.casts == s.casts + [c] && t.made == s.made
  {
    hide WorldOk, TryFormQC, KnowsQCs, KnowsBlocks, KnowsVotes, KnowsMessages, KnowsCommits;
    var x := WithVote(w, cfg.me, c);
    AppendVote(w, cfg.me, c);
    MineAppend(w.log, cfg.me, c);
    KnowsStays(w, x, s);
    assert IsVoteFor(x.log[|w.log|], v.view, v.node);
    SendKnows(x, s, VoteMsg(v.view, cfg.me, v));
    var s0 := if announce then Send(s, VoteMsg(v.view, cfg.me, v)) else s;
    AddVoteKnows(x, s0, v);
    var s1 := s0.(ctx := AddVote(s.ctx, v));
    var s2 := s1.(casts := s.casts + [c]);
    CastsDoNotMatter(x, s1, s2);
    TryFormQCKnows(x, cfg, s2, v.view, v.node, env);
    TryFormQCQuiet(cfg, s2, v.view, v.node, env);
  }

  /** What every handler is shown to do: the extended world is sound for the replica's new state. */
  ghost predicate StepSound(w: World, cfg: Config, s: Node, t: Node) {
    var x := Extended(w, cfg.me, s, t);
    Sound(x, cfg, t) && Grows(w, x)
  }

  /** A step that neither signs nor creates. */
  lemma PassiveStep(w: World, cfg: Config, s: Node, t: Node)
    requires Sound(w, cfg, s) && Knows(w, t) && t.casts == s.casts && t.made == s.made && VotingInv(cfg, t)
    ensures StepSound(w, cfg, s, t)
  {
    ExtendedSame(w, cfg.me, s, t);
  }

  lemma AddBlockKnows(w: World, s: Node, b: Block)
    requires WorldOk(w) && Knows(w, s) && Created(w, b)
    ensures Knows(w, s.(ctx := AddBlock(s.ctx, b)))
  {
    hide Genuine, KnowsQCs, KnowsNewViews, KnowsVotes, KnowsMessages, KnowsTasks, KnowsCommits, QCKnown;
    assert RootOk(w);
    hide WorldOk;
  }

  lemma JustifyKnown(w: World, view: uint32, block: Block, justify: Option<QC>)
    requires WorldOk(w) && MsgKnown(w, Propose(view, 0, block, justify))
    ensures QCKnown(w, justify)
  {
    assert OriginOk(w, block.hash);
  }

  lemma SendKnows(w: World, s: Node, m: Msg)
    requires Knows(w, s) && MsgKnown(w, m)
    ensures Knows(w, Send(s, m))
  {
    hide Genuine, Voters, MsgKnown, CommitKnown;
  }

  lemma LockJustifyKnows(w: World, s: Node, justify: Option<QC>, env: Env)
    requires Knows(w, s) && QCKnown(w, justify)
    ensures Knows(w, LockJustify(s, justify, env)) && NotAbove(justify, LockJustify(s, justify, env).ctx.lockedQC)
  {
    hide Knows, Genuine;
    if justify.Some? {
      LockKnows(w, s, justify.value, env);
      LockKnows(w, s.(ctx := AddQC(s.ctx, justify.value)), justify.value, env);
    }
  }

  lemma AddBlockSound(w: World, cfg: Config, s: Node, b: Block)
    requires Sound(w, cfg, s) && Created(w, b)
    ensures Sound(w, cfg, s.(ctx := AddBlock(s.ctx, b)))
  {
    hide Knows, VotingInv, WorldOk;
    var t := s.(ctx := AddBlock(s.ctx, b));
    AddBlockKnows(w, s, b);
    SameVotesQuiet(s, t);
    QuietKeeps(cfg, s, t);
  }

  lemma VoteOnStep(w: World, cfg: Config, s: Node, view: uint32, block: Block, justify: Option<QC>, env: Env)
    requires Sound(w, cfg, s) && !HasVoted(s.ctx, view, cfg.me) && !cfg.IsLeader(view)
    requires MsgKnown(w, Propose(view, 0, block, justify)) && HeightOk(w, block)
    ensures StepSound(w, cfg, s, VoteOn(cfg, s, view, block, justify, env))
  {
    hide HasVoted, SafeToVote, TryFormQC, Knows, VotingInv, WorldOk, AddBlock, LockJustify;
    VoteOnKeeps(cfg, s, view, block, justify, env);
    AddBlockSound(w, cfg, s, block);
    JustifyKnown(w, view, block, justify);
    hide MsgKnown;
    var s1 := s.(ctx := AddBlock(s.ctx, block));
    LockJustifyKnows(w, s1, justify, env);
    LockJustifyKept(s1, justify, env);
    var s2 := LockJustify(s1, justify, env);
    var t := VoteOn(cfg, s, view, block, justify, env);
    if t == s1 || t == s2 {
      PassiveStep(w, cfg, s, t);
    } else {
      ProposalIsFor(w, view, block, justify);
      SafeVoteOk(w, cfg, s1, Cast(view, block.hash, true, justify, s1.ctx.lockedQC, s2.ctx.lockedQC, s2.horizon), block);
      SignedProposal(w, cfg, s, s2, view, block, justify, s1.ctx.lockedQC, env);
    }
  }

  lemma ProposalIsFor(w: World, view: uint32, block: Block, justify: Option<QC>)
    requires MsgKnown(w, Propose(view, 0, block, justify))
    ensures Created(w, block) && w.created[block.hash].view == view && w.created[block.hash].justify == justify
  {}

  lemma LockJustifyKept(s: Node, justify: Option<QC>, env: Env)
    ensures var t := LockJustify(s, justify, env);
      t.casts == s.casts && t.made == s.made && t.horizon == s.horizon
  {}

  /** The signing end of onProposal, from the state in which the lock has been updated. */
  lemma SignedProposal(w: World, cfg: Config, s: Node, s2: Node, view: uint32, block: Block, justify: Option<QC>,
                       lockBefore: Option<QC>, env: Env)
    requires Sound(w, cfg, s) && Knows(w, s2) && env.signed.Some?
    requires s2.casts == s.casts && s2.made == s.made && s2.horizon == s.horizon
    requires VoteOk(w, cfg.me, Cast(view, block.hash, true, justify, lockBefore, s2.ctx.lockedQC, s2.horizon))
    requires VotingInv(cfg, CastVote(cfg, s2, view, block, justify, lockBefore, env))
    ensures StepSound(w, cfg, s, CastVote(cfg, s2, view, block, justify, lockBefore, env))
  {
    hide TryFormQC, Knows, VotingInv, WorldOk, VoteOk;
    var v := SignVote(cfg, view, block.hash, env.signed.value);
    var c := Cast(view, block.hash, true, justify, lockBefore, s2.ctx.lockedQC, s2.horizon);
    SignKnows(w, cfg, s2, v, c, true, env);
    ExtendedVote(w, cfg.me, s, CastVote(cfg, s2, view, block, justify, lockBefore, env), c);
  }

  /** The leader's vote, from the state s2 in which its lock was updated if it is gated. */
  lemma LeaderVoteStep(w: World, cfg: Config, s: Node, s2: Node, view: uint32, node: Hash, justify: Option<QC>,
                       lockBefore: Option<QC>, env: Env)
    requires Sound(w, cfg, s) && Knows(w, s2) && VotingInv(cfg, s2)
    requires s2.casts == s.casts && s2.made == s.made && s2.horizon == s.horizon
    requires var c := Cast(view, node, false, justify, lockBefore, s2.ctx.lockedQC, s2.horizon);
      VoteOk(w, cfg.me, c) && MaySign(cfg, s2, c)
    ensures var t := LeaderVote(cfg, s2, view, node, justify, lockBefore, env);
      StepSound(w, cfg, s, t) && t.made == s.made
  {
    hide TryFormQC, Knows, VotingInv, WorldOk, MaySign, VoteOk;
    LeaderVoteKeeps(cfg, s2, view, node, justify, lockBefore, env);
    if env.signed.None? {
      PassiveStep(w, cfg, s, s2);
    } else {
      var v := SignVote(cfg, view, node, env.signed.value);
      var c := Cast(view, node, false, justify, lockBefore, s2.ctx.lockedQC, s2.horizon);
      SignKnows(w, cfg, s2, v, c, false, env);
      ExtendedVote(w, cfg.me, s, LeaderVote(cfg, s2, view, node, justify, lockBefore, env), c);
    }
  }

  /** The vote of an ungated leader. */
  lemma PlainVoteStep(w: World, cfg: Config, s: Node, view: uint32, node: Hash, justify: Option<QC>, env: Env)
    requires Sound(w, cfg, s) && cfg.IsLeader(view) && !cfg.gated
    requires node in w.created && w.created[node].view == view && w.created[node].justify == justify
    ensures var t := LeaderVote(cfg, s, view, node, justify, s.ctx.lockedQC, env);
      StepSound(w, cfg, s, t) && t.made == s.made
  {
    hide LeaderVote, Knows, WorldOk;
    LocksBehind(w, cfg, s);
    assert QCKnown(w, s.ctx.lockedQC) by { KnowsLock(w, s); }
    AsItIsMaySign(cfg, s, view, node, justify);
    hide VotingInv, MaySign;
    LeaderVoteStep(w, cfg, s, s, view, node, justify, s.ctx.lockedQC, env);
  }

  /** The vote of a gated leader. */
  lemma GatedVoteStep(w: World, cfg: Config, s: Node, view: uint32, block: Block, justify: Option<QC>, env: Env)
    requires Sound(w, cfg, s) && cfg.IsLeader(view) && Created(w, block) && QCKnown(w, justify)
    requires w.created[block.hash].view == view && w.created[block.hash].justify == justify
    ensures var t := GatedVote(cfg, s, view, block, justify, env);
      StepSound(w, cfg, s, t) && t.made == s.made
  {
    hide LeaderVote, Knows, VotingInv, WorldOk, HasVoted, SafeToVote, LockJustify, MaySign, Genuine;
    if HasVoted(s.ctx, view, cfg.me) || !SafeToVote(s.ctx, block, justify) {
      PassiveStep(w, cfg, s, s);
    } else {
      var s2 := LockJustify(s, justify, env);
      LockJustifyKnows(w, s, justify, env);
      LockJustifyKept(s, justify, env);
      LockedMaySign(cfg, s, view, block.hash, false, justify, env);
      PassiveStep(w, cfg, s, s2);
      SafeVoteOk(w, cfg, s, Cast(view, block.hash, false, justify, s.ctx.lockedQC, s2.ctx.lockedQC, s2.horizon), block);
      LeaderVoteStep(w, cfg, s, s2, view, block.hash, justify, s.ctx.lockedQC, env);
    }
  }

  lemma KnowsLock(w: World, s: Node)
    requires Knows(w, s)
    ensures QCKnown(w, s.ctx.lockedQC) && QCKnown(w, s.ctx.highQC)
  {}

  /** Creating a block: the world gains it, the leader stores it. */
  lemma CreateBlockKnows(w: World, cfg: Config, s: Node, view: uint32, justify: Option<QC>, h: Hash)
    requires Sound(w, cfg, s) && QCKnown(w, justify) && Fresh(w, h)
    ensures var m := Made(view, NewBlock(s.ctx, justify, h), justify);
      var s1 := s.(ctx := AddBlock(s.ctx, m.block), made := s.made + [m]);
      && Sound(WithBlock(w, m), cfg, s1) && Grows(w, WithBlock(w, m))
      && MsgKnown(WithBlock(w, m), Propose(view, cfg.me, m.block, justify))
  {
    hide Knows, VotingInv, WorldOk, Genuine;
    var m := Made(view, NewBlock(s.ctx, justify, h), justify);
    var x := WithBlock(w, m);
    AddBlockToWorld(w, m);
    KnowsStays(w, x, s);
    AddBlockKnows(x, s, m.block);
    var s0 := s.(ctx := AddBlock(s.ctx, m.block));
    var s1 := s0.(made := s.made + [m]);
    CastsDoNotMatter(x, s0, s1);
    SameVotesQuiet(s, s1);
    QuietKeeps(cfg, s, s1);
  }

  lemma SendSound(w: World, cfg: Config, s: Node, m: Msg)
    requires Sound(w, cfg, s) && MsgKnown(w, m)
    ensures Sound(w, cfg, Send(s, m))
  {
    hide Knows, VotingInv, WorldOk, MsgKnown;
    SendKnows(w, s, m);
    SameVotesQuiet(s, Send(s, m));
    QuietKeeps(cfg, s, Send(s, m));
  }

  lemma ProposeOnStep(w: World, cfg: Config, s: Node, view: uint32, justify: Option<QC>, env: Env)
    requires Sound(w, cfg, s) && cfg.IsLeader(view) && QCKnown(w, justify)
    requires env.created.Some? ==> Fresh(w, env.created.value)
    ensures StepSound(w, cfg, s, ProposeOn(cfg, s, view, justify, env))
  {
    hide LeaderVote, GatedVote, Knows, WorldOk, VotingInv, NewBlock, Genuine;
    if env.created.None? {
      PassiveStep(w, cfg, s, s);
    } else {
      var m := Made(view, NewBlock(s.ctx, justify, env.created.value), justify);
      var s1 := s.(ctx := AddBlock(s.ctx, m.block), made := s.made + [m]);
      var x := WithBlock(w, m);
      CreateBlockKnows(w, cfg, s, view, justify, env.created.value);
      ExtendedCreate(w, cfg.me, s, s1, m);
      if env.putBlock {
        var s2 := Send(s1, Propose(view, cfg.me, m.block, justify));
        SendSound(x, cfg, s1, Propose(view, cfg.me, m.block, justify));
        assert QCKnown(x, justify) by { if justify.Some? { GenuineStays(w, x, justify.value); } }
        if cfg.gated {
          GatedVoteStep(x, cfg, s2, view, m.block, justify, env);
        } else {
          PlainVoteStep(x, cfg, s2, view, m.block.hash, justify, env);
        }
        ExtendedBoth(w, cfg.me, s, s2, ProposeOn(cfg, s, view, justify, env), m);
      }
    }
  }

  lemma ExtendedCreate(w: World, r: uint16, s: Node, t: Node, m: Made)
    requires t.made == s.made + [m] && t.casts == s.casts
    ensures Extended(w, r, s, t) == WithBlock(w, m)
  {
    ExtendedBlock(w, r, s, t, m);
    assert w.log + [] == w.log;
  }

  lemma ExtendedBoth(w: World, r: uint16, s: Node, s2: Node, t: Node, m: Made)
    requires s2.made == s.made + [m] && s2.casts == s.casts && t.made == s2.made
    ensures Extended(w, r, s, t) == Extended(WithBlock(w, m), r, s2, t)
  {
    ExtendedBlock(w, r, s, t, m);
  }

  /** Changes of view, tasks and NEWVIEW bookkeeping. */
  lemma EnterViewSound(w: World, cfg: Config, s: Node, view: uint32, env: Env)
    requires Sound(w, cfg, s)
    ensures Sound(w, cfg, EnterView(s, view, env)) && Sound(w, cfg, Prune(s, view))
  {
    hide WorldOk, Genuine, Voters, MsgKnown, CommitKnown, VotingInv;
    SameVotesQuiet(s, EnterView(s, view, env));
    QuietKeeps(cfg, s, EnterView(s, view, env));
    PruneKeeps(cfg, s, view);
  }

  lemma AnnounceSound(w: World, cfg: Config, s: Node, view: uint32)
    requires Sound(w, cfg, s)
    ensures Sound(w, cfg, AnnounceView(cfg, s, view))
  {
    hide WorldOk, Genuine, Voters, CommitKnown, VotingInv;
    SameVotesQuiet(s, AnnounceView(cfg, s, view));
    QuietKeeps(cfg, s, AnnounceView(cfg, s, view));
    assert MsgKnown(w, NewView(view, cfg.me, s.ctx.highQC));
    hide MsgKnown;
  }

  lemma TrackSound(w: World, cfg: Config, s: Node, view: uint32, sender: uint16, qc: Option<QC>)
    requires Sound(w, cfg, s) && QCKnown(w, qc)
    ensures Sound(w, cfg, TrackNewView(s, view, sender, qc))
  {
    hide WorldOk, Genuine, Voters, CommitKnown, VotingInv, MsgKnown;
    SameVotesQuiet(s, TrackNewView(s, view, sender, qc));
    QuietKeeps(cfg, s, TrackNewView(s, view, sender, qc));
  }

  lemma CertifiedSound(w: World, cfg: Config, s: Node, qc: QC, env: Env)
    requires Sound(w, cfg, s) && Genuine(w, w.log, qc)
    ensures Sound(w, cfg, s.(ctx := UpdateHighQC(s.ctx, Some(qc)))) && Sound(w, cfg, s.(ctx := AddQC(s.ctx, qc)))
  {
    hide WorldOk, Genuine, Knows, VotingInv;
    LockKnows(w, s, qc, env);
    var s1, s2 := s.(ctx := UpdateHighQC(s.ctx, Some(qc))), s.(ctx := AddQC(s.ctx, qc));
    SameVotesQuiet(s, s1);
    QuietKeeps(cfg, s, s1);
    SameVotesQuiet(s, s2);
    QuietKeeps(cfg, s, s2);
  }

  lemma SyncToProposalSound(w: World, cfg: Config, s: Node, view: uint32, justify: Option<QC>, env: Env)
    requires Sound(w, cfg, s) && QCKnown(w, justify)
    ensures Sound(w, cfg, SyncToProposal(s, view, justify, env))
  {
    hide Genuine, Sound, EnterView, UpdateHighQC, AddQC;
    if justify.Some? {
      EnterViewSound(w, cfg, s, view, env);
      var s1 := EnterView(s, view, env);
      CertifiedSound(w, cfg, s1, justify.value, env);
      CertifiedSound(w, cfg, s1.(ctx := UpdateHighQC(s1.ctx, justify)), justify.value, env);
    }
  }

  /** A step that goes on from a state reached without signing or creating. */
  lemma StepOn(w: World, cfg: Config, s: Node, s1: Node, t: Node)
    requires Sound(w, cfg, s1) && s1.casts == s.casts && s1.made == s.made && StepSound(w, cfg, s1, t)
    ensures StepSound(w, cfg, s, t)
  {}

  lemma StillSound(w: World, cfg: Config, s: Node, t: Node)
    requires Sound(w, cfg, t) && t.casts == s.casts && t.made == s.made
    ensures StepSound(w, cfg, s, t)
  {
    ExtendedSame(w, cfg.me, s, t);
  }

  lemma OnProposalStep(w: World, cfg: Config, s: Node, view: uint32, sender: uint16, block: Block,
      justify: Option<QC>, env: Env)
    requires Sound(w, cfg, s) && MsgKnown(w, Propose(view, sender, block, justify))
    requires env.verifyOk ==> HeightOk(w, block)
    ensures StepSound(w, cfg, s, OnProposal(cfg, s, view, block, justify, env))
  {
    hide Sound, VoteOn, HasVoted, StepSound, EnterView, UpdateHighQC, AddQC;
    assert MsgKnown(w, Propose(view, 0, block, justify));
    hide MsgKnown;
    JustifyOfSound(w, cfg, s, view, block, justify);
    SyncToProposalSound(w, cfg, s, view, justify, env);
    var s1 := SyncToProposal(s, view, justify, env);
    SyncKept(s, view, justify, env);
    if Considers(cfg, s1, view, env) {
      VoteOnStep(w, cfg, s1, view, block, justify, env);
      StepOn(w, cfg, s, s1, VoteOn(cfg, s1, view, block, justify, env));
    } else {
      StillSound(w, cfg, s, s1);
    }
  }

  lemma JustifyOfSound(w: World, cfg: Config, s: Node, view: uint32, block: Block, justify: Option<QC>)
    requires Sound(w, cfg, s) && MsgKnown(w, Propose(view, 0, block, justify))
    ensures QCKnown(w, justify)
  {
    JustifyKnown(w, view, block, justify);
  }

  lemma SyncKept(s: Node, view: uint32, justify: Option<QC>, env: Env)
    ensures SyncToProposal(s, view, justify, env).casts == s.casts && SyncToProposal(s, view, justify, env).made == s.made
  {}

  lemma OnVoteStep(w: World, cfg: Config, s: Node, v: Vote, env: Env)
    requires Sound(w, cfg, s) && v.validator in Voters(w.log, v.view, v.node)
    ensures StepSound(w, cfg, s, OnVote(cfg, s, v, env))
  {
    hide Knows, VotingInv, TryFormQC, AddVote, WorldOk, Voters;
    var s1 := s.(ctx := AddVote(s.ctx, v));
    AddVoteKnows(w, s, v);
    AddVoteQuiet(s, v);
    QuietKeeps(cfg, s, s1);
    var t := TryFormQC(cfg, s1, v.view, v.node, env);
    TryFormQCKnows(w, cfg, s1, v.view, v.node, env);
    TryFormQCQuiet(cfg, s1, v.view, v.node, env);
    QuietKeeps(cfg, s1, t);
    PassiveStep(w, cfg, s, OnVote(cfg, s, v, env));
  }

  lemma ProposeQuorumStep(w: World, cfg: Config, s: Node, view: uint32, env: Env)
    requires Sound(w, cfg, s) && (env.created.Some? ==> Fresh(w, env.created.value))
    ensures StepSound(w, cfg, s, ProposeWithNewViewQuorum(cfg, s, view, env))
  {
    hide ProposeOn, VotingInv, WorldOk, Genuine, KnowsBlocks, KnowsVotes, KnowsMessages, KnowsCommits;
    var best := if view in s.ctx.newviews then HighestQC(s.ctx.newviews[view], env.hint) else None;
    var justify := if best.Some? then best else s.ctx.highQC;
    assert QCKnown(w, justify);
    if cfg.IsLeader(view) && s.ctx.view == view {
      ProposeOnStep(w, cfg, s, view, justify, env);
    } else {
      StillSound(w, cfg, s, s);
    }
  }

  lemma AdvanceStep(w: World, cfg: Config, s: Node, next: uint32, env: Env)
    requires Sound(w, cfg, s) && (env.created.Some? ==> Fresh(w, env.created.value))
    ensures StepSound(w, cfg, s, AdvanceView(cfg, s, next, env))
  {
    hide Sound, ProposeWithNewViewQuorum, StepSound, PruneVotes, AddNewView;
    EnterViewSound(w, cfg, s, next, env);
    var s1 := EnterView(s, next, env);
    EnterViewSound(w, cfg, s1, next, env);
    var s2 := Prune(s1, next);
    AnnounceSound(w, cfg, s2, next);
    var s3 := AnnounceView(cfg, s2, next);
    StillSound(w, cfg, s, s3);
    ProposeQuorumStep(w, cfg, s3, next, env);
    StepOn(w, cfg, s, s3, ProposeWithNewViewQuorum(cfg, s3, next, env));
  }

  lemma AdvanceWithQCStep(w: World, cfg: Config, s: Node, next: uint32, env: Env)
    requires Sound(w, cfg, s)
    ensures StepSound(w, cfg, s, AdvanceViewWithQC(cfg, s, next, env))
  {
    hide Sound, StepSound, PruneVotes;
    EnterViewSound(w, cfg, s, next, env);
    var s1 := EnterView(s, next, env);
    EnterViewSound(w, cfg, s1, next, env);
    var s2 := Prune(s1, next);
    TasksSound(w, cfg, s2, s2.tasks + [StartProposing]);
    StillSound(w, cfg, s, AdvanceViewWithQC(cfg, s, next, env));
  }

  lemma TasksSound(w: World, cfg: Config, s: Node, tasks: seq<Task>)
    requires Sound(w, cfg, s) && forall k :: k in tasks && k.Advance? ==> k in s.tasks
    ensures Sound(w, cfg, s.(tasks := tasks))
  {
    hide WorldOk, Genuine, MsgKnown, CommitKnown, VotingInv, KnowsQCs, KnowsBlocks, KnowsVotes;
    SameVotesQuiet(s, s.(tasks := tasks));
    QuietKeeps(cfg, s, s.(tasks := tasks));
  }

  lemma OnNewViewStep(w: World, cfg: Config, s: Node, view: uint32, sender: uint16, qc: Option<QC>, env: Env)
    requires Sound(w, cfg, s) && QCKnown(w, qc) && (env.created.Some? ==> Fresh(w, env.created.value))
    ensures StepSound(w, cfg, s, OnNewView(cfg, s, view, sender, qc, env))
  {
    hide Sound, StepSound, ProposeWithNewViewQuorum, HasVoted, AddNewView, UpdateHighQC, AddQC;
    TrackSound(w, cfg, s, view, sender, qc);
    var s0 := TrackNewView(s, view, sender, qc);
    EnterViewSound(w, cfg, s0, view, env);
    AnnounceSound(w, cfg, EnterView(s0, view, env), view);
    var s1 := SyncForward(cfg, s0, view, qc, env);
    EnterViewSound(w, cfg, s1, view, env);
    var s2 := SyncBack(cfg, s1, view, env);
    StillSound(w, cfg, s, s1);
    StillSound(w, cfg, s, s2);
    ProposeQuorumStep(w, cfg, s2, view, env);
    StepOn(w, cfg, s, s2, ProposeWithNewViewQuorum(cfg, s2, view, env));
  }

  lemma FireStep(w: World, cfg: Config, s: Node, i: nat, env: Env)
    requires Sound(w, cfg, s) && i < |s.tasks| && (env.created.Some? ==> Fresh(w, env.created.value))
    ensures StepSound(w, cfg, s, FireTask(cfg, s, i, env))
  {
    hide Sound, StepSound, ProposeOn, AdvanceViewWithQC;
    var s1 := DropTask(s, i);
    TasksSound(w, cfg, s, s1.tasks);
    match s.tasks[i]
    case Advance(view, _) =>
      AdvanceWithQCStep(w, cfg, s1, view, env);
      StepOn(w, cfg, s, s1, AdvanceViewWithQC(cfg, s1, view, env));
    case StartProposing =>
      StillSound(w, cfg, s, s1);
      if cfg.IsLeader(s1.ctx.view) {
        SoundHigh(w, cfg, s1);
        ProposeOnStep(w, cfg, s1, s1.ctx.view, s1.ctx.highQC, env);
        StepOn(w, cfg, s, s1, ProposeOn(cfg, s1, s1.ctx.view, s1.ctx.highQC, env));
      }
  }

  lemma SoundHigh(w: World, cfg: Config, s: Node)
    requires Sound(w, cfg, s)
    ensures QCKnown(w, s.ctx.highQC)
  {}

  /** Every handler, on a genuine message and with honest answers from outside. */
  lemma HandleStep(w: World, cfg: Config, s: Node, input: Input, env: Env)
    requires Sound(w, cfg, s) && (env.created.Some? ==> Fresh(w, env.created.value))
    requires input.Deliver? ==> MsgKnown(w, input.msg)
    requires env.verifyOk && input.Deliver? && input.msg.Propose? ==> HeightOk(w, input.msg.block)
    ensures StepSound(w, cfg, s, Handle(cfg, s, input, env))
  {
    hide Sound, StepSound, OnProposal, OnVote, OnNewView, AdvanceView, FireTask;
    match input
    case Deliver(Propose(view, sender, block, justify)) => OnProposalStep(w, cfg, s, view, sender, block, justify, env);
    case Deliver(VoteMsg(_, _, vote)) => OnVoteStep(w, cfg, s, vote, env);
    case Deliver(NewView(view, sender, qc)) => OnNewViewStep(w, cfg, s, view, sender, qc, env);
    case Timeout(view) =>
      StillSound(w, cfg, s, s);
      AdvanceStep(w, cfg, s, Succ32(view), env);
    case Fire(i) =>
      StillSound(w, cfg, s, s);
      if i < |s.tasks| { FireStep(w, cfg, s, i, env); }
  }
}
