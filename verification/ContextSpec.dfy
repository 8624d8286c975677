/** context.go as a value: the state of one replica and what each Context method does to it. */
module ContextSpec {
  import opened Types

  /** The maps keyed by hash.String() are keyed by the hash itself. */
  datatype Ctx = Ctx(
    view: uint32,
    lockedQC: Option<QC>,
    highQC: Option<QC>,
    committed: map<uint32, Block>,
    votes: map<uint32, map<Hash, map<uint16, Vote>>>,
    newviews: map<uint32, map<uint16, Option<QC>>>,
    blocks: map<Hash, Block>,
    qcs: map<Hash, QC>,
    parents: map<Hash, Hash>)

  /** NewContext */
  function NewContext(genesis: Option<Block>, genesisQC: Option<QC>): Ctx {
    Ctx(0, genesisQC, genesisQC,
        if genesis.Some? then map[genesis.value.height := genesis.value] else map[],
        map[], map[],
        if genesis.Some? then map[genesis.value.hash := genesis.value] else map[],
        if genesisQC.Some? then map[genesisQC.value.node := genesisQC.value] else map[],
        map[])
  }

  // ---- Locks and certificates ----

  /** Both UpdateLockedQC and UpdateHighQC replace the held QC by one of a strictly higher view. */
  function Raise(held: Option<QC>, qc: Option<QC>): Option<QC> {
    if qc.Some? && (held.None? || qc.value.view > held.value.view) then qc else held
  }

  /** The order the lock moves along: no lock first, then by view. */
  predicate NotAbove(p: Option<QC>, q: Option<QC>) {
    p.None? || (q.Some? && p.value.view <= q.value.view)
  }

  function UpdateLockedQC(c: Ctx, qc: Option<QC>): Ctx { c.(lockedQC := Raise(c.lockedQC, qc)) }

  function UpdateHighQC(c: Ctx, qc: Option<QC>): Ctx { c.(highQC := Raise(c.highQC, qc)) }

  function AddQC(c: Ctx, qc: QC): Ctx { c.(qcs := c.qcs[qc.node := qc]) }

  function ViewOrZero(qc: Option<QC>): uint32 { if qc.Some? then qc.value.view else 0 }

  // ---- Votes ----

  function VotesIn(c: Ctx, view: uint32): map<Hash, map<uint16, Vote>> {
    if view in c.votes then c.votes[view] else map[]
  }

  /** The votes stored for a block in a view, by validator. */
  function VotesFor(c: Ctx, view: uint32, node: Hash): map<uint16, Vote> {
    if node in VotesIn(c, view) then VotesIn(c, view)[node] else map[]
  }

  function AddVote(c: Ctx, v: Vote): Ctx {
    c.(votes := c.votes[v.view := VotesIn(c, v.view)[v.node := VotesFor(c, v.view, v.node)[v.validator := v]]])
  }

  /** Some vote of the validator in the view is stored, whatever the block. */
  ghost predicate HasVoted(c: Ctx, view: uint32, validator: uint16) {
    exists node :: node in VotesIn(c, view) && validator in VotesIn(c, view)[node]
  }

  // ---- NEWVIEW messages ----

  function NewViewsIn(c: Ctx, view: uint32): map<uint16, Option<QC>> {
    if view in c.newviews then c.newviews[view] else map[]
  }

  function AddNewView(c: Ctx, view: uint32, validator: uint16, qc: Option<QC>): Ctx {
    c.(newviews := c.newviews[view := NewViewsIn(c, view)[validator := qc]])
  }

  predicate HasNewViewQuorum(c: Ctx, view: uint32, quorum: nat) {
    view in c.newviews && |c.newviews[view]| >= quorum
  }

  /** A QC of the highest view among those given; which of several is left to the map order. */
  ghost predicate IsHighest(m: map<uint16, Option<QC>>, q: Option<QC>) {
    && (q.Some? ==> exists i :: i in m && m[i] == q)
    && forall i :: i in m ==> NotAbove(m[i], q)
  }

  lemma {:induction false} HighestExists(m: map<uint16, Option<QC>>)
    ensures exists q :: IsHighest(m, q)
    decreases |m|
  {
    if m == map[] {
      assert IsHighest(m, None);
    } else {
      var i :| i in m;
      var rest := m - {i};
      assert forall j :: j in m ==> j == i || (j in rest && rest[j] == m[j]);
      HighestExists(rest);
      var q :| IsHighest(rest, q);
      if NotAbove(m[i], q) {
        assert IsHighest(m, q) by {
          if q.Some? { var j :| j in rest && rest[j] == q; assert m[j] == q; }
        }
      } else {
        assert IsHighest(m, m[i]);
      }
    }
  }

  /** HighestQCFromNewViews; `hint` is what the map iteration happened to pick. */
  ghost function HighestQC(m: map<uint16, Option<QC>>, hint: Option<QC>): (q: Option<QC>)
    ensures IsHighest(m, q)
  {
    if IsHighest(m, hint) then hint
    else
      HighestExists(m);
      var q :| IsHighest(m, q);
      q
  }

  // ---- Blocks and ancestry ----

  function AddBlock(c: Ctx, b: Block): Ctx {
    c.(blocks := c.blocks[b.hash := b], parents := c.parents[b.hash := b.prevHash])
  }

  /** The hash k parent links above h, if all of them are known. */
  function Up(parents: map<Hash, Hash>, h: Hash, k: nat): Option<Hash>
    decreases k
  {
    if k == 0 then Some(h)
    else if h in parents then Up(parents, parents[h], k - 1)
    else None
  }

  const MAX_DEPTH: nat := 1000

  /** IsAncestor and isAncestorLocked: reached within a thousand parent links. */
  ghost predicate IsAncestor(parents: map<Hash, Hash>, ancestor: Hash, descendant: Hash) {
    exists k: nat :: k <= MAX_DEPTH && Up(parents, descendant, k) == Some(ancestor)
  }

  /** SafeToVote, the SafeNode rule. */
  ghost predicate SafeToVote(c: Ctx, b: Block, justify: Option<QC>) {
    || c.lockedQC.None?
    || (justify.Some? && justify.value.view > c.lockedQC.value.view)
    || IsAncestor(c.parents, c.lockedQC.value.node, b.hash)
  }

  /** A vote is safe without a lock, on the locked block itself, or with a higher certificate. */
  lemma SafeHere(c: Ctx, block: Block, justify: Option<QC>)
    requires || c.lockedQC.None? || c.lockedQC.value.node == block.prevHash
             || (justify.Some? && justify.value.view > c.lockedQC.value.view)
    ensures SafeToVote(AddBlock(c, block), block, justify)
  {
    if c.lockedQC.Some? && c.lockedQC.value.node == block.prevHash {
      var parents := AddBlock(c, block).parents;
      assert Up(parents, block.hash, 1) == Up(parents, block.prevHash, 0) == Some(block.prevHash);
    }
  }

  // ---- Commits ----

  function Commit(c: Ctx, b: Block): Ctx { c.(committed := c.committed[b.height := b]) }

  /** CanCommit, the two-chain rule. */
  predicate CanCommit(c: Ctx, b: Block, qc: QC) {
    && qc.node in c.blocks
    && c.blocks[qc.node].prevHash == b.hash
    && if b.hash in c.qcs then qc.view == Succ32(c.qcs[b.hash].view) else b.height == 0 && qc.view == 1
  }

  // ---- Pruning ----

  /** What PruneVotes leaves: the votes and NEWVIEWs of views not below the given one. */
  function ForgetBelow(c: Ctx, below: nat): Ctx {
    c.(votes := map v | v in c.votes && v >= below :: c.votes[v],
       newviews := map v | v in c.newviews && v >= below :: c.newviews[v])
  }

  lemma ForgetsNothing(c: Ctx)
    ensures ForgetBelow(c, 0) == c
  {
    assert ForgetBelow(c, 0).votes == c.votes;
    assert ForgetBelow(c, 0).newviews == c.newviews;
  }

  /** keepViews of both callers. */
  const KEEP_VIEWS: nat := 10

  /** The view below which PruneVotes(current, keepViews) forgets. */
  function PruneBelow(current: uint32): nat {
    if current < KEEP_VIEWS then 0 else current - KEEP_VIEWS
  }

  function PruneVotes(c: Ctx, current: uint32): Ctx { ForgetBelow(c, PruneBelow(current)) }

  /** Early views prune nothing. */
  lemma NothingPruned(c: Ctx, view: uint32)
    requires view < KEEP_VIEWS
    ensures PruneVotes(c, view) == c
  {
    ForgetsNothing(c);
  }
}
