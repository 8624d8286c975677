/** context.go: the Context object, whose methods update its maps in place. Each method is proved to
    do what ContextSpec says. */
module Context {
  import opened Types
  import Spec = ContextSpec

  class Context {
    var view: uint32
    var lockedQC: Option<QC>
    var highQC: Option<QC>
    var committed: map<uint32, Block>
    var votes: map<uint32, map<Hash, map<uint16, Vote>>>
    var newviews: map<uint32, map<uint16, Option<QC>>>
    var blocksByHash: map<Hash, Block>
    var qcsByNode: map<Hash, QC>
    var parents: map<Hash, Hash>

    ghost function State(): Spec.Ctx
      reads this
    {
      Spec.Ctx(view, lockedQC, highQC, committed, votes, newviews, blocksByHash, qcsByNode, parents)
    }

    /** NewContext */
    constructor (genesis: Option<Block>, genesisQC: Option<QC>)
      ensures State() == Spec.NewContext(genesis, genesisQC)
    {
      view := 0;
      lockedQC, highQC := genesisQC, genesisQC;
      committed, votes, newviews, blocksByHash, qcsByNode, parents := map[], map[], map[], map[], map[], map[];
      new;
      if genesis.Some? {
        blocksByHash := blocksByHash[genesis.value.hash := genesis.value];
        committed := committed[genesis.value.height := genesis.value];
      }
      if genesisQC.Some? {
        qcsByNode := qcsByNode[genesisQC.value.node := genesisQC.value];
      }
    }

    method SetView(v: uint32)
      modifies this
      ensures State() == old(State()).(view := v)
    {
      view := v;
    }

    method UpdateLockedQC(qc: Option<QC>) returns (updated: bool)
      modifies this
      ensures State() == Spec.UpdateLockedQC(old(State()), qc)
      ensures updated <==> qc.Some? && (old(lockedQC).None? || qc.value.view > old(lockedQC).value.view)
    {
      if qc.None? { return false; }
      if lockedQC.None? || qc.value.view > lockedQC.value.view {
        lockedQC := qc;
        return true;
      }
      return false;
    }

    method UpdateHighQC(qc: Option<QC>) returns (updated: bool)
      modifies this
      ensures State() == Spec.UpdateHighQC(old(State()), qc)
      ensures updated <==> qc.Some? && (old(highQC).None? || qc.value.view > old(highQC).value.view)
    {
      if qc.None? { return false; }
      if highQC.None? || qc.value.view > highQC.value.view {
        highQC := qc;
        return true;
      }
      return false;
    }

    // ---- Votes ----

    method AddVote(vote: Vote) returns (count: nat)
      modifies `votes
      ensures State() == Spec.AddVote(old(State()), vote)
      ensures count == |Spec.VotesFor(State(), vote.view, vote.node)|
    {
      var byHash := if vote.view in votes then votes[vote.view] else map[];
      var byIndex := if vote.node in byHash then byHash[vote.node] else map[];
      byIndex := byIndex[vote.validator := vote];
      votes := votes[vote.view := byHash[vote.node := byIndex]];
      count := |byIndex|;
    }

    /** Lists the votes in whatever order the map iteration yields. */
    method GetVotes(v: uint32, node: Hash) returns (list: seq<Vote>)
      ensures |list| == |Spec.VotesFor(State(), v, node)|
      ensures forall w :: w in list <==> w in Spec.VotesFor(State(), v, node).Values
    {
      if v !in votes || node !in votes[v] { return []; }
      var m := votes[v][node];
      var left := m.Keys;
      list := [];
      while left != {}
        invariant left <= m.Keys && |list| + |left| == |m|
        invariant forall w :: w in list <==> exists i :: i in m && i !in left && m[i] == w
        decreases left
      {
        var i :| i in left;
        left := left - {i};
        list := list + [m[i]];
        assert forall w :: w in list <==> w in list[..|list| - 1] || w == m[i];
      }
    }

    method HasVoted(v: uint32, validator: uint16) returns (voted: bool)
      ensures voted <==> Spec.HasVoted(State(), v, validator)
    {
      if v !in votes { return false; }
      var left := votes[v].Keys;
      while left != {}
        invariant left <= votes[v].Keys
        invariant forall node :: node in votes[v] && node !in left ==> validator !in votes[v][node]
        decreases left
      {
        var node :| node in left;
        left := left - {node};
        if validator in votes[v][node] {
          assert node in Spec.VotesIn(State(), v);
          return true;
        }
      }
      return false;
    }

    // ---- NEWVIEW messages ----

    method AddNewView(v: uint32, validator: uint16, qc: Option<QC>) returns (count: nat)
      modifies this
      ensures State() == Spec.AddNewView(old(State()), v, validator, qc)
      ensures count == |Spec.NewViewsIn(State(), v)|
    {
      if v !in newviews { newviews := newviews[v := map[]]; }
      var m: map<uint16, Option<QC>> := newviews[v];
      newviews := newviews[v := m[validator := qc]];
      count := |newviews[v]|;
    }

    method HasNewViewQuorum(v: uint32, quorum: nat) returns (enough: bool)
      ensures enough <==> Spec.HasNewViewQuorum(State(), v, quorum)
    {
      enough := v in newviews && |newviews[v]| >= quorum;
    }

    /** Returns a certificate of the highest view: none sent for the view is higher, and if there is
        one at all it is one of those sent. */
    method HighestQCFromNewViews(v: uint32) returns (highest: Option<QC>)
      ensures Spec.IsHighest(Spec.NewViewsIn(State(), v), highest)
    {
      if v !in newviews { return None; }
      var m := newviews[v];
      var left := m.Keys;
      highest := None;
      while left != {}
        invariant left <= m.Keys
        invariant highest.Some? ==> exists i :: i in m && m[i] == highest
        invariant forall i :: i in m && i !in left ==> Spec.NotAbove(m[i], highest)
        decreases left
      {
        var i :| i in left;
        left := left - {i};
        var qc := m[i];
        if qc.Some? && (highest.None? || qc.value.view > highest.value.view) { highest := qc; }
      }
    }

    // ---- Blocks, certificates and ancestry ----

    method AddBlock(block: Block)
      modifies this
      ensures State() == Spec.AddBlock(old(State()), block)
    {
      blocksByHash := blocksByHash[block.hash := block];
      parents := parents[block.hash := block.prevHash];
    }

    method AddQC(qc: QC)
      modifies this
      ensures State() == Spec.AddQC(old(State()), qc)
    {
      qcsByNode := qcsByNode[qc.node := qc];
    }

    /** IsAncestor and isAncestorLocked walk the parent links, at most a thousand of them. */
    method IsAncestor(ancestor: Hash, descendant: Hash) returns (found: bool)
      ensures found <==> Spec.IsAncestor(parents, ancestor, descendant)
    {
      if ancestor == descendant {
        assert Spec.Up(parents, descendant, 0) == Some(ancestor);
        return true;
      }
      var current := descendant;
      for depth := 0 to Spec.MAX_DEPTH
        invariant Spec.Up(parents, descendant, depth) == Some(current)
        invariant forall k: nat :: k <= depth ==> Spec.Up(parents, descendant, k) != Some(ancestor)
      {
        UpSplit(parents, descendant, depth);
        if current !in parents {
          forall k: nat | k > depth
            ensures Spec.Up(parents, descendant, k) == None
          {
            UpStops(parents, descendant, depth, k);
          }
          return false;
        }
        if ancestor == parents[current] { return true; }
        current := parents[current];
      }
      return false;
    }

    method SafeToVote(block: Block, justify: Option<QC>) returns (safe: bool)
      ensures safe <==> Spec.SafeToVote(State(), block, justify)
    {
      if lockedQC.None? { return true; }
      if justify.Some? && justify.value.view > lockedQC.value.view { return true; }
      safe := IsAncestor(lockedQC.value.node, block.hash);
    }

    // ---- Commits ----

    method Commit(block: Block)
      modifies this
      ensures State() == Spec.Commit(old(State()), block)
    {
      committed := committed[block.height := block];
    }

    method CanCommit(block: Block, qc: Option<QC>) returns (can: bool)
      ensures can <==> qc.Some? && Spec.CanCommit(State(), block, qc.value)
    {
      if qc.None? { return false; }
      if qc.value.node !in blocksByHash { return false; }
      var qcBlock := blocksByHash[qc.value.node];
      if qcBlock.prevHash != block.hash { return false; }
      if block.hash !in qcsByNode {
        if block.height == 0 { return qc.value.view == 1; }
        return false;
      }
      can := qc.value.view == Succ32(qcsByNode[block.hash].view);
    }

    // ---- Pruning ----

    method PruneVotes(current: uint32, keepViews: uint32)
      modifies `votes, `newviews
      ensures State() == Spec.ForgetBelow(old(State()), if current < keepViews then 0 else current - keepViews)
    {
      if current < keepViews {
        Spec.ForgetsNothing(State());
        return;
      }
      var pruneBelow := current - keepViews;
      var left := votes.Keys;
      while left != {}
        invariant left <= old(votes).Keys && newviews == old(newviews)
        invariant forall v :: v in votes <==> v in old(votes) && (v in left || v >= pruneBelow)
        invariant forall v :: v in votes ==> votes[v] == old(votes)[v]
        decreases left
      {
        var v :| v in left;
        left := left - {v};
        if v < pruneBelow { votes := votes - {v}; }
      }
      assert votes == Spec.ForgetBelow(old(State()), pruneBelow).votes;
      ghost var kept := votes;
      left := newviews.Keys;
      while left != {}
        invariant left <= old(newviews).Keys && votes == kept
        invariant forall v :: v in newviews <==> v in old(newviews) && (v in left || v >= pruneBelow)
        invariant forall v :: v in newviews ==> newviews[v] == old(newviews)[v]
        decreases left
      {
        var v :| v in left;
        left := left - {v};
        if v < pruneBelow { newviews := newviews - {v}; }
      }
      assert newviews == Spec.ForgetBelow(old(State()), pruneBelow).newviews;
    }
  }

  // ---- The ancestry walk ----

  /** One more link up. */
  lemma {:induction false} UpSplit(parents: map<Hash, Hash>, h: Hash, k: nat)
    ensures Spec.Up(parents, h, k + 1) ==
            (var u := Spec.Up(parents, h, k); if u.Some? && u.value in parents then Some(parents[u.value]) else None)
    decreases k
  {
    if k > 0 && h in parents { UpSplit(parents, parents[h], k - 1); }
  }

  /** Past a hash whose parent is unknown there is nothing. */
  lemma {:induction false} UpStops(parents: map<Hash, Hash>, h: Hash, j: nat, k: nat)
    requires Spec.Up(parents, h, j).Some? && Spec.Up(parents, h, j).value !in parents && k > j
    ensures Spec.Up(parents, h, k) == None
    decreases k
  {
    UpSplit(parents, h, k - 1);
    if k - 1 > j { UpStops(parents, h, j, k - 1); }
  }

  /** Parent links and heights fit: every stored block but the first has a recorded parent, one lower. */
  ghost predicate HeightsFit(c: Spec.Ctx) {
    && (forall h :: h in c.parents ==> h in c.blocks && c.parents[h] == c.blocks[h].prevHash)
    && (forall h :: h in c.parents && c.parents[h] in c.blocks ==> c.blocks[h].height == c.blocks[c.parents[h]].height + 1)
  }

  lemma {:induction false} UpHeight(c: Spec.Ctx, d: Hash, k: nat)
    requires HeightsFit(c) && d in c.blocks && Spec.Up(c.parents, d, k).Some? && Spec.Up(c.parents, d, k).value in c.blocks
    ensures c.blocks[d].height == c.blocks[Spec.Up(c.parents, d, k).value].height + k
    decreases k
  {
    if k > 0 {
      UpInside(c, d, k);
      UpHeight(c, c.parents[d], k - 1);
    }
  }

  lemma UpInside(c: Spec.Ctx, d: Hash, k: nat)
    requires HeightsFit(c) && k > 0 && Spec.Up(c.parents, d, k).Some? && Spec.Up(c.parents, d, k).value in c.blocks
    ensures d in c.parents && c.parents[d] in c.blocks
  {
    if k > 1 { assert Spec.Up(c.parents, c.parents[d], k - 1).Some?; }
  }

  lemma IsAncestorAt(parents: map<Hash, Hash>, a: Hash, d: Hash, k: nat)
    requires k <= Spec.MAX_DEPTH && Spec.Up(parents, d, k) == Some(a)
    ensures Spec.IsAncestor(parents, a, d)
  {}

  /** The walk finds a stored block exactly when it is on the chain below d and at most a thousand
      heights down: within that gap it is exact chain membership, beyond it ancestors are missed. */
  lemma AncestryExactly(c: Spec.Ctx, a: Hash, d: Hash)
    requires HeightsFit(c) && a in c.blocks && d in c.blocks
    ensures Spec.IsAncestor(c.parents, a, d) <==>
            (exists k: nat :: Spec.Up(c.parents, d, k) == Some(a)) && c.blocks[d].height - c.blocks[a].height <= Spec.MAX_DEPTH
  {
    forall k: nat | Spec.Up(c.parents, d, k) == Some(a)
      ensures c.blocks[d].height - c.blocks[a].height == k
    {
      UpHeight(c, d, k);
    }
    if (exists k: nat :: Spec.Up(c.parents, d, k) == Some(a)) && c.blocks[d].height - c.blocks[a].height <= Spec.MAX_DEPTH {
      var k: nat :| Spec.Up(c.parents, d, k) == Some(a);
      IsAncestorAt(c.parents, a, d, k);
    }
  }
}
