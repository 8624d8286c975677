/** Safety from the record of all votes: what follows about certified blocks when votes obey the
    SafeNode rule and locks, independent of how replicas work. */
module VoteLog {
  import opened Types
  import opened ContextSpec
  import opened Quorums
  import opened Replica
  import QuorumCert

  /** A vote some replica signed. */
  datatype Logged = Logged(replica: uint16, cast: Cast)

  /** How a block came about: as the index-th block created, in a view, on a certificate. */
  datatype Origin = Origin(index: nat, view: uint32, block: Block, justify: Option<QC>)

  /** n validators of which f may fail, the leader schedule, whether leaders' implicit votes are
      gated, the genesis block and certificate if any, every vote in the order it was signed, and
      every block created. */
  datatype World = World(n: nat, f: nat, leader: uint32 -> uint16, gated: bool, genesis: Option<Block>, root: Option<QC>,
                         log: seq<Logged>, created: map<Hash, Origin>)

  ghost predicate IsVoteFor(e: Logged, view: uint32, node: Hash) { e.cast.view == view && e.cast.node == node }

  /** The validators that signed a vote for the block in the view. */
  ghost function Voters(log: seq<Logged>, view: uint32, node: Hash): set<uint16> {
    set i | 0 <= i < |log| && IsVoteFor(log[i], view, node) :: log[i].replica
  }

  ghost predicate Certified(log: seq<Logged>, f: nat, view: uint32, node: Hash) {
    |Voters(log, view, node)| >= 2 * f + 1
  }

  /** A QC is genuine if 2f+1 distinct validators really signed votes for exactly its view and
      block, or if it is the genesis certificate. */
  ghost predicate Genuine(w: World, log: seq<Logged>, q: QC) {
    || w.root == Some(q)
    || (&& (forall i :: i in q.signers ==> i in Voters(log, q.view, q.node))
        && |QuorumCert.SetOf(q.signers)| >= 2 * w.f + 1)
  }

  /** The genesis certificate, if there is one, or a certificate of a later view. */
  ghost predicate Rooted(w: World, q: Option<QC>) {
    w.root.Some? ==> q.Some? && (q == w.root || q.value.view > w.root.value.view)
  }

  lemma GenuineIsCertified(w: World, log: seq<Logged>, q: QC)
    requires Genuine(w, log, q)
    ensures w.root == Some(q) || Certified(log, w.f, q.view, q.node)
  {
    if w.root != Some(q) { SubsetSize(QuorumCert.SetOf(q.signers), Voters(log, q.view, q.node)); }
  }

  lemma VotersGrow(log: seq<Logged>, more: seq<Logged>, view: uint32, node: Hash)
    requires log <= more
    ensures Voters(log, view, node) <= Voters(more, view, node)
  {}

  // ---- Well-formed worlds ----

  ghost function Parents(created: map<Hash, Origin>): map<Hash, Hash> {
    map h | h in created :: created[h].block.prevHash
  }

  /** a is k parent links above b. */
  ghost predicate Above(created: map<Hash, Origin>, b: Hash, k: nat, a: Hash) {
    Up(Parents(created), b, k) == Some(a)
  }

  ghost predicate Descends(created: map<Hash, Origin>, b: Hash, a: Hash) {
    exists k: nat :: Above(created, b, k, a)
  }

  /** A created block names the parent its certificate certifies; that parent was created earlier. */
  ghost predicate OriginOk(w: World, h: Hash)
    requires h in w.created
  {
    var o := w.created[h];
    && o.block.hash == h && h != ZERO_HASH && Rooted(w, o.justify)
    && match o.justify
       case None => o.block.prevHash == ZERO_HASH && o.block.height == 1
       case Some(q) =>
         && o.block.prevHash == q.node
         && Genuine(w, w.log, q)
         && (w.root == Some(q) || (q.node in w.created && w.created[q.node].index < o.index))
  }

  /** The SafeNode rule, on the global tree. */
  ghost predicate Safe(w: World, c: Cast) {
    || c.lockBefore.None?
    || (c.justify.Some? && c.justify.value.view > c.lockBefore.value.view)
    || Descends(w.created, c.node, c.lockBefore.value.node)
  }

  /** What Verify promises of a block: if its parent exists, its height is one more. */
  ghost predicate HeightOk(w: World, b: Block) {
    && (b.prevHash in w.created ==> b.height == w.created[b.prevHash].block.height + 1)
    && (w.genesis.Some? && b.prevHash == w.genesis.value.hash ==> b.height == w.genesis.value.height + 1)
  }

  /** A logged vote is for a created block, in its view; a replica other than the leader signs in
      onProposal, the leader only implicitly; the lock it held was genuine by then. */
  ghost predicate EventOk(w: World, i: nat)
    requires i < |w.log|
  {
    var r, c := w.log[i].replica, w.log[i].cast;
    && r < w.n
    && c.node in w.created && w.created[c.node].view == c.view && w.created[c.node].justify == c.justify
    && (c.viaProposal <==> r != w.leader(c.view))
    && (c.lockBefore.Some? ==> Genuine(w, w.log[..i], c.lockBefore.value)) && Rooted(w, c.lockBefore)
    && (Firm(w.gated, c) ==> Safe(w, c) && NotAbove(c.justify, c.lockAfter))
    && (c.viaProposal ==> HeightOk(w, w.created[c.node].block))
  }

  ghost predicate RootOk(w: World) {
    && (w.genesis.Some? ==> w.genesis.value.hash !in w.created)
    && (w.root.Some? ==> w.genesis.Some? && w.root.value.node == w.genesis.value.hash)
  }

  ghost predicate WorldOk(w: World) {
    && (forall h :: h in w.created ==> OriginOk(w, h))
    && (forall i :: 0 <= i < |w.log| ==> EventOk(w, i))
    && (forall i, j :: 0 <= i < j < |w.log| && w.log[i].replica == w.log[j].replica ==>
          NotAbove(w.log[i].cast.lockAfter, w.log[j].cast.lockBefore))
    && RootOk(w)
  }

  // ---- The order of votes ----

  /** No replica signs two firm votes in one view. */
  ghost predicate DistinctViews(w: World) {
    forall i, j :: (0 <= i < j < |w.log| && w.log[i].replica == w.log[j].replica
                    && Firm(w.gated, w.log[i].cast) && Firm(w.gated, w.log[j].cast)) ==>
      w.log[i].cast.view != w.log[j].cast.view
  }

  /** No replica signs in a lower view than before. */
  ghost predicate AscendingViews(w: World) {
    forall i, j :: 0 <= i < j < |w.log| && w.log[i].replica == w.log[j].replica ==>
      w.log[i].cast.view <= w.log[j].cast.view
  }

  // ---- Unique certificates ----

  lemma VotersBelow(w: World, log: seq<Logged>, view: uint32, node: Hash)
    requires WorldOk(w) && w.n <= 0x1_0000 && log <= w.log
    ensures Voters(log, view, node) <= Below(w.n)
  {
    forall r | r in Voters(log, view, node) ensures r in Below(w.n) {
      var i :| 0 <= i < |log| && IsVoteFor(log[i], view, node) && log[i].replica == r;
      assert log[i] == w.log[i] && EventOk(w, i);
    }
  }

  /** A vote of r for the block. */
  lemma VoteOf(log: seq<Logged>, view: uint32, node: Hash, r: uint16) returns (i: nat)
    requires r in Voters(log, view, node)
    ensures i < |log| && IsVoteFor(log[i], view, node) && log[i].replica == r
  {
    i :| 0 <= i < |log| && IsVoteFor(log[i], view, node) && log[i].replica == r;
  }

  /** Any two quorums share at least k of the validators. */
  ghost predicate QuorumsShare(w: World, k: nat) { w.n <= 0x1_0000 && w.n + k <= 4 * w.f + 2 }

  /** Two quorums share a validator whose votes for both blocks are firm. */
  lemma CommonFirmVoter(w: World, a: set<uint16>, b: set<uint16>, v1: uint32, v2: uint32)
    returns (r: uint16)
    requires w.n <= 0x1_0000 && a <= Below(w.n) && b <= Below(w.n)
    requires |a| >= 2 * w.f + 1 && |b| >= 2 * w.f + 1
    requires QuorumsShare(w, if w.gated then 1 else if v1 == v2 then 2 else 3)
    ensures r in a && r in b && (w.gated || (r != w.leader(v1) && r != w.leader(v2)))
  {
    Overlap(a, b, Below(w.n));
    if w.gated {
      r := Outside(a * b, {});
    } else {
      var leaders := {w.leader(v1), w.leader(v2)};
      assert v1 == v2 ==> leaders == {w.leader(v1)};
      r := Outside(a * b, leaders);
    }
  }

  /** Any two certified blocks of one view are the same, even when the leader proposes and votes
      more than once: needs quorums that share two validators, or one if leaders are gated. */
  lemma UniqueCertificate(w: World, view: uint32, a: Hash, b: Hash)
    requires WorldOk(w) && QuorumsShare(w, if w.gated then 1 else 2) && DistinctViews(w)
    requires Certified(w.log, w.f, view, a) && Certified(w.log, w.f, view, b)
    ensures a == b
  {
    VotersBelow(w, w.log, view, a);
    VotersBelow(w, w.log, view, b);
    var r := CommonFirmVoter(w, Voters(w.log, view, a), Voters(w.log, view, b), view, view);
    var i := VoteOf(w.log, view, a, r);
    var j := VoteOf(w.log, view, b, r);
    assert EventOk(w, i) && EventOk(w, j);
    hide WorldOk, Certified, Voters, EventOk;
  }

  // ---- The locked branch ----

  /** A certified block has a first quorum of voters: none of them knew it certified when voting. */
  lemma {:induction false} FirstQuorum(log: seq<Logged>, f: nat, view: uint32, node: Hash) returns (m: nat)
    requires Certified(log, f, view, node)
    ensures m <= |log| && Certified(log[..m], f, view, node)
    ensures forall i :: 0 <= i < m ==> !Certified(log[..i], f, view, node)
  {
    m := |log|;
    assert log[..m] == log;
    while m > 0 && Certified(log[..m - 1], f, view, node)
      invariant 0 <= m <= |log| && Certified(log[..m], f, view, node)
    {
      m := m - 1;
    }
    assert Voters([], view, node) == {};
    assert log[..0] == [];
    forall i | 0 <= i < m ensures !Certified(log[..i], f, view, node) {
      VotersGrow(log[..i], log[..m - 1], view, node);
      SubsetSize(Voters(log[..i], view, node), Voters(log[..m - 1], view, node));
    }
  }

  lemma {:induction false} UpSum(parents: map<Hash, Hash>, h: Hash, j: nat, k: nat)
    requires Up(parents, h, j).Some?
    ensures Up(parents, h, j + k) == Up(parents, Up(parents, h, j).value, k)
    decreases j
  {
    if j > 0 { UpSum(parents, parents[h], j - 1, k); }
  }

  lemma DescendsTransitive(created: map<Hash, Origin>, b: Hash, m: Hash, a: Hash)
    requires Descends(created, b, m) && Descends(created, m, a)
    ensures Descends(created, b, a)
  {
    var j: nat :| Above(created, b, j, m);
    var k: nat :| Above(created, m, k, a);
    UpSum(Parents(created), b, j, k);
    assert Above(created, b, j + k, a);
  }

  lemma ParentDescends(w: World, b: Hash)
    requires b in w.created
    ensures Descends(w.created, b, w.created[b].block.prevHash)
  {
    var p := Parents(w.created);
    assert Up(p, b, 1) == Up(p, p[b], 0) == Some(w.created[b].block.prevHash);
    assert Above(w.created, b, 1, w.created[b].block.prevHash);
  }

  /** A parent that was itself created was certified, and created earlier. */
  lemma ParentEarlier(w: World, b: Hash)
    requires WorldOk(w) && b in w.created && w.created[b].block.prevHash in w.created
    ensures w.created[b].justify.Some? && w.created[b].justify != w.root
    ensures w.created[w.created[b].block.prevHash].index < w.created[b].index
  {
    assert OriginOk(w, b) && OriginOk(w, w.created[b].block.prevHash) && RootOk(w);
  }

  /** Every block on a path of parent links that ends at a created block was created. */
  lemma AboveInside(created: map<Hash, Origin>, b: Hash, k: nat, a: Hash)
    requires Above(created, b, k, a) && a in created
    ensures b in created
    ensures if k == 0 then a == b
            else created[b].block.prevHash in created && Above(created, created[b].block.prevHash, k - 1, a)
  {
    if k > 0 {
      var parent := created[b].block.prevHash;
      assert Up(Parents(created), b, k) == Up(Parents(created), parent, k - 1);
    }
  }

  /** A block above another one was created earlier. */
  lemma {:induction false} AboveEarlier(w: World, b: Hash, k: nat, a: Hash)
    requires WorldOk(w) && Above(w.created, b, k, a) && a in w.created
    ensures b in w.created && if k == 0 then a == b else w.created[a].index < w.created[b].index
    decreases k
  {
    hide WorldOk, Above;
    AboveInside(w.created, b, k, a);
    if k > 0 {
      ParentEarlier(w, b);
      AboveEarlier(w, w.created[b].block.prevHash, k - 1, a);
    }
  }

  /** The certificate a block is built on: genuine, of an earlier block, in that block's view. */
  lemma JustifyFacts(w: World, b: Hash)
    requires WorldOk(w) && b in w.created && w.created[b].justify.Some? && w.created[b].justify != w.root
    ensures var q := w.created[b].justify.value;
      && q.node in w.created && w.created[q.node].index < w.created[b].index
      && Certified(w.log, w.f, q.view, q.node) && w.created[q.node].view == q.view
      && w.created[b].block.prevHash == q.node && Descends(w.created, b, q.node)
  {
    var q := w.created[b].justify.value;
    assert OriginOk(w, b);
    GenuineIsCertified(w, w.log, q);
    CertifiedView(w, w.log, q.view, q.node);
    ParentDescends(w, b);
  }

  lemma CertifiedView(w: World, log: seq<Logged>, view: uint32, node: Hash)
    requires WorldOk(w) && log <= w.log && Certified(log, w.f, view, node)
    ensures node in w.created && w.created[node].view == view
  {
    var r := Outside(Voters(log, view, node), {});
    var i := VoteOf(log, view, node, r);
    assert log[i] == w.log[i] && EventOk(w, i);
  }

  /** p and its child c are certified in consecutive views. */
  ghost predicate TwoChain(w: World, p: Hash, c: Hash) {
    && p in w.created && c in w.created
    && w.created[c].block.prevHash == p
    && w.created[c].view == w.created[p].view + 1
    && Certified(w.log, w.f, w.created[p].view, p)
    && Certified(w.log, w.f, w.created[c].view, c)
  }

  ghost predicate Hypotheses(w: World) {
    WorldOk(w) && QuorumsShare(w, if w.gated then 1 else 3) && DistinctViews(w) && AscendingViews(w)
  }

  /** Some validator signed firm votes for two blocks, one at i and one among the first m votes. */
  lemma CommonVotes(w: World, c: Hash, b: Hash, m: nat) returns (j: nat, i: nat)
    requires Hypotheses(w) && c in w.created && b in w.created
    requires Certified(w.log, w.f, w.created[c].view, c)
    requires m <= |w.log| && Certified(w.log[..m], w.f, w.created[b].view, b)
    ensures j < |w.log| && i < m && w.log[i].replica == w.log[j].replica
    ensures IsVoteFor(w.log[j], w.created[c].view, c) && Firm(w.gated, w.log[j].cast)
    ensures IsVoteFor(w.log[i], w.created[b].view, b) && Firm(w.gated, w.log[i].cast)
  {
    var vc, vb := w.created[c].view, w.created[b].view;
    VotersBelow(w, w.log, vc, c);
    VotersBelow(w, w.log[..m], vb, b);
    var r := CommonFirmVoter(w, Voters(w.log, vc, c), Voters(w.log[..m], vb, b), vc, vb);
    j := VoteOf(w.log, vc, c, r);
    i := VoteOf(w.log[..m], vb, b, r);
    assert EventOk(w, i) && EventOk(w, j);
  }

  /** A firm voter of c that later signs a vote for b holds a lock of view at least that of p. */
  lemma LockCarriesOver(w: World, p: Hash, c: Hash, b: Hash, m: nat) returns (i: nat)
    requires Hypotheses(w) && TwoChain(w, p, c)
    requires b in w.created && w.created[b].view > w.created[c].view
    requires m <= |w.log| && Certified(w.log[..m], w.f, w.created[b].view, b)
    ensures i < m && IsVoteFor(w.log[i], w.created[b].view, b) && Firm(w.gated, w.log[i].cast)
    ensures w.log[i].cast.lockBefore.Some? && w.log[i].cast.lockBefore.value.view >= w.created[p].view
  {
    hide Certified;
    var j;
    j, i := CommonVotes(w, c, b, m);
    assert EventOk(w, i) && EventOk(w, j);
    ChildJustify(w, p, c);
    VotedEarlier(w, j, i);
    hide WorldOk, TwoChain, Safe, HeightOk, Genuine;
  }

  /** Of one replica's votes, the one for the lower view came first, and the later one found its lock. */
  lemma VotedEarlier(w: World, j: nat, i: nat)
    requires WorldOk(w) && AscendingViews(w) && i < |w.log| && j < |w.log|
    requires w.log[i].replica == w.log[j].replica && w.log[j].cast.view < w.log[i].cast.view
    ensures j < i && NotAbove(w.log[j].cast.lockAfter, w.log[i].cast.lockBefore)
  {
    hide EventOk, OriginOk;
  }

  lemma ChildJustify(w: World, p: Hash, c: Hash)
    requires WorldOk(w) && TwoChain(w, p, c)
    ensures w.created[c].justify.Some? && w.created[c].justify.value.view == w.created[p].view
    ensures w.root.Some? ==> w.created[p].view > w.root.value.view
  {
    assert OriginOk(w, c) && OriginOk(w, p) && RootOk(w);
    JustifyFacts(w, c);
  }

  /** Once p and its child are certified in consecutive views, every block certified in the view of
      p or later is p or a descendant of p. By induction on the order blocks were created, since
      nothing makes the view of a certificate lower than that of the block built on it. */
  lemma {:induction false} LockedBranch(w: World, p: Hash, c: Hash, b: Hash)
    requires Hypotheses(w) && TwoChain(w, p, c)
    requires b in w.created && Certified(w.log, w.f, w.created[b].view, b) && w.created[b].view >= w.created[p].view
    ensures Descends(w.created, b, p)
    decreases w.created[b].index
  {
    var vp, vc, vb := w.created[p].view, w.created[c].view, w.created[b].view;
    if vb == vp {
      UniqueCertificate(w, vp, b, p);
      assert Above(w.created, b, 0, p);
    } else if vb == vc {
      UniqueCertificate(w, vc, b, c);
      ParentDescends(w, c);
    } else {
      var m := FirstQuorum(w.log, w.f, vb, b);
      var i := LockCarriesOver(w, p, c, b, m);
      SafeVoteDescends(w, p, c, b, m, i);
    }
  }

  /** The induction step: the vote was safe, either by a higher certificate, or by the lock. */
  lemma {:induction false} SafeVoteDescends(w: World, p: Hash, c: Hash, b: Hash, m: nat, i: nat)
    requires Hypotheses(w) && TwoChain(w, p, c) && b in w.created
    requires i < m <= |w.log| && IsVoteFor(w.log[i], w.created[b].view, b) && Firm(w.gated, w.log[i].cast)
    requires w.log[i].cast.lockBefore.Some? && w.log[i].cast.lockBefore.value.view >= w.created[p].view
    requires !Certified(w.log[..i], w.f, w.created[b].view, b)
    ensures Descends(w.created, b, p)
    decreases w.created[b].index, 0
  {
    var cast := w.log[i].cast;
    var lock := cast.lockBefore.value;
    assert EventOk(w, i) && Safe(w, cast);
    ChildJustify(w, p, c);
    if cast.justify.Some? && cast.justify.value.view > lock.view {
      JustifyFacts(w, b);
      LockedBranch(w, p, c, cast.justify.value.node);
      DescendsTransitive(w.created, b, cast.justify.value.node, p);
    } else {
      GenuineIsCertified(w, w.log[..i], lock);
      CertifiedView(w, w.log[..i], lock.view, lock.node);
      VotersGrow(w.log[..i], w.log, lock.view, lock.node);
      SubsetSize(Voters(w.log[..i], lock.view, lock.node), Voters(w.log, lock.view, lock.node));
      var k: nat :| Above(w.created, b, k, lock.node);
      AboveEarlier(w, b, k, lock.node);
      LockedBranch(w, p, c, lock.node);
      DescendsTransitive(w.created, b, lock.node, p);
    }
  }

  // ---- Agreement on heights ----

  /** A certified block was verified by some replica, so its height is its parent's plus one. */
  lemma CertifiedHeight(w: World, b: Hash)
    requires WorldOk(w) && w.f >= 1
    requires b in w.created && Certified(w.log, w.f, w.created[b].view, b)
    ensures HeightOk(w, w.created[b].block)
  {
    var v := w.created[b].view;
    var r := Outside(Voters(w.log, v, b), {w.leader(v)});
    var i := VoteOf(w.log, v, b, r);
    assert EventOk(w, i);
  }

  lemma CertifiedHeightPositive(w: World, b: Hash)
    requires WorldOk(w) && w.f >= 1
    requires b in w.created && Certified(w.log, w.f, w.created[b].view, b)
    ensures w.created[b].block.height >= 1
  {
    CertifiedHeight(w, b);
    assert OriginOk(w, b) && RootOk(w);
  }

  lemma {:induction false} HeightsGrow(w: World, b: Hash, k: nat, a: Hash)
    requires WorldOk(w) && w.f >= 1
    requires b in w.created && Certified(w.log, w.f, w.created[b].view, b)
    requires Above(w.created, b, k, a) && a in w.created
    ensures w.created[b].block.height == w.created[a].block.height + k
    decreases k
  {
    hide WorldOk, Above, Certified;
    AboveInside(w.created, b, k, a);
    if k > 0 {
      CertifiedHeight(w, b);
      ParentEarlier(w, b);
      JustifyFacts(w, b);
      HeightsGrow(w, w.created[b].block.prevHash, k - 1, a);
    }
  }

  /** Two blocks at one height, each committed by a two-chain, are the same block. */
  lemma SameHeightSameBlock(w: World, p1: Hash, c1: Hash, p2: Hash, c2: Hash)
    requires Hypotheses(w) && w.f >= 1 && TwoChain(w, p1, c1) && TwoChain(w, p2, c2)
    requires w.created[p1].block.height == w.created[p2].block.height
    ensures p1 == p2
  {
    if w.created[p1].view <= w.created[p2].view {
      LockedBranch(w, p1, c1, p2);
      var k: nat :| Above(w.created, p2, k, p1);
      HeightsGrow(w, p2, k, p1);
    } else {
      LockedBranch(w, p2, c2, p1);
      var k: nat :| Above(w.created, p1, k, p2);
      HeightsGrow(w, p1, k, p2);
    }
  }
}
