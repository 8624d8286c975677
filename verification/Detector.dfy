/** twins/detector.go: the online violation detector, against its batch specification. */
module Detector {
  import opened Types
  import Quorums
  import QuorumCert

  datatype Kind = DoubleSign | Fork | ConflictingProposal | ConflictingNewView | SafetyViolation

  /** The kind, the node that reported, the view, and where two records clash, the earlier and the
      later one. */
  datatype Violation = Violation(kind: Kind, nodeID: int, view: uint32, between: Option<(Record, Record)>)

  /** What is recorded of a vote, commit, proposal or NEWVIEW: who, in which view (for a commit: at
      which height), the block, and for a NEWVIEW the view of its high certificate. */
  datatype Record = Record(owner: uint16, slot: uint32, qcView: uint32, hash: Hash, nodeID: int)

  // ---- The batch specification ----

  predicate SameSlot(a: Record, b: Record) { a.owner == b.owner && a.slot == b.slot }

  /** The same owner said two different things in one slot. */
  predicate Clash(a: Record, b: Record) { SameSlot(a, b) && (a.qcView != b.qcView || a.hash != b.hash) }

  /** The unordered pairs of records that clash. */
  ghost function ClashingPairs(history: seq<Record>): set<(int, int)> {
    set i, j | 0 <= i < j < |history| && Clash(history[i], history[j]) :: (i, j)
  }

  /** Each owner said one thing in each slot. */
  ghost predicate IsFunction(history: seq<Record>) {
    forall a, b :: a in history && b in history && SameSlot(a, b) ==> a.qcView == b.qcView && a.hash == b.hash
  }

  /** How many records of a list clash with one more. */
  function Clashes(list: seq<Record>, r: Record): nat {
    if list == [] then 0
    else Clashes(list[..|list| - 1], r) + if Clash(list[|list| - 1], r) then 1 else 0
  }

  /** The violations one more record causes: one for each record of the list that clashes with it,
      in order, naming both. */
  function Reports(list: seq<Record>, r: Record, kind: Kind, view: uint32): seq<Violation> {
    if list == [] then []
    else
      var front, last := Reports(list[..|list| - 1], r, kind, view), list[|list| - 1];
      if Clash(last, r) then front + [Violation(kind, r.nodeID, view, Some((last, r)))] else front
  }

  /** The records of one owner and slot, in order. */
  function InSlot(history: seq<Record>, owner: uint16, slot: uint32): seq<Record> {
    if history == [] then []
    else
      var front, last := InSlot(history[..|history| - 1], owner, slot), history[|history| - 1];
      if last.owner == owner && last.slot == slot then front + [last] else front
  }

  function CountOf(violations: seq<Violation>, kind: Kind): nat {
    if violations == [] then 0
    else CountOf(violations[..|violations| - 1], kind) + if violations[|violations| - 1].kind == kind then 1 else 0
  }

  /** They are as many as the clashes, all of one kind, and a pair is named exactly when it clashes. */
  lemma {:induction false} ReportsExactly(list: seq<Record>, r: Record, kind: Kind, view: uint32)
    ensures forall k :: CountOf(Reports(list, r, kind, view), k) == if k == kind then Clashes(list, r) else 0
    ensures forall v :: v in Reports(list, r, kind, view) <==>
              v.between.Some? && v == Violation(kind, r.nodeID, view, Some((v.between.value.0, r)))
              && v.between.value.0 in list && Clash(v.between.value.0, r)
  {
    hide Clash;
    if list != [] {
      var n := |list| - 1;
      ReportsExactly(list[..n], r, kind, view);
      assert list == list[..n] + [list[n]];
      CountAppend(Reports(list[..n], r, kind, view), Violation(kind, r.nodeID, view, Some((list[n], r))));
    }
  }

  lemma {:induction false} CountJoined(a: seq<Violation>, b: seq<Violation>)
    ensures forall kind :: CountOf(a + b, kind) == CountOf(a, kind) + CountOf(b, kind)
  {
    if b == [] {
      assert a + b == a;
    } else {
      var n := |b| - 1;
      CountJoined(a, b[..n]);
      assert a + b == (a + b[..n]) + [b[n]];
      CountAppend(a + b[..n], b[n]);
    }
  }

  lemma {:induction false} ClashesAt(list: seq<Record>, r: Record)
    ensures |ClashingWith(list, r)| == Clashes(list, r)
  {
    if list != [] {
      var n := |list| - 1;
      ClashesAt(list[..n], r);
      var front := ClashingWith(list[..n], r);
      assert ClashingWith(list, r) == if Clash(list[n], r) then front + {n} else front;
    }
  }

  ghost function Paired(firsts: set<int>, n: int): set<(int, int)> { set i | i in firsts :: (i, n) }

  lemma {:induction false} PairedSize(firsts: set<int>, n: int)
    ensures |Paired(firsts, n)| == |firsts|
    decreases firsts
  {
    if |firsts| > 0 {
      var x := Quorums.Outside(firsts, {});
      PairedSize(firsts - {x}, n);
      assert Paired(firsts, n) == Paired(firsts - {x}, n) + {(x, n)};
    }
  }

  ghost function ClashingWith(history: seq<Record>, r: Record): set<int> {
    set i | 0 <= i < |history| && Clash(history[i], r)
  }

  lemma PairsSplit(history: seq<Record>, r: Record)
    ensures ClashingPairs(history + [r]) == ClashingPairs(history) + Paired(ClashingWith(history, r), |history|)
    ensures ClashingPairs(history) !! Paired(ClashingWith(history, r), |history|)
  {
    hide Clash;
    var more, n := history + [r], |history|;
    forall i, j | 0 <= i < j <= n ensures more[i] == history[i] && more[j] == if j == n then r else history[j] {}
  }

  /** One more record clashes with those of its own slot, and no others. */
  lemma OneMorePairs(history: seq<Record>, r: Record)
    ensures |ClashingPairs(history + [r])| == |ClashingPairs(history)| + Clashes(history, r)
  {
    hide ClashingPairs, Paired, ClashingWith;
    PairsSplit(history, r);
    PairedSize(ClashingWith(history, r), |history|);
    ClashesAt(history, r);
  }

  lemma {:induction false} SlotClashes(history: seq<Record>, r: Record)
    ensures Clashes(InSlot(history, r.owner, r.slot), r) == Clashes(history, r)
  {
    if history != [] {
      var n := |history| - 1;
      SlotClashes(history[..n], r);
      var front := InSlot(history[..n], r.owner, r.slot);
      assert (front + [history[n]])[..|front|] == front;
    }
  }

  lemma InSlotAppend(history: seq<Record>, r: Record, owner: uint16, slot: uint32)
    ensures InSlot(history + [r], owner, slot) ==
            if r.owner == owner && r.slot == slot then InSlot(history, owner, slot) + [r] else InSlot(history, owner, slot)
  {
    assert (history + [r])[..|history|] == history;
  }

  /** No pair clashes exactly when the recorded relation is a function. */
  lemma NoneExactly(history: seq<Record>)
    ensures |ClashingPairs(history)| == 0 <==> IsFunction(history)
  {
    if !IsFunction(history) {
      var a, b :| a in history && b in history && SameSlot(a, b) && (a.qcView != b.qcView || a.hash != b.hash);
      var i :| 0 <= i < |history| && history[i] == a;
      var j :| 0 <= j < |history| && history[j] == b;
      assert (if i < j then (i, j) else (j, i)) in ClashingPairs(history);
    }
    if ClashingPairs(history) != {} {
      var p :| p in ClashingPairs(history);
      assert history[p.0] in history && history[p.1] in history;
    }
  }

  // ---- The detector ----

  type Table = map<uint16, map<uint32, seq<Record>>>

  function At(t: Table, owner: uint16, slot: uint32): seq<Record> {
    if owner in t && slot in t[owner] then t[owner][slot] else []
  }

  ghost predicate Files(t: Table, history: seq<Record>) {
    forall owner, slot :: At(t, owner, slot) == InSlot(history, owner, slot)
  }

  /** ViolationDetector. The histories are ghost: everything recorded, in order; `injected` counts
      the double-signs that RecordConflictingVote simulates. */
  class ViolationDetector {
    var votes: Table
    var proposals: Table
    var newViews: Table
    var committed: Table
    var violations: seq<Violation>
    ghost var voteHistory: seq<Record>
    ghost var proposalHistory: seq<Record>
    ghost var newViewHistory: seq<Record>
    ghost var commitHistory: seq<Record>
    ghost var injected: nat

    /** The tables hold the histories by slot, and the violations of each kind are exactly the
        clashing pairs of its history. */
    ghost predicate Valid()
      reads this
    {
      && Files(votes, voteHistory) && Files(proposals, proposalHistory)
      && Files(newViews, newViewHistory) && Files(committed, commitHistory)
      && CountOf(violations, DoubleSign) == |ClashingPairs(voteHistory)| + injected
      && CountOf(violations, Fork) == |ClashingPairs(commitHistory)|
      && CountOf(violations, ConflictingProposal) == |ClashingPairs(proposalHistory)|
      && CountOf(violations, ConflictingNewView) == |ClashingPairs(newViewHistory)|
    }

    constructor ()
      ensures Valid() && violations == []
      ensures voteHistory == proposalHistory == newViewHistory == commitHistory == [] && injected == 0
    {
      votes, proposals, newViews, committed, violations := map[], map[], map[], map[], [];
      voteHistory, proposalHistory, newViewHistory, commitHistory, injected := [], [], [], [], 0;
    }

    /** The loop of every Record method: one violation per earlier record that clashes. */
    method Scan(existing: seq<Record>, r: Record, kind: Kind, view: uint32)
      requires forall x :: x in existing ==> SameSlot(x, r)
      modifies `violations
      ensures violations == old(violations) + Reports(existing, r, kind, view)
      ensures forall k ::
        CountOf(violations, k) == CountOf(old(violations), k) + if k == kind then Clashes(existing, r) else 0
    {
      var i := 0;
      assert Reports(existing[..0], r, kind, view) == [];
      while i < |existing|
        invariant 0 <= i <= |existing| && violations == old(violations) + Reports(existing[..i], r, kind, view)
      {
        assert existing[..i + 1][..i] == existing[..i];
        if existing[i].qcView != r.qcView || existing[i].hash != r.hash {
          violations := violations + [Violation(kind, r.nodeID, view, Some((existing[i], r)))];
        }
        i := i + 1;
      }
      assert existing[..i] == existing;
      ReportsExactly(existing, r, kind, view);
      CountJoined(old(violations), Reports(existing, r, kind, view));
    }

    /** RecordVote and recordVoteInternal */
    method RecordVote(nodeID: int, validator: uint16, view: uint32, hash: Hash)
      requires Valid()
      modifies this
      ensures Valid() && voteHistory == old(voteHistory) + [Record(validator, view, 0, hash, nodeID)]
      ensures injected == old(injected) && proposalHistory == old(proposalHistory)
      ensures newViewHistory == old(newViewHistory) && commitHistory == old(commitHistory)
      ensures violations == old(violations)
              + Reports(InSlot(old(voteHistory), validator, view), Record(validator, view, 0, hash, nodeID),
                        DoubleSign, view)
    {
      hide ClashingPairs, Files;
      var r := Record(validator, view, 0, hash, nodeID);
      Filed(votes, voteHistory, r);
      Scan(At(votes, validator, view), r, DoubleSign, view);
      votes := Append(votes, r);
      voteHistory := voteHistory + [r];
    }

    /** Records the vote and then one injected double-sign. */
    method RecordConflictingVote(nodeID: int, validator: uint16, view: uint32, hash: Hash)
      requires Valid()
      modifies this
      ensures Valid() && voteHistory == old(voteHistory) + [Record(validator, view, 0, hash, nodeID)]
      ensures injected == old(injected) + 1 && proposalHistory == old(proposalHistory)
      ensures newViewHistory == old(newViewHistory) && commitHistory == old(commitHistory)
      ensures violations == old(violations)
              + Reports(InSlot(old(voteHistory), validator, view), Record(validator, view, 0, hash, nodeID),
                        DoubleSign, view)
              + [Violation(DoubleSign, nodeID, view, None)]
    {
      hide ClashingPairs, Reports, InSlot, CountOf;
      RecordVote(nodeID, validator, view, hash);
      InSlotAppend(old(voteHistory), Record(validator, view, 0, hash, nodeID), validator, view);
      assert At(votes, validator, view) != [];
      hide Files;
      if |At(votes, validator, view)| > 0 {
        CountAppend(violations, Violation(DoubleSign, nodeID, view, None));
        violations := violations + [Violation(DoubleSign, nodeID, view, None)];
        injected := injected + 1;
      }
    }

    method RecordCommit(nodeID: int, height: uint32, hash: Hash)
      requires Valid()
      modifies this
      ensures Valid() && commitHistory == old(commitHistory) + [Record(0, height, 0, hash, nodeID)]
      ensures injected == old(injected) && voteHistory == old(voteHistory)
      ensures proposalHistory == old(proposalHistory) && newViewHistory == old(newViewHistory)
      ensures violations == old(violations)
              + Reports(InSlot(old(commitHistory), 0, height), Record(0, height, 0, hash, nodeID), Fork, 0)
    {
      hide ClashingPairs, Files;
      var r := Record(0, height, 0, hash, nodeID);
      Filed(committed, commitHistory, r);
      Scan(At(committed, 0, height), r, Fork, 0);
      committed := Append(committed, r);
      commitHistory := commitHistory + [r];
    }

    method RecordProposal(nodeID: int, leader: uint16, view: uint32, hash: Hash)
      requires Valid()
      modifies this
      ensures Valid() && proposalHistory == old(proposalHistory) + [Record(leader, view, 0, hash, nodeID)]
      ensures injected == old(injected) && voteHistory == old(voteHistory)
      ensures newViewHistory == old(newViewHistory) && commitHistory == old(commitHistory)
      ensures violations == old(violations)
              + Reports(InSlot(old(proposalHistory), leader, view), Record(leader, view, 0, hash, nodeID),
                        ConflictingProposal, view)
    {
      hide ClashingPairs, Files;
      var r := Record(leader, view, 0, hash, nodeID);
      Filed(proposals, proposalHistory, r);
      Scan(At(proposals, leader, view), r, ConflictingProposal, view);
      proposals := Append(proposals, r);
      proposalHistory := proposalHistory + [r];
    }

    method RecordNewView(nodeID: int, validator: uint16, view: uint32, highQCView: uint32, highQCNode: Hash)
      requires Valid()
      modifies this
      ensures Valid() && newViewHistory == old(newViewHistory) + [Record(validator, view, highQCView, highQCNode, nodeID)]
      ensures injected == old(injected) && voteHistory == old(voteHistory)
      ensures proposalHistory == old(proposalHistory) && commitHistory == old(commitHistory)
      ensures violations == old(violations)
              + Reports(InSlot(old(newViewHistory), validator, view),
                        Record(validator, view, highQCView, highQCNode, nodeID), ConflictingNewView, view)
    {
      hide ClashingPairs, Files;
      var r := Record(validator, view, highQCView, highQCNode, nodeID);
      Filed(newViews, newViewHistory, r);
      Scan(At(newViews, validator, view), r, ConflictingNewView, view);
      newViews := Append(newViews, r);
      newViewHistory := newViewHistory + [r];
    }

    /** Two signer lists must share at least f + 1 validators. */
    method VerifyQuorumIntersection(signers1: seq<uint16>, signers2: seq<uint16>, view2: uint32, f: nat)
      requires Valid()
      modifies `violations
      ensures Valid()
      ensures violations == old(violations)
              + if Shared(signers1, signers2) < f + 1 then [Violation(SafetyViolation, -1, view2, None)] else []
    {
      var signerSet: set<uint16>, i := {}, 0;
      while i < |signers1|
        invariant 0 <= i <= |signers1| && signerSet == QuorumCert.SetOf(signers1[..i])
      {
        assert signers1[..i + 1] == signers1[..i] + [signers1[i]];
        signerSet := signerSet + {signers1[i]};
        i := i + 1;
      }
      assert signers1[..i] == signers1;
      var intersection := 0;
      i := 0;
      while i < |signers2|
        invariant 0 <= i <= |signers2| && intersection == Shared(signers1, signers2[..i])
      {
        assert signers2[..i + 1][..i] == signers2[..i];
        if signers2[i] in signerSet { intersection := intersection + 1; }
        i := i + 1;
      }
      assert signers2[..i] == signers2;
      if intersection < f + 1 {
        CountAppend(violations, Violation(SafetyViolation, -1, view2, None));
        violations := violations + [Violation(SafetyViolation, -1, view2, None)];
      }
    }

    method GetViolationsByType(kind: Kind) returns (result: seq<Violation>)
      ensures |result| == CountOf(violations, kind)
      ensures forall v :: v in result <==> v in violations && v.kind == kind
    {
      result := [];
      var i := 0;
      while i < |violations|
        invariant 0 <= i <= |violations| && |result| == CountOf(violations[..i], kind)
        invariant forall v :: v in result <==> v in violations[..i] && v.kind == kind
      {
        assert violations[..i + 1] == violations[..i] + [violations[i]];
        CountAppend(violations[..i], violations[i]);
        if violations[i].kind == kind { result := result + [violations[i]]; }
        i := i + 1;
      }
      assert violations[..i] == violations;
    }

    method GetViolationCount() returns (counts: map<Kind, nat>)
      ensures forall k :: k in counts <==> CountOf(violations, k) > 0
      ensures forall k :: k in counts ==> counts[k] == CountOf(violations, k)
    {
      counts := map[];
      var i := 0;
      while i < |violations|
        invariant 0 <= i <= |violations|
        invariant forall k :: k in counts <==> CountOf(violations[..i], k) > 0
        invariant forall k :: k in counts ==> counts[k] == CountOf(violations[..i], k)
      {
        assert violations[..i + 1] == violations[..i] + [violations[i]];
        CountAppend(violations[..i], violations[i]);
        var kind := violations[i].kind;
        counts := counts[kind := (if kind in counts then counts[kind] else 0) + 1];
        i := i + 1;
      }
      assert violations[..i] == violations;
    }
  }

  lemma CountAppend(violations: seq<Violation>, v: Violation)
    ensures forall kind :: CountOf(violations + [v], kind) == CountOf(violations, kind) + if v.kind == kind then 1 else 0
  {
    assert (violations + [v])[..|violations|] == violations;
  }

  function Append(t: Table, r: Record): Table {
    var slots := if r.owner in t then t[r.owner] else map[];
    t[r.owner := slots[r.slot := At(t, r.owner, r.slot) + [r]]]
  }

  lemma {:induction false} InSlotSame(history: seq<Record>, owner: uint16, slot: uint32)
    ensures forall x :: x in InSlot(history, owner, slot) ==> x.owner == owner && x.slot == slot
  {
    if history != [] { InSlotSame(history[..|history| - 1], owner, slot); }
  }

  /** What filing one more record does to the table, the scanned list and the pairs. */
  lemma Filed(t: Table, history: seq<Record>, r: Record)
    requires Files(t, history)
    ensures Files(Append(t, r), history + [r])
    ensures At(t, r.owner, r.slot) == InSlot(history, r.owner, r.slot)
    ensures forall x :: x in At(t, r.owner, r.slot) ==> SameSlot(x, r)
    ensures |ClashingPairs(history + [r])| == |ClashingPairs(history)| + Clashes(At(t, r.owner, r.slot), r)
  {
    hide ClashingPairs;
    InSlotSame(history, r.owner, r.slot);
    SlotClashes(history, r);
    OneMorePairs(history, r);
    forall owner, slot ensures At(Append(t, r), owner, slot) == InSlot(history + [r], owner, slot) {
      InSlotAppend(history, r, owner, slot);
    }
  }

  /** A kind goes unreported exactly when each owner said one thing in each slot. */
  lemma SilentExactly(d: ViolationDetector)
    requires d.Valid() && d.injected == 0
    ensures CountOf(d.violations, DoubleSign) == 0 <==> IsFunction(d.voteHistory)
    ensures CountOf(d.violations, Fork) == 0 <==> IsFunction(d.commitHistory)
    ensures CountOf(d.violations, ConflictingProposal) == 0 <==> IsFunction(d.proposalHistory)
    ensures CountOf(d.violations, ConflictingNewView) == 0 <==> IsFunction(d.newViewHistory)
  {
    hide Files, ClashingPairs, IsFunction;
    NoneExactly(d.voteHistory);
    NoneExactly(d.commitHistory);
    NoneExactly(d.proposalHistory);
    NoneExactly(d.newViewHistory);
  }

  // ---- Quorum intersection ----

  /** How many entries of the second list appear in the first. */
  function Shared(signers1: seq<uint16>, signers2: seq<uint16>): nat {
    if signers2 == [] then 0
    else Shared(signers1, signers2[..|signers2| - 1]) + if signers2[|signers2| - 1] in signers1 then 1 else 0
  }

  ghost predicate AllDistinct(s: seq<uint16>) { forall i, j :: 0 <= i < j < |s| ==> s[i] != s[j] }

  lemma OneMoreShared(a: set<uint16>, b: set<uint16>, x: uint16)
    requires x !in b
    ensures |b + {x}| == |b| + 1
    ensures |a * (b + {x})| == |a * b| + if x in a then 1 else 0
  {
    assert a * (b + {x}) == if x in a then a * b + {x} else a * b;
  }

  lemma {:induction false} SharedIsOverlap(signers1: seq<uint16>, signers2: seq<uint16>)
    requires AllDistinct(signers2)
    ensures Shared(signers1, signers2) == |QuorumCert.SetOf(signers1) * QuorumCert.SetOf(signers2)|
    ensures |QuorumCert.SetOf(signers2)| == |signers2|
  {
    if signers2 == [] {
      assert QuorumCert.SetOf(signers1) * QuorumCert.SetOf(signers2) == {};
    } else {
      var n := |signers2| - 1;
      var front, last := signers2[..n], signers2[n];
      SharedIsOverlap(signers1, front);
      assert signers2 == front + [last];
      assert QuorumCert.SetOf(signers2) == QuorumCert.SetOf(front) + {last};
      OneMoreShared(QuorumCert.SetOf(signers1), QuorumCert.SetOf(front), last);
    }
  }

  /** Two validated certificates over n validators share at least 4f + 2 - n of them. */
  lemma ValidQuorumsOverlap(p: QC, q: QC, vs: ValidatorSet)
    requires QuorumCert.Valid(p, vs) && QuorumCert.Valid(q, vs)
    ensures Shared(p.signers, q.signers) >= 4 * vs.f + 2 - |vs.keys|
  {
    var a, b := QuorumCert.SetOf(p.signers), QuorumCert.SetOf(q.signers);
    SharedIsOverlap(p.signers, q.signers);
    SharedIsOverlap(q.signers, p.signers);
    assert a <= vs.keys.Keys && b <= vs.keys.Keys && |vs.keys.Keys| == |vs.keys|;
    Quorums.Overlap(a, b, vs.keys.Keys);
  }

  /** With n = 3f + 1 the intersection check never reports two certificates that pass Validate. */
  lemma IntersectionNeverFires(p: QC, q: QC, vs: ValidatorSet)
    requires QuorumCert.Valid(p, vs) && QuorumCert.Valid(q, vs) && |vs.keys| == 3 * vs.f + 1
    ensures !(Shared(p.signers, q.signers) < vs.f + 1)
  {
    hide QuorumCert.Valid;
    ValidQuorumsOverlap(p, q, vs);
  }
}
