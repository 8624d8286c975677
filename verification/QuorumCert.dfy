/** quorum_cert.go: forming a certificate from votes and validating one (ed25519 scheme). */
module QuorumCert {
  import opened Types
  import opened BigEndian
  import opened Sorting
  import Votes

  /** The string "ed25519". */
  const ED25519: seq<byte> := [101, 100, 50, 53, 53, 49, 57]

  const SIG_SIZE: nat := 64

  function Index(v: Vote): int { v.validator }

  function Signer(i: uint16): int { i }

  function Signers(votes: seq<Vote>): (r: seq<uint16>)
    ensures |r| == |votes| && forall i :: 0 <= i < |r| ==> r[i] == votes[i].validator
  {
    seq(|votes|, i requires 0 <= i < |votes| => votes[i].validator)
  }

  ghost function SetOf(signers: seq<uint16>): set<uint16> { set i | i in signers }

  /** The first vote of each validator, in order of arrival. */
  function FirstVotes(votes: seq<Vote>): seq<Vote> {
    if votes == [] then []
    else
      var rest, last := FirstVotes(votes[..|votes| - 1]), votes[|votes| - 1];
      if last.validator in Signers(rest) then rest else rest + [last]
  }

  function Sorted(votes: seq<Vote>): seq<Vote> { SortBy(FirstVotes(votes), Index) }

  function SignerBytes(signers: seq<uint16>): (b: seq<byte>)
    ensures |b| == 2 * |signers|
  {
    if signers == [] then [] else SignerBytes(signers[..|signers| - 1]) + Put16(signers[|signers| - 1])
  }

  function SignatureBytes(votes: seq<Vote>): seq<byte> {
    if votes == [] then [] else SignatureBytes(votes[..|votes| - 1]) + votes[|votes| - 1].signature
  }

  predicate Sized(votes: seq<Vote>) {
    forall v :: v in votes ==> |v.signature| == SIG_SIZE
  }

  /** [count:2][signer1:2]...[signerN:2][sig1:64]...[sigN:64]; the count is truncated to 16 bits. */
  function Aggregate(votes: seq<Vote>): seq<byte> {
    Put16(|votes| % 0x1_0000) + SignerBytes(Signers(votes)) + SignatureBytes(votes)
  }

  function Timestamps(votes: seq<Vote>): (r: seq<uint64>)
    ensures |r| == |votes|
  {
    seq(|votes|, i requires 0 <= i < |votes| => votes[i].timestamp)
  }

  predicate AllFor(view: uint32, node: Hash, votes: seq<Vote>) {
    forall v :: v in votes ==> v.view == view && v.node == node
  }

  /** The certificate NewQC builds, or None where it returns an error. */
  function Form(view: uint32, node: Hash, votes: seq<Vote>, quorum: nat, scheme: seq<byte>): Option<QC> {
    if votes != [] && AllFor(view, node, votes) && quorum <= |FirstVotes(votes)| && scheme == ED25519
       && Sized(FirstVotes(votes))
    then
      var s := Sorted(votes);
      Some(QC(view, node, Signers(s), Timestamps(s), Aggregate(s), scheme))
    else None
  }

  // ---- Soundness and order independence of Form ----

  ghost predicate Distinct(votes: seq<Vote>) {
    forall i, j :: 0 <= i < j < |votes| ==> votes[i].validator != votes[j].validator
  }

  /** The distinct validators of a list of votes. */
  ghost function Voters(votes: seq<Vote>): set<uint16> { set v | v in votes :: v.validator }

  lemma DistinctAppend(s: seq<Vote>, v: Vote)
    requires Distinct(s) && v.validator !in Voters(s)
    ensures Distinct(s + [v])
  {
    forall i | 0 <= i < |s| ensures s[i].validator != v.validator {
      assert s[i].validator in Voters(s);
    }
  }

  lemma NoVoters()
    ensures Voters([]) == {}
  {}

  lemma {:induction false} FirstVotesFacts(votes: seq<Vote>)
    ensures Distinct(FirstVotes(votes))
    ensures forall v :: v in FirstVotes(votes) ==> v in votes
    ensures Voters(FirstVotes(votes)) == Voters(votes)
    ensures |FirstVotes(votes)| == |Voters(votes)|
  {
    NoVoters();
    if votes != [] {
      hide Voters, Distinct;
      var front, last := votes[..|votes| - 1], votes[|votes| - 1];
      assert votes == front + [last];
      FirstVotesFacts(front);
      var rest := FirstVotes(front);
      SignersOf(rest);
      VotersAppend(front, last);
      VotersAppend(rest, last);
      if last.validator !in Signers(rest) { DistinctAppend(rest, last); }
    }
  }

  lemma SignersOf(s: seq<Vote>)
    ensures forall x :: x in Signers(s) <==> x in Voters(s)
  {
    forall x | x in Voters(s) ensures x in Signers(s) {
      var v :| v in s && v.validator == x;
      var i :| 0 <= i < |s| && s[i] == v;
      assert Signers(s)[i] == x;
    }
  }

  lemma VotersAppend(s: seq<Vote>, v: Vote)
    ensures Voters(s + [v]) == Voters(s) + {v.validator}
  {
    assert forall w :: w in s + [v] <==> w in s || w == v;
    forall x | x in Voters(s) + {v.validator} ensures x in Voters(s + [v]) {
      if x in Voters(s) { var w :| w in s && w.validator == x; assert w in s + [v]; }
      else { assert v in s + [v]; }
    }
  }

  lemma SortDistinct(d: seq<Vote>)
    requires Distinct(d)
    ensures StrictlyAscending(SortBy(d, Index), Index)
    ensures forall v :: v in SortBy(d, Index) <==> v in d
  {
    hide SortBy;
    var s := SortBy(d, Index);
    SortByFacts(d, Index);
    SameMembers(s, d);
    forall v, w | v in s && w in s && Index(v) == Index(w) ensures v == w { DistinctSingle(d, v, w); }
    forall v | v in s ensures multiset(s)[v] <= 1 { DistinctOnce(d, v); }
    StrictWhenSingle(s, Index);
  }

  lemma VotersSame(s: seq<Vote>, t: seq<Vote>)
    requires forall v :: v in s <==> v in t
    ensures Voters(s) == Voters(t)
  {}

  /** The sorted first votes: strictly ascending, one per validator, all of them input votes. */
  lemma SortedFacts(votes: seq<Vote>)
    ensures StrictlyAscending(Sorted(votes), Index)
    ensures forall v :: v in Sorted(votes) <==> v in FirstVotes(votes)
    ensures forall v :: v in Sorted(votes) ==> v in votes
    ensures |Sorted(votes)| == |Voters(votes)| && Voters(Sorted(votes)) == Voters(votes)
  {
    FirstVotesFacts(votes);
    SortDistinct(FirstVotes(votes));
    VotersSame(Sorted(votes), FirstVotes(votes));
  }

  lemma DistinctSingle(d: seq<Vote>, v: Vote, w: Vote)
    requires Distinct(d) && v in d && w in d && v.validator == w.validator
    ensures v == w
  {}

  lemma {:induction false} DistinctOnce(d: seq<Vote>, v: Vote)
    requires Distinct(d)
    ensures multiset(d)[v] <= 1
  {
    if d != [] {
      var n := |d| - 1;
      assert d == d[..n] + [d[n]];
      DistinctOnce(d[..n], v);
      if v == d[n] { assert v !in d[..n]; }
    }
  }

  lemma SignersAre(s: seq<Vote>)
    requires StrictlyAscending(s, Index)
    ensures StrictlyAscending(Signers(s), Signer)
    ensures SetOf(Signers(s)) == Voters(s)
  {
    forall i, j | 0 <= i < j < |s| ensures Signer(Signers(s)[i]) < Signer(Signers(s)[j]) {
      assert Index(s[i]) < Index(s[j]);
    }
    forall x ensures x in Signers(s) <==> x in Voters(s) {
      if x in Voters(s) {
        var v :| v in s && v.validator == x;
        var i :| 0 <= i < |s| && s[i] == v;
        assert Signers(s)[i] == x;
      }
    }
  }

  /** Entry k of a certificate comes from one of the votes: signer, timestamp and signature. */
  ghost predicate Backed(q: QC, k: nat, votes: seq<Vote>)
    requires k < |q.signers| == |q.timestamps|
  {
    && |q.aggregate| == 2 + 2 * |q.signers| + SIG_SIZE * |q.signers|
    && exists v :: v in votes && v.validator == q.signers[k] && v.timestamp == q.timestamps[k]
                   && v.view == q.view && v.node == q.node && v.signature == SignatureAt(q.aggregate, |q.signers|, k)
  }

  /** What a formed certificate proves: its view and block, strictly ascending signers, exactly the
      validators that voted, at least a quorum of them, and for each the timestamp and the signature
      of its vote. */
  lemma FormSound(view: uint32, node: Hash, votes: seq<Vote>, quorum: nat, scheme: seq<byte>)
    requires Form(view, node, votes, quorum, scheme).Some?
    ensures var q := Form(view, node, votes, quorum, scheme).value;
      && q.view == view && q.node == node && q.scheme == ED25519
      && |q.timestamps| == |q.signers| >= quorum
      && StrictlyAscending(q.signers, Signer)
      && SetOf(q.signers) == Voters(votes)
      && forall k: nat :: k < |q.signers| ==> Backed(q, k, votes)
  {
    hide SortBy, Aggregate, Put16, SignatureAt, FirstVotes, Distinct;
    var q, s := Form(view, node, votes, quorum, scheme).value, Sorted(votes);
    SortedFacts(votes);
    SignersAre(s);
    FirstVotesFacts(votes);
    forall k: nat | k < |q.signers| ensures Backed(q, k, votes) {
      SignaturesIn(s, k);
      assert s[k] in votes;
    }
  }

  /** Strictly ascending signers are as many as their set. */
  lemma {:induction false} SignerCount(signers: seq<uint16>)
    requires StrictlyAscending(signers, Signer)
    ensures |SetOf(signers)| == |signers|
  {
    if signers != [] {
      var n := |signers| - 1;
      SignerCount(signers[..n]);
      assert signers == signers[..n] + [signers[n]];
      assert SetOf(signers) == SetOf(signers[..n]) + {signers[n]};
      assert forall i :: 0 <= i < n ==> Signer(signers[i]) < Signer(signers[n]);
    }
  }

  /** NewQC succeeds exactly when a quorum of distinct validators voted, for the right view and
      block, and the vote kept for each carries a full-size signature: duplicates never help. */
  lemma FormExactly(view: uint32, node: Hash, votes: seq<Vote>, quorum: nat)
    requires quorum > 0
    ensures Form(view, node, votes, quorum, ED25519).Some? <==>
            && AllFor(view, node, votes)
            && quorum <= |Voters(votes)|
            && Sized(FirstVotes(votes))
  {
    FirstVotesFacts(votes);
    if votes == [] { assert Voters(votes) == {}; }
  }

  /** The order of the votes does not matter when no validator appears twice: every iteration
      order of the vote map gives the same certificate. */
  lemma OrderIndependent(view: uint32, node: Hash, votes: seq<Vote>, other: seq<Vote>, quorum: nat, scheme: seq<byte>)
    requires Distinct(votes) && Distinct(other)
    requires forall v :: v in votes <==> v in other
    ensures Form(view, node, votes, quorum, scheme) == Form(view, node, other, quorum, scheme)
  {
    hide Aggregate, SortBy, FirstVotes, Distinct, Sorted, Voters, Signers, Timestamps;
    SortedSame(votes, other);
    DistinctIsFirst(votes);
    DistinctIsFirst(other);
    assert AllFor(view, node, votes) <==> AllFor(view, node, other);
    assert Sized(votes) <==> Sized(other);
  }

  lemma SortedSame(votes: seq<Vote>, other: seq<Vote>)
    requires Distinct(votes) && Distinct(other)
    requires forall v :: v in votes <==> v in other
    ensures Sorted(votes) == Sorted(other) && |votes| == |other|
  {
    DistinctIsFirst(votes);
    DistinctIsFirst(other);
    SortDistinct(votes);
    SortDistinct(other);
    AscendingUnique(Sorted(votes), Sorted(other), Index);
  }

  lemma {:induction false} DistinctIsFirst(votes: seq<Vote>)
    requires Distinct(votes)
    ensures FirstVotes(votes) == votes
  {
    if votes != [] {
      var n := |votes| - 1;
      DistinctIsFirst(votes[..n]);
      assert votes == votes[..n] + [votes[n]];
    }
  }

  // ---- Validation ----

  /** validateEd25519: the aggregate repeats the signers and holds, for each of them, a signature of
      the digest rebuilt from its timestamp. */
  predicate ValidEd25519(q: QC, vs: ValidatorSet) {
    var k := |q.signers|;
    && |q.aggregate| >= 2
    && Get16(q.aggregate) == k
    && |q.aggregate| == 2 + 2 * k + SIG_SIZE * k
    && (forall i :: 0 <= i < k ==> SignerAt(q.aggregate, i) == q.signers[i])
    && |q.timestamps| == k
    && (forall i :: 0 <= i < k ==> q.signers[i] in vs.keys && SignedBy(q, vs, i))
  }

  function SignerAt(aggregate: seq<byte>, i: nat): uint16
    requires 2 + 2 * i + 2 <= |aggregate|
  {
    Get16(aggregate[2 + 2 * i..])
  }

  function SignatureAt(aggregate: seq<byte>, k: nat, i: nat): seq<byte>
    requires i < k && |aggregate| == 2 + 2 * k + SIG_SIZE * k
  {
    var offset := 2 + 2 * k + SIG_SIZE * i;
    assert offset + SIG_SIZE <= |aggregate|;
    aggregate[offset..offset + SIG_SIZE]
  }

  predicate SignedBy(q: QC, vs: ValidatorSet, i: nat)
    requires i < |q.signers| == |q.timestamps| && q.signers[i] in vs.keys
    requires |q.aggregate| == 2 + 2 * |q.signers| + SIG_SIZE * |q.signers|
  {
    vs.verify(vs.keys[q.signers[i]], Votes.DigestOf(q.view, q.node, q.signers[i], q.timestamps[i]),
              SignatureAt(q.aggregate, |q.signers|, i))
  }

  /** QC.Validate succeeds. */
  predicate Valid(q: QC, vs: ValidatorSet) {
    && vs.Quorum() <= |q.signers|
    && (forall i :: i in q.signers ==> i in vs.keys)
    && (forall i, j :: 0 <= i < j < |q.signers| ==> q.signers[i] != q.signers[j])
    && q.scheme == ED25519
    && ValidEd25519(q, vs)
  }

  /** A vote that onVote admits, its timestamp apart: a known validator's signature of its digest. */
  predicate Authentic(v: Vote, vs: ValidatorSet) {
    v.validator in vs.keys && vs.verify(vs.keys[v.validator], Votes.Digest(v), v.signature)
  }

  /** Ed25519 verification rejects signatures that are not 64 bytes long. */
  ghost predicate ChecksSize(vs: ValidatorSet) {
    forall key, digest, sig :: vs.verify(key, digest, sig) ==> |sig| == SIG_SIZE
  }

  lemma {:induction false} SignerBytesAt(signers: seq<uint16>, i: nat)
    requires i < |signers|
    ensures SignerBytes(signers)[2 * i..2 * i + 2] == Put16(signers[i])
  {
    hide Put16;
    var n := |signers| - 1;
    var front, last := SignerBytes(signers[..n]), Put16(signers[n]);
    assert SignerBytes(signers) == front + last && |front| == 2 * n;
    if i < n {
      SignerBytesAt(signers[..n], i);
      assert (front + last)[2 * i..2 * i + 2] == front[2 * i..2 * i + 2];
    } else {
      assert (front + last)[2 * n..2 * n + 2] == last;
    }
  }

  lemma {:induction false} SignatureBytesAt(votes: seq<Vote>, i: nat)
    requires Sized(votes) && i <= |votes|
    ensures |SignatureBytes(votes)| == SIG_SIZE * |votes|
    ensures i < |votes| ==> SignatureBytes(votes)[SIG_SIZE * i..SIG_SIZE * i + SIG_SIZE] == votes[i].signature
  {
    if votes != [] {
      var n := |votes| - 1;
      assert Sized(votes[..n]);
      SignatureBytesAt(votes[..n], if i < n then i else n);
      assert |votes[n].signature| == SIG_SIZE;
    }
  }

  lemma SliceBehind(front: seq<byte>, back: seq<byte>, i: nat, j: nat)
    requires i <= j <= |back|
    ensures (front + back)[|front| + i..|front| + j] == back[i..j]
  {}

  /** The aggregate is laid out as the validator reads it. */
  lemma AggregateLayout(s: seq<Vote>, i: nat)
    requires Sized(s) && |s| < 0x1_0000 && i < |s|
    ensures var a := Aggregate(s);
      && |a| == 2 + 2 * |s| + SIG_SIZE * |s| && Get16(a) == |s|
      && SignerAt(a, i) == s[i].validator && SignatureAt(a, |s|, i) == s[i].signature
  {
    hide Put16, Get16, SignatureAt;
    var k := |s|;
    var head, signers, sigs := Put16(k), SignerBytes(Signers(s)), SignatureBytes(s);
    SignerBytesAt(Signers(s), i);
    SignaturesIn(s, i);
    var a := head + signers + sigs;
    assert a == head + (signers + sigs);
    Front16(k, signers + sigs);
    SignerIn(head, signers, sigs, i, s[i].validator);
  }

  /** Whatever their number, the signatures stand where the validator looks for them. */
  lemma SignaturesIn(s: seq<Vote>, i: nat)
    requires Sized(s) && i < |s|
    ensures var a := Aggregate(s);
      |a| == 2 + 2 * |s| + SIG_SIZE * |s| && SignatureAt(a, |s|, i) == s[i].signature
  {
    hide Put16;
    var head, signers, sigs := Put16(|s| % 0x1_0000), SignerBytes(Signers(s)), SignatureBytes(s);
    SignatureBytesAt(s, i);
    SliceBehind(head + signers, sigs, SIG_SIZE * i, SIG_SIZE * i + SIG_SIZE);
  }

  lemma SignerIn(head: seq<byte>, signers: seq<byte>, sigs: seq<byte>, i: nat, x: uint16)
    requires |head| == 2 && 2 * i + 2 <= |signers| && signers[2 * i..2 * i + 2] == Put16(x)
    ensures Get16((head + signers + sigs)[2 + 2 * i..]) == x
  {
    hide Put16, Get16;
    var a := head + signers + sigs;
    assert a[2 + 2 * i..] == Put16(x) + a[4 + 2 * i..] by {
      SliceBehind(head, signers + sigs, 2 * i, 2 * i + 2);
      assert a == head + (signers + sigs);
      assert (signers + sigs)[2 * i..2 * i + 2] == signers[2 * i..2 * i + 2];
      Split(a[2 + 2 * i..], 2);
    }
    Front16(x, a[4 + 2 * i..]);
  }

  /** A quorum of authentic votes for one block, in any order, gives a certificate that validates:
      the sorted signers, the aggregate's layout, the timestamps and the rebuilt digests line up. */
  lemma QuorumGivesValidQC(view: uint32, node: Hash, votes: seq<Vote>, vs: ValidatorSet)
    requires AllFor(view, node, votes) && vs.Quorum() <= |Voters(votes)| < 0x1_0000
    requires ChecksSize(vs) && forall v :: v in votes ==> Authentic(v, vs)
    ensures Form(view, node, votes, vs.Quorum(), ED25519).Some?
    ensures Valid(Form(view, node, votes, vs.Quorum(), ED25519).value, vs)
  {
    hide SortBy, Aggregate, FirstVotes, Put16, Get16, SignerAt, SignatureAt, Votes.DigestOf;
    var s := Sorted(votes);
    FirstVotesFacts(votes);
    SortedFacts(votes);
    FormExactly(view, node, votes, vs.Quorum());
    FormSound(view, node, votes, vs.Quorum(), ED25519);
    var q := Form(view, node, votes, vs.Quorum(), ED25519).value;
    assert q.signers == Signers(s) && q.aggregate == Aggregate(s);
    forall i | 0 <= i < |s|
      ensures |q.aggregate| == 2 + 2 * |s| + SIG_SIZE * |s| && Get16(q.aggregate) == |s|
      ensures SignerAt(q.aggregate, i) == q.signers[i] && q.signers[i] in vs.keys && SignedBy(q, vs, i)
    {
      AggregateLayout(s, i);
      assert s[i] in votes && Authentic(s[i], vs);
    }
    assert |s| > 0 && 0 <= 0 < |s|;
    forall i, j | 0 <= i < j < |q.signers| ensures q.signers[i] != q.signers[j] {
      assert Signer(q.signers[i]) < Signer(q.signers[j]);
    }
  }

  /** Entry i of a certificate as the vote it stands for: its signature is the i-th 64 bytes behind the
      count and the signers of the aggregate. */
  function EntryVote(q: QC, i: nat): Vote
    requires i < |q.signers| == |q.timestamps| && |q.aggregate| == 2 + 66 * |q.signers|
  {
    var offset := 2 + 2 * |q.signers| + 64 * i;
    Vote(q.view, q.node, q.signers[i], q.aggregate[offset..offset + 64], q.timestamps[i])
  }

  /** A registered validator signed that vote, over the digest rebuilt from it. */
  predicate EntryAuthentic(q: QC, vs: ValidatorSet, i: nat)
    requires i < |q.signers| == |q.timestamps| && |q.aggregate| == 2 + 66 * |q.signers|
  {
    var v := EntryVote(q, i);
    v.validator in vs.keys && vs.verify(vs.keys[v.validator], Votes.Digest(v), v.signature)
  }

  /** Validate accepts exactly the certificates of 2f+1 or more distinct registered signers whose scheme
      is Ed25519, whose aggregate repeats their number and indices, and each of whose entries is a vote
      that its validator really signed. */
  lemma ValidExactly(q: QC, vs: ValidatorSet)
    ensures Valid(q, vs) <==>
            var n := |q.signers|;
            && n >= 2 * vs.f + 1 && (forall i, j :: 0 <= i < j < n ==> q.signers[i] != q.signers[j])
            && |q.scheme| == 7 && (forall i :: 0 <= i < 7 ==> q.scheme[i] == "ed25519"[i] as int)
            && |q.timestamps| == n && |q.aggregate| == 2 + 66 * n && Value(q.aggregate[..2]) == n
            && (forall i :: 0 <= i < n ==> Value(q.aggregate[2 + 2 * i..4 + 2 * i]) == q.signers[i])
            && (forall i :: 0 <= i < n ==> EntryAuthentic(q, vs, i))
  {
    hide Get16, Put16, Value, Votes.DigestOf;
    var n := |q.signers|;
    SchemeName(q.scheme);
    if |q.aggregate| == 2 + 66 * n && |q.timestamps| == n {
      Value16(q.aggregate);
      forall i | 0 <= i < n
        ensures SignerAt(q.aggregate, i) == Value(q.aggregate[2 + 2 * i..4 + 2 * i])
        ensures q.signers[i] in vs.keys ==> (SignedBy(q, vs, i) <==> EntryAuthentic(q, vs, i))
      {
        Value16(q.aggregate[2 + 2 * i..]);
        assert q.aggregate[2 + 2 * i..][..2] == q.aggregate[2 + 2 * i..4 + 2 * i];
      }
      hide SignerAt, SignedBy, EntryAuthentic;
      if Valid(q, vs) {
        forall i | 0 <= i < n ensures EntryAuthentic(q, vs, i) && Value(q.aggregate[2 + 2 * i..4 + 2 * i]) == q.signers[i] {
          assert q.signers[i] in q.signers;
          assert SignerAt(q.aggregate, i) == q.signers[i] && SignedBy(q, vs, i);
        }
      }
      if forall i :: 0 <= i < n ==> EntryAuthentic(q, vs, i) {
        forall i | 0 <= i < n ensures q.signers[i] in vs.keys && SignedBy(q, vs, i) {
          assert EntryAuthentic(q, vs, i);
          Registered(q, vs, i);
        }
      }
    }
  }

  lemma Registered(q: QC, vs: ValidatorSet, i: nat)
    requires i < |q.signers| == |q.timestamps| && |q.aggregate| == 2 + 66 * |q.signers| && EntryAuthentic(q, vs, i)
    ensures q.signers[i] in vs.keys
  {}

  lemma SchemeName(s: seq<byte>)
    ensures s == ED25519 <==> |s| == 7 && forall i :: 0 <= i < 7 ==> s[i] == "ed25519"[i] as int
  {
    assert forall i :: 0 <= i < 7 ==> ED25519[i] == "ed25519"[i] as int;
  }

  // ---- The loops of quorum_cert.go ----

  /** NewQC: checks every vote, keeps the first of each validator, sorts and aggregates. */
  method NewQC(view: uint32, node: Hash, votes: seq<Vote>, vs: ValidatorSet, scheme: seq<byte>)
    returns (r: Option<QC>)
    ensures r == Form(view, node, votes, vs.Quorum(), scheme)
  {
    if |votes| == 0 { return None; }
    var i := 0;
    while i < |votes|
      invariant 0 <= i <= |votes|
      invariant AllFor(view, node, votes[..i])
    {
      if votes[i].view != view || votes[i].node != node {
        assert votes[i] in votes;
        return None;
      }
      i := i + 1;
    }
    assert votes[..i] == votes;
    var signerSet: set<uint16>, unique := {}, [];
    i := 0;
    while i < |votes|
      invariant 0 <= i <= |votes|
      invariant unique == FirstVotes(votes[..i])
      invariant signerSet == set x | x in Signers(unique)
    {
      assert votes[..i + 1][..i] == votes[..i];
      var idx := votes[i].validator;
      if idx !in signerSet {
        signerSet := signerSet + {idx};
        assert Signers(unique + [votes[i]]) == Signers(unique) + [idx];
        unique := unique + [votes[i]];
      }
      i := i + 1;
    }
    assert votes[..i] == votes;
    if |unique| < vs.Quorum() { return None; }
    var signers := SortedSigners(signerSet, votes);
    if scheme != ED25519 { return None; }
    var aggregate, timestamps := AggregateSignatures(unique);
    if aggregate.None? { return None; }
    r := Some(QC(view, node, signers, timestamps, aggregate.value, scheme));
  }

  /** The signers, taken from the set in any order and sorted. */
  method SortedSigners(signerSet: set<uint16>, ghost votes: seq<Vote>) returns (signers: seq<uint16>)
    requires signerSet == set x | x in Signers(FirstVotes(votes))
    ensures signers == Signers(Sorted(votes))
  {
    var left, list := signerSet, [];
    while left != {}
      invariant left <= signerSet
      invariant forall x :: x in list <==> x in signerSet && x !in left
      invariant forall i, j :: 0 <= i < j < |list| ==> list[i] != list[j]
      decreases left
    {
      var x :| x in left;
      left, list := left - {x}, list + [x];
    }
    var a := new uint16[|list|](i requires 0 <= i < |list| => list[i]);
    assert a[..] == list;
    SortSlice(a, Signer);
    signers := a[..];
    SortList(list);
    SignersOfSorted(votes);
    AscendingUnique(signers, Signers(Sorted(votes)), Signer);
  }

  lemma SortList(list: seq<uint16>)
    requires forall i, j :: 0 <= i < j < |list| ==> list[i] != list[j]
    ensures StrictlyAscending(SortBy(list, Signer), Signer)
    ensures forall x :: x in SortBy(list, Signer) <==> x in list
  {
    hide SortBy;
    SortByFacts(list, Signer);
    SameMembers(SortBy(list, Signer), list);
    forall x | x in list ensures multiset(list)[x] <= 1 { DistinctCount(list, x); }
    StrictWhenSingle(SortBy(list, Signer), Signer);
  }

  lemma SignersOfSorted(votes: seq<Vote>)
    ensures StrictlyAscending(Signers(Sorted(votes)), Signer)
    ensures forall x :: x in Signers(Sorted(votes)) <==> x in Signers(FirstVotes(votes))
  {
    SortedFacts(votes);
    SignersAre(Sorted(votes));
    FirstVotesFacts(votes);
    SignersOf(FirstVotes(votes));
    SignersOf(Sorted(votes));
  }

  lemma {:induction false} DistinctCount(list: seq<uint16>, x: uint16)
    requires forall i, j :: 0 <= i < j < |list| ==> list[i] != list[j]
    ensures multiset(list)[x] <= 1
  {
    if list != [] {
      var n := |list| - 1;
      assert list == list[..n] + [list[n]];
      DistinctCount(list[..n], x);
      if x == list[n] { assert x !in list[..n]; }
    }
  }

  /** aggregateEd25519Signatures: sorts a copy by index and fills the buffer. */
  method AggregateSignatures(unique: seq<Vote>) returns (aggregate: Option<seq<byte>>, timestamps: seq<uint64>)
    requires unique != []
    ensures aggregate.Some? <==> Sized(unique)
    ensures aggregate.Some? ==> aggregate.value == Aggregate(SortBy(unique, Index))
    ensures aggregate.Some? ==> timestamps == Timestamps(SortBy(unique, Index))
  {
    hide Put16, SignerBytes, SignatureBytes, Sized;
    var sorted := new Vote[|unique|](i requires 0 <= i < |unique| => unique[i]);
    assert sorted[..] == unique;
    SortSlice(sorted, Index);
    var s := sorted[..];
    SizedSorted(unique);
    var k := |s|;
    var result := new byte[2 + k * 2 + k * SIG_SIZE](_ => 0);
    ghost var done := Put16(k % 0x1_0000);
    assert result[..0] + (done + []) == done;
    var offset := Write(result, 0, Put16(k % 0x1_0000), [], done);
    assert result[..2] == done;
    WriteSigners(result, s);
    var full := WriteSignatures(result, s);
    if !full { return None, []; }
    aggregate, timestamps := Some(result[..]), Timestamps(s);
  }

  lemma SizedSorted(unique: seq<Vote>)
    ensures |SortBy(unique, Index)| == |unique| && (Sized(SortBy(unique, Index)) <==> Sized(unique))
  {
    var s := SortBy(unique, Index);
    SortByFacts(unique, Index);
    forall v ensures v in s <==> v in unique {
      assert v in s <==> v in multiset(s);
      assert v in unique <==> v in multiset(unique);
    }
  }

  method WriteSigners(result: array<byte>, s: seq<Vote>)
    requires 2 + 2 * |s| <= result.Length
    modifies result
    ensures result[..2 + 2 * |s|] == old(result[..2]) + SignerBytes(Signers(s))
    ensures result[2 + 2 * |s|..] == old(result[2 + 2 * |s|..])
  {
    hide Put16;
    var offset, i := 2, 0;
    while i < |s|
      invariant 0 <= i <= |s| && offset == 2 + 2 * i
      invariant result[..offset] == old(result[..2]) + SignerBytes(Signers(s)[..i])
      invariant result[offset..] == old(result[offset..])
    {
      ghost var next := old(result[..2]) + SignerBytes(Signers(s)[..i + 1]);
      assert Signers(s)[..i + 1][..i] == Signers(s)[..i];
      assert result[..offset] + (Put16(s[i].validator) + []) == next;
      offset := Write(result, offset, Put16(s[i].validator), [], next);
      assert result[..offset] == result[..offset] + [];
      i := i + 1;
    }
    assert Signers(s)[..i] == Signers(s);
  }

  /** Writes the signatures behind the signers, unless one has the wrong size. */
  method WriteSignatures(result: array<byte>, s: seq<Vote>) returns (ok: bool)
    requires result.Length == 2 + 2 * |s| + SIG_SIZE * |s|
    modifies result
    ensures ok <==> Sized(s)
    ensures ok ==> result[..] == old(result[..2 + 2 * |s|]) + SignatureBytes(s)
  {
    var offset: nat, i := 2 + 2 * |s|, 0;
    while i < |s|
      invariant 0 <= i <= |s| && offset == 2 + 2 * |s| + SIG_SIZE * i
      invariant Sized(s[..i])
      invariant result[..offset] == old(result[..2 + 2 * |s|]) + SignatureBytes(s[..i])
    {
      var sig := s[i].signature;
      if |sig| != SIG_SIZE {
        assert s[i] in s;
        return false;
      }
      assert offset + SIG_SIZE <= result.Length by { assert SIG_SIZE * (i + 1) <= SIG_SIZE * |s|; }
      ghost var next := old(result[..2 + 2 * |s|]) + SignatureBytes(s[..i + 1]);
      assert s[..i + 1][..i] == s[..i];
      assert result[..offset] + (sig + []) == next;
      offset := Write(result, offset, sig, [], next);
      assert result[..offset] == result[..offset] + [];
      i := i + 1;
    }
    assert s[..i] == s && result[..offset] == result[..];
    ok := true;
  }

  /** QC.Validate */
  method Validate(q: QC, vs: ValidatorSet) returns (ok: bool)
    ensures ok <==> Valid(q, vs)
  {
    if |q.signers| < vs.Quorum() { return false; }
    var i := 0;
    while i < |q.signers|
      invariant 0 <= i <= |q.signers|
      invariant forall j :: 0 <= j < i ==> q.signers[j] in vs.keys
    {
      if q.signers[i] !in vs.keys { return false; }
      i := i + 1;
    }
    var seen: set<uint16> := {};
    i := 0;
    while i < |q.signers|
      invariant 0 <= i <= |q.signers|
      invariant forall x :: x in seen <==> x in q.signers[..i]
      invariant forall j, k :: 0 <= j < k < i ==> q.signers[j] != q.signers[k]
    {
      if q.signers[i] in seen {
        var j :| 0 <= j < i && q.signers[..i][j] == q.signers[i];
        return false;
      }
      seen := seen + {q.signers[i]};
      assert q.signers[..i + 1] == q.signers[..i] + [q.signers[i]];
      i := i + 1;
    }
    if q.scheme != ED25519 { return false; }
    ok := ValidateEd25519(q, vs);
  }

  method ValidateEd25519(q: QC, vs: ValidatorSet) returns (ok: bool)
    requires forall i :: i in q.signers ==> i in vs.keys
    ensures ok <==> ValidEd25519(q, vs)
  {
    var data := q.aggregate;
    if |data| < 2 { return false; }
    var k: nat := Get16(data[0..2]);
    assert Get16(data[0..2]) == Get16(data);
    hide Get16, Put16, Votes.Digest, Votes.DigestOf;
    if k != |q.signers| { return false; }
    if |data| != 2 + k * 2 + k * SIG_SIZE { return false; }
    var offset: nat := 2;
    var sigSigners: seq<uint16> := [];
    var i := 0;
    while i < k
      invariant 0 <= i <= k == |q.signers| && offset == 2 + 2 * i && |sigSigners| == i
      invariant forall j :: 0 <= j < i ==> sigSigners[j] == SignerAt(data, j)
    {
      sigSigners := sigSigners + [Get16(data[offset..])];
      offset := offset + 2;
      i := i + 1;
    }
    i := 0;
    while i < k
      invariant 0 <= i <= k
      invariant forall j :: 0 <= j < i ==> SignerAt(data, j) == q.signers[j]
    {
      if sigSigners[i] != q.signers[i] {
        assert SignerAt(data, i) != q.signers[i];
        return false;
      }
      i := i + 1;
    }
    if |q.timestamps| != |q.signers| { return false; }
    assert sigSigners == q.signers;
    ok := VerifySignatures(q, vs);
  }

  /** Rebuilds each signer's digest and checks its signature. */
  method VerifySignatures(q: QC, vs: ValidatorSet) returns (ok: bool)
    requires forall i :: i in q.signers ==> i in vs.keys
    requires |q.timestamps| == |q.signers| && |q.aggregate| == 2 + 2 * |q.signers| + SIG_SIZE * |q.signers|
    ensures ok <==> forall i :: 0 <= i < |q.signers| ==> q.signers[i] in vs.keys && SignedBy(q, vs, i)
  {
    hide Put16, Put32, Put64;
    var k := |q.signers|;
    var offset: nat, i := 2 + 2 * k, 0;
    while i < k
      invariant 0 <= i <= k && offset == 2 + 2 * k + SIG_SIZE * i
      invariant forall j :: 0 <= j < i ==> q.signers[j] in vs.keys && SignedBy(q, vs, j)
    {
      assert q.signers[i] in q.signers;
      var digest := Votes.MakeDigest(Vote(q.view, q.node, q.signers[i], [], q.timestamps[i]));
      assert offset + SIG_SIZE <= |q.aggregate| by { assert SIG_SIZE * (i + 1) <= SIG_SIZE * k; }
      if !vs.verify(vs.keys[q.signers[i]], digest[..], q.aggregate[offset..offset + SIG_SIZE]) {
        assert !SignedBy(q, vs, i);
        return false;
      }
      offset := offset + SIG_SIZE;
      i := i + 1;
    }
    ok := true;
  }
}
