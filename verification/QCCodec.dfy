/** quorum_cert.go: the wire format of quorum certificates. */
module QCCodec {
  import opened Types
  import opened BigEndian
  import QuorumCert

  // ---- Lists of integers ----

  function List16To(list: seq<uint16>, rest: seq<byte>): seq<byte> {
    if list == [] then rest else Put16(list[0]) + List16To(list[1..], rest)
  }

  function List64To(list: seq<uint64>, rest: seq<byte>): seq<byte> {
    if list == [] then rest else Put64(list[0]) + List64To(list[1..], rest)
  }

  function ReadList16(data: seq<byte>, n: nat): (r: seq<uint16>)
    requires 2 * n <= |data|
    ensures |r| == n
  {
    seq(n, i requires 0 <= i < n => Get16(data[2 * i..]))
  }

  function ReadList64(data: seq<byte>, n: nat): (r: seq<uint64>)
    requires 8 * n <= |data|
    ensures |r| == n
  {
    seq(n, i requires 0 <= i < n => Get64(data[8 * i..]))
  }

  lemma {:induction false} List16At(list: seq<uint16>, rest: seq<byte>, i: nat)
    requires i <= |list|
    ensures |List16To(list, rest)| == 2 * |list| + |rest|
    ensures List16To(list, rest)[2 * i..] == List16To(list[i..], rest)
  {
    hide Put16;
    if list == [] || i == 0 {
      assert list[i..] == list;
      if list != [] { List16At(list[1..], rest, 0); }
    } else {
      List16At(list[1..], rest, i - 1);
      Front(Put16(list[0]), List16To(list[1..], rest));
      assert List16To(list, rest)[2 * i..] == List16To(list, rest)[2..][2 * (i - 1)..];
      assert list[1..][i - 1..] == list[i..];
    }
  }

  lemma {:induction false} List64At(list: seq<uint64>, rest: seq<byte>, i: nat)
    requires i <= |list|
    ensures |List64To(list, rest)| == 8 * |list| + |rest|
    ensures List64To(list, rest)[8 * i..] == List64To(list[i..], rest)
  {
    hide Put64;
    if list == [] || i == 0 {
      assert list[i..] == list;
      if list != [] { List64At(list[1..], rest, 0); }
    } else {
      List64At(list[1..], rest, i - 1);
      Front(Put64(list[0]), List64To(list[1..], rest));
      assert List64To(list, rest)[8 * i..] == List64To(list, rest)[8..][8 * (i - 1)..];
      assert list[1..][i - 1..] == list[i..];
    }
  }

  lemma List16RoundTrip(list: seq<uint16>, rest: seq<byte>)
    ensures |List16To(list, rest)| == 2 * |list| + |rest|
    ensures ReadList16(List16To(list, rest), |list|) == list && List16To(list, rest)[2 * |list|..] == rest
  {
    List16At(list, rest, |list|);
    forall i | 0 <= i < |list| ensures Get16(List16To(list, rest)[2 * i..]) == list[i] {
      List16At(list, rest, i);
      Front16(list[i], List16To(list[i..][1..], rest));
    }
  }

  lemma List64RoundTrip(list: seq<uint64>, rest: seq<byte>)
    ensures |List64To(list, rest)| == 8 * |list| + |rest|
    ensures ReadList64(List64To(list, rest), |list|) == list && List64To(list, rest)[8 * |list|..] == rest
  {
    List64At(list, rest, |list|);
    forall i | 0 <= i < |list| ensures Get64(List64To(list, rest)[8 * i..]) == list[i] {
      List64At(list, rest, i);
      Front64(list[i], List64To(list[i..][1..], rest));
    }
  }

  lemma {:induction false} List16Sound(data: seq<byte>, n: nat)
    requires 2 * n <= |data|
    ensures data == List16To(ReadList16(data, n), data[2 * n..])
  {
    hide Put16, Get16;
    if n > 0 {
      List16Sound(data[2..], n - 1);
      assert data[2..][2 * (n - 1)..] == data[2 * n..];
      assert ReadList16(data, n)[1..] == ReadList16(data[2..], n - 1) by {
        forall i | 0 <= i < n - 1 ensures data[2 * (i + 1)..] == data[2..][2 * i..] {}
      }
      Split(data, 2);
    }
  }

  lemma {:induction false} List64Sound(data: seq<byte>, n: nat)
    requires 8 * n <= |data|
    ensures data == List64To(ReadList64(data, n), data[8 * n..])
  {
    hide Put64, Get64;
    if n > 0 {
      List64Sound(data[8..], n - 1);
      assert data[8..][8 * (n - 1)..] == data[8 * n..];
      assert ReadList64(data, n)[1..] == ReadList64(data[8..], n - 1) by {
        forall i | 0 <= i < n - 1 ensures data[8 * (i + 1)..] == data[8..][8 * i..] {}
      }
      Split(data, 8);
    }
  }

  // ---- The format ----

  /** [schemeLen:1][scheme][aggSigLen:2][aggSig] in front of `rest`. */
  function TailTo(q: QC, rest: seq<byte>): seq<byte> {
    [|q.scheme| % 0x100] + (q.scheme + (Put16(|q.aggregate| % 0x1_0000) + (q.aggregate + rest)))
  }

  /** [signerCount:2][signers][timestamps] and the tail. */
  function BodyTo(q: QC, rest: seq<byte>): seq<byte> {
    Put16(|q.signers| % 0x1_0000) + List16To(q.signers, List64To(q.timestamps, TailTo(q, rest)))
  }

  function EncodeTo(q: QC, rest: seq<byte>): seq<byte> { HeadTo(q.view, q.node, BodyTo(q, rest)) }

  /** Where each field stands in the encoding: view, block, count, signers, timestamps, scheme and
      aggregate. Lengths are written modulo the size of their fields. */
  lemma QCLayout(q: QC)
    ensures var e, h, k, t := EncodeTo(q, []), |q.node.bytes|, |q.signers|, |q.timestamps|;
      var at, sc, a := 8 + h + 2 * k + 8 * t, |q.scheme|, |q.aggregate|;
      && |e| == at + 3 + sc + a && Value(e[..4]) == q.view
      && Value(e[4..6]) == h % 0x1_0000 && e[6..6 + h] == q.node.bytes
      && Value(e[6 + h..8 + h]) == k % 0x1_0000
      && (forall i :: 0 <= i < k ==> Value(e[8 + h + 2 * i..10 + h + 2 * i]) == q.signers[i])
      && (forall i :: 0 <= i < t ==> Value(e[8 + h + 2 * k + 8 * i..16 + h + 2 * k + 8 * i]) == q.timestamps[i])
      && e[at] == sc % 0x100 && e[at + 1..at + 1 + sc] == q.scheme
      && Value(e[at + 1 + sc..at + 3 + sc]) == a % 0x1_0000 && e[at + 3 + sc..at + 3 + sc + a] == q.aggregate
  {
    hide Put16, Put64, Value, List16To, List64To, HeadTo, TailTo;
    var e, h, k, t := EncodeTo(q, []), |q.node.bytes|, |q.signers|, |q.timestamps|;
    var tail := TailTo(q, []);
    var stamps := List64To(q.timestamps, tail);
    HeadLayout(q.view, q.node, BodyTo(q, []));
    FieldAt(e, 6 + h, Put16(k % 0x1_0000), List16To(q.signers, stamps));
    ValueOf16(k % 0x1_0000);
    SignersAt(e, 8 + h, q.signers, stamps);
    StampsAt(e, 8 + h + 2 * k, q.timestamps, tail);
    TailLayout(e, 8 + h + 2 * k + 8 * t, q);
  }

  lemma SignersAt(e: seq<byte>, at: nat, list: seq<uint16>, rest: seq<byte>)
    requires at <= |e| && e[at..] == List16To(list, rest)
    ensures at + 2 * |list| <= |e| && e[at + 2 * |list|..] == rest
    ensures forall i :: 0 <= i < |list| ==> Value(e[at + 2 * i..at + 2 * i + 2]) == list[i]
  {
    hide Put16, Value;
    List16At(list, rest, |list|);
    assert e[at + 2 * |list|..] == e[at..][2 * |list|..];
    forall i | 0 <= i < |list| ensures Value(e[at + 2 * i..at + 2 * i + 2]) == list[i] {
      List16At(list, rest, i);
      assert e[at + 2 * i..] == e[at..][2 * i..];
      FieldAt(e, at + 2 * i, Put16(list[i]), List16To(list[i..][1..], rest));
      ValueOf16(list[i]);
    }
  }

  lemma StampsAt(e: seq<byte>, at: nat, list: seq<uint64>, rest: seq<byte>)
    requires at <= |e| && e[at..] == List64To(list, rest)
    ensures at + 8 * |list| <= |e| && e[at + 8 * |list|..] == rest
    ensures forall i :: 0 <= i < |list| ==> Value(e[at + 8 * i..at + 8 * i + 8]) == list[i]
  {
    hide Put64, Value;
    List64At(list, rest, |list|);
    assert e[at + 8 * |list|..] == e[at..][8 * |list|..];
    forall i | 0 <= i < |list| ensures Value(e[at + 8 * i..at + 8 * i + 8]) == list[i] {
      List64At(list, rest, i);
      assert e[at + 8 * i..] == e[at..][8 * i..];
      FieldAt(e, at + 8 * i, Put64(list[i]), List64To(list[i..][1..], rest));
      ValueOf64(list[i]);
    }
  }

  lemma TailLayout(e: seq<byte>, at: nat, q: QC)
    requires at <= |e| && e[at..] == TailTo(q, [])
    ensures var sc, a := |q.scheme|, |q.aggregate|;
      && |e| == at + 3 + sc + a && e[at] == sc % 0x100 && e[at + 1..at + 1 + sc] == q.scheme
      && Value(e[at + 1 + sc..at + 3 + sc]) == a % 0x1_0000 && e[at + 3 + sc..at + 3 + sc + a] == q.aggregate
  {
    hide Put16, Value;
    var sc, a := |q.scheme|, |q.aggregate|;
    var t3 := q.aggregate + [];
    var t2 := Put16(a % 0x1_0000) + t3;
    FieldAt(e, at, [sc % 0x100], q.scheme + t2);
    FieldAt(e, at + 1, q.scheme, t2);
    FieldAt(e, at + 1 + sc, Put16(a % 0x1_0000), t3);
    FieldAt(e, at + 3 + sc, q.aggregate, []);
    ValueOf16(a % 0x1_0000);
    assert e[at] == e[at..at + 1][0];
  }

  /** Timestamps run parallel to the signers and every length fits its field. */
  predicate Fits(q: QC) {
    && |q.node.bytes| < 0x1_0000 && |q.signers| < 0x1_0000 && |q.timestamps| == |q.signers|
    && |q.scheme| < 0x100 && |q.aggregate| < 0x1_0000
  }

  function ReadTail(view: uint32, node: Hash, signers: seq<uint16>, timestamps: seq<uint64>,
      data: seq<byte>): Parse<(QC, seq<byte>)> {
    if |data| < 1 then Rejected else
    var s: nat, d1 := data[0], data[1..];
    if |d1| < s then Rejected else
    var d2 := d1[s..];
    if |d2| < 2 then Rejected else
    var a: nat, d3 := Get16(d2), d2[2..];
    if |d3| < a then Rejected else
    Parsed((QC(view, node, signers, timestamps, d3[..a], d1[..s]), d3[a..]))
  }

  /** The signer count is read without a length check. */
  function ReadBody(view: uint32, node: Hash, data: seq<byte>): Parse<(QC, seq<byte>)> {
    if |data| < 2 then OutOfRange else
    var k: nat, d1 := Get16(data), data[2..];
    if |d1| < 2 * k then Rejected else
    var d2 := d1[2 * k..];
    if |d2| < 8 * k then Rejected else
    ReadTail(view, node, ReadList16(d1, k), ReadList64(d2, k), d2[8 * k..])
  }

  /** What QCFromBytes reads off the front of a buffer, and the bytes it leaves. */
  function Decode(data: seq<byte>, accepts: seq<byte> -> bool): Parse<(QC, seq<byte>)> {
    if |data| < 11 then Rejected else
    match ReadHead(data, accepts)
    case None => Rejected
    case Some((view, node, rest)) => ReadBody(view, node, rest)
  }

  lemma TailRoundTrip(q: QC, rest: seq<byte>)
    requires Fits(q)
    ensures ReadTail(q.view, q.node, q.signers, q.timestamps, TailTo(q, rest)) == Parsed((q, rest))
  {
    hide Put16, Get16;
    var t3 := q.aggregate + rest;
    var t2 := Put16(|q.aggregate|) + t3;
    Front([|q.scheme|], q.scheme + t2);
    Front(q.scheme, t2);
    Front16(|q.aggregate|, t3);
    Front(q.aggregate, rest);
  }

  lemma BodyRoundTrip(q: QC, rest: seq<byte>)
    requires Fits(q)
    ensures ReadBody(q.view, q.node, BodyTo(q, rest)) == Parsed((q, rest)) && |BodyTo(q, rest)| >= 5
  {
    hide Put16, Get16, ReadTail, TailTo, ReadList16, ReadList64, List16To, List64To;
    var k := |q.signers|;
    var t2 := List64To(q.timestamps, TailTo(q, rest));
    Front16(k, List16To(q.signers, t2));
    List16RoundTrip(q.signers, t2);
    List64RoundTrip(q.timestamps, TailTo(q, rest));
    TailRoundTrip(q, rest);
    assert |TailTo(q, rest)| >= 3 by { TailSize(q, rest); }
  }

  lemma TailSize(q: QC, rest: seq<byte>)
    ensures |TailTo(q, rest)| >= 3
  {}

  lemma RoundTrip(q: QC, rest: seq<byte>, accepts: seq<byte> -> bool)
    requires Fits(q) && accepts(q.node.bytes)
    ensures Decode(EncodeTo(q, rest), accepts) == Parsed((q, rest))
  {
    hide Put16, Put32, ReadBody, BodyTo, ReadHead;
    HeadRoundTrip(q.view, q.node, BodyTo(q, rest), accepts);
    BodyRoundTrip(q, rest);
  }

  lemma TailSound(view: uint32, node: Hash, signers: seq<uint16>, timestamps: seq<uint64>, data: seq<byte>)
    requires ReadTail(view, node, signers, timestamps, data).Parsed?
    ensures var (q, rest) := ReadTail(view, node, signers, timestamps, data).value;
      && q == QC(view, node, signers, timestamps, q.aggregate, q.scheme)
      && |q.scheme| < 0x100 && |q.aggregate| < 0x1_0000 && data == TailTo(q, rest)
  {
    hide Put16, Get16;
    var d1 := data[1..];
    var d2 := d1[data[0]..];
    Split(data, 1);
    Split(d1, data[0]);
    Split(d2, 2);
    Split(d2[2..], Get16(d2));
    assert data[..1] == [data[0]];
  }

  lemma BodySound(view: uint32, node: Hash, data: seq<byte>)
    requires ReadBody(view, node, data).Parsed?
    ensures var (q, rest) := ReadBody(view, node, data).value;
      && q.view == view && q.node == node && |q.signers| == |q.timestamps| < 0x1_0000
      && |q.scheme| < 0x100 && |q.aggregate| < 0x1_0000 && data == BodyTo(q, rest)
  {
    hide Put16, Get16, ReadTail, TailTo, ReadList16, ReadList64, List16To, List64To;
    var k: nat, d1 := Get16(data), data[2..];
    var d2 := d1[2 * k..];
    Split(data, 2);
    List16Sound(d1, k);
    List64Sound(d2, k);
    TailSound(view, node, ReadList16(d1, k), ReadList64(d2, k), d2[8 * k..]);
  }

  /** A buffer decodes only to a certificate whose encoding starts it: re-encoding gives a prefix of
      the input, and the decoded lengths fit their fields. */
  lemma DecodeSound(data: seq<byte>, accepts: seq<byte> -> bool)
    requires Decode(data, accepts).Parsed?
    ensures var (q, rest) := Decode(data, accepts).value;
      Fits(q) && accepts(q.node.bytes) && data == EncodeTo(q, rest)
  {
    hide ReadBody, BodyTo, HeadTo;
    var (view, node, rest) := ReadHead(data, accepts).value;
    HeadSound(data, accepts);
    BodySound(view, node, rest);
  }

  /** A certificate survives the wire exactly when its timestamps run parallel to its signers, its
      lengths fit their fields, and its hash can be read back. */
  lemma RoundTripExactly(q: QC, accepts: seq<byte> -> bool)
    ensures Decode(EncodeTo(q, []), accepts) == Parsed((q, [])) <==> Fits(q) && accepts(q.node.bytes)
  {
    hide EncodeTo, Decode;
    if Fits(q) && accepts(q.node.bytes) { RoundTrip(q, [], accepts); }
    if Decode(EncodeTo(q, []), accepts) == Parsed((q, [])) { DecodeSound(EncodeTo(q, []), accepts); }
  }

  /** The most signers an Ed25519 certificate can carry over the wire: 2 + 66k must fit 16 bits. */
  const MAX_SIGNERS := 992

  /** A valid Ed25519 certificate survives the wire exactly when it has at most 992 signers and its
      hash is shorter than 65536 bytes and readable. */
  lemma Ed25519RoundTrip(q: QC, vs: ValidatorSet, accepts: seq<byte> -> bool)
    requires QuorumCert.Valid(q, vs)
    ensures Decode(EncodeTo(q, []), accepts) == Parsed((q, [])) <==>
            |q.signers| <= MAX_SIGNERS && |q.node.bytes| < 0x1_0000 && accepts(q.node.bytes)
  {
    hide EncodeTo, Decode;
    RoundTripExactly(q, accepts);
  }

  /** Decoding reads past the end exactly when the hash leaves fewer than two bytes. */
  lemma OutOfRangeExactly(data: seq<byte>, accepts: seq<byte> -> bool)
    ensures Decode(data, accepts) == OutOfRange <==>
            |data| >= 11 && var h: nat := Get16(data[4..]); 6 + h <= |data| < 6 + h + 2 && accepts(data[6..6 + h])
  {
    if |data| >= 11 {
      var h: nat := Get16(data[4..]);
      assert data[4..][2..] == data[6..];
      if 6 + h <= |data| { assert data[6..][..h] == data[6..6 + h]; }
    }
  }

  // ---- The loops ----

  /** QC.Bytes: fills a buffer of the exact size with a moving offset. */
  method Bytes(q: QC) returns (result: array<byte>)
    ensures fresh(result) && result[..] == EncodeTo(q, [])
  {
    hide Put16, Put32, Put64, TailTo;
    var h, sc, a := q.node.bytes, q.scheme, q.aggregate;
    result := new byte[4 + 2 + |h| + 2 + |q.signers| * 2 + |q.timestamps| * 8 + 1 + |sc| + 2 + |a|](_ => 0);
    ghost var tail := TailTo(q, []);
    ghost var whole, body := EncodeTo(q, []), BodyTo(q, []);
    assert result[..0] + whole == whole;
    var offset := Write(result, 0, Put32(q.view), Put16(|h| % 0x1_0000) + (h + body), whole);
    offset := Write(result, offset, Put16(|h| % 0x1_0000), h + body, whole);
    offset := Write(result, offset, h, body, whole);
    offset := Write(result, offset, Put16(|q.signers| % 0x1_0000), List16To(q.signers, List64To(q.timestamps, tail)), whole);
    offset := WriteList16(result, offset, q.signers, List64To(q.timestamps, tail), whole);
    offset := WriteList64(result, offset, q.timestamps, tail, whole);
    offset := WriteTail(result, offset, q, whole);
    assert result[..] == result[..offset];
  }

  method WriteTail(buffer: array<byte>, offset: nat, q: QC, ghost whole: seq<byte>) returns (next: nat)
    requires offset + 1 + |q.scheme| + 2 + |q.aggregate| <= buffer.Length
    requires buffer[..offset] + TailTo(q, []) == whole
    modifies buffer
    ensures next == offset + 1 + |q.scheme| + 2 + |q.aggregate| && buffer[..next] == whole
  {
    hide Put16;
    var sc, a := q.scheme, q.aggregate;
    ghost var t4 := a + [];
    ghost var t3 := Put16(|a| % 0x1_0000) + t4;
    ghost var t2 := sc + t3;
    next := Write(buffer, offset, [|sc| % 0x100], t2, whole);
    next := Write(buffer, next, sc, t3, whole);
    next := Write(buffer, next, Put16(|a| % 0x1_0000), t4, whole);
    next := Write(buffer, next, a, [], whole);
    assert buffer[..next] == buffer[..next] + [];
  }

  method WriteList16(buffer: array<byte>, offset: nat, list: seq<uint16>, ghost rest: seq<byte>, ghost whole: seq<byte>)
    returns (next: nat)
    requires offset + 2 * |list| <= buffer.Length
    requires buffer[..offset] + List16To(list, rest) == whole
    modifies buffer
    ensures next == offset + 2 * |list| && buffer[..next] + rest == whole
  {
    hide Put16;
    next := offset;
    var i := 0;
    assert list[0..] == list;
    while i < |list|
      invariant 0 <= i <= |list| && next == offset + 2 * i
      invariant buffer[..next] + List16To(list[i..], rest) == whole
    {
      assert list[i..][1..] == list[i + 1..];
      next := Write(buffer, next, Put16(list[i]), List16To(list[i + 1..], rest), whole);
      i := i + 1;
    }
    assert list[i..] == [];
  }

  method WriteList64(buffer: array<byte>, offset: nat, list: seq<uint64>, ghost rest: seq<byte>, ghost whole: seq<byte>)
    returns (next: nat)
    requires offset + 8 * |list| <= buffer.Length
    requires buffer[..offset] + List64To(list, rest) == whole
    modifies buffer
    ensures next == offset + 8 * |list| && buffer[..next] + rest == whole
  {
    hide Put64;
    next := offset;
    var i := 0;
    assert list[0..] == list;
    while i < |list|
      invariant 0 <= i <= |list| && next == offset + 8 * i
      invariant buffer[..next] + List64To(list[i..], rest) == whole
    {
      assert list[i..][1..] == list[i + 1..];
      next := Write(buffer, next, Put64(list[i]), List64To(list[i + 1..], rest), whole);
      i := i + 1;
    }
    assert list[i..] == [];
  }

  /** QCFromBytes: one pass with a moving offset; OutOfRange is the read that panics. */
  method FromBytes(data: seq<byte>, accepts: seq<byte> -> bool) returns (r: Parse<QC>)
    ensures r.Parsed? <==> Decode(data, accepts).Parsed?
    ensures r.OutOfRange? <==> Decode(data, accepts).OutOfRange?
    ensures r.Parsed? ==> r.value == Decode(data, accepts).value.0
  {
    if |data| < 4 + 2 + 2 + 1 + 2 { return Rejected; }
    var offset: nat := 0;
    var view := Get32(data[offset..]);
    assert data[0..] == data;
    offset := offset + 4;
    var hashLen: nat := Get16(data[offset..]);
    offset := offset + 2;
    assert data[offset..] == data[4..][2..];
    if |data| < offset + hashLen { return Rejected; }
    var hashBytes := data[offset..offset + hashLen];
    assert hashBytes == data[offset..][..hashLen];
    if !accepts(hashBytes) { return Rejected; }
    assert data[offset + hashLen..] == data[offset..][hashLen..];
    offset := offset + hashLen;
    ghost var head := ReadHead(data, accepts);
    assert head == Some((view, Hash(hashBytes), data[offset..]));
    r := BodyFromBytes(view, Hash(hashBytes), data, offset);
  }

  method BodyFromBytes(view: uint32, node: Hash, data: seq<byte>, start: nat) returns (r: Parse<QC>)
    requires start <= |data|
    ensures var body := ReadBody(view, node, data[start..]);
      && (r.Parsed? <==> body.Parsed?) && (r.OutOfRange? <==> body.OutOfRange?)
      && (r.Parsed? ==> r.value == body.value.0)
  {
    hide Get16, Get64, ReadTail, ReadList16, ReadList64;
    var offset := start;
    if |data| < offset + 2 { return OutOfRange; }
    var count: nat := Get16(data[offset..]);
    assert data[offset + 2..] == data[offset..][2..];
    offset := offset + 2;
    if |data| < offset + count * 2 { return Rejected; }
    var signers := Read16s(data, offset, count);
    assert data[offset + count * 2..] == data[offset..][2 * count..];
    offset := offset + count * 2;
    if |data| < offset + count * 8 { return Rejected; }
    var timestamps := Read64s(data, offset, count);
    assert data[offset + count * 8..] == data[offset..][8 * count..];
    offset := offset + count * 8;
    r := TailFromBytes(view, node, signers, timestamps, data, offset);
  }

  method TailFromBytes(view: uint32, node: Hash, signers: seq<uint16>, timestamps: seq<uint64>, data: seq<byte>,
      start: nat)
    returns (r: Parse<QC>)
    requires start <= |data|
    ensures var tail := ReadTail(view, node, signers, timestamps, data[start..]);
      && (r.Parsed? <==> tail.Parsed?) && r != OutOfRange && tail != OutOfRange
      && (r.Parsed? ==> r.value == tail.value.0)
  {
    hide Get16;
    var offset := start;
    if |data| < offset + 1 { return Rejected; }
    var schemeLen: nat := data[offset];
    Drop(data, offset, 1);
    offset := offset + 1;
    if |data| < offset + schemeLen { return Rejected; }
    var scheme := data[offset..offset + schemeLen];
    Drop(data, offset, schemeLen);
    offset := offset + schemeLen;
    if |data| < offset + 2 { return Rejected; }
    var aggregateLen: nat := Get16(data[offset..]);
    Drop(data, offset, 2);
    offset := offset + 2;
    if |data| < offset + aggregateLen { return Rejected; }
    var aggregate := data[offset..offset + aggregateLen];
    Drop(data, offset, aggregateLen);
    r := Parsed(QC(view, node, signers, timestamps, aggregate, scheme));
  }

  /** Reading n bytes at an offset is reading them off the front of what is left. */
  lemma Drop(data: seq<byte>, offset: nat, n: nat)
    requires offset + n <= |data|
    ensures data[offset + n..] == data[offset..][n..] && data[offset..offset + n] == data[offset..][..n]
  {}

  method Read16s(data: seq<byte>, start: nat, count: nat) returns (list: seq<uint16>)
    requires start + count * 2 <= |data|
    ensures list == ReadList16(data[start..], count)
  {
    hide Get16;
    list := [];
    var offset := start;
    while |list| < count
      invariant |list| <= count && offset == start + 2 * |list|
      invariant forall i :: 0 <= i < |list| ==> list[i] == Get16(data[start..][2 * i..])
    {
      assert data[offset..] == data[start..][2 * |list|..];
      list := list + [Get16(data[offset..])];
      offset := offset + 2;
    }
  }

  method Read64s(data: seq<byte>, start: nat, count: nat) returns (list: seq<uint64>)
    requires start + count * 8 <= |data|
    ensures list == ReadList64(data[start..], count)
  {
    hide Get64;
    list := [];
    var offset := start;
    while |list| < count
      invariant |list| <= count && offset == start + 8 * |list|
      invariant forall i :: 0 <= i < |list| ==> list[i] == Get64(data[start..][8 * i..])
    {
      assert data[offset..] == data[start..][8 * |list|..];
      list := list + [Get64(data[offset..])];
      offset := offset + 8;
    }
  }
}
