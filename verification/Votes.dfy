/** vote.go: the signed digest of a vote and its wire format. */
module Votes {
  import opened Types
  import opened BigEndian

  /** [view:4][nodeHash][validatorIndex:2][timestamp:8], the bytes a validator signs. */
  function DigestOf(view: uint32, node: Hash, validator: uint16, timestamp: uint64): seq<byte> {
    Put32(view) + (node.bytes + (Put16(validator) + Put64(timestamp)))
  }

  function Digest(v: Vote): seq<byte> { DigestOf(v.view, v.node, v.validator, v.timestamp) }

  /** The digest has no length field, yet no two votes that differ in a signed field share one. */
  lemma DigestInjective(v: Vote, w: Vote)
    requires Digest(v) == Digest(w)
    ensures v.view == w.view && v.node == w.node && v.validator == w.validator && v.timestamp == w.timestamp
  {
    var a, b := Put16(v.validator) + Put64(v.timestamp), Put16(w.validator) + Put64(w.timestamp);
    Front32(v.view, v.node.bytes + a);
    Front32(w.view, w.node.bytes + b);
    assert |v.node.bytes| == |w.node.bytes|;
    Front(v.node.bytes, a);
    Front(w.node.bytes, b);
    Front16(v.validator, Put64(v.timestamp));
    Front16(w.validator, Put64(w.timestamp));
    Injective64(v.timestamp, w.timestamp);
  }

  /** Where each signed field stands in the digest. */
  lemma DigestLayout(v: Vote)
    ensures var d, h := Digest(v), |v.node.bytes|;
      && |d| == 14 + h && Value(d[..4]) == v.view && d[4..4 + h] == v.node.bytes
      && Value(d[4 + h..6 + h]) == v.validator && Value(d[6 + h..14 + h]) == v.timestamp
  {
    hide Put16, Put32, Put64, Value;
    var d, h := Digest(v), |v.node.bytes|;
    var t1 := Put16(v.validator) + Put64(v.timestamp);
    assert d[0..] == d;
    FieldAt(d, 0, Put32(v.view), v.node.bytes + t1);
    FieldAt(d, 4, v.node.bytes, t1);
    FieldAt(d, 4 + h, Put16(v.validator), Put64(v.timestamp));
    ValueOf32(v.view);
    ValueOf16(v.validator);
    ValueOf64(v.timestamp);
    assert d[6 + h..14 + h] == d[6 + h..];
  }

  /** Vote.Digest: fills a buffer of the exact size, field by field. */
  method MakeDigest(v: Vote) returns (digest: array<byte>)
    ensures fresh(digest) && digest[..] == Digest(v)
  {
    var h := v.node.bytes;
    digest := new byte[4 + |h| + 2 + 8](_ => 0);
    ghost var t2 := Put64(v.timestamp) + [];
    ghost var t1 := Put16(v.validator) + t2;
    assert t1 == Put16(v.validator) + Put64(v.timestamp);
    assert digest[..0] + (Put32(v.view) + (h + t1)) == Digest(v);
    var offset := Write(digest, 0, Put32(v.view), h + t1, Digest(v));
    offset := Write(digest, offset, h, t1, Digest(v));
    offset := Write(digest, offset, Put16(v.validator), t2, Digest(v));
    offset := Write(digest, offset, Put64(v.timestamp), [], Digest(v));
    assert digest[..] == digest[..offset] + [];
  }

  /** [validatorIndex:2][timestamp:8][sigLen:2][signature] in front of `rest`. */
  function TailTo(v: Vote, rest: seq<byte>): seq<byte> {
    Put16(v.validator) + (Put64(v.timestamp) + (Put16(|v.signature| % 0x1_0000) + (v.signature + rest)))
  }

  /** The encoding in front of `rest`: the view and block, then the signer's part. */
  function EncodeTo(v: Vote, rest: seq<byte>): seq<byte> { HeadTo(v.view, v.node, TailTo(v, rest)) }

  /** Where each field stands in the encoding; lengths are written modulo 2^16. */
  lemma VoteLayout(v: Vote)
    ensures var e, h, s := EncodeTo(v, []), |v.node.bytes|, |v.signature|;
      && |e| == 18 + h + s && Value(e[..4]) == v.view
      && Value(e[4..6]) == h % 0x1_0000 && e[6..6 + h] == v.node.bytes
      && Value(e[6 + h..8 + h]) == v.validator && Value(e[8 + h..16 + h]) == v.timestamp
      && Value(e[16 + h..18 + h]) == s % 0x1_0000 && e[18 + h..18 + h + s] == v.signature
  {
    hide Put16, Put32, Put64, Value;
    var e, h, s := EncodeTo(v, []), |v.node.bytes|, |v.signature|;
    var t3 := v.signature + [];
    var t2 := Put16(s % 0x1_0000) + t3;
    var t1 := Put64(v.timestamp) + t2;
    HeadLayout(v.view, v.node, TailTo(v, []));
    FieldAt(e, 6 + h, Put16(v.validator), t1);
    FieldAt(e, 8 + h, Put64(v.timestamp), t2);
    FieldAt(e, 16 + h, Put16(s % 0x1_0000), t3);
    FieldAt(e, 18 + h, v.signature, []);
    ValueOf16(v.validator);
    ValueOf64(v.timestamp);
    ValueOf16(s % 0x1_0000);
  }

  /** The votes whose length fields hold the lengths. */
  predicate Fits(v: Vote) {
    |v.node.bytes| < 0x1_0000 && |v.signature| < 0x1_0000
  }

  /** Vote.Bytes */
  method Bytes(v: Vote) returns (result: array<byte>)
    ensures fresh(result) && result[..] == EncodeTo(v, [])
  {
    var h, s := v.node.bytes, v.signature;
    result := new byte[4 + 2 + |h| + 2 + 8 + 2 + |s|](_ => 0);
    ghost var t6 := s + [];
    ghost var t5 := Put16(|s| % 0x1_0000) + t6;
    ghost var t4 := Put64(v.timestamp) + t5;
    ghost var t3 := Put16(v.validator) + t4;
    ghost var t2 := h + t3;
    ghost var t1 := Put16(|h| % 0x1_0000) + t2;
    ghost var whole := Put32(v.view) + t1;
    assert result[..0] + whole == whole;
    var offset := Write(result, 0, Put32(v.view), t1, whole);
    offset := Write(result, offset, Put16(|h| % 0x1_0000), t2, whole);
    offset := Write(result, offset, h, t3, whole);
    offset := Write(result, offset, Put16(v.validator), t4, whole);
    offset := Write(result, offset, Put64(v.timestamp), t5, whole);
    offset := Write(result, offset, Put16(|s| % 0x1_0000), t6, whole);
    offset := Write(result, offset, s, [], whole);
    assert result[..] == result[..offset] + [];
  }

  function ReadTail(view: uint32, node: Hash, data: seq<byte>): Parse<(Vote, seq<byte>)> {
    if |data| < 2 then Rejected else
    var d1 := data[2..];
    if |d1| < 8 then Rejected else
    var d2 := d1[8..];
    if |d2| < 2 then Rejected else
    var s: nat, d3 := Get16(d2), d2[2..];
    if |d3| < s then Rejected else
    Parsed((Vote(view, node, Get16(data), d3[..s], Get64(d1)), d3[s..]))
  }

  /** What VoteFromBytes reads off the front of a buffer, and the bytes it leaves. */
  function Decode(data: seq<byte>, accepts: seq<byte> -> bool): Parse<(Vote, seq<byte>)> {
    if |data| < 18 then Rejected else
    match ReadHead(data, accepts)
    case None => Rejected
    case Some((view, node, rest)) => ReadTail(view, node, rest)
  }

  lemma TailRoundTrip(v: Vote, rest: seq<byte>)
    requires Fits(v)
    ensures ReadTail(v.view, v.node, TailTo(v, rest)) == Parsed((v, rest))
  {
    hide Put16, Put32, Put64, Get16, Get32, Get64;
    var t3 := v.signature + rest;
    var t2 := Put16(|v.signature|) + t3;
    Front16(v.validator, Put64(v.timestamp) + t2);
    Front64(v.timestamp, t2);
    Front16(|v.signature|, t3);
    Front(v.signature, rest);
  }

  /** Decoding inverts encoding, whatever follows. */
  lemma RoundTrip(v: Vote, rest: seq<byte>, accepts: seq<byte> -> bool)
    requires Fits(v) && accepts(v.node.bytes)
    ensures Decode(EncodeTo(v, rest), accepts) == Parsed((v, rest))
  {
    HeadRoundTrip(v.view, v.node, TailTo(v, rest), accepts);
    TailRoundTrip(v, rest);
  }

  lemma TailSound(view: uint32, node: Hash, data: seq<byte>)
    requires ReadTail(view, node, data).Parsed?
    ensures var (v, rest) := ReadTail(view, node, data).value;
      v.view == view && v.node == node && |v.signature| < 0x1_0000 && data == TailTo(v, rest)
  {
    hide Put16, Put32, Put64, Get16, Get32, Get64;
    var d1 := data[2..];
    var d2 := d1[8..];
    Split(data, 2);
    Split(d1, 8);
    Split(d2, 2);
    Split(d2[2..], Get16(d2));
  }

  /** Conversely, a buffer decodes only to a vote whose encoding starts it. */
  lemma DecodeSound(data: seq<byte>, accepts: seq<byte> -> bool)
    requires Decode(data, accepts).Parsed?
    ensures var (v, rest) := Decode(data, accepts).value;
      Fits(v) && accepts(v.node.bytes) && data == EncodeTo(v, rest)
  {
    var (view, node, rest) := ReadHead(data, accepts).value;
    HeadSound(data, accepts);
    TailSound(view, node, rest);
  }

  /** VoteFromBytes: one pass with a moving offset. Every slice lies within the buffer, whatever
      the input, so it never reads out of range. */
  method FromBytes(data: seq<byte>, accepts: seq<byte> -> bool) returns (r: Parse<Vote>)
    ensures r != OutOfRange
    ensures r.Parsed? <==> Decode(data, accepts).Parsed?
    ensures r.Parsed? ==> r.value == Decode(data, accepts).value.0
  {
    hide Get16, Get32, Get64;
    if |data| < 4 + 2 + 2 + 8 + 2 { return Rejected; }
    var offset: nat := 0;
    var view := Get32(data[offset..]);
    assert data[0..] == data;
    offset := offset + 4;
    var hashLen: nat := Get16(data[offset..]);
    offset := offset + 2;
    assert data[offset..] == data[4..][2..];
    if |data| < offset + hashLen { return Rejected; }
    var hashBytes := data[offset..offset + hashLen];
    assert hashBytes == data[offset..][..hashLen];
    if !accepts(hashBytes) { return Rejected; }
    assert data[offset + hashLen..] == data[offset..][hashLen..];
    r := TailFromBytes(view, Hash(hashBytes), data, offset + hashLen);
  }

  method TailFromBytes(view: uint32, node: Hash, data: seq<byte>, start: nat) returns (r: Parse<Vote>)
    requires start <= |data|
    ensures var tail := ReadTail(view, node, data[start..]);
      r != OutOfRange && (r.Parsed? <==> tail.Parsed?) && (r.Parsed? ==> r.value == tail.value.0)
  {
    hide Get16, Get64;
    var offset := start;
    if |data| < offset + 2 { return Rejected; }
    var validator := Get16(data[offset..]);
    assert data[offset + 2..] == data[offset..][2..];
    offset := offset + 2;
    if |data| < offset + 8 { return Rejected; }
    var timestamp := Get64(data[offset..]);
    assert data[offset + 8..] == data[offset..][8..];
    offset := offset + 8;
    if |data| < offset + 2 { return Rejected; }
    var sigLen: nat := Get16(data[offset..]);
    assert data[offset + 2..] == data[offset..][2..];
    offset := offset + 2;
    if |data| < offset + sigLen { return Rejected; }
    var signature := data[offset..offset + sigLen];
    assert signature == data[offset..][..sigLen];
    r := Parsed(Vote(view, node, validator, signature, timestamp));
  }
}
