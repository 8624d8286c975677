/** encoding/binary.BigEndian: the fixed-width integers of every wire format. */
module BigEndian {
  import opened Types

  function Put16(x: uint16): (b: seq<byte>)
    ensures |b| == 2
  {
    [x / 0x100, x % 0x100]
  }

  function Put32(x: uint32): (b: seq<byte>)
    ensures |b| == 4
  {
    Put16(x / 0x1_0000) + Put16(x % 0x1_0000)
  }

  function Put64(x: uint64): (b: seq<byte>)
    ensures |b| == 8
  {
    Put32(x / 0x1_0000_0000) + Put32(x % 0x1_0000_0000)
  }

  function Get16(b: seq<byte>): (x: uint16)
    requires |b| >= 2
    ensures Put16(x) == b[..2]
  {
    b[0] as int * 0x100 + b[1]
  }

  function Get32(b: seq<byte>): (x: uint32)
    requires |b| >= 4
    ensures Put32(x) == b[..4]
  {
    var hi, lo := Get16(b), Get16(b[2..]);
    assert b[..4] == b[..2] + b[2..][..2];
    var x: int := hi as int * 0x1_0000 + lo;
    assert x / 0x1_0000 == hi && x % 0x1_0000 == lo;
    x
  }

  function Get64(b: seq<byte>): (x: uint64)
    requires |b| >= 8
    ensures Put64(x) == b[..8]
  {
    var hi, lo := Get32(b), Get32(b[4..]);
    assert b[..8] == b[..4] + b[4..][..4];
    var x: int := hi as int * 0x1_0000_0000 + lo;
    assert x / 0x1_0000_0000 == hi && x % 0x1_0000_0000 == lo;
    x
  }

  /** The number that a string of bytes spells, the most significant first. */
  function Value(b: seq<byte>): nat { if b == [] then 0 else 0x100 * Value(b[..|b| - 1]) + b[|b| - 1] }

  lemma Value2(b: seq<byte>)
    requires |b| == 2
    ensures Value(b) == 0x100 * (b[0] as int) + b[1]
  {
    assert b[..1][..0] == [];
    assert Value(b[..1]) == b[0];
  }

  lemma {:induction false} ValueJoins(a: seq<byte>, b: seq<byte>)
    requires |b| == 2
    ensures Value(a + b) == 0x1_0000 * Value(a) + Value(b)
  {
    var c := a + b[..1];
    assert (a + b)[..|a| + 1] == c && c[..|a|] == a;
    Value2(b);
  }

  lemma Value16(b: seq<byte>)
    requires |b| >= 2
    ensures Get16(b) == Value(b[..2])
  {
    Value2(b[..2]);
  }

  /** Each integer is written as the bytes that spell it. */
  lemma ValueOf16(x: uint16)
    ensures Value(Put16(x)) == x
  {
    Value2(Put16(x));
  }

  lemma ValueOf32(x: uint32)
    ensures Value(Put32(x)) == x
  {
    ValueOf16(x / 0x1_0000);
    ValueOf16(x % 0x1_0000);
    ValueJoins(Put16(x / 0x1_0000), Put16(x % 0x1_0000));
  }

  lemma ValueOf64(x: uint64)
    ensures Value(Put64(x)) == x
  {
    var hi, lo: uint32 := x / 0x1_0000_0000, x % 0x1_0000_0000;
    ValueOf32(hi);
    ValueOf16(lo / 0x1_0000);
    ValueOf16(lo % 0x1_0000);
    ValueJoins(Put32(hi), Put16(lo / 0x1_0000));
    ValueJoins(Put32(hi) + Put16(lo / 0x1_0000), Put16(lo % 0x1_0000));
    assert Put64(x) == Put32(hi) + Put16(lo / 0x1_0000) + Put16(lo % 0x1_0000);
  }

  /** The encodings are injective, so each integer is read back from its own bytes. */
  lemma Injective16(x: uint16, y: uint16)
    requires Put16(x) == Put16(y)
    ensures x == y
  {
    assert Put16(x)[0] == Put16(y)[0] && Put16(x)[1] == Put16(y)[1];
  }

  lemma Injective32(x: uint32, y: uint32)
    requires Put32(x) == Put32(y)
    ensures x == y
  {
    assert Put32(x)[..2] == Put32(y)[..2] && Put32(x)[2..] == Put32(y)[2..];
    Injective16(x / 0x1_0000, y / 0x1_0000);
    Injective16(x % 0x1_0000, y % 0x1_0000);
  }

  lemma Injective64(x: uint64, y: uint64)
    requires Put64(x) == Put64(y)
    ensures x == y
  {
    assert Put64(x)[..4] == Put64(y)[..4] && Put64(x)[4..] == Put64(y)[4..];
    Injective32(x / 0x1_0000_0000, y / 0x1_0000_0000);
    Injective32(x % 0x1_0000_0000, y % 0x1_0000_0000);
  }

  /** A field in front of a suffix is read back, and what follows it is the suffix. */
  lemma Front(field: seq<byte>, rest: seq<byte>)
    ensures (field + rest)[..|field|] == field && (field + rest)[|field|..] == rest
  {}

  lemma Front16(x: uint16, rest: seq<byte>)
    ensures Get16(Put16(x) + rest) == x && (Put16(x) + rest)[2..] == rest
  {
    Front(Put16(x), rest);
    Injective16(Get16(Put16(x) + rest), x);
  }

  lemma Front32(x: uint32, rest: seq<byte>)
    ensures Get32(Put32(x) + rest) == x && (Put32(x) + rest)[4..] == rest
  {
    Front(Put32(x), rest);
    Injective32(Get32(Put32(x) + rest), x);
  }

  lemma Front64(x: uint64, rest: seq<byte>)
    ensures Get64(Put64(x) + rest) == x && (Put64(x) + rest)[8..] == rest
  {
    Front(Put64(x), rest);
    Injective64(Get64(Put64(x) + rest), x);
  }

  /** What stands at an offset from which a field and a rest follow. */
  lemma FieldAt(whole: seq<byte>, at: nat, field: seq<byte>, rest: seq<byte>)
    requires at <= |whole| && whole[at..] == field + rest
    ensures at + |field| <= |whole| && whole[at..at + |field|] == field && whole[at + |field|..] == rest
  {
    Front(field, rest);
    assert whole[at..at + |field|] == whole[at..][..|field|] && whole[at + |field|..] == whole[at..][|field|..];
  }

  /** Any buffer is its first n bytes and the others. */
  lemma Split(data: seq<byte>, n: nat)
    requires n <= |data|
    ensures data == data[..n] + data[n..]
  {}

  /** `copy(buffer[offset:], field)`. The ghost arguments say what the finished buffer holds:
      the bytes so far, this field, and `rest`. */
  method Write(buffer: array<byte>, offset: nat, field: seq<byte>, ghost rest: seq<byte>, ghost whole: seq<byte>)
    returns (next: nat)
    requires offset + |field| <= buffer.Length
    requires buffer[..offset] + (field + rest) == whole
    modifies buffer
    ensures next == offset + |field|
    ensures buffer[..next] + rest == whole
    ensures buffer[next..] == old(buffer[next..])
  {
    var i := 0;
    while i < |field|
      invariant 0 <= i <= |field|
      invariant buffer[..offset + i] == old(buffer[..offset]) + field[..i]
      invariant buffer[offset + i..] == old(buffer[offset + i..])
    {
      buffer[offset + i] := field[i];
      i := i + 1;
    }
    next := offset + |field|;
    assert field[..i] == field;
    assert old(buffer[..offset]) + field + rest == whole;
  }

  // ---- The head that votes and certificates share ----

  /** [view:4][nodeHashLen:2][nodeHash] in front of `rest`; the length is truncated to 16 bits. */
  function HeadTo(view: uint32, node: Hash, rest: seq<byte>): seq<byte> {
    Put32(view) + (Put16(|node.bytes| % 0x1_0000) + (node.bytes + rest))
  }

  lemma HeadLayout(view: uint32, node: Hash, rest: seq<byte>)
    ensures var e, h := HeadTo(view, node, rest), |node.bytes|;
      && |e| == 6 + h + |rest| && Value(e[..4]) == view && Value(e[4..6]) == h % 0x1_0000
      && e[6..6 + h] == node.bytes && e[6 + h..] == rest
  {
    hide Put16, Put32, Value;
    var e, h := HeadTo(view, node, rest), |node.bytes|;
    var t2 := node.bytes + rest;
    assert e[0..] == e;
    FieldAt(e, 0, Put32(view), Put16(h % 0x1_0000) + t2);
    FieldAt(e, 4, Put16(h % 0x1_0000), t2);
    FieldAt(e, 6, node.bytes, rest);
    ValueOf32(view);
    ValueOf16(h % 0x1_0000);
  }

  /** Reads a head of a buffer that holds the fixed-size fields. `accepts` is hashFromBytes: the
      byte strings it turns into a hash. */
  function ReadHead(data: seq<byte>, accepts: seq<byte> -> bool): (r: Option<(uint32, Hash, seq<byte>)>)
    requires |data| >= 6
    ensures r.Some? ==> |r.value.1.bytes| < 0x1_0000 && accepts(r.value.1.bytes)
  {
    var d1 := data[4..];
    var h: nat, d2 := Get16(d1), d1[2..];
    if |d2| < h || !accepts(d2[..h]) then None
    else Some((Get32(data), Hash(d2[..h]), d2[h..]))
  }

  lemma HeadRoundTrip(view: uint32, node: Hash, rest: seq<byte>, accepts: seq<byte> -> bool)
    requires |node.bytes| < 0x1_0000 && accepts(node.bytes)
    ensures ReadHead(HeadTo(view, node, rest), accepts) == Some((view, node, rest))
  {
    hide Put16, Put32, Get16, Get32;
    var t2 := node.bytes + rest;
    Front32(view, Put16(|node.bytes|) + t2);
    Front16(|node.bytes|, t2);
    Front(node.bytes, rest);
  }

  lemma HeadSound(data: seq<byte>, accepts: seq<byte> -> bool)
    requires |data| >= 6 && ReadHead(data, accepts).Some?
    ensures var (view, node, rest) := ReadHead(data, accepts).value; data == HeadTo(view, node, rest)
  {
    var d1 := data[4..];
    Split(data, 4);
    Split(d1, 2);
    Split(d1[2..], Get16(d1));
  }
}
