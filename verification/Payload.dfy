/** payload.go: the wire format of consensus messages. */
module Payload {
  import opened Types
  import opened BigEndian
  import opened Replica
  import QCCodec
  import Votes

  /** The application's block encoding and the two parsers a message is decoded with. */
  datatype Codec = Codec(blockBytes: Block -> seq<byte>, blockFrom: seq<byte> -> Option<Block>,
                         hashFrom: seq<byte> -> bool)

  // ---- Encoding ----

  const PROPOSAL: byte := 0
  const VOTE: byte := 1
  const NEW_VIEW: byte := 2

  function TypeOf(m: Msg): byte {
    match m
    case Propose(_, _, _, _) => PROPOSAL
    case VoteMsg(_, _, _) => VOTE
    case NewView(_, _, _) => NEW_VIEW
  }

  /** [hasQC:1][qc?] */
  function QCPart(q: Option<QC>): seq<byte> {
    if q.Some? then [1] + QCCodec.EncodeTo(q.value, []) else [0]
  }

  function ProposeBody(c: Codec, b: Block, q: Option<QC>): seq<byte> {
    Put32(|c.blockBytes(b)| % 0x1_0000_0000) + (c.blockBytes(b) + QCPart(q))
  }

  /** [blockLen:4][block][hasQC:1][qc?] for PROPOSE, the vote for VOTE, [hasQC:1][qc?] for NEWVIEW. */
  function BodyOf(c: Codec, m: Msg): seq<byte> {
    match m
    case Propose(_, _, b, q) => ProposeBody(c, b, q)
    case VoteMsg(_, _, v) => Votes.EncodeTo(v, [])
    case NewView(_, _, q) => QCPart(q)
  }

  /** [type:1][view:4][validatorIndex:2][body] */
  function Encode(c: Codec, m: Msg): seq<byte> {
    [TypeOf(m)] + (Put32(m.view) + (Put16(m.sender) + BodyOf(c, m)))
  }

  /** Where each field of a message stands: type, view, sender, and the body of its kind. */
  lemma MessageLayout(c: Codec, m: Msg)
    ensures var e := Encode(c, m);
      && |e| >= 7 && Value(e[1..5]) == m.view && Value(e[5..7]) == m.sender
      && match m
         case Propose(_, _, b, q) =>
           var block := c.blockBytes(b);
           var at := 11 + |block|;
           && e[0] == 0 && at < |e| && Value(e[7..11]) == |block| % 0x1_0000_0000 && e[11..at] == block
           && e[at] == (if q.Some? then 1 else 0) && e[at + 1..] == (if q.Some? then QCCodec.EncodeTo(q.value, []) else [])
         case VoteMsg(_, _, v) => e[0] == 1 && e[7..] == Votes.EncodeTo(v, [])
         case NewView(_, _, q) =>
           && e[0] == 2 && |e| > 7
           && e[7] == (if q.Some? then 1 else 0) && e[8..] == (if q.Some? then QCCodec.EncodeTo(q.value, []) else [])
  {
    hide Put16, Put32, Value, BodyOf, QCPart, QCCodec.EncodeTo, Votes.EncodeTo;
    var e, body := Encode(c, m), BodyOf(c, m);
    assert e[0..] == e;
    FieldAt(e, 0, [TypeOf(m)], Put32(m.view) + (Put16(m.sender) + body));
    FieldAt(e, 1, Put32(m.view), Put16(m.sender) + body);
    FieldAt(e, 5, Put16(m.sender), body);
    ValueOf32(m.view);
    ValueOf16(m.sender);
    BodyLayout(c, m);
    assert e[7..] == body;
    match m
    case Propose(_, _, b, q) =>
      var block := c.blockBytes(b);
      Deeper(e, 7, 0, 4);
      Deeper(e, 7, 4, 4 + |block|);
    case VoteMsg(_, _, _) =>
    case NewView(_, _, q) =>
  }

  lemma Deeper(e: seq<byte>, at: nat, i: nat, j: nat)
    requires at <= |e| && i <= j <= |e| - at
    ensures e[at..][i..j] == e[at + i..at + j] && e[at..][j..] == e[at + j..]
  {}

  lemma BodyLayout(c: Codec, m: Msg)
    ensures var body := BodyOf(c, m);
      match m
      case Propose(_, _, b, q) =>
        var block := c.blockBytes(b);
        && 4 + |block| < |body| && Value(body[0..4]) == |block| % 0x1_0000_0000 && body[4..4 + |block|] == block
        && body[4 + |block|..] == QCPart(q)
        && QCPart(q)[0] == (if q.Some? then 1 else 0)
        && QCPart(q)[1..] == (if q.Some? then QCCodec.EncodeTo(q.value, []) else [])
      case VoteMsg(_, _, v) => body == Votes.EncodeTo(v, [])
      case NewView(_, _, q) =>
        && |body| > 0 && body[0] == (if q.Some? then 1 else 0)
        && body[1..] == (if q.Some? then QCCodec.EncodeTo(q.value, []) else [])
  {
    hide Put32, Value, QCPart, QCCodec.EncodeTo, Votes.EncodeTo;
    var body := BodyOf(c, m);
    match m
    case Propose(_, _, b, q) =>
      var block := c.blockBytes(b);
      PartNotEmpty(q);
      assert body[0..] == body;
      FieldAt(body, 0, Put32(|block| % 0x1_0000_0000), block + QCPart(q));
      FieldAt(body, 4, block, QCPart(q));
      ValueOf32(|block| % 0x1_0000_0000);
    case VoteMsg(_, _, _) =>
    case NewView(_, _, q) => PartNotEmpty(q);
  }

  // ---- Decoding ----

  /** The optional certificate after its flag; any flag but 1 means there is none. */
  function ReadQCPart(flag: byte, data: seq<byte>, c: Codec): Parse<Option<QC>> {
    if flag != 1 then Parsed(None) else
    match QCCodec.Decode(data, c.hashFrom)
    case Rejected => Rejected
    case OutOfRange => OutOfRange
    case Parsed((q, _)) => Parsed(Some(q))
  }

  /** deserializePropose. The length check and all three slice bounds are computed in 32 bits and
      wrap, so a certificate behind a block of 0xFFFF_FFFB bytes is read from offset 0. */
  function ReadPropose(view: uint32, sender: uint16, payload: seq<byte>, c: Codec): (r: Parse<Msg>)
    ensures r.Parsed? ==> r.value.Propose? && r.value.view == view && r.value.sender == sender
  {
    if |payload| < 5 then Rejected else
    var n: nat := Get32(payload);
    var end: nat := (4 + n) % 0x1_0000_0000;
    if |payload| < (4 + n + 1) % 0x1_0000_0000 then Rejected
    else if end < 4 || end > |payload| then OutOfRange else
    match c.blockFrom(payload[4..end])
    case None => Rejected
    case Some(b) =>
      if end == |payload| then OutOfRange else
      match ReadQCPart(payload[end], payload[(end + 1) % 0x1_0000_0000..], c)
      case Rejected => Rejected
      case OutOfRange => OutOfRange
      case Parsed(q) => Parsed(Propose(view, sender, b, q))
  }

  /** deserializeVote */
  function ReadVote(view: uint32, sender: uint16, payload: seq<byte>, c: Codec): (r: Parse<Msg>)
    ensures r.Parsed? ==> r.value.VoteMsg? && r.value.view == view && r.value.sender == sender
  {
    match Votes.Decode(payload, c.hashFrom)
    case Rejected => Rejected
    case OutOfRange => OutOfRange
    case Parsed((v, _)) => Parsed(VoteMsg(view, sender, v))
  }

  /** deserializeNewView */
  function ReadNewView(view: uint32, sender: uint16, payload: seq<byte>, c: Codec): (r: Parse<Msg>)
    ensures r.Parsed? ==> r.value.NewView? && r.value.view == view && r.value.sender == sender
  {
    if |payload| < 1 then Rejected
    else if payload[0] == 1 && |payload| < 2 then Rejected else
    match ReadQCPart(payload[0], payload[1..], c)
    case Rejected => Rejected
    case OutOfRange => OutOfRange
    case Parsed(q) => Parsed(NewView(view, sender, q))
  }

  /** MessageFromBytes */
  function Decode(c: Codec, data: seq<byte>): Parse<Msg> {
    if |data| < 7 then Rejected else
    var view, sender, payload := Get32(data[1..]), Get16(data[1..][4..]), data[1..][4..][2..];
    if data[0] == PROPOSAL then ReadPropose(view, sender, payload, c)
    else if data[0] == VOTE then ReadVote(view, sender, payload, c)
    else if data[0] == NEW_VIEW then ReadNewView(view, sender, payload, c)
    else Rejected
  }

  // ---- Round trip ----

  predicate QCFits(c: Codec, q: Option<QC>) { q.Some? ==> QCCodec.Fits(q.value) && c.hashFrom(q.value.node.bytes) }

  /** The longest block whose slice end does not wrap. The start of the certificate behind it,
      one byte further on, wraps to 0 at exactly this length. */
  const MAX_BLOCK := 0xFFFF_FFFB

  /** A flag byte and the bytes behind it hold the optional certificate q. */
  predicate Holds(c: Codec, flag: byte, data: seq<byte>, q: Option<QC>) {
    if q.None? then flag != 1
    else flag == 1 && QCFits(c, q) && QCCodec.EncodeTo(q.value, []) <= data
  }

  lemma ReadQCPartExactly(c: Codec, flag: byte, data: seq<byte>, q: Option<QC>)
    ensures ReadQCPart(flag, data, c) == Parsed(q) <==> Holds(c, flag, data, q)
  {
    hide QCCodec.EncodeTo, QCCodec.Decode, QCCodec.Fits;
    if flag == 1 && QCCodec.Decode(data, c.hashFrom).Parsed? {
      QCCodec.DecodeSound(data, c.hashFrom);
      var (p, rest) := QCCodec.Decode(data, c.hashFrom).value;
      EncodePrefix(p, rest);
    }
    if q.Some? && Holds(c, flag, data, q) {
      var e := QCCodec.EncodeTo(q.value, []);
      Split(data, |e|);
      EncodePrefix(q.value, data[|e|..]);
      QCCodec.RoundTrip(q.value, data[|e|..], c.hashFrom);
      assert data == QCCodec.EncodeTo(q.value, data[|e|..]);
    }
  }

  lemma PartNotEmpty(q: Option<QC>)
    ensures |QCPart(q)| >= (if q.Some? then 2 else 1) && QCPart(q)[0] == (if q.Some? then 1 else 0)
    ensures QCPart(q)[1..] == (if q.Some? then QCCodec.EncodeTo(q.value, []) else [])
  {}

  /** A buffer reads back as a proposal exactly when its block does and the certificate is found
      where the wrapped offset points. */
  lemma ReadProposeExactly(c: Codec, view: uint32, sender: uint16, payload: seq<byte>, b: Block, q: Option<QC>)
    ensures ReadPropose(view, sender, payload, c) == Parsed(Propose(view, sender, b, q)) <==>
            && |payload| >= 5 && var n: nat := Get32(payload);
            && n <= MAX_BLOCK && 4 + n < |payload| && c.blockFrom(payload[4..4 + n]) == Some(b)
            && Holds(c, payload[4 + n], if n == MAX_BLOCK then payload else payload[5 + n..], q)
  {
    hide ReadQCPart, Holds, Get32;
    if |payload| >= 5 {
      var n: nat := Get32(payload);
      if n > MAX_BLOCK {
        ReadTooLong(c, view, sender, payload);
      } else if 4 + n < |payload| {
        ReadWithin(c, view, sender, payload);
        ReadQCPartExactly(c, payload[4 + n], if n == MAX_BLOCK then payload else payload[5 + n..], q);
        hide ReadPropose;
      }
    }
  }

  lemma ReadWithin(c: Codec, view: uint32, sender: uint16, payload: seq<byte>)
    requires |payload| >= 5 && Get32(payload) <= MAX_BLOCK && 4 + Get32(payload) < |payload|
    ensures var n: nat := Get32(payload);
      ReadPropose(view, sender, payload, c) ==
      match c.blockFrom(payload[4..4 + n])
      case None => Rejected
      case Some(b) =>
        match ReadQCPart(payload[4 + n], if n == MAX_BLOCK then payload else payload[5 + n..], c)
        case Rejected => Rejected
        case OutOfRange => OutOfRange
        case Parsed(q) => Parsed(Propose(view, sender, b, q))
  {
    hide ReadQCPart, Get32;
    var n: nat := Get32(payload);
    Wraps(n);
    assert payload[0..] == payload;
  }

  lemma Wraps(n: nat)
    requires n <= MAX_BLOCK
    ensures (4 + n) % 0x1_0000_0000 == 4 + n && (4 + n + 1) % 0x1_0000_0000 == if n == MAX_BLOCK then 0 else 5 + n
  {}

  /** What the wire keeps, for blocks of every length. The length field holds the length modulo
      2^32, so the block is read from its first n bytes and the certificate from behind them. */
  predicate Survives(c: Codec, m: Msg) {
    match m
    case Propose(_, _, b, q) =>
      var block := c.blockBytes(b);
      var n := |block| % 0x1_0000_0000;
      var tail := block + QCPart(q);
      && n <= MAX_BLOCK && c.blockFrom(block[..n]) == Some(b)
      && Holds(c, tail[n], if n == MAX_BLOCK then BodyOf(c, m) else tail[n + 1..], q)
    case VoteMsg(_, _, v) => Votes.Fits(v) && c.hashFrom(v.node.bytes)
    case NewView(_, _, q) => QCFits(c, q)
  }

  lemma ProposeExactly(c: Codec, m: Msg)
    requires m.Propose?
    ensures ReadPropose(m.view, m.sender, BodyOf(c, m), c) == Parsed(m) <==> Survives(c, m)
  {
    hide ReadPropose, ProposeBody, QCPart, Get32, Holds;
    ProposeReads(c, m.block, m.justify);
    ReadProposeExactly(c, m.view, m.sender, BodyOf(c, m), m.block, m.justify);
  }

  /** What a reader finds in the body of a proposal: the length modulo 2^32, the first n bytes of the
      block, and what follows them. */
  lemma ProposeReads(c: Codec, b: Block, q: Option<QC>)
    ensures var block, part, payload := c.blockBytes(b), QCPart(q), ProposeBody(c, b, q);
      var n := |block| % 0x1_0000_0000;
      && |payload| == 4 + |block| + |part| >= 5 && 4 + n < |payload| && Get32(payload) == n && n < |block + part|
      && payload[4..4 + n] == block[..n] && payload[4 + n] == (block + part)[n]
      && payload[5 + n..] == (block + part)[n + 1..]
  {
    hide QCPart, Put32, Get32;
    var block, part := c.blockBytes(b), QCPart(q);
    var n := |block| % 0x1_0000_0000;
    PartNotEmpty(q);
    Front32(n, block + part);
    Shifted(Put32(n), block, part, n);
  }

  lemma Shifted(front: seq<byte>, block: seq<byte>, part: seq<byte>, n: nat)
    requires |front| == 4 && n <= |block| && |part| >= 1
    ensures var payload, tail := front + (block + part), block + part;
      && payload[4..4 + n] == block[..n] && payload[4 + n] == tail[n] && payload[5 + n..] == tail[n + 1..]
  {}

  lemma NewViewExactly(c: Codec, m: Msg)
    requires m.NewView?
    ensures ReadNewView(m.view, m.sender, BodyOf(c, m), c) == Parsed(m) <==> QCFits(c, m.highQC)
  {
    hide ReadQCPart, QCPart, QCCodec.EncodeTo;
    var part := QCPart(m.highQC);
    PartNotEmpty(m.highQC);
    ReadQCPartExactly(c, part[0], part[1..], m.highQC);
  }

  lemma VoteExactly(c: Codec, m: Msg)
    requires m.VoteMsg?
    ensures ReadVote(m.view, m.sender, BodyOf(c, m), c) == Parsed(m) <==> Survives(c, m)
  {
    hide Votes.EncodeTo, Votes.Decode;
    var data := Votes.EncodeTo(m.vote, []);
    if Survives(c, m) { Votes.RoundTrip(m.vote, [], c.hashFrom); }
    if Votes.Decode(data, c.hashFrom).Parsed? { Votes.DecodeSound(data, c.hashFrom); }
  }

  /** The header is read back, and the body goes to the decoder of its type. */
  lemma HeaderRoundTrip(c: Codec, m: Msg)
    ensures Decode(c, Encode(c, m)) ==
            match m
            case Propose(_, _, _, _) => ReadPropose(m.view, m.sender, BodyOf(c, m), c)
            case VoteMsg(_, _, _) => ReadVote(m.view, m.sender, BodyOf(c, m), c)
            case NewView(_, _, _) => ReadNewView(m.view, m.sender, BodyOf(c, m), c)
  {
    hide Put16, Put32, Get16, Get32, ReadPropose, ReadVote, ReadNewView, BodyOf;
    var t2 := BodyOf(c, m);
    var t1 := Put16(m.sender) + t2;
    Front([TypeOf(m)], Put32(m.view) + t1);
    Front32(m.view, t1);
    Front16(m.sender, t2);
  }

  /** Decoding inverts encoding exactly for the messages that survive the wire. */
  lemma RoundTripExactly(c: Codec, m: Msg)
    ensures Decode(c, Encode(c, m)) == Parsed(m) <==> Survives(c, m)
  {
    hide Encode, Decode, ReadPropose, ReadVote, ReadNewView, BodyOf, QCPart, Holds;
    HeaderRoundTrip(c, m);
    match m
    case Propose(_, _, _, _) => ProposeExactly(c, m);
    case VoteMsg(_, _, _) => VoteExactly(c, m);
    case NewView(_, _, _) => NewViewExactly(c, m);
  }

  /** The nested values can be read back and lengths fit: blocks below the bound, and at the bound
      those without a certificate. */
  predicate Fits(c: Codec, m: Msg) {
    match m
    case Propose(_, _, b, q) =>
      && |c.blockBytes(b)| <= MAX_BLOCK && (|c.blockBytes(b)| == MAX_BLOCK ==> q.None?)
      && c.blockFrom(c.blockBytes(b)) == Some(b) && QCFits(c, q)
    case VoteMsg(_, _, v) => Votes.Fits(v) && c.hashFrom(v.node.bytes)
    case NewView(_, _, q) => QCFits(c, q)
  }

  /** Decoding inverts encoding for PROPOSE, VOTE and NEWVIEW, with and without a certificate. */
  lemma RoundTrip(c: Codec, m: Msg)
    requires Fits(c, m)
    ensures Decode(c, Encode(c, m)) == Parsed(m)
  {
    hide Encode, Decode, QCPart, QCCodec.EncodeTo, QCFits;
    RoundTripExactly(c, m);
    if m.Propose? {
      var block, part := c.blockBytes(m.block), QCPart(m.justify);
      PartNotEmpty(m.justify);
      Front(block, part);
      assert block[..|block|] == block && (block + part)[|block|] == part[0];
      assert (block + part)[|block| + 1..] == part[1..];
    }
  }

  /** The parser reads what the printer prints, and accepts nothing else. */
  ghost predicate Faithful(c: Codec) {
    forall s, b :: c.blockFrom(s) == Some(b) <==> c.blockBytes(b) == s
  }

  /** With a faithful block codec the length of the block decides: a proposal survives below the
      bound, at the bound only without a certificate or with one whose encoding starts the proposal's
      own body (its view is then 0xFFFF_FFFB), and never above it. */
  lemma LengthExactly(c: Codec, m: Msg)
    requires m.Propose? && Faithful(c)
    ensures Decode(c, Encode(c, m)) == Parsed(m) <==>
            && QCFits(c, m.justify) && |c.blockBytes(m.block)| <= MAX_BLOCK
            && (|c.blockBytes(m.block)| == MAX_BLOCK && m.justify.Some? ==>
                QCCodec.EncodeTo(m.justify.value, []) <= BodyOf(c, m))
  {
    hide Encode, Decode, QCPart, QCCodec.EncodeTo, QCCodec.Fits, BodyOf;
    RoundTripExactly(c, m);
    var block, part := c.blockBytes(m.block), QCPart(m.justify);
    var n := |block| % 0x1_0000_0000;
    PartNotEmpty(m.justify);
    if n == |block| {
      assert block[..n] == block && (block + part)[n] == part[0];
      assert (block + part)[n + 1..] == part[1..];
      assert c.blockFrom(block) == Some(m.block);
    } else {
      assert |block[..n]| != |block|;
    }
  }

  /** Behind a block of exactly 0xFFFF_FFFB bytes the certificate is read from the body's own length
      field on, so what comes back depends on the block, with that length as the view. */
  lemma AtTheBound(c: Codec, m: Msg)
    requires m.Propose? && m.justify.Some? && |c.blockBytes(m.block)| == MAX_BLOCK
    requires c.blockFrom(c.blockBytes(m.block)) == Some(m.block)
    ensures Decode(c, Encode(c, m)) ==
            match QCCodec.Decode(BodyOf(c, m), c.hashFrom)
            case Rejected => Rejected
            case OutOfRange => OutOfRange
            case Parsed((q, _)) => Parsed(Propose(m.view, m.sender, m.block, Some(q)))
    ensures Decode(c, Encode(c, m)).Parsed? ==> Decode(c, Encode(c, m)).value.justify.value.view == MAX_BLOCK
  {
    hide Encode, Decode, ProposeBody, Get32, QCCodec.Decode, ReadPropose;
    HeaderRoundTrip(c, m);
    BodyAtTheBound(c, m.block, m.justify.value);
    ReadAtTheBound(c, m.view, m.sender, BodyOf(c, m), m.block);
    ViewFirst(BodyOf(c, m), c.hashFrom);
  }

  lemma BodyAtTheBound(c: Codec, b: Block, q: QC)
    requires |c.blockBytes(b)| == MAX_BLOCK
    ensures var payload := ProposeBody(c, b, Some(q));
      && |payload| > 4 + MAX_BLOCK && Get32(payload) == MAX_BLOCK && payload[4 + MAX_BLOCK] == 1
      && payload[4..4 + MAX_BLOCK] == c.blockBytes(b)
  {
    hide ProposeBody, QCPart, Get32;
    ProposeReads(c, b, Some(q));
    PartNotEmpty(Some(q));
    var block, part := c.blockBytes(b), QCPart(Some(q));
    Wraps(|block|);
    AfterBlock(block, part);
  }

  lemma AfterBlock(block: seq<byte>, part: seq<byte>)
    requires |block| == MAX_BLOCK && |part| >= 1
    ensures |block| % 0x1_0000_0000 == MAX_BLOCK && block[..|block|] == block && (block + part)[|block|] == part[0]
  {}

  lemma ReadAtTheBound(c: Codec, view: uint32, sender: uint16, payload: seq<byte>, b: Block)
    requires |payload| > 4 + MAX_BLOCK && Get32(payload) == MAX_BLOCK && payload[4 + MAX_BLOCK] == 1
    requires c.blockFrom(payload[4..4 + MAX_BLOCK]) == Some(b)
    ensures ReadPropose(view, sender, payload, c) ==
            match QCCodec.Decode(payload, c.hashFrom)
            case Rejected => Rejected
            case OutOfRange => OutOfRange
            case Parsed((q, _)) => Parsed(Propose(view, sender, b, Some(q)))
  {
    hide Get32, QCCodec.Decode;
    assert payload[0..] == payload;
  }

  lemma ViewFirst(data: seq<byte>, accepts: seq<byte> -> bool)
    ensures QCCodec.Decode(data, accepts).Parsed? ==>
            |data| >= 4 && QCCodec.Decode(data, accepts).value.0.view == Get32(data)
  {}

  /** Zero bytes for every block, read back as the block b. */
  function Zeros(b: Block): Codec {
    Codec(_ => seq(MAX_BLOCK, _ => 0), s => if |s| == MAX_BLOCK then Some(b) else None, s => true)
  }

  /** A certificate that is lost: behind a block of 0xFFFF_FFFB zeros every certificate comes back
      without signers or signature, for the empty hash in view 0xFFFF_FFFB. */
  lemma CertificateLost(view: uint32, sender: uint16, b: Block, q: QC)
    ensures var c := Zeros(b);
      Decode(c, Encode(c, Propose(view, sender, b, Some(q)))) ==
      Parsed(Propose(view, sender, b, Some(QC(MAX_BLOCK, Hash([]), [], [], [], []))))
  {
    hide Encode, Decode, QCPart, Put32, Get32, QCCodec.Decode;
    var c, m, lost := Zeros(b), Propose(view, sender, b, Some(q)), QC(MAX_BLOCK, Hash([]), [], [], [], []);
    AtTheBound(c, m);
    var zeros, part := c.blockBytes(b), QCPart(Some(q));
    var rest := zeros[7..] + part;
    assert QCCodec.EncodeTo(lost, rest) == Put32(MAX_BLOCK) + ([0, 0, 0, 0, 0, 0, 0] + rest);
    assert zeros + part == [0, 0, 0, 0, 0, 0, 0] + rest;
    QCCodec.RoundTrip(lost, rest, c.hashFrom);
  }

  /** A length field above the bound makes the message unreadable: the receiver slices out of range. */
  lemma LongBlockPanics(c: Codec, m: Msg)
    requires m.Propose? && |c.blockBytes(m.block)| % 0x1_0000_0000 > MAX_BLOCK
    ensures Decode(c, Encode(c, m)) == OutOfRange
  {
    hide Encode, Decode, ProposeBody, Get32, QCPart, ReadPropose;
    HeaderRoundTrip(c, m);
    ProposeReads(c, m.block, m.justify);
    ReadTooLong(c, m.view, m.sender, BodyOf(c, m));
  }

  lemma ReadTooLong(c: Codec, view: uint32, sender: uint16, payload: seq<byte>)
    requires |payload| >= 5 && Get32(payload) > MAX_BLOCK
    ensures ReadPropose(view, sender, payload, c) == OutOfRange
  {
    hide Get32, ReadQCPart;
    var n: nat := Get32(payload);
    assert (4 + n) % 0x1_0000_0000 < 4;
  }

  // ---- Soundness of decoding ----

  /** The bytes that decoding does not check agree with the encoder: the flag is 0 or 1, and a
      certificate read from a wrapped offset also stands behind its block. */
  predicate Canonical(c: Codec, m: Msg, data: seq<byte>)
    requires |data| >= 7
  {
    match m
    case Propose(_, _, b, q) =>
      var at := 7 + 4 + |c.blockBytes(b)|;
      && at < |data| && data[at] <= 1
      && (|c.blockBytes(b)| == MAX_BLOCK && q.Some? ==> QCCodec.EncodeTo(q.value, []) <= data[at + 1..])
    case VoteMsg(_, _, _) => true
    case NewView(_, _, _) => |data| > 7 && data[7] <= 1
  }

  /** Conversely, with a block parser that accepts only what the printer prints, the encoding of a
      decoded message starts the buffer exactly when the buffer is canonical. */
  lemma DecodeSound(c: Codec, data: seq<byte>)
    requires Decode(c, data).Parsed? && forall s :: c.blockFrom(s).Some? ==> c.blockBytes(c.blockFrom(s).value) == s
    ensures |data| >= 7 && var m := Decode(c, data).value; Encode(c, m) <= data <==> Canonical(c, m, data)
  {
    hide Put16, Put32, Get16, Get32, ReadPropose, ReadVote, ReadNewView, BodyOf, QCCodec.EncodeTo;
    var m, payload := Decode(c, data).value, data[1..][4..][2..];
    SplitHeader(data);
    assert payload == data[7..];
    if data[0] == PROPOSAL {
      ProposeSound(c, m, payload);
      var at := 4 + |c.blockBytes(m.block)|;
      assert at < |payload| ==> data[7 + at + 1..] == payload[at + 1..];
    } else if data[0] == VOTE {
      VoteSound(c, m.view, m.sender, payload);
    } else {
      NewViewSound(c, m.view, m.sender, payload);
    }
    HeaderJoins(TypeOf(m), m.view, m.sender, BodyOf(c, m), payload);
  }

  lemma SplitHeader(data: seq<byte>)
    requires |data| >= 7
    ensures data == [data[0]] + (Put32(Get32(data[1..])) + (Put16(Get16(data[1..][4..])) + data[1..][4..][2..]))
  {
    hide Put16, Put32, Get16, Get32;
    Split(data, 1);
    Split(data[1..], 4);
    Split(data[1..][4..], 2);
  }

  /** Under one header, one body starts another exactly when the messages do. */
  lemma HeaderJoins(t: byte, view: uint32, sender: uint16, body: seq<byte>, payload: seq<byte>)
    ensures [t] + (Put32(view) + (Put16(sender) + body)) <= [t] + (Put32(view) + (Put16(sender) + payload))
            <==> body <= payload
  {
    hide Put16, Put32;
    PrefixJoins(Put16(sender), body, payload);
    PrefixJoins(Put32(view), Put16(sender) + body, Put16(sender) + payload);
    PrefixJoins([t], Put32(view) + (Put16(sender) + body), Put32(view) + (Put16(sender) + payload));
  }

  lemma PrefixJoins(front: seq<byte>, a: seq<byte>, b: seq<byte>)
    ensures front + a <= front + b <==> a <= b
  {
    if front + a <= front + b {
      Front(front, a);
      assert a == (front + b)[|front|..|front| + |a|] == b[..|a|];
    }
  }

  /** A part that was read starts the buffer again exactly when its flag is 0 or 1. */
  lemma PartStarts(c: Codec, flag: byte, data: seq<byte>, q: Option<QC>)
    requires flag == 1 <==> q.Some?
    ensures QCPart(q) <= [flag] + data <==> flag <= 1 && (q.Some? ==> QCCodec.EncodeTo(q.value, []) <= data)
  {
    hide QCCodec.EncodeTo;
    PartNotEmpty(q);
    assert QCPart(q) == [QCPart(q)[0]] + QCPart(q)[1..];
    if QCPart(q) <= [flag] + data { assert QCPart(q)[0] == flag; }
    PrefixJoins([flag], QCPart(q)[1..], data);
  }

  lemma EncodePrefix(q: QC, rest: seq<byte>)
    ensures QCCodec.EncodeTo(q, rest) == QCCodec.EncodeTo(q, []) + rest
  {
    hide Put16, Put32, Put64, QCCodec.List16To, QCCodec.List64To;
    var t := QCCodec.TailTo(q, []);
    assert QCCodec.TailTo(q, rest) == t + rest;
    List64Prefix(q.timestamps, t, rest);
    List16Prefix(q.signers, QCCodec.List64To(q.timestamps, t), rest);
    assert QCCodec.BodyTo(q, rest) == QCCodec.BodyTo(q, []) + rest;
  }

  lemma {:induction false} List16Prefix(list: seq<uint16>, t: seq<byte>, rest: seq<byte>)
    ensures QCCodec.List16To(list, t + rest) == QCCodec.List16To(list, t) + rest
  {
    if list != [] { List16Prefix(list[1..], t, rest); }
  }

  lemma {:induction false} List64Prefix(list: seq<uint64>, t: seq<byte>, rest: seq<byte>)
    ensures QCCodec.List64To(list, t + rest) == QCCodec.List64To(list, t) + rest
  {
    hide Put64;
    if list != [] { List64Prefix(list[1..], t, rest); }
  }

  lemma Behind(data: seq<byte>, i: nat)
    requires i < |data|
    ensures data[i..] == [data[i]] + data[i + 1..]
  {}

  lemma ProposeSound(c: Codec, m: Msg, payload: seq<byte>)
    requires m.Propose? && ReadPropose(m.view, m.sender, payload, c) == Parsed(m)
    requires forall s :: c.blockFrom(s).Some? ==> c.blockBytes(c.blockFrom(s).value) == s
    ensures var at := 4 + |c.blockBytes(m.block)|;
      && at < |payload|
      && (BodyOf(c, m) <= payload <==>
          && payload[at] <= 1
          && (|c.blockBytes(m.block)| == MAX_BLOCK && m.justify.Some? ==>
              QCCodec.EncodeTo(m.justify.value, []) <= payload[at + 1..]))
  {
    hide Put32, Get32, ReadPropose, QCPart, QCFits, QCCodec.EncodeTo;
    ReadProposeExactly(c, m.view, m.sender, payload, m.block, m.justify);
    var n: nat := Get32(payload);
    assert c.blockBytes(m.block) == payload[4..4 + n];
    Behind(payload, 4 + n);
    PartStarts(c, payload[4 + n], payload[5 + n..], m.justify);
    PartsJoin(Put32(n), payload[4..4 + n], QCPart(m.justify), payload);
  }

  /** Behind an agreeing length and block, the body starts the payload exactly when its last part does. */
  lemma PartsJoin(length: seq<byte>, block: seq<byte>, part: seq<byte>, payload: seq<byte>)
    requires |length| == 4 && 4 + |block| <= |payload|
    requires payload[..4] == length && payload[4..4 + |block|] == block
    ensures length + (block + part) <= payload <==> part <= payload[4 + |block|..]
  {
    var rest := payload[4 + |block|..];
    assert payload[4..] == block + rest && payload == length + (block + rest);
    PrefixJoins(block, part, rest);
    PrefixJoins(length, block + part, block + rest);
  }

  lemma VoteSound(c: Codec, view: uint32, sender: uint16, payload: seq<byte>)
    requires ReadVote(view, sender, payload, c).Parsed?
    ensures BodyOf(c, ReadVote(view, sender, payload, c).value) <= payload
  {
    hide Votes.Decode, Put16, Put32, Put64;
    Votes.DecodeSound(payload, c.hashFrom);
    var (v, rest) := Votes.Decode(payload, c.hashFrom).value;
    assert Votes.TailTo(v, rest) == Votes.TailTo(v, []) + rest;
    assert Votes.EncodeTo(v, rest) == Votes.EncodeTo(v, []) + rest;
  }

  lemma NewViewSound(c: Codec, view: uint32, sender: uint16, payload: seq<byte>)
    requires ReadNewView(view, sender, payload, c).Parsed?
    ensures |payload| >= 1 && (BodyOf(c, ReadNewView(view, sender, payload, c).value) <= payload <==> payload[0] <= 1)
  {
    hide ReadQCPart, QCPart, QCCodec.EncodeTo, QCFits;
    var q := ReadNewView(view, sender, payload, c).value.highQC;
    ReadQCPartExactly(c, payload[0], payload[1..], q);
    PartStarts(c, payload[0], payload[1..], q);
    assert payload == [payload[0]] + payload[1..];
  }

  // ---- The serializers ----

  method SerializePropose(c: Codec, block: Block, justify: Option<QC>) returns (result: array<byte>)
    ensures fresh(result) && result[..] == ProposeBody(c, block, justify)
  {
    hide Put32;
    var bytes := c.blockBytes(block);
    var blockLen := |bytes|;
    var hasQC: byte, qcBytes := 0, [];
    if justify.Some? {
      hasQC := 1;
      var encoded := QCCodec.Bytes(justify.value);
      qcBytes := encoded[..];
    }
    result := new byte[4 + blockLen + 1 + |qcBytes|](_ => 0);
    ghost var t2 := [hasQC] + qcBytes;
    assert t2 == QCPart(justify);
    ghost var whole := Put32(blockLen % 0x1_0000_0000) + (bytes + t2);
    assert result[..0] + whole == whole;
    var offset := Write(result, 0, Put32(blockLen % 0x1_0000_0000), bytes + t2, whole);
    offset := Write(result, offset, bytes, t2, whole);
    offset := Write(result, offset, [hasQC], qcBytes, whole);
    if hasQC == 1 {
      NothingMore(qcBytes);
      offset := Write(result, offset, qcBytes, [], whole);
    }
    NothingMore(result[..offset]);
    assert result[..] == result[..offset];
  }

  lemma NothingMore(s: seq<byte>)
    ensures s + [] == s
  {}

  method SerializeNewView(highQC: Option<QC>) returns (result: array<byte>)
    ensures fresh(result) && result[..] == QCPart(highQC)
  {
    var hasQC: byte, qcBytes := 0, [];
    if highQC.Some? {
      hasQC := 1;
      var encoded := QCCodec.Bytes(highQC.value);
      qcBytes := encoded[..];
    }
    result := new byte[1 + |qcBytes|](_ => 0);
    ghost var whole := [hasQC] + qcBytes;
    assert whole == QCPart(highQC) && result[..0] + whole == whole;
    var offset := Write(result, 0, [hasQC], qcBytes, whole);
    if hasQC == 1 {
      assert qcBytes == qcBytes + [];
      offset := Write(result, offset, qcBytes, [], whole);
    }
    assert result[..] == result[..offset] + [];
  }

  /** ConsensusMessage.Bytes */
  method Bytes(c: Codec, m: Msg) returns (bytes: seq<byte>)
    ensures bytes == Encode(c, m)
  {
    hide Put16, Put32, BodyOf;
    var header := Header(TypeOf(m), m.view, m.sender);
    var payload := Serialize(c, m);
    bytes := header[..] + payload;
    Joined([TypeOf(m)], Put32(m.view), Put16(m.sender), payload);
  }

  method Header(t: byte, view: uint32, sender: uint16) returns (header: array<byte>)
    ensures fresh(header) && header[..] == [t] + (Put32(view) + Put16(sender))
  {
    hide Put16, Put32;
    header := new byte[7](_ => 0);
    ghost var whole := [t] + (Put32(view) + Put16(sender));
    assert header[..0] + whole == whole;
    var offset := Write(header, 0, [t], Put32(view) + Put16(sender), whole);
    offset := Write(header, offset, Put32(view), Put16(sender), whole);
    NothingMore(Put16(sender));
    offset := Write(header, offset, Put16(sender), [], whole);
    NothingMore(header[..offset]);
    assert header[..] == header[..offset];
  }

  lemma Joined(a: seq<byte>, b: seq<byte>, d: seq<byte>, e: seq<byte>)
    ensures (a + (b + d)) + e == a + (b + (d + e))
  {}

  method Serialize(c: Codec, m: Msg) returns (payload: seq<byte>)
    ensures payload == BodyOf(c, m)
  {
    hide QCPart, ProposeBody;
    match m
    case Propose(_, _, block, justify) =>
      var a := SerializePropose(c, block, justify);
      payload := a[..];
    case VoteMsg(_, _, vote) =>
      var a := Votes.Bytes(vote);
      payload := a[..];
    case NewView(_, _, highQC) =>
      var a := SerializeNewView(highQC);
      payload := a[..];
  }
}
