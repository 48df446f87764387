/** The datagram format: what each message looks like on the wire and what a receiver reads back. */
module Codec {
  import opened Types

  const HEADER_SIZE: nat := 12
  const MEMBER_BASE: nat := 10
  const CLUSTER_MEMBER_SIZE: nat := 138
  const VECTOR_RECORD_SIZE: nat := 12
  const PROTOCOL_ID: Bytes := [0x70, 0x74, 0x63, 0x73, 0]

  const HELLO: byte := 1
  const WELCOME: byte := 2
  const MEMBER_LIST: byte := 3
  const ACK: byte := 4
  const DATA: byte := 5
  const STATUS: byte := 6

  // ----- encoding -----

  function Bytes16(n: uint16): (b: Bytes)
    ensures |b| == 2
  {
    [n / 0x100, n % 0x100]
  }

  function Bytes32(n: uint32): (b: Bytes)
    ensures |b| == 4
  {
    var hi, lo := n / 0x1_0000, n % 0x1_0000;
    [hi / 0x100, hi % 0x100, lo / 0x100, lo % 0x100]
  }

  function LittleBytes32(n: uint32): (b: Bytes)
    ensures |b| == 4
  {
    var hi, lo := n / 0x1_0000, n % 0x1_0000;
    [lo % 0x100, lo / 0x100, hi % 0x100, hi / 0x100]
  }

  /** The id is copied as it lies in memory, least significant byte first. */
  function Bytes64(n: MemberId): (b: Bytes)
    ensures |b| == 8
  {
    LittleBytes32(n % WORD) + LittleBytes32(n / WORD)
  }

  function HeaderBytes(kind: byte, reserved: uint16, seqNum: uint32): (b: Bytes)
    ensures |b| == HEADER_SIZE
  {
    PROTOCOL_ID + [kind] + Bytes16(reserved) + Bytes32(seqNum)
  }

  function MemberBytes(m: Member): (b: Bytes)
    ensures |b| == MEMBER_BASE + |m.address|
  {
    Bytes16(m.version) + Bytes32(m.uid) + Bytes32(|m.address|) + m.address
  }

  function MembersBytes(ms: seq<Member>): Bytes {
    if ms == [] then [] else MembersBytes(ms[..|ms| - 1]) + MemberBytes(ms[|ms| - 1])
  }

  function RecordBytes(r: Record): (b: Bytes)
    ensures |b| == VECTOR_RECORD_SIZE
  {
    Bytes32(r.val) + Bytes64(r.key)
  }

  function RecordsBytes(rs: seq<Record>): (b: Bytes)
    ensures |b| == VECTOR_RECORD_SIZE * |rs|
  {
    if rs == [] then [] else RecordsBytes(rs[..|rs| - 1]) + RecordBytes(rs[|rs| - 1])
  }

  function KindOf(m: Message): byte {
    match m
    case Hello(_) => HELLO
    case Welcome(_, _) => WELCOME
    case MemberList(_) => MEMBER_LIST
    case Ack(_) => ACK
    case Data(_, _) => DATA
    case Status(_) => STATUS
  }

  /** The size each encoder demands of its 512-byte buffer before writing anything. */
  function DemandedSize(m: Message): nat {
    match m
    case Hello(member) => HEADER_SIZE + 16 + |member.address|
    case Welcome(_, member) => HEADER_SIZE + 4 + 16 + |member.address|
    case MemberList(members) => HEADER_SIZE + 2 + CLUSTER_MEMBER_SIZE * |members|
    case Ack(_) => HEADER_SIZE + 4
    case Data(_, payload) => HEADER_SIZE + VECTOR_RECORD_SIZE + 2 + |payload|
    case Status(clock) => HEADER_SIZE + 2 + VECTOR_RECORD_SIZE * |clock|
  }

  predicate Fits(m: Message) {
    DemandedSize(m) <= MESSAGE_MAX_SIZE
  }

  function BodyBytes(m: Message): Bytes
    requires Fits(m)
  {
    match m
    case Hello(member) => MemberBytes(member)
    case Welcome(helloSeq, member) => Bytes32(helloSeq) + MemberBytes(member)
    case MemberList(members) => Bytes16(|members|) + MembersBytes(members)
    case Ack(ackSeq) => Bytes32(ackSeq)
    case Data(version, payload) => RecordBytes(version) + Bytes16(|payload|) + payload
    case Status(clock) => Bytes16(|clock|) + RecordsBytes(clock)
  }

  function Encode(f: Frame): (b: Bytes)
    requires Fits(f.body)
    ensures |b| >= HEADER_SIZE
  {
    HeaderBytes(KindOf(f.body), f.reserved, f.seqNum) + BodyBytes(f.body)
  }

  lemma {:induction false} MembersSize(ms: seq<Member>)
    ensures |MembersBytes(ms)| <= CLUSTER_MEMBER_SIZE * |ms|
  {
    if ms != [] { MembersSize(ms[..|ms| - 1]); }
  }

  /** What passes the size check really fits the slot, addresses being at most 128 bytes. */
  lemma EncodedFits(f: Frame)
    requires Fits(f.body)
    ensures |Encode(f)| <= DemandedSize(f.body) <= MESSAGE_MAX_SIZE
  {
    if f.body.MemberList? { MembersSize(f.body.members); }
  }

  // ----- the header's sequence number, patched in place -----

  const SEQ_OFFSET: nat := 8

  function PatchSeq(b: Bytes, seqNum: uint32): (r: Bytes)
    requires |b| >= HEADER_SIZE
    ensures |r| == |b|
  {
    b[..SEQ_OFFSET] + Bytes32(seqNum) + b[SEQ_OFFSET + 4..]
  }

  /** Overwriting bytes 8 to 11 is encoding the same message under another sequence number. */
  lemma PatchIsReencoding(f: Frame, seqNum: uint32)
    requires Fits(f.body)
    ensures PatchSeq(Encode(f), seqNum) == Encode(f.(seqNum := seqNum))
  {
  }

  lemma PatchTwice(b: Bytes, s: uint32, t: uint32)
    requires |b| >= HEADER_SIZE
    ensures PatchSeq(PatchSeq(b, s), t) == PatchSeq(b, t)
  {
  }

  lemma PatchPrefix(b: Bytes, n: nat, s: uint32)
    requires HEADER_SIZE <= n <= |b|
    ensures PatchSeq(b, s)[..n] == PatchSeq(b[..n], s)
  {
  }

  // ----- decoding -----

  datatype Decoded<+T> = Ok(value: T) | Bad(code: int)

  function Read16(b: Bytes, at: nat): uint16
    requires at + 2 <= |b|
  {
    b[at] as int * 0x100 + b[at + 1]
  }

  function Read32(b: Bytes, at: nat): uint32
    requires at + 4 <= |b|
  {
    (b[at] as int * 0x100 + b[at + 1]) * 0x1_0000 + b[at + 2] as int * 0x100 + b[at + 3]
  }

  function ReadLittle32(b: Bytes, at: nat): uint32
    requires at + 4 <= |b|
  {
    b[at] as int + b[at + 1] as int * 0x100 + (b[at + 2] as int + b[at + 3] as int * 0x100) * 0x1_0000
  }

  function Read64(b: Bytes, at: nat): MemberId
    requires at + 8 <= |b|
  {
    ReadLittle32(b, at) as int + ReadLittle32(b, at + 4) as int * WORD
  }

  /** A member and the position after it. The address must lie within the datagram and fit a socket address. */
  function ReadMember(b: Bytes, at: nat): Decoded<(Member, nat)>
    requires at <= |b|
  {
    if |b| - at < MEMBER_BASE then Bad(ERR_BUFFER_NOT_ENOUGH)
    else
      var n := Read32(b, at + 6);
      if n > 128 || at + MEMBER_BASE + n > |b| then Bad(ERR_BUFFER_NOT_ENOUGH)
      else Ok((Member(Read16(b, at), Read32(b, at + 2), b[at + MEMBER_BASE..at + MEMBER_BASE + n]), at + MEMBER_BASE + n))
  }

  /** `n` members in a row, after those already read. */
  function ReadMembers(b: Bytes, at: nat, n: nat, got: seq<Member>): Decoded<(seq<Member>, nat)>
    requires at <= |b|
    decreases n
  {
    if n == 0 then Ok((got, at))
    else
      match ReadMember(b, at)
      case Bad(code) => Bad(code)
      case Ok((m, next)) => if next <= |b| then ReadMembers(b, next, n - 1, got + [m]) else Bad(ERR_BUFFER_NOT_ENOUGH)
  }

  function ReadRecord(b: Bytes, at: nat): Record
    requires at + VECTOR_RECORD_SIZE <= |b|
  {
    Entry(Read64(b, at + 4), Read32(b, at))
  }

  function ReadRecords(b: Bytes, at: nat, n: nat, got: seq<Record>): seq<Record>
    requires at + VECTOR_RECORD_SIZE * n <= |b|
    decreases n
  {
    if n == 0 then got
    else ReadRecords(b, at + VECTOR_RECORD_SIZE, n - 1, got + [ReadRecord(b, at)])
  }

  predicate ValidPayload(b: Bytes, kind: byte) {
    |b| >= HEADER_SIZE && b[5] == kind && b[..5] == PROTOCOL_ID
  }

  /** A decoder's result: what it read, and how many bytes of the datagram it consumed. */
  datatype Read<+T> = Read(value: T, size: nat)

  function DecodeBody(b: Bytes, kind: byte): Decoded<Read<Message>>
    requires |b| >= HEADER_SIZE
  {
    if kind == HELLO then
      if |b| < HEADER_SIZE + 16 then Bad(ERR_BUFFER_NOT_ENOUGH)
      else (match ReadMember(b, HEADER_SIZE) case Bad(code) => Bad(code) case Ok((m, end)) => Ok(Read(Hello(m), end)))
    else if kind == WELCOME then
      if |b| < HEADER_SIZE + 4 + 16 then Bad(ERR_BUFFER_NOT_ENOUGH)
      else (match ReadMember(b, HEADER_SIZE + 4)
            case Bad(code) => Bad(code)
            case Ok((m, end)) => Ok(Read(Welcome(Read32(b, HEADER_SIZE), m), end)))
    else if kind == MEMBER_LIST then
      if |b| < HEADER_SIZE + 2 then Bad(ERR_BUFFER_NOT_ENOUGH)
      else (match ReadMembers(b, HEADER_SIZE + 2, Read16(b, HEADER_SIZE), [])
            case Bad(code) => Bad(code)
            case Ok((ms, end)) => Ok(Read(MemberList(ms), end)))
    else if kind == ACK then
      if |b| < HEADER_SIZE + 4 then Bad(ERR_BUFFER_NOT_ENOUGH)
      else Ok(Read(Ack(Read32(b, HEADER_SIZE)), HEADER_SIZE + 4))
    else if kind == DATA then
      var base := HEADER_SIZE + VECTOR_RECORD_SIZE + 2;
      if |b| < base || |b| != base + Read16(b, base - 2) then Bad(ERR_BUFFER_NOT_ENOUGH)
      else Ok(Read(Data(ReadRecord(b, HEADER_SIZE), b[base..]), |b|))
    else if kind == STATUS then
      if |b| < HEADER_SIZE + 2 then Bad(ERR_BUFFER_NOT_ENOUGH)
      else
        var n := Read16(b, HEADER_SIZE);
        var end := HEADER_SIZE + 2 + VECTOR_RECORD_SIZE * n;
        if |b| < end || n > MAX_VECTOR_SIZE then Bad(ERR_BUFFER_NOT_ENOUGH)
        else Ok(Read(Status(ReadRecords(b, HEADER_SIZE + 2, n, [])), end))
    else Bad(ERR_INVALID_MESSAGE)
  }

  /** The decoder of one message kind, applied to any datagram, with the size it returns. */
  function DecodeSized(kind: byte, b: Bytes): Decoded<Read<Frame>> {
    if !ValidPayload(b, kind) then Bad(ERR_INVALID_MESSAGE)
    else
      match DecodeBody(b, kind)
      case Bad(code) => Bad(code)
      case Ok(r) => Ok(Read(Frame(Read16(b, 6), Read32(b, SEQ_OFFSET), r.value), r.size))
  }

  /** The frame alone, which is all a handler looks at. */
  function DecodeAs(kind: byte, b: Bytes): Decoded<Frame> {
    match DecodeSized(kind, b) case Bad(code) => Bad(code) case Ok(r) => Ok(r.value)
  }

  // ----- round trips -----

  /** `piece` lies in `b` at `at`. */
  ghost predicate Holds(b: Bytes, at: nat, piece: Bytes) {
    at + |piece| <= |b| && b[at..at + |piece|] == piece
  }

  lemma HoldsParts(b: Bytes, at: nat, p: Bytes, q: Bytes)
    requires Holds(b, at, p + q)
    ensures Holds(b, at, p) && Holds(b, at + |p|, q)
  {
    assert p == (p + q)[..|p|] && q == (p + q)[|p|..];
  }

  lemma Holds16(b: Bytes, at: nat, n: uint16)
    requires Holds(b, at, Bytes16(n))
    ensures Read16(b, at) == n
  {
  }

  lemma Holds32(b: Bytes, at: nat, n: uint32)
    requires Holds(b, at, Bytes32(n))
    ensures Read32(b, at) == n
  {
  }

  lemma HoldsMember(b: Bytes, at: nat, m: Member)
    requires Holds(b, at, MemberBytes(m))
    ensures ReadMember(b, at) == Ok((m, at + |MemberBytes(m)|))
  {
    hide Bytes16, Bytes32, Read16, Read32;
    HoldsParts(b, at, Bytes16(m.version) + Bytes32(m.uid) + Bytes32(|m.address|), m.address);
    HoldsParts(b, at, Bytes16(m.version) + Bytes32(m.uid), Bytes32(|m.address|));
    HoldsParts(b, at, Bytes16(m.version), Bytes32(m.uid));
    Holds16(b, at, m.version);
    Holds32(b, at + 2, m.uid);
    Holds32(b, at + 6, |m.address|);
  }

  lemma {:induction false} HoldsMembers(b: Bytes, at: nat, got: seq<Member>, ms: seq<Member>)
    requires Holds(b, at, MembersBytes(ms))
    ensures ReadMembers(b, at, |ms|, got) == Ok((got + ms, at + |MembersBytes(ms)|))
    decreases |ms|
  {
    hide MemberBytes, ReadMember;
    if ms == [] {
      assert got + ms == got;
    } else {
      MembersFromFront(ms);
      HoldsParts(b, at, MemberBytes(ms[0]), MembersBytes(ms[1..]));
      HoldsMember(b, at, ms[0]);
      HoldsMembers(b, at + |MemberBytes(ms[0])|, got + [ms[0]], ms[1..]);
      assert got + [ms[0]] + ms[1..] == got + ms;
    }
  }

  lemma {:induction false} MembersFromFront(ms: seq<Member>)
    requires ms != []
    ensures MembersBytes(ms) == MemberBytes(ms[0]) + MembersBytes(ms[1..])
  {
    hide MemberBytes;
    var n := |ms| - 1;
    if n > 0 {
      MembersFromFront(ms[..n]);
      assert ms[..n][1..] == ms[1..][..n - 1];
    }
  }

  lemma HoldsRecord(b: Bytes, at: nat, r: Record)
    requires Holds(b, at, RecordBytes(r))
    ensures ReadRecord(b, at) == r
  {
  }

  lemma {:induction false} RecordsFromFront(rs: seq<Record>)
    requires rs != []
    ensures RecordsBytes(rs) == RecordBytes(rs[0]) + RecordsBytes(rs[1..])
  {
    hide RecordBytes;
    var n := |rs| - 1;
    if n > 0 {
      RecordsFromFront(rs[..n]);
      assert rs[..n][1..] == rs[1..][..n - 1];
    }
  }

  lemma {:induction false} HoldsRecords(b: Bytes, at: nat, got: seq<Record>, rs: seq<Record>)
    requires Holds(b, at, RecordsBytes(rs))
    ensures ReadRecords(b, at, |rs|, got) == got + rs
    decreases |rs|
  {
    hide RecordBytes, ReadRecord;
    if rs == [] {
      assert got + rs == got;
    } else {
      RecordsFromFront(rs);
      HoldsParts(b, at, RecordBytes(rs[0]), RecordsBytes(rs[1..]));
      HoldsRecord(b, at, rs[0]);
      HoldsRecords(b, at + VECTOR_RECORD_SIZE, got + [rs[0]], rs[1..]);
      assert got + [rs[0]] + rs[1..] == got + rs;
    }
  }

  lemma HeaderReadsBack(f: Frame)
    requires Fits(f.body)
    ensures var b := Encode(f);
      && ValidPayload(b, KindOf(f.body)) && b[5] == KindOf(f.body)
      && Read16(b, 6) == f.reserved && Read32(b, SEQ_OFFSET) == f.seqNum
      && Holds(b, HEADER_SIZE, BodyBytes(f.body))
  {
  }

  /** Hello and Welcome decoders count a whole `cluster_member_t`, so they refuse a shorter address
      than its padding stands for. */
  predicate LongEnough(m: Message) {
    match m
    case Hello(member) => |member.address| >= 6
    case Welcome(_, member) => |member.address| >= 6
    case _ => true
  }

  lemma HoldsToEnd(b: Bytes, at: nat, piece: Bytes)
    requires Holds(b, at, piece) && |b| == at + |piece|
    ensures b[at..] == piece
  {
  }

  lemma BodyReadsBack(b: Bytes, m: Message)
    requires Fits(m) && (m.Status? ==> |m.clock| <= MAX_VECTOR_SIZE)
    requires |b| == HEADER_SIZE + |BodyBytes(m)| && Holds(b, HEADER_SIZE, BodyBytes(m))
    ensures DecodeBody(b, KindOf(m)) == if LongEnough(m) then Ok(Read(m, |b|)) else Bad(ERR_BUFFER_NOT_ENOUGH)
  {
    hide MemberBytes, ReadMember, MembersBytes, RecordsBytes, RecordBytes, ReadMembers, ReadRecords, ReadRecord;
    hide Bytes16, Bytes32, Read16, Read32, Holds;
    match m {
      case Hello(member) =>
        HoldsMember(b, HEADER_SIZE, member);
      case Welcome(helloSeq, member) =>
        HoldsParts(b, HEADER_SIZE, Bytes32(helloSeq), MemberBytes(member));
        Holds32(b, HEADER_SIZE, helloSeq);
        HoldsMember(b, HEADER_SIZE + 4, member);
      case MemberList(members) =>
        HoldsParts(b, HEADER_SIZE, Bytes16(|members|), MembersBytes(members));
        Holds16(b, HEADER_SIZE, |members|);
        HoldsMembers(b, HEADER_SIZE + 2, [], members);
        assert [] + members == members;
      case Ack(ackSeq) =>
        Holds32(b, HEADER_SIZE, ackSeq);
      case Data(version, payload) =>
        HoldsParts(b, HEADER_SIZE, RecordBytes(version) + Bytes16(|payload|), payload);
        HoldsParts(b, HEADER_SIZE, RecordBytes(version), Bytes16(|payload|));
        HoldsRecord(b, HEADER_SIZE, version);
        Holds16(b, HEADER_SIZE + VECTOR_RECORD_SIZE, |payload|);
        HoldsToEnd(b, HEADER_SIZE + VECTOR_RECORD_SIZE + 2, payload);
      case Status(clock) =>
        HoldsParts(b, HEADER_SIZE, Bytes16(|clock|), RecordsBytes(clock));
        Holds16(b, HEADER_SIZE, |clock|);
        HoldsRecords(b, HEADER_SIZE + 2, [], clock);
        assert [] + clock == clock;
    }
  }

  /** Decoding undoes encoding, and consumes exactly the encoded length, if and only if the address is long
      enough; and only the decoder of the message's own kind accepts it. */
  lemma RoundTrip(f: Frame, kind: byte)
    requires Fits(f.body) && (f.body.Status? ==> |f.body.clock| <= MAX_VECTOR_SIZE)
    ensures DecodeSized(kind, Encode(f)) ==
            if kind != KindOf(f.body) then Bad(ERR_INVALID_MESSAGE)
            else if LongEnough(f.body) then Ok(Read(f, |Encode(f)|))
            else Bad(ERR_BUFFER_NOT_ENOUGH)
    ensures DecodeAs(kind, Encode(f)) ==
            if kind != KindOf(f.body) then Bad(ERR_INVALID_MESSAGE)
            else if LongEnough(f.body) then Ok(f)
            else Bad(ERR_BUFFER_NOT_ENOUGH)
  {
    hide DecodeBody, BodyBytes, LongEnough, Read16, Read32;
    HeaderReadsBack(f);
    BodyReadsBack(Encode(f), f.body);
  }

  /** Distinct frames have distinct datagrams. */
  lemma EncodeInjective(f: Frame, g: Frame)
    requires Fits(f.body) && (f.body.Status? ==> |f.body.clock| <= MAX_VECTOR_SIZE) && LongEnough(f.body)
    requires Fits(g.body) && (g.body.Status? ==> |g.body.clock| <= MAX_VECTOR_SIZE) && LongEnough(g.body)
    requires Encode(f) == Encode(g)
    ensures f == g
  {
    hide Encode, DecodeAs, Fits, LongEnough;
    HeaderReadsBack(f);
    HeaderReadsBack(g);
    RoundTrip(f, KindOf(f.body));
    RoundTrip(g, KindOf(f.body));
  }
}
