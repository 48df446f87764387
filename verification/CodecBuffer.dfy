/** The encoders and decoders as they run: a cursor moving over a byte buffer. */
module CodecBuffers {
  import opened Types
  import opened Codec

  function Written(s: Bytes, at: nat, piece: Bytes): (r: Bytes)
    requires at + |piece| <= |s|
    ensures |r| == |s|
  {
    s[..at] + piece + s[at + |piece|..]
  }

  /** Writing two pieces one behind the other is writing both. */
  lemma WrittenAppends(s: Bytes, at: nat, p: Bytes, q: Bytes)
    requires at + |p| + |q| <= |s|
    ensures Written(Written(s, at, p), at + |p|, q) == Written(s, at, p + q)
  {
  }

  lemma WrittenNothing(s: Bytes, at: nat)
    requires at <= |s|
    ensures Written(s, at, []) == s
  {
  }

  method CopyBytes(buffer: array<byte>, at: nat, piece: Bytes)
    requires at + |piece| <= buffer.Length
    modifies buffer
    ensures buffer[..] == Written(old(buffer[..]), at, piece)
  {
    for i := 0 to |piece|
      invariant forall k :: at <= k < at + i ==> buffer[k] == piece[k - at]
      invariant forall k :: 0 <= k < buffer.Length && !(at <= k < at + i) ==> buffer[k] == old(buffer[k])
    {
      buffer[at + i] := piece[i];
    }
  }

  method EncodeHeader(kind: byte, reserved: uint16, seqNum: uint32, buffer: array<byte>, at: nat) returns (cursor: nat)
    requires at + HEADER_SIZE <= buffer.Length
    modifies buffer
    ensures cursor == at + HEADER_SIZE
    ensures buffer[..] == Written(old(buffer[..]), at, HeaderBytes(kind, reserved, seqNum))
  {
    ghost var s := buffer[..];
    WrittenAppends(s, at, PROTOCOL_ID, [kind]);
    WrittenAppends(s, at, PROTOCOL_ID + [kind], Bytes16(reserved));
    WrittenAppends(s, at, PROTOCOL_ID + [kind] + Bytes16(reserved), Bytes32(seqNum));
    hide Written, Bytes16, Bytes32;
    cursor := at;
    CopyBytes(buffer, cursor, PROTOCOL_ID);
    cursor := cursor + 5;
    CopyBytes(buffer, cursor, [kind]);
    cursor := cursor + 1;
    CopyBytes(buffer, cursor, Bytes16(reserved));
    cursor := cursor + 2;
    CopyBytes(buffer, cursor, Bytes32(seqNum));
    cursor := cursor + 4;
  }

  method EncodeMember(m: Member, buffer: array<byte>, at: nat) returns (cursor: nat)
    requires at + MEMBER_BASE + |m.address| <= buffer.Length
    modifies buffer
    ensures cursor == at + |MemberBytes(m)|
    ensures buffer[..] == Written(old(buffer[..]), at, MemberBytes(m))
  {
    ghost var s := buffer[..];
    WrittenAppends(s, at, Bytes16(m.version), Bytes32(m.uid));
    WrittenAppends(s, at, Bytes16(m.version) + Bytes32(m.uid), Bytes32(|m.address|));
    WrittenAppends(s, at, Bytes16(m.version) + Bytes32(m.uid) + Bytes32(|m.address|), m.address);
    hide Written, Bytes16, Bytes32;
    cursor := at;
    CopyBytes(buffer, cursor, Bytes16(m.version));
    cursor := cursor + 2;
    CopyBytes(buffer, cursor, Bytes32(m.uid));
    cursor := cursor + 4;
    CopyBytes(buffer, cursor, Bytes32(|m.address|));
    cursor := cursor + 4;
    CopyBytes(buffer, cursor, m.address);
    cursor := cursor + |m.address|;
  }

  method EncodeRecord(r: Record, buffer: array<byte>, at: nat) returns (cursor: nat)
    requires at + VECTOR_RECORD_SIZE <= buffer.Length
    modifies buffer
    ensures cursor == at + VECTOR_RECORD_SIZE
    ensures buffer[..] == Written(old(buffer[..]), at, RecordBytes(r))
  {
    WrittenAppends(buffer[..], at, Bytes32(r.val), Bytes64(r.key));
    hide Written, Bytes64, Bytes32;
    cursor := at;
    CopyBytes(buffer, cursor, Bytes32(r.val));
    cursor := cursor + 4;
    CopyBytes(buffer, cursor, Bytes64(r.key));
    cursor := cursor + 8;
  }

  method EncodeRecords(rs: seq<Record>, buffer: array<byte>, at: nat) returns (cursor: nat)
    requires at + VECTOR_RECORD_SIZE * |rs| <= buffer.Length
    modifies buffer
    ensures cursor == at + |RecordsBytes(rs)|
    ensures buffer[..] == Written(old(buffer[..]), at, RecordsBytes(rs))
  {
    ghost var s := buffer[..];
    WrittenNothing(s, at);
    RecordsExtend(rs);
    hide Written, RecordBytes, RecordsBytes;
    cursor := at;
    for i := 0 to |rs|
      invariant cursor == at + VECTOR_RECORD_SIZE * i
      invariant buffer[..] == Written(s, at, RecordsBytes(rs[..i]))
    {
      WrittenAppends(s, at, RecordsBytes(rs[..i]), RecordBytes(rs[i]));
      cursor := EncodeRecord(rs[i], buffer, cursor);
    }
    assert rs[..|rs|] == rs;
  }

  lemma RecordsExtend(rs: seq<Record>)
    ensures rs[..0] == [] && RecordsBytes([]) == []
    ensures forall i :: 0 <= i < |rs| ==> RecordsBytes(rs[..i + 1]) == RecordsBytes(rs[..i]) + RecordBytes(rs[i])
  {
    hide RecordBytes;
    forall i | 0 <= i < |rs| ensures RecordsBytes(rs[..i + 1]) == RecordsBytes(rs[..i]) + RecordBytes(rs[i]) {
      assert rs[..i + 1][..i] == rs[..i];
    }
  }

  method EncodeDataBody(version: Record, payload: Bytes, buffer: array<byte>, at: nat) returns (cursor: nat)
    requires |payload| < 0x1_0000 && at + VECTOR_RECORD_SIZE + 2 + |payload| <= buffer.Length
    modifies buffer
    ensures cursor == at + VECTOR_RECORD_SIZE + 2 + |payload|
    ensures buffer[..] == Written(old(buffer[..]), at, RecordBytes(version) + Bytes16(|payload|) + payload)
  {
    ghost var s := buffer[..];
    WrittenAppends(s, at, RecordBytes(version), Bytes16(|payload|));
    WrittenAppends(s, at, RecordBytes(version) + Bytes16(|payload|), payload);
    hide Written, Bytes16, RecordBytes;
    cursor := EncodeRecord(version, buffer, at);
    CopyBytes(buffer, cursor, Bytes16(|payload|));
    cursor := cursor + 2;
    CopyBytes(buffer, cursor, payload);
    cursor := cursor + |payload|;
  }

  method EncodeMembers(ms: seq<Member>, buffer: array<byte>, at: nat) returns (cursor: nat)
    requires at + CLUSTER_MEMBER_SIZE * |ms| <= buffer.Length
    modifies buffer
    ensures cursor == at + |MembersBytes(ms)| && |MembersBytes(ms)| <= CLUSTER_MEMBER_SIZE * |ms|
    ensures buffer[..] == Written(old(buffer[..]), at, MembersBytes(ms))
  {
    hide Written, MemberBytes;
    ghost var s := buffer[..];
    WrittenNothing(s, at);
    cursor := at;
    for i := 0 to |ms|
      invariant cursor == at + |MembersBytes(ms[..i])| && |MembersBytes(ms[..i])| <= CLUSTER_MEMBER_SIZE * i
      invariant buffer[..] == Written(s, at, MembersBytes(ms[..i]))
    {
      assert ms[..i + 1][..i] == ms[..i];
      WrittenAppends(s, at, MembersBytes(ms[..i]), MemberBytes(ms[i]));
      cursor := EncodeMember(ms[i], buffer, cursor);
    }
    assert ms[..|ms|] == ms;
  }

  /** The body behind the header. */
  method EncodeBody(m: Message, buffer: array<byte>, at: nat) returns (cursor: nat)
    requires Fits(m) && at + (DemandedSize(m) - HEADER_SIZE) <= buffer.Length
    modifies buffer
    ensures at + |BodyBytes(m)| <= buffer.Length && cursor == at + |BodyBytes(m)|
    ensures buffer[..] == Written(old(buffer[..]), at, BodyBytes(m))
  {
    hide Written, Bytes16, Bytes32, MemberBytes, MembersBytes, RecordBytes, RecordsBytes;
    ghost var s := buffer[..];
    cursor := at;
    match m {
      case Hello(member) =>
        cursor := EncodeMember(member, buffer, cursor);
      case Welcome(helloSeq, member) =>
        WrittenAppends(s, at, Bytes32(helloSeq), MemberBytes(member));
        CopyBytes(buffer, cursor, Bytes32(helloSeq));
        cursor := EncodeMember(member, buffer, cursor + 4);
      case MemberList(members) =>
        MembersSize(members);
        WrittenAppends(s, at, Bytes16(|members|), MembersBytes(members));
        CopyBytes(buffer, cursor, Bytes16(|members|));
        cursor := EncodeMembers(members, buffer, cursor + 2);
      case Ack(ackSeq) =>
        CopyBytes(buffer, cursor, Bytes32(ackSeq));
        cursor := cursor + 4;
      case Data(version, payload) =>
        cursor := EncodeDataBody(version, payload, buffer, cursor);
      case Status(clock) =>
        WrittenAppends(s, at, Bytes16(|clock|), RecordsBytes(clock));
        CopyBytes(buffer, cursor, Bytes16(|clock|));
        cursor := EncodeRecords(clock, buffer, cursor + 2);
    }
  }

  /** Encode a message into the slot at `at`: its size, or an error before anything is written. */
  method EncodeMessage(f: Frame, buffer: array<byte>, at: nat) returns (result: int)
    requires at + MESSAGE_MAX_SIZE <= buffer.Length
    modifies buffer
    ensures !Fits(f.body) ==> result == ERR_BUFFER_NOT_ENOUGH && buffer[..] == old(buffer[..])
    ensures Fits(f.body) ==> result == |Encode(f)| <= MESSAGE_MAX_SIZE
    ensures Fits(f.body) ==> buffer[..] == Written(old(buffer[..]), at, Encode(f))
  {
    if DemandedSize(f.body) > MESSAGE_MAX_SIZE { return ERR_BUFFER_NOT_ENOUGH; }
    EncodedFits(f);
    WrittenAppends(buffer[..], at, HeaderBytes(KindOf(f.body), f.reserved, f.seqNum), BodyBytes(f.body));
    hide Written, HeaderBytes, BodyBytes;
    var cursor := EncodeHeader(KindOf(f.body), f.reserved, f.seqNum, buffer, at);
    cursor := EncodeBody(f.body, buffer, cursor);
    result := cursor - at;
  }

  // ----- decoding -----

  method DecodeMembers(b: Bytes, at: nat, n: nat) returns (r: Decoded<(seq<Member>, nat)>)
    requires at <= |b|
    ensures r == ReadMembers(b, at, n, [])
  {
    hide ReadMember;
    var members: seq<Member> := [];
    var cursor: nat := at;
    for i := 0 to n
      invariant cursor <= |b|
      invariant ReadMembers(b, at, n, []) == ReadMembers(b, cursor, n - i, members)
    {
      match ReadMember(b, cursor) {
        case Bad(code) => return Bad(code);
        case Ok((m, next)) =>
          if next > |b| { return Bad(ERR_BUFFER_NOT_ENOUGH); }
          members := members + [m];
          cursor := next;
      }
    }
    r := Ok((members, cursor));
  }

  method DecodeRecords(b: Bytes, at: nat, n: nat) returns (records: seq<Record>)
    requires at + VECTOR_RECORD_SIZE * n <= |b|
    ensures records == ReadRecords(b, at, n, [])
  {
    hide ReadRecord;
    records := [];
    var cursor := at;
    for i := 0 to n
      invariant cursor == at + VECTOR_RECORD_SIZE * i
      invariant ReadRecords(b, at, n, []) == ReadRecords(b, cursor, n - i, records)
    {
      records := records + [ReadRecord(b, cursor)];
      cursor := cursor + VECTOR_RECORD_SIZE;
    }
  }

  method DecodeHello(b: Bytes) returns (r: Decoded<Read<Message>>)
    requires |b| >= HEADER_SIZE
    ensures r == DecodeBody(b, HELLO)
  {
    hide ReadMember;
    if |b| < HEADER_SIZE + 16 { return Bad(ERR_BUFFER_NOT_ENOUGH); }
    match ReadMember(b, HEADER_SIZE) {
      case Bad(code) => return Bad(code);
      case Ok((m, cursor)) => return Ok(Read(Hello(m), cursor));
    }
  }

  method DecodeWelcome(b: Bytes) returns (r: Decoded<Read<Message>>)
    requires |b| >= HEADER_SIZE
    ensures r == DecodeBody(b, WELCOME)
  {
    hide ReadMember, Read32;
    if |b| < HEADER_SIZE + 4 + 16 { return Bad(ERR_BUFFER_NOT_ENOUGH); }
    var cursor := HEADER_SIZE;
    var helloSeq := Read32(b, cursor);
    cursor := cursor + 4;
    match ReadMember(b, cursor) {
      case Bad(code) => return Bad(code);
      case Ok((m, next)) => return Ok(Read(Welcome(helloSeq, m), next));
    }
  }

  method DecodeMemberList(b: Bytes) returns (r: Decoded<Read<Message>>)
    requires |b| >= HEADER_SIZE
    ensures r == DecodeBody(b, MEMBER_LIST)
  {
    hide ReadMembers, Read16;
    if |b| < HEADER_SIZE + 2 { return Bad(ERR_BUFFER_NOT_ENOUGH); }
    var n := Read16(b, HEADER_SIZE);
    var members := DecodeMembers(b, HEADER_SIZE + 2, n);
    match members {
      case Bad(code) => return Bad(code);
      case Ok((ms, cursor)) => return Ok(Read(MemberList(ms), cursor));
    }
  }

  method DecodeAck(b: Bytes) returns (r: Decoded<Read<Message>>)
    requires |b| >= HEADER_SIZE
    ensures r == DecodeBody(b, ACK)
  {
    hide Read32;
    if |b| < HEADER_SIZE + 4 { return Bad(ERR_BUFFER_NOT_ENOUGH); }
    var cursor := HEADER_SIZE;
    var ackSeq := Read32(b, cursor);
    cursor := cursor + 4;
    return Ok(Read(Ack(ackSeq), cursor));
  }

  method DecodeData(b: Bytes) returns (r: Decoded<Read<Message>>)
    requires |b| >= HEADER_SIZE
    ensures r == DecodeBody(b, DATA)
  {
    hide ReadRecord, Read16;
    var cursor := HEADER_SIZE;
    if |b| - cursor < VECTOR_RECORD_SIZE + 2 { return Bad(ERR_BUFFER_NOT_ENOUGH); }
    var version := ReadRecord(b, cursor);
    cursor := cursor + VECTOR_RECORD_SIZE;
    var size := Read16(b, cursor);
    cursor := cursor + 2;
    if |b| != cursor + size { return Bad(ERR_BUFFER_NOT_ENOUGH); }
    assert b[cursor..cursor + size] == b[cursor..];
    return Ok(Read(Data(version, b[cursor..cursor + size]), cursor + size));
  }

  method DecodeStatus(b: Bytes) returns (r: Decoded<Read<Message>>)
    requires |b| >= HEADER_SIZE
    ensures r == DecodeBody(b, STATUS)
  {
    hide ReadRecords, Read16;
    if |b| < HEADER_SIZE + 2 { return Bad(ERR_BUFFER_NOT_ENOUGH); }
    var cursor := HEADER_SIZE;
    var n := Read16(b, cursor);
    cursor := cursor + 2;
    if |b| - cursor < VECTOR_RECORD_SIZE * n || n > MAX_VECTOR_SIZE { return Bad(ERR_BUFFER_NOT_ENOUGH); }
    var records := DecodeRecords(b, cursor, n);
    return Ok(Read(Status(records), cursor + VECTOR_RECORD_SIZE * n));
  }

  /** The decoder of one message kind. */
  method DecodeMessage(kind: byte, b: Bytes) returns (r: Decoded<Read<Frame>>)
    ensures r == DecodeSized(kind, b)
  {
    hide DecodeBody, Read16, Read32;
    if !ValidPayload(b, kind) { return Bad(ERR_INVALID_MESSAGE); }
    var body: Decoded<Read<Message>>;
    if kind == HELLO {
      body := DecodeHello(b);
    } else if kind == WELCOME {
      body := DecodeWelcome(b);
    } else if kind == MEMBER_LIST {
      body := DecodeMemberList(b);
    } else if kind == ACK {
      body := DecodeAck(b);
    } else if kind == DATA {
      body := DecodeData(b);
    } else if kind == STATUS {
      body := DecodeStatus(b);
    } else {
      UnknownKind(kind, b);
      body := Bad(ERR_INVALID_MESSAGE);
    }
    match body {
      case Bad(code) => return Bad(code);
      case Ok(m) => return Ok(Read(Frame(Read16(b, 6), Read32(b, SEQ_OFFSET), m.value), m.size));
    }
  }

  lemma UnknownKind(kind: byte, b: Bytes)
    requires |b| >= HEADER_SIZE && !(HELLO <= kind <= STATUS)
    ensures DecodeBody(b, kind) == Bad(ERR_INVALID_MESSAGE)
  {
  }
}
