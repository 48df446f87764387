/** The datagram format by position: the reference both directions of the codec are proved against. */
module Layout {
  import opened Types
  import opened Codec

  /** `n` bytes from `at` on as a number, most significant byte first. */
  function BigEndian(b: Bytes, at: nat, n: nat): nat
    requires at + n <= |b|
  {
    if n == 0 then 0 else BigEndian(b, at, n - 1) * 256 + b[at + n - 1]
  }

  /** The same, least significant byte first. */
  function LittleEndian(b: Bytes, at: nat, n: nat): nat
    requires at + n <= |b|
    decreases n
  {
    if n == 0 then 0 else b[at] + 256 * LittleEndian(b, at + 1, n - 1)
  }

  // ----- pieces -----

  ghost predicate MemberAt(b: Bytes, at: nat, m: Member) {
    && at + 10 + |m.address| <= |b|
    && BigEndian(b, at, 2) == m.version && BigEndian(b, at + 2, 4) == m.uid
    && BigEndian(b, at + 6, 4) == |m.address| && b[at + 10..at + 10 + |m.address|] == m.address
  }

  /** The members lie one behind the other from `at` to `end`. */
  ghost predicate MembersAt(b: Bytes, at: nat, ms: seq<Member>, end: nat)
    decreases |ms|
  {
    if ms == [] then end == at <= |b|
    else MemberAt(b, at, ms[0]) && MembersAt(b, at + 10 + |ms[0].address|, ms[1..], end)
  }

  ghost predicate RecordAt(b: Bytes, at: nat, r: Record) {
    at + 12 <= |b| && BigEndian(b, at, 4) == r.val && LittleEndian(b, at + 4, 8) == r.key
  }

  ghost predicate RecordsAt(b: Bytes, at: nat, rs: seq<Record>) {
    forall i :: 0 <= i < |rs| ==> RecordAt(b, at + 12 * i, rs[i])
  }

  /** The body lies in the bytes 12 to `size`. */
  ghost predicate BodyAt(b: Bytes, m: Message, size: nat)
    requires 12 <= size <= |b|
  {
    match m
    case Hello(member) => MemberAt(b, 12, member) && size == 22 + |member.address|
    case Welcome(helloSeq, member) =>
      size == 26 + |member.address| && BigEndian(b, 12, 4) == helloSeq && MemberAt(b, 16, member)
    case MemberList(ms) => 14 <= size && BigEndian(b, 12, 2) == |ms| && MembersAt(b, 14, ms, size)
    case Ack(ackSeq) => size == 16 && BigEndian(b, 12, 4) == ackSeq
    case Data(version, payload) =>
      && size == 26 + |payload| && RecordAt(b, 12, version)
      && BigEndian(b, 24, 2) == |payload| && b[26..size] == payload
    case Status(rs) =>
      && size == 14 + 12 * |rs| && BigEndian(b, 12, 2) == |rs|
      && RecordsAt(b, 14, rs)
  }

  function TypeCode(m: Message): int {
    match m
    case Hello(_) => 1
    case Welcome(_, _) => 2
    case MemberList(_) => 3
    case Ack(_) => 4
    case Data(_, _) => 5
    case Status(_) => 6
  }

  /** The frame lies in the first `size` bytes: "ptcs" and a zero, the type, the reserved field, the sequence number. */
  ghost predicate Laid(b: Bytes, f: Frame, size: nat) {
    && 12 <= size <= |b|
    && b[0] == 0x70 && b[1] == 0x74 && b[2] == 0x63 && b[3] == 0x73 && b[4] == 0
    && b[5] == TypeCode(f.body)
    && BigEndian(b, 6, 2) == f.reserved && BigEndian(b, 8, 4) == f.seqNum
    && BodyAt(b, f.body, size)
  }

  /** What a decoder asks for besides: a whole `cluster_member_t` in the datagram, no bytes behind a payload, at most 20
      clock records. */
  predicate Accepted(b: Bytes, m: Message, size: nat) {
    match m
    case Hello(_) => |b| >= 28
    case Welcome(_, _) => |b| >= 32
    case Data(_, _) => |b| == size
    case Status(rs) => |rs| <= 20
    case _ => true
  }

  // ----- numbers -----

  lemma Big16(b: Bytes, at: nat)
    requires at + 2 <= |b|
    ensures BigEndian(b, at, 2) == Read16(b, at)
  {
    assert BigEndian(b, at, 1) == b[at];
  }

  lemma Big32(b: Bytes, at: nat)
    requires at + 4 <= |b|
    ensures BigEndian(b, at, 4) == Read32(b, at)
  {
    assert BigEndian(b, at, 1) == b[at];
    assert BigEndian(b, at, 3) == (b[at] as int * 256 + b[at + 1]) * 256 + b[at + 2];
  }

  lemma LittleSplit(b: Bytes, at: nat, n: nat)
    requires at + n + 4 <= |b|
    ensures LittleEndian(b, at, n + 4) == ReadLittle32(b, at) + LittleEndian(b, at + 4, n) * WORD
  {
    assert LittleEndian(b, at + 3, n + 1) == b[at + 3] + 256 * LittleEndian(b, at + 4, n);
    assert LittleEndian(b, at + 2, n + 2) == b[at + 2] + 256 * LittleEndian(b, at + 3, n + 1);
    assert LittleEndian(b, at + 1, n + 3) == b[at + 1] + 256 * LittleEndian(b, at + 2, n + 2);
  }

  lemma Little64(b: Bytes, at: nat)
    requires at + 8 <= |b|
    ensures LittleEndian(b, at, 8) == Read64(b, at)
  {
    LittleSplit(b, at, 4);
    LittleSplit(b, at + 4, 0);
  }

  // ----- reading is looking at the positions -----

  lemma MemberIsRead(b: Bytes, at: nat, m: Member, end: nat)
    requires at <= |b|
    ensures ReadMember(b, at) == Ok((m, end)) <==> MemberAt(b, at, m) && end == at + 10 + |m.address|
  {
    hide BigEndian, Read16, Read32;
    if at + 10 <= |b| {
      Big16(b, at);
      Big32(b, at + 2);
      Big32(b, at + 6);
    }
  }

  lemma {:induction false} MembersAreRead(b: Bytes, at: nat, n: nat, got: seq<Member>, r: seq<Member>, end: nat)
    requires at <= |b|
    ensures ReadMembers(b, at, n, got) == Ok((r, end)) <==>
            |r| == |got| + n && got <= r && MembersAt(b, at, r[|got|..], end)
    decreases n
  {
    hide ReadMember, MemberAt;
    if n == 0 {
      assert |r| == |got| && got <= r ==> r == got && r[|got|..] == [];
    } else if ReadMember(b, at).Ok? {
      var (m, next) := ReadMember(b, at).value;
      MemberIsRead(b, at, m, next);
      MemberEnds(b, at, m);
      MembersAreRead(b, next, n - 1, got + [m], r, end);
      if |r| == |got| + n && got <= r {
        MemberIsRead(b, at, r[|got|], at + 10 + |r[|got|].address|);
        assert r[|got|..][0] == r[|got|] && r[|got|..][1..] == r[|got| + 1..];
        assert got + [m] <= r <==> r[|got|] == m;
      }
    } else if |r| == |got| + n && got <= r {
      MemberIsRead(b, at, r[|got|], at + 10 + |r[|got|].address|);
      assert r[|got|..][0] == r[|got|];
    }
  }

  lemma {:induction false} MembersEnd(b: Bytes, at: nat, ms: seq<Member>, end: nat)
    ensures MembersAt(b, at, ms, end) ==> at <= end <= |b|
    decreases |ms|
  {
    hide MemberAt;
    if ms != [] { MembersEnd(b, at + 10 + |ms[0].address|, ms[1..], end); }
  }

  lemma MemberEnds(b: Bytes, at: nat, m: Member)
    ensures MemberAt(b, at, m) ==> at + 10 + |m.address| <= |b|
  {
  }

  lemma RecordIsRead(b: Bytes, at: nat, r: Record)
    requires at + 12 <= |b|
    ensures ReadRecord(b, at) == r <==> RecordAt(b, at, r)
  {
    hide BigEndian, LittleEndian, Read32, Read64;
    Big32(b, at);
    Little64(b, at + 4);
  }

  lemma RecordsFront(b: Bytes, at: nat, rs: seq<Record>)
    requires rs != []
    ensures RecordsAt(b, at, rs) <==> RecordAt(b, at, rs[0]) && RecordsAt(b, at + 12, rs[1..])
  {
    hide RecordAt;
    var rest := rs[1..];
    if RecordsAt(b, at, rs) {
      assert RecordAt(b, at + 12 * 0, rs[0]);
      forall i | 0 <= i < |rest| ensures RecordAt(b, at + 12 + 12 * i, rest[i]) {
        assert RecordAt(b, at + 12 * (i + 1), rs[i + 1]);
      }
    }
    if RecordAt(b, at, rs[0]) && RecordsAt(b, at + 12, rest) {
      forall i | 0 <= i < |rs| ensures RecordAt(b, at + 12 * i, rs[i]) {
        if i > 0 { assert RecordAt(b, at + 12 + 12 * (i - 1), rest[i - 1]); }
      }
    }
  }

  lemma {:induction false} RecordsAreRead(b: Bytes, at: nat, n: nat, got: seq<Record>, r: seq<Record>)
    requires at + VECTOR_RECORD_SIZE * n <= |b|
    ensures ReadRecords(b, at, n, got) == r <==> |r| == |got| + n && got <= r && RecordsAt(b, at, r[|got|..])
    decreases n
  {
    hide ReadRecord, RecordAt, RecordsAt;
    if n == 0 {
      NoRecords(b, at);
      assert |r| == |got| && got <= r ==> r == got && r[|got|..] == [];
    } else {
      var x := ReadRecord(b, at);
      RecordsAreRead(b, at + VECTOR_RECORD_SIZE, n - 1, got + [x], r);
      if |r| == |got| + n && got <= r {
        RecordIsRead(b, at, r[|got|]);
        RecordsFront(b, at, r[|got|..]);
        assert r[|got|..][0] == r[|got|] && r[|got|..][1..] == r[|got| + 1..];
        assert got + [x] <= r <==> r[|got|] == x;
      }
    }
  }

  lemma NoRecords(b: Bytes, at: nat)
    ensures RecordsAt(b, at, [])
  {
  }

  // ----- the two directions -----

  lemma ListIsRead(b: Bytes, ms: seq<Member>, size: nat)
    requires 12 <= |b|
    ensures DecodeBody(b, MEMBER_LIST) == Ok(Read(MemberList(ms), size)) <==>
            12 <= size <= |b| && BodyAt(b, MemberList(ms), size)
  {
    hide ReadMember, MemberAt, BigEndian, Read16;
    if |b| >= 14 {
      Big16(b, 12);
      MembersAreRead(b, 14, Read16(b, 12), [], ms, size);
      MembersEnd(b, 14, ms, size);
      assert ms[0..] == ms;
    }
  }

  lemma BodyIsRead(b: Bytes, m: Message, size: nat)
    requires 12 <= |b|
    ensures DecodeBody(b, TypeCode(m)) == Ok(Read(m, size)) <==>
            12 <= size <= |b| && BodyAt(b, m, size) && Accepted(b, m, size)
  {
    hide ReadMember, MemberAt, ReadMembers, MembersAt, ReadRecord, RecordAt, ReadRecords, RecordsAt, BigEndian;
    hide Read16, Read32;
    match m {
      case Hello(member) =>
        MemberIsRead(b, 12, member, size);
        MemberEnds(b, 12, member);
      case Welcome(_, member) =>
        if |b| >= 32 {
          Big32(b, 12);
          MemberIsRead(b, 16, member, size);
          MemberEnds(b, 16, member);
        }
      case MemberList(ms) => ListIsRead(b, ms, size);
      case Ack(_) => if |b| >= 16 { Big32(b, 12); }
      case Data(version, payload) =>
        if |b| >= 26 {
          Big16(b, 24);
          RecordIsRead(b, 12, version);
          assert size == |b| ==> b[26..size] == b[26..];
        }
      case Status(rs) =>
        if |b| >= 14 {
          Big16(b, 12);
          if |b| >= 14 + VECTOR_RECORD_SIZE * Read16(b, 12) { RecordsAreRead(b, 14, Read16(b, 12), [], rs); }
        }
    }
  }

  /** Decoding is exact: a decoder returns a frame and a size if and only if it is the decoder of the frame's type, the
      datagram starts with that frame, laid out in that many bytes, and the decoder accepts what is around it. */
  lemma DecodesExactly(kind: byte, b: Bytes, f: Frame, size: nat)
    ensures DecodeSized(kind, b) == Ok(Read(f, size)) <==>
            kind == TypeCode(f.body) && Laid(b, f, size) && Accepted(b, f.body, size)
  {
    hide BodyAt, Accepted, DecodeBody, BigEndian, Read16, Read32;
    if |b| >= 12 {
      Big16(b, 6);
      Big32(b, 8);
      BodyIsRead(b, f.body, size);
      BodyOfKind(b, kind);
      assert b[..5] == [b[0], b[1], b[2], b[3], b[4]];
    }
  }

  lemma BodyOfKind(b: Bytes, kind: byte)
    requires 12 <= |b|
    ensures DecodeBody(b, kind).Ok? ==> kind == TypeCode(DecodeBody(b, kind).value.value)
  {
    hide ReadMember, ReadMembers, ReadRecord, ReadRecords, Read16, Read32;
  }

  lemma BodyIsLaid(b: Bytes, m: Message)
    requires Fits(m) && |b| == HEADER_SIZE + |BodyBytes(m)| && Holds(b, HEADER_SIZE, BodyBytes(m))
    ensures BodyAt(b, m, |b|)
  {
    hide MemberBytes, ReadMember, MembersBytes, RecordsBytes, RecordBytes, ReadMembers, ReadRecords, ReadRecord, RecordsAt;
    hide Bytes16, Bytes32, Read16, Read32, Holds, BigEndian, MemberAt, MembersAt, RecordAt;
    match m {
      case Hello(member) =>
        HoldsMember(b, 12, member);
        MemberIsRead(b, 12, member, |b|);
      case Welcome(helloSeq, member) =>
        HoldsParts(b, 12, Bytes32(helloSeq), MemberBytes(member));
        Holds32(b, 12, helloSeq);
        Big32(b, 12);
        HoldsMember(b, 16, member);
        MemberIsRead(b, 16, member, |b|);
      case MemberList(ms) =>
        HoldsParts(b, 12, Bytes16(|ms|), MembersBytes(ms));
        Holds16(b, 12, |ms|);
        Big16(b, 12);
        HoldsMembers(b, 14, [], ms);
        MembersAreRead(b, 14, |ms|, [], ms, |b|);
        assert [] + ms == ms && ms[0..] == ms;
      case Ack(ackSeq) =>
        Holds32(b, 12, ackSeq);
        Big32(b, 12);
      case Data(version, payload) =>
        HoldsParts(b, 12, RecordBytes(version) + Bytes16(|payload|), payload);
        HoldsParts(b, 12, RecordBytes(version), Bytes16(|payload|));
        HoldsRecord(b, 12, version);
        RecordIsRead(b, 12, version);
        Holds16(b, 24, |payload|);
        Big16(b, 24);
        HoldsToEnd(b, 26, payload);
        assert b[26..|b|] == b[26..];
      case Status(rs) =>
        HoldsParts(b, 12, Bytes16(|rs|), RecordsBytes(rs));
        Holds16(b, 12, |rs|);
        Big16(b, 12);
        HoldsRecords(b, 14, [], rs);
        RecordsAreRead(b, 14, |rs|, [], rs);
        assert [] + rs == rs && rs[0..] == rs;
    }
  }

  /** Encoding is exact: every message that fits is laid out in all the bytes of its datagram. */
  lemma EncodesExactly(f: Frame)
    requires Fits(f.body)
    ensures Laid(Encode(f), f, |Encode(f)|)
  {
    hide BodyAt, BigEndian, Read16, Read32, BodyBytes, Bytes16, Bytes32;
    var b := Encode(f);
    HeaderReadsBack(f);
    Big16(b, 6);
    Big32(b, 8);
    BodyIsLaid(b, f.body);
  }

  lemma {:induction false} MembersErrors(b: Bytes, at: nat, n: nat, got: seq<Member>)
    requires at <= |b|
    ensures ReadMembers(b, at, n, got).Bad? ==> ReadMembers(b, at, n, got).code == -5
    decreases n
  {
    hide Read16, Read32;
    if n > 0 && ReadMember(b, at).Ok? {
      var (m, next) := ReadMember(b, at).value;
      if next <= |b| { MembersErrors(b, next, n - 1, got + [m]); }
    }
  }

  /** The two errors of a decoder: the header is not that of its type, or the rest does not hold a message it accepts. */
  lemma DecodeErrors(kind: byte, b: Bytes)
    requires 1 <= kind <= 6
    ensures DecodeSized(kind, b).Bad? ==>
              DecodeSized(kind, b).code ==
              if |b| >= 12 && b[..5] == [0x70, 0x74, 0x63, 0x73, 0] && b[5] == kind then -5 else -4
  {
    hide ReadMembers, ReadRecords, ReadRecord, Read16, Read32;
    if |b| >= 14 { MembersErrors(b, 14, Read16(b, 12), []); }
  }
}
