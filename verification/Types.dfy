/** Values shared by every component: wire words, identities, members and messages. */
module Types {
  const MESSAGE_MAX_SIZE: nat := 512
  const MAX_OUTPUT_MESSAGES: nat := 100
  const MESSAGE_RETRY_INTERVAL: nat := 10000
  const MESSAGE_RETRY_ATTEMPTS: nat := 3
  const MESSAGE_RUMOR_FACTOR: nat := 3
  const GOSSIP_TICK_INTERVAL: nat := 1000
  const MAX_VECTOR_SIZE: nat := 20
  const DATA_LOG_SIZE: nat := 25
  const WORD: int := 0x1_0000_0000

  const ERR_NONE: int := 0
  const ERR_BAD_STATE: int := -3
  const ERR_INVALID_MESSAGE: int := -4
  const ERR_BUFFER_NOT_ENOUGH: int := -5
  const ERR_NOT_FOUND: int := -6
  const ERR_WRITE_FAILED: int := -7
  const ERR_READ_FAILED: int := -8

  type byte = n: int | 0 <= n < 0x100
  type uint16 = n: int | 0 <= n < 0x1_0000
  type uint32 = n: int | 0 <= n < 0x1_0000_0000
  type MemberId = n: int | 0 <= n < 0x1_0000_0000_0000_0000
  type Bytes = seq<byte>
  /** A socket address: it must fit a `sockaddr_storage`. */
  type Address = a: Bytes | |a| <= 128

  datatype Option<+T> = None | Some(value: T)

  /** The C-style post-incremented 32-bit counter. */
  function Increment(n: uint32): uint32 {
    if n == 0xFFFF_FFFF then 0 else n + 1
  }

  datatype Entry<+V> = Entry(key: MemberId, val: V)
  /** One vector-clock record: an originator and its sequence number. */
  type Record = Entry<uint32>

  datatype Member = Member(version: uint16, uid: uint32, address: Address)

  datatype Message =
    | Hello(member: Member)
    | Welcome(helloSeq: uint32, member: Member)
    | MemberList(members: seq<Member>)
    | Ack(ackSeq: uint32)
    | Data(version: Record, payload: Bytes)
    | Status(clock: seq<Record>)

  /** A message with the two variable fields of its header. */
  datatype Frame = Frame(reserved: uint16, seqNum: uint32, body: Message)
}
