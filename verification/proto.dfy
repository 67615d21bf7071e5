/** Codecs of the ELAN 04f3:0c90 (crates/elanprint-proto/src/lib.rs, status.rs). */
module Proto {
  import opened Core

  datatype Endpoint = Image | StatusIn | TouchWait

  datatype Retry = MoveDown | MoveRight | MoveUp | MoveLeft | Dirty | AreaTooSmall

  datatype Status = Ok(code: byte) | Again(hint: Retry) | MaxEnrolled | NotEnrolled | Unknown(code: byte)

  function Classify(b: byte): Status {
    if b == 0x41 then Again(MoveDown)
    else if b == 0x42 then Again(MoveRight)
    else if b == 0x43 then Again(MoveUp)
    else if b == 0x44 then Again(MoveLeft)
    else if b == 0xfb then Again(Dirty)
    else if b == 0xfe then Again(AreaTooSmall)
    else if b == 0xdd then MaxEnrolled
    else if b == 0xfd then NotEnrolled
    else if b / 16 == 0 then Ok(b)
    else Unknown(b)
  }

  datatype CommandName = EnrollCmd | CommitCmd | DeleteCmd | VerifyCmd

  datatype ProtoError =
    | UnexpectedLength(wanted: nat, got: nat)
    | DeviceError(during: CommandName, code: byte)

  datatype VerifyOutcome = Match(id: byte) | NoMatch | TryAgain(hint: Retry)

  function ClassifyVerify(s: Status): Result<VerifyOutcome, ProtoError> {
    match s
    case Ok(id) => Success(Match(id))
    case NotEnrolled => Success(NoMatch)
    case Again(r) => Success(TryAgain(r))
    case MaxEnrolled => Failure(DeviceError(VerifyCmd, 0xdd))
    case Unknown(b) => Failure(DeviceError(VerifyCmd, b))
  }

  const MAX_STAGES := 32

  /** What ELANPRINT_ENROLL_STAGES may configure. */
  type Stages = n: byte | 1 <= n <= MAX_STAGES witness 1

  /** The finger id plus five, wrapping in a byte, with its high nibble forced to all ones. */
  function SubId(fingerId: byte): byte {
    0xf0 + ((fingerId + 5) % 256) % 16
  }

  lemma SubIdLowNibble(a: byte)
    ensures SubId(a) == 0xf0 + (if a % 16 < 11 then a % 16 + 5 else a % 16 - 11)
  {
    var q, low := a / 16, a % 16;
    assert a == 16 * q + low;
    assert (a + 5) % 256 == a + 5 - (if a + 5 < 256 then 0 else 256);
  }

  /** Sub ids tell all sixteen slots apart, and nothing more. */
  lemma SubIdDistinct(a: byte, b: byte)
    ensures SubId(a) == SubId(b) <==> a % 16 == b % 16
  {
    SubIdLowNibble(a);
    SubIdLowNibble(b);
  }

  datatype Command =
    | FwVersion
    | EnrolledNum
    | FingerInfo(id: byte)
    | Verify
    | Abort
    | Enroll(fingerId: byte, totalAttempts: byte, attemptsDone: byte)
    | CheckCollision
    | Commit(subId: byte, user: seq<byte>)
    | Delete(slot: byte)
    | DeleteSubsid(subId: byte, tail: seq<byte>)
    | WipeAll

  const USER_BYTES := 68

  predicate WellFormed(c: Command) {
    (c.Commit? ==> |c.user| == USER_BYTES) && (c.DeleteSubsid? ==> |c.tail| == USER_BYTES)
  }

  function CommitFor(subId: byte): (c: Command)
    ensures WellFormed(c)
  {
    Commit(subId, seq(USER_BYTES, _ => 0))
  }

  function Encode(c: Command): seq<byte> {
    match c
    case FwVersion => [0x40, 0x19]
    case EnrolledNum => [0x40, 0xff, 0x04]
    case FingerInfo(id) => [0x40, 0xff, 0x12, id]
    case Verify => [0x40, 0xff, 0x03]
    case Abort => [0x40, 0xff, 0x02]
    case Enroll(id, total, done) => [0x40, 0xff, 0x01, id, total, done, 0x00]
    case CheckCollision => [0x40, 0xff, 0x10]
    case Commit(sub, user) => [0x40, 0xff, 0x11, sub] + user
    case Delete(slot) => [0x40, 0xff, 0x05, slot, 0x00]
    case DeleteSubsid(sub, tail) => [0x40, 0xff, 0x13, sub] + tail
    case WipeAll => [0x40, 0xff, 0x99]
  }

  function ExpectedLen(c: Command): nat {
    match c
    case Abort | WipeAll => 0
    case FingerInfo(_) => 70
    case CheckCollision => 3
    case _ => 2
  }

  function ReplyEndpoint(c: Command): Endpoint {
    if c.Verify? || c.Enroll? then TouchWait else StatusIn
  }

  /** Third byte of a `40 ff` command, None for anything else. */
  function Opcode(out: seq<byte>): Option<byte> {
    if |out| >= 3 && out[0] == 0x40 && out[1] == 0xff then Some(out[2]) else None
  }

  predicate IsErase(out: seq<byte>) {
    Opcode(out) == Some(0x05) || Opcode(out) == Some(0x13) || Opcode(out) == Some(0x99)
  }

  predicate IsTouchWait(out: seq<byte>) {
    Opcode(out) == Some(0x03) || Opcode(out) == Some(0x01)
  }

  predicate IsCommit(out: seq<byte>) {
    Opcode(out) == Some(0x11)
  }

  /** The bytes a command is given away by: nothing on the wire is ambiguous. */
  function Decode(out: seq<byte>): Option<Command> {
    if out == [0x40, 0x19] then Some(FwVersion)
    else match Opcode(out)
      case None => None
      case Some(op) =>
        if op == 0x04 && |out| == 3 then Some(EnrolledNum)
        else if op == 0x12 && |out| == 4 then Some(FingerInfo(out[3]))
        else if op == 0x03 && |out| == 3 then Some(Verify)
        else if op == 0x02 && |out| == 3 then Some(Abort)
        else if op == 0x01 && |out| == 7 && out[6] == 0 then Some(Enroll(out[3], out[4], out[5]))
        else if op == 0x10 && |out| == 3 then Some(CheckCollision)
        else if op == 0x11 && |out| == 72 then Some(Commit(out[3], out[4..]))
        else if op == 0x05 && |out| == 5 && out[4] == 0 then Some(Delete(out[3]))
        else if op == 0x13 && |out| == 72 then Some(DeleteSubsid(out[3], out[4..]))
        else if op == 0x99 && |out| == 3 then Some(WipeAll)
        else None
  }

  /** Encoding loses nothing, and the opcode alone tells writes and touch-waits apart. */
  lemma EncodeRoundTrip(c: Command)
    requires WellFormed(c)
    ensures Decode(Encode(c)) == Some(c)
    ensures IsErase(Encode(c)) <==> c.Delete? || c.DeleteSubsid? || c.WipeAll?
    ensures IsTouchWait(Encode(c)) <==> ReplyEndpoint(c) == TouchWait
    ensures IsCommit(Encode(c)) <==> c.Commit?
  {
  }

  datatype SlotState = Empty | Stuck | Enrolled(raw: seq<byte>) | SlotError(code: byte)

  datatype Response =
    | FwVersionIs(major: byte, minor: byte)
    | CountIs(count: byte)
    | VerifyIs(byte0: byte, status: Status)
    | AbortIs(ended: Option<Status>)
    | SlotIs(id: byte, state: SlotState)
    | SampleIs(byte0: byte, status: Status)
    | CollisionIs(byte0: byte, colliding: Option<byte>)
    | CommitIs(byte0: byte, status: Status)
    | DeleteIs(byte0: byte, status: Status)
    | DeleteSubsidIs(byte0: byte, status: Status)
    | WipeAllIs

  function ParseSlot(raw: seq<byte>): Result<SlotState, ProtoError> {
    if |raw| == 2 then Success(SlotError(raw[1]))
    else if |raw| == 70 then
      if raw[1] == 0xff then Success(Stuck)
      else if raw[69] == 0xff then Success(Empty)
      else Success(Enrolled(raw))
    else Failure(UnexpectedLength(70, |raw|))
  }

  function Wrong(c: Command, raw: seq<byte>): Result<Response, ProtoError> {
    Failure(UnexpectedLength(ExpectedLen(c), |raw|))
  }

  function Parse(c: Command, raw: seq<byte>): Result<Response, ProtoError> {
    match c
    case FwVersion =>
      if |raw| != 2 then Wrong(c, raw) else Success(FwVersionIs(raw[0], raw[1]))
    case EnrolledNum =>
      if |raw| != 2 then Wrong(c, raw) else Success(CountIs(raw[1]))
    case Verify =>
      if |raw| != 2 then Wrong(c, raw) else Success(VerifyIs(raw[0], Classify(raw[1])))
    case Abort =>
      if |raw| == 0 then Success(AbortIs(None))
      else if |raw| == 2 then Success(AbortIs(Some(Classify(raw[1]))))
      else Wrong(c, raw)
    case FingerInfo(id) =>
      (match ParseSlot(raw)
       case Success(state) => Success(SlotIs(id, state))
       case Failure(e) => Failure(e))
    case Enroll(_, _, _) =>
      if |raw| != 2 then Wrong(c, raw) else Success(SampleIs(raw[0], Classify(raw[1])))
    case CheckCollision =>
      if |raw| != 3 then Wrong(c, raw)
      else Success(CollisionIs(raw[0], if raw[1] != 0 then Some(raw[2]) else None))
    case Commit(_, _) =>
      if |raw| != 2 then Wrong(c, raw) else Success(CommitIs(raw[0], Classify(raw[1])))
    case Delete(_) =>
      if |raw| != 2 then Wrong(c, raw) else Success(DeleteIs(raw[0], Classify(raw[1])))
    case DeleteSubsid(_, _) =>
      if |raw| != 2 then Wrong(c, raw) else Success(DeleteSubsidIs(raw[0], Classify(raw[1])))
    case WipeAll =>
      if |raw| != 0 then Wrong(c, raw) else Success(WipeAllIs)
  }

  /** What is read for a command is what its parser takes; finger_info and abort may also answer in two bytes. */
  lemma ExpectedReplyParses(c: Command, raw: seq<byte>)
    ensures Parse(c, raw).Success? <==> |raw| == ExpectedLen(c) || ((c.FingerInfo? || c.Abort?) && |raw| == 2)
    ensures Parse(c, raw).Failure? ==> Parse(c, raw).error == UnexpectedLength(ExpectedLen(c), |raw|)
  {
  }

  /** A two byte reply whose status byte is zero: the only accepted sample, commit or delete. */
  predicate IsZero(raw: seq<byte>) {
    |raw| == 2 && raw[1] == 0
  }

  /** A two byte reply asking for another touch. */
  predicate IsRetry(raw: seq<byte>) {
    |raw| == 2 && (0x41 <= raw[1] <= 0x44 || raw[1] == 0xfb || raw[1] == 0xfe)
  }

  /** A collision reply that names no finger. */
  predicate IsClear(raw: seq<byte>) {
    |raw| == 3 && raw[1] == 0
  }
}
