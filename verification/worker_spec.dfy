/**
 * What each call of the device worker does (crates/elanprintd/src/worker.rs), as functions over its
 * state, the script of its environment and the trace of its wire.
 */
module WorkerSpec {
  import opened Core
  import opened Proto
  import opened EnrollMachine
  import opened Store
  import opened DbusStatus
  import Names

  // ---------- environment ----------

  /** How the transport answers one command. An exhausted script answers Silence. */
  datatype Outcome =
    | Reply(data: seq<byte>)
    | Short(data: seq<byte>)
    | Silence
    | Gone
    | Interrupted
    | Fault
    | CancelWins   // the cancel token wins before the command is handed to the transport

  /** One command handed to the transport on an open handle. */
  datatype Exchange = Exchange(handle: nat, out: seq<byte>, ep: Endpoint, len: nat, outcome: Outcome)

  datatype UsbError =
    | OpenFailed
    | Timeout
    | TouchWaitSilent
    | UsbCancelled
    | ShortRead(data: seq<byte>)
    | Disconnected
    | Other

  datatype WorkerError =
    | Usb(usb: UsbError)
    | ProtoFailed(proto: ProtoError)
    | StoreFailed(store: StoreError)
    | Busy
    | Unclaimed
    | BadFingerName(finger: string)
    | NoPrints(user: string)
    | NotEnrolledFinger(finger: string)
    | AlreadyEnrolled(finger: string)
    | EnrollFailed(enroll: EnrollError)
    | Cancelled

  type Verdict = Result<(), WorkerError>

  // ---------- state ----------

  /**
   * The worker with everything it touches. Handles are numbered in opening order; `host` scripts
   * whether each device open, store load and store save succeeds (an exhausted one succeeds).
   */
  datatype W = W(
    usb: Option<nat>, openings: nat, claimed: Option<string>, armed: bool, firmware: Option<(byte, byte)>,
    flagClaimed: bool, flagUser: Option<string>, busy: bool,
    file: Prints, script: seq<Outcome>, host: seq<bool>, wire: seq<Exchange>)

  function Pop<T>(s: seq<T>): seq<T> {
    if s == [] then [] else s[1..]
  }

  function HostSays(w: W): bool {
    w.host == [] || w.host[0]
  }

  function HostDone(w: W): W {
    w.(host := Pop(w.host))
  }

  function NextOutcome(w: W): Outcome {
    if w.script == [] then Silence else w.script[0]
  }

  function Delivered(o: Outcome): Result<seq<byte>, UsbError> {
    match o
    case Reply(data) => Success(data)
    case Short(data) => Failure(ShortRead(data))
    case Silence => Failure(Timeout)
    case Gone => Failure(Disconnected)
    case Interrupted => Failure(UsbCancelled)
    case CancelWins => Failure(UsbCancelled)
    case Fault => Failure(Other)
  }

  /** Transport::cmd on the held handle. */
  function Transfer(w: W, out: seq<byte>, ep: Endpoint, len: nat): (W, Result<seq<byte>, UsbError>)
    requires w.usb.Some?
  {
    var o := NextOutcome(w);
    (w.(script := Pop(w.script), wire := w.wire + [Exchange(w.usb.value, out, ep, len, o)]), Delivered(o))
  }

  /** A command under a fresh token: no cancellation, a short read is an error. */
  function Ask(w: W, c: Command): (W, Result<seq<byte>, WorkerError>) {
    if w.usb.None? then (w, Failure(Unclaimed))
    else
      var (w1, r) := Transfer(w, Encode(c), StatusIn, ExpectedLen(c));
      (w1, match r case Success(raw) => Success(raw) case Failure(e) => Failure(Usb(e)))
  }

  function DropHandle(w: W): W {
    w.(usb := None, armed := false)
  }

  /** round(): cancellable, and a short read is data. */
  function Round(w: W, out: seq<byte>, ep: Endpoint, len: nat): (r: (W, Result<seq<byte>, WorkerError>))
    ensures r.1.Success? ==> |r.0.script| < |w.script|
  {
    if w.usb.None? then (w, Failure(Unclaimed))
    else if w.script != [] && w.script[0] == CancelWins then (w.(script := Pop(w.script)), Failure(Cancelled))
    else
      var (w1, r) := Transfer(w, out, ep, len);
      match r
      case Success(raw) => (w1, Success(raw))
      case Failure(ShortRead(data)) => (w1, Success(data))
      case Failure(UsbCancelled) => (w1, Failure(Cancelled))
      case Failure(Timeout) => (w1, Failure(Usb(if ep == TouchWait then TouchWaitSilent else Timeout)))
      case Failure(Disconnected) => (DropHandle(w1), Failure(Usb(Disconnected)))
      case Failure(e) => (w1, Failure(Usb(e)))
  }

  // ---------- claim, release, sleep ----------

  function SendArm(w: W): (W, Result<byte, WorkerError>) {
    var (w1, r) := Ask(w, EnrolledNum);
    match r
    case Failure(e) => (w1, Failure(e))
    case Success(raw) =>
      match Parse(EnrolledNum, raw)
      case Success(CountIs(count)) => (w1, Success(count))
      case Success(_) => (w1, Failure(EnrollFailed(UnexpectedReply)))
      case Failure(e) => (w1, Failure(ProtoFailed(e)))
  }

  function ReadFirmware(w: W): (W, Option<(byte, byte)>) {
    var (w1, r) := Ask(w, FwVersion);
    match r
    case Failure(_) => (w1, None)
    case Success(raw) =>
      match Parse(FwVersion, raw)
      case Success(FwVersionIs(major, minor)) => (w1, Some((major, minor)))
      case _ => (w1, None)
  }

  function AbortSession(w: W): W {
    Ask(w, Command.Abort).0
  }

  function OpenHandle(w: W): (W, bool) {
    if w.usb.Some? then (w, true)
    else
      var w1 := HostDone(w);
      if HostSays(w) then (w1.(usb := Some(w.openings), openings := w.openings + 1), true) else (w1, false)
  }

  function Claim(w: W, user: string): (W, Verdict) {
    if w.busy || (w.claimed.Some? && w.claimed.value != user) then (w, Failure(Busy))
    else
      var (w1, open) := OpenHandle(w);
      if !open then (w1, Failure(Usb(OpenFailed)))
      else
        var w2 := if w1.firmware.Some? then w1 else var (f, fw) := ReadFirmware(w1); f.(firmware := fw);
        var (w3, count) := SendArm(w2);
        match count
        case Failure(e) => (w3, Failure(e))
        case Success(_) =>
          (w3.(armed := true, flagUser := Some(user), claimed := Some(user), flagClaimed := true), Success(()))
  }

  function Release(w: W): W {
    AbortSession(w).(armed := false, claimed := None, flagUser := None, flagClaimed := false)
  }

  function Suspend(w: W): W {
    DropHandle(AbortSession(w))
  }

  function Resume(w: W): W {
    DropHandle(w)
  }

  function List(w: W, user: string): (W, Result<seq<string>, WorkerError>) {
    var w1 := HostDone(w);
    if !HostSays(w) then (w1, Failure(StoreFailed(Io)))
    else if user in w.file && w.file[user] != map[] then (w1, Success(Names.Sorted(w.file[user].Keys)))
    else (w1, Failure(NoPrints(user)))
  }

  // ---------- delete ----------

  function StatusCode(s: Status): byte {
    match s
    case Ok(b) => b
    case Again(_) => 0xfe
    case MaxEnrolled => 0xdd
    case NotEnrolled => 0xfd
    case Unknown(b) => b
  }

  /** What the reply to an erase says of it. */
  function EraseVerdict(c: Command, r: Result<seq<byte>, WorkerError>): Verdict
    requires c.Delete?
  {
    match r
    case Failure(e) => Failure(e)
    case Success(raw) =>
      match Parse(c, raw)
      case Failure(e) => Failure(ProtoFailed(e))
      case Success(DeleteIs(_, status)) =>
        if status != Ok(0) then Failure(EnrollFailed(Device(DeleteCmd, StatusCode(status)))) else Success(())
      case Success(_) => Failure(EnrollFailed(UnexpectedReply))
  }

  /** Load the file again, remove, save. */
  function DropEntry(w: W, user: string, finger: string): (W, Verdict) {
    var w1 := HostDone(w);
    if !HostSays(w) then (w1, Failure(StoreFailed(Io)))
    else
      var w2 := HostDone(w1);
      if !HostSays(w1) then (w2, Failure(StoreFailed(Io)))
      else (w2.(file := Removed(w1.file, user, finger)), Success(()))
  }

  function DeleteFinger(w: W, user: string, finger: string): (W, Verdict) {
    if !IsValidFinger(finger) then (w, Failure(BadFingerName(finger)))
    else
      var w1 := HostDone(w);
      if !HostSays(w) then (w1, Failure(StoreFailed(Io)))
      else if !IsMapped(w.file, user, finger) then (w1, Failure(NotEnrolledFinger(finger)))
      else
        var c := Delete(w.file[user][finger]);
        var (w2, r) := Ask(w1, c);
        var erased := EraseVerdict(c, r);
        if erased.Failure? then (w2, erased) else DropEntry(w2, user, finger)
  }

  function DeleteEach(w: W, user: string, fingers: seq<string>): (W, Verdict)
    decreases fingers
  {
    if fingers == [] then (w, Success(()))
    else
      var (w1, r) := DeleteFinger(w, user, fingers[0]);
      match r
      case Failure(e) => (w1, Failure(e))
      case Success(_) => DeleteEach(w1, user, fingers[1..])
  }

  /** delete_enrolled_fingers in main.rs: list, then one erase per finger, stopping at the first failure. */
  function DeleteAll(w: W, user: string): (W, Verdict) {
    var (w1, fingers) := List(w, user);
    match fingers
    case Failure(e) => (w1, Failure(e))
    case Success(names) => DeleteEach(w1, user, names)
  }

  // ---------- events ----------

  datatype OpEvent =
    | EnrollStatus(enrolled: EnrollText, done: bool)
    | VerifyStatus(verified: VerifyText, done: bool)
    | VerifyFingerSelected(finger: string)

  predicate IsTerminal(e: OpEvent) {
    !e.VerifyFingerSelected? && e.done
  }

  datatype OpKind = EnrollOp | VerifyOp

  datatype Sink = Sink(kind: OpKind, terminalSent: bool, log: seq<OpEvent>)

  function Emit(s: Sink, e: OpEvent): Sink {
    s.(terminalSent := s.terminalSent || IsTerminal(e), log := s.log + [e])
  }

  function EnrollTerminal(e: WorkerError): EnrollText {
    match e
    case EnrollFailed(inner) => EnrollFailure(inner)
    case Usb(Disconnected) => EDisconnected
    case AlreadyEnrolled(_) => EDuplicate
    case _ => EFailed
  }

  function VerifyTerminal(e: WorkerError): VerifyText {
    match e
    case Usb(Disconnected) => VDisconnected
    case NoPrints(_) => VNoMatch
    case NotEnrolledFinger(_) => VNoMatch
    case _ => VUnknownError
  }

  function ClosingEvent(kind: OpKind, r: Verdict): OpEvent {
    match kind
    case EnrollOp => EnrollStatus(match r case Failure(e) => EnrollTerminal(e) case Success(_) => EUnknownError, true)
    case VerifyOp => VerifyStatus(match r case Failure(e) => VerifyTerminal(e) case Success(_) => VUnknownError, true)
  }

  function Close(s: Sink, r: Verdict): Sink {
    if s.terminalSent then s else Emit(s, ClosingEvent(s.kind, r))
  }

  /** What verify and enroll do after their inner body: on an error abort and disarm, then close. */
  function Finish(w: W, s: Sink, r: Verdict): (W, Sink, Verdict) {
    (if r.Failure? then AbortSession(w).(armed := false) else w, Close(s, r), r)
  }

  // ---------- verify ----------

  const ANY := "any"

  /** Slots this claim may be authenticated by, under the name each is reported by. */
  function Allowed(mine: Fingers, finger: string): Result<map<byte, string>, WorkerError> {
    if finger == ANY then Success(map slot | slot in mine.Values :: NameOf(mine, slot))
    else if finger in mine then Success(map[mine[finger] := finger])
    else Failure(NotEnrolledFinger(finger))
  }

  /** The events of one decided touch, and whether the op is over. */
  function Announce(s: Sink, allowed: map<byte, string>, status: Status): (Sink, bool) {
    var outcome := ClassifyVerify(status);
    var done := !(outcome.Success? && outcome.value.TryAgain?);
    match outcome
    case Success(Match(id)) =>
      if id in allowed then
        (Emit(Emit(s, VerifyFingerSelected(allowed[id])), VerifyStatus(VerifyStatusText(status), done)), done)
      else (Emit(s, VerifyStatus(VNoMatch, done)), done)
    case _ => (Emit(s, VerifyStatus(VerifyStatusText(status), done)), done)
  }

  function VerifyLoop(w: W, allowed: map<byte, string>, s: Sink): (W, Sink, Verdict)
    decreases |w.script|
  {
    var (w1, r) := Round(w, Encode(Verify), TouchWait, 2);
    match r
    case Failure(e) => (w1, s, Failure(e))
    case Success(raw) =>
      match Parse(Verify, raw)
      case Failure(e) => (w1, s, Failure(ProtoFailed(e)))
      case Success(VerifyIs(_, status)) =>
        var (s1, done) := Announce(s, allowed, status);
        if done then (w1, s1, Success(())) else VerifyLoop(w1, allowed, s1)
      case Success(_) => (w1, Emit(s, VerifyStatus(VUnknownError, true)), Success(()))
  }

  /** The slots a verify is allowed to accept, or why it is refused before any touch. */
  function Admit(w: W, finger: string): (W, Result<map<byte, string>, WorkerError>) {
    if w.claimed.None? then (w, Failure(Unclaimed))
    else if finger != ANY && !IsValidFinger(finger) then (w, Failure(BadFingerName(finger)))
    else
      var w1 := HostDone(w);
      var user := w.claimed.value;
      if !HostSays(w) then (w1, Failure(StoreFailed(Io)))
      else if user !in w.file || w.file[user] == map[] then (w1, Failure(NoPrints(user)))
      else (w1, Allowed(w.file[user], finger))
  }

  function VerifyInner(w: W, finger: string, s: Sink): (W, Sink, Verdict) {
    var (w1, arm) := if w.armed then (w, Success(0 as byte)) else SendArm(w);
    match arm
    case Failure(e) => (w1, s, Failure(e))
    case Success(_) =>
      var (w2, allowed) := Admit(w1.(armed := true), finger);
      match allowed
      case Failure(e) => (w2, s, Failure(e))
      case Success(slots) => VerifyLoop(w2, slots, s)
  }

  function Verifying(w: W, finger: string): (W, Sink, Verdict) {
    var (w1, s, r) := VerifyInner(w, finger, Sink(VerifyOp, false, []));
    Finish(w1, s, r)
  }

  // ---------- enroll ----------

  function PickSlot(w: W, candidates: seq<byte>): (W, Result<byte, WorkerError>)
    decreases candidates
  {
    if candidates == [] then (w, Failure(EnrollFailed(SlotLimit)))
    else
      var c := FingerInfo(candidates[0]);
      var (w1, r) := Round(w, Encode(c), StatusIn, ExpectedLen(c));
      match r
      case Failure(e) => (w1, Failure(e))
      case Success(raw) =>
        match Parse(c, raw)
        case Success(SlotIs(_, Enrolled(_))) => PickSlot(w1, candidates[1..])
        case _ => (w1, Success(candidates[0]))
  }

  function FreeSlot(w: W): (W, Result<byte, WorkerError>) {
    var (w1, count) := SendArm(w);
    match count
    case Failure(e) => (w1, Failure(e))
    case Success(n) =>
      var w2 := HostDone(w1.(armed := true));
      if !HostSays(w1) then (w2, Failure(StoreFailed(Io)))
      else PickSlot(w2, WritableSlots(n, TrackedSlots(w2.file)))
  }

  ghost function Record(w: W, s: Sink, user: string, finger: string, id: byte): (W, Sink, Verdict) {
    var w1 := HostDone(w);
    if !HostSays(w) then (w1, s, Failure(StoreFailed(Io)))
    else
      var fault := InsertFault(w1.file, user, finger, id);
      if fault.Some? then (w1, s, Failure(StoreFailed(fault.value)))
      else
        var w2 := HostDone(w1);
        if !HostSays(w1) then (w2, s, Failure(StoreFailed(Io)))
        else
          (w2.(file := Inserted(w1.file, user, finger, id)), Emit(s, EnrollStatus(ECompleted, true)), Success(()))
  }

  ghost function EnrollLoop(w: W, sm: Machine, out: seq<byte>, user: string, finger: string, s: Sink)
    : (W, Sink, Verdict)
    decreases |w.script|, 0
  {
    match PendingCommand(sm)
    case None => (w, s, Failure(EnrollFailed(UnexpectedReply)))
    case Some(c) =>
      var (w1, r) := Round(w, out, ReplyEndpoint(c), ExpectedLen(c));
      match r
      case Failure(e) => (w1, s, Failure(e))
      case Success(raw) =>
        var (sm1, action) := Step(sm, raw);
        match action
        case EmitProgress(_, _) => Resend(w1, sm1, user, finger, Emit(s, EnrollStatus(EStagePassed, false)))
        case EmitRetry(hint) => Resend(w1, sm1, user, finger, Emit(s, EnrollStatus(EnrollRetry(hint), false)))
        case Send(next) => EnrollLoop(w1, sm1, next, user, finger, s)
        case Complete(id) => Record(w1, s, user, finger, id)
        case Fail(e) => (w1, s, Failure(EnrollFailed(e)))
  }

  /** take_send, then round again. */
  ghost function Resend(w: W, sm: Machine, user: string, finger: string, s: Sink): (W, Sink, Verdict)
    decreases |w.script|, 1
  {
    match TakeSend(sm)
    case (sm1, Some(next)) => EnrollLoop(w, sm1, next, user, finger, s)
    case (_, None) => (w, s, Failure(EnrollFailed(UnexpectedReply)))
  }

  ghost function EnrollInner(w: W, finger: string, stages: Stages, s: Sink): (W, Sink, Verdict) {
    if w.claimed.None? then (w, s, Failure(Unclaimed))
    else if !IsValidFinger(finger) then (w, s, Failure(BadFingerName(finger)))
    else
      var w1 := HostDone(w);
      var user := w.claimed.value;
      if !HostSays(w) then (w1, s, Failure(StoreFailed(Io)))
      else if IsMapped(w.file, user, finger) then (w1, s, Failure(AlreadyEnrolled(finger)))
      else
        var (w2, slot) := FreeSlot(w1);
        match slot
        case Failure(e) => (w2, s, Failure(e))
        case Success(id) =>
          match Start(WithTotal(id, stages))
          case (sm, Send(out)) => EnrollLoop(w2, sm, out, user, finger, s)
          case (_, _) => (w2, s, Failure(EnrollFailed(UnexpectedReply)))
  }

  ghost function Enrolling(w: W, finger: string, stages: Stages): (W, Sink, Verdict) {
    var (w1, s, r) := EnrollInner(w, finger, stages, Sink(EnrollOp, false, []));
    Finish(w1, s, r)
  }

  // ---------- tokens ----------

  /** try_begin: the busy flag it leaves, and whether the op may start. */
  function TryBegin(claimed: bool, busy: bool): (bool, Verdict) {
    if !claimed then (busy, Failure(Unclaimed))
    else if busy then (busy, Failure(Busy))
    else (true, Success(()))
  }

  ghost function Performed(w: W, kind: OpKind, finger: string, stages: Stages): W {
    match kind
    case VerifyOp => Verifying(w, finger).0
    case EnrollOp => Enrolling(w, finger, stages).0
  }

  // ---------- whole runs ----------

  /** One worker call together with the environment it meets. */
  datatype Call =
    | DoClaim(user: string)
    | DoRelease
    | DoSuspend
    | DoResume
    | DoVerify(finger: string)
    | DoEnroll(finger: string)
    | DoDelete(user: string, finger: string)

  datatype Step1 = Step1(call: Call, script: seq<Outcome>, host: seq<bool>)

  ghost function After(w: W, call: Call, stages: Stages): (W, Verdict) {
    match call
    case DoClaim(user) => Claim(w, user)
    case DoRelease => (Release(w), Success(()))
    case DoSuspend => (Suspend(w), Success(()))
    case DoResume => (Resume(w), Success(()))
    case DoVerify(finger) => var (w1, _, r) := Verifying(w, finger); (w1, r)
    case DoEnroll(finger) => var (w1, _, r) := Enrolling(w, finger, stages); (w1, r)
    case DoDelete(user, finger) => DeleteFinger(w, user, finger)
  }

  ghost function RunStep(w: W, s: Step1, stages: Stages): (W, Verdict) {
    After(w.(script := s.script, host := s.host), s.call, stages)
  }

  ghost function Run(w: W, steps: seq<Step1>, stages: Stages): W {
    if steps == [] then w else RunStep(Run(w, steps[..|steps| - 1], stages), steps[|steps| - 1], stages).0
  }

  function Fresh(file: Prints): W {
    W(None, 0, None, false, None, false, None, false, file, [], [], [])
  }
}
