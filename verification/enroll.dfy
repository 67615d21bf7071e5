/** The enrolment state machine (crates/elanprint-proto/src/enroll.rs). */
module EnrollMachine {
  import opened Core
  import opened Proto

  datatype EnrollError =
    | SlotLimit
    | Collision(id: byte)
    | Device(during: CommandName, code: byte)
    | UnexpectedReply
    | Malformed(cause: ProtoError)

  datatype EnrollState =
    | Idle
    | Started(slot: byte)
    | AwaitingTouch(collected: byte, needed: byte)
    | Committing
    | Done(templateId: byte)
    | Failed

  datatype EnrollAction =
    | Send(out: seq<byte>)
    | EmitProgress(done: byte, total: byte)
    | EmitRetry(hint: Retry)
    | Complete(id: byte)
    | Fail(error: EnrollError)

  datatype Pending = Sample | CollisionCheck | CommitWrite

  /** The value of an Enroll object. */
  datatype Machine = Machine(slot: byte, needed: byte, collected: byte, pending: Option<Pending>,
                             sendBuf: Option<seq<byte>>, state: EnrollState)

  function WithTotal(slot: byte, total: byte): Machine {
    Machine(slot, total, 0, None, None, Idle)
  }

  function CommandOf(m: Machine, p: Pending): (c: Command)
    ensures WellFormed(c)
  {
    match p
    case Sample => Command.Enroll(m.slot, m.needed, m.collected)
    case CollisionCheck => CheckCollision
    case CommitWrite => CommitFor(SubId(m.slot))
  }

  function PendingCommand(m: Machine): (c: Option<Command>)
    ensures c.Some? <==> m.pending.Some?
  {
    match m.pending
    case None => None
    case Some(p) => Some(CommandOf(m, p))
  }

  function Queued(m: Machine, p: Pending, s: EnrollState): Machine {
    m.(pending := Some(p), sendBuf := Some(Encode(CommandOf(m, p))), state := s)
  }

  function Failing(m: Machine, e: EnrollError): (Machine, EnrollAction) {
    (m.(pending := None, sendBuf := None, state := Failed), Fail(e))
  }

  /** start(): the first counter on the wire is 0 whatever `collected` holds. */
  function Start(m: Machine): (Machine, EnrollAction) {
    var out := Encode(Command.Enroll(m.slot, m.needed, 0));
    (m.(pending := Some(Sample), sendBuf := Some(out), state := Started(m.slot)), Send(out))
  }

  function TakeSend(m: Machine): (Machine, Option<seq<byte>>) {
    (m.(sendBuf := None), m.sendBuf)
  }

  function StepSample(m: Machine, input: seq<byte>): (Machine, EnrollAction) {
    match Parse(CommandOf(m, Sample), input)
    case Failure(e) => Failing(m, Malformed(e))
    case Success(SampleIs(_, status)) =>
      (match status
       case Ok(code) =>
         if code != 0 then Failing(m, Device(EnrollCmd, code))
         else
           var m1 := m.(collected := (m.collected + 1) % 256);
           var next := if m1.collected >= m.needed then CollisionCheck else Sample;
           (Queued(m1, next, AwaitingTouch(m1.collected, m.needed)), EmitProgress(m1.collected, m.needed))
       case Again(r) => (Queued(m, Sample, m.state), EmitRetry(r))
       case MaxEnrolled => Failing(m, SlotLimit)
       case NotEnrolled => Failing(m, Device(EnrollCmd, 0xfd))
       case Unknown(b) => Failing(m, Device(EnrollCmd, b)))
    case Success(_) => Failing(m, UnexpectedReply)
  }

  function StepCollision(m: Machine, input: seq<byte>): (Machine, EnrollAction) {
    match Parse(CheckCollision, input)
    case Failure(e) => Failing(m, Malformed(e))
    case Success(CollisionIs(_, Some(id))) => Failing(m, Collision(id))
    case Success(CollisionIs(_, None)) =>
      (Queued(m, CommitWrite, Committing), Send(Encode(CommandOf(m, CommitWrite))))
    case Success(_) => Failing(m, UnexpectedReply)
  }

  function RetryCode(r: Retry): byte {
    match r
    case MoveDown => 0x41
    case MoveRight => 0x42
    case MoveUp => 0x43
    case MoveLeft => 0x44
    case Dirty => 0xfb
    case AreaTooSmall => 0xfe
  }

  function StepCommit(m: Machine, input: seq<byte>): (Machine, EnrollAction) {
    match Parse(CommandOf(m, CommitWrite), input)
    case Failure(e) => Failing(m, Malformed(e))
    case Success(CommitIs(_, status)) =>
      (match status
       case Ok(code) =>
         if code != 0 then Failing(m, Device(CommitCmd, code))
         else (m.(pending := None, sendBuf := None, state := Done(m.slot)), Complete(m.slot))
       case Again(r) => Failing(m, Device(CommitCmd, RetryCode(r)))
       case MaxEnrolled => Failing(m, SlotLimit)
       case NotEnrolled => Failing(m, Device(CommitCmd, 0xfd))
       case Unknown(b) => Failing(m, Device(CommitCmd, b)))
    case Success(_) => Failing(m, UnexpectedReply)
  }

  function Step(m: Machine, input: seq<byte>): (Machine, EnrollAction) {
    match m.pending
    case Some(Sample) => StepSample(m, input)
    case Some(CollisionCheck) => StepCollision(m, input)
    case Some(CommitWrite) => StepCommit(m, input)
    case None => Failing(m, UnexpectedReply)
  }

  // ---------- the language the machine recognises ----------

  /** The machine after one start and these replies. */
  ghost function Feed(slot: byte, n: byte, replies: seq<seq<byte>>): Machine {
    if replies == [] then Start(WithTotal(slot, n)).0
    else Step(Feed(slot, n, replies[..|replies| - 1]), replies[|replies| - 1]).0
  }

  ghost function Accepted(replies: seq<seq<byte>>): nat {
    if replies == [] then 0
    else Accepted(replies[..|replies| - 1]) + if IsZero(replies[|replies| - 1]) then 1 else 0
  }

  /** Only accepted samples and requests to touch again. */
  ghost predicate Sampling(replies: seq<seq<byte>>) {
    forall i :: 0 <= i < |replies| ==> IsZero(replies[i]) || IsRetry(replies[i])
  }

  /** Sampling that has just accepted its n-th touch. */
  ghost predicate Sampled(replies: seq<seq<byte>>, n: byte) {
    |replies| > 0 && Sampling(replies) && Accepted(replies) == n && IsZero(replies[|replies| - 1])
  }

  /** All samples taken and the collision check clear: the commit gate is open. */
  ghost predicate GateOpen(replies: seq<seq<byte>>, n: byte) {
    |replies| > 0 && Sampled(replies[..|replies| - 1], n) && IsClear(replies[|replies| - 1])
  }

  /** n zero-status samples among any retries, a clear collision check, a zero-status commit. */
  ghost predicate Language(replies: seq<seq<byte>>, n: byte) {
    |replies| > 0 && GateOpen(replies[..|replies| - 1], n) && IsZero(replies[|replies| - 1])
  }

  /** What one step does, told by the shape of the reply. */
  ghost predicate Moves(m: Machine, input: seq<byte>, m': Machine, action: EnrollAction) {
    && m'.slot == m.slot && m'.needed == m.needed
    && match m.pending
       case Some(Sample) =>
         if IsZero(input) then
           && m'.collected == (m.collected + 1) % 256
           && m'.pending == Some(if m'.collected >= m.needed then CollisionCheck else Sample)
           && m'.state.AwaitingTouch? && action == EmitProgress(m'.collected, m.needed)
         else if IsRetry(input) then
           m'.collected == m.collected && m'.pending == m.pending && m'.state == m.state && action.EmitRetry?
         else m'.pending == None && m'.state == Failed && action.Fail?
       case Some(CollisionCheck) =>
         if IsClear(input) then
           m'.collected == m.collected && m'.pending == Some(CommitWrite) && m'.state == Committing && action.Send?
         else m'.pending == None && m'.state == Failed && action.Fail?
       case Some(CommitWrite) =>
         if IsZero(input) then m'.pending == None && m'.state == Done(m.slot) && action == Complete(m.slot)
         else m'.pending == None && m'.state == Failed && action.Fail?
       case None => m'.pending == None && m'.state == Failed && action.Fail?
  }

  lemma StepMoves(m: Machine, input: seq<byte>)
    ensures Moves(m, input, Step(m, input).0, Step(m, input).1)
  {
  }

  /** Why a reply fails the dialogue, and which touch it asks for again, told by its bytes. */
  ghost predicate FailsWith(p: Pending, input: seq<byte>, e: EnrollError) {
    match p
    case CollisionCheck =>
      e == if |input| == 3 then Collision(input[2]) else Malformed(UnexpectedLength(3, |input|))
    case _ =>
      e == if |input| != 2 then Malformed(UnexpectedLength(2, |input|))
           else if input[1] == 0xdd then SlotLimit
           else Device(if p == Sample then EnrollCmd else CommitCmd, input[1])
  }

  lemma StepFailsWith(m: Machine, input: seq<byte>)
    ensures
      var action := Step(m, input).1;
      && (action.Fail? && m.pending.Some? ==> FailsWith(m.pending.value, input, action.error))
      && (action.Fail? && m.pending.None? ==> action.error == UnexpectedReply)
      && (action.EmitRetry? ==> RetryCode(action.hint) == input[1])
  {
  }

  /** Whatever is pending after a step is also what is queued for sending. */
  ghost predicate BufferHoldsPending(m: Machine) {
    m.sendBuf == match m.pending case None => None case Some(p) => Some(Encode(CommandOf(m, p)))
  }

  lemma StepQueuesPending(m: Machine, input: seq<byte>)
    ensures BufferHoldsPending(Step(m, input).0)
  {
  }

  /** The phase of the machine, read off the replies alone. */
  ghost predicate InPhase(m: Machine, slot: byte, n: byte, replies: seq<seq<byte>>) {
    && m.slot == slot && m.needed == n
    && (m.pending == Some(Sample) <==> Sampling(replies) && Accepted(replies) < n)
    && (m.pending == Some(CollisionCheck) <==> Sampled(replies, n))
    && (m.pending == Some(CommitWrite) <==> GateOpen(replies, n))
    && (m.state.Done? <==> Language(replies, n))
    && (m.state.Done? ==> m.pending == None && m.state == Done(slot))
    && (m.pending == Some(Sample) || m.pending == Some(CollisionCheck) ==> m.collected == Accepted(replies))
  }

  lemma PhaseAdvances(m: Machine, m': Machine, action: EnrollAction, slot: byte, n: byte,
                      before: seq<seq<byte>>, last: seq<byte>)
    requires n >= 1 && InPhase(m, slot, n, before) && Moves(m, last, m', action)
    ensures InPhase(m', slot, n, before + [last])
  {
  }

  /** Every phase of the machine is decided by the replies alone. */
  lemma {:induction false} Recognises(slot: byte, n: byte, replies: seq<seq<byte>>)
    requires n >= 1
    ensures InPhase(Feed(slot, n, replies), slot, n, replies)
    ensures BufferHoldsPending(Feed(slot, n, replies))
  {
    if replies != [] {
      var before, last := replies[..|replies| - 1], replies[|replies| - 1];
      Recognises(slot, n, before);
      var m := Feed(slot, n, before);
      StepMoves(m, last);
      StepQueuesPending(m, last);
      PhaseAdvances(m, Step(m, last).0, Step(m, last).1, slot, n, before, last);
      assert before + [last] == replies;
    }
  }

  /** Started once with n >= 1, the machine answers Complete to exactly the language. */
  lemma CompletesExactlyOnLanguage(slot: byte, n: byte, before: seq<seq<byte>>, last: seq<byte>)
    requires n >= 1
    ensures Step(Feed(slot, n, before), last).1.Complete? <==> Language(before + [last], n)
    ensures Step(Feed(slot, n, before), last).1.Complete? ==> Step(Feed(slot, n, before), last).1 == Complete(slot)
  {
    Recognises(slot, n, before);
    StepMoves(Feed(slot, n, before), last);
    assert (before + [last])[..|before|] == before;
  }

  /** Commit bytes are queued on exactly the prefixes that opened the gate. */
  lemma CommitQueuedExactlyBehindGate(slot: byte, n: byte, replies: seq<seq<byte>>)
    requires n >= 1
    ensures Feed(slot, n, replies).sendBuf == Some(Encode(CommitFor(SubId(slot)))) <==> GateOpen(replies, n)
    ensures Feed(slot, n, replies).sendBuf.Some? && IsCommit(Feed(slot, n, replies).sendBuf.value)
      ==> GateOpen(replies, n)
  {
    hide Feed, Encode;
    Recognises(slot, n, replies);
    var m := Feed(slot, n, replies);
    if m.pending.Some? {
      EncodeRoundTrip(CommandOf(m, m.pending.value));
    }
    EncodeRoundTrip(CommitFor(SubId(slot)));
  }

  /** While samples are wanted, the queued one carries the number accepted so far. */
  lemma SampleCarriesAcceptedCount(slot: byte, n: byte, replies: seq<seq<byte>>)
    requires n >= 1 && Sampling(replies) && Accepted(replies) < n
    ensures Feed(slot, n, replies).sendBuf == Some(Encode(Command.Enroll(slot, n, Accepted(replies))))
  {
    Recognises(slot, n, replies);
  }

  /** With at least one stage the u8 counter never wraps: it is the number of accepted samples. */
  lemma CounterNeverOverflows(slot: byte, n: byte, before: seq<seq<byte>>, last: seq<byte>)
    requires n >= 1
    ensures
      var m := Feed(slot, n, before);
      m.pending == Some(Sample) && IsZero(last) ==> Step(m, last).0.collected == Accepted(before) + 1 <= n
  {
    hide Feed, Step, Encode;
    Recognises(slot, n, before);
    StepMoves(Feed(slot, n, before), last);
  }

  /** Completing is not absorbing: one reply more and the machine reports failure. */
  lemma DoneIsNotAbsorbing(slot: byte, n: byte, replies: seq<seq<byte>>, extra: seq<byte>)
    requires n >= 1 && Language(replies, n)
    ensures Step(Feed(slot, n, replies), extra).1 == Fail(UnexpectedReply)
    ensures Feed(slot, n, replies + [extra]).state == Failed
  {
    hide StepSample, StepCollision, StepCommit, Language;
    Recognises(slot, n, replies);
    assert (replies + [extra])[..|replies|] == replies;
  }

  /** A step never looks at the resend buffer. */
  lemma StepIgnoresBuffer(m: Machine, buf: Option<seq<byte>>, input: seq<byte>)
    ensures Step(m.(sendBuf := buf), input) == Step(m, input)
  {
    var m' := m.(sendBuf := buf);
    assert m.pending == Some(Sample) ==> CommandOf(m', Sample) == CommandOf(m, Sample);
  }
}
