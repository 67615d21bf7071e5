/** The Enroll object, updated in place as the source does, against its specification functions. */
module EnrollObject {
  import opened Core
  import opened Proto
  import Machines = EnrollMachine
  import opened EnrollMachine

  /** One reply more: the machine in hand steps as the machine that heard them all. */
  lemma Hears(m: Machine, heard: seq<seq<byte>>, input: seq<byte>)
    requires m.(sendBuf := None) == Feed(m.slot, m.needed, heard).(sendBuf := None)
    ensures
      var (m', action) := Machines.Step(m, input);
      && m' == Feed(m.slot, m.needed, heard + [input])
      && (m.needed >= 1 ==> (action.Complete? <==> Language(heard + [input], m.needed)))
  {
    hide Machines.Step, Language;
    var f := Feed(m.slot, m.needed, heard);
    StepIgnoresBuffer(m, None, input);
    StepIgnoresBuffer(f, None, input);
    assert (heard + [input])[..|heard|] == heard;
    if m.needed >= 1 {
      CompletesExactlyOnLanguage(m.slot, m.needed, heard, input);
    }
  }

  class Enroll {
    const slot: byte
    const needed: byte
    var collected: byte
    var pending: Option<Pending>
    var sendBuf: Option<seq<byte>>
    var state: EnrollState
    ghost var heard: Option<seq<seq<byte>>>   // the replies since the one start, None outside such a dialogue

    function Model(): Machine
      reads this
    {
      Machine(slot, needed, collected, pending, sendBuf, state)
    }

    /** In a dialogue the object is the machine fed its replies, whether or not its buffer was taken. */
    ghost predicate Valid()
      reads this
    {
      heard.Some? ==> Model().(sendBuf := None) == Feed(slot, needed, heard.value).(sendBuf := None)
    }

    constructor WithTotal(slot: byte, total: byte)
      ensures Model() == Machines.WithTotal(slot, total) && Valid() && heard == None
    {
      this.slot, needed := slot, total;
      collected, pending, sendBuf, state := 0, None, None, Idle;
      heard := None;
    }

    method Start() returns (action: EnrollAction)
      modifies this
      ensures (Model(), action) == Machines.Start(old(Model()))
      ensures Valid() && heard == if collected == 0 then Some([]) else None
    {
      heard := if collected == 0 then Some([]) else None;
      pending := Some(Sample);
      state := Started(slot);
      action := Queue(Command.Enroll(slot, needed, 0));
    }

    method Queue(c: Command) returns (action: EnrollAction)
      modifies this`sendBuf
      ensures sendBuf == Some(Encode(c)) && action == Send(Encode(c))
    {
      var out := Encode(c);
      sendBuf := Some(out);
      action := Send(out);
    }

    method TakeSend() returns (out: Option<seq<byte>>)
      requires Valid()
      modifies this`sendBuf
      ensures Valid()
      ensures (Model(), out) == Machines.TakeSend(old(Model()))
    {
      out := sendBuf;
      sendBuf := None;
    }

    method Fail(e: EnrollError) returns (action: EnrollAction)
      modifies this
      ensures heard == old(heard)
      ensures (Model(), action) == Failing(old(Model()), e)
    {
      pending := None;
      sendBuf := None;
      state := Failed;
      action := EnrollAction.Fail(e);
    }

    method Step(input: seq<byte>) returns (action: EnrollAction)
      requires Valid()
      modifies this
      ensures Valid() && heard == if old(heard).Some? then Some(old(heard).value + [input]) else None
      ensures heard.Some? && needed >= 1 ==> (action.Complete? <==> Language(heard.value, needed))
      ensures (Model(), action) == Machines.Step(old(Model()), input)
    {
      hide Machines.StepSample, Machines.StepCollision, Machines.StepCommit, Feed, Language;
      if heard.Some? {
        Hears(Model(), heard.value, input);
        heard := Some(heard.value + [input]);
      }
      match pending {
        case Some(Sample) => action := StepSample(input);
        case Some(CollisionCheck) => action := StepCollision(input);
        case Some(CommitWrite) => action := StepCommit(input);
        case None => action := Fail(UnexpectedReply);
      }
    }

    method StepSample(input: seq<byte>) returns (action: EnrollAction)
      modifies this
      ensures heard == old(heard)
      ensures (Model(), action) == Machines.StepSample(old(Model()), input)
    {
      match Parse(Command.Enroll(slot, needed, collected), input) {
        case Failure(e) => action := Fail(Malformed(e));
        case Success(SampleIs(_, status)) =>
          match status {
            case Ok(code) =>
              if code != 0 {
                action := Fail(Device(EnrollCmd, code));
                return;
              }
              collected := (collected + 1) % 256;
              state := AwaitingTouch(collected, needed);
              if collected >= needed {
                pending := Some(CollisionCheck);
                sendBuf := Some(Encode(CheckCollision));
              } else {
                pending := Some(Sample);
                sendBuf := Some(Encode(Command.Enroll(slot, needed, collected)));
              }
              action := EmitProgress(collected, needed);
            case Again(r) =>
              pending := Some(Sample);
              sendBuf := Some(Encode(Command.Enroll(slot, needed, collected)));
              action := EmitRetry(r);
            case MaxEnrolled => action := Fail(SlotLimit);
            case NotEnrolled => action := Fail(Device(EnrollCmd, 0xfd));
            case Unknown(b) => action := Fail(Device(EnrollCmd, b));
          }
        case Success(_) => action := Fail(UnexpectedReply);
      }
    }

    method StepCollision(input: seq<byte>) returns (action: EnrollAction)
      modifies this
      ensures heard == old(heard)
      ensures (Model(), action) == Machines.StepCollision(old(Model()), input)
    {
      match Parse(CheckCollision, input) {
        case Failure(e) => action := Fail(Malformed(e));
        case Success(CollisionIs(_, Some(id))) => action := Fail(Collision(id));
        case Success(CollisionIs(_, None)) =>
          pending := Some(CommitWrite);
          state := Committing;
          action := Queue(CommitFor(SubId(slot)));
        case Success(_) => action := Fail(UnexpectedReply);
      }
    }

    method StepCommit(input: seq<byte>) returns (action: EnrollAction)
      modifies this
      ensures heard == old(heard)
      ensures (Model(), action) == Machines.StepCommit(old(Model()), input)
    {
      match Parse(CommitFor(SubId(slot)), input) {
        case Failure(e) => action := Fail(Malformed(e));
        case Success(CommitIs(_, status)) =>
          match status {
            case Ok(code) =>
              if code != 0 {
                action := Fail(Device(CommitCmd, code));
                return;
              }
              pending := None;
              sendBuf := None;
              state := Done(slot);
              action := Complete(slot);
            case Again(r) => action := Fail(Device(CommitCmd, RetryCode(r)));
            case MaxEnrolled => action := Fail(SlotLimit);
            case NotEnrolled => action := Fail(Device(CommitCmd, 0xfd));
            case Unknown(b) => action := Fail(Device(CommitCmd, b));
          }
        case Success(_) => action := Fail(UnexpectedReply);
      }
    }
  }
}
