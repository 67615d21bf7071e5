/** The worker object and its op flags, updated in place, against their specification functions. */
module DeviceWorker {
  import opened Core
  import opened Proto
  import opened EnrollMachine
  import opened EnrollObject
  import opened Store
  import opened StoreObject
  import opened DbusStatus
  import opened WorkerSpec
  import opened Arming
  import opened Events
  import opened Outcomes
  import opened VerifyTold
  import opened EnrollTold
  import VerifyGrant
  import Spec = WorkerSpec
  import Names

  lemma VerifyLeaves(w: W, finger: string)
    requires ArmingHolds(w)
    ensures Verifying(w, finger).2 == Failure(Usb(Disconnected)) ==>
              w.usb.Some? && Unplugged(w, Verifying(w, finger).0, VerifyGrant.ArmsFirst(w))
  {
    hide Verifying, Unplugged, VerifyGrant.ArmsFirst;
    if Verifying(w, finger).2 == Failure(Usb(Disconnected)) {
      VerifyUnplugged(w, finger);
    }
  }

  lemma EnrolLeaves(w: W, finger: string, stages: Stages)
    ensures Enrolling(w, finger, stages).2 == Failure(Usb(Disconnected)) ==>
              w.usb.Some? && Unplugged(w, Enrolling(w, finger, stages).0, TwoBytes(First(w.script)))
  {
    hide Enrolling, Unplugged, TwoBytes;
    if Enrolling(w, finger, stages).2 == Failure(Usb(Disconnected)) {
      EnrolUnplugged(w, finger, stages);
    }
  }

  /** Claim and busy flags, shared with callers that do not hold the worker. */
  class OpState {
    var claimed: bool
    var busy: bool
    var user: Option<string>

    constructor ()
      ensures !claimed && !busy && user == None
    {
      claimed, busy, user := false, false, None;
    }

    /** One token at a time, and only under a claim. */
    method TryBegin() returns (r: Result<OpToken, WorkerError>)
      modifies this`busy
      ensures r.Success? <==> claimed && !old(busy)
      ensures r.Success? ==> busy && r.value.state == this
      ensures r.Failure? ==> busy == old(busy) && r.error == (if claimed then Busy else Unclaimed)
      ensures (busy, if r.Success? then Success(()) else Failure(r.error)) == Spec.TryBegin(claimed, old(busy))
    {
      if !claimed {
        return Failure(Unclaimed);
      }
      if busy {
        return Failure(Busy);
      }
      busy := true;
      var token := new OpToken(this);
      return Success(token);
    }
  }

  class OpToken {
    const state: OpState

    constructor (state: OpState)
      ensures this.state == state
    {
      this.state := state;
    }

    method Drop()
      modifies state`busy
      ensures !state.busy
    {
      state.busy := false;
    }
  }

  /** Carries an op's events to the client. */
  class OpSink {
    const kind: OpKind
    var terminalSent: bool
    var log: seq<OpEvent>

    function Model(): Sink
      reads this
    {
      Sink(kind, terminalSent, log)
    }

    constructor (kind: OpKind)
      ensures Model() == Sink(kind, false, [])
    {
      this.kind := kind;
      terminalSent, log := false, [];
    }

    method Emit(e: OpEvent)
      modifies this
      ensures Model() == Spec.Emit(old(Model()), e)
    {
      if IsTerminal(e) {
        terminalSent := true;
      }
      log := log + [e];
    }

    method Close(r: Verdict)
      modifies this
      ensures Model() == Spec.Close(old(Model()), r)
    {
      if terminalSent {
        return;
      }
      Emit(ClosingEvent(kind, r));
    }
  }

  class Worker {
    var usb: Option<nat>
    var claimed: Option<string>
    var armed: bool
    var firmware: Option<(byte, byte)>
    const state: OpState

    // the environment: handles opened so far, the store file, and what transport and host will answer
    var openings: nat
    var file: Prints
    var script: seq<Outcome>
    var host: seq<bool>
    ghost var wire: seq<Exchange>

    ghost function Model(): W
      reads this, state
    {
      W(usb, openings, claimed, armed, firmware, state.claimed, state.user, state.busy, file, script, host, wire)
    }

    /** Armed means an answered handle, every touch-wait was armed, and callers see the claim held. */
    ghost predicate Valid()
      reads this, state
    {
      ArmingHolds(Model()) && ClaimMirrored(Model())
    }

    constructor (file: Prints)
      ensures Model() == Fresh(file) && fresh(state) && Valid()
    {
      usb, claimed, armed, firmware := None, None, false, None;
      state := new OpState();
      openings, this.file, script, host, wire := 0, file, [], [], [];
    }

    method HostCall() returns (ok: bool)
      modifies this`host
      ensures Model() == HostDone(old(Model())) && ok == HostSays(old(Model()))
    {
      ok := host == [] || host[0];
      host := Pop(host);
    }

    method Transfer(out: seq<byte>, ep: Endpoint, len: nat) returns (r: Result<seq<byte>, UsbError>)
      requires usb.Some?
      modifies this`script, this`wire
      ensures (Model(), r) == Spec.Transfer(old(Model()), out, ep, len)
    {
      var o := if script == [] then Silence else script[0];
      script := Pop(script);
      wire := wire + [Exchange(usb.value, out, ep, len, o)];
      r := Delivered(o);
    }

    method Ask(c: Command) returns (r: Result<seq<byte>, WorkerError>)
      modifies this`script, this`wire
      ensures (Model(), r) == Spec.Ask(old(Model()), c)
    {
      if usb.None? {
        return Failure(Unclaimed);
      }
      var answer := Transfer(Encode(c), StatusIn, ExpectedLen(c));
      match answer {
        case Success(raw) => r := Success(raw);
        case Failure(e) => r := Failure(Usb(e));
      }
    }

    method Round(out: seq<byte>, ep: Endpoint, len: nat) returns (r: Result<seq<byte>, WorkerError>)
      modifies this`script, this`wire, this`usb, this`armed
      ensures (Model(), r) == Spec.Round(old(Model()), out, ep, len)
    {
      if usb.None? {
        return Failure(Unclaimed);
      }
      if script != [] && script[0] == CancelWins {
        script := Pop(script);
        return Failure(Cancelled);
      }
      var answer := Transfer(out, ep, len);
      match answer {
        case Success(bytes) => r := Success(bytes);
        case Failure(ShortRead(data)) => r := Success(data);
        case Failure(UsbCancelled) => r := Failure(Cancelled);
        case Failure(Timeout) => r := Failure(Usb(if ep == TouchWait then TouchWaitSilent else Timeout));
        case Failure(e) => r := Failure(Usb(e));
      }
      if r == Failure(Usb(Disconnected)) {
        usb := None;
        armed := false;
      }
    }

    method SendArm() returns (r: Result<byte, WorkerError>)
      modifies this`script, this`wire
      ensures (Model(), r) == Spec.SendArm(old(Model()))
    {
      var answer := Ask(EnrolledNum);
      match answer {
        case Failure(e) => r := Failure(e);
        case Success(raw) =>
          match Parse(EnrolledNum, raw) {
            case Success(CountIs(count)) => r := Success(count);
            case Success(_) => r := Failure(EnrollFailed(UnexpectedReply));
            case Failure(e) => r := Failure(ProtoFailed(e));
          }
      }
    }

    method ReadFirmware() returns (r: Option<(byte, byte)>)
      modifies this`script, this`wire
      ensures (Model(), r) == Spec.ReadFirmware(old(Model()))
    {
      var answer := Ask(FwVersion);
      r := None;
      if answer.Success? {
        match Parse(FwVersion, answer.value) {
          case Success(FwVersionIs(major, minor)) => r := Some((major, minor));
          case _ =>
        }
      }
    }

    method AbortSession()
      modifies this`script, this`wire
      ensures Model() == Spec.AbortSession(old(Model()))
    {
      var _ := Ask(Command.Abort);
    }

    /** The held handle, or a new one. */
    method OpenHandle() returns (ok: bool)
      modifies this`usb, this`openings, this`host
      ensures (Model(), ok) == Spec.OpenHandle(old(Model()))
    {
      if usb.Some? {
        return true;
      }
      ok := HostCall();
      if ok {
        usb := Some(openings);
        openings := openings + 1;
      }
    }

    method Claim(user: string) returns (r: Verdict)
      requires Valid()
      modifies this, state
      ensures Valid() && (r.Success? ==> armed && claimed == Some(user))
      ensures r == Failure(Busy) <==> Taken(old(Model()), user)
      ensures r.Success? <==>
                !Taken(old(Model()), user) && GetsHandle(old(Model())) && TwoBytes(First(ArmScript(old(Model()))))
      ensures (Model(), r) == Spec.Claim(old(Model()), user)
    {
      hide Spec.ReadFirmware, Spec.SendArm, Spec.Ask, Spec.OpenHandle, ArmingHoldsFor, Grew, Taken, GetsHandle,
           ArmScript, TwoBytes, First, ClaimWire, FailsAs;
      ClaimExactly(Model(), user);
      ClaimKeeps(Model(), user);
      ClaimMirrors(Model(), user);
      if state.busy {
        return Failure(Busy);
      }
      if claimed.Some? {
        if claimed.value != user {
          return Failure(Busy);
        }
      }
      var open := OpenHandle();
      if !open {
        return Failure(Usb(OpenFailed));
      }
      if firmware.None? {
        firmware := ReadFirmware();
      }
      var count := SendArm();
      if count.Failure? {
        return Failure(count.error);
      }
      armed := true;
      state.user := Some(user);
      claimed := Some(user);
      state.claimed := true;
      return Success(());
    }

    method Release()
      requires Valid()
      modifies this, state
      ensures Valid() && !armed && claimed == None && AbortedLast(old(Model()), Model())
      ensures Model() == Spec.Release(old(Model()))
    {
      hide Spec.AbortSession, ArmingHoldsFor, Grew, AbortedLast;
      AbortKeeps(Model());
      ReleaseEnds(Model());
      AbortSession();
      armed := false;
      claimed := None;
      state.user := None;
      state.claimed := false;
    }

    method Suspend()
      requires Valid()
      modifies this
      ensures Valid() && usb == None && AbortedLast(old(Model()), Model()) && SameClaim(old(Model()), Model())
      ensures Model() == Spec.Suspend(old(Model()))
    {
      hide Spec.AbortSession, ArmingHoldsFor, Grew, AbortedLast;
      AbortKeeps(Model());
      SuspendEnds(Model());
      DisarmedHolds(Spec.AbortSession(Model()).(armed := false));
      AbortSession();
      usb := None;
      armed := false;
    }

    method Resume()
      requires Valid()
      modifies this
      ensures Valid() && usb == None && SameClaim(old(Model()), Model())
      ensures Model() == Spec.Resume(old(Model()))
    {
      hide ArmingHoldsFor;
      DisarmedHolds(Model());
      usb := None;
      armed := false;
    }

    method List(user: string) returns (r: Result<seq<string>, WorkerError>)
      requires Valid()
      modifies this`host
      ensures Valid()
      ensures (Model(), r) == Spec.List(old(Model()), user)
    {
      var ok := HostCall();
      if !ok {
        return Failure(StoreFailed(Io));
      }
      if user in file && file[user] != map[] {
        return Success(Names.Sorted(file[user].Keys));
      }
      return Failure(NoPrints(user));
    }

    method DeleteFinger(user: string, finger: string) returns (r: Verdict)
      requires Valid()
      modifies this
      ensures Valid()
      ensures (Model(), r) == Spec.DeleteFinger(old(Model()), user, finger)
    {
      hide ArmingHoldsFor, Grew, Parse, Encode, Spec.Ask, Spec.DropEntry;
      DeleteKeeps(Model(), user, finger);
      if !IsValidFinger(finger) {
        return Failure(BadFingerName(finger));
      }
      var ok := HostCall();
      if !ok {
        return Failure(StoreFailed(Io));
      }
      if !IsMapped(file, user, finger) {
        return Failure(NotEnrolledFinger(finger));
      }
      var c := Delete(file[user][finger]);
      var answer := Ask(c);
      if answer.Failure? {
        return Failure(answer.error);
      }
      match Parse(c, answer.value) {
        case Failure(e) => return Failure(ProtoFailed(e));
        case Success(DeleteIs(_, status)) =>
          if status != Ok(0) {
            return Failure(EnrollFailed(Device(DeleteCmd, StatusCode(status))));
          }
        case Success(_) => return Failure(EnrollFailed(UnexpectedReply));
      }
      r := DropEntry(user, finger);
    }

    /** Load the file again, remove the entry, save. */
    method DropEntry(user: string, finger: string) returns (r: Verdict)
      modifies this
      ensures (Model(), r) == Spec.DropEntry(old(Model()), user, finger)
    {
      hide Removed;
      var ok := HostCall();
      if !ok {
        return Failure(StoreFailed(Io));
      }
      var store := new PrintStore.Open(file);
      store.Remove(user, finger);
      ok := HostCall();
      if !ok {
        return Failure(StoreFailed(Io));
      }
      file := store.prints;
      return Success(());
    }

    /** The daemon's delete_enrolled_fingers body. */
    method DeleteAll(user: string) returns (r: Verdict)
      requires Valid()
      modifies this
      ensures Valid()
      ensures (Model(), r) == Spec.DeleteAll(old(Model()), user)
    {
      hide Spec.DeleteFinger, Names.Sorted;
      var fingers := List(user);
      if fingers.Failure? {
        return Failure(fingers.error);
      }
      var names := fingers.value;
      ghost var goal := DeleteEach(Model(), user, names);
      for i := 0 to |names|
        invariant Valid() && DeleteEach(Model(), user, names[i..]) == goal
      {
        assert names[i..] == [names[i]] + names[i + 1..];
        var one := DeleteFinger(user, names[i]);
        if one.Failure? {
          return one;
        }
      }
      return Success(());
    }

    method Verify(finger: string, sink: OpSink) returns (r: Verdict)
      requires Valid() && sink.Model() == Sink(VerifyOp, false, [])
      modifies this, sink
      ensures Valid() && EndsOnce(sink.log) && (r.Failure? ==> TornDown(Model()))
      ensures r == Failure(Usb(Disconnected)) ==>
                old(usb).Some? && Unplugged(old(Model()), Model(), VerifyGrant.ArmsFirst(old(Model())))
      ensures (Model(), sink.Model(), r) == Verifying(old(Model()), finger)
    {
      hide Spec.VerifyInner, Spec.AbortSession, ArmingHoldsFor, Grew, EndsOnce, TornDown, Unplugged;
      VerifyLeaves(Model(), finger);
      VerifyingKeeps(Model(), finger);
      ExactlyOneTerminalEvent(Model(), finger, 1);
      ErrorTearsDown(Model(), finger, 1);
      r := VerifyInner(finger, sink);
      if r.Failure? {
        AbortSession();
        armed := false;
      }
      sink.Close(r);
    }

    method Admit(finger: string) returns (r: Result<map<byte, string>, WorkerError>)
      modifies this`host
      ensures (Model(), r) == Spec.Admit(old(Model()), finger)
    {
      if claimed.None? {
        return Failure(Unclaimed);
      }
      if finger != ANY && !IsValidFinger(finger) {
        return Failure(BadFingerName(finger));
      }
      var user := claimed.value;
      var ok := HostCall();
      if !ok {
        return Failure(StoreFailed(Io));
      }
      if user !in file || file[user] == map[] {
        return Failure(NoPrints(user));
      }
      return Allowed(file[user], finger);
    }

    method VerifyInner(finger: string, sink: OpSink) returns (r: Verdict)
      modifies this, sink
      ensures (Model(), sink.Model(), r) == Spec.VerifyInner(old(Model()), finger, old(sink.Model()))
    {
      hide Spec.SendArm, Spec.Admit, Parse, Announce, Encode;
      if !armed {
        var count := SendArm();
        if count.Failure? {
          return Failure(count.error);
        }
        armed := true;
      }
      var admitted := Admit(finger);
      if admitted.Failure? {
        return Failure(admitted.error);
      }
      var allowed := admitted.value;
      ghost var goal := VerifyLoop(Model(), allowed, sink.Model());
      while true
        invariant VerifyLoop(Model(), allowed, sink.Model()) == goal
        decreases |script|
      {
        var raw := Round(Encode(Command.Verify), TouchWait, 2);
        if raw.Failure? {
          return Failure(raw.error);
        }
        match Parse(Command.Verify, raw.value) {
          case Failure(e) => return Failure(ProtoFailed(e));
          case Success(VerifyIs(_, status)) =>
            var done := Report(allowed, status, sink);
            if done {
              return Success(());
            }
          case Success(_) =>
            sink.Emit(VerifyStatus(VUnknownError, true));
            return Success(());
        }
      }
    }

    /** The events of one touch reply; a match outside the allowed slots is reported as no match. */
    method Report(allowed: map<byte, string>, status: Status, sink: OpSink) returns (done: bool)
      modifies sink
      ensures (sink.Model(), done) == Announce(old(sink.Model()), allowed, status)
    {
      var outcome := ClassifyVerify(status);
      done := !(outcome.Success? && outcome.value.TryAgain?);
      var result := VerifyStatusText(status);
      if outcome.Success? && outcome.value.Match? {
        if outcome.value.id in allowed {
          sink.Emit(VerifyFingerSelected(allowed[outcome.value.id]));
        } else {
          result := VNoMatch;
        }
      }
      sink.Emit(VerifyStatus(result, done));
    }

    method Enroll(finger: string, stages: Stages, sink: OpSink) returns (r: Verdict)
      requires Valid() && sink.Model() == Sink(EnrollOp, false, [])
      modifies this, sink
      ensures Valid() && EndsOnce(sink.log) && (r.Failure? ==> TornDown(Model()))
      ensures r == Failure(Usb(Disconnected)) ==>
                old(usb).Some? && Unplugged(old(Model()), Model(), TwoBytes(First(old(Model()).script)))
      ensures (Model(), sink.Model(), r) == Enrolling(old(Model()), finger, stages)
    {
      hide Spec.EnrollInner, Spec.AbortSession, ArmingHoldsFor, Grew, EndsOnce, TornDown, Unplugged, TwoBytes;
      EnrolLeaves(Model(), finger, stages);
      EnrollingKeeps(Model(), finger, stages);
      ExactlyOneTerminalEvent(Model(), finger, stages);
      ErrorTearsDown(Model(), finger, stages);
      r := EnrollInner(finger, stages, sink);
      if r.Failure? {
        AbortSession();
        armed := false;
      }
      sink.Close(r);
    }

    /** The task a start call spawns, once it has the worker: the op, then the drop of its token. */
    method RunOp(op: OpToken, kind: OpKind, finger: string, stages: Stages) returns (sink: OpSink)
      requires Valid() && op.state == state
      modifies this, state`busy
      ensures Valid() && !state.busy && fresh(sink) && EndsOnce(sink.log)
      ensures Model() == Performed(old(Model()), kind, finger, stages).(busy := false)
    {
      hide Verifying, Enrolling, ArmingHoldsFor;
      sink := new OpSink(kind);
      if kind.VerifyOp? {
        var _ := Verify(finger, sink);
      } else {
        var _ := Enroll(finger, stages, sink);
      }
      op.Drop();
    }

    method FreeSlot() returns (r: Result<byte, WorkerError>)
      modifies this
      ensures (Model(), r) == Spec.FreeSlot(old(Model()))
    {
      hide WritableSlots, TrackedSlots, Spec.SendArm, Spec.Round, Parse;
      var count := SendArm();
      if count.Failure? {
        return Failure(count.error);
      }
      armed := true;
      var ok := HostCall();
      if !ok {
        return Failure(StoreFailed(Io));
      }
      var candidates := WritableSlots(count.value, TrackedSlots(file));
      ghost var goal := PickSlot(Model(), candidates);
      for i := 0 to |candidates|
        invariant PickSlot(Model(), candidates[i..]) == goal
      {
        var id := candidates[i];
        assert candidates[i..] == [id] + candidates[i + 1..];
        var c := FingerInfo(id);
        var raw := Round(Encode(c), StatusIn, ExpectedLen(c));
        if raw.Failure? {
          return Failure(raw.error);
        }
        match Parse(c, raw.value) {
          case Success(SlotIs(_, Enrolled(_))) =>
          case _ => return Success(id);
        }
      }
      return Failure(EnrollFailed(SlotLimit));
    }

    method EnrollInner(finger: string, stages: Stages, sink: OpSink) returns (r: Verdict)
      modifies this, sink
      ensures (Model(), sink.Model(), r) == Spec.EnrollInner(old(Model()), finger, stages, old(sink.Model()))
    {
      if claimed.None? {
        return Failure(Unclaimed);
      }
      var user := claimed.value;
      if !IsValidFinger(finger) {
        return Failure(BadFingerName(finger));
      }
      var ok := HostCall();
      if !ok {
        return Failure(StoreFailed(Io));
      }
      if IsMapped(file, user, finger) {
        return Failure(AlreadyEnrolled(finger));
      }
      var slot := FreeSlot();
      if slot.Failure? {
        return Failure(slot.error);
      }
      var sm := new Enroll.WithTotal(slot.value, stages);
      var first := sm.Start();
      r := DriveEnroll(sm, first.out, user, finger, sink);
    }

    method DriveEnroll(sm: Enroll, first: seq<byte>, user: string, finger: string, sink: OpSink) returns (r: Verdict)
      requires sm.Valid()
      modifies this, sink, sm
      ensures (Model(), sink.Model(), r)
           == EnrollLoop(old(Model()), old(sm.Model()), first, user, finger, old(sink.Model()))
    {
      hide Parse, Encode, StepSample, StepCollision, StepCommit, Feed;
      var out := first;
      ghost var goal := EnrollLoop(Model(), sm.Model(), out, user, finger, sink.Model());
      while true
        invariant sm.Valid() && EnrollLoop(Model(), sm.Model(), out, user, finger, sink.Model()) == goal
        decreases |script|
      {
        var c := PendingCommand(sm.Model());
        if c.None? {
          return Failure(EnrollFailed(UnexpectedReply));
        }
        var raw := Round(out, ReplyEndpoint(c.value), ExpectedLen(c.value));
        if raw.Failure? {
          return Failure(raw.error);
        }
        var action := sm.Step(raw.value);
        match action {
          case EmitProgress(_, _) =>
            sink.Emit(EnrollStatus(EStagePassed, false));
          case EmitRetry(hint) =>
            sink.Emit(EnrollStatus(EnrollRetry(hint), false));
          case Send(next) =>
            out := next;
          case Complete(id) =>
            r := Record(sink, user, finger, id);
            return;
          case Fail(e) =>
            return Failure(EnrollFailed(e));
        }
        if action.EmitProgress? || action.EmitRetry? {
          var next := sm.TakeSend();
          if next.None? {
            return Failure(EnrollFailed(UnexpectedReply));
          }
          out := next.value;
        }
      }
    }

    method Record(sink: OpSink, user: string, finger: string, id: byte) returns (r: Verdict)
      modifies this, sink
      ensures (Model(), sink.Model(), r) == Spec.Record(old(Model()), old(sink.Model()), user, finger, id)
    {
      var ok := HostCall();
      if !ok {
        return Failure(StoreFailed(Io));
      }
      var store := new PrintStore.Open(file);
      var inserted := store.Insert(user, finger, id);
      if inserted.Failure? {
        return Failure(StoreFailed(inserted.error));
      }
      ok := HostCall();
      if !ok {
        return Failure(StoreFailed(Io));
      }
      file := store.prints;
      sink.Emit(EnrollStatus(ECompleted, true));
      return Success(());
    }
  }
}
