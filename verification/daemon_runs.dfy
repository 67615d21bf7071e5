/**
 * Every run of the daemon is a run of its worker: the theorems over runs of the worker hold over every
 * interleaving of D-Bus methods, spawned ops, sleep and shutdown.
 */
module DaemonRuns {
  import opened Core
  import opened Proto
  import opened EnrollMachine
  import opened Store
  import opened WorkerSpec
  import opened Arming
  import opened EraseAccounting
  import opened NoOverwrite
  import opened OverwriteRobustly
  import opened Daemon

  // ---------- the busy flag matters to a claim alone ----------

  function Marked(w: W, b: bool): W {
    w.(busy := b)
  }

  lemma AskIgnoresBusy(w: W, b: bool, c: Command)
    ensures Ask(Marked(w, b), c) == (Marked(Ask(w, c).0, b), Ask(w, c).1)
  {
  }

  lemma TransferIgnoresBusy(w: W, b: bool, out: seq<byte>, ep: Endpoint, len: nat)
    requires w.usb.Some?
    ensures
      Transfer(Marked(w, b), out, ep, len) == (Marked(Transfer(w, out, ep, len).0, b), Transfer(w, out, ep, len).1)
  {
  }

  lemma RoundIgnoresBusy(w: W, b: bool, out: seq<byte>, ep: Endpoint, len: nat)
    ensures Round(Marked(w, b), out, ep, len) == (Marked(Round(w, out, ep, len).0, b), Round(w, out, ep, len).1)
  {
    hide Transfer;
    if w.usb.Some? {
      TransferIgnoresBusy(w, b, out, ep, len);
    }
  }

  lemma ArmIgnoresBusy(w: W, b: bool)
    ensures SendArm(Marked(w, b)) == (Marked(SendArm(w).0, b), SendArm(w).1)
    ensures AbortSession(Marked(w, b)) == Marked(AbortSession(w), b)
  {
    hide Ask, Encode;
    AskIgnoresBusy(w, b, EnrolledNum);
    AskIgnoresBusy(w, b, Command.Abort);
  }

  lemma DropIgnoresBusy(w: W, b: bool, user: string, finger: string)
    ensures DropEntry(Marked(w, b), user, finger).0 == Marked(DropEntry(w, user, finger).0, b)
  {
    hide Removed, HostDone, HostSays;
    HostIgnoresBusy(w, b);
    HostIgnoresBusy(HostDone(w), b);
  }

  lemma HostIgnoresBusy(w: W, b: bool)
    ensures HostDone(Marked(w, b)) == Marked(HostDone(w), b) && HostSays(Marked(w, b)) == HostSays(w)
  {
  }

  lemma DeleteIgnoresBusy(w: W, b: bool, user: string, finger: string)
    ensures DeleteFinger(Marked(w, b), user, finger).0 == Marked(DeleteFinger(w, user, finger).0, b)
  {
    hide Ask, DropEntry, EraseVerdict, IsValidFinger, Pop;
    assert HostDone(Marked(w, b)) == Marked(HostDone(w), b);
    if IsMapped(w.file, user, finger) {
      var c := Delete(w.file[user][finger]);
      AskIgnoresBusy(HostDone(w), b, c);
      DropIgnoresBusy(Ask(HostDone(w), c).0, b, user, finger);
    }
  }

  lemma {:induction false} VerifyLoopIgnoresBusy(w: W, b: bool, allowed: map<byte, string>, s: Sink)
    ensures
      var (w', s', r) := VerifyLoop(w, allowed, s);
      VerifyLoop(Marked(w, b), allowed, s) == (Marked(w', b), s', r)
    decreases |w.script|
  {
    hide Round, Encode, Parse, Announce;
    RoundIgnoresBusy(w, b, Encode(Verify), TouchWait, 2);
    var (w1, r) := Round(w, Encode(Verify), TouchWait, 2);
    if r.Success? && Parse(Verify, r.value).Success? && Parse(Verify, r.value).value.VerifyIs? {
      var (s1, done) := Announce(s, allowed, Parse(Verify, r.value).value.status);
      if !done {
        VerifyLoopIgnoresBusy(w1, b, allowed, s1);
      }
    }
  }

  lemma AdmitIgnoresBusy(w: W, b: bool, finger: string)
    ensures Admit(Marked(w, b), finger) == (Marked(Admit(w, finger).0, b), Admit(w, finger).1)
  {
    hide Allowed, IsValidFinger;
  }

  lemma VerifyInnerIgnoresBusy(w: W, b: bool, finger: string, s: Sink)
    ensures
      var (w', s', r) := VerifyInner(w, finger, s);
      VerifyInner(Marked(w, b), finger, s) == (Marked(w', b), s', r)
  {
    hide SendArm, VerifyLoop, Admit;
    ArmIgnoresBusy(w, b);
    var (w1, arm) := if w.armed then (w, Success(0 as byte)) else SendArm(w);
    if arm.Success? {
      var (w2, allowed) := Admit(w1.(armed := true), finger);
      AdmitIgnoresBusy(w1.(armed := true), b, finger);
      if allowed.Success? {
        VerifyLoopIgnoresBusy(w2, b, allowed.value, s);
      }
    }
  }

  lemma VerifyIgnoresBusy(w: W, b: bool, finger: string)
    ensures Verifying(Marked(w, b), finger).0 == Marked(Verifying(w, finger).0, b)
  {
    hide VerifyInner, AbortSession;
    var s := Sink(VerifyOp, false, []);
    VerifyInnerIgnoresBusy(w, b, finger, s);
    ArmIgnoresBusy(VerifyInner(w, finger, s).0, b);
  }

  lemma {:induction false} PickIgnoresBusy(w: W, b: bool, candidates: seq<byte>)
    ensures PickSlot(Marked(w, b), candidates) == (Marked(PickSlot(w, candidates).0, b), PickSlot(w, candidates).1)
    decreases candidates
  {
    hide Round, Encode, Parse;
    if candidates != [] {
      var c := FingerInfo(candidates[0]);
      RoundIgnoresBusy(w, b, Encode(c), StatusIn, ExpectedLen(c));
      PickIgnoresBusy(Round(w, Encode(c), StatusIn, ExpectedLen(c)).0, b, candidates[1..]);
    }
  }

  lemma FreeSlotIgnoresBusy(w: W, b: bool)
    ensures FreeSlot(Marked(w, b)) == (Marked(FreeSlot(w).0, b), FreeSlot(w).1)
  {
    hide SendArm, PickSlot, WritableSlots, TrackedSlots;
    ArmIgnoresBusy(w, b);
    var (w1, count) := SendArm(w);
    if count.Success? {
      var w2 := HostDone(w1.(armed := true));
      PickIgnoresBusy(w2, b, WritableSlots(count.value, TrackedSlots(w2.file)));
    }
  }

  lemma RecordIgnoresBusy(w: W, b: bool, s: Sink, user: string, finger: string, id: byte)
    ensures
      var (w', s', r) := Record(w, s, user, finger, id);
      Record(Marked(w, b), s, user, finger, id) == (Marked(w', b), s', r)
  {
    hide InsertFault, Inserted, HostDone, HostSays;
    HostIgnoresBusy(w, b);
    HostIgnoresBusy(HostDone(w), b);
  }

  lemma {:induction false} EnrollLoopIgnoresBusy(w: W, b: bool, sm: Machine, out: seq<byte>, user: string,
                                                 finger: string, s: Sink)
    ensures
      var (w', s', r) := EnrollLoop(w, sm, out, user, finger, s);
      EnrollLoop(Marked(w, b), sm, out, user, finger, s) == (Marked(w', b), s', r)
    decreases |w.script|, 0
  {
    hide Round, Record, Step, Resend;
    if PendingCommand(sm).Some? {
      var c := PendingCommand(sm).value;
      RoundIgnoresBusy(w, b, out, ReplyEndpoint(c), ExpectedLen(c));
      var (w1, r) := Round(w, out, ReplyEndpoint(c), ExpectedLen(c));
      if r.Success? {
        var (sm1, action) := Step(sm, r.value);
        match action {
          case EmitProgress(_, _) =>
            ResendIgnoresBusy(w1, b, sm1, user, finger, Emit(s, EnrollStatus(DbusStatus.EStagePassed, false)));
          case EmitRetry(hint) =>
            ResendIgnoresBusy(w1, b, sm1, user, finger, Emit(s, EnrollStatus(DbusStatus.EnrollRetry(hint), false)));
          case Send(next) => EnrollLoopIgnoresBusy(w1, b, sm1, next, user, finger, s);
          case Complete(id) => RecordIgnoresBusy(w1, b, s, user, finger, id);
          case Fail(_) =>
        }
      }
    }
  }

  lemma {:induction false} ResendIgnoresBusy(w: W, b: bool, sm: Machine, user: string, finger: string, s: Sink)
    ensures
      var (w', s', r) := Resend(w, sm, user, finger, s);
      Resend(Marked(w, b), sm, user, finger, s) == (Marked(w', b), s', r)
    decreases |w.script|, 1
  {
    hide EnrollLoop;
    var (sm1, next) := TakeSend(sm);
    if next.Some? {
      EnrollLoopIgnoresBusy(w, b, sm1, next.value, user, finger, s);
    }
  }

  lemma EnrollInnerIgnoresBusy(w: W, b: bool, finger: string, stages: Stages, s: Sink)
    ensures
      var (w', s', r) := EnrollInner(w, finger, stages, s);
      EnrollInner(Marked(w, b), finger, stages, s) == (Marked(w', b), s', r)
  {
    hide FreeSlot, EnrollLoop, IsValidFinger, Encode;
    FreeSlotIgnoresBusy(HostDone(w), b);
    var (w2, slot) := FreeSlot(HostDone(w));
    if w.claimed.Some? && slot.Success? {
      var (sm, action) := Start(WithTotal(slot.value, stages));
      EnrollLoopIgnoresBusy(w2, b, sm, action.out, w.claimed.value, finger, s);
    }
  }

  lemma EnrollIgnoresBusy(w: W, b: bool, finger: string, stages: Stages)
    ensures Enrolling(Marked(w, b), finger, stages).0 == Marked(Enrolling(w, finger, stages).0, b)
  {
    hide EnrollInner, AbortSession;
    var s := Sink(EnrollOp, false, []);
    EnrollInnerIgnoresBusy(w, b, finger, stages, s);
    ArmIgnoresBusy(EnrollInner(w, finger, stages, s).0, b);
  }

  /** Every call but a claim does the same whether or not the busy flag is set, and leaves the flag alone. */
  lemma CallIgnoresBusy(w: W, b: bool, call: Call, stages: Stages)
    requires !call.DoClaim?
    ensures After(Marked(w, b), call, stages).0 == Marked(After(w, call, stages).0, b)
  {
    hide Verifying, Enrolling, DeleteFinger, AbortSession;
    match call {
      case DoVerify(finger) => VerifyIgnoresBusy(w, b, finger);
      case DoEnroll(finger) => EnrollIgnoresBusy(w, b, finger, stages);
      case DoDelete(user, finger) => DeleteIgnoresBusy(w, b, user, finger);
      case _ => ArmIgnoresBusy(w, b);
    }
  }

  // ---------- the worker calls of a daemon run ----------

  /** The worker call an enabled action makes, with the environment it meets; a claim refused as busy is none. */
  function CallsOf(d: D, s: Step2): seq<Step1>
    requires Enabled(d, s.action)
  {
    match s.action
    case CallClaim(user) => if d.w.busy then [] else [Step1(DoClaim(user), s.script, s.host)]
    case FinishRelease => [Step1(DoRelease, s.script, s.host)]
    case FinishDelete => [Step1(DoDelete(d.inFlight.user, d.inFlight.finger), s.script, s.host)]
    case DeleteNext =>
      var m := d.inFlight;
      if m.left == [] then [] else [Step1(DoDelete(m.user, m.left[0]), s.script, s.host)]
    case OpEnds =>
      var w := d.w.(script := s.script, host := s.host);
      var t := d.running.value;
      var met := if d.early then Heeding(w, t) else w;
      [Step1(if t.kind.VerifyOp? then DoVerify(t.finger) else DoEnroll(t.finger), met.script, s.host)]
    case SleepSuspends => [Step1(DoSuspend, s.script, s.host)]
    case Wakes => [Step1(DoResume, s.script, s.host)]
    case ExitReleases => [Step1(DoRelease, s.script, s.host)]
    case _ => []
  }

  /** The calls a daemon run makes on its worker, in order. */
  ghost function WorkerSteps(file: Prints, steps: seq<Step2>, stages: Stages): seq<Step1> {
    if steps == [] then []
    else
      var before, last := steps[..|steps| - 1], steps[|steps| - 1];
      var d := Execute(Boot(file), before, stages);
      WorkerSteps(file, before, stages) + if Enabled(d, last.action) then CallsOf(d, last) else []
  }

  /** The same worker but for its busy flag and what is left of its scripts. */
  ghost predicate SameWorker(w: W, v: W) {
    !v.busy && w == v.(busy := w.busy, script := w.script, host := w.host)
  }

  /** One action of the daemon is its one worker call, or none. */
  lemma EffectIsCall(d: D, s: Step2, v: W, stages: Stages)
    requires Enabled(d, s.action) && SameWorker(d.w, v)
    ensures |CallsOf(d, s)| <= 1
    ensures
      var calls := CallsOf(d, s);
      SameWorker(Daemon.Apply(d, s, stages).w, if calls == [] then v else RunStep(v, calls[0], stages).0)
  {
    hide Daemon.Apply, RunStep, SameWorker;
    assert |CallsOf(d, s)| <= 1;
    if s.action.OpEnds? {
      OpIsCall(d, s, v, stages);
    } else if s.action.CallClaim? {
      ClaimIsCall(d, s, v, stages);
    } else if ReachesWorker(s.action) {
      SleepIsCall(d, s, v, stages);
    } else if IsDeletion(s.action) {
      DeletionIsCall(d, s, v, stages);
    } else {
      SharingIsNoCall(d, s, v, stages);
    }
  }

  /** A call other than a claim, made on the daemon's worker and on the one of the run. */
  lemma CallIsStep(w: W, v: W, s: Step1, stages: Stages)
    requires SameWorker(w, v) && !s.call.DoClaim?
    ensures SameWorker(RunStep(w, s, stages).0, RunStep(v, s, stages).0)
  {
    hide After;
    var idle := v.(script := s.script, host := s.host);
    assert w.(script := s.script, host := s.host) == Marked(idle, w.busy);
    CallIgnoresBusy(idle, w.busy, s.call, stages);
    CallKeepsIdle(idle, s.call, stages);
  }

  lemma SleepIsCall(d: D, s: Step2, v: W, stages: Stages)
    requires Enabled(d, s.action) && SameWorker(d.w, v) && ReachesWorker(s.action)
    ensures SameWorker(Daemon.Apply(d, s, stages).w, RunStep(v, CallsOf(d, s)[0], stages).0)
  {
    hide Release, Suspend, Resume, Stopped, RunTask, Claim, DeleteFinger, List, Heeding, SameWorker;
    CallIsStep(d.w, v, CallsOf(d, s)[0], stages);
  }

  lemma DeletionIsCall(d: D, s: Step2, v: W, stages: Stages)
    requires Enabled(d, s.action) && SameWorker(d.w, v) && IsDeletion(s.action)
    ensures
      var calls := CallsOf(d, s);
      SameWorker(Daemon.Apply(d, s, stages).w, if calls == [] then v else RunStep(v, calls[0], stages).0)
  {
    hide Stopped, RunTask, Claim, DeleteFinger, List, Heeding, Release, Suspend, Resume, SameWorker;
    if CallsOf(d, s) != [] {
      CallIsStep(d.w, v, CallsOf(d, s)[0], stages);
    } else {
      ScriptsDoNotMatter(d.w, v, s.script, s.host);
      ScriptsDoNotMatter(d.w, v, s.script, Pop(s.host));
      if s.action.CallDeleteAll? {
        ListOnlyLoads(d.w.(script := s.script, host := s.host), s.action.user);
      }
    }
  }

  lemma ScriptsDoNotMatter(w: W, v: W, script: seq<Outcome>, host: seq<bool>)
    requires SameWorker(w, v)
    ensures SameWorker(w.(script := script, host := host), v)
  {
  }

  lemma SharingIsNoCall(d: D, s: Step2, v: W, stages: Stages)
    requires Enabled(d, s.action) && SameWorker(d.w, v)
    requires !IsDeletion(s.action) && !ReachesWorker(s.action) && !s.action.CallClaim? && !s.action.OpEnds?
    ensures CallsOf(d, s) == [] && SameWorker(Daemon.Apply(d, s, stages).w, v)
  {
    hide Stopped, RunTask, Claim, DeleteFinger, List, Heeding, Release, Suspend, Resume;
    StoppedFrames(d);
  }

  lemma ListOnlyLoads(w: W, user: string)
    ensures List(w, user).0 == HostDone(w)
  {
  }

  lemma ClaimIsCall(d: D, s: Step2, v: W, stages: Stages)
    requires Enabled(d, s.action) && SameWorker(d.w, v) && s.action.CallClaim?
    ensures
      var calls := CallsOf(d, s);
      SameWorker(Daemon.Apply(d, s, stages).w, if calls == [] then v else RunStep(v, calls[0], stages).0)
  {
    hide RunTask, ReadFirmware, SendArm, DeleteFinger, List, AbortSession, Verifying, Enrolling, Heeding;
    var w := v.(script := s.script, host := s.host);
    if !d.w.busy {
      assert d.w.(script := s.script, host := s.host) == w;
      CallKeepsIdle(w, DoClaim(s.action.user), stages);
    }
  }

  lemma OpIsCall(d: D, s: Step2, v: W, stages: Stages)
    requires Enabled(d, s.action) && SameWorker(d.w, v) && s.action.OpEnds?
    ensures SameWorker(Daemon.Apply(d, s, stages).w, RunStep(v, CallsOf(d, s)[0], stages).0)
  {
    hide Claim, DeleteFinger, List, AbortSession, Verifying, Enrolling, Heeding, SameWorker;
    var w := d.w.(script := s.script, host := s.host);
    HeedingKeeps(w, d.running.value);
    CallIsStep(d.w, v, CallsOf(d, s)[0], stages);
    BusyDoesNotMatter(RunStep(d.w, CallsOf(d, s)[0], stages).0, RunStep(v, CallsOf(d, s)[0], stages).0);
  }

  lemma BusyDoesNotMatter(w: W, v: W)
    requires SameWorker(w, v)
    ensures SameWorker(w.(busy := false), v)
  {
  }

  lemma CallKeepsIdle(w: W, call: Call, stages: Stages)
    requires !w.busy
    ensures !After(w, call, stages).0.busy
  {
    hide Verifying, Enrolling, DeleteFinger, AbortSession, Claim;
    if call.DoClaim? {
      ClaimKeepsIdle(w, call.user);
    } else {
      CallIgnoresBusy(w, false, call, stages);
      assert Marked(w, false) == w;
    }
  }

  lemma ClaimKeepsIdle(w: W, user: string)
    ensures Claim(w, user).0.busy == w.busy
  {
    hide SendArm, ReadFirmware;
    var (w1, open) := OpenHandle(w);
    FirmwareFrames(w1);
    SendArmFrames(if w1.firmware.Some? then w1 else var (f, fw) := ReadFirmware(w1); f.(firmware := fw));
  }

  /**
   * Over every interleaving the worker is the one its calls, made one after the other from the same
   * file, would have left; only busy flag and unread environment differ.
   */
  lemma {:induction false} InterleavingIsWorkerRun(file: Prints, steps: seq<Step2>, stages: Stages)
    ensures SameWorker(Execute(Boot(file), steps, stages).w,
                       Run(Fresh(file), WorkerSteps(file, steps, stages), stages))
  {
    hide Daemon.Apply, CallsOf, RunStep;
    if steps != [] {
      var before, last := steps[..|steps| - 1], steps[|steps| - 1];
      InterleavingIsWorkerRun(file, before, stages);
      var d, calls := Execute(Boot(file), before, stages), WorkerSteps(file, before, stages);
      if Enabled(d, last.action) {
        EffectIsCall(d, last, Run(Fresh(file), calls, stages), stages);
        if CallsOf(d, last) != [] {
          RunOnce(Fresh(file), calls, CallsOf(d, last)[0], stages);
          assert CallsOf(d, last) == [CallsOf(d, last)[0]];
        } else {
          assert calls + CallsOf(d, last) == calls;
        }
      } else {
        NotEnabled(d, last, stages);
        assert calls + [] == calls;
      }
    }
  }

  lemma NotEnabled(d: D, s: Step2, stages: Stages)
    requires !Enabled(d, s.action)
    ensures Daemon.Apply(d, s, stages) == d
  {
  }

  lemma RunOnce(w: W, steps: seq<Step1>, s: Step1, stages: Stages)
    ensures Run(w, steps + [s], stages) == RunStep(Run(w, steps, stages), s, stages).0
  {
    hide RunStep;
    assert (steps + [s])[..|steps|] == steps;
  }

  // ---------- what that carries over ----------

  /** Whatever is interleaved, a sound file stays sound. */
  lemma InterleavingKeepsStoreSound(file: Prints, steps: seq<Step2>, stages: Stages)
    requires StoreSound(file)
    ensures StoreSound(Execute(Boot(file), steps, stages).w.file)
  {
    hide Run, Execute, WorkerSteps, StoreSound;
    InterleavingIsWorkerRun(file, steps, stages);
    RunKeepsStoreSound(file, WorkerSteps(file, steps, stages), stages);
  }

  /** Whatever is interleaved, the erases sent are the deletes that reached the chip, in order. */
  lemma InterleavingErasesItsLedger(file: Prints, steps: seq<Step2>, stages: Stages)
    ensures Erases(Execute(Boot(file), steps, stages).w.wire)
         == Ledger(Fresh(file), WorkerSteps(file, steps, stages), stages)
  {
    hide Run, Execute, WorkerSteps, Erases, Ledger;
    InterleavingIsWorkerRun(file, steps, stages);
    EraseLedger(file, WorkerSteps(file, steps, stages), stages);
  }

  /** Whatever is interleaved, an honest chip with a clearing floor has no live template overwritten. */
  lemma InterleavingNeverOverwrites(start: set<byte>, file: Prints, steps: seq<Step2>, stages: Stages,
                                    landed: nat -> bool)
    requires FloorClears(Orphans(start, file), Pinned(start, file))
    requires HonestRun(start, file, WorkerSteps(file, steps, stages), stages, landed)
    ensures FlashSafe(start, Execute(Boot(file), steps, stages).w, landed, Orphans(start, file), Pinned(start, file))
  {
    hide Run, Execute, WorkerSteps, HonestRun, Occupied, NeverOverwrites, FloorClears, Orphans, Pinned;
    InterleavingIsWorkerRun(file, steps, stages);
    NoEnrolmentOverwrites(start, file, WorkerSteps(file, steps, stages), stages, landed);
  }

  /** Whatever is interleaved and whatever is lost, an honest count keeps a chip without room from overwriting. */
  lemma InterleavingWithoutRoom(start: set<byte>, file: Prints, steps: seq<Step2>, stages: Stages,
                                landed: nat -> bool)
    requires Roomless(start, file)
    requires CountsHonestly(start, Execute(Boot(file), steps, stages).w.wire, landed)
    ensures NeverOverwrites(start, Execute(Boot(file), steps, stages).w.wire, landed)
  {
    hide Run, Execute, WorkerSteps, CountsHonestly, Occupied, NeverOverwrites, FloorClears, NoRoomAbove, Orphans,
         Pinned;
    InterleavingIsWorkerRun(file, steps, stages);
    NoRoomNoOverwrite(start, file, WorkerSteps(file, steps, stages), stages, landed);
  }
}
