/**
 * What a stop call, a release, a sleep or a shutdown does to the op they mean to end
 * (crates/elanprintd/src/main.rs, start_op, stop_running and the enders of verify_start and enroll_start).
 */
module DaemonStop {
  import opened Core
  import opened Proto
  import opened EnrollMachine
  import opened Store
  import opened WorkerSpec
  import opened Arming
  import opened EnrollTrace
  import opened Daemon

  // ---------- an op stopped before it had the worker ----------

  const QUIET_OPS: set<Option<byte>> := {Some(0x04), Some(0x02)}

  lemma CancelledRound(w: W, out: seq<byte>, ep: Endpoint, len: nat)
    requires w.script != [] && w.script[0] == CancelWins
    ensures Round(w, out, ep, len).1.Failure? && Round(w, out, ep, len).0.wire == w.wire
  {
  }

  lemma CancelledVerifyLoop(w: W, allowed: map<byte, string>, s: Sink)
    requires w.script != [] && w.script[0] == CancelWins
    ensures VerifyLoop(w, allowed, s).0.wire == w.wire
  {
    hide Round, Encode;
    CancelledRound(w, Encode(Verify), TouchWait, 2);
  }

  lemma CancelledPick(w: W, candidates: seq<byte>)
    requires w.script != [] && w.script[0] == CancelWins
    ensures PickSlot(w, candidates).1.Failure? && PickSlot(w, candidates).0.wire == w.wire
  {
    hide Round, Encode;
    if candidates != [] {
      var c := FingerInfo(candidates[0]);
      CancelledRound(w, Encode(c), StatusIn, ExpectedLen(c));
    }
  }

  lemma ArmingReadsOne(w: W)
    ensures SendArm(w).0.script == if w.usb.Some? then Pop(w.script) else w.script
    ensures SendArm(w).1.Success? ==> w.usb.Some?
  {
  }

  lemma CancelledVerify(w: W, finger: string, s: Sink)
    requires ArmingHolds(w)
    ensures
      var w0 := Heeding(w, Task(VerifyOp, finger, 0, ""));
      VerifyInner(w0, finger, s).0.wire == if w0.armed then w0.wire else SendArm(w0).0.wire
  {
    hide VerifyLoop, SendArm, Allowed, ArmingHoldsFor;
    DisarmedHolds(w);
    var w0 := Heeding(w, Task(VerifyOp, finger, 0, ""));
    ArmingReadsOne(w0);
    var (w1, arm) := if w0.armed then (w0, Success(0 as byte)) else SendArm(w0);
    if arm.Success? {
      var (w2, allowed) := Admit(w1.(armed := true), finger);
      if allowed.Success? {
        CancelledVerifyLoop(w2, allowed.value, s);
      }
    }
  }

  lemma CancelledEnroll(w: W, finger: string, stages: Stages, s: Sink)
    ensures
      var w0 := Heeding(w, Task(EnrollOp, finger, 0, ""));
      var w1 := EnrollInner(w0, finger, stages, s).0;
      w1.wire == w0.wire || w1.wire == SendArm(HostDone(w0)).0.wire
  {
    hide EnrollInner, SendArm, PickSlot, WritableSlots, TrackedSlots;
    var w0 := Heeding(w, Task(EnrollOp, finger, 0, ""));
    EnrollInnerCases(w0, finger, stages, s);
    ArmingReadsOne(HostDone(w0));
    var (w1, count) := SendArm(HostDone(w0));
    if count.Success? {
      var w2 := HostDone(w1.(armed := true));
      CancelledPick(w2, WritableSlots(count.value, TrackedSlots(w2.file)));
    }
  }

  lemma CancelledVerifyIsSilent(w: W, t: Task)
    requires ArmingHolds(w) && t.kind == VerifyOp
    ensures Sent(w, Verifying(Heeding(w, t), t.finger).0, QUIET_OPS)
  {
    hide ArmingHoldsFor, Grew, VerifyInner, AbortSession, SendArm;
    var w0, s := Heeding(w, t), Sink(VerifyOp, false, []);
    assert w0 == Heeding(w, Task(VerifyOp, t.finger, 0, ""));
    GrewNot(w.wire, QUIET_OPS);
    SendArmKeeps(w0);
    GrewMore(w.wire, SendArm(w0).0.wire, ARM_OPS, QUIET_OPS);
    CancelledVerify(w, t.finger, s);
    VerifyInnerKeeps(w0, t.finger, s);
    var (w1, s1, r) := VerifyInner(w0, t.finger, s);
    FinishKeeps(w0, w1, s1, r, QUIET_OPS);
  }

  lemma CancelledEnrollIsSilent(w: W, t: Task, stages: Stages)
    requires ArmingHolds(w) && t.kind == EnrollOp
    ensures Sent(w, Enrolling(Heeding(w, t), t.finger, stages).0, QUIET_OPS)
  {
    hide ArmingHoldsFor, Grew, EnrollInner, AbortSession, SendArm;
    var w0, s := Heeding(w, t), Sink(EnrollOp, false, []);
    assert w0 == Heeding(w, Task(EnrollOp, t.finger, 0, ""));
    GrewNot(w.wire, QUIET_OPS);
    SendArmKeeps(HostDone(w0));
    GrewMore(w.wire, SendArm(HostDone(w0)).0.wire, ARM_OPS, QUIET_OPS);
    CancelledEnroll(w, t.finger, stages, s);
    EnrollInnerKeeps(w0, t.finger, stages, s);
    var (w1, s1, r) := EnrollInner(w0, t.finger, stages, s);
    FinishKeeps(w0, w1, s1, r, QUIET_OPS);
  }

  /** A cancelled op arms at most, and aborts. */
  lemma CancelledTaskIsSilent(w: W, t: Task, stages: Stages)
    requires ArmingHolds(w)
    ensures Sent(w, RunTask(Heeding(w, t), t, stages), QUIET_OPS)
  {
    hide ArmingHoldsFor, Grew, Verifying, Enrolling, Heeding;
    match t.kind {
      case VerifyOp => CancelledVerifyIsSilent(w, t);
      case EnrollOp => CancelledEnrollIsSilent(w, t, stages);
    }
  }

  /** Over every interleaving, an op cancelled before it took the worker lock sends no touch-wait and no commit. */
  lemma EarlyStopSilencesTheOp(file: Prints, steps: seq<Step2>, last: Step2, stages: Stages)
    requires
      var d := Execute(Boot(file), steps, stages);
      last.action == OpEnds && Enabled(d, OpEnds) && d.early
    ensures
      var d := Execute(Boot(file), steps, stages);
      var wire := Daemon.Apply(d, last, stages).w.wire;
      && d.w.wire <= wire
      && forall i :: |d.w.wire| <= i < |wire| ==> !IsTouchWait(wire[i].out) && !IsCommit(wire[i].out)
  {
    hide RunTask, Execute, ArmingHoldsFor;
    InterleavingSafe(file, steps, stages);
    var d := Execute(Boot(file), steps, stages);
    CancelledTaskIsSilent(d.w.(script := last.script, host := last.host), d.running.value, stages);
  }

  // ---------- whether a stop reaches the op ----------

  /** The op waits for the worker or holds it. */
  ghost predicate Lives(d: D, t: Task) {
    t in d.spawned || d.running == Some(t)
  }

  /** A stop call, a release, the sleep signal and the shutdown signal all tell the running op to stop. */
  predicate IsStop(a: Action) {
    a.CallStop? || a.CallRelease? || a.SleepStops? || a.ExitStops?
  }

  /**
   * Over every interleaving a stop cancels the shared token, whoever asks for it, and empties the slot;
   * worker and ops are left alone.
   */
  lemma StopCancelsTheSharedToken(file: Prints, steps: seq<Step2>, stop: Step2, stages: Stages)
    requires IsStop(stop.action) && Enabled(Execute(Boot(file), steps, stages), stop.action)
    ensures
      var d, d' := Execute(Boot(file), steps, stages), Execute(Boot(file), steps + [stop], stages);
      && (forall c :: c in d'.cancelled <==> c in d.cancelled || d.cancelSlot == Some(c)) && d'.cancelSlot == None
      && d'.w == d.w && d'.spawned == d.spawned && d'.running == d.running && d'.enders == d.enders
      && d'.nextCancel == d.nextCancel
      && d'.inFlight == (if stop.action.CallRelease? then Releasing else d.inFlight)
      && d'.suspending == (d.suspending || stop.action.SleepStops?)
      && d'.exiting == (d.exiting || stop.action.ExitStops?)
  {
    hide Execute;
    ExecuteMore(Boot(file), steps, stop, stages);
  }

  /** Nothing else cancels a token; the slot is filled by a spawn alone, with the token of the op it spawns. */
  lemma OnlyStopsCancel(file: Prints, steps: seq<Step2>, last: Step2, stages: Stages)
    requires !IsStop(last.action)
    ensures
      var d, d' := Execute(Boot(file), steps, stages), Execute(Boot(file), steps + [last], stages);
      && d'.cancelled == d.cancelled
      && d'.cancelSlot == (if !Enabled(d, last.action) then d.cancelSlot
                           else if last.action == Spawn then Some(d.inFlight.task.cancel)
                           else if last.action == OpClearsSlot then None
                           else d.cancelSlot)
  {
    hide Execute, Effect;
    ExecuteMore(Boot(file), steps, last, stages);
    var d := Execute(Boot(file), steps, stages);
    if Enabled(d, last.action) {
      OthersKeepTheSlot(d, last.action, d.w.(script := last.script, host := last.host), stages);
    }
  }

  /** The actions that move ops, tokens or the cancel slot. */
  predicate MovesOps(a: Action) {
    IsStop(a) || a.TakeToken? || a.Spawn? || a.OpLocks? || a.OpEnds? || a.OpClearsSlot?
  }

  /** The others leave ops, tokens and cancel slot alone. */
  lemma OthersFrame(d: D, a: Action, w: W, stages: Stages)
    requires Enabled(d, a) && !MovesOps(a)
    ensures
      var d' := Effect(d, a, w, stages);
      && d' == d.(w := d'.w, inFlight := d'.inFlight, suspending := d'.suspending, released := d'.released)
      && (d'.inFlight.Holding? ==> d'.inFlight == d.inFlight)
  {
    hide Claim, DeleteFinger, List, Release, Suspend, Resume, RunTask, Heeding, TryBegin, Stopped;
  }

  lemma OthersKeepTheSlot(d: D, a: Action, w: W, stages: Stages)
    requires Enabled(d, a) && !IsStop(a)
    ensures
      var d' := Effect(d, a, w, stages);
      && d'.cancelled == d.cancelled
      && d'.cancelSlot == (if a == Spawn then Some(d.inFlight.task.cancel)
                           else if a == OpClearsSlot then None
                           else d.cancelSlot)
  {
    hide Claim, DeleteFinger, List, Release, Suspend, Resume, RunTask, Heeding, Stopped;
    if !MovesOps(a) {
      hide Effect;
      OthersFrame(d, a, w, stages);
    }
  }

  /** Cancel tokens are numbered as they are made; one not yet shared is neither held nor cancelled. */
  ghost predicate TokensNumbered(d: D) {
    && (forall c :: c in d.cancelled ==> c < d.nextCancel)
    && (d.cancelSlot.Some? ==> d.cancelSlot.value < d.nextCancel)
    && (d.inFlight.Holding? ==>
          var c := d.inFlight.task.cancel;
          c < d.nextCancel && c !in d.cancelled && d.cancelSlot != Some(c))
  }

  lemma EffectNumbers(d: D, a: Action, w: W, stages: Stages)
    requires TokensNumbered(d) && Enabled(d, a)
    ensures TokensNumbered(Effect(d, a, w, stages))
  {
    hide Claim, Release, Suspend, Resume, DeleteFinger, List, RunTask, Heeding;
  }

  lemma {:induction false} NumberedAlways(file: Prints, steps: seq<Step2>, stages: Stages)
    ensures TokensNumbered(Execute(Boot(file), steps, stages))
  {
    hide Effect;
    if steps != [] {
      var before, last := steps[..|steps| - 1], steps[|steps| - 1];
      NumberedAlways(file, before, stages);
      var d := Execute(Boot(file), before, stages);
      if Enabled(d, last.action) {
        EffectNumbers(d, last.action, d.w.(script := last.script, host := last.host), stages);
      }
    }
  }

  /** An op spawned with no ender outstanding: while it lives its token is cancelled or still shared. */
  ghost predicate Shared(d: D, t: Task) {
    && t.cancel < d.nextCancel
    && (d.inFlight.Holding? ==> d.inFlight.task.cancel != t.cancel)
    && (Lives(d, t) ==> d.enders == 0 && (t.cancel in d.cancelled || d.cancelSlot == Some(t.cancel)))
  }

  lemma LivesAlone(d: D, t: Task)
    requires |Tokens(d)| <= 1 && Lives(d, t)
    ensures Tokens(d) == [t] && !d.inFlight.Holding? && (t in d.spawned ==> d.running.None?)
    ensures d.running == None || d.spawned == []
  {
    assert t in Tokens(d);
  }

  /** Whoever stops, the shared or already cancelled token is cancelled afterwards. */
  lemma StopReaches(file: Prints, steps: seq<Step2>, stop: Step2, stages: Stages, t: Task)
    requires IsStop(stop.action) && Enabled(Execute(Boot(file), steps, stages), stop.action)
    requires Shared(Execute(Boot(file), steps, stages), t) && Lives(Execute(Boot(file), steps, stages), t)
    ensures t.cancel in Execute(Boot(file), steps + [stop], stages).cancelled
  {
    hide Execute, Lives;
    StopCancelsTheSharedToken(file, steps, stop, stages);
  }

  lemma StoppedKeepsToken(d: D, c: nat)
    ensures c in d.cancelled || d.cancelSlot == Some(c) ==> c in Stopped(d).cancelled
  {
  }

  lemma EffectShares(d: D, t: Task, a: Action, w: W, stages: Stages)
    requires Shared(d, t) && Enabled(d, a) && |Tokens(d)| <= 1 && (w.busy <==> |Tokens(d)| == 1)
    ensures Shared(Effect(d, a, w, stages), t)
  {
    hide Tokens;
    if Lives(d, t) {
      LivesAlone(d, t);
    }
    if a.OpLocks? {
      LockShares(d, t, a.i, w, stages);
    } else if MovesOps(a) {
      MovingShares(d, t, a, w, stages);
    } else {
      hide Effect;
      OthersFrame(d, a, w, stages);
    }
  }

  lemma LockShares(d: D, t: Task, i: nat, w: W, stages: Stages)
    requires Shared(d, t) && Enabled(d, OpLocks(i))
    ensures Shared(Effect(d, OpLocks(i), w, stages), t)
  {
    var rest := d.spawned[..i] + d.spawned[i + 1..];
    assert Lives(d.(running := Some(d.spawned[i]), spawned := rest), t) ==> Lives(d, t);
  }

  lemma MovingShares(d: D, t: Task, a: Action, w: W, stages: Stages)
    requires Shared(d, t) && Enabled(d, a) && MovesOps(a) && !a.OpLocks?
    requires Lives(d, t) ==> w.busy && !d.inFlight.Holding? && (t in d.spawned ==> d.running.None?)
    requires Lives(d, t) ==> d.running == None || d.spawned == []
    ensures Shared(Effect(d, a, w, stages), t)
  {
    hide RunTask, Heeding, Stopped, Claim, Release, Suspend, Resume, DeleteFinger, List;
    StoppedFrames(d);
    StoppedKeepsToken(d, t.cancel);
  }

  lemma {:induction false} SharedAlways(file: Prints, steps: seq<Step2>, spawn: Step2, more: seq<Step2>, stages: Stages)
    requires
      var d := Execute(Boot(file), steps, stages);
      d.inFlight.Holding? && spawn.action == Spawn && d.enders == 0
    ensures Shared(Execute(Boot(file), steps + [spawn] + more, stages),
                   Execute(Boot(file), steps, stages).inFlight.task)
    decreases |more|
  {
    hide Effect, Shared, Execute, Tokens, ArmingHoldsFor;
    var t := Execute(Boot(file), steps, stages).inFlight.task;
    if more == [] {
      assert steps + [spawn] + more == steps + [spawn];
      ExecuteMore(Boot(file), steps, spawn, stages);
      NumberedAlways(file, steps, stages);
      InterleavingSafe(file, steps, stages);
      SpawnShares(Execute(Boot(file), steps, stages), spawn, stages);
    } else {
      var init, last := more[..|more| - 1], more[|more| - 1];
      SharedAlways(file, steps, spawn, init, stages);
      assert steps + [spawn] + more == (steps + [spawn] + init) + [last];
      ExecuteMore(Boot(file), steps + [spawn] + init, last, stages);
      InterleavingSafe(file, steps + [spawn] + init, stages);
      var d := Execute(Boot(file), steps + [spawn] + init, stages);
      if Enabled(d, last.action) {
        EffectShares(d, t, last.action, d.w.(script := last.script, host := last.host), stages);
      }
    }
  }

  lemma ExecuteMore(d: D, steps: seq<Step2>, s: Step2, stages: Stages)
    ensures Execute(d, steps + [s], stages) == Daemon.Apply(Execute(d, steps, stages), s, stages)
  {
    hide Daemon.Apply;
    assert (steps + [s])[..|steps|] == steps;
  }

  lemma SpawnShares(d: D, spawn: Step2, stages: Stages)
    requires d.inFlight.Holding? && spawn.action == Spawn && TokensNumbered(d)
    ensures
      var d', t := Daemon.Apply(d, spawn, stages), d.inFlight.task;
      && Lives(d', t) && d'.enders == d.enders && d'.cancelled == d.cancelled && !d'.inFlight.Holding?
      && (d.enders == 0 ==> Shared(d', t)) && t.cancel !in d'.cancelled
  {
  }

  /** The ender of an earlier op empties the shared slot, and with it the only way to this op's token. */
  lemma EnderUnshares(file: Prints, steps: seq<Step2>, spawn: Step2, stop: Step2, stages: Stages)
    requires
      var d := Execute(Boot(file), steps, stages);
      d.inFlight.Holding? && spawn.action == Spawn && d.enders > 0
    requires stop.action == CallStop
    ensures
      var more := [Step2(OpClearsSlot, [], [])];
      var d' := Execute(Boot(file), steps + [spawn] + more, stages);
      var t := Execute(Boot(file), steps, stages).inFlight.task;
      && Lives(d', t) && Enabled(d', CallStop)
      && t.cancel !in Execute(Boot(file), steps + [spawn] + more + [stop], stages).cancelled
  {
    hide Execute;
    var d := Execute(Boot(file), steps, stages);
    NumberedAlways(file, steps, stages);
    ExecuteMore(Boot(file), steps, spawn, stages);
    SpawnShares(d, spawn, stages);
    var clear := Step2(OpClearsSlot, [], []);
    ExecuteMore(Boot(file), steps + [spawn], clear, stages);
    StopCancelsTheSharedToken(file, steps + [spawn] + [clear], stop, stages);
  }

  /** Wherever the run goes after the spawn, a stop made while the op lives leaves its token cancelled. */
  ghost predicate EveryStopReaches(file: Prints, spawned: seq<Step2>, t: Task, stages: Stages) {
    forall more, stop: Step2 ::
      var d := Execute(Boot(file), spawned + more, stages);
      IsStop(stop.action) && Enabled(d, stop.action) && Lives(d, t) ==>
        t.cancel in Execute(Boot(file), spawned + more + [stop], stages).cancelled
  }

  /**
   * Whatever happens after an op is spawned, a stop made while it lives cancels its token, exactly when
   * no earlier op had yet to clear the shared slot.
   */
  lemma StopReachesTheOpExactlyWhen(file: Prints, steps: seq<Step2>, spawn: Step2, stages: Stages)
    requires Execute(Boot(file), steps, stages).inFlight.Holding? && spawn.action == Spawn
    ensures
      var d := Execute(Boot(file), steps, stages);
      EveryStopReaches(file, steps + [spawn], d.inFlight.task, stages) <==> d.enders == 0
  {
    hide Execute, Lives, Enabled, Shared;
    var t := Execute(Boot(file), steps, stages).inFlight.task;
    if Execute(Boot(file), steps, stages).enders == 0 {
      forall more, stop: Step2 | IsStop(stop.action)
                          && Enabled(Execute(Boot(file), steps + [spawn] + more, stages), stop.action)
                          && Lives(Execute(Boot(file), steps + [spawn] + more, stages), t)
        ensures t.cancel in Execute(Boot(file), steps + [spawn] + more + [stop], stages).cancelled
      {
        SharedAlways(file, steps, spawn, more, stages);
        StopReaches(file, steps + [spawn] + more, stop, stages, t);
      }
    } else {
      EnderUnshares(file, steps, spawn, Step2(CallStop, [], []), stages);
    }
  }

  // ---------- a stop that misses ----------

  const ONE_ENTRY: Prints := map["u" := map["left-thumb" := 0]]

  function Plain(a: Action): Step2 {
    Step2(a, [], [])
  }

  /**
   * A claim; a verify that nobody touches; a second verify, spawned before the first one's ender has
   * cleared the shared slot; that ender, a stop, and the second verify's turn.
   */
  function MissedStop(): seq<Step2> {
    [Step2(CallClaim("u"), [Silence, Reply([0, 1])], []),
     Plain(CallStart(VerifyOp, ANY)), Plain(TakeToken), Plain(Spawn), Plain(OpLocks(0)), Plain(OpEnds),
     Plain(CallStart(VerifyOp, ANY)), Plain(TakeToken), Plain(Spawn),
     Plain(OpClearsSlot), Plain(CallStop), Plain(OpLocks(0)), Step2(OpEnds, [Reply([0, 1])], [])]
  }

  /** The daemon after the first n of those actions. */
  ghost function Missing(n: nat, stages: Stages): D
    requires n <= 13
  {
    Execute(Boot(ONE_ENTRY), MissedStop()[..n], stages)
  }

  lemma NextMissing(n: nat, stages: Stages)
    requires n < 13
    ensures Missing(n + 1, stages) == Daemon.Apply(Missing(n, stages), MissedStop()[n], stages)
  {
    hide Daemon.Apply, Execute;
    assert MissedStop()[..n + 1] == MissedStop()[..n] + [MissedStop()[n]];
    ExecuteMore(Boot(ONE_ENTRY), MissedStop()[..n], MissedStop()[n], stages);
  }

  /** Claimed by u, who has one finger, on an open handle. */
  ghost predicate ReadyFor(w: W) {
    && w.usb.Some? && w.claimed == Some("u") && ClaimMirrored(w) && w.file == ONE_ENTRY
  }

  /** A verify that is not touched waits for a finger, gives up and disarms. */
  lemma VerifyWaits(w: W)
    requires ReadyFor(w) && w.host == []
    requires w.script == if w.armed then [] else [Reply([0, 1])]
    ensures
      var w' := Verifying(w, ANY).0;
      && ReadyFor(w') && !w'.armed && w'.busy == w.busy
      && |w'.wire| >= |w.wire| + 2 && IsTouchWait(w'.wire[|w'.wire| - 2].out)
  {
    var s := Sink(VerifyOp, false, []);
    var w1 := if w.armed then w else SendArm(w).0;
    var armed := w1.(armed := true, script := []);
    assert "left-thumb" in armed.file["u"];
    assert Admit(armed, ANY).0 == armed && Admit(armed, ANY).1.Success?;
    LoopWaits(armed, Admit(armed, ANY).1.value, s);
    assert VerifyInner(w, ANY, s) == VerifyLoop(armed, Admit(armed, ANY).1.value, s);
  }

  lemma LoopWaits(w: W, allowed: map<byte, string>, s: Sink)
    requires w.usb.Some? && w.script == []
    ensures
      var (w', _, r) := VerifyLoop(w, allowed, s);
      && r.Failure? && w' == w.(wire := w'.wire) && |w'.wire| == |w.wire| + 1 && IsTouchWait(w'.wire[|w.wire|].out)
  {
  }

  lemma ClaimedFirst(stages: Stages)
    ensures
      var d := Missing(1, stages);
      d == Boot(ONE_ENTRY).(w := d.w) && ReadyFor(d.w) && d.w.armed && !d.w.busy
  {
    hide Execute, Claim, DeleteFinger, List, Release, Suspend, RunTask;
    NextMissing(0, stages);
    BootMissing(stages);
    ClaimAnswered(Fresh(ONE_ENTRY).(script := [Silence, Reply([0, 1])]));
  }

  lemma BootMissing(stages: Stages)
    ensures Missing(0, stages) == Boot(ONE_ENTRY)
  {
  }

  lemma ClaimAnswered(w: W)
    requires w == Fresh(ONE_ENTRY).(script := [Silence, Reply([0, 1])])
    ensures
      var w' := Claim(w, "u").0;
      ReadyFor(w') && w'.armed && !w'.busy
  {
    hide Encode;
  }

  /** A start, its token, its spawn. */
  lemma StartsVerify(n: nat, stages: Stages)
    requires n == 1 || n == 6
    requires
      var d := Missing(n, stages);
      d.inFlight.NoMethod? && d.spawned == [] && d.running.None? && ReadyFor(d.w) && !d.w.busy
    ensures
      var d, t := Missing(n, stages), Task(VerifyOp, ANY, Missing(n, stages).nextCancel, "u");
      var held := Missing(n + 2, stages);
      && held == d.(w := held.w, inFlight := Holding(t), nextCancel := d.nextCancel + 1, released := false)
      && ReadyFor(held.w) && held.w.armed == d.w.armed && held.w.busy
      && Missing(n + 3, stages)
         == held.(w := Missing(n + 3, stages).w, inFlight := NoMethod, spawned := [t], cancelSlot := Some(t.cancel))
      && ReadyFor(Missing(n + 3, stages).w) && Missing(n + 3, stages).w.armed == d.w.armed
  {
    hide Missing, Claim, DeleteFinger, List, Release, Suspend, RunTask;
    NextMissing(n, stages);
    NextMissing(n + 1, stages);
    NextMissing(n + 2, stages);
  }

  /** The first verify is over and the second holds its token, while the first one's ender is outstanding. */
  lemma EnderOutstanding(stages: Stages)
    ensures
      var d, t := Missing(8, stages), Task(VerifyOp, ANY, 1, "u");
      && d.inFlight == Holding(t) && d.enders == 1 && d.spawned == [] && d.running.None? && d.cancelled == {}
      && ReadyFor(d.w) && !d.w.armed
      && Missing(9, stages) == d.(w := Missing(9, stages).w, inFlight := NoMethod, spawned := [t],
                                  cancelSlot := Some(1))
      && ReadyFor(Missing(9, stages).w) && !Missing(9, stages).w.armed
  {
    hide Missing, Verifying, Enrolling, Claim, DeleteFinger, List, Release, Suspend;
    ClaimedFirst(stages);
    StartsVerify(1, stages);
    NextMissing(4, stages);
    NextMissing(5, stages);
    VerifyWaits(Missing(5, stages).w.(script := [], host := []));
    StartsVerify(6, stages);
  }

  /**
   * A reachable run in which a stop is called while an op lives, and the op waits for a finger all the
   * same: the ender of an earlier op had emptied the shared slot in between.
   */
  lemma StopMissesTheOp(stages: Stages)
    ensures
      var t := Task(VerifyOp, ANY, 1, "u");
      && Missing(8, stages).inFlight == Holding(t) && Missing(8, stages).enders > 0
      && Lives(Missing(10, stages), t) && MissedStop()[10].action == CallStop && Enabled(Missing(10, stages), CallStop)
      && Lives(Missing(11, stages), t) && t.cancel !in Missing(11, stages).cancelled
      && Missing(12, stages).running == Some(t) && !Missing(12, stages).early
      && |Missing(13, stages).w.wire| >= |Missing(11, stages).w.wire| + 2
      && IsTouchWait(Missing(13, stages).w.wire[|Missing(13, stages).w.wire| - 2].out)
  {
    hide Missing, Verifying, Enrolling, Claim, DeleteFinger, List, Release, Suspend;
    EnderOutstanding(stages);
    NextMissing(9, stages);
    NextMissing(10, stages);
    NextMissing(11, stages);
    NextMissing(12, stages);
    VerifyWaits(Missing(12, stages).w.(script := [Reply([0, 1])], host := []));
  }
}
