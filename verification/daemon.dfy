/**
 * The daemon around the worker (crates/elanprintd/src/main.rs) as a transition system: D-Bus methods
 * one at a time, spawned ops, the sleep listener and shutdown, interleaved wherever the source awaits
 * or takes the worker lock.
 */
module Daemon {
  import opened Core
  import opened Proto
  import opened Store
  import opened WorkerSpec
  import opened Arming

  /** A verify or enroll that holds an OpToken; `user` is the claimed user its caller was checked against. */
  datatype Task = Task(kind: OpKind, finger: string, cancel: nat, user: string)

  /** Where the one D-Bus method in flight stands. */
  datatype Method =
    | NoMethod
    | Guarding(kind: OpKind, finger: string, user: string)   // caller checked, busy flag not yet taken
    | Holding(task: Task)                                     // token taken, cancel slot not yet set
    | Releasing                                               // op told to stop, waiting for the worker
    | DeletingOne(user: string, finger: string)               // claimed user read, waiting for the worker
    | DeletingAll(user: string, left: seq<string>)

  datatype D = D(
    w: W,
    inFlight: Method,
    spawned: seq<Task>,        // ops waiting for the worker lock
    running: Option<Task>,     // the op that holds it
    enders: nat,               // finished ops yet to clear the cancel slot
    cancelSlot: Option<nat>,
    cancelled: set<nat>,
    nextCancel: nat,
    suspending: bool,          // sleep signalled, waiting for the worker
    exiting: bool,             // shutdown signalled, waiting for the worker
    released: bool,            // bookkeeping: a release happened since the live token was taken
    early: bool)               // bookkeeping: the running op's token was cancelled before it took the lock

  function Boot(file: Prints): D {
    D(Fresh(file), NoMethod, [], None, 0, None, {}, 0, false, false, false, false)
  }

  datatype Action =
    | CallClaim(user: string)
    | CallRelease
    | FinishRelease
    | CallStart(kind: OpKind, finger: string)
    | TakeToken
    | Spawn
    | CallStop
    | CallDelete(finger: string)
    | FinishDelete
    | CallDeleteAll(user: string)
    | DeleteNext
    | OpLocks(i: nat)
    | OpEnds
    | OpClearsSlot
    | SleepStops
    | SleepSuspends
    | Wakes
    | ExitStops
    | ExitReleases

  /** An action together with what transport and host answer during it. */
  datatype Step2 = Step2(action: Action, script: seq<Outcome>, host: seq<bool>)

  predicate LockFree(d: D) {
    d.running.None?
  }

  predicate Enabled(d: D, a: Action) {
    match a
    case CallClaim(_) => d.inFlight.NoMethod? && LockFree(d)
    case CallRelease => d.inFlight.NoMethod?
    case FinishRelease => d.inFlight.Releasing? && LockFree(d)
    case CallStart(_, _) => d.inFlight.NoMethod?
    case TakeToken => d.inFlight.Guarding?
    case Spawn => d.inFlight.Holding?
    case CallStop => d.inFlight.NoMethod?
    case CallDelete(_) => d.inFlight.NoMethod?
    case FinishDelete => d.inFlight.DeletingOne? && LockFree(d)
    case CallDeleteAll(_) => d.inFlight.NoMethod? && LockFree(d)
    case DeleteNext => d.inFlight.DeletingAll? && LockFree(d)
    case OpLocks(i) => i < |d.spawned| && LockFree(d)
    case OpEnds => d.running.Some?
    case OpClearsSlot => d.enders > 0
    case SleepStops => !d.suspending
    case SleepSuspends => d.suspending && LockFree(d)
    case Wakes => !d.suspending && LockFree(d)
    case ExitStops => !d.exiting
    case ExitReleases => d.exiting && LockFree(d)
  }

  /** stop_running: take the cancel slot and cancel its token. */
  function Stopped(d: D): D {
    d.(cancelSlot := None, cancelled := d.cancelled + if d.cancelSlot.Some? then {d.cancelSlot.value} else {})
  }

  /** The state after an enabled action; `w` is the worker with its environment for this action. */
  ghost function Effect(d: D, a: Action, w: W, stages: Stages): D
    requires Enabled(d, a)
  {
    match a
    case CallClaim(user) => d.(w := Claim(w, user).0)
    case CallRelease => Stopped(d).(inFlight := Releasing)
    case FinishRelease => d.(w := Release(w), inFlight := NoMethod, released := true)
    case CallStart(kind, finger) =>
      if w.flagUser.Some? then d.(inFlight := Guarding(kind, finger, w.flagUser.value)) else d
    case TakeToken =>
      var m := d.inFlight;
      var (busy, r) := TryBegin(w.flagClaimed, w.busy);
      if r.Success? then
        d.(w := w.(busy := busy), inFlight := Holding(Task(m.kind, m.finger, d.nextCancel, m.user)),
           nextCancel := d.nextCancel + 1, released := false)
      else d.(inFlight := NoMethod)
    case Spawn =>
      d.(spawned := d.spawned + [d.inFlight.task], cancelSlot := Some(d.inFlight.task.cancel), inFlight := NoMethod)
    case CallStop => Stopped(d)
    case CallDelete(finger) =>
      if w.flagUser.Some? then d.(inFlight := DeletingOne(w.flagUser.value, finger)) else d
    case FinishDelete => d.(w := DeleteFinger(w, d.inFlight.user, d.inFlight.finger).0, inFlight := NoMethod)
    case CallDeleteAll(user) =>
      var (w1, names) := List(w, user);
      d.(w := w1, inFlight := if names.Success? then DeletingAll(user, names.value) else NoMethod)
    case DeleteNext =>
      var m := d.inFlight;
      if m.left == [] then d.(inFlight := NoMethod)
      else
        var (w1, r) := DeleteFinger(w, m.user, m.left[0]);
        d.(w := w1, inFlight := if r.Success? then DeletingAll(m.user, m.left[1..]) else NoMethod)
    case OpLocks(i) =>
      d.(running := Some(d.spawned[i]), spawned := d.spawned[..i] + d.spawned[i + 1..],
         early := d.spawned[i].cancel in d.cancelled)
    case OpEnds =>
      var met := if d.early then Heeding(w, d.running.value) else w;
      d.(w := RunTask(met, d.running.value, stages).(busy := false), running := None, enders := d.enders + 1)
    case OpClearsSlot => d.(cancelSlot := None, enders := d.enders - 1)
    case SleepStops => Stopped(d).(suspending := true)
    case SleepSuspends => d.(w := Suspend(w), suspending := false)
    case Wakes => d.(w := Resume(w))
    case ExitStops => Stopped(d).(exiting := true)
    case ExitReleases => d.(w := Release(w), released := true)
  }

  /** The environment an op meets under a token already cancelled: its first round finds it so. */
  function Heeding(w: W, t: Task): W {
    if w.usb.None? then w
    else if t.kind.VerifyOp? && w.armed then w.(script := [CancelWins] + w.script)
    else w.(script := [NextOutcome(w), CancelWins] + Pop(w.script))
  }

  ghost function RunTask(w: W, t: Task, stages: Stages): W {
    Performed(w, t.kind, t.finger, stages)
  }

  ghost function Apply(d: D, s: Step2, stages: Stages): D {
    if Enabled(d, s.action) then Effect(d, s.action, d.w.(script := s.script, host := s.host), stages) else d
  }

  ghost function Execute(d: D, steps: seq<Step2>, stages: Stages): D {
    if steps == [] then d else Apply(Execute(d, steps[..|steps| - 1], stages), steps[|steps| - 1], stages)
  }

  // ---------- what holds in every reachable state ----------

  /** Every OpToken alive: taken, queued for the lock, or held by the running op. */
  ghost function Tokens(d: D): seq<Task> {
    (if d.inFlight.Holding? then [d.inFlight.task] else []) + d.spawned
      + (if d.running.Some? then [d.running.value] else [])
  }

  /** The claim is still the one the token's caller was checked against, or gone. */
  predicate ClaimOf(w: W, user: string) {
    w.claimed == None || w.claimed == Some(user)
  }

  ghost predicate DaemonInvariant(d: D) {
    && ArmingHolds(d.w) && ClaimMirrored(d.w)
    && |Tokens(d)| <= 1
    && (d.w.busy <==> |Tokens(d)| == 1)
    && (|Tokens(d)| == 1 ==> ClaimOf(d.w, Tokens(d)[0].user) && (d.released ==> d.w.claimed == None))
    && (d.inFlight.Guarding? ==> ClaimOf(d.w, d.inFlight.user))
  }

  lemma TaskKeepsClaim(w: W, t: Task, stages: Stages)
    requires ArmingHolds(w)
    ensures ArmingHolds(RunTask(w, t, stages)) && SameClaim(w, RunTask(w, t, stages))
  {
    hide Verifying, Enrolling, ArmingHoldsFor, Grew;
    VerifyingKeeps(w, t.finger);
    EnrollingKeeps(w, t.finger, stages);
  }

  lemma TokensSplit(d: D, i: nat)
    requires i < |d.spawned| && d.running.None? && |Tokens(d)| <= 1
    ensures
      var d' := d.(running := Some(d.spawned[i]), spawned := d.spawned[..i] + d.spawned[i + 1..]);
      Tokens(d') == Tokens(d)
  {
  }

  lemma ClaimKeepsInvariant(d: D, user: string, w: W, stages: Stages)
    requires DaemonInvariant(d) && Enabled(d, CallClaim(user)) && w == d.w.(script := w.script, host := w.host)
    ensures DaemonInvariant(Effect(d, CallClaim(user), w, stages))
  {
    hide Claim, Grew, ArmingHoldsFor;
    ClaimKeeps(w, user);
    ClaimMirrors(w, user);
  }

  lemma DeletesFrame(d: D, a: Action, w: W, stages: Stages)
    requires ArmingHolds(w) && Enabled(d, a) && w == d.w.(script := w.script, host := w.host) && IsDeletion(a)
    ensures ArmingHolds(Effect(d, a, w, stages).w) && SameClaim(w, Effect(d, a, w, stages).w)
  {
    hide DeleteFinger, List, Grew, ArmingHoldsFor, Claim, Release, Suspend, RunTask, Heeding, Stopped;
    match a {
      case FinishDelete => DeleteKeeps(w, d.inFlight.user, d.inFlight.finger);
      case CallDeleteAll(user) => ListFrames(w, user);
      case DeleteNext =>
        if d.inFlight.left != [] {
          DeleteKeeps(w, d.inFlight.user, d.inFlight.left[0]);
        }
    }
  }

  predicate IsDeletion(a: Action) {
    a.FinishDelete? || a.CallDeleteAll? || a.DeleteNext?
  }

  lemma DeletingKeepsInvariant(d: D, a: Action, w: W, stages: Stages)
    requires DaemonInvariant(d) && Enabled(d, a) && w == d.w.(script := w.script, host := w.host) && IsDeletion(a)
    ensures DaemonInvariant(Effect(d, a, w, stages))
  {
    hide DeleteFinger, List, Grew, ArmingHoldsFor, Claim, Release, Suspend, RunTask, Heeding, Stopped, Tokens;
    DeletesFrame(d, a, w, stages);
    SameTokens(d, Effect(d, a, w, stages));
  }

  lemma SameTokens(d: D, d': D)
    requires d'.spawned == d.spawned && d'.running == d.running
    requires d'.inFlight == d.inFlight || (!d.inFlight.Holding? && !d'.inFlight.Holding?)
    ensures Tokens(d') == Tokens(d)
  {
  }

  predicate ReachesWorker(a: Action) {
    a.FinishRelease? || a.SleepSuspends? || a.Wakes? || a.ExitReleases?
  }

  lemma WorkingKeepsInvariant(d: D, a: Action, w: W, stages: Stages)
    requires DaemonInvariant(d) && Enabled(d, a) && w == d.w.(script := w.script, host := w.host) && ReachesWorker(a)
    ensures DaemonInvariant(Effect(d, a, w, stages))
  {
    hide RunTask, AbortSession, Grew, ArmingHoldsFor, Claim, DeleteFinger, List, Heeding, Stopped, Tokens;
    match a {
      case SleepSuspends =>
        AbortKeeps(w);
        DisarmedHolds(AbortSession(w).(armed := false));
      case Wakes => DisarmedHolds(w);
      case FinishRelease => AbortKeeps(w);
      case ExitReleases => AbortKeeps(w);
    }
    SameTokens(d, Effect(d, a, w, stages));
  }

  lemma EndingKeepsInvariant(d: D, w: W, stages: Stages)
    requires DaemonInvariant(d) && Enabled(d, OpEnds) && w == d.w.(script := w.script, host := w.host)
    ensures DaemonInvariant(Effect(d, OpEnds, w, stages))
  {
    hide RunTask, Grew, ArmingHoldsFor, Heeding;
    HeedingKeeps(w, d.running.value);
    TaskKeepsClaim(if d.early then Heeding(w, d.running.value) else w, d.running.value, stages);
  }

  lemma HeedingKeeps(w: W, t: Task)
    ensures Heeding(w, t) == w.(script := Heeding(w, t).script)
  {
  }

  predicate MovesToken(a: Action) {
    a.TakeToken? || a.Spawn? || a.OpLocks?
  }

  lemma TakingKeepsInvariant(d: D, w: W, stages: Stages)
    requires DaemonInvariant(d) && Enabled(d, TakeToken) && w == d.w.(script := w.script, host := w.host)
    ensures DaemonInvariant(Effect(d, TakeToken, w, stages))
  {
    hide Grew, ArmingHoldsFor;
  }

  lemma SpawningKeepsInvariant(d: D, w: W, stages: Stages)
    requires DaemonInvariant(d) && Enabled(d, Spawn) && w == d.w.(script := w.script, host := w.host)
    ensures DaemonInvariant(Effect(d, Spawn, w, stages))
  {
    hide Grew, ArmingHoldsFor;
    assert Tokens(Effect(d, Spawn, w, stages)) == Tokens(d);
  }

  lemma LockingKeepsInvariant(d: D, i: nat, w: W, stages: Stages)
    requires DaemonInvariant(d) && Enabled(d, OpLocks(i)) && w == d.w.(script := w.script, host := w.host)
    ensures DaemonInvariant(Effect(d, OpLocks(i), w, stages))
  {
    hide Grew, ArmingHoldsFor;
    TokensSplit(d, i);
    assert Tokens(Effect(d, OpLocks(i), w, stages)) == Tokens(d);
  }

  /** stop_running touches the cancel slot and nothing else. */
  lemma StoppedFrames(d: D)
    ensures Stopped(d) == d.(cancelSlot := Stopped(d).cancelSlot, cancelled := Stopped(d).cancelled)
  {
  }

  lemma SharingKeepsInvariant(d: D, a: Action, w: W, stages: Stages)
    requires DaemonInvariant(d) && Enabled(d, a) && w == d.w.(script := w.script, host := w.host)
    requires !IsDeletion(a) && !ReachesWorker(a) && !a.CallClaim? && !a.OpEnds? && !MovesToken(a)
    ensures DaemonInvariant(Effect(d, a, w, stages))
  {
    hide Grew, ArmingHoldsFor, Claim, Release, Suspend, Resume, DeleteFinger, List, RunTask, Heeding, Stopped, Tokens;
    StoppedFrames(d);
    SameTokens(d, Effect(d, a, w, stages));
  }

  lemma EffectKeepsInvariant(d: D, a: Action, w: W, stages: Stages)
    requires DaemonInvariant(d) && Enabled(d, a) && w == d.w.(script := w.script, host := w.host)
    ensures DaemonInvariant(Effect(d, a, w, stages))
  {
    hide Effect, DaemonInvariant;
    if a.CallClaim? {
      ClaimKeepsInvariant(d, a.user, w, stages);
    } else if IsDeletion(a) {
      DeletingKeepsInvariant(d, a, w, stages);
    } else if ReachesWorker(a) {
      WorkingKeepsInvariant(d, a, w, stages);
    } else if a.OpEnds? {
      EndingKeepsInvariant(d, w, stages);
    } else if a.TakeToken? {
      TakingKeepsInvariant(d, w, stages);
    } else if a.Spawn? {
      SpawningKeepsInvariant(d, w, stages);
    } else if a.OpLocks? {
      LockingKeepsInvariant(d, a.i, w, stages);
    } else {
      SharingKeepsInvariant(d, a, w, stages);
    }
  }

  lemma ListFrames(w: W, user: string)
    ensures SameClaim(w, List(w, user).0) && List(w, user).0.wire == w.wire && List(w, user).0.usb == w.usb
    ensures List(w, user).0.armed == w.armed && List(w, user).0.openings == w.openings
  {
  }

  /**
   * Over every interleaving: at most one token, busy exactly while one lives, the shared claim mirrors
   * the worker's, and under a live token the claimed user is the one checked, or nobody.
   */
  lemma {:induction false} InterleavingSafe(file: Prints, steps: seq<Step2>, stages: Stages)
    ensures DaemonInvariant(Execute(Boot(file), steps, stages))
  {
    if steps != [] {
      hide Effect, DaemonInvariant;
      var before, last := steps[..|steps| - 1], steps[|steps| - 1];
      InterleavingSafe(file, before, stages);
      var d := Execute(Boot(file), before, stages);
      if Enabled(d, last.action) {
        EffectKeepsInvariant(d, last.action, d.w.(script := last.script, host := last.host), stages);
      }
    } else {
      BootIsSafe(file);
    }
  }

  lemma BootIsSafe(file: Prints)
    ensures DaemonInvariant(Boot(file))
  {
  }

  /** Without a claim a verify sends at most arming and abort, an enroll at most abort. */
  lemma UnclaimedTaskIsSilent(w: W, t: Task, stages: Stages)
    requires ArmingHolds(w) && w.claimed == None
    ensures Sent(w, RunTask(w, t, stages), {Some(0x04), Some(0x02)})
  {
    hide ArmingHoldsFor, Grew, VerifyLoop, EnrollLoop, FreeSlot, AbortSession;
    var ops: set<Option<byte>> := {Some(0x04), Some(0x02)};
    GrewNot(w.wire, ops);
    match t.kind {
      case VerifyOp =>
        SendArmKeeps(w);
        GrewMore(w.wire, SendArm(w).0.wire, ARM_OPS, ops);
        var s := Sink(VerifyOp, false, []);
        UnclaimedVerify(w, t.finger, s);
        VerifyInnerKeeps(w, t.finger, s);
        var (w1, s1, r) := VerifyInner(w, t.finger, s);
        FinishKeeps(w, w1, s1, r, ops);
      case EnrollOp =>
        var s := Sink(EnrollOp, false, []);
        FinishKeeps(w, w, s, Failure(Unclaimed), ops);
    }
  }

  lemma UnclaimedVerify(w: W, finger: string, s: Sink)
    requires w.claimed == None
    ensures VerifyInner(w, finger, s).0.wire == if w.armed then w.wire else SendArm(w).0.wire
  {
    hide VerifyLoop;
  }

  /** An op that runs after a release in its token's lifetime sends no touch-wait and no commit. */
  lemma ReleasedOpTouchesNothing(file: Prints, steps: seq<Step2>, last: Step2, stages: Stages)
    requires
      var d := Execute(Boot(file), steps, stages);
      last.action == OpEnds && Enabled(d, OpEnds) && d.released
    ensures
      var d := Execute(Boot(file), steps, stages);
      var wire := Apply(d, last, stages).w.wire;
      && d.w.wire <= wire
      && forall i :: |d.w.wire| <= i < |wire| ==> !IsTouchWait(wire[i].out) && !IsCommit(wire[i].out)
  {
    hide RunTask, Execute, ArmingHoldsFor;
    InterleavingSafe(file, steps, stages);
    var d := Execute(Boot(file), steps, stages);
    var w := d.w.(script := last.script, host := last.host);
    UnclaimedTaskIsSilent(if d.early then Heeding(w, d.running.value) else w, d.running.value, stages);
  }

  lemma EffectKeepsOrEndsClaim(d: D, a: Action, w: W, stages: Stages)
    requires ArmingHolds(w) && ClaimMirrored(w) && w.busy
    requires Enabled(d, a) && w == d.w.(script := w.script, host := w.host)
    ensures Effect(d, a, w, stages).w.claimed == w.claimed || Effect(d, a, w, stages).w.claimed == None
  {
    hide RunTask, Claim, DeleteFinger, AbortSession, ArmingHoldsFor, Grew, List;
    match a {
      case CallClaim(user) => ClaimMirrors(w, user);
      case FinishDelete => DeletesFrame(d, a, w, stages);
      case CallDeleteAll(_) => DeletesFrame(d, a, w, stages);
      case DeleteNext => DeletesFrame(d, a, w, stages);
      case OpEnds => TaskKeepsClaim(if d.early then Heeding(w, d.running.value) else w, d.running.value, stages);
      case SleepSuspends => AbortKeeps(w);
      case _ =>
    }
  }

  /** While a token lives, an action either keeps the claimed user or ends the claim; it never hands it over. */
  lemma ClaimOnlyEndsUnderToken(file: Prints, steps: seq<Step2>, last: Step2, stages: Stages)
    requires |Tokens(Execute(Boot(file), steps, stages))| == 1
    ensures
      var d := Execute(Boot(file), steps, stages);
      var d' := Apply(d, last, stages);
      d'.w.claimed == d.w.claimed || d'.w.claimed == None
  {
    hide Execute, Effect, Tokens, ArmingHoldsFor;
    InterleavingSafe(file, steps, stages);
    var d := Execute(Boot(file), steps, stages);
    if Enabled(d, last.action) {
      EffectKeepsOrEndsClaim(d, last.action, d.w.(script := last.script, host := last.host), stages);
    }
  }
}
