/**
 * What each action of the daemon comes to (crates/elanprintd/src/main.rs), over every interleaving that
 * leads up to it: where ops and deletes come from, what they are run on, and what a release, a sleep, a
 * wake and a claim leave behind.
 */
module DaemonActions {
  import opened Core
  import opened Proto
  import opened Store
  import opened WorkerSpec
  import opened Arming
  import opened Outcomes
  import opened EraseAccounting
  import opened Daemon
  import opened DaemonStop
  import Names

  // ---------- ops end as they were told to ----------

  lemma KeepsRunning(d: D, s: Step2, stages: Stages)
    requires d.running.Some? && s.action != OpEnds
    ensures Daemon.Apply(d, s, stages).running == d.running && Daemon.Apply(d, s, stages).early == d.early
  {
    hide Claim, DeleteFinger, List, Release, Suspend, Resume, RunTask, Heeding, Stopped, TryBegin;
    StoppedFrames(d);
  }

  ghost predicate NoOpEnds(steps: seq<Step2>) {
    forall i :: 0 <= i < |steps| ==> steps[i].action != OpEnds
  }

  /** From the moment an op takes the lock until it ends it is the running one, early exactly if already cancelled. */
  lemma {:induction false} RunsFromItsLock(file: Prints, steps: seq<Step2>, lock: Step2, more: seq<Step2>,
                                          stages: Stages)
    requires lock.action.OpLocks? && Enabled(Execute(Boot(file), steps, stages), lock.action) && NoOpEnds(more)
    ensures
      var d, d' := Execute(Boot(file), steps, stages), Execute(Boot(file), steps + [lock] + more, stages);
      var t := d.spawned[lock.action.i];
      d'.running == Some(t) && (d'.early <==> t.cancel in d.cancelled)
    decreases |more|
  {
    hide Execute, Daemon.Apply;
    ExecuteMore(Boot(file), steps, lock, stages);
    LockTakes(Execute(Boot(file), steps, stages), lock, stages);
    if more == [] {
      assert steps + [lock] + more == steps + [lock];
    } else {
      var init, last := more[..|more| - 1], more[|more| - 1];
      RunsFromItsLock(file, steps, lock, init, stages);
      assert steps + [lock] + more == (steps + [lock] + init) + [last];
      ExecuteMore(Boot(file), steps + [lock] + init, last, stages);
      KeepsRunning(Execute(Boot(file), steps + [lock] + init, stages), last, stages);
    }
  }

  lemma LockTakes(d: D, lock: Step2, stages: Stages)
    requires lock.action.OpLocks? && Enabled(d, lock.action)
    ensures
      var d', t := Daemon.Apply(d, lock, stages), d.spawned[lock.action.i];
      d'.running == Some(t) && (d'.early <==> t.cancel in d.cancelled)
  {
  }

  /** No touch-wait and no commit among what was sent. */
  ghost predicate Harmless(before: seq<Exchange>, after: seq<Exchange>) {
    && before <= after
    && forall i :: |before| <= i < |after| ==> !IsTouchWait(after[i].out) && !IsCommit(after[i].out)
  }

  /** An op whose token was cancelled before it had the worker sends no touch-wait and no commit. */
  lemma StoppedBeforeItRan(file: Prints, steps: seq<Step2>, lock: Step2, more: seq<Step2>, last: Step2, stages: Stages)
    requires lock.action.OpLocks? && Enabled(Execute(Boot(file), steps, stages), lock.action) && NoOpEnds(more)
    requires
      var d := Execute(Boot(file), steps, stages);
      d.spawned[lock.action.i].cancel in d.cancelled
    requires last.action == OpEnds
    ensures Harmless(Execute(Boot(file), steps + [lock] + more, stages).w.wire,
                     Execute(Boot(file), steps + [lock] + more + [last], stages).w.wire)
  {
    hide Execute, Daemon.Apply;
    RunsFromItsLock(file, steps, lock, more, stages);
    EarlyStopSilencesTheOp(file, steps + [lock] + more, last, stages);
    ExecuteMore(Boot(file), steps + [lock] + more, last, stages);
  }

  predicate IsRelease(a: Action) {
    a.FinishRelease? || a.ExitReleases?
  }

  lemma KeepsToken(d: D, s: Step2, stages: Stages)
    requires DaemonInvariant(d) && |Tokens(d)| == 1 && s.action != OpEnds
    ensures
      var d' := Daemon.Apply(d, s, stages);
      && |Tokens(d')| == 1 && (d.released ==> d'.released)
      && (IsRelease(s.action) && Enabled(d, s.action) ==> d'.released)
  {
    hide Tokens;
    if Enabled(d, s.action) {
      TokensMove(d, s, stages);
      ReleasedKept(d, s, stages);
    }
  }

  lemma ReleasedKept(d: D, s: Step2, stages: Stages)
    requires Enabled(d, s.action) && d.w.busy
    ensures d.released ==> Daemon.Apply(d, s, stages).released
    ensures IsRelease(s.action) ==> Daemon.Apply(d, s, stages).released
  {
    hide Claim, DeleteFinger, List, Release, Suspend, Resume, RunTask, Heeding, Stopped;
    StoppedFrames(d);
  }

  lemma {:induction false} ReleasedStays(file: Prints, steps: seq<Step2>, release: Step2, more: seq<Step2>,
                                         stages: Stages)
    requires
      var d := Execute(Boot(file), steps, stages);
      |Tokens(d)| == 1 && IsRelease(release.action) && Enabled(d, release.action)
    requires NoOpEnds(more)
    ensures
      var d' := Execute(Boot(file), steps + [release] + more, stages);
      |Tokens(d')| == 1 && d'.released
    decreases |more|
  {
    hide Execute, Daemon.Apply, Tokens, DaemonInvariant;
    InterleavingSafe(file, steps, stages);
    ExecuteMore(Boot(file), steps, release, stages);
    KeepsToken(Execute(Boot(file), steps, stages), release, stages);
    if more == [] {
      assert steps + [release] + more == steps + [release];
    } else {
      var init, last := more[..|more| - 1], more[|more| - 1];
      ReleasedStays(file, steps, release, init, stages);
      InterleavingSafe(file, steps + [release] + init, stages);
      assert steps + [release] + more == (steps + [release] + init) + [last];
      ExecuteMore(Boot(file), steps + [release] + init, last, stages);
      KeepsToken(Execute(Boot(file), steps + [release] + init, stages), last, stages);
    }
  }

  /** Once the device is released under an op's token, that op ends without a touch-wait or a commit. */
  lemma ReleasedBeforeItEnds(file: Prints, steps: seq<Step2>, release: Step2, more: seq<Step2>, last: Step2,
                             stages: Stages)
    requires
      var d := Execute(Boot(file), steps, stages);
      |Tokens(d)| == 1 && IsRelease(release.action) && Enabled(d, release.action)
    requires NoOpEnds(more) && last.action == OpEnds
    requires Enabled(Execute(Boot(file), steps + [release] + more, stages), OpEnds)
    ensures Harmless(Execute(Boot(file), steps + [release] + more, stages).w.wire,
                     Execute(Boot(file), steps + [release] + more + [last], stages).w.wire)
  {
    hide Execute, Daemon.Apply, Tokens;
    ReleasedStays(file, steps, release, more, stages);
    ReleasedOpTouchesNothing(file, steps + [release] + more, last, stages);
    ExecuteMore(Boot(file), steps + [release] + more, last, stages);
  }

  /** An op sends the commands of its own kind, ends with its token dropped, and only an enrolment changes the file. */
  lemma OpSendsItsOwn(file: Prints, steps: seq<Step2>, last: Step2, stages: Stages)
    requires last.action == OpEnds && Enabled(Execute(Boot(file), steps, stages), OpEnds)
    ensures
      var d, d' := Execute(Boot(file), steps, stages), Execute(Boot(file), steps + [last], stages);
      var kind := d.running.value.kind;
      && Sent(d.w, d'.w, if kind.VerifyOp? then VERIFY_OPS else ENROLL_OPS)
      && (kind.VerifyOp? ==> d'.w.file == d.w.file)
      && !d'.w.busy && d'.running == None && d'.enders == d.enders + 1 && d'.spawned == d.spawned
  {
    hide Execute, Verifying, Enrolling, ArmingHoldsFor, Grew, Heeding;
    InterleavingSafe(file, steps, stages);
    ExecuteMore(Boot(file), steps, last, stages);
    var d := Execute(Boot(file), steps, stages);
    var w := d.w.(script := last.script, host := last.host);
    HeedingKeeps(w, d.running.value);
    var met := if d.early then Heeding(w, d.running.value) else w;
    VerifyingKeeps(met, d.running.value.finger);
    EnrollingKeeps(met, d.running.value.finger, stages);
  }

  // ---------- claim, release and sleep ----------

  /** A claim takes hold exactly when no token lives, nobody else holds it, a handle is had and the count answered. */
  lemma ClaimLands(file: Prints, steps: seq<Step2>, last: Step2, stages: Stages)
    requires last.action.CallClaim? && Enabled(Execute(Boot(file), steps, stages), last.action)
    ensures
      var d, d' := Execute(Boot(file), steps, stages), Execute(Boot(file), steps + [last], stages);
      var w, user := d.w.(script := last.script, host := last.host), last.action.user;
      var granted := |Tokens(d)| == 0 && (d.w.claimed == None || d.w.claimed == Some(user)) && GetsHandle(w)
                     && TwoBytes(First(ArmScript(w)));
      && (granted ==> d'.w.armed && d'.w.claimed == Some(user) && d'.w.usb == Some(HandleFor(w)))
      && (!granted ==> d'.w.claimed == d.w.claimed && d'.w.armed == d.w.armed)
      && d' == d.(w := d'.w)
  {
    hide Execute, Claim, ArmingHoldsFor, Grew;
    InterleavingSafe(file, steps, stages);
    ExecuteMore(Boot(file), steps, last, stages);
    var d := Execute(Boot(file), steps, stages);
    ClaimExactly(d.w.(script := last.script, host := last.host), last.action.user);
  }

  /** A release, or the shutdown's, ends the claim, disarms, and sends abort last on the held handle. */
  lemma ReleaseLands(file: Prints, steps: seq<Step2>, last: Step2, stages: Stages)
    requires IsRelease(last.action) && Enabled(Execute(Boot(file), steps, stages), last.action)
    ensures
      var d, d' := Execute(Boot(file), steps, stages), Execute(Boot(file), steps + [last], stages);
      && AbortedLast(d.w, d'.w) && d'.w.claimed == None && !d'.w.flagClaimed && d'.w.flagUser == None && !d'.w.armed
      && d'.w.usb == d.w.usb && d'.w.file == d.w.file && d'.released
      && d'.inFlight == (if last.action.FinishRelease? then NoMethod else d.inFlight)
      && Tokens(d') == Tokens(d)
  {
    hide Execute, Release, Claim, DeleteFinger, List, Suspend, RunTask, Heeding, AbortedLast;
    ExecuteMore(Boot(file), steps, last, stages);
    var d := Execute(Boot(file), steps, stages);
    ReleaseEnds(d.w.(script := last.script, host := last.host));
    SameAborted(d.w, d.w.(script := last.script, host := last.host), Execute(Boot(file), steps + [last], stages).w);
  }

  lemma SameAborted(w: W, v: W, w': W)
    requires w.usb == v.usb && w.wire == v.wire
    ensures AbortedLast(w, w') <==> AbortedLast(v, w')
  {
  }

  /** Going to sleep drops the handle after an abort and keeps the claim; waking drops any handle and sends nothing. */
  lemma SleepLands(file: Prints, steps: seq<Step2>, last: Step2, stages: Stages)
    requires last.action.SleepSuspends? || last.action.Wakes?
    requires Enabled(Execute(Boot(file), steps, stages), last.action)
    ensures
      var d, d' := Execute(Boot(file), steps, stages), Execute(Boot(file), steps + [last], stages);
      && d'.w.usb == None && !d'.w.armed && SameClaim(d.w, d'.w) && d'.w.file == d.w.file && !d'.suspending
      && (if last.action.Wakes? then d'.w.wire == d.w.wire else AbortedLast(d.w, d'.w))
      && d' == d.(w := d'.w, suspending := false)
  {
    hide Execute, Suspend, Claim, DeleteFinger, List, Release, RunTask, Heeding, AbortedLast;
    ExecuteMore(Boot(file), steps, last, stages);
    var d := Execute(Boot(file), steps, stages);
    SuspendEnds(d.w.(script := last.script, host := last.host));
    SameAborted(d.w, d.w.(script := last.script, host := last.host), Execute(Boot(file), steps + [last], stages).w);
  }

  // ---------- where ops and deletes come from ----------

  /** Some step of the run called this while that user held the claim. */
  ghost predicate CalledFor(file: Prints, steps: seq<Step2>, a: Action, user: string, stages: Stages) {
    exists k :: 0 <= k < |steps| && steps[k].action == a && Enabled(Execute(Boot(file), steps[..k], stages), a)
                && Execute(Boot(file), steps[..k], stages).w.claimed == Some(user)
  }

  lemma CalledStays(file: Prints, steps: seq<Step2>, last: Step2, a: Action, user: string, stages: Stages)
    requires CalledFor(file, steps, a, user, stages)
    ensures CalledFor(file, steps + [last], a, user, stages)
  {
    hide Execute, Enabled;
    var k :| 0 <= k < |steps| && steps[k].action == a && Enabled(Execute(Boot(file), steps[..k], stages), a)
             && Execute(Boot(file), steps[..k], stages).w.claimed == Some(user);
    assert (steps + [last])[..k] == steps[..k] && (steps + [last])[k] == steps[k];
  }

  lemma CalledNow(file: Prints, steps: seq<Step2>, last: Step2, user: string, stages: Stages)
    requires Enabled(Execute(Boot(file), steps, stages), last.action)
    requires Execute(Boot(file), steps, stages).w.claimed == Some(user)
    ensures CalledFor(file, steps + [last], last.action, user, stages)
  {
    hide Execute, Enabled;
    assert (steps + [last])[..|steps|] == steps && (steps + [last])[|steps|] == last;
  }

  /** Names listed for the user by some delete-all of the run, of which these are the last ones. */
  ghost predicate ListedFor(file: Prints, steps: seq<Step2>, user: string, left: seq<string>, stages: Stages) {
    exists k :: 0 <= k < |steps| && steps[k].action == CallDeleteAll(user)
                && Enabled(Execute(Boot(file), steps[..k], stages), CallDeleteAll(user))
                && EndsWith(List(Execute(Boot(file), steps[..k], stages).w.(host := steps[k].host), user).1, left)
  }

  ghost predicate EndsWith(listed: Result<seq<string>, WorkerError>, left: seq<string>) {
    listed.Success? && |left| <= |listed.value| && listed.value[|listed.value| - |left|..] == left
  }

  ghost predicate Accounted(file: Prints, steps: seq<Step2>, stages: Stages) {
    var d := Execute(Boot(file), steps, stages);
    && (d.inFlight.Guarding? ==>
          CalledFor(file, steps, CallStart(d.inFlight.kind, d.inFlight.finger), d.inFlight.user, stages))
    && (forall t :: t in Tokens(d) ==> CalledFor(file, steps, CallStart(t.kind, t.finger), t.user, stages))
    && (d.inFlight.DeletingOne? ==>
          CalledFor(file, steps, CallDelete(d.inFlight.finger), d.inFlight.user, stages))
    && (d.inFlight.DeletingAll? ==> ListedFor(file, steps, d.inFlight.user, d.inFlight.left, stages))
  }

  lemma FlightMoves(d: D, s: Step2, stages: Stages)
    requires ClaimMirrored(d.w) && Enabled(d, s.action)
    ensures
      var d' := Daemon.Apply(d, s, stages);
      && (d'.inFlight.Guarding? && d'.inFlight != d.inFlight ==>
            s.action == CallStart(d'.inFlight.kind, d'.inFlight.finger) && d.w.claimed == Some(d'.inFlight.user))
      && (d'.inFlight.DeletingOne? && d'.inFlight != d.inFlight ==>
            s.action == CallDelete(d'.inFlight.finger) && d.w.claimed == Some(d'.inFlight.user))
  {
    hide Effect;
    if !s.action.CallStart? && !s.action.CallDelete? {
      OthersPutNothing(d, s.action, d.w.(script := s.script, host := s.host), stages);
    }
    CallsPut(d, s.action, d.w.(script := s.script, host := s.host), stages);
  }

  lemma CallsPut(d: D, a: Action, w: W, stages: Stages)
    requires ClaimMirrored(w) && Enabled(d, a)
    ensures
      a.CallStart? ==>
        Effect(d, a, w, stages).inFlight
        == if w.claimed.Some? then Guarding(a.kind, a.finger, w.claimed.value) else d.inFlight
    ensures
      a.CallDelete? ==>
        Effect(d, a, w, stages).inFlight
        == if w.claimed.Some? then DeletingOne(w.claimed.value, a.finger) else d.inFlight
  {
  }

  lemma OthersPutNothing(d: D, a: Action, w: W, stages: Stages)
    requires Enabled(d, a) && !a.CallStart? && !a.CallDelete?
    ensures
      var m := Effect(d, a, w, stages).inFlight;
      m == d.inFlight || !(m.Guarding? || m.DeletingOne?)
  {
    hide Claim, DeleteFinger, Release, Suspend, Resume, RunTask, Heeding, Stopped, List, TryBegin;
    StoppedFrames(d);
  }

  lemma ListingMoves(d: D, s: Step2, stages: Stages)
    requires Enabled(d, s.action)
    ensures
      var d' := Daemon.Apply(d, s, stages);
      && (d'.inFlight.DeletingAll? && d'.inFlight != d.inFlight ==>
            || (s.action == CallDeleteAll(d'.inFlight.user)
                && List(d.w.(host := s.host), d'.inFlight.user).1 == Success(d'.inFlight.left))
            || (s.action == DeleteNext && d.inFlight.DeletingAll? && d.inFlight.left != []
                && d'.inFlight == DeletingAll(d.inFlight.user, d.inFlight.left[1..])))
  {
    hide Claim, DeleteFinger, Release, Suspend, Resume, RunTask, Heeding, Stopped, List, TryBegin;
    StoppedFrames(d);
    if s.action.CallDeleteAll? {
      SameListing(d.w.(script := s.script, host := s.host), d.w.(host := s.host), s.action.user);
    }
  }

  lemma SameListing(w: W, v: W, user: string)
    requires w.file == v.file && w.host == v.host
    ensures List(w, user).1 == List(v, user).1
  {
    hide Names.Sorted;
  }

  /** A token is made by the step that takes it, and gone when its op ends. */
  lemma TokensMove(d: D, s: Step2, stages: Stages)
    requires DaemonInvariant(d) && Enabled(d, s.action)
    ensures
      var d' := Daemon.Apply(d, s, stages);
      && (s.action != TakeToken && s.action != OpEnds ==> Tokens(d') == Tokens(d))
      && (s.action == OpEnds ==> Tokens(d') == [])
      && (s.action == TakeToken ==>
            var m := d.inFlight;
            if d.w.claimed.Some? && Tokens(d) == [] then
              d'.inFlight == Holding(Task(m.kind, m.finger, d.nextCancel, m.user)) && Tokens(d') == [d'.inFlight.task]
            else d'.inFlight == NoMethod && Tokens(d') == Tokens(d))
  {
    if s.action.TakeToken? {
      TokenMade(d, s, stages);
    } else if s.action.OpEnds? {
      TokenGone(d, s, stages);
    } else {
      TokensKept(d, s, stages);
    }
  }

  lemma TokenMade(d: D, s: Step2, stages: Stages)
    requires DaemonInvariant(d) && Enabled(d, s.action) && s.action == TakeToken
    ensures
      var d', m := Daemon.Apply(d, s, stages), d.inFlight;
      if d.w.claimed.Some? && Tokens(d) == [] then
        d'.inFlight == Holding(Task(m.kind, m.finger, d.nextCancel, m.user)) && Tokens(d') == [d'.inFlight.task]
      else d'.inFlight == NoMethod && Tokens(d') == Tokens(d)
  {
    hide ArmingHoldsFor;
  }

  lemma TokenGone(d: D, s: Step2, stages: Stages)
    requires DaemonInvariant(d) && Enabled(d, s.action) && s.action == OpEnds
    ensures Tokens(Daemon.Apply(d, s, stages)) == []
  {
    hide ArmingHoldsFor, RunTask, Heeding;
  }

  lemma TokensKept(d: D, s: Step2, stages: Stages)
    requires |Tokens(d)| <= 1 && Enabled(d, s.action) && s.action != TakeToken && s.action != OpEnds
    ensures Tokens(Daemon.Apply(d, s, stages)) == Tokens(d)
  {
    var w := d.w.(script := s.script, host := s.host);
    if s.action.OpLocks? {
      TokensSplit(d, s.action.i);
    } else if s.action.Spawn? {
      TokenQueued(d, w, stages);
    } else {
      hide Tokens;
      OpsStay(d, s.action, w, stages);
      SameTokens(d, Daemon.Apply(d, s, stages));
    }
  }

  lemma TokenQueued(d: D, w: W, stages: Stages)
    requires Enabled(d, Spawn) && |Tokens(d)| <= 1
    ensures Tokens(Effect(d, Spawn, w, stages)) == Tokens(d)
  {
  }

  /** Only taking a token, queueing it, the lock and the end of an op move ops. */
  lemma OpsStay(d: D, a: Action, w: W, stages: Stages)
    requires Enabled(d, a) && !(a.TakeToken? || a.Spawn? || a.OpLocks? || a.OpEnds?)
    ensures
      var d' := Effect(d, a, w, stages);
      && d'.spawned == d.spawned && d'.running == d.running
      && (d'.inFlight == d.inFlight || (!d.inFlight.Holding? && !d'.inFlight.Holding?))
  {
    hide Claim, DeleteFinger, Release, Suspend, Resume, Stopped, List, RunTask, Heeding, TryBegin;
    StoppedFrames(d);
  }

  lemma AccountedMoves(file: Prints, steps: seq<Step2>, last: Step2, stages: Stages)
    requires Accounted(file, steps, stages) && Enabled(Execute(Boot(file), steps, stages), last.action)
    ensures Accounted(file, steps + [last], stages)
  {
    hide Execute, CalledFor, ListedFor, Tokens, Daemon.Apply, Enabled, ArmingHoldsFor;
    InterleavingSafe(file, steps, stages);
    ExecuteMore(Boot(file), steps, last, stages);
    var d := Execute(Boot(file), steps, stages);
    var d' := Execute(Boot(file), steps + [last], stages);
    FlightMoves(d, last, stages);
    ListingMoves(d, last, stages);
    TokensMove(d, last, stages);
    if d'.inFlight.Guarding? {
      Carried(file, steps, last, CallStart(d'.inFlight.kind, d'.inFlight.finger), d'.inFlight.user, stages);
    }
    if d'.inFlight.DeletingOne? {
      Carried(file, steps, last, CallDelete(d'.inFlight.finger), d'.inFlight.user, stages);
    }
    if d'.inFlight.DeletingAll? {
      var m := d'.inFlight;
      if m == d.inFlight {
        ListedStays(file, steps, last, m.user, m.left, m.left, stages);
      } else if last.action == CallDeleteAll(m.user) {
        ListedNow(file, steps, last, m.user, m.left, stages);
      } else {
        ListedStays(file, steps, last, m.user, d.inFlight.left, m.left, stages);
      }
    }
    forall t | t in Tokens(d')
      ensures CalledFor(file, steps + [last], CallStart(t.kind, t.finger), t.user, stages)
    {
      TokenWasThere(d, last, t, stages);
      Carried(file, steps, last, CallStart(t.kind, t.finger), t.user, stages);
    }
  }

  lemma TokenWasThere(d: D, s: Step2, t: Task, stages: Stages)
    requires DaemonInvariant(d) && Enabled(d, s.action) && t in Tokens(Daemon.Apply(d, s, stages))
    ensures t in Tokens(d) || d.inFlight == Guarding(t.kind, t.finger, t.user)
  {
    hide Tokens, Daemon.Apply, DaemonInvariant;
    TokensMove(d, s, stages);
  }

  /** Called by this very step, or before it. */
  lemma Carried(file: Prints, steps: seq<Step2>, last: Step2, a: Action, user: string, stages: Stages)
    requires
      || CalledFor(file, steps, a, user, stages)
      || (last.action == a && Enabled(Execute(Boot(file), steps, stages), a)
          && Execute(Boot(file), steps, stages).w.claimed == Some(user))
    ensures CalledFor(file, steps + [last], a, user, stages)
  {
    hide CalledFor, Execute, Enabled;
    if CalledFor(file, steps, a, user, stages) {
      CalledStays(file, steps, last, a, user, stages);
    } else {
      CalledNow(file, steps, last, user, stages);
    }
  }

  /** Listed by this very step. */
  lemma ListedNow(file: Prints, steps: seq<Step2>, last: Step2, user: string, left: seq<string>, stages: Stages)
    requires last.action == CallDeleteAll(user) && Enabled(Execute(Boot(file), steps, stages), last.action)
    requires List(Execute(Boot(file), steps, stages).w.(host := last.host), user).1 == Success(left)
    ensures ListedFor(file, steps + [last], user, left, stages)
  {
    hide Execute, Enabled, List;
    assert (steps + [last])[..|steps|] == steps && (steps + [last])[|steps|] == last;
  }

  /** Listed before, with as many names left or one more. */
  lemma ListedStays(file: Prints, steps: seq<Step2>, last: Step2, user: string, was: seq<string>, left: seq<string>,
                    stages: Stages)
    requires ListedFor(file, steps, user, was, stages) && (left == was || (was != [] && left == was[1..]))
    ensures ListedFor(file, steps + [last], user, left, stages)
  {
    hide Execute, Enabled, List, EndsWith;
    var k :| 0 <= k < |steps| && steps[k].action == CallDeleteAll(user)
             && Enabled(Execute(Boot(file), steps[..k], stages), CallDeleteAll(user))
             && EndsWith(List(Execute(Boot(file), steps[..k], stages).w.(host := steps[k].host), user).1, was);
    EndsShorter(List(Execute(Boot(file), steps[..k], stages).w.(host := steps[k].host), user).1, was, left);
    assert (steps + [last])[..k] == steps[..k] && (steps + [last])[k] == steps[k];
  }

  lemma EndsShorter(listed: Result<seq<string>, WorkerError>, was: seq<string>, left: seq<string>)
    requires EndsWith(listed, was) && (left == was || (was != [] && left == was[1..]))
    ensures EndsWith(listed, left)
  {
  }

  /**
   * Over every interleaving: an op was started by a start call for its kind and finger while its user held
   * the claim, a single delete was called for its finger by the claimed user, and the names a delete-all has
   * left are the last ones of the list it was called on.
   */
  lemma {:induction false} EverythingWasCalledFor(file: Prints, steps: seq<Step2>, stages: Stages)
    ensures Accounted(file, steps, stages)
  {
    hide Accounted, Daemon.Apply;
    if steps == [] {
      NothingInFlight(file, stages);
    } else {
      var before, last := steps[..|steps| - 1], steps[|steps| - 1];
      EverythingWasCalledFor(file, before, stages);
      assert before + [last] == steps;
      if Enabled(Execute(Boot(file), before, stages), last.action) {
        AccountedMoves(file, before, last, stages);
      } else {
        AccountedStays(file, before, last, stages);
      }
    }
  }

  lemma NothingInFlight(file: Prints, stages: Stages)
    ensures Accounted(file, [], stages)
  {
  }

  lemma AccountedStays(file: Prints, steps: seq<Step2>, last: Step2, stages: Stages)
    requires Accounted(file, steps, stages) && !Enabled(Execute(Boot(file), steps, stages), last.action)
    ensures Accounted(file, steps + [last], stages)
  {
    hide Execute, CalledFor, ListedFor, Tokens, Enabled;
    ExecuteMore(Boot(file), steps, last, stages);
    var d := Execute(Boot(file), steps, stages);
    if d.inFlight.Guarding? {
      CalledStays(file, steps, last, CallStart(d.inFlight.kind, d.inFlight.finger), d.inFlight.user, stages);
    }
    if d.inFlight.DeletingOne? {
      CalledStays(file, steps, last, CallDelete(d.inFlight.finger), d.inFlight.user, stages);
    }
    if d.inFlight.DeletingAll? {
      ListedStays(file, steps, last, d.inFlight.user, d.inFlight.left, d.inFlight.left, stages);
    }
    forall t | t in Tokens(d)
      ensures CalledFor(file, steps + [last], CallStart(t.kind, t.finger), t.user, stages)
    {
      CalledStays(file, steps, last, CallStart(t.kind, t.finger), t.user, stages);
    }
  }

  /** An op may start exactly on a claimed device without a live token; its own token is new and unshared. */
  lemma TokenTaken(file: Prints, steps: seq<Step2>, last: Step2, stages: Stages)
    requires last.action == TakeToken && Enabled(Execute(Boot(file), steps, stages), TakeToken)
    ensures
      var d, d' := Execute(Boot(file), steps, stages), Execute(Boot(file), steps + [last], stages);
      var m := d.inFlight;
      if d.w.claimed.Some? && Tokens(d) == [] then
        && d'.inFlight == Holding(Task(m.kind, m.finger, d.nextCancel, m.user)) && d'.w.busy
        && d.nextCancel !in d'.cancelled && d'.cancelSlot != Some(d.nextCancel)
      else d'.inFlight == NoMethod && d'.w.busy == d.w.busy && Tokens(d') == Tokens(d)
  {
    hide Execute, Tokens, ArmingHoldsFor;
    InterleavingSafe(file, steps, stages);
    NumberedAlways(file, steps, stages);
    NumberedAlways(file, steps + [last], stages);
    ExecuteMore(Boot(file), steps, last, stages);
    TokensMove(Execute(Boot(file), steps, stages), last, stages);
  }

  /** A pending delete erases what it was called for, in its turn; a delete-all goes on only after a success. */
  lemma DeleteLands(file: Prints, steps: seq<Step2>, last: Step2, stages: Stages)
    requires Enabled(Execute(Boot(file), steps, stages), last.action)
    requires
      var m := Execute(Boot(file), steps, stages).inFlight;
      last.action == FinishDelete || (last.action == DeleteNext && m.left != [])
    ensures
      var d, d' := Execute(Boot(file), steps, stages), Execute(Boot(file), steps + [last], stages);
      var w, m := d.w.(script := last.script, host := last.host), d.inFlight;
      var finger := if m.DeletingOne? then m.finger else m.left[0];
      var done := DeleteFinger(w, m.user, finger).1.Success?;
      && Erases(d'.w.wire) == Erases(d.w.wire) + Due(w, DoDelete(m.user, finger))
      && d'.w.file == (if done then Removed(d.w.file, m.user, finger) else d.w.file)
      && d'.inFlight == (if m.DeletingAll? && done then DeletingAll(m.user, m.left[1..]) else NoMethod)
  {
    hide Execute, DeleteFinger, Removed, Erases;
    ExecuteMore(Boot(file), steps, last, stages);
    var d := Execute(Boot(file), steps, stages);
    var w, m := d.w.(script := last.script, host := last.host), d.inFlight;
    DeleteErasesOnce(w, m.user, if m.DeletingOne? then m.finger else m.left[0]);
  }

  ghost predicate Begun(d: D, s: Step2, d': D) {
    match s.action
    case CallStart(kind, finger) =>
      d' == if d.w.claimed.Some? then d.(inFlight := Guarding(kind, finger, d.w.claimed.value)) else d
    case CallDelete(finger) =>
      d' == if d.w.claimed.Some? then d.(inFlight := DeletingOne(d.w.claimed.value, finger)) else d
    case CallDeleteAll(user) => Listed(d, s.host, user, d')
    case Spawn =>
      && d.inFlight.Holding?
      && d' == d.(spawned := d.spawned + [d.inFlight.task], cancelSlot := Some(d.inFlight.task.cancel),
                  inFlight := NoMethod)
    case OpClearsSlot => d.enders > 0 && d' == d.(cancelSlot := None, enders := d.enders - 1)
    case _ => true
  }

  ghost predicate Listed(d: D, host: seq<bool>, user: string, d': D) {
    var names := List(d.w.(host := host), user).1;
    && d' == d.(w := d'.w, inFlight := if names.Success? then DeletingAll(user, names.value) else NoMethod)
    && d'.w.wire == d.w.wire && d'.w.file == d.w.file && SameClaim(d.w, d'.w)
  }

  /**
   * What a method call puts in flight: a start on a claimed device goes on to its token, a delete on one to
   * the worker, a delete-all to the names listed; anything else is turned away. A spawn queues the op and
   * shares its token.
   */
  lemma MethodsBegin(file: Prints, steps: seq<Step2>, last: Step2, stages: Stages)
    requires Enabled(Execute(Boot(file), steps, stages), last.action)
    ensures Begun(Execute(Boot(file), steps, stages), last, Execute(Boot(file), steps + [last], stages))
  {
    hide Execute, Claim, DeleteFinger, List, Release, Suspend, Resume, RunTask, Heeding, Stopped, TryBegin,
         ArmingHoldsFor, Tokens;
    InterleavingSafe(file, steps, stages);
    ExecuteMore(Boot(file), steps, last, stages);
    var d := Execute(Boot(file), steps, stages);
    if last.action.CallDeleteAll? {
      SameListing(d.w.(script := last.script, host := last.host), d.w.(host := last.host), last.action.user);
      ListExactly(d.w.(script := last.script, host := last.host), last.action.user);
    }
  }
}
