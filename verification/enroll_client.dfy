/** The client that consumes an enrolment's signals (crates/elanprint-login/src/client.rs, drive_enroll). */
module EnrollClient {
  import opened Core
  import opened Proto
  import opened EnrollMachine
  import opened Store
  import opened DbusStatus
  import opened WorkerSpec
  import opened Events
  import opened Arming
  import opened EnrollTrace

  datatype UiEvent =
    | Stage(done: nat, total: nat)
    | RetryUi(why: EnrollText)
    | Completed
    | FailedUi(why: EnrollText)
    | Unexpected(what: EnrollText)

  /** One (status, done) pair of an EnrollStatus signal. */
  datatype Note = Note(status: EnrollText, finished: bool)

  predicate IsFailureText(t: EnrollText) {
    t.EFailed? || t.EDataFull? || t.EDuplicate? || t.EUnknownError? || t.EDisconnected?
  }

  predicate IsRetryText(t: EnrollText) {
    t.ERetryScan? || t.ESwipeTooShort? || t.ENotCentered? || t.ERemoveAndRetry?
  }

  /** The pair is one the client's match names; anything else falls through to `unexpected`. */
  predicate IsNamed(n: Note) {
    if n.finished then n.status.ECompleted? || IsFailureText(n.status)
    else n.status.EStagePassed? || IsRetryText(n.status)
  }

  function SaturatingInc(done: nat): nat {
    if done < 255 then done + 1 else 255
  }

  /** The client's view after these signals: stage counter, what the user saw, and whether it returned. */
  datatype View = View(done: nat, shown: seq<UiEvent>, returned: bool)

  function See(v: View, n: Note, total: nat): View {
    if v.returned then v
    else if n == Note(EStagePassed, false) then
      var done := SaturatingInc(v.done);
      View(done, v.shown + [Stage(done, total)], false)
    else if n == Note(ECompleted, true) then View(v.done, v.shown + [Completed], true)
    else if n.finished && IsFailureText(n.status) then View(v.done, v.shown + [FailedUi(n.status)], true)
    else if !n.finished && IsRetryText(n.status) then View(v.done, v.shown + [RetryUi(n.status)], false)
    else View(v.done, v.shown + [Unexpected(n.status)], true)
  }

  function SeeAll(v: View, notes: seq<Note>, total: nat): View
    decreases |notes|
  {
    if notes == [] then v else See(SeeAll(v, notes[..|notes| - 1], total), notes[|notes| - 1], total)
  }

  /**
   * drive_enroll: handle signals until one ends the enrolment, the stream ends, or the user cancels
   * after `patience` of them.
   */
  method DriveEnroll(notes: seq<Note>, total: nat, patience: nat) returns (done: nat, shown: seq<UiEvent>)
    ensures
      var heard := if patience < |notes| then notes[..patience] else notes;
      View(done, shown, SeeAll(View(0, [], false), heard, total).returned) == SeeAll(View(0, [], false), heard, total)
  {
    done, shown := 0, [];
    var i := 0;
    ghost var start := View(0, [], false);
    while i < |notes| && i < patience
      invariant 0 <= i <= |notes| && i <= patience
      invariant SeeAll(start, notes[..i], total) == View(done, shown, false)
    {
      var n := notes[i];
      assert notes[..i + 1][..i] == notes[..i];
      ghost var rest := if patience < |notes| then notes[..patience] else notes;
      assert rest[..i + 1] == notes[..i + 1];
      i := i + 1;
      if n == Note(EStagePassed, false) {
        done := SaturatingInc(done);
        shown := shown + [Stage(done, total)];
      } else if !n.finished && IsRetryText(n.status) {
        shown := shown + [RetryUi(n.status)];
      } else {
        shown := shown + [if n == Note(ECompleted, true) then Completed
                          else if n.finished && IsFailureText(n.status) then FailedUi(n.status)
                          else Unexpected(n.status)];
        ReturnedStays(start, rest, i, total);
        return;
      }
    }
    assert notes[..i] == if patience < |notes| then notes[..patience] else notes;
  }

  lemma {:induction false} ReturnedStays(v: View, notes: seq<Note>, i: nat, total: nat)
    requires 0 <= i <= |notes| && SeeAll(v, notes[..i], total).returned
    ensures SeeAll(v, notes, total) == SeeAll(v, notes[..i], total)
    decreases |notes|
  {
    if i < |notes| {
      assert notes[..|notes| - 1][..i] == notes[..i];
      ReturnedStays(v, notes[..|notes| - 1], i, total);
    } else {
      assert notes[..i] == notes;
    }
  }

  // ---------- the daemon's stream fits the client ----------

  ghost function NotesOf(log: seq<OpEvent>): seq<Note> {
    if log == [] then []
    else
      var e := log[|log| - 1];
      NotesOf(log[..|log| - 1]) + if e.EnrollStatus? then [Note(e.enrolled, e.done)] else []
  }

  ghost predicate AllNamed(log: seq<OpEvent>) {
    forall i :: 0 <= i < |log| ==> log[i].EnrollStatus? && IsNamed(Note(log[i].enrolled, log[i].done))
  }

  /** Samples reported as passed. */
  ghost function Passed(log: seq<OpEvent>): nat {
    if log == [] then 0
    else Passed(log[..|log| - 1]) + if log[|log| - 1] == EnrollStatus(EStagePassed, false) then 1 else 0
  }

  /** The log counts what the machine collected, and the machine still wants something. */
  ghost predicate CountsStages(sm: Machine, log: seq<OpEvent>) {
    && sm.pending.Some? && sm.needed >= 1 && Passed(log) == sm.collected
    && (if sm.pending == Some(Sample) then sm.collected < sm.needed else sm.collected == sm.needed)
  }

  lemma CountsAfterStep(sm: Machine, log: seq<OpEvent>, input: seq<byte>, sm': Machine, action: EnrollAction)
    requires CountsStages(sm, log) && Moves(sm, input, sm', action)
    ensures action.EmitProgress? ==> CountsStages(sm', log + [EnrollStatus(EStagePassed, false)])
    ensures action.EmitRetry? ==> forall r :: CountsStages(sm', log + [EnrollStatus(EnrollRetry(r), false)])
    ensures action.Send? ==> CountsStages(sm', log)
    ensures action.Complete? ==> Passed(log) == sm.needed
  {
    assert (log + [EnrollStatus(EStagePassed, false)])[..|log|] == log;
    forall r
      ensures Passed(log + [EnrollStatus(EnrollRetry(r), false)]) == Passed(log)
    {
      assert (log + [EnrollStatus(EnrollRetry(r), false)])[..|log|] == log;
    }
  }

  /** A log the client understands: only named pairs, and completion only after all n stages. */
  ghost predicate Fits(log: seq<OpEvent>, n: nat) {
    AllNamed(log) && (forall i :: 0 <= i < |log| && log[i] == EnrollStatus(ECompleted, true) ==> Passed(log) == n)
  }

  lemma FitsMore(log: seq<OpEvent>, n: nat, e: OpEvent)
    requires AllNamed(log) && Unfinished(log) && e.EnrollStatus? && IsNamed(Note(e.enrolled, e.done))
    requires e.enrolled.ECompleted? ==> Passed(log) == n
    ensures AllNamed(log + [e]) && Fits(log + [e], n)
  {
  }

  lemma {:induction false} EnrollLoopFits(w: W, sm: Machine, out: seq<byte>, user: string, finger: string, s: Sink,
                                          n: nat)
    requires CountsStages(sm, s.log) && sm.needed == n
    requires AllNamed(s.log) && SinkSound(s) && !s.terminalSent && s.kind == EnrollOp
    ensures
      var (_, s', r) := EnrollLoop(w, sm, out, user, finger, s);
      && Fits(s'.log, n) && (r.Failure? ==> Unfinished(s'.log)) && (r.Success? <==> s'.terminalSent)
      && (r.Success? ==> s'.log != [] && s'.log[|s'.log| - 1] == EnrollStatus(ECompleted, true))
    decreases |w.script|, 0
  {
    hide SinkSound, Step, Encode, Round, Inserted, InsertFault, Fits, AllNamed, Passed;
    var c := CommandOf(sm, sm.pending.value);
    UnfinishedFits(s, n);
    var (w1, r) := Round(w, out, ReplyEndpoint(c), ExpectedLen(c));
    if r.Success? {
      RoundShrinks(w, out, c);
      var (sm1, action) := Step(sm, r.value);
      StepMoves(sm, r.value);
      StepQueuesPending(sm, r.value);
      CountsAfterStep(sm, s.log, r.value, sm1, action);
      match action {
        case EmitProgress(_, _) =>
          var e := EnrollStatus(EStagePassed, false);
          EmitSound(s, e);
          FitsMore(s.log, n, e);
          ResendFits(w1, sm1, user, finger, Emit(s, e), n);
        case EmitRetry(hint) =>
          var e := EnrollStatus(EnrollRetry(hint), false);
          EmitSound(s, e);
          FitsMore(s.log, n, e);
          ResendFits(w1, sm1, user, finger, Emit(s, e), n);
        case Send(next) => EnrollLoopFits(w1, sm1, next, user, finger, s, n);
        case Complete(_) => FitsMore(s.log, n, EnrollStatus(ECompleted, true));
        case Fail(_) =>
      }
    }
  }

  lemma UnfinishedFits(s: Sink, n: nat)
    requires AllNamed(s.log) && SinkSound(s) && !s.terminalSent
    ensures Unfinished(s.log) && Fits(s.log, n)
  {
    assert forall i :: 0 <= i < |s.log| ==> !IsTerminal(s.log[i]);
  }

  lemma {:induction false} ResendFits(w: W, sm: Machine, user: string, finger: string, s: Sink, n: nat)
    requires CountsStages(sm, s.log) && sm.needed == n && BufferHoldsPending(sm)
    requires AllNamed(s.log) && SinkSound(s) && !s.terminalSent && s.kind == EnrollOp
    ensures
      var (_, s', r) := Resend(w, sm, user, finger, s);
      && Fits(s'.log, n) && (r.Failure? ==> Unfinished(s'.log)) && (r.Success? <==> s'.terminalSent)
      && (r.Success? ==> s'.log != [] && s'.log[|s'.log| - 1] == EnrollStatus(ECompleted, true))
    decreases |w.script|, 1
  {
    hide SinkSound, EnrollLoop, Encode, Fits, AllNamed, Unfinished;
    var (sm1, next) := TakeSend(sm);
    EnrollLoopFits(w, sm1, next.value, user, finger, s, n);
  }

  lemma EnrollInnerFits(w: W, finger: string, stages: Stages)
    ensures
      var (_, s', r) := EnrollInner(w, finger, stages, Sink(EnrollOp, false, []));
      && Fits(s'.log, stages) && s'.kind == EnrollOp && SinkSound(s')
      && (r.Success? <==> s'.terminalSent)
      && (r.Failure? ==> Unfinished(s'.log))
      && (r.Success? ==> s'.log != [] && s'.log[|s'.log| - 1] == EnrollStatus(ECompleted, true))
  {
    hide SinkSound, EnrollInner, EnrollLoop, FreeSlot, Encode, Fits, AllNamed, Unfinished;
    var s := Sink(EnrollOp, false, []);
    EmptyLogFits(s, stages);
    EnrollInnerSound(w, finger, stages);
    EnrollInnerCases(w, finger, stages, s);
    if ReachesDialogue(w, finger) {
      var (w2, slot) := FreeSlot(HostDone(w));
      var (sm, action) := Start(WithTotal(slot.value, stages));
      LoopKindStays(w2, sm, action.out, w.claimed.value, finger, s);
      EnrollLoopFits(w2, sm, action.out, w.claimed.value, finger, s, stages);
    }
  }

  lemma EmptyLogFits(s: Sink, n: nat)
    requires s == Sink(EnrollOp, false, [])
    ensures AllNamed(s.log) && SinkSound(s) && Fits(s.log, n) && Unfinished(s.log) && Passed(s.log) == 0
  {
  }

  lemma {:induction false} LoopKindStays(w: W, sm: Machine, out: seq<byte>, user: string, finger: string, s: Sink)
    ensures EnrollLoop(w, sm, out, user, finger, s).1.kind == s.kind
    decreases |w.script|
  {
    hide Step, Encode, Round, Inserted, InsertFault;
    if sm.pending.Some? {
      var c := CommandOf(sm, sm.pending.value);
      var (w1, r) := Round(w, out, ReplyEndpoint(c), ExpectedLen(c));
      if r.Success? {
        RoundShrinks(w, out, c);
        var (sm1, action) := Step(sm, r.value);
        var sm2 := TakeSend(sm1).0;
        match action {
          case EmitProgress(_, _) =>
            if sm1.sendBuf.Some? {
              LoopKindStays(w1, sm2, sm1.sendBuf.value, user, finger, Emit(s, EnrollStatus(EStagePassed, false)));
            }
          case EmitRetry(hint) =>
            if sm1.sendBuf.Some? {
              LoopKindStays(w1, sm2, sm1.sendBuf.value, user, finger, Emit(s, EnrollStatus(EnrollRetry(hint), false)));
            }
          case Send(next) => LoopKindStays(w1, sm1, next, user, finger, s);
          case _ =>
        }
      }
    }
  }

  // ---------- stages passed are samples accepted ----------

  ghost predicate AcceptsSample(e: Exchange) {
    Opcode(e.out) == Some(0x01) && IsZero(DataOf(e.outcome))
  }

  /** The samples the reader accepted over a wire history. */
  ghost function Samples(wire: seq<Exchange>): nat {
    if wire == [] then 0
    else Samples(wire[..|wire| - 1]) + if AcceptsSample(wire[|wire| - 1]) then 1 else 0
  }

  lemma SamplesMore(wire: seq<Exchange>, e: Exchange)
    ensures Samples(wire + [e]) == Samples(wire) + if AcceptsSample(e) then 1 else 0
  {
    assert (wire + [e])[..|wire|] == wire;
  }

  /** A round for anything but a sample accepts none, nor does one that ends in an error. */
  lemma RoundSamples(w: W, out: seq<byte>, c: Command)
    requires out == Encode(c)
    ensures
      var (w1, r) := Round(w, out, ReplyEndpoint(c), ExpectedLen(c));
      Samples(w1.wire) == Samples(w.wire) + if c.Enroll? && r.Success? && IsZero(r.value) then 1 else 0
  {
    hide Round, Samples, ReplyEndpoint, ExpectedLen;
    RoundOnCue(w, out, c);
    if w.usb.Some? {
      SamplesMore(w.wire, Exchange(w.usb.value, out, ReplyEndpoint(c), ExpectedLen(c), NextOutcome(w)));
    }
  }

  lemma {:induction false} PickSlotTakesNoSample(w: W, candidates: seq<byte>)
    ensures Samples(PickSlot(w, candidates).0.wire) == Samples(w.wire)
    decreases candidates
  {
    hide Round, Samples, Encode;
    if candidates != [] {
      var c := FingerInfo(candidates[0]);
      RoundSamples(w, Encode(c), c);
      PickSlotTakesNoSample(Round(w, Encode(c), StatusIn, ExpectedLen(c)).0, candidates[1..]);
    }
  }

  lemma AskTakesNoSample(w: W, c: Command)
    requires !c.Enroll?
    ensures Samples(Ask(w, c).0.wire) == Samples(w.wire)
  {
    hide Samples;
    if w.usb.Some? {
      SamplesMore(w.wire, Exchange(w.usb.value, Encode(c), StatusIn, ExpectedLen(c), NextOutcome(w)));
    }
  }

  lemma FreeSlotTakesNoSample(w: W)
    ensures Samples(FreeSlot(w).0.wire) == Samples(w.wire)
  {
    hide Samples, PickSlot, Ask, WritableSlots, TrackedSlots;
    AskTakesNoSample(w, EnrolledNum);
    var (w1, count) := SendArm(w);
    if count.Success? && HostSays(w1) {
      var w2 := HostDone(w1.(armed := true));
      PickSlotTakesNoSample(w2, WritableSlots(count.value, TrackedSlots(w2.file)));
    }
  }

  /** The stages reported since are the samples accepted since, never more than n in all. */
  ghost predicate CountsSamples(w: W, s: Sink, t: (W, Sink, Verdict), n: nat) {
    && Passed(t.1.log) + Samples(w.wire) == Passed(s.log) + Samples(t.0.wire)
    && Passed(t.1.log) <= n
  }

  lemma {:induction false} EnrollLoopCounts(w: W, sm: Machine, out: seq<byte>, user: string, finger: string, s: Sink,
                                            n: nat)
    requires CountsStages(sm, s.log) && sm.needed == n && OutIsPending(sm, out)
    ensures CountsSamples(w, s, EnrollLoop(w, sm, out, user, finger, s), n)
    decreases |w.script|, 0
  {
    hide Step, Encode, Round, Inserted, InsertFault, Samples, Passed, IsZero;
    var c := CommandOf(sm, sm.pending.value);
    RoundSamples(w, out, c);
    var (w1, r) := Round(w, out, ReplyEndpoint(c), ExpectedLen(c));
    if r.Success? {
      RoundShrinks(w, out, c);
      var (sm1, action) := Step(sm, r.value);
      StepMoves(sm, r.value);
      StepQueuesPending(sm, r.value);
      SendIsPending(sm, r.value);
      CountsAfterStep(sm, s.log, r.value, sm1, action);
      match action {
        case EmitProgress(_, _) => ResendCounts(w1, sm1, user, finger, Emit(s, EnrollStatus(EStagePassed, false)), n);
        case EmitRetry(hint) => ResendCounts(w1, sm1, user, finger, Emit(s, EnrollStatus(EnrollRetry(hint), false)), n);
        case Send(next) => EnrollLoopCounts(w1, sm1, next, user, finger, s, n);
        case Complete(id) => RecordCounts(w1, s, user, finger, id);
        case Fail(_) =>
      }
    }
  }

  lemma RecordCounts(w: W, s: Sink, user: string, finger: string, id: byte)
    ensures
      var (w', s', _) := Record(w, s, user, finger, id);
      w'.wire == w.wire && Passed(s'.log) == Passed(s.log)
  {
    hide Inserted, InsertFault;
    assert (s.log + [EnrollStatus(ECompleted, true)])[..|s.log|] == s.log;
  }

  lemma {:induction false} ResendCounts(w: W, sm: Machine, user: string, finger: string, s: Sink, n: nat)
    requires CountsStages(sm, s.log) && sm.needed == n && BufferHoldsPending(sm)
    ensures CountsSamples(w, s, Resend(w, sm, user, finger, s), n)
    decreases |w.script|, 1
  {
    hide EnrollLoop, Encode, CountsSamples;
    var (sm1, next) := TakeSend(sm);
    assert CommandOf(sm, sm.pending.value) == CommandOf(sm1, sm1.pending.value);
    EnrollLoopCounts(w, sm1, next.value, user, finger, s, n);
  }

  lemma EnrollInnerCounts(w: W, finger: string, stages: Stages)
    ensures
      var s := Sink(EnrollOp, false, []);
      CountsSamples(w, s, EnrollInner(w, finger, stages, s), stages)
  {
    hide EnrollInner, EnrollLoop, FreeSlot, Encode, Samples;
    var s := Sink(EnrollOp, false, []);
    EnrollInnerCases(w, finger, stages, s);
    FreeSlotTakesNoSample(HostDone(w));
    if ReachesDialogue(w, finger) {
      var (w2, slot) := FreeSlot(HostDone(w));
      var (sm, action) := Start(WithTotal(slot.value, stages));
      EnrollLoopCounts(w2, sm, action.out, w.claimed.value, finger, s, stages);
    }
  }

  predicate NothingUnexpected(shown: seq<UiEvent>) {
    forall i :: 0 <= i < |shown| ==> !shown[i].Unexpected?
  }

  /** While nothing terminal arrived, the client counts the passed stages and keeps listening. */
  lemma {:induction false} ClientCounts(log: seq<OpEvent>, total: nat)
    requires AllNamed(log) && Unfinished(log)
    ensures
      var v := SeeAll(View(0, [], false), NotesOf(log), total);
      !v.returned && NothingUnexpected(v.shown) && v.done == if Passed(log) <= 255 then Passed(log) else 255
  {
    if log != [] {
      var before, e := log[..|log| - 1], log[|log| - 1];
      assert AllNamed(before) && Unfinished(before) by {
        assert forall i :: 0 <= i < |before| ==> before[i] == log[i];
      }
      ClientCounts(before, total);
      assert !IsTerminal(e) && IsNamed(Note(e.enrolled, e.done));
      assert NotesOf(log)[..|NotesOf(log)| - 1] == NotesOf(before);
    }
  }

  /** Everything the daemon emits for one enrolment, fed to the client. */
  ghost function ClientView(log: seq<OpEvent>, total: nat): View {
    SeeAll(View(0, [], false), NotesOf(log), total)
  }

  /** After the terminal event the client has returned, knowing how it ended. */
  lemma ClientFinishes(log: seq<OpEvent>, total: nat)
    requires EndsOnce(log) && AllNamed(log)
    ensures
      var v := ClientView(log, total);
      && v.returned && NothingUnexpected(v.shown) && v.shown != []
      && v.done == (if Passed(log) <= 255 then Passed(log) else 255)
      && (v.shown[|v.shown| - 1] == Completed <==> log[|log| - 1].enrolled == ECompleted)
  {
    var before, e := log[..|log| - 1], log[|log| - 1];
    assert AllNamed(before) && Unfinished(before) by {
      assert forall i :: 0 <= i < |before| ==> before[i] == log[i];
    }
    ClientCounts(before, total);
    assert IsTerminal(e) && IsNamed(Note(e.enrolled, e.done));
    assert NotesOf(log)[..|NotesOf(log)| - 1] == NotesOf(before);
  }

  /** What the user is shown for one event of the stream, the k-th stage passed bearing its number. */
  ghost predicate ShownFor(e: OpEvent, passed: nat, total: nat, shown: UiEvent) {
    && e.EnrollStatus?
    && match e.enrolled
       case EStagePassed => shown == Stage(if passed <= 255 then passed else 255, total)
       case ECompleted => shown == Completed
       case ESwipeTooShort => shown == RetryUi(ESwipeTooShort)
       case ENotCentered => shown == RetryUi(ENotCentered)
       case ERemoveAndRetry => shown == RetryUi(ERemoveAndRetry)
       case ERetryScan => shown == RetryUi(ERetryScan)
       case _ => shown == FailedUi(e.enrolled)
  }

  /** A pair the client does not know ends the enrolment with just that shown. */
  lemma UnknownIsUnexpected(v: View, n: Note, total: nat)
    requires !v.returned
    ensures !IsNamed(n) <==> See(v, n, total) == View(v.done, v.shown + [Unexpected(n.status)], true)
  {
    var shown := See(v, n, total).shown;
    assert shown[|v.shown|] == Unexpected(n.status) <==> !IsNamed(n);
  }

  ghost predicate ShowsAll(log: seq<OpEvent>, total: nat, shown: seq<UiEvent>) {
    |shown| == |log| && forall i :: 0 <= i < |log| ==> ShownFor(log[i], Passed(log[..i + 1]), total, shown[i])
  }

  lemma {:induction false} ClientShowsSoFar(log: seq<OpEvent>, total: nat)
    requires AllNamed(log) && Unfinished(log)
    ensures ShowsAll(log, total, ClientView(log, total).shown)
  {
    if log != [] {
      var before, e := log[..|log| - 1], log[|log| - 1];
      assert forall i :: 0 <= i < |before| ==> before[i] == log[i];
      ClientShowsSoFar(before, total);
      ClientCounts(before, total);
      ShowsOneMore(log, total);
    }
  }

  lemma ShowsOneMore(log: seq<OpEvent>, total: nat)
    requires log != [] && AllNamed(log)
    requires
      var before := log[..|log| - 1];
      && ShowsAll(before, total, ClientView(before, total).shown) && !ClientView(before, total).returned
      && ClientView(before, total).done == (if Passed(before) <= 255 then Passed(before) else 255)
    ensures ShowsAll(log, total, ClientView(log, total).shown)
  {
    hide Passed, AllNamed, ShownFor, ClientView;
    var before := log[..|log| - 1];
    LastIsShown(log, total);
    var shown, was := ClientView(log, total).shown, ClientView(before, total).shown;
    assert log[..|log|] == log;
    forall i | 0 <= i < |log|
      ensures ShownFor(log[i], Passed(log[..i + 1]), total, shown[i])
    {
      if i < |before| {
        assert before[..i + 1] == log[..i + 1] && shown[i] == was[i] && before[i] == log[i];
      }
    }
  }

  lemma LastIsShown(log: seq<OpEvent>, total: nat)
    requires log != [] && AllNamed(log)
    requires
      var v := ClientView(log[..|log| - 1], total);
      !v.returned && v.done == if Passed(log[..|log| - 1]) <= 255 then Passed(log[..|log| - 1]) else 255
    ensures
      var v, v' := ClientView(log[..|log| - 1], total), ClientView(log, total);
      && |v'.shown| == |v.shown| + 1 && v.shown <= v'.shown
      && ShownFor(log[|log| - 1], Passed(log), total, v'.shown[|v.shown|])
  {
    var e := log[|log| - 1];
    assert IsNamed(Note(e.enrolled, e.done));
    assert NotesOf(log)[..|NotesOf(log)| - 1] == NotesOf(log[..|log| - 1]);
  }

  /** The user is shown every event of a whole enrolment, one for one and in order, each for what it says. */
  lemma ClientShows(log: seq<OpEvent>, total: nat)
    requires EndsOnce(log) && AllNamed(log)
    ensures ShowsAll(log, total, ClientView(log, total).shown)
  {
    hide ShowsAll;
    var before := log[..|log| - 1];
    assert AllNamed(before) && Unfinished(before) by {
      assert forall i :: 0 <= i < |before| ==> before[i] == log[i];
    }
    ClientShowsSoFar(before, total);
    ClientCounts(before, total);
    ShowsOneMore(log, total);
  }

  lemma ClosingPassesNothing(log: seq<OpEvent>, r: Verdict)
    ensures Passed(log + [ClosingEvent(EnrollOp, r)]) == Passed(log)
  {
    assert (log + [ClosingEvent(EnrollOp, r)])[..|log|] == log;
  }

  /**
   * The enrol stream fits its consumer: no status is unexpected, the client returns, and it reports
   * completion exactly when the enrolment succeeded. However it ends, the stage counter is the number of
   * samples the reader accepted, which after a success is the configured total.
   */
  lemma EnrolStreamFitsClient(w: W, finger: string, stages: Stages, total: nat)
    ensures
      var (w', s, r) := Enrolling(w, finger, stages);
      var v := ClientView(s.log, total);
      && v.returned && NothingUnexpected(v.shown) && v.shown != []
      && (v.shown[|v.shown| - 1] == Completed <==> r.Success?)
      && ShowsAll(s.log, total, v.shown)
      && Samples(w'.wire) == Samples(w.wire) + v.done && v.done <= stages
      && (r.Success? ==> v.done == stages)
  {
    hide SinkSound, EnrollInner, Unfinished, EndsOnce, ClientView, Passed, Samples, Ask, ShowsAll;
    EnrollInnerCounts(w, finger, stages);
    EnrollInnerFits(w, finger, stages);
    ExactlyOneTerminalEvent(w, finger, stages);
    var (w1, s1, r) := EnrollInner(w, finger, stages, Sink(EnrollOp, false, []));
    var log := Enrolling(w, finger, stages).1.log;
    EmptyLogFits(Sink(EnrollOp, false, []), stages);
    AskTakesNoSample(w1, Command.Abort);
    if r.Failure? {
      FitsMore(s1.log, stages, ClosingEvent(EnrollOp, r));
      ClosingPassesNothing(s1.log, r);
    }
    ClientFinishes(log, total);
    ClientShows(log, total);
  }
}
