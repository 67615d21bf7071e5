/** Every verify and enroll tells its client once, and last, how it ended (worker.rs, OpSink). */
module Events {
  import opened Core
  import opened Proto
  import opened EnrollMachine
  import opened Store
  import opened DbusStatus
  import opened WorkerSpec
  import opened EnrollTrace

  /** Exactly one terminal event, and it is the last. */
  ghost predicate EndsOnce(log: seq<OpEvent>) {
    |log| > 0 && IsTerminal(log[|log| - 1]) && forall i :: 0 <= i < |log| - 1 ==> !IsTerminal(log[i])
  }

  ghost predicate Unfinished(log: seq<OpEvent>) {
    forall i :: 0 <= i < |log| ==> !IsTerminal(log[i])
  }

  /** The flag of a sink tells the truth about its log, and the log fits its kind. */
  ghost predicate SinkSound(s: Sink) {
    && (if s.terminalSent then EndsOnce(s.log) else Unfinished(s.log))
    && forall i :: 0 <= i < |s.log| ==> (s.log[i].EnrollStatus? <==> s.kind == EnrollOp)
  }

  lemma EmitSound(s: Sink, e: OpEvent)
    requires SinkSound(s) && !s.terminalSent && (e.EnrollStatus? <==> s.kind == EnrollOp)
    ensures SinkSound(Emit(s, e)) && Emit(s, e).terminalSent == IsTerminal(e) && Emit(s, e).kind == s.kind
  {
    var log := s.log + [e];
    assert forall i :: 0 <= i < |s.log| ==> log[i] == s.log[i];
  }

  lemma CloseSound(s: Sink, r: Verdict)
    requires SinkSound(s)
    ensures SinkSound(Close(s, r)) && EndsOnce(Close(s, r).log)
  {
  }

  lemma AnnounceSound(s: Sink, allowed: map<byte, string>, status: Status)
    requires SinkSound(s) && !s.terminalSent && s.kind == VerifyOp
    ensures
      var (s', done) := Announce(s, allowed, status);
      SinkSound(s') && s'.terminalSent == done && s'.kind == VerifyOp
  {
  }

  lemma {:induction false} VerifyLoopSound(w: W, allowed: map<byte, string>, s: Sink)
    requires SinkSound(s) && !s.terminalSent && s.kind == VerifyOp
    ensures SinkSound(VerifyLoop(w, allowed, s).1)
    decreases |w.script|
  {
    hide SinkSound, Announce, Emit, Encode;
    var (w1, r) := Round(w, Encode(Verify), TouchWait, 2);
    if r.Success? && |r.value| == 2 {
      var status := Classify(r.value[1]);
      AnnounceSound(s, allowed, status);
      if !Announce(s, allowed, status).1 {
        VerifyLoopSound(w1, allowed, Announce(s, allowed, status).0);
      }
    }
  }

  /** The enrol loop ends its log exactly when it succeeds, with enroll-completed. */
  lemma {:induction false} EnrollLoopSound(w: W, sm: Machine, out: seq<byte>, user: string, finger: string, s: Sink)
    requires SinkSound(s) && !s.terminalSent && s.kind == EnrollOp
    ensures SinkSound(EnrollLoop(w, sm, out, user, finger, s).1)
    decreases |w.script|, 0
  {
    hide SinkSound, Step, Encode, Round, Inserted, InsertFault;
    if sm.pending.Some? {
      var c := CommandOf(sm, sm.pending.value);
      var (w1, r) := Round(w, out, ReplyEndpoint(c), ExpectedLen(c));
      if r.Success? {
        RoundShrinks(w, out, c);
        var (sm1, action) := Step(sm, r.value);
        EmitSound(s, EnrollStatus(ECompleted, true));
        match action {
          case EmitProgress(_, _) =>
            EmitSound(s, EnrollStatus(EStagePassed, false));
            ResendSound(w1, sm1, user, finger, Emit(s, EnrollStatus(EStagePassed, false)));
          case EmitRetry(hint) =>
            EmitSound(s, EnrollStatus(EnrollRetry(hint), false));
            ResendSound(w1, sm1, user, finger, Emit(s, EnrollStatus(EnrollRetry(hint), false)));
          case Send(next) => EnrollLoopSound(w1, sm1, next, user, finger, s);
          case Complete(_) =>
          case Fail(_) =>
        }
      }
    }
  }

  lemma RoundShrinks(w: W, out: seq<byte>, c: Command)
    ensures
      var (w1, r) := Round(w, out, ReplyEndpoint(c), ExpectedLen(c));
      r.Success? ==> |w1.script| < |w.script|
  {
  }

  lemma {:induction false} ResendSound(w: W, sm: Machine, user: string, finger: string, s: Sink)
    requires SinkSound(s) && !s.terminalSent && s.kind == EnrollOp
    ensures SinkSound(Resend(w, sm, user, finger, s).1)
    decreases |w.script|, 1
  {
    hide SinkSound, EnrollLoop;
    var (sm1, next) := TakeSend(sm);
    if next.Some? {
      EnrollLoopSound(w, sm1, next.value, user, finger, s);
    }
  }

  lemma VerifyInnerSound(w: W, finger: string)
    ensures SinkSound(VerifyInner(w, finger, Sink(VerifyOp, false, [])).1)
  {
    var s := Sink(VerifyOp, false, []);
    assert SinkSound(s);
    hide SinkSound, VerifyLoop, SendArm, Admit;
    var (w1, arm) := if w.armed then (w, Success(0 as byte)) else SendArm(w);
    var (w2, allowed) := Admit(w1.(armed := true), finger);
    if allowed.Success? {
      VerifyLoopSound(w2, allowed.value, s);
    }
  }

  lemma EnrollInnerSound(w: W, finger: string, stages: Stages)
    ensures SinkSound(EnrollInner(w, finger, stages, Sink(EnrollOp, false, [])).1)
  {
    var s := Sink(EnrollOp, false, []);
    assert SinkSound(s);
    hide SinkSound, EnrollInner, EnrollLoop, FreeSlot, Encode;
    EnrollInnerCases(w, finger, stages, s);
    if ReachesDialogue(w, finger) {
      var (w2, slot) := FreeSlot(HostDone(w));
      var (sm, action) := Start(WithTotal(slot.value, stages));
      EnrollLoopSound(w2, sm, action.out, w.claimed.value, finger, s);
    }
  }

  /** For every chip, store failure and cancellation point: one terminal event, and nothing after it. */
  lemma ExactlyOneTerminalEvent(w: W, finger: string, stages: Stages)
    ensures EndsOnce(Verifying(w, finger).1.log)
    ensures EndsOnce(Enrolling(w, finger, stages).1.log)
  {
    hide SinkSound, EndsOnce, VerifyInner, EnrollInner, Close, AbortSession;
    VerifyInnerSound(w, finger);
    var v := VerifyInner(w, finger, Sink(VerifyOp, false, []));
    CloseSound(v.1, v.2);
    EnrollInnerSound(w, finger, stages);
    var e := EnrollInner(w, finger, stages, Sink(EnrollOp, false, []));
    CloseSound(e.1, e.2);
  }
}
