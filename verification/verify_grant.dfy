/** From the chip's reply to the client's grant: worker.rs composed with session.rs. */
module VerifyGrant {
  import opened Core
  import opened Proto
  import opened Store
  import opened DbusStatus
  import opened WorkerSpec
  import opened Session
  import Automaton = Session

  // ---------- when a grant is due, told without the worker or the session ----------

  /** The slot named by the deciding reply: the first one that does not ask for another touch. */
  ghost function Decision(script: seq<Outcome>): Option<byte> {
    if script == [] then None
    else match script[0]
      case Reply(data) => DecisionOn(data, script)
      case Short(data) => DecisionOn(data, script)
      case _ => None
  }

  ghost function DecisionOn(data: seq<byte>, script: seq<Outcome>): Option<byte>
    requires script != []
    decreases script, 0
  {
    if IsRetry(data) then Decision(script[1..])
    else if |data| == 2 && data[1] < 16 then Some(data[1])
    else None
  }

  ghost predicate Owns(p: Prints, user: string, finger: string, slot: byte) {
    exists f :: IsMapped(p, user, f) && p[user][f] == slot && (finger == ANY || f == finger)
  }

  /** An unarmed worker first spends one answer on arming. */
  ghost predicate ArmsFirst(w: W) {
    w.armed || (w.script != [] && w.script[0].Reply? && |w.script[0].data| == 2)
  }

  ghost function TouchScript(w: W): seq<Outcome> {
    if w.armed then w.script else Pop(w.script)
  }

  ghost predicate GrantDue(w: W, finger: string) {
    && w.usb.Some? && ArmsFirst(w) && w.claimed.Some?
    && (finger == ANY || IsValidFinger(finger))
    && HostSays(w)
    && Decision(TouchScript(w)).Some?
    && Owns(w.file, w.claimed.value, finger, Decision(TouchScript(w)).value)
  }

  // ---------- what the worker says ----------

  ghost predicate OnlyRetries(log: seq<OpEvent>) {
    forall i :: 0 <= i < |log| ==>
      log[i].VerifyFingerSelected? || (log[i].VerifyStatus? && !log[i].done && IsRetryText(log[i].verified))
  }

  /** Retries and selections, then one final answer that is a match exactly when `granted`. */
  ghost predicate Decided(log: seq<OpEvent>, granted: bool) {
    && |log| > 0 && OnlyRetries(log[..|log| - 1])
    && var last := log[|log| - 1];
       && last.VerifyStatus? && last.done
       && (last.verified == VMatch <==> granted)
       && (last.verified == VMatch || last.verified == VNoMatch
          || last.verified == VDisconnected || last.verified == VUnknownError)
  }

  lemma ClosingDecides(s: Sink, e: WorkerError)
    requires OnlyRetries(s.log) && !s.terminalSent && s.kind == VerifyOp
    ensures Decided(Close(s, Failure(e)).log, false)
  {
    var log := Close(s, Failure(e)).log;
    assert log[..|log| - 1] == s.log;
  }

  lemma EmitRetries(s: Sink, e: OpEvent)
    requires OnlyRetries(s.log)
    ensures e.VerifyFingerSelected? || (e.VerifyStatus? && !e.done && IsRetryText(e.verified))
      ==> OnlyRetries(Emit(s, e).log)
    ensures Emit(s, e).log[..|Emit(s, e).log| - 1] == s.log
  {
  }

  lemma AnnounceDecides(s: Sink, allowed: map<byte, string>, raw: seq<byte>)
    requires OnlyRetries(s.log) && !s.terminalSent && s.kind == VerifyOp && |raw| == 2
    ensures
      var (s', done) := Announce(s, allowed, Classify(raw[1]));
      && (done <==> !IsRetry(raw)) && s'.terminalSent == done && s'.kind == VerifyOp
      && (if done then Decided(s'.log, raw[1] < 16 && raw[1] in allowed) else OnlyRetries(s'.log))
  {
    hide OnlyRetries;
    var status := Classify(raw[1]);
    var outcome := ClassifyVerify(status);
    var done := !(outcome.Success? && outcome.value.TryAgain?);
    EmitRetries(s, VerifyStatus(VerifyStatusText(status), done));
    EmitRetries(s, VerifyStatus(VNoMatch, done));
    if outcome.Success? && outcome.value.Match? && outcome.value.id in allowed {
      var chosen := VerifyFingerSelected(allowed[outcome.value.id]);
      EmitRetries(s, chosen);
      EmitRetries(Emit(s, chosen), VerifyStatus(VerifyStatusText(status), done));
    }
  }

  lemma {:induction false} VerifyLoopDecides(w: W, allowed: map<byte, string>, s: Sink)
    requires OnlyRetries(s.log) && !s.terminalSent && s.kind == VerifyOp && w.usb.Some?
    ensures
      var (_, s', r) := VerifyLoop(w, allowed, s);
      var d := Decision(w.script);
      Decided(Close(s', r).log, d.Some? && d.value in allowed)
    decreases |w.script|
  {
    hide OnlyRetries, Decided, Announce, Close;
    var (w1, r) := Round(w, Encode(Verify), TouchWait, 2);
    match r {
      case Failure(e) => ClosingDecides(s, e);
      case Success(raw) =>
        if |raw| != 2 {
          ClosingDecides(s, ProtoFailed(UnexpectedLength(2, |raw|)));
        } else {
          AnnounceDecides(s, allowed, raw);
          var (s1, done) := Announce(s, allowed, Classify(raw[1]));
          if !done {
            VerifyLoopDecides(w1, allowed, s1);
          } else {
            ClosedAlready(s1, Success(()));
          }
        }
    }
  }

  lemma ClosedAlready(s: Sink, r: Verdict)
    requires s.terminalSent
    ensures Close(s, r) == s
  {
  }

  lemma AllowedAreOwned(p: Prints, user: string, finger: string, slot: byte)
    requires user in p
    ensures
      var a := Allowed(p[user], finger);
      if a.Success? then slot in a.value <==> Owns(p, user, finger, slot)
      else !Owns(p, user, finger, slot)
  {
  }

  ghost predicate Admitted(w: W, finger: string, slot: byte) {
    && w.claimed.Some? && (finger == ANY || IsValidFinger(finger)) && HostSays(w)
    && Owns(w.file, w.claimed.value, finger, slot)
  }

  lemma AdmitAdmits(w: W, finger: string, slot: byte)
    ensures
      var (w', a) := Admit(w, finger);
      && w'.usb == w.usb && w'.script == w.script
      && (if a.Success? then slot in a.value <==> Admitted(w, finger, slot) else !Admitted(w, finger, slot))
  {
  }

  /** What VerifyInner does from the moment the worker is armed. */
  lemma ArmedDecides(w: W, finger: string, s: Sink)
    requires OnlyRetries(s.log) && !s.terminalSent && s.kind == VerifyOp && w.armed
    ensures
      var (_, s', r) := VerifyInner(w, finger, s);
      var d := Decision(w.script);
      Decided(Close(s', r).log, w.usb.Some? && d.Some? && Admitted(w, finger, d.value))
  {
    hide OnlyRetries, Decided, VerifyLoop, Decision, Close, Admit, Admitted;
    var d := Decision(w.script);
    AdmitAdmits(w, finger, if d.Some? then d.value else 0);
    var (w2, allowed) := Admit(w, finger);
    assert w.(armed := true) == w;
    match allowed {
      case Failure(e) => ClosingDecides(s, e);
      case Success(slots) =>
        if w.usb.None? {
          ClosingDecides(s, Unclaimed);
          NoHandleNoVerify(w2, slots, s);
        } else {
          VerifyLoopDecides(w2, slots, s);
        }
    }
  }

  lemma NoHandleNoVerify(w: W, allowed: map<byte, string>, s: Sink)
    requires w.usb.None?
    ensures VerifyLoop(w, allowed, s) == (w, s, Failure(Unclaimed))
  {
  }

  lemma ArmOutcome(w: W)
    ensures
      var (w1, arm) := SendArm(w);
      && w1.usb == w.usb && w1.claimed == w.claimed && w1.file == w.file && w1.host == w.host
      && (w.usb.Some? ==> w1.script == Pop(w.script))
      && (arm.Success? <==> w.usb.Some? && w.script != [] && w.script[0].Reply? && |w.script[0].data| == 2)
  {
  }

  lemma VerifyInnerArms(w: W, finger: string, s: Sink)
    requires !w.armed
    ensures SendArm(w).1.Success? ==>
              VerifyInner(w, finger, s) == VerifyInner(SendArm(w).0.(armed := true), finger, s)
    ensures SendArm(w).1.Failure? ==>
              VerifyInner(w, finger, s) == (SendArm(w).0, s, Failure(SendArm(w).1.error))
  {
    hide SendArm, VerifyLoop, Admit;
  }

  /** The worker's log says match, once and last, exactly when a grant is due. */
  lemma VerifyingDecides(w: W, finger: string)
    ensures Decided(Verifying(w, finger).1.log, GrantDue(w, finger))
  {
    var s := Sink(VerifyOp, false, []);
    assert OnlyRetries(s.log);
    hide OnlyRetries, Decided, Decision, Close, VerifyInner, SendArm;
    if w.armed {
      ArmedDecides(w, finger, s);
    } else {
      ArmOutcome(w);
      VerifyInnerArms(w, finger, s);
      if SendArm(w).1.Failure? {
        ClosingDecides(s, SendArm(w).1.error);
      } else {
        ArmedDecides(SendArm(w).0.(armed := true), finger, s);
      }
    }
  }

  // ---------- what the client makes of it ----------

  ghost function StatusesOf(log: seq<OpEvent>): seq<Signal> {
    if log == [] then []
    else (if log[0].VerifyStatus? then [Status(log[0].verified, log[0].done)] else []) + StatusesOf(log[1..])
  }

  ghost function Statuses(signals: seq<Signal>): seq<Signal> {
    if signals == [] then [] else (if signals[0].Status? then [signals[0]] else []) + Statuses(signals[1..])
  }

  /** Signals as the two subscriptions may deliver them: every status in order, selections anywhere. */
  ghost predicate Delivers(signals: seq<Signal>, log: seq<OpEvent>) {
    Statuses(signals) == StatusesOf(log)
    && forall i :: 0 <= i < |signals| ==> signals[i].Status? || signals[i].FingerSelected?
  }

  ghost function Answers(s: S, signals: seq<Signal>): seq<Answer>
    decreases signals
  {
    if signals == [] then []
    else [Automaton.Step(s, signals[0]).1] + Answers(Automaton.Step(s, signals[0]).0, signals[1..])
  }

  ghost predicate RetriesThen(statuses: seq<Signal>, final: VerifyText) {
    && |statuses| > 0 && statuses[|statuses| - 1] == Status(final, true)
    && forall i :: 0 <= i < |statuses| - 1 ==> statuses[i].Status? && IsRetryText(statuses[i].result)
  }

  lemma {:induction false} StatusesOfDecided(log: seq<OpEvent>, granted: bool)
    requires Decided(log, granted)
    ensures RetriesThen(StatusesOf(log), log[|log| - 1].verified)
  {
    var rest := log[1..];
    if |log| > 1 {
      assert rest[..|rest| - 1] == log[..|log| - 1][1..];
      assert Decided(rest, granted);
      StatusesOfDecided(rest, granted);
      var head := log[..|log| - 1][0];
      assert head == log[0];
      var tail := StatusesOf(rest);
      if log[0].VerifyStatus? {
        assert forall i :: 1 <= i < |tail| + 1 ==> StatusesOf(log)[i] == tail[i - 1];
      }
    } else {
      assert rest == [];
    }
  }

  predicate IsFinalText(t: VerifyText) {
    t.VMatch? || t.VNoMatch? || t.VDisconnected? || t.VUnknownError?
  }

  predicate OnlyPrompts(answers: seq<Answer>) {
    forall i :: 0 <= i < |answers| ==> answers[i].Success? && answers[i].value.Prompt?
  }

  lemma {:induction false} SelectionsOnlyPrompt(s: S, signals: seq<Signal>)
    requires Statuses(signals) == []
    requires forall i :: 0 <= i < |signals| ==> signals[i].Status? || signals[i].FingerSelected?
    ensures OnlyPrompts(Answers(s, signals))
    decreases signals
  {
    if signals != [] {
      SelectionsOnlyPrompt(Automaton.Step(s, signals[0]).0, signals[1..]);
    }
  }

  /** Answer k is the only one that is not a prompt; it grants the session's user or nothing. */
  ghost predicate AnswersAt(answers: seq<Answer>, k: int, user: string, granted: bool) {
    && 0 <= k < |answers| && answers[k].Success?
    && (if granted then answers[k].value == Granted(user) else !answers[k].value.Granted? && !answers[k].value.Prompt?)
    && forall i :: 0 <= i < |answers| && i != k ==> answers[i].Success? && answers[i].value.Prompt?
  }

  ghost predicate OneAnswer(answers: seq<Answer>, user: string, granted: bool) {
    exists k :: AnswersAt(answers, k, user, granted)
  }

  lemma PromptFirst(a: Answer, rest: seq<Answer>, user: string, granted: bool)
    requires a.Success? && a.value.Prompt? && OneAnswer(rest, user, granted)
    ensures OneAnswer([a] + rest, user, granted)
  {
    var k :| AnswersAt(rest, k, user, granted);
    assert AnswersAt([a] + rest, k + 1, user, granted);
  }

  lemma AnswerFirst(a: Answer, rest: seq<Answer>, user: string, granted: bool)
    requires a.Success? && OnlyPrompts(rest)
    requires if granted then a.value == Granted(user) else !a.value.Granted? && !a.value.Prompt?
    ensures OneAnswer([a] + rest, user, granted)
  {
    assert AnswersAt([a] + rest, 0, user, granted);
  }

  lemma {:induction false} SessionAnswersOnce(s: S, signals: seq<Signal>, final: VerifyText)
    requires s.state.Waiting? && IsFinalText(final)
    requires RetriesThen(Statuses(signals), final)
    requires forall i :: 0 <= i < |signals| ==> signals[i].Status? || signals[i].FingerSelected?
    ensures OneAnswer(Answers(s, signals), s.user, final == VMatch)
    decreases signals
  {
    hide OneAnswer;
    if signals != [] {
      var (s1, a) := Automaton.Step(s, signals[0]);
      var all, tail := Statuses(signals), Statuses(signals[1..]);
      if signals[0].Status? {
        assert all == [signals[0]] + tail;
        if tail == [] {
          SelectionsOnlyPrompt(s1, signals[1..]);
          AnswerFirst(a, Answers(s1, signals[1..]), s.user, final == VMatch);
          return;
        }
        assert forall i :: 0 <= i < |tail| ==> tail[i] == all[i + 1];
        assert IsRetryText(all[0].result);
      } else {
        assert all == tail;
      }
      SessionAnswersOnce(s1, signals[1..], final);
      PromptFirst(a, Answers(s1, signals[1..]), s.user, final == VMatch);
    }
  }

  /**
   * End to end: a session begun for any user, fed one verify's signals with selections interleaved
   * anywhere, never errs, answers once, and grants exactly when the deciding reply names a slot
   * mapped to the claimed user (and to the requested finger when one was named).
   */
  lemma VerifyEndToEnd(w: W, finger: string, user: string, policy: Policy, signals: seq<Signal>)
    requires Delivers(signals, Verifying(w, finger).1.log)
    ensures OneAnswer(Answers(Begin(New(user, policy)), signals), user, GrantDue(w, finger))
  {
    hide Verifying, GrantDue, Statuses, StatusesOf, Answers, OneAnswer;
    var log := Verifying(w, finger).1.log;
    VerifyingDecides(w, finger);
    StatusesOfDecided(log, GrantDue(w, finger));
    SessionAnswersOnce(Begin(New(user, policy)), signals, log[|log| - 1].verified);
  }
}
