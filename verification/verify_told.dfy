/**
 * A whole verify told from the bytes it met: every event it emits, how it ends, what it puts on the wire
 * and what it leaves of handle and arming.
 */
module VerifyTold {
  import opened Core
  import opened Proto
  import opened Store
  import opened DbusStatus
  import opened EnrollMachine
  import opened WorkerSpec
  import opened Arming
  import opened VerifyGrant
  import opened EnrollTrace
  import opened Outcomes
  import Names

  // ---------- one round of an op ----------

  /** How a round of an op fails by its outcome; replies and short reads are data. */
  ghost predicate RoundFailsAs(o: Outcome, touching: bool, e: WorkerError) {
    match o
    case Reply(_) => false
    case Short(_) => false
    case Silence => e == Usb(if touching then TouchWaitSilent else Timeout)
    case Gone => e == Usb(Disconnected)
    case Interrupted => e == Cancelled
    case CancelWins => e == Cancelled
    case Fault => e == Usb(UsbError.Other)
  }

  ghost predicate IsData(o: Outcome) {
    o.Reply? || o.Short?
  }

  /** A round sends unless a cancellation won first, and a reader that is gone takes handle and arming with it. */
  lemma RoundExactly(w: W, c: Command)
    requires w.usb.Some?
    ensures
      var (w', r) := Round(w, Encode(c), ReplyEndpoint(c), ExpectedLen(c));
      var o := First(w.script);
      && w' == w.(script := Pop(w.script), wire := w'.wire,
                  usb := if o == Gone then None else w.usb, armed := w.armed && o != Gone)
      && w'.wire == w.wire + (if o == CancelWins then [] else [Exchange(w.usb.value, Encode(c), ReplyEndpoint(c),
                                                                        ExpectedLen(c), o)])
      && (r.Success? <==> IsData(o)) && (r.Success? ==> r.value == DataOf(o))
      && (r.Failure? ==> RoundFailsAs(o, ReplyEndpoint(c) == TouchWait, r.error))
  {
    hide Encode;
  }

  // ---------- the touches ----------

  /** The reader asks for another touch. */
  ghost predicate Asks(o: Outcome) {
    IsData(o) && IsRetry(DataOf(o))
  }

  /** The outcome that ends the touching: the first that does not ask for another touch. */
  ghost function LastTouch(script: seq<Outcome>): Outcome {
    if script == [] then Silence
    else if Asks(script[0]) then LastTouch(script[1..])
    else script[0]
  }

  ghost function Touch(h: nat, o: Outcome): Exchange {
    Exchange(h, Encode(Verify), TouchWait, 2, o)
  }

  /** One exchange for each touch, up to and including the one that ends it. */
  ghost function TouchWire(h: nat, script: seq<Outcome>): seq<Exchange> {
    var o := First(script);
    if o == CancelWins then []
    else [Touch(h, o)] + if script != [] && Asks(o) then TouchWire(h, script[1..]) else []
  }

  /** The word for a request to touch again. */
  ghost function RetryWord(b: byte): VerifyText {
    if b == 0xfb then VRemoveAndRetry else if b == 0xfe then VSwipeTooShort else VNotCentered
  }

  /** The name a match of this slot is announced under: the one asked for, or the last that has it in key order. */
  ghost predicate AnnouncedAs(p: Prints, user: string, finger: string, slot: byte, name: string) {
    && IsMapped(p, user, name) && p[user][name] == slot
    && (if finger == ANY then forall f :: IsMapped(p, user, f) && p[user][f] == slot ==> Names.Leq(f, name)
        else name == finger)
  }

  /** What the deciding outcome makes the worker say. */
  ghost predicate LastWords(log: seq<OpEvent>, o: Outcome, p: Prints, user: string, finger: string) {
    if o == Gone then log == [VerifyStatus(VDisconnected, true)]
    else if IsData(o) && |DataOf(o)| == 2 && DataOf(o)[1] < 16 && Owns(p, user, finger, DataOf(o)[1]) then
      && |log| == 2 && log[0].VerifyFingerSelected? && AnnouncedAs(p, user, finger, DataOf(o)[1], log[0].finger)
      && log[1] == VerifyStatus(VMatch, true)
    else if IsData(o) && |DataOf(o)| == 2 && (DataOf(o)[1] < 16 || DataOf(o)[1] == 0xfd) then
      log == [VerifyStatus(VNoMatch, true)]
    else log == [VerifyStatus(VUnknownError, true)]
  }

  /** The events of a touching: one retry word for each request, then the last words. */
  ghost predicate Tells(log: seq<OpEvent>, script: seq<Outcome>, p: Prints, user: string, finger: string)
    decreases script
  {
    if script != [] && Asks(script[0]) then
      && log != [] && log[0] == VerifyStatus(RetryWord(DataOf(script[0])[1]), false)
      && Tells(log[1..], script[1..], p, user, finger)
    else LastWords(log, First(script), p, user, finger)
  }

  /** The slots this finger may be verified by, under the names they are announced by. */
  ghost predicate Covers(allowed: map<byte, string>, p: Prints, user: string, finger: string) {
    && (forall s: byte :: s in allowed <==> Owns(p, user, finger, s))
    && forall s: byte :: s in allowed ==> AnnouncedAs(p, user, finger, s, allowed[s])
  }

  lemma AllowedCovers(p: Prints, user: string, finger: string)
    requires user in p && Allowed(p[user], finger).Success?
    ensures Covers(Allowed(p[user], finger).value, p, user, finger)
  {
    hide Names.Leq;
    forall s: byte
      ensures s in Allowed(p[user], finger).value <==> Owns(p, user, finger, s)
    {
      AllowedAreOwned(p, user, finger, s);
    }
  }

  /** How the loop ends, and what it leaves, by the outcome that ends it. */
  ghost predicate EndsBy(w: W, t: (W, Sink, Verdict)) {
    var o, w' := LastTouch(w.script), t.0;
    && w.usb.Some?
    && w' == w.(script := w'.script, wire := w.wire + TouchWire(w.usb.value, w.script),
                usb := if o == Gone then None else w.usb, armed := w.armed && o != Gone)
    && (t.2.Success? <==> IsData(o) && |DataOf(o)| == 2)
    && (t.2.Failure? ==> if IsData(o) then t.2.error == ProtoFailed(UnexpectedLength(2, |DataOf(o)|))
                         else RoundFailsAs(o, true, t.2.error))
  }

  lemma {:induction false} VerifyLoopEnds(w: W, allowed: map<byte, string>, s: Sink)
    requires w.usb.Some?
    ensures EndsBy(w, VerifyLoop(w, allowed, s))
    decreases |w.script|
  {
    hide Round, Encode, Announce, EndsBy;
    RoundExactly(w, Verify);
    var (w1, r) := Round(w, Encode(Verify), TouchWait, 2);
    var o := First(w.script);
    if r.Success? && |r.value| == 2 {
      AnnounceEnds(s, allowed, r.value);
      var (s1, done) := Announce(s, allowed, Classify(r.value[1]));
      if !done {
        VerifyLoopEnds(w1, allowed, s1);
        EndsLater(w, w1, VerifyLoop(w1, allowed, s1));
        return;
      }
    }
    EndsHere(w, VerifyLoop(w, allowed, s));
  }

  lemma EndsLater(w: W, w1: W, t: (W, Sink, Verdict))
    requires w.usb.Some? && w.script != [] && Asks(w.script[0]) && EndsBy(w1, t)
    requires w1 == w.(script := w.script[1..], wire := w.wire + [Touch(w.usb.value, w.script[0])])
    ensures EndsBy(w, t)
  {
    hide Touch;
    var head := [Touch(w.usb.value, w.script[0])];
    assert w.wire + head + TouchWire(w.usb.value, w1.script) == w.wire + (head + TouchWire(w.usb.value, w1.script));
  }

  lemma EndsHere(w: W, t: (W, Sink, Verdict))
    requires w.usb.Some? && !Asks(First(w.script))
    requires
      var o, w' := First(w.script), t.0;
      && w' == w.(script := Pop(w.script), wire := w'.wire, usb := if o == Gone then None else w.usb,
                  armed := w.armed && o != Gone)
      && w'.wire == w.wire + (if o == CancelWins then [] else [Touch(w.usb.value, o)])
      && (t.2.Success? <==> IsData(o) && |DataOf(o)| == 2)
      && (t.2.Failure? ==> if IsData(o) then t.2.error == ProtoFailed(UnexpectedLength(2, |DataOf(o)|))
                           else RoundFailsAs(o, true, t.2.error))
    ensures EndsBy(w, t)
  {
    hide Touch;
    assert [Touch(w.usb.value, First(w.script))] + [] == [Touch(w.usb.value, First(w.script))];
  }

  lemma AnnounceEnds(s: Sink, allowed: map<byte, string>, raw: seq<byte>)
    requires |raw| == 2
    ensures Announce(s, allowed, Classify(raw[1])).1 <==> !IsRetry(raw)
  {
  }

  /** One touch announced: its word, and before a match the finger. */
  lemma AnnounceTells(s: Sink, allowed: map<byte, string>, o: Outcome, p: Prints, user: string, finger: string)
    requires IsData(o) && |DataOf(o)| == 2 && Covers(allowed, p, user, finger)
    ensures
      var log := Announce(s, allowed, Classify(DataOf(o)[1])).0.log;
      && s.log <= log
      && (if Asks(o) then log == s.log + [VerifyStatus(RetryWord(DataOf(o)[1]), false)]
          else LastWords(log[|s.log|..], o, p, user, finger))
  {
    hide Covers;
    var b := DataOf(o)[1];
    if b < 16 {
      MatchTells(s, allowed, b, p, user, finger);
    }
  }

  lemma MatchTells(s: Sink, allowed: map<byte, string>, b: byte, p: Prints, user: string, finger: string)
    requires b < 16 && Covers(allowed, p, user, finger)
    ensures b in allowed <==> Owns(p, user, finger, b)
    ensures b in allowed ==>
              && Announce(s, allowed, Classify(b)).0.log
                 == s.log + [VerifyFingerSelected(allowed[b]), VerifyStatus(VMatch, true)]
              && AnnouncedAs(p, user, finger, b, allowed[b])
    ensures b !in allowed ==> Announce(s, allowed, Classify(b)).0.log == s.log + [VerifyStatus(VNoMatch, true)]
  {
    hide Owns, AnnouncedAs;
    assert Classify(b) == Ok(b);
  }

  lemma {:induction false} VerifyLoopTells(w: W, allowed: map<byte, string>, s: Sink, p: Prints, user: string,
                                           finger: string)
    requires w.usb.Some? && s.kind == VerifyOp && !s.terminalSent && Covers(allowed, p, user, finger)
    ensures
      var (_, s', r) := VerifyLoop(w, allowed, s);
      var log := Close(s', r).log;
      s.log <= log && Tells(log[|s.log|..], w.script, p, user, finger)
    decreases |w.script|
  {
    hide Round, Encode, Announce, Covers, Owns, AnnouncedAs;
    RoundExactly(w, Verify);
    var (w1, r) := Round(w, Encode(Verify), TouchWait, 2);
    var o := First(w.script);
    if r.Success? && |r.value| == 2 {
      AnnounceEnds(s, allowed, r.value);
      AnnounceTells(s, allowed, o, p, user, finger);
      var (s1, done) := Announce(s, allowed, Classify(r.value[1]));
      AnnounceSinks(s, allowed, Classify(r.value[1]));
      if !done {
        VerifyLoopTells(w1, allowed, s1, p, user, finger);
        var t := VerifyLoop(w1, allowed, s1);
        var log := Close(t.1, t.2).log;
        assert log[|s.log|..][1..] == log[|s1.log|..];
        assert log[|s.log|..][0] == s1.log[|s.log|];
      }
    } else {
      var log := Close(s, VerifyLoop(w, allowed, s).2).log;
      assert |log| == |s.log| + 1 && log[|s.log|..] == [log[|s.log|]];
    }
  }

  lemma AnnounceSinks(s: Sink, allowed: map<byte, string>, status: Status)
    requires !s.terminalSent
    ensures
      var (s', done) := Announce(s, allowed, status);
      s'.kind == s.kind && s'.terminalSent == done
  {
  }

  // ---------- the whole verify ----------

  /** Why a verify is refused before any touch, in the order the checks are made. */
  ghost predicate AdmissionRefused(w: W, finger: string, e: WorkerError) {
    if w.claimed.None? then e == Unclaimed
    else if finger != ANY && !IsValidFinger(finger) then e == BadFingerName(finger)
    else if !HostSays(w) then e == StoreFailed(Io)
    else if !HasPrints(w) then e == NoPrints(w.claimed.value)
    else !(finger == ANY || IsMapped(w.file, w.claimed.value, finger)) && e == NotEnrolledFinger(finger)
  }

  ghost predicate HasPrints(w: W)
    requires w.claimed.Some?
  {
    exists f :: IsMapped(w.file, w.claimed.value, f)
  }

  ghost predicate Admits(w: W, finger: string) {
    && w.claimed.Some? && (finger == ANY || IsValidFinger(finger)) && HostSays(w) && HasPrints(w)
    && (finger == ANY || IsMapped(w.file, w.claimed.value, finger))
  }

  lemma AdmitExactly(w: W, finger: string)
    ensures
      var (w', r) := Admit(w, finger);
      && w' == w.(host := w'.host)
      && (r.Success? <==> Admits(w, finger))
      && (r.Success? ==> Covers(r.value, w.file, w.claimed.value, finger))
      && (r.Failure? ==> AdmissionRefused(w, finger, r.error))
  {
    hide IsValidFinger, Covers;
    if w.claimed.Some? && w.claimed.value in w.file {
      var mine := w.file[w.claimed.value];
      if mine != map[] {
        var f :| f in mine;
        assert IsMapped(w.file, w.claimed.value, f);
      }
      if Allowed(mine, finger).Success? {
        AllowedCovers(w.file, w.claimed.value, finger);
      }
    }
  }

  /** The verify gets as far as waiting for a finger. */
  ghost predicate Touching(w: W, finger: string) {
    w.usb.Some? && ArmsFirst(w) && Admits(w, finger)
  }

  ghost predicate VerifyFails(w: W, finger: string, e: WorkerError) {
    var o := LastTouch(TouchScript(w));
    if w.usb.None? then e == Unclaimed
    else if !ArmsFirst(w) then FailsAs(First(w.script), e)
    else if !Admits(w, finger) then AdmissionRefused(w, finger, e)
    else if IsData(o) then e == ProtoFailed(UnexpectedLength(2, |DataOf(o)|))
    else RoundFailsAs(o, true, e)
  }

  /** The arming count, when one is due, and the touches. */
  ghost function VerifyWire(w: W, finger: string): seq<Exchange> {
    if w.usb.None? then []
    else
      (if w.armed then [] else [Sending(w.usb.value, EnrolledNum, First(w.script))])
        + if Touching(w, finger) then TouchWire(w.usb.value, TouchScript(w)) else []
  }

  /** The unclosed verify, from its arming on. */
  lemma VerifyInnerExactly(w: W, finger: string, s: Sink)
    requires w.armed ==> w.usb.Some?
    ensures
      var (w', _, r) := VerifyInner(w, finger, s);
      var gone := Touching(w, finger) && LastTouch(TouchScript(w)) == Gone;
      && (r.Success? <==> Touching(w, finger) && IsData(LastTouch(TouchScript(w)))
                          && |DataOf(LastTouch(TouchScript(w)))| == 2)
      && (r.Failure? ==> VerifyFails(w, finger, r.error))
      && w' == w.(script := w'.script, host := w'.host, wire := w.wire + VerifyWire(w, finger),
                  usb := if gone then None else w.usb, armed := w'.armed)
      && (r.Success? ==> w'.armed)
  {
    hide SendArm, VerifyLoop, Admit, Sending, RoundFailsAs, FailsAs, AdmissionRefused, LastTouch, TouchWire, IsData,
         HasPrints, IsValidFinger;
    ArmExactly(w);
    var (w1, arm) := if w.armed then (w, Success(0 as byte)) else SendArm(w);
    if arm.Success? {
      var w2 := w1.(armed := true);
      AdmitExactly(w2, finger);
      SameAdmission(w, w2, finger);
      var (w3, allowed) := Admit(w2, finger);
      if allowed.Success? {
        VerifyLoopEnds(w3, allowed.value, s);
        assert w1.wire + TouchWire(w.usb.value, TouchScript(w)) == w.wire + VerifyWire(w, finger);
      } else {
        assert w1.wire == w.wire + VerifyWire(w, finger);
      }
    } else if w.usb.Some? {
      assert w1.wire == w.wire + VerifyWire(w, finger);
    }
  }

  lemma SameAdmission(w: W, w2: W, finger: string)
    requires w2.claimed == w.claimed && w2.file == w.file && w2.host == w.host
    ensures Admits(w2, finger) <==> Admits(w, finger)
    ensures forall e :: AdmissionRefused(w2, finger, e) <==> AdmissionRefused(w, finger, e)
  {
  }

  /**
   * A verify succeeds exactly when the worker is or gets armed, the finger is admitted, and the touch that
   * ends it is a two-byte reply. Then the worker stays armed and nothing but the touches was sent after the
   * count. On a failure it is disarmed, and abort is sent last unless the reader is gone.
   */
  lemma VerifyExactly(w: W, finger: string)
    requires w.armed ==> w.usb.Some?
    ensures
      var (w', _, r) := Verifying(w, finger);
      var gone := Touching(w, finger) && LastTouch(TouchScript(w)) == Gone;
      && (r.Success? <==> Touching(w, finger) && IsData(LastTouch(TouchScript(w)))
                          && |DataOf(LastTouch(TouchScript(w)))| == 2)
      && (r.Failure? ==> VerifyFails(w, finger, r.error))
      && w' == w.(script := w'.script, host := w'.host, wire := w'.wire, usb := if gone then None else w.usb,
                  armed := r.Success?)
      && (if r.Success? then w'.wire == w.wire + VerifyWire(w, finger)
          else AbortedLast(w.(usb := w'.usb, wire := w.wire + VerifyWire(w, finger)), w'))
  {
    hide VerifyInner, AbortSession, VerifyWire, Touching, LastTouch, VerifyFails, AbortedLast;
    var s := Sink(VerifyOp, false, []);
    VerifyInnerExactly(w, finger, s);
    AbortExactly(VerifyInner(w, finger, s).0);
    SameAbort(VerifyInner(w, finger, s).0, w.(usb := VerifyInner(w, finger, s).0.usb,
                                              wire := w.wire + VerifyWire(w, finger)), Verifying(w, finger).0);
  }

  lemma SameAbort(w: W, v: W, w': W)
    requires w.usb == v.usb && w.wire == v.wire
    ensures forall u: W :: u.wire == w'.wire ==> (AbortedLast(w, u) <==> AbortedLast(v, w'))
  {
  }

  // ---------- a reader that is unplugged ----------

  /** What an op leaves that found the reader gone: in a round if it was `armed` by then, else in its count. */
  ghost predicate Unplugged(w: W, w': W, armed: bool)
    requires w.usb.Some?
  {
    && !w'.armed && (w'.usb == None <==> armed) && |w'.wire| > |w.wire|
    && var last := w'.wire[|w'.wire| - 1];
       if armed then last.outcome == Gone
       else First(w.script) == Gone && w'.usb == w.usb && IsAbortOn(last, w.usb.value)
  }

  /**
   * A verify that ends because the reader is gone: unless it was the arming count that found out, the
   * handle is dropped, nothing is armed and the last exchange is the one that found the reader gone.
   * A count that finds it gone leaves the handle in place, and abort is sent on it.
   */
  lemma VerifyUnplugged(w: W, finger: string)
    requires (w.armed ==> w.usb.Some?) && Verifying(w, finger).2 == Failure(Usb(Disconnected))
    ensures
      w.usb.Some? && Unplugged(w, Verifying(w, finger).0, ArmsFirst(w))
  {
    hide Verifying, TouchWire, Sending;
    VerifyExactly(w, finger);
    if Touching(w, finger) {
      LastIsGone(w.usb.value, TouchScript(w));
      var wire := VerifyWire(w, finger);
      assert (w.wire + wire)[|w.wire + wire| - 1] == TouchWire(w.usb.value, TouchScript(w))[|TouchWire(w.usb.value,
                                                                                           TouchScript(w))| - 1];
    }
  }

  /**
   * A count that finds the reader gone: the verify reports a disconnection, yet the handle stays, and the
   * next claim sends on it instead of opening the device again.
   */
  lemma GoneCountKeepsTheHandle(w: W, finger: string, user: string, script: seq<Outcome>, host: seq<bool>)
    requires w.usb.Some? && !w.armed && First(w.script) == Gone && !w.busy && w.claimed == Some(user)
    ensures
      var (w', s, r) := Verifying(w, finger);
      var again := Claim(w'.(script := script, host := host), user).0;
      && r == Failure(Usb(Disconnected)) && s.log == [VerifyStatus(VDisconnected, true)]
      && w'.usb == w.usb && again.usb == w.usb && again.openings == w.openings
  {
    hide Verifying, Claim;
    VerifyExactly(w, finger);
    VerifyTells(w, finger);
    ClaimExactly(Verifying(w, finger).0.(script := script, host := host), user);
  }

  lemma {:induction false} LastIsGone(h: nat, script: seq<Outcome>)
    requires LastTouch(script) == Gone
    ensures TouchWire(h, script) != [] && TouchWire(h, script)[|TouchWire(h, script)| - 1].outcome == Gone
    decreases script
  {
    hide IsRetry;
    if script != [] && Asks(script[0]) {
      LastIsGone(h, script[1..]);
    }
  }

  // ---------- the events ----------

  ghost predicate VerifyLogTold(w: W, finger: string, log: seq<OpEvent>) {
    if w.usb.None? then log == [VerifyStatus(VUnknownError, true)]
    else if !ArmsFirst(w) then
      log == [VerifyStatus(if First(w.script) == Gone then VDisconnected else VUnknownError, true)]
    else if !Admits(w, finger) then
      log == [VerifyStatus(if w.claimed.Some? && (finger == ANY || IsValidFinger(finger)) && HostSays(w) then VNoMatch
                           else VUnknownError, true)]
    else Tells(log, TouchScript(w), w.file, w.claimed.value, finger)
  }

  /** Every event of every verify, and their order, told from the bytes. */
  lemma VerifyTells(w: W, finger: string)
    requires w.armed ==> w.usb.Some?
    ensures VerifyLogTold(w, finger, Verifying(w, finger).1.log)
  {
    hide SendArm, VerifyLoop, Admit, FailsAs, Tells, HasPrints, IsValidFinger;
    var s := Sink(VerifyOp, false, []);
    ArmExactly(w);
    var (w1, arm) := if w.armed then (w, Success(0 as byte)) else SendArm(w);
    if arm.Success? {
      var w2 := w1.(armed := true);
      AdmitExactly(w2, finger);
      SameAdmission(w, w2, finger);
      var (w3, allowed) := Admit(w2, finger);
      if allowed.Success? {
        VerifyLoopTells(w3, allowed.value, s, w.file, w.claimed.value, finger);
        var t := VerifyLoop(w3, allowed.value, s);
        assert Close(t.1, t.2).log[0..] == Close(t.1, t.2).log;
        assert VerifyInner(w, finger, s) == t;
      }
    } else if w.usb.Some? {
      FailureWord(First(w.script), arm.error);
    }
  }

  lemma FailureWord(o: Outcome, e: WorkerError)
    requires FailsAs(o, e)
    ensures VerifyTerminal(e) == if o == Gone then VDisconnected else VUnknownError
  {
  }
}
