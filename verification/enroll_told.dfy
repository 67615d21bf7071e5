/**
 * A whole enrolment told from the bytes it met: every event it emits, exactly when it succeeds, the word
 * it closes with, and what it leaves of handle and arming.
 */
module EnrollTold {
  import opened Core
  import opened Proto
  import opened Store
  import opened DbusStatus
  import opened EnrollMachine
  import opened WorkerSpec
  import opened Arming
  import opened EnrollTrace
  import opened Outcomes
  import opened VerifyTold
  import NoOverwrite

  // ---------- the search for a slot ----------

  /** A whole record that is neither stuck nor empty. */
  ghost predicate IsRecord(data: seq<byte>) {
    |data| == 70 && data[1] != 0xff && data[69] != 0xff
  }

  /** The first candidate whose probe is answered by anything but a record; none if one is not answered. */
  ghost function Chosen(script: seq<Outcome>, candidates: seq<byte>): Option<byte>
    decreases candidates
  {
    if candidates == [] || !IsData(First(script)) then None
    else if IsRecord(DataOf(First(script))) then Chosen(Pop(script), candidates[1..])
    else Some(candidates[0])
  }

  /** The outcome of the last probe that was made or tried. */
  ghost function LastProbe(script: seq<Outcome>, candidates: seq<byte>): Option<Outcome>
    decreases candidates
  {
    if candidates == [] then None
    else if IsData(First(script)) && IsRecord(DataOf(First(script))) && |candidates| > 1 then
      LastProbe(Pop(script), candidates[1..])
    else Some(First(script))
  }

  /** How a search without a slot fails: all candidates ruled out, or a probe not answered. */
  ghost predicate SearchFails(script: seq<Outcome>, candidates: seq<byte>, e: WorkerError) {
    var last := LastProbe(script, candidates);
    if last.None? || IsData(last.value) then e == EnrollFailed(SlotLimit) else RoundFailsAs(last.value, false, e)
  }

  lemma {:induction false} PickExactly(w: W, candidates: seq<byte>)
    requires w.usb.Some?
    ensures
      var (w', r) := PickSlot(w, candidates);
      var gone := LastProbe(w.script, candidates) == Some(Gone);
      && (r.Success? <==> Chosen(w.script, candidates).Some?)
      && (r.Success? ==> r.value == Chosen(w.script, candidates).value && !gone)
      && (r.Failure? ==> SearchFails(w.script, candidates, r.error))
      && w' == w.(script := w'.script, wire := w'.wire, usb := if gone then None else w.usb,
                  armed := w.armed && !gone)
      && (gone ==> |w'.wire| > |w.wire| && w'.wire[|w'.wire| - 1].outcome == Gone)
    decreases candidates
  {
    hide Round, Encode, RoundFailsAs;
    if candidates != [] {
      var c := FingerInfo(candidates[0]);
      RoundExactly(w, c);
      var (w1, r) := Round(w, Encode(c), StatusIn, ExpectedLen(c));
      if r.Success? && IsRecord(r.value) {
        PickExactly(w1, candidates[1..]);
      }
    }
  }

  /** The slots an enrolment may write, from the count the chip gave. */
  ghost function Candidates(w: W): seq<byte>
    requires TwoBytes(First(w.script))
  {
    WritableSlots(First(w.script).data[1], TrackedSlots(w.file))
  }

  ghost predicate FindsSlot(w: W) {
    w.usb.Some? && TwoBytes(First(w.script)) && HostSays(w) && Chosen(Pop(w.script), Candidates(w)).Some?
  }

  ghost predicate SlotFails(w: W, e: WorkerError) {
    if w.usb.None? then e == Unclaimed
    else if !TwoBytes(First(w.script)) then FailsAs(First(w.script), e)
    else if !HostSays(w) then e == StoreFailed(Io)
    else SearchFails(Pop(w.script), Candidates(w), e)
  }

  /** The search was reached, and its last probe found the reader gone. */
  ghost predicate GoneProbing(w: W) {
    && w.usb.Some? && TwoBytes(First(w.script)) && HostSays(w)
    && LastProbe(Pop(w.script), Candidates(w)) == Some(Gone)
  }

  /** A slot is found exactly when the count is answered, the file loads, and some candidate is not vetoed. */
  lemma FreeSlotExactly(w: W)
    ensures
      var (w', r) := FreeSlot(w);
      && (r.Success? <==> FindsSlot(w))
      && (r.Success? ==> r.value == Chosen(Pop(w.script), Candidates(w)).value && w'.armed && w'.host == Pop(w.host))
      && (r.Failure? ==> SlotFails(w, r.error))
      && w' == w.(script := w'.script, host := w'.host, wire := w'.wire,
                  usb := if GoneProbing(w) then None else w.usb, armed := w'.armed)
      && (GoneProbing(w) ==> |w'.wire| > |w.wire| && w'.wire[|w'.wire| - 1].outcome == Gone && !w'.armed)
      && (w.usb.Some? && First(w.script) == Gone ==> w'.wire == w.wire + [Sending(w.usb.value, EnrolledNum, Gone)])
  {
    hide SendArm, PickSlot, WritableSlots, TrackedSlots, Chosen, LastProbe, RoundFailsAs, FailsAs, Sending;
    ArmExactly(w);
    var (w1, count) := SendArm(w);
    if count.Success? && HostSays(w1) {
      PickExactly(HostDone(w1.(armed := true)), Candidates(w));
    }
  }

  // ---------- the dialogue ----------

  ghost function EnrolRetryWord(b: byte): EnrollText {
    if b == 0xfb then ERemoveAndRetry else if b == 0xfe then ESwipeTooShort else ENotCentered
  }

  /** What one exchange of the dialogue makes the worker say at once. */
  ghost function SaidOf(e: Exchange): seq<OpEvent> {
    if Opcode(e.out) != Some(0x01) || !IsData(e.outcome) then []
    else if IsZero(DataOf(e.outcome)) then [EnrollStatus(EStagePassed, false)]
    else if IsRetry(DataOf(e.outcome)) then [EnrollStatus(EnrolRetryWord(DataOf(e.outcome)[1]), false)]
    else []
  }

  ghost function Said(es: seq<Exchange>): seq<OpEvent> {
    if es == [] then [] else Said(es[..|es| - 1]) + SaidOf(es[|es| - 1])
  }

  /** The word a dialogue that failed closes with, read off its last exchange. */
  ghost function ClosingWord(es: seq<Exchange>): EnrollText {
    if es == [] then EFailed
    else
      var o, out := es[|es| - 1].outcome, es[|es| - 1].out;
      if o == Gone then EDisconnected
      else if !IsData(o) then EFailed
      else if Opcode(out) == Some(0x10) then
        if |DataOf(o)| != 3 then EUnknownError else if DataOf(o)[1] != 0 then EDuplicate else EFailed
      else if |DataOf(o)| != 2 then EUnknownError
      else if DataOf(o)[1] == 0xdd then EDataFull
      else EFailed
  }

  /** The dialogue ended in an acknowledged commit. */
  ghost predicate Committed(es: seq<Exchange>) {
    es != [] && IsCommit(es[|es| - 1].out) && IsZero(DataOf(es[|es| - 1].outcome))
  }

  /** The reader was found gone by the last exchange. */
  ghost predicate EndsGone(es: seq<Exchange>) {
    es != [] && es[|es| - 1].outcome == Gone
  }

  /** Nothing in the last exchange ended the dialogue. */
  ghost predicate GoesOn(es: seq<Exchange>) {
    es == [] || (var e := es[|es| - 1];
                 && IsData(e.outcome)
                 && ((Opcode(e.out) == Some(0x01) && (IsZero(DataOf(e.outcome)) || IsRetry(DataOf(e.outcome))))
                     || (Opcode(e.out) == Some(0x10) && IsClear(DataOf(e.outcome)))))
  }

  /** What a step says and does, told by the bytes of the reply. */
  lemma StepTold(m: Machine, raw: seq<byte>)
    ensures
      var action := Step(m, raw).1;
      && (m.pending == Some(Sample) ==>
            if IsZero(raw) then action.EmitProgress?
            else if IsRetry(raw) then action.EmitRetry? && EnrollRetry(action.hint) == EnrolRetryWord(raw[1])
            else action.Fail? && EnrollFailure(action.error) == FaultWord(raw))
      && (m.pending == Some(CollisionCheck) ==>
            if IsClear(raw) then action.Send?
            else action.Fail? && EnrollFailure(action.error) == if |raw| != 3 then EUnknownError else EDuplicate)
      && (m.pending == Some(CommitWrite) ==>
            if IsZero(raw) then action == Complete(m.slot)
            else action.Fail? && EnrollFailure(action.error) == FaultWord(raw))
  {
    hide Encode;
  }

  ghost function FaultWord(raw: seq<byte>): EnrollText {
    if |raw| != 2 then EUnknownError else if raw[1] == 0xdd then EDataFull else EFailed
  }

  lemma CueOpcode(m: Machine, p: Pending)
    ensures Opcode(Encode(CommandOf(m, p)))
         == Some(match p case Sample => 0x01 case CollisionCheck => 0x10 case CommitWrite => 0x11)
  {
  }

  /** How the loop ends from here, told by the exchanges since b; the sink held `log` when it began. */
  ghost predicate DialogueTold(b: seq<Exchange>, log: seq<OpEvent>, w: W, user: string, finger: string, slot: byte,
                               t: (W, Sink, Verdict)) {
    && b <= t.0.wire
    && var es := t.0.wire[|b|..];
       && (t.2.Success? <==> Committed(es) && HostGrants(w, 2) && InsertFault(w.file, user, finger, slot) == None)
       && t.1.kind == EnrollOp && t.1.terminalSent == t.2.Success?
       && t.1.log == log + Said(es) + (if t.2.Success? then [EnrollStatus(ECompleted, true)] else [])
       && (t.2.Failure? ==> EnrollTerminal(t.2.error) == ClosingWord(es))
       && (t.2 == Failure(Usb(Disconnected)) <==> EndsGone(es))
       && t.0 == w.(script := t.0.script, host := t.0.host, file := t.0.file, wire := t.0.wire,
                    usb := if EndsGone(es) then None else w.usb, armed := w.armed && !EndsGone(es))
  }

  lemma GrantsTwo(w: W)
    ensures HostGrants(w, 2) <==> HostSays(w) && HostSays(HostDone(w))
  {
    assert HostGrants(w, 2) ==> HostSays(HostDone(w));
  }

  lemma RecordExactly(w: W, s: Sink, user: string, finger: string, id: byte)
    ensures
      var (w', s', r) := Record(w, s, user, finger, id);
      && (r.Success? <==> HostGrants(w, 2) && InsertFault(w.file, user, finger, id) == None)
      && (r.Failure? ==> r.error.StoreFailed?)
      && s' == (if r.Success? then Emit(s, EnrollStatus(ECompleted, true)) else s)
      && w' == w.(host := w'.host, file := w'.file)
  {
    hide InsertFault, Inserted, HostSays, HostGrants;
    GrantsTwo(w);
  }

  lemma SaidMore(es: seq<Exchange>, e: Exchange)
    ensures Said(es + [e]) == Said(es) + SaidOf(e)
  {
    hide SaidOf;
    assert (es + [e])[..|es|] == es;
  }

  lemma {:induction false} EnrollLoopTold(b: seq<Exchange>, log: seq<OpEvent>, w: W, sm: Machine, out: seq<byte>,
                                         user: string, finger: string, s: Sink, es: seq<Exchange>)
    requires w.usb.Some? && w.wire == b + es && GoesOn(es) && sm.pending.Some? && OutIsPending(sm, out)
    requires s == Sink(EnrollOp, false, log + Said(es))
    ensures DialogueTold(b, log, w, user, finger, sm.slot, EnrollLoop(w, sm, out, user, finger, s))
    decreases |w.script|, 0
  {
    hide Step, Encode, Round, Said, SaidOf, Record, InsertFault, DialogueTold, Opcode, HostGrants, RoundFailsAs;
    var p := sm.pending.value;
    var c := CommandOf(sm, p);
    CueOpcode(sm, p);
    RoundExactly(w, c);
    var (w1, r) := Round(w, out, ReplyEndpoint(c), ExpectedLen(c));
    var o := First(w.script);
    var t := EnrollLoop(w, sm, out, user, finger, s);
    if o == CancelWins {
      assert r == Failure(Cancelled) by { CancelFails(ReplyEndpoint(c) == TouchWait, r.error); }
      assert w.wire + [] == w.wire;
      StoppedTold(b, log, w, user, finger, sm.slot, es, t);
      return;
    }
    var e := Exchange(w.usb.value, out, ReplyEndpoint(c), ExpectedLen(c), o);
    var es1 := es + [e];
    assert w1.wire == b + es1;
    SaidMore(es, e);
    if r.Failure? {
      SaidNothing(e);
      SilentTold(b, log, w, user, finger, sm.slot, es1, ReplyEndpoint(c) == TouchWait, t);
      return;
    }
    StepTold(sm, r.value);
    StepMoves(sm, r.value);
    StepQueuesPending(sm, r.value);
    SendIsPending(sm, r.value);
    SaidAtOnce(sm, p, e);
    var (sm1, action) := Step(sm, r.value);
    match action {
      case EmitProgress(_, _) =>
        var s1 := Emit(s, EnrollStatus(EStagePassed, false));
        assert s1.log == log + Said(es1);
        ResendTold(b, log, w1, sm1, user, finger, s1, es1);
        Carried(b, log, w, w1, user, finger, sm.slot, t);
      case EmitRetry(hint) =>
        var s1 := Emit(s, EnrollStatus(DbusStatus.EnrollRetry(hint), false));
        assert s1.log == log + Said(es1);
        ResendTold(b, log, w1, sm1, user, finger, s1, es1);
        Carried(b, log, w, w1, user, finger, sm.slot, t);
      case Send(next) =>
        assert s.log == log + Said(es1);
        EnrollLoopTold(b, log, w1, sm1, next, user, finger, s, es1);
        Carried(b, log, w, w1, user, finger, sm.slot, t);
      case Complete(id) =>
        RecordExactly(w1, s, user, finger, id);
        RecordedTold(b, log, w, w1, user, finger, sm.slot, es1, s, t);
      case Fail(_) => FaultTold(b, log, w, user, finger, sm.slot, es1, t);
    }
  }

  lemma {:induction false} ResendTold(b: seq<Exchange>, log: seq<OpEvent>, w: W, sm: Machine, user: string,
                                     finger: string, s: Sink, es: seq<Exchange>)
    requires w.usb.Some? && w.wire == b + es && GoesOn(es) && sm.pending.Some? && BufferHoldsPending(sm)
    requires s == Sink(EnrollOp, false, log + Said(es))
    ensures DialogueTold(b, log, w, user, finger, sm.slot, Resend(w, sm, user, finger, s))
    decreases |w.script|, 1
  {
    hide EnrollLoop, Encode, DialogueTold, Said, GoesOn;
    var (sm1, next) := TakeSend(sm);
    assert CommandOf(sm, sm.pending.value) == CommandOf(sm1, sm1.pending.value);
    EnrollLoopTold(b, log, w, sm1, next.value, user, finger, s, es);
  }

  lemma CancelFails(touching: bool, e: WorkerError)
    ensures RoundFailsAs(CancelWins, touching, e) <==> e == Cancelled
  {
  }

  lemma SaidNothing(e: Exchange)
    ensures !IsData(e.outcome) ==> SaidOf(e) == []
    ensures Opcode(e.out) != Some(0x01) ==> SaidOf(e) == []
  {
  }

  lemma SaidAtOnce(m: Machine, p: Pending, e: Exchange)
    requires m.pending == Some(p) && e.out == Encode(CommandOf(m, p)) && IsData(e.outcome)
    ensures p == Sample && IsZero(DataOf(e.outcome)) ==> SaidOf(e) == [EnrollStatus(EStagePassed, false)]
    ensures p == Sample && IsRetry(DataOf(e.outcome)) ==>
              SaidOf(e) == [EnrollStatus(EnrolRetryWord(DataOf(e.outcome)[1]), false)]
    ensures p != Sample || !(IsZero(DataOf(e.outcome)) || IsRetry(DataOf(e.outcome))) ==> SaidOf(e) == []
  {
    CueOpcode(m, p);
  }

  /** Cancelled before the next command: nothing more was sent. */
  lemma StoppedTold(b: seq<Exchange>, log: seq<OpEvent>, w: W, user: string, finger: string, slot: byte,
                    es: seq<Exchange>, t: (W, Sink, Verdict))
    requires w.wire == b + es && GoesOn(es)
    requires t == (w.(script := t.0.script), Sink(EnrollOp, false, log + Said(es)), Failure(Cancelled))
    ensures DialogueTold(b, log, w, user, finger, slot, t)
  {
    hide Said, InsertFault, HostGrants;
    assert t.0.wire[|b|..] == es;
    assert log + Said(es) + [] == log + Said(es);
  }

  /** The last command was not answered. */
  lemma SilentTold(b: seq<Exchange>, log: seq<OpEvent>, w: W, user: string, finger: string, slot: byte,
                   es: seq<Exchange>, touching: bool, t: (W, Sink, Verdict))
    requires es != [] && !IsData(es[|es| - 1].outcome) && es[|es| - 1].outcome != CancelWins
    requires t.1 == Sink(EnrollOp, false, log + Said(es)) && t.2.Failure?
    requires RoundFailsAs(es[|es| - 1].outcome, touching, t.2.error)
    requires t.0 == w.(script := t.0.script, wire := b + es, usb := if EndsGone(es) then None else w.usb,
                       armed := w.armed && !EndsGone(es))
    ensures DialogueTold(b, log, w, user, finger, slot, t)
  {
    hide Said, InsertFault, HostGrants;
    assert t.0.wire[|b|..] == es;
    assert log + Said(es) + [] == log + Said(es);
  }

  /** The last reply ended the dialogue. */
  lemma FaultTold(b: seq<Exchange>, log: seq<OpEvent>, w: W, user: string, finger: string, slot: byte,
                  es: seq<Exchange>, t: (W, Sink, Verdict))
    requires es != [] && IsData(es[|es| - 1].outcome) && !Committed(es)
    requires t.1 == Sink(EnrollOp, false, log + Said(es)) && t.2.Failure? && t.2.error.EnrollFailed?
    requires EnrollFailure(t.2.error.enroll) == ClosingWord(es)
    requires t.0 == w.(script := t.0.script, wire := b + es)
    ensures DialogueTold(b, log, w, user, finger, slot, t)
  {
    hide Said, InsertFault, HostGrants, ClosingWord;
    assert t.0.wire[|b|..] == es;
    assert log + Said(es) + [] == log + Said(es);
  }

  /** The commit was acknowledged: the rest is the store. */
  lemma RecordedTold(b: seq<Exchange>, log: seq<OpEvent>, w: W, w1: W, user: string, finger: string, slot: byte,
                     es: seq<Exchange>, s: Sink, t: (W, Sink, Verdict))
    requires Committed(es) && IsData(es[|es| - 1].outcome) && s == Sink(EnrollOp, false, log + Said(es))
    requires w1 == w.(script := w1.script, wire := b + es)
    requires t.2.Success? <==> HostGrants(w1, 2) && InsertFault(w1.file, user, finger, slot) == None
    requires t.2.Failure? ==> t.2.error.StoreFailed?
    requires t.1 == if t.2.Success? then Emit(s, EnrollStatus(ECompleted, true)) else s
    requires t.0 == w1.(host := t.0.host, file := t.0.file)
    ensures DialogueTold(b, log, w, user, finger, slot, t)
  {
    hide Said, InsertFault, HostGrants, ClosingWord, Committed, EndsGone, EnrollTerminal;
    assert t.0.wire[|b|..] == es;
    CommittedWord(es);
    SameGrants(w, w1, 2);
    if t.2.Failure? {
      StoreWord(t.2.error);
      assert log + Said(es) + [] == log + Said(es);
    }
  }

  lemma CommittedWord(es: seq<Exchange>)
    requires Committed(es) && IsData(es[|es| - 1].outcome)
    ensures ClosingWord(es) == EFailed && !EndsGone(es)
  {
  }

  lemma StoreWord(e: WorkerError)
    requires e.StoreFailed?
    ensures EnrollTerminal(e) == EFailed
  {
  }

  lemma SameGrants(w: W, w1: W, n: nat)
    requires w1.host == w.host
    ensures HostGrants(w1, n) <==> HostGrants(w, n)
  {
  }

  /** A round that went on is told by how the rest went. */
  lemma Carried(b: seq<Exchange>, log: seq<OpEvent>, w: W, w1: W, user: string, finger: string, slot: byte,
                t: (W, Sink, Verdict))
    requires w1 == w.(script := w1.script, wire := w1.wire) && DialogueTold(b, log, w1, user, finger, slot, t)
    ensures DialogueTold(b, log, w, user, finger, slot, t)
  {
    hide Said, InsertFault, ClosingWord, HostGrants;
    SameGrants(w, w1, 2);
  }

  // ---------- the whole enrolment ----------

  /** The checks before any command. */
  ghost predicate EnrolAdmitted(w: W, finger: string) {
    w.claimed.Some? && IsValidFinger(finger) && HostSays(w) && !IsMapped(w.file, w.claimed.value, finger)
  }

  ghost predicate ReachesReader(w: W, finger: string) {
    EnrolAdmitted(w, finger) && FindsSlot(HostDone(w))
  }

  /** The word of an enrolment without a slot. */
  ghost function NoSlotWord(w: W): EnrollText {
    if w.usb.None? then EFailed
    else if !TwoBytes(First(w.script)) then if First(w.script) == Gone then EDisconnected else EFailed
    else if !HostSays(w) then EFailed
    else
      var last := LastProbe(Pop(w.script), Candidates(w));
      if last.None? || IsData(last.value) then EDataFull
      else if last.value == Gone then EDisconnected
      else EFailed
  }

  /** The word of an enrolment that never reached its dialogue. */
  ghost function RefusalWord(w: W, finger: string): EnrollText {
    if w.claimed.None? || !IsValidFinger(finger) || !HostSays(w) then EFailed
    else if IsMapped(w.file, w.claimed.value, finger) then EDuplicate
    else NoSlotWord(HostDone(w))
  }

  lemma NoSlotTold(w: W, e: WorkerError)
    requires SlotFails(w, e)
    ensures EnrollTerminal(e) == NoSlotWord(w)
    ensures e == Usb(Disconnected) <==> w.usb.Some? && (First(w.script) == Gone || GoneProbing(w))
  {
    hide Candidates, LastProbe;
  }

  lemma SlotIsFree(w: W, finger: string)
    requires ReachesReader(w, finger)
    ensures FreeSlot(HostDone(w)).1.Success?
    ensures InsertFault(w.file, w.claimed.value, finger, FreeSlot(HostDone(w)).1.value) == None
  {
    hide FreeSlot, Tracked, IsValidFinger, FindsSlot, Probes, Vetoes, Counts;
    FreeSlotExactly(HostDone(w));
    FreeSlotIsLeast(HostDone(w));
    UntrackedIsNotTaken(w.file, w.claimed.value, finger, FreeSlot(HostDone(w)).1.value);
  }

  /** The unclosed enrolment where no slot was found, or none looked for. */
  lemma RefusedTold(w: W, finger: string, stages: Stages, s: Sink)
    requires !ReachesReader(w, finger)
    ensures
      var (w', s', r) := EnrollInner(w, finger, stages, s);
      var w0 := HostDone(w);
      && s' == s && r.Failure? && EnrollTerminal(r.error) == RefusalWord(w, finger)
      && (r.error == Usb(Disconnected) <==>
            EnrolAdmitted(w, finger) && w.usb.Some? && (First(w.script) == Gone || GoneProbing(w0)))
      && w' == w.(script := w'.script, host := w'.host, wire := w'.wire, armed := w'.armed,
                  usb := if EnrolAdmitted(w, finger) && GoneProbing(w0) then None else w.usb)
      && (EnrolAdmitted(w, finger) && GoneProbing(w0) ==>
            |w'.wire| > |w.wire| && w'.wire[|w'.wire| - 1].outcome == Gone && !w'.armed)
  {
    hide FreeSlot, FindsSlot, SlotFails, GoneProbing, NoSlotWord, IsValidFinger, EnrollLoop;
    FreeSlotExactly(HostDone(w));
    if EnrolAdmitted(w, finger) {
      NoSlotTold(HostDone(w), FreeSlot(HostDone(w)).1.error);
    }
  }

  /** The unclosed enrolment from its slot on. */
  lemma ReachedTold(w: W, finger: string, stages: Stages)
    returns (b: seq<Exchange>, slot: byte)
    requires ReachesReader(w, finger)
    ensures
      var t := EnrollInner(w, finger, stages, Sink(EnrollOp, false, []));
      && b == FreeSlot(HostDone(w)).0.wire && FreeSlot(HostDone(w)).1 == Success(slot)
      && InsertFault(w.file, w.claimed.value, finger, slot) == None
      && b <= t.0.wire && FollowsMachine(t.0.wire[|b|..], slot, stages)
      && DialogueTold(b, [], FreeSlot(HostDone(w)).0, w.claimed.value, finger, slot, t)
  {
    hide FreeSlot, FindsSlot, GoneProbing, IsValidFinger, EnrollLoop, DialogueTold, FollowsMachine, Encode,
         InsertFault;
    var s := Sink(EnrollOp, false, []);
    FreeSlotExactly(HostDone(w));
    SlotIsFree(w, finger);
    HasHandle(HostDone(w));
    EnrollInnerCases(w, finger, stages, s);
    DialogueConcludes(w, finger, stages, s);
    var (w2, picked) := FreeSlot(HostDone(w));
    b, slot := w2.wire, picked.value;
    var (sm, action) := Start(WithTotal(slot, stages));
    assert Said([]) == [] && [] + Said([]) == [];
    assert w2.wire + [] == w2.wire;
    EnrollLoopTold(w2.wire, [], w2, sm, action.out, w.claimed.value, finger, s, []);
  }

  lemma HasHandle(w: W)
    requires FindsSlot(w)
    ensures w.usb.Some? && !GoneProbing(w) && HostSays(w) && TwoBytes(First(w.script))
  {
    ChosenIsNotGone(Pop(w.script), Candidates(w));
  }

  lemma {:induction false} ChosenIsNotGone(script: seq<Outcome>, candidates: seq<byte>)
    requires Chosen(script, candidates).Some?
    ensures LastProbe(script, candidates) != Some(Gone)
    decreases candidates
  {
    if IsRecord(DataOf(First(script))) {
      ChosenIsNotGone(Pop(script), candidates[1..]);
    }
  }

  /**
   * A whole enrolment. It succeeds exactly when it is admitted, finds a slot, completes the dialogue, and
   * the file loads and saves; its events are what the samples made it say and then one closing word, told
   * by what ended it. Success leaves the worker armed; a failure disarms it.
   */
  lemma EnrolTells(w: W, finger: string, stages: Stages) returns (b: seq<Exchange>, es: seq<Exchange>)
    ensures
      var (w', s, r) := Enrolling(w, finger, stages);
      && b + es <= w'.wire && w.wire <= b
      && (ReachesReader(w, finger) ==> b == FreeSlot(HostDone(w)).0.wire)
      && (!ReachesReader(w, finger) ==> es == [])
      && (r.Success? <==> ReachesReader(w, finger) && Language(Heard(es), stages) && HostGrants(w, 4))
      && s.log == Said(es) + [EnrollStatus(if r.Success? then ECompleted
                                           else if ReachesReader(w, finger) then ClosingWord(es)
                                           else RefusalWord(w, finger), true)]
      && w'.armed == r.Success? && (r.Success? ==> w'.wire == b + es && w'.usb == w.usb)
  {
    hide EnrollInner, FreeSlot, FindsSlot, DialogueTold, FollowsMachine, AbortSession, Language, Heard, Said,
         ClosingWord, RefusalWord, InsertFault, HostGrants;
    var s0 := Sink(EnrollOp, false, []);
    var (w1, s, r) := EnrollInner(w, finger, stages, s0);
    AbortExactly(w1);
    WireGrows(w, finger, stages);
    if ReachesReader(w, finger) {
      var slot;
      b, slot := ReachedTold(w, finger, stages);
      es := w1.wire[|b|..];
      assert b + es == w1.wire;
      ToldVerdict(w, finger, slot, stages, (w1, s, r));
    } else {
      RefusedTold(w, finger, stages, s0);
      b, es := w1.wire, [];
      NothingSaid();
    }
  }

  lemma NothingSaid()
    ensures Said([]) == []
  {
  }

  lemma WireGrows(w: W, finger: string, stages: Stages)
    ensures w.wire <= FreeSlot(HostDone(w)).0.wire
    ensures w.wire <= EnrollInner(w, finger, stages, Sink(EnrollOp, false, [])).0.wire
  {
    hide FreeSlot, EnrollLoop, IsValidFinger, Encode, Concluded, Tracked, Probes, Vetoes, Counts;
    FreeSlotIsLeast(HostDone(w));
    var s := Sink(EnrollOp, false, []);
    EnrollInnerCases(w, finger, stages, s);
    if ReachesDialogue(w, finger) {
      DialogueConcludes(w, finger, stages, s);
    }
  }

  /** The verdict and closing word of a dialogue. */
  lemma ToldVerdict(w: W, finger: string, slot: byte, stages: Stages, t: (W, Sink, Verdict))
    requires ReachesReader(w, finger) && InsertFault(w.file, w.claimed.value, finger, slot) == None
    requires
      var w2 := FreeSlot(HostDone(w)).0;
      && w2.wire <= t.0.wire && FollowsMachine(t.0.wire[|w2.wire|..], slot, stages)
      && DialogueTold(w2.wire, [], w2, w.claimed.value, finger, slot, t)
    ensures
      var es := t.0.wire[|FreeSlot(HostDone(w)).0.wire|..];
      && (t.2.Success? <==> Language(Heard(es), stages) && HostGrants(w, 4))
      && Close(t.1, t.2).log == Said(es) + [EnrollStatus(if t.2.Success? then ECompleted else ClosingWord(es), true)]
      && (t.2.Success? ==> t.0.armed && t.0.usb == w.usb)
  {
    hide FreeSlot, FindsSlot, FollowsMachine, Language, Heard, Said, ClosingWord, InsertFault, Candidates, Chosen,
         LastProbe;
    FreeSlotExactly(HostDone(w));
    HasHandle(HostDone(w));
    var w2 := FreeSlot(HostDone(w)).0;
    var es := t.0.wire[|w2.wire|..];
    NoOverwrite.LanguageIsAckedCommit(es, slot, stages);
    assert w2.host == Pop(Pop(w.host));
    FourGrants(w, w2);
    assert [] + Said(es) == Said(es);
    assert Said(es) + [] == Said(es);
  }

  lemma FourGrants(w: W, w2: W)
    requires w2.host == Pop(Pop(w.host)) && HostSays(w) && HostSays(HostDone(w))
    ensures HostGrants(w, 4) <==> HostGrants(w2, 2)
  {
    assert HostGrants(w2, 2) ==> forall i :: 2 <= i < 4 && i < |w.host| ==> w.host[i] == w2.host[i - 2];
  }

  // ---------- a reader that is unplugged ----------

  /**
   * An enrolment that ends because the reader is gone: unless it was the count that found out, the handle
   * is dropped, nothing is armed and the last exchange is the one that found the reader gone. A count that
   * finds it gone leaves the handle in place, and abort is sent on it.
   */
  lemma EnrolUnplugged(w: W, finger: string, stages: Stages)
    requires Enrolling(w, finger, stages).2 == Failure(Usb(Disconnected))
    ensures
      w.usb.Some? && Unplugged(w, Enrolling(w, finger, stages).0, TwoBytes(First(w.script)))
  {
    hide EnrollInner, FreeSlot, FindsSlot, DialogueTold, FollowsMachine, AbortSession, InsertFault, GoneProbing,
         IsValidFinger;
    var s0 := Sink(EnrollOp, false, []);
    var (w1, s, r) := EnrollInner(w, finger, stages, s0);
    AbortExactly(w1);
    WireGrows(w, finger, stages);
    if ReachesReader(w, finger) {
      var b, slot := ReachedTold(w, finger, stages);
      UnpluggedTold(w, b, finger, slot, (w1, s, r));
    } else {
      RefusedTold(w, finger, stages, s0);
      GoneIsAnswered(HostDone(w));
    }
  }

  lemma GoneIsAnswered(w: W)
    ensures GoneProbing(w) ==> TwoBytes(First(w.script))
    ensures First(w.script) == Gone ==> !GoneProbing(w)
  {
  }

  lemma UnpluggedTold(w: W, b: seq<Exchange>, finger: string, slot: byte, t: (W, Sink, Verdict))
    requires FindsSlot(HostDone(w)) && b == FreeSlot(HostDone(w)).0.wire && w.claimed.Some?
    requires w.wire <= b <= t.0.wire && t.2 == Failure(Usb(Disconnected))
    requires DialogueTold(b, [], FreeSlot(HostDone(w)).0, w.claimed.value, finger, slot, t)
    ensures t.0.usb == None && !t.0.armed && |t.0.wire| > |w.wire| && t.0.wire[|t.0.wire| - 1].outcome == Gone
    ensures w.usb.Some? && TwoBytes(First(w.script))
  {
    hide FreeSlot, FindsSlot, DialogueTold;
    HasHandle(HostDone(w));
    GoneEnds(b, [], FreeSlot(HostDone(w)).0, w.claimed.value, finger, slot, t);
  }

  lemma GoneEnds(b: seq<Exchange>, log: seq<OpEvent>, w: W, user: string, finger: string, slot: byte,
                 t: (W, Sink, Verdict))
    requires DialogueTold(b, log, w, user, finger, slot, t) && t.2 == Failure(Usb(Disconnected))
    ensures t.0.usb == None && !t.0.armed && |t.0.wire| > |b| && t.0.wire[|t.0.wire| - 1].outcome == Gone
  {
    hide Said, InsertFault, ClosingWord, HostGrants;
    assert EndsGone(t.0.wire[|b|..]);
  }
}
