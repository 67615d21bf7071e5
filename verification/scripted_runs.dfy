/**
 * Runs of the worker in which the reader answers truly and the commits go as told: what one scripted
 * enrolment, claim, delete or release does to chip and file, and where strings of them lead.
 */
module ScriptedRuns {
  import opened Core
  import opened Proto
  import opened EnrollMachine
  import opened Store
  import opened WorkerSpec
  import opened Arming
  import opened EnrollTrace
  import opened NoOverwrite

  // ---------- an enrolment the reader goes along with ----------

  /** What the reader answers for every slot, occupied or not: no record. */
  const NO_RECORD: Outcome := Reply([0x40, 0xff])

  /** k accepted samples and a clear collision check. */
  function Touching(k: nat, rest: seq<Outcome>): seq<Outcome> {
    if k == 0 then [Reply([0, 0, 0])] + rest else [Reply([0, 0])] + Touching(k - 1, rest)
  }

  /** Everything before the answer to the commit: the count, the one probe, the samples, the check. */
  function UpToCommit(count: byte, stages: Stages, last: seq<Outcome>): seq<Outcome> {
    [Reply([0, count]), NO_RECORD] + Touching(stages, last)
  }

  /** The exchange a held handle adds for one command. */
  function Exchanged(w: W, c: Command): Exchange
    requires w.usb.Some?
  {
    Exchange(w.usb.value, Encode(c), ReplyEndpoint(c), ExpectedLen(c), NextOutcome(w))
  }

  /** The worker after one answered command. */
  function Advanced(w: W, c: Command): W
    requires w.usb.Some?
  {
    w.(script := Pop(w.script), wire := w.wire + [Exchanged(w, c)])
  }

  lemma RoundAnswered(w: W, c: Command)
    requires w.usb.Some? && NextOutcome(w).Reply?
    ensures Round(w, Encode(c), ReplyEndpoint(c), ExpectedLen(c)) == (Advanced(w, c), Success(NextOutcome(w).data))
  {
  }

  /** The first candidate, probed without a record in answer. */
  function Unvetoed(handle: nat, slot: byte): (e: Exchange)
    ensures Opcode(e.out) == Some(0x12) && !Vetoes(e)
  {
    Exchange(handle, Encode(FingerInfo(slot)), StatusIn, 70, NO_RECORD)
  }

  lemma PicksTheFirst(w: W, candidates: seq<byte>, rest: seq<Outcome>)
    requires w.usb.Some? && candidates != [] && w.script == [NO_RECORD] + rest
    ensures PickSlot(w, candidates)
         == (w.(script := rest, wire := w.wire + [Unvetoed(w.usb.value, candidates[0])]), Success(candidates[0]))
  {
    hide Round, Encode;
    RoundAnswered(w, FingerInfo(candidates[0]));
  }

  /** The count is read, then the first candidate picked. */
  lemma GivesTheSlot(w: W, count: byte, rest: seq<Outcome>)
    requires w.usb.Some? && w.script == [Reply([0, count]), NO_RECORD] + rest && HostSays(w)
    requires WritableSlots(count, TrackedSlots(w.file)) != []
    ensures
      var slot := WritableSlots(count, TrackedSlots(w.file))[0];
      var wire := w.wire + [Exchanged(w, EnrolledNum), Unvetoed(w.usb.value, slot)];
      FreeSlot(w) == (w.(armed := true, host := Pop(w.host), script := rest, wire := wire), Success(slot))
  {
    hide WritableSlots, TrackedSlots, PickSlot, Unvetoed;
    var w1 := Advanced(w, EnrolledNum);
    assert w1.script == [NO_RECORD] + rest;
    assert SendArm(w) == (w1, Success(count)) by { Counted(w, count); }
    PicksTheFirst(HostDone(w1.(armed := true)), WritableSlots(count, TrackedSlots(w.file)), rest);
    assert w.wire + [Exchanged(w, EnrolledNum)] + [Unvetoed(w.usb.value, WritableSlots(count, TrackedSlots(w.file))[0])]
        == w.wire + [Exchanged(w, EnrolledNum), Unvetoed(w.usb.value, WritableSlots(count, TrackedSlots(w.file))[0])];
  }

  lemma Counted(w: W, count: byte)
    requires w.usb.Some? && NextOutcome(w) == Reply([0, count])
    ensures SendArm(w) == (Advanced(w, EnrolledNum), Success(count))
  {
  }

  /** One accepted sample: the loop goes on with what the machine queued. */
  lemma LoopTakesSample(w: W, sm: Machine, user: string, finger: string, s: Sink)
    requires w.usb.Some? && NextOutcome(w) == Reply([0, 0]) && sm.pending == Some(Sample) && sm.collected < sm.needed
    ensures
      var sm1 := TakeSend(Step(sm, [0, 0]).0).0;
      sm1.pending.Some?
      && EnrollLoop(w, sm, Encode(CommandOf(sm, Sample)), user, finger, s)
      == EnrollLoop(Advanced(w, CommandOf(sm, Sample)), sm1, Encode(CommandOf(sm1, sm1.pending.value)), user, finger,
                    Emit(s, EnrollStatus(DbusStatus.EStagePassed, false)))
  {
    hide Round, Encode, ReplyEndpoint, ExpectedLen, Step;
    RoundAnswered(w, CommandOf(sm, Sample));
    SampleAccepted(sm);
  }

  /** A clear collision check: the loop goes on with the commit. */
  lemma LoopTakesClear(w: W, sm: Machine, user: string, finger: string, s: Sink)
    requires w.usb.Some? && NextOutcome(w) == Reply([0, 0, 0]) && sm.pending == Some(CollisionCheck)
    ensures
      var sm1 := Step(sm, [0, 0, 0]).0;
      sm1.pending == Some(CommitWrite) && sm1.slot == sm.slot
      && EnrollLoop(w, sm, Encode(CheckCollision), user, finger, s)
      == EnrollLoop(Advanced(w, CheckCollision), sm1, Encode(CommandOf(sm1, CommitWrite)), user, finger, s)
  {
    hide Round, Encode, ReplyEndpoint, ExpectedLen;
    RoundAnswered(w, CheckCollision);
    assert CommandOf(Step(sm, [0, 0, 0]).0, CommitWrite) == CommandOf(sm, CommitWrite);
  }

  /** k accepted samples and a clear check later the loop stands before its commit. */
  lemma {:induction false} ReachesCommit(w: W, sm: Machine, k: nat, user: string, finger: string, s: Sink,
                                         rest: seq<Outcome>)
    returns (w': W, sm': Machine, s': Sink)
    requires k >= 1 && w.usb.Some? && w.script == Touching(k, rest)
    requires sm.pending == Some(Sample) && sm.needed as int == sm.collected as int + k
    ensures EnrollLoop(w, sm, Encode(CommandOf(sm, Sample)), user, finger, s)
         == EnrollLoop(w', sm', Encode(CommandOf(sm', CommitWrite)), user, finger, s')
    ensures sm'.pending == Some(CommitWrite) && sm'.slot == sm.slot
    ensures w' == w.(script := rest, wire := w'.wire) && w.wire <= w'.wire
    decreases k
  {
    hide EnrollLoop, Encode, ReplyEndpoint, ExpectedLen, Step;
    LoopTakesSample(w, sm, user, finger, s);
    SampleAccepted(sm);
    var w1, sm1 := Advanced(w, CommandOf(sm, Sample)), TakeSend(Step(sm, [0, 0]).0).0;
    var s1 := Emit(s, EnrollStatus(DbusStatus.EStagePassed, false));
    if k > 1 {
      w', sm', s' := ReachesCommit(w1, sm1, k - 1, user, finger, s1, rest);
    } else {
      assert w1.script == [Reply([0, 0, 0])] + rest;
      LoopTakesClear(w1, sm1, user, finger, s1);
      w', sm', s' := Advanced(w1, CheckCollision), Step(sm1, [0, 0, 0]).0, s1;
    }
  }

  /** An accepted sample queues the next command, the collision check after the last one. */
  lemma SampleAccepted(sm: Machine)
    requires sm.pending == Some(Sample) && sm.collected < sm.needed
    ensures
      var (sm', action) := Step(sm, [0, 0]);
      var next := if sm.collected as int + 1 == sm.needed as int then CollisionCheck else Sample;
      && action.EmitProgress? && sm'.pending == Some(next) && sm'.sendBuf == Some(Encode(CommandOf(sm', next)))
      && sm'.collected as int == sm.collected as int + 1 && sm'.slot == sm.slot && sm'.needed == sm.needed
      && CommandOf(TakeSend(sm').0, next) == CommandOf(sm', next)
  {
    hide Encode;
  }

  /** Handle, claim, firmware and busy flag are the same. */
  ghost predicate SameHold(w: W, w': W) {
    w'.usb == w.usb && w'.claimed == w.claimed && w'.firmware == w.firmware && w'.busy == w.busy
  }

  /** The commit is the last exchange; with an answer and a save the enrolment succeeds, without one it fails. */
  lemma CommitEnds(w: W, sm: Machine, user: string, finger: string, s: Sink)
    requires sm.pending == Some(CommitWrite) && w.usb.Some? && (NextOutcome(w).Reply? || NextOutcome(w) == Silence)
    ensures
      var c := CommandOf(sm, CommitWrite);
      var (w', _, r) := EnrollLoop(w, sm, Encode(c), user, finger, s);
      && w'.wire == w.wire + [Exchanged(w, c)] && SameHold(w, w')
      && (NextOutcome(w) == Silence ==> r.Failure?)
      && (NextOutcome(w) == Reply([0, 0]) && HostSays(w) && !HostSays(HostDone(w)) ==> r.Failure?)
      && (NextOutcome(w) == Reply([0, 0]) && w.host == [] && InsertFault(w.file, user, finger, sm.slot) == None ==>
            r.Success?)
  {
    hide Encode, Round, Step, Record, Classify;
    var c := CommandOf(sm, CommitWrite);
    var (w1, r1) := Round(w, Encode(c), ReplyEndpoint(c), ExpectedLen(c));
    RoundHappens(w, c);
    if r1.Success? {
      StepMoves(sm, r1.value);
      RecordEnds(w1, s, user, finger, sm.slot);
    }
  }

  lemma RoundHappens(w: W, c: Command)
    requires w.usb.Some? && (NextOutcome(w).Reply? || NextOutcome(w) == Silence)
    ensures
      var (w1, r) := Round(w, Encode(c), ReplyEndpoint(c), ExpectedLen(c));
      && w1 == Advanced(w, c)
      && (NextOutcome(w) == Silence ==> r.Failure?)
      && (NextOutcome(w) == Reply([0, 0]) ==> r == Success([0, 0]))
  {
  }

  lemma RecordEnds(w: W, s: Sink, user: string, finger: string, id: byte)
    ensures Record(w, s, user, finger, id).0.wire == w.wire && SameHold(w, Record(w, s, user, finger, id).0)
    ensures HostSays(w) && !HostSays(HostDone(w)) ==> Record(w, s, user, finger, id).2.Failure?
    ensures w.host == [] && InsertFault(w.file, user, finger, id) == None ==> Record(w, s, user, finger, id).2.Success?
  {
    hide InsertFault, Inserted;
  }

  /** How the commit and the save of its entry go. */
  predicate GoesWell(last: seq<Outcome>, host: seq<bool>) {
    last == [Reply([0, 0])] && host == []
  }

  predicate GoesUnanswered(last: seq<Outcome>, host: seq<bool>) {
    last == [] && host == []
  }

  predicate GoesUnsaved(last: seq<Outcome>, host: seq<bool>) {
    last == [Reply([0, 0])] && host == [true, true, true, false]
  }

  /** A claimed worker about to run the scripted enrolment. */
  ghost predicate Poised(w: W, finger: string, stages: Stages, count: byte, last: seq<Outcome>) {
    && w.claimed.Some? && w.usb.Some? && IsValidFinger(finger) && !IsMapped(w.file, w.claimed.value, finger)
    && WritableSlots(count, TrackedSlots(w.file)) != [] && w.script == UpToCommit(count, stages, last)
    && (GoesWell(last, w.host) || GoesUnanswered(last, w.host) || GoesUnsaved(last, w.host))
  }

  /** The dialogue of a scripted enrolment ends in a commit for the first candidate. */
  lemma EndsInCommit(w: W, finger: string, stages: Stages, count: byte, last: seq<Outcome>)
    returns (es: seq<Exchange>)
    requires Poised(w, finger, stages, count, last)
    ensures
      var (w1, _, r) := EnrollInner(w, finger, stages, Sink(EnrollOp, false, []));
      var slot := WritableSlots(count, TrackedSlots(w.file))[0];
      && w1.wire == w.wire + [Exchanged(w, EnrolledNum), Unvetoed(w.usb.value, slot)] + es && SameHold(w, w1)
      && FollowsMachine(es, slot, stages)
      && es != [] && IsCommit(es[|es| - 1].out) && es[|es| - 1].outcome == (if last == [] then Silence else last[0])
      && (r.Success? <==> GoesWell(last, w.host))
      && FreeSlot(HostDone(w)).1 == Success(slot)
  {
    hide WritableSlots, TrackedSlots, Touching, FreeSlot, EnrollLoop, EnrollInner, Encode, FollowsMachine, ExpectedLen,
         ReplyEndpoint, InsertFault, Unvetoed;
    var s := Sink(EnrollOp, false, []);
    var w0 := HostDone(w);
    GivesTheSlot(w0, count, Touching(stages, last));
    var (w2, picked) := FreeSlot(w0);
    EnrollInnerCases(w, finger, stages, s);
    DialogueConcludes(w, finger, stages, s);
    var (sm, action) := Start(WithTotal(picked.value, stages));
    var w3, sm3, s3 := ReachesCommit(w2, sm, stages, w.claimed.value, finger, s, last);
    CandidateIsFree(w.file, w.claimed.value, finger, count);
    CommitEnds(w3, sm3, w.claimed.value, finger, s3);
    var c := CommandOf(sm3, CommitWrite);
    IsTheCommit(c);
    es := w3.wire[|w2.wire|..] + [Exchanged(w3, c)];
    var w1 := EnrollInner(w, finger, stages, s).0;
    assert w1.wire == w2.wire + es;
    assert w1.wire[|w2.wire|..] == es;
  }

  lemma CandidateIsFree(p: Prints, user: string, finger: string, count: byte)
    requires IsValidFinger(finger) && WritableSlots(count, TrackedSlots(p)) != []
    ensures InsertFault(p, user, finger, WritableSlots(count, TrackedSlots(p))[0]) == None
  {
    hide WritableSlots, TrackedSlots, Tracked, IsValidFinger;
    var slot := WritableSlots(count, TrackedSlots(p))[0];
    assert slot in WritableSlots(count, TrackedSlots(p));
    UntrackedIsNotTaken(p, user, finger, slot);
  }

  lemma IsTheCommit(c: Command)
    requires c.Commit?
    ensures IsCommit(Encode(c))
  {
  }

  // ---------- what it does to the chip ----------

  /** A record is shown of occupied slots alone. */
  ghost predicate RecordsTruthfully(start: set<byte>, wire: seq<Exchange>, landed: nat -> bool) {
    forall i :: 0 <= i < |wire| && Opcode(wire[i].out) == Some(0x12) && Vetoes(wire[i]) ==>
      |wire[i].out| == 4 && wire[i].out[3] in Occupied(start, wire[..i], landed)
  }

  ghost predicate AnswersTruly(start: set<byte>, wire: seq<Exchange>, landed: nat -> bool) {
    CountsHonestly(start, wire, landed) && RecordsTruthfully(start, wire, landed)
  }

  lemma TrulyMore(start: set<byte>, wire: seq<Exchange>, e: Exchange, landed: nat -> bool)
    requires AnswersTruly(start, wire, landed)
    requires Opcode(e.out) == Some(0x04) && |DataOf(e.outcome)| == 2 ==>
               DataOf(e.outcome)[1] as int == |Occupied(start, wire, landed)|
    requires Opcode(e.out) == Some(0x12) ==> !Vetoes(e)
    ensures AnswersTruly(start, wire + [e], landed)
  {
    hide Occupied, Vetoes, Opcode;
    var more := wire + [e];
    forall i | 0 <= i < |more|
      ensures more[..i] == if i < |wire| then wire[..i] else wire
    {
    }
  }

  lemma {:induction false} TrulyGrew(start: set<byte>, before: seq<Exchange>, after: seq<Exchange>,
                                     ops: set<Option<byte>>, landed: nat -> bool)
    requires AnswersTruly(start, before, landed) && Grew(before, after, ops) && {Some(0x04), Some(0x12)} !! ops
    ensures AnswersTruly(start, after, landed)
    decreases |after|
  {
    hide AnswersTruly;
    if |after| > |before| {
      var init, e := after[..|after| - 1], after[|after| - 1];
      TrulyGrew(start, before, init, ops, landed);
      TrulyMore(start, init, e, landed);
      assert init + [e] == after;
    } else {
      assert after == before;
    }
  }

  lemma AbortGrows(w: W)
    ensures Grew(w.wire, AbortSession(w).wire, ABORT_OPS)
       && SameHold(w, AbortSession(w)) && AbortSession(w).file == w.file
  {
  }

  lemma DialogueGrows(b: seq<Exchange>, es: seq<Exchange>, slot: byte, n: byte)
    requires FollowsMachine(es, slot, n)
    ensures Grew(b, b + es, {Some(0x01), Some(0x10), Some(0x11)})
  {
    hide FollowsMachine;
    forall i | |b| <= i < |b + es|
      ensures Opcode((b + es)[i].out) in {Some(0x01), Some(0x10), Some(0x11)}
    {
      CueOps(es, slot, n, i - |b|);
    }
  }

  /** A dialogue ending in a commit writes, or would write, its one slot. */
  lemma CommitTargets(start: set<byte>, b: seq<Exchange>, es: seq<Exchange>, slot: byte, n: byte, landed: nat -> bool)
    requires n >= 1 && FollowsMachine(es, slot, n) && es != [] && IsCommit(es[|es| - 1].out)
    ensures
      var held, e := Occupied(start, b, landed), es[|es| - 1];
      && (slot in held ==> !NeverOverwrites(start, b + es, landed))
      && Occupied(start, b + es, landed)
         == (if Acked(e) || landed(|b| + |es| - 1) then held + {slot} else held)
      && (!Acked(e) && landed(|b| + |es| - 1) ==> !NoSilentCommit(b + es, landed))
      && (!Acked(e) ==> !HasAckedCommit(b, b + es))
  {
    hide FollowsMachine, Occupied, Feed, Heard, Encode, Acked;
    var init, e := es[..|es| - 1], es[|es| - 1];
    FollowsPrefix(es, slot, n);
    DialogueInit(es, b, slot, n);
    DialogueStages(start, b, init, slot, n, landed);
    DialogueStages(start, b, es, slot, n, landed);
    assert b + es == (b + init) + [e];
    OccupiedMore(start, b + init, e, landed);
    var at := |b| + |es| - 1;
    assert (b + es)[at] == e && (b + es)[..at] == b + init;
    forall i | |b| <= i < |b + es| && IsCommit((b + es)[i].out)
      ensures i == at
    {
      CommitIsGatedAndLast(es, slot, n, i - |b|);
    }
  }

  lemma OverwritesStay(start: set<byte>, before: seq<Exchange>, after: seq<Exchange>, landed: nat -> bool)
    requires before <= after
    ensures NeverOverwrites(start, after, landed) ==> NeverOverwrites(start, before, landed)
  {
    hide Occupied, Staged;
    assert forall i :: 0 <= i < |before| ==> before[i] == after[i] && before[..i] == after[..i];
  }

  lemma OnlyThereAcked(a: seq<Exchange>, b: seq<Exchange>, c: seq<Exchange>, d: seq<Exchange>)
    requires Grew(a, b, {Some(0x04), Some(0x12)}) && b <= c && Grew(c, d, ABORT_OPS)
    ensures HasAckedCommit(a, d) ==> HasAckedCommit(b, c)
  {
    hide Acked;
    if HasAckedCommit(a, d) {
      var i :| |a| <= i < |d| && IsCommit(d[i].out) && Acked(d[i]);
      assert |b| <= i < |c| && d[i] == c[i];
    }
  }

  /** A count read e0, a probe e1, a dialogue es ending in a commit, then perhaps an abort up to d. */
  ghost predicate EnrolmentWire(a: seq<Exchange>, e0: Exchange, e1: Exchange, es: seq<Exchange>, d: seq<Exchange>,
                                slot: byte, n: byte) {
    && Opcode(e0.out) == Some(0x04) && Opcode(e1.out) == Some(0x12) && !Vetoes(e1)
    && FollowsMachine(es, slot, n) && es != [] && IsCommit(es[|es| - 1].out)
    && Grew(a + [e0, e1] + es, d, ABORT_OPS)
  }

  lemma PreludeGrows(a: seq<Exchange>, e0: Exchange, e1: Exchange)
    requires Opcode(e0.out) == Some(0x04) && Opcode(e1.out) == Some(0x12)
    ensures Grew(a, a + [e0, e1], {Some(0x04), Some(0x12)})
  {
  }

  /** On an honest count the enrolment stays honest, and its commit is the only write. */
  lemma EnrolmentStaysTrue(start: set<byte>, a: seq<Exchange>, e0: Exchange, e1: Exchange, es: seq<Exchange>,
                           d: seq<Exchange>, slot: byte, n: byte, landed: nat -> bool)
    requires n >= 1 && EnrolmentWire(a, e0, e1, es, d, slot, n) && AnswersTruly(start, a, landed)
    requires |DataOf(e0.outcome)| == 2 ==> DataOf(e0.outcome)[1] as int == |Occupied(start, a, landed)|
    ensures AnswersTruly(start, d, landed) && a <= d
  {
    hide AnswersTruly, Occupied, FollowsMachine, Vetoes;
    var b := a + [e0, e1];
    TrulyMore(start, a, e0, landed);
    TrulyMore(start, a + [e0], e1, landed);
    assert a + [e0] + [e1] == b;
    DialogueGrows(b, es, slot, n);
    TrulyGrew(start, b, b + es, {Some(0x01), Some(0x10), Some(0x11)}, landed);
    TrulyGrew(start, b + es, d, ABORT_OPS, landed);
    assert a <= b <= b + es <= d;
  }

  lemma EnrolmentWrites(start: set<byte>, a: seq<Exchange>, e0: Exchange, e1: Exchange, es: seq<Exchange>,
                        d: seq<Exchange>, slot: byte, n: byte, landed: nat -> bool)
    requires n >= 1 && EnrolmentWire(a, e0, e1, es, d, slot, n)
    ensures
      var held, e := Occupied(start, a, landed), es[|es| - 1];
      && (slot in held ==> !NeverOverwrites(start, d, landed))
      && Occupied(start, d, landed) == (if Acked(e) || landed(|a| + 2 + |es| - 1) then held + {slot} else held)
      && (!Acked(e) && landed(|a| + 2 + |es| - 1) ==> !NoSilentCommit(d, landed))
      && (Acked(e) <==> HasAckedCommit(a, d))
  {
    hide CountsHonestly, Occupied, FollowsMachine, NeverOverwrites, NoSilentCommit, HasAckedCommit, Acked, Grew;
    var b := a + [e0, e1];
    PreludeGrows(a, e0, e1);
    NoWriteNoChange(start, a, b, {Some(0x04), Some(0x12)}, landed);
    CommitTargets(start, b, es, slot, n, landed);
    NoWriteNoChange(start, b + es, d, ABORT_OPS, landed);
    PrefixOfGrown(b + es, d, ABORT_OPS);
    OverwritesStay(start, b + es, d, landed);
    HonestPrefix(start, b + es, d, landed);
    assert b <= b + es;
    OnlyThereAcked(a, b, b + es, d);
    if Acked(es[|es| - 1]) {
      LastIsAcked(a, b, es, d);
    }
  }

  lemma ScriptedAnswers(w: W, finger: string, stages: Stages, count: byte, last: seq<Outcome>, e: Exchange)
    requires Poised(w, finger, stages, count, last)
    requires e.outcome == if last == [] then Silence else last[0]
    ensures Opcode(Exchanged(w, EnrolledNum).out) == Some(0x04)
    ensures DataOf(Exchanged(w, EnrolledNum).outcome) == [0, count]
    ensures Acked(e) <==> last != []
  {
    hide WritableSlots, TrackedSlots, Touching;
  }

  /**
   * The claimed worker's scripted enrolment: every sample accepted, no record shown, the commit going as
   * `last` and its entry's save as `host` say. It targets the first writable slot, whatever is there.
   */
  lemma ScriptedEnrolment(start: set<byte>, w: W, finger: string, stages: Stages, count: byte, last: seq<Outcome>,
                          landed: nat -> bool)
    requires Poised(w, finger, stages, count, last)
    requires AnswersTruly(start, w.wire, landed) && count as int == |Occupied(start, w.wire, landed)|
    ensures
      var (w', _, r) := Enrolling(w, finger, stages);
      var slot, held := WritableSlots(count, TrackedSlots(w.file))[0], Occupied(start, w.wire, landed);
      && AnswersTruly(start, w'.wire, landed) && SameHold(w, w')
      && (slot in held ==> !NeverOverwrites(start, w'.wire, landed))
      && (r.Success? <==> GoesWell(last, w.host)) && (HasAckedCommit(w.wire, w'.wire) <==> last != [])
      && w'.file == (if r.Success? then Inserted(w.file, w.claimed.value, finger, slot) else w.file)
      && (last != [] || (forall i :: landed(i)) ==> Occupied(start, w'.wire, landed) == held + {slot})
      && (last == [] && (forall i :: landed(i)) ==> !NoSilentCommit(w'.wire, landed))
  {
    hide EnrollInner, FreeSlot, WritableSlots, TrackedSlots, FollowsMachine, Occupied, NeverOverwrites, AnswersTruly,
         NoSilentCommit, HasAckedCommit, AbortSession, Acked, UpToCommit, IsValidFinger, HostSays, Opcode, Inserted,
         Vetoes, Grew;
    EnrollRecordsOneEntry(w, finger, stages);
    var es := EndsInCommit(w, finger, stages, count, last);
    var slot, e0 := WritableSlots(count, TrackedSlots(w.file))[0], Exchanged(w, EnrolledNum);
    var e1 := Unvetoed(w.usb.value, slot);
    var w1 := EnrollInner(w, finger, stages, Sink(EnrollOp, false, [])).0;
    var w' := Enrolling(w, finger, stages).0;
    ScriptedAnswers(w, finger, stages, count, last, es[|es| - 1]);
    AbortGrows(w1);
    GrewNot(w1.wire, ABORT_OPS);
    assert EnrolmentWire(w.wire, e0, e1, es, w'.wire, slot, stages);
    EnrolmentStaysTrue(start, w.wire, e0, e1, es, w'.wire, slot, stages, landed);
    EnrolmentWrites(start, w.wire, e0, e1, es, w'.wire, slot, stages, landed);
  }

  lemma LastIsAcked(a: seq<Exchange>, b: seq<Exchange>, es: seq<Exchange>, d: seq<Exchange>)
    requires a <= b && es != [] && b + es <= d && IsCommit(es[|es| - 1].out) && Acked(es[|es| - 1])
    ensures HasAckedCommit(a, d)
  {
    hide Acked;
    var i := |b| + |es| - 1;
    assert d[i] == (b + es)[i] == es[|es| - 1];
  }

  // ---------- calls that write nothing, and the delete ----------

  /** A claim that reads no firmware and gets the count, or no answer at all. */
  lemma ClaimReads(w: W, user: string, answer: Outcome)
    requires !w.busy && w.claimed.None? && w.firmware.None? && w.host == [] && w.script == [Silence, answer]
    requires answer == Silence || (answer.Reply? && |answer.data| == 2)
    ensures
      var (w', r) := Claim(w, user);
      && Grew(w.wire, w'.wire, CLAIM_OPS) && |w'.wire| == |w.wire| + 2
      && w'.wire[|w.wire|].outcome == Silence && w'.wire[|w.wire| + 1].outcome == answer
      && w'.usb.Some? && w'.file == w.file && !w'.busy && w'.firmware.None?
      && (r.Success? <==> answer.Reply?) && w'.claimed == if r.Success? then Some(user) else None
  {
    hide SendArm, ReadFirmware, Encode;
    var w1 := OpenHandle(w).0;
    FirmwareUnread(w1);
    var w2 := Advanced(w1, FwVersion);
    assert w2.(firmware := None) == w2;
    ArmReads(w2, answer);
    var w3 := Advanced(w2, EnrolledNum);
    assert w3.wire[|w.wire|] == Exchanged(w1, FwVersion) && w3.wire[|w.wire| + 1] == Exchanged(w2, EnrolledNum);
    ClaimCommands();
  }

  lemma ClaimCommands()
    ensures Opcode(Encode(FwVersion)) == None && Opcode(Encode(EnrolledNum)) == Some(0x04)
  {
  }

  lemma FirmwareUnread(w: W)
    requires w.usb.Some? && NextOutcome(w) == Silence
    ensures ReadFirmware(w) == (Advanced(w, FwVersion), None)
  {
  }

  lemma ArmReads(w: W, answer: Outcome)
    requires w.usb.Some? && w.script == [answer] && (answer == Silence || (answer.Reply? && |answer.data| == 2))
    ensures SendArm(w).0 == Advanced(w, EnrolledNum) && (SendArm(w).1.Success? <==> answer.Reply?)
  {
  }

  lemma NoCommitSent(before: seq<Exchange>, after: seq<Exchange>, ops: set<Option<byte>>)
    requires Grew(before, after, ops) && Some(0x11) !in ops
    ensures !HasAckedCommit(before, after)
  {
  }

  /** An answered claim on a true count. */
  lemma ClaimStaysTrue(start: set<byte>, w: W, user: string, answer: Outcome, landed: nat -> bool)
    requires !w.busy && w.claimed.None? && w.firmware.None? && w.host == [] && w.script == [Silence, answer]
    requires answer == Silence || (answer.Reply? && |answer.data| == 2
                                   && answer.data[1] as int == |Occupied(start, w.wire, landed)|)
    requires AnswersTruly(start, w.wire, landed)
    ensures
      var w' := Claim(w, user).0;
      && AnswersTruly(start, w'.wire, landed) && !HasAckedCommit(w.wire, w'.wire)
      && Occupied(start, w'.wire, landed) == Occupied(start, w.wire, landed)
  {
    hide AnswersTruly, Occupied, Claim, HasAckedCommit, Vetoes;
    ClaimReads(w, user, answer);
    var wire, more := w.wire, Claim(w, user).0.wire;
    var e0, e1 := more[|wire|], more[|wire| + 1];
    assert more == wire + [e0] + [e1];
    assert Grew(wire, wire + [e0], CLAIM_OPS);
    TrulyMore(start, wire, e0, landed);
    NoWriteNoChange(start, wire, wire + [e0], CLAIM_OPS, landed);
    TrulyMore(start, wire + [e0], e1, landed);
    NoWriteNoChange(start, wire, more, CLAIM_OPS, landed);
    NoCommitSent(wire, more, CLAIM_OPS);
  }

  /** An acknowledged delete of a mapped finger. */
  lemma DeleteGoes(start: set<byte>, w: W, user: string, finger: string, landed: nat -> bool)
    requires IsValidFinger(finger) && IsMapped(w.file, user, finger) && w.usb.Some?
    requires w.host == [] && w.script == [Reply([0, 0])] && AnswersTruly(start, w.wire, landed)
    ensures
      var w' := DeleteFinger(w, user, finger).0;
      && w'.file == Removed(w.file, user, finger) && SameHold(w, w')
      && AnswersTruly(start, w'.wire, landed) && !HasAckedCommit(w.wire, w'.wire)
      && Occupied(start, w'.wire, landed) == Occupied(start, w.wire, landed) - {w.file[user][finger]}
  {
    hide AnswersTruly, Occupied, HasAckedCommit, Removed, IsValidFinger, Vetoes;
    var e := DeleteExchange(w, w.file[user][finger]);
    assert HostDone(w) == w;
    EraseAcked(w, w.file[user][finger]);
    assert DeleteFinger(w, user, finger).0.wire == w.wire + [e];
    TrulyMore(start, w.wire, e, landed);
    OccupiedMore(start, w.wire, e, landed);
    assert Grew(w.wire, w.wire + [e], DELETE_OPS);
    NoCommitSent(w.wire, w.wire + [e], DELETE_OPS);
  }

  lemma EraseAcked(w: W, slot: byte)
    requires w.usb.Some? && w.script == [Reply([0, 0])]
    ensures
      var c := Delete(slot);
      var (w', r) := Ask(w, c);
      && w' == w.(script := [], wire := w.wire + [DeleteExchange(w, slot)])
      && EraseVerdict(c, r).Success? && Acked(DeleteExchange(w, slot)) && IsDelete(DeleteExchange(w, slot).out)
      && DeleteExchange(w, slot).out[3] == slot && Opcode(DeleteExchange(w, slot).out) == Some(0x05)
  {
  }

  // ---------- runs ----------

  lemma RunMore(w: W, steps: seq<Step1>, s: Step1, stages: Stages)
    ensures Run(w, steps + [s], stages) == RunStep(Run(w, steps, stages), s, stages).0
  {
    hide RunStep;
    assert (steps + [s])[..|steps|] == steps;
  }

  lemma SavesMore(w: W, steps: seq<Step1>, s: Step1, stages: Stages)
    ensures
      var before := Run(w, steps, stages);
      var (after, r) := RunStep(before, s, stages);
      SavesFollowCommits(w, steps + [s], stages) <==>
        SavesFollowCommits(w, steps, stages) && (HasAckedCommit(before.wire, after.wire) ==> r.Success?)
  {
    hide RunStep, HasAckedCommit, Run;
    var more := steps + [s];
    assert more[..|steps|] == steps && more[|steps|] == s;
    assert forall i :: 0 <= i < |steps| ==> more[..i] == steps[..i] && more[i] == steps[i];
    if SavesFollowCommits(w, more, stages) {
      forall i | 0 <= i < |steps|
        ensures
          var before := Run(w, steps[..i], stages);
          var (after, r) := RunStep(before, steps[i], stages);
          HasAckedCommit(before.wire, after.wire) ==> r.Success?
      {
        assert more[i] == steps[i];
      }
      assert more[|steps|] == s;
    }
  }

  function Nothing(): nat -> bool {
    (i: nat) => false
  }

  function Everything(): nat -> bool {
    (i: nat) => true
  }

  lemma NothingIsSilent(wire: seq<Exchange>)
    ensures NoSilentCommit(wire, Nothing())
  {
  }

  // ---------- where such calls lead ----------

  ghost function FileAfter(file: Prints, steps: seq<Step1>, stages: Stages): Prints {
    Run(Fresh(file), steps, stages).file
  }

  ghost function HeldAfter(start: set<byte>, file: Prints, steps: seq<Step1>, stages: Stages, landed: nat -> bool)
    : set<byte>
  {
    Occupied(start, Run(Fresh(file), steps, stages).wire, landed)
  }

  /**
   * A run so far on a reader that answers truly, which saved what was acknowledged if `saved`; its
   * worker holds a handle and is claimed by `who`.
   */
  ghost predicate Underway(start: set<byte>, file: Prints, steps: seq<Step1>, stages: Stages, landed: nat -> bool,
                           saved: bool, who: Option<string>) {
    var w := Run(Fresh(file), steps, stages);
    && AnswersTruly(start, w.wire, landed) && (saved ==> SavesFollowCommits(Fresh(file), steps, stages))
    && w.usb.Some? && w.claimed == who && w.firmware.None? && !w.busy
  }

  /** A claim nobody answers opens the handle all the same. */
  lemma OpensHandle(start: set<byte>, file: Prints, stages: Stages, landed: nat -> bool)
    ensures
      var steps := [Step1(DoClaim("u"), [Silence, Silence], [])];
      && Underway(start, file, steps, stages, landed, true, None)
      && FileAfter(file, steps, stages) == file && HeldAfter(start, file, steps, stages, landed) == start
  {
    hide Claim, AnswersTruly, Occupied, SavesFollowCommits, HasAckedCommit, Run;
    var s := Step1(DoClaim("u"), [Silence, Silence], []);
    var w := Fresh(file).(script := s.script, host := s.host);
    NothingHappened(start, file, stages);
    ClaimReads(w, "u", Silence);
    ClaimStaysTrue(start, w, "u", Silence, landed);
    RunMore(Fresh(file), [], s, stages);
    SavesMore(Fresh(file), [], s, stages);
    assert [] + [s] == [s];
  }

  lemma NothingHappened(start: set<byte>, file: Prints, stages: Stages)
    ensures SavesFollowCommits(Fresh(file), [], stages) && Run(Fresh(file), [], stages) == Fresh(file)
    ensures forall landed: nat -> bool :: Occupied(start, [], landed) == start && AnswersTruly(start, [], landed)
  {
  }

  lemma DeleteUnderway(start: set<byte>, file: Prints, steps: seq<Step1>, stages: Stages, landed: nat -> bool,
                       saved: bool, u: string, f: string)
    requires Underway(start, file, steps, stages, landed, saved, None)
    requires IsMapped(FileAfter(file, steps, stages), u, f) && IsValidFinger(f)
    ensures
      var more := steps + [Step1(DoDelete(u, f), [Reply([0, 0])], [])];
      var p, q := FileAfter(file, steps, stages), FileAfter(file, more, stages);
      var held, left := HeldAfter(start, file, steps, stages, landed), HeldAfter(start, file, more, stages, landed);
      && Underway(start, file, more, stages, landed, saved, None)
      && q == Removed(p, u, f) && left <= held
      && Orphans(left, q) == Orphans(held, p) && Pinned(left, q) == Pinned(held, p)
  {
    hide AnswersTruly, Occupied, SavesFollowCommits, HasAckedCommit, Tracked, Erasable, Removed, Run, DeleteFinger,
         NeverOverwrites, IsValidFinger;
    var s := Step1(DoDelete(u, f), [Reply([0, 0])], []);
    var w := Run(Fresh(file), steps, stages).(script := s.script, host := s.host);
    DeleteGoes(start, w, u, f, landed);
    DeleteKeepsOrphans(start, w, u, f, landed);
    RunMore(Fresh(file), steps, s, stages);
    SavesMore(Fresh(file), steps, s, stages);
  }

  /** Every entry a delete can name is deleted, one after the other. */
  lemma {:induction false} DeletesAll(start: set<byte>, file: Prints, steps: seq<Step1>, stages: Stages,
                                      landed: nat -> bool, saved: bool)
    returns (more: seq<Step1>)
    requires Underway(start, file, steps, stages, landed, saved, None)
    ensures Underway(start, file, more, stages, landed, saved, None)
    ensures Erasable(FileAfter(file, more, stages)) == {}
    ensures Unerasable(FileAfter(file, more, stages)) == Unerasable(FileAfter(file, steps, stages))
    ensures
      var p, q := FileAfter(file, steps, stages), FileAfter(file, more, stages);
      var held, left := HeldAfter(start, file, steps, stages, landed), HeldAfter(start, file, more, stages, landed);
      && Orphans(left, q) == Orphans(held, p) && left == Pinned(left, q) == Pinned(held, p)
    decreases |Flat(FileAfter(file, steps, stages))|
  {
    hide Underway, Erasable, Unerasable, Removed, FileAfter, HeldAfter, Flat;
    var p := FileAfter(file, steps, stages);
    if Erasable(p) == {} {
      more := steps;
    } else {
      var u, f := SomeErasable(p);
      var s := Step1(DoDelete(u, f), [Reply([0, 0])], []);
      DeleteUnderway(start, file, steps, stages, landed, saved, u, f);
      UnerasableRemoved(p, u, f);
      FlatRemoved(p, u, f);
      FlatLookup(p, u, f);
      Shrinks(Flat(p), (u, f));
      more := DeletesAll(start, file, steps + [s], stages, landed, saved);
    }
  }

  lemma Shrinks<K, V>(m: map<K, V>, k: K)
    requires k in m
    ensures |m - {k}| < |m|
  {
    assert (m - {k}).Keys == m.Keys - {k};
  }

  lemma SomeErasable(p: Prints) returns (u: string, f: string)
    requires Erasable(p) != {}
    ensures IsMapped(p, u, f) && IsValidFinger(f)
  {
    var s :| s in Erasable(p);
    u, f :| u in p && f in p[u] && IsValidFinger(f) && p[u][f] == s;
  }

  /** The count is read and the device claimed; chip and file stay as they were. */
  lemma ClaimUnderway(start: set<byte>, file: Prints, steps: seq<Step1>, stages: Stages, landed: nat -> bool,
                      saved: bool, user: string, count: byte)
    requires Underway(start, file, steps, stages, landed, saved, None)
    requires count as int == |HeldAfter(start, file, steps, stages, landed)|
    ensures
      var more := steps + [Step1(DoClaim(user), [Silence, Reply([0, count])], [])];
      && Underway(start, file, more, stages, landed, saved, Some(user))
      && HeldAfter(start, file, more, stages, landed) == HeldAfter(start, file, steps, stages, landed)
      && FileAfter(file, more, stages) == FileAfter(file, steps, stages)
  {
    hide AnswersTruly, Occupied, SavesFollowCommits, HasAckedCommit, Run, Claim;
    var s := Step1(DoClaim(user), [Silence, Reply([0, count])], []);
    var w := Run(Fresh(file), steps, stages).(script := s.script, host := s.host);
    ClaimReads(w, user, Reply([0, count]));
    ClaimStaysTrue(start, w, user, Reply([0, count]), landed);
    RunMore(Fresh(file), steps, s, stages);
    SavesMore(Fresh(file), steps, s, stages);
  }

  lemma ReleaseUnderway(start: set<byte>, file: Prints, steps: seq<Step1>, stages: Stages, landed: nat -> bool,
                        saved: bool, who: Option<string>)
    requires Underway(start, file, steps, stages, landed, saved, who)
    ensures
      var more := steps + [Step1(DoRelease, [], [])];
      && Underway(start, file, more, stages, landed, saved, None)
      && HeldAfter(start, file, more, stages, landed) == HeldAfter(start, file, steps, stages, landed)
      && FileAfter(file, more, stages) == FileAfter(file, steps, stages)
      && Run(Fresh(file), steps, stages).wire <= Run(Fresh(file), more, stages).wire
  {
    hide AnswersTruly, Occupied, SavesFollowCommits, HasAckedCommit, Run, AbortSession;
    var s := Step1(DoRelease, [], []);
    var w := Run(Fresh(file), steps, stages).(script := s.script, host := s.host);
    AbortGrows(w);
    TrulyGrew(start, w.wire, AbortSession(w).wire, ABORT_OPS, landed);
    NoWriteNoChange(start, w.wire, AbortSession(w).wire, ABORT_OPS, landed);
    NoCommitSent(w.wire, AbortSession(w).wire, ABORT_OPS);
    RunMore(Fresh(file), steps, s, stages);
    SavesMore(Fresh(file), steps, s, stages);
  }

  /** The scripted enrolment of a claimed run. */
  lemma EnrolClaimed(start: set<byte>, file: Prints, steps: seq<Step1>, stages: Stages, landed: nat -> bool,
                     saved: bool, user: string, count: byte, last: seq<Outcome>, host: seq<bool>)
    requires Underway(start, file, steps, stages, landed, saved, Some(user))
    requires count as int == |HeldAfter(start, file, steps, stages, landed)|
    requires WritableSlots(count, TrackedSlots(FileAfter(file, steps, stages))) != []
    requires !IsMapped(FileAfter(file, steps, stages), user, "left-thumb")
    requires GoesWell(last, host) || (GoesUnanswered(last, host) && forall i :: landed(i)) || GoesUnsaved(last, host)
    ensures
      var more := steps + [Step1(DoEnroll("left-thumb"), UpToCommit(count, stages, last), host)];
      var p, held := FileAfter(file, steps, stages), HeldAfter(start, file, steps, stages, landed);
      var slot := WritableSlots(count, TrackedSlots(p))[0];
      && Underway(start, file, more, stages, landed, saved && !GoesUnsaved(last, host), Some(user))
      && HeldAfter(start, file, more, stages, landed) == held + {slot}
      && FileAfter(file, more, stages) == (if GoesWell(last, host) then Inserted(p, user, "left-thumb", slot) else p)
      && (slot in held ==> !NeverOverwrites(start, Run(Fresh(file), more, stages).wire, landed))
  {
    hide AnswersTruly, NoSilentCommit, Occupied, SavesFollowCommits, HasAckedCommit, Run, NeverOverwrites, Enrolling,
         WritableSlots, TrackedSlots, Inserted, UpToCommit;
    var s := Step1(DoEnroll("left-thumb"), UpToCommit(count, stages, last), host);
    var w := Run(Fresh(file), steps, stages).(script := s.script, host := s.host);
    assert IsValidFinger(FINGER_NAMES[0]);
    ScriptedEnrolment(start, w, "left-thumb", stages, count, last, landed);
    RunMore(Fresh(file), steps, s, stages);
    SavesMore(Fresh(file), steps, s, stages);
  }

  /** Claim for a new user, enrol, release: the first writable slot is written, and recorded if all goes well. */
  lemma EnrolUnderway(start: set<byte>, file: Prints, steps: seq<Step1>, stages: Stages, landed: nat -> bool,
                      saved: bool, last: seq<Outcome>, host: seq<bool>)
    returns (more: seq<Step1>, user: string, slot: byte)
    requires Underway(start, file, steps, stages, landed, saved, None)
    requires
      exists s: byte ::
        |HeldAfter(start, file, steps, stages, landed)| <= s as int <= MAX_SLOT as int
        && s !in Tracked(FileAfter(file, steps, stages))
    requires GoesWell(last, host) || (GoesUnanswered(last, host) && forall i :: landed(i)) || GoesUnsaved(last, host)
    ensures Underway(start, file, more, stages, landed, saved && !GoesUnsaved(last, host), None)
    ensures
      var p, q := FileAfter(file, steps, stages), FileAfter(file, more, stages);
      var held := HeldAfter(start, file, steps, stages, landed);
      && |held| <= slot as int <= MAX_SLOT as int && slot !in Tracked(p)
      && (forall s: byte :: |held| <= s as int <= MAX_SLOT as int && s !in Tracked(p) ==> slot <= s)
      && HeldAfter(start, file, more, stages, landed) == held + {slot}
      && !IsMapped(p, user, "left-thumb")
      && q == (if GoesWell(last, host) then Inserted(p, user, "left-thumb", slot) else p)
      && (slot in held ==> !NeverOverwrites(start, Run(Fresh(file), more, stages).wire, landed))
  {
    hide Underway, Run, NeverOverwrites, WritableSlots, TrackedSlots, Tracked, Inserted, FileAfter, HeldAfter,
         UpToCommit;
    var p, held := FileAfter(file, steps, stages), HeldAfter(start, file, steps, stages, landed);
    var count: byte := |held|;
    user := NewUser(p);
    slot := FirstWritable(p, count);
    ClaimUnderway(start, file, steps, stages, landed, saved, user, count);
    var claimed := steps + [Step1(DoClaim(user), [Silence, Reply([0, count])], [])];
    EnrolClaimed(start, file, claimed, stages, landed, saved, user, count, last, host);
    var enrolled := claimed + [Step1(DoEnroll("left-thumb"), UpToCommit(count, stages, last), host)];
    ReleaseUnderway(start, file, enrolled, stages, landed, saved && !GoesUnsaved(last, host), Some(user));
    more := enrolled + [Step1(DoRelease, [], [])];
    OverwritesStay(start, Run(Fresh(file), enrolled, stages).wire, Run(Fresh(file), more, stages).wire, landed);
  }

  lemma FirstWritable(p: Prints, count: byte) returns (slot: byte)
    requires exists s: byte :: count <= s <= MAX_SLOT && s !in Tracked(p)
    ensures WritableSlots(count, TrackedSlots(p)) != [] && slot == WritableSlots(count, TrackedSlots(p))[0]
    ensures count <= slot <= MAX_SLOT && slot !in Tracked(p)
    ensures forall s: byte :: count <= s <= MAX_SLOT && s !in Tracked(p) ==> slot <= s
  {
    hide WritableSlots, TrackedSlots, Tracked;
    var offered := WritableSlots(count, TrackedSlots(p));
    var s: byte :| count <= s <= MAX_SLOT && s !in Tracked(p);
    assert s in offered;
    slot := offered[0];
    assert slot in offered;
  }

  /** Some user the file does not know. */
  lemma NewUser(p: Prints) returns (user: string)
    ensures user !in p
  {
    user := LongerThan(p.Keys);
  }

  lemma {:induction false} LongerThan(names: set<string>) returns (name: string)
    ensures forall n :: n in names ==> |n| < |name|
    decreases |names|
  {
    if names == {} {
      name := "";
    } else {
      var n :| n in names;
      var rest := LongerThan(names - {n});
      name := rest + n + "u";
    }
  }

  /**
   * An orphan at or above the number of occupied slots is overwritten in the end: every enrolment takes
   * the least writable slot and raises the count by one.
   */
  lemma {:induction false} ReachesTheOrphan(start: set<byte>, file: Prints, steps: seq<Step1>, stages: Stages,
                                            landed: nat -> bool, saved: bool, o: byte)
    returns (more: seq<Step1>)
    requires Underway(start, file, steps, stages, landed, saved, None)
    requires o in Orphans(HeldAfter(start, file, steps, stages, landed), FileAfter(file, steps, stages))
    requires |HeldAfter(start, file, steps, stages, landed)| <= o as int <= MAX_SLOT as int
    ensures Underway(start, file, more, stages, landed, saved, None)
    ensures !NeverOverwrites(start, Run(Fresh(file), more, stages).wire, landed)
    decreases o as int - |HeldAfter(start, file, steps, stages, landed)|
  {
    hide Underway, Run, NeverOverwrites, Tracked, Inserted, FileAfter, HeldAfter;
    var p, held := FileAfter(file, steps, stages), HeldAfter(start, file, steps, stages, landed);
    var enrolled, user, slot := EnrolUnderway(start, file, steps, stages, landed, saved, [Reply([0, 0])], []);
    if slot in held {
      more := enrolled;
    } else {
      TrackedInserted(p, user, "left-thumb", slot);
      more := ReachesTheOrphan(start, file, enrolled, stages, landed, saved, o);
    }
  }
}
