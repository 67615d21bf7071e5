/** The wire of an enrolment: driver and machine never disagree, and commits stay behind the gate. */
module EnrollTrace {
  import opened Core
  import opened Proto
  import opened EnrollMachine
  import opened Store
  import opened WorkerSpec
  import opened Arming

  ghost function DataOf(o: Outcome): seq<byte> {
    match o
    case Reply(data) => data
    case Short(data) => data
    case _ => []
  }

  /** The replies an exchange history delivered. */
  ghost function Heard(es: seq<Exchange>): seq<seq<byte>> {
    seq(|es|, i requires 0 <= i < |es| => DataOf(es[i].outcome))
  }

  /** The bytes, endpoint and length are those of the command the machine waits for. */
  ghost predicate OnCue(e: Exchange, m: Machine) {
    && m.pending.Some?
    && var c := CommandOf(m, m.pending.value);
       e.out == Encode(c) && e.ep == ReplyEndpoint(c) && e.len == ExpectedLen(c)
  }

  /** Every exchange is what a machine fed the earlier replies asks for. */
  ghost predicate FollowsMachine(es: seq<Exchange>, slot: byte, n: byte) {
    forall k :: 0 <= k < |es| ==> OnCue(es[k], Feed(slot, n, Heard(es[..k])))
  }

  lemma HeardGrows(es: seq<Exchange>, e: Exchange, slot: byte, n: byte)
    ensures Heard(es + [e]) == Heard(es) + [DataOf(e.outcome)]
    ensures Feed(slot, n, Heard(es + [e])) == Step(Feed(slot, n, Heard(es)), DataOf(e.outcome)).0
    ensures FollowsMachine(es, slot, n) && OnCue(e, Feed(slot, n, Heard(es))) ==> FollowsMachine(es + [e], slot, n)
  {
    var heard := Heard(es + [e]);
    assert heard == Heard(es) + [DataOf(e.outcome)];
    assert heard[..|heard| - 1] == Heard(es);
    forall k | 0 <= k < |es| + 1
      ensures (es + [e])[..k] == es[..k]
    {
    }
    assert es[..|es|] == es;
  }

  /** The object in hand is the machine that heard these replies, up to an already taken buffer. */
  ghost predicate Embodies(sm: Machine, slot: byte, n: byte, es: seq<Exchange>) {
    sm.(sendBuf := None) == Feed(slot, n, Heard(es)).(sendBuf := None)
  }

  lemma EmbodiesAfterStep(sm: Machine, slot: byte, n: byte, es: seq<Exchange>, e: Exchange)
    requires Embodies(sm, slot, n, es)
    ensures Embodies(Step(sm, DataOf(e.outcome)).0, slot, n, es + [e])
    ensures Step(sm, DataOf(e.outcome)).1 == Step(Feed(slot, n, Heard(es)), DataOf(e.outcome)).1
    ensures OnCue(e, sm) <==> OnCue(e, Feed(slot, n, Heard(es)))
  {
    hide Step, Feed;
    var f := Feed(slot, n, Heard(es));
    HeardGrows(es, e, slot, n);
    StepIgnoresBuffer(sm, None, DataOf(e.outcome));
    StepIgnoresBuffer(f, None, DataOf(e.outcome));
    assert sm.pending.Some? ==> CommandOf(sm, sm.pending.value) == CommandOf(f, f.pending.value);
  }

  lemma StepNeverUnexpected(m: Machine, input: seq<byte>)
    ensures m.pending.Some? ==> Step(m, input).1 != Fail(UnexpectedReply)
  {
  }

  /** How the loop may end, told by the dialogue it leaves behind. */
  ghost predicate Concluded(w: W, user: string, finger: string, slot: byte, n: byte, es: seq<Exchange>, w': W,
                            r: Verdict) {
    && FollowsMachine(es, slot, n)
    && r != Failure(EnrollFailed(UnexpectedReply))
    && (r.Success? ==> Language(Heard(es), n) && InsertFault(w.file, user, finger, slot) == None
                       && w'.file == Inserted(w.file, user, finger, slot))
    && (r.Failure? ==> w'.file == w.file)
    && (r.Failure? && r.error.StoreFailed? ==> Language(Heard(es), n))
    && (Language(Heard(es), n) && r.Failure? ==>
          r.error == StoreFailed(Io)
          || (InsertFault(w.file, user, finger, slot).Some?
             && r.error == StoreFailed(InsertFault(w.file, user, finger, slot).value)))
  }

  ghost predicate LoopConcludes(b: seq<Exchange>, w: W, user: string, finger: string, slot: byte, n: byte,
                                t: (W, Sink, Verdict)) {
    && b <= t.0.wire && Concluded(w, user, finger, slot, n, t.0.wire[|b|..], t.0, t.2)
  }

  /** One round on cue: at most one exchange more, and data exactly on success. */
  lemma RoundOnCue(w: W, out: seq<byte>, c: Command)
    ensures
      var (w1, r) := Round(w, out, ReplyEndpoint(c), ExpectedLen(c));
      && w1.file == w.file
      && (w1.wire == w.wire
          || (w.usb.Some?
             && w1.wire == w.wire + [Exchange(w.usb.value, out, ReplyEndpoint(c), ExpectedLen(c), NextOutcome(w))]))
      && (r.Success? ==> w1.wire != w.wire && r.value == DataOf(NextOutcome(w)) && |w1.script| < |w.script|)
      && (r.Failure? ==> r.error != EnrollFailed(UnexpectedReply) && !r.error.StoreFailed?)
      && (r.Failure? && w1.wire != w.wire ==> DataOf(NextOutcome(w)) == [])
  {
  }

  lemma NotYetLanguage(slot: byte, n: byte, replies: seq<seq<byte>>)
    requires n >= 1 && Feed(slot, n, replies).pending.Some?
    ensures !Language(replies, n)
    ensures !Language(replies + [[]], n)
  {
    Recognises(slot, n, replies);
  }

  /** Recording adds the entry, or leaves the file and says why. */
  lemma RecordConcludes(w: W, s: Sink, user: string, finger: string, id: byte)
    ensures
      var (w', _, r) := Record(w, s, user, finger, id);
      var fault := InsertFault(w.file, user, finger, id);
      && w'.wire == w.wire
      && (r.Success? ==> fault == None && w'.file == Inserted(w.file, user, finger, id))
      && (r.Failure? ==> w'.file == w.file
                         && (r.error == StoreFailed(Io) || (fault.Some? && r.error == StoreFailed(fault.value))))
  {
    hide InsertFault, Inserted, HostSays;
  }

  lemma {:induction false} EnrollLoopConcludes(b: seq<Exchange>, w: W, sm: Machine, out: seq<byte>, user: string,
                                              finger: string, s: Sink, slot: byte, n: byte, es: seq<Exchange>)
    requires n >= 1 && w.wire == b + es && FollowsMachine(es, slot, n)
    requires Embodies(sm, slot, n, es) && sm.pending.Some? && OutIsPending(sm, out)
    ensures LoopConcludes(b, w, user, finger, slot, n, EnrollLoop(w, sm, out, user, finger, s))
    decreases |w.script|, 0
  {
    hide FollowsMachine, Step, Feed, Encode, Round, Heard, Language, Inserted, InsertFault, Embodies, OnCue, Record;
    var c := CommandOf(sm, sm.pending.value);
    RoundOnCue(w, out, c);
    var (w1, r) := Round(w, out, ReplyEndpoint(c), ExpectedLen(c));
    assert (b + es)[|b|..] == es;
    CueFromPending(sm, out, slot, n, es);
    if w1.wire == w.wire {
      NotYetLanguage(slot, n, Heard(es));
    } else {
      var e := Exchange(w.usb.value, out, ReplyEndpoint(c), ExpectedLen(c), NextOutcome(w));
      var es1 := es + [e];
      assert w1.wire == b + es1 && (b + es1)[|b|..] == es1;
      CueFromExchange(sm, e, c, out, slot, n, es);
      HeardGrows(es, e, slot, n);
      if r.Failure? {
        NotYetLanguage(slot, n, Heard(es));
      } else {
        EmbodiesAfterStep(sm, slot, n, es, e);
        var (sm1, action) := Step(sm, r.value);
        StepMoves(sm, r.value);
        StepQueuesPending(sm, r.value);
        SendIsPending(sm, r.value);
        StepNeverUnexpected(sm, r.value);
        CompletesExactlyOnLanguage(slot, n, Heard(es), r.value);
        FeedSlot(sm, slot, n, es);
        match action {
          case EmitProgress(_, _) =>
            ResendConcludes(b, w1, sm1, user, finger,
              Emit(s, EnrollStatus(DbusStatus.EStagePassed, false)), slot, n, es1);
          case EmitRetry(hint) =>
            ResendConcludes(b, w1, sm1, user, finger,
              Emit(s, EnrollStatus(DbusStatus.EnrollRetry(hint), false)), slot, n, es1);
          case Send(next) => EnrollLoopConcludes(b, w1, sm1, next, user, finger, s, slot, n, es1);
          case Complete(id) => RecordConcludes(w1, s, user, finger, id);
          case Fail(_) =>
        }
      }
    }
  }

  lemma FeedSlot(sm: Machine, slot: byte, n: byte, es: seq<Exchange>)
    requires n >= 1 && Embodies(sm, slot, n, es)
    ensures sm.slot == slot && sm.needed == n
  {
    Recognises(slot, n, Heard(es));
  }

  lemma CueFromPending(sm: Machine, out: seq<byte>, slot: byte, n: byte, es: seq<Exchange>)
    requires Embodies(sm, slot, n, es) && sm.pending.Some?
    ensures Feed(slot, n, Heard(es)).pending == sm.pending
  {
  }

  lemma CueFromExchange(sm: Machine, e: Exchange, c: Command, out: seq<byte>, slot: byte, n: byte, es: seq<Exchange>)
    requires Embodies(sm, slot, n, es) && sm.pending.Some? && OutIsPending(sm, out)
    requires c == CommandOf(sm, sm.pending.value)
    requires e.out == out && e.ep == ReplyEndpoint(c) && e.len == ExpectedLen(c)
    ensures OnCue(e, Feed(slot, n, Heard(es)))
  {
    var f := Feed(slot, n, Heard(es));
    assert CommandOf(sm, sm.pending.value) == CommandOf(f, f.pending.value);
  }

  lemma {:induction false} ResendConcludes(b: seq<Exchange>, w: W, sm: Machine, user: string, finger: string, s: Sink,
                                          slot: byte, n: byte, es: seq<Exchange>)
    requires n >= 1 && w.wire == b + es && FollowsMachine(es, slot, n)
    requires Embodies(sm, slot, n, es) && sm.pending.Some? && BufferHoldsPending(sm)
    ensures LoopConcludes(b, w, user, finger, slot, n, Resend(w, sm, user, finger, s))
    decreases |w.script|, 1
  {
    hide FollowsMachine, Feed, Heard, LoopConcludes, EnrollLoop, Encode;
    var (sm1, next) := TakeSend(sm);
    assert CommandOf(sm, sm.pending.value) == CommandOf(sm1, sm1.pending.value);
    EnrollLoopConcludes(b, w, sm1, next.value, user, finger, s, slot, n, es);
  }

  // ---------- choosing the slot ----------

  /** A finger_info reply that rules its slot out: a whole record, neither stuck nor empty. */
  ghost predicate Vetoes(e: Exchange) {
    var data := DataOf(e.outcome);
    |data| == 70 && data[1] != 0xff && data[69] != 0xff
  }

  ghost predicate Probes(e: Exchange, slot: byte) {
    e.out == Encode(FingerInfo(slot)) && e.ep == StatusIn && e.len == 70
  }

  /** Candidates are probed in order; the first one not vetoed is taken. */
  ghost predicate PicksFirst(candidates: seq<byte>, probes: seq<Exchange>, r: Result<byte, WorkerError>) {
    && |probes| <= |candidates|
    && (forall j :: 0 <= j < |probes| ==> Probes(probes[j], candidates[j]))
    && (r.Success? ==> |probes| > 0 && r.value == candidates[|probes| - 1] && !Vetoes(probes[|probes| - 1])
                       && forall j :: 0 <= j < |probes| - 1 ==> Vetoes(probes[j]))
    && (r == Failure(EnrollFailed(SlotLimit)) ==>
          |probes| == |candidates| && forall j :: 0 <= j < |probes| ==> Vetoes(probes[j]))
  }

  lemma PicksLater(first: byte, rest: seq<byte>, e: Exchange, probes: seq<Exchange>, r: Result<byte, WorkerError>)
    requires PicksFirst(rest, probes, r) && Probes(e, first) && Vetoes(e)
    ensures PicksFirst([first] + rest, [e] + probes, r)
  {
  }

  lemma {:induction false} PickSlotPicks(w: W, candidates: seq<byte>)
    ensures
      var (w', r) := PickSlot(w, candidates);
      && w.wire <= w'.wire && w'.file == w.file
      && PicksFirst(candidates, w'.wire[|w.wire|..], r)
      && r != Failure(EnrollFailed(UnexpectedReply))
    decreases candidates
  {
    hide Round, Encode, PicksFirst;
    var (w', r') := PickSlot(w, candidates);
    if candidates == [] {
      assert w'.wire[|w.wire|..] == [];
      PicksNothing(candidates, r');
      return;
    }
    var c := FingerInfo(candidates[0]);
    RoundOnCue(w, Encode(c), c);
    var (w1, r) := Round(w, Encode(c), StatusIn, ExpectedLen(c));
    RoundNeverSlotLimit(w, Encode(c), StatusIn, ExpectedLen(c));
    if w1.wire == w.wire {
      assert w'.wire[|w.wire|..] == [];
      PicksNothing(candidates, r');
      return;
    }
    var e := Exchange(w.usb.value, Encode(c), StatusIn, 70, NextOutcome(w));
    assert w1.wire[|w.wire|..] == [e];
    if r.Success? && Vetoes(e) {
      PickSlotPicks(w1, candidates[1..]);
      assert w'.wire[|w.wire|..] == [e] + w'.wire[|w1.wire|..];
      assert candidates == [candidates[0]] + candidates[1..];
      PicksLater(candidates[0], candidates[1..], e, w'.wire[|w1.wire|..], r');
    } else {
      PicksHere(candidates, e, r');
    }
  }

  lemma PicksNothing(candidates: seq<byte>, r: Result<byte, WorkerError>)
    requires r.Failure? && (r.error == EnrollFailed(SlotLimit) ==> candidates == [])
    ensures PicksFirst(candidates, [], r)
  {
  }

  lemma PicksHere(candidates: seq<byte>, e: Exchange, r: Result<byte, WorkerError>)
    requires candidates != [] && Probes(e, candidates[0])
    requires (r == Success(candidates[0]) && !Vetoes(e)) || (r.Failure? && r.error != EnrollFailed(SlotLimit))
    ensures PicksFirst(candidates, [e], r)
  {
  }

  lemma RoundNeverSlotLimit(w: W, out: seq<byte>, ep: Endpoint, len: nat)
    ensures Round(w, out, ep, len).1 != Failure(EnrollFailed(SlotLimit))
  {
  }

  /** An answered enrolled_num that counts n templates. */
  ghost predicate Counts(e: Exchange, n: byte) {
    e.out == Encode(EnrolledNum) && e.outcome.Reply? && |e.outcome.data| == 2 && e.outcome.data[1] == n
  }

  /**
   * The slot is the least one at or above the device count that no user is mapped to and no occupied
   * record vetoes: every smaller untracked slot from the count up was probed and vetoed.
   */
  lemma FreeSlotIsLeast(w: W)
    ensures
      var (w', r) := FreeSlot(w);
      && w.wire <= w'.wire && w'.file == w.file
      && r != Failure(EnrollFailed(UnexpectedReply))
      && (r.Success? ==>
            var es := w'.wire[|w.wire|..];
            |es| >= 2 && es[0].outcome.Reply? && |es[0].outcome.data| == 2
            && var n := es[0].outcome.data[1];
               && Counts(es[0], n)
               && n <= r.value <= MAX_SLOT && r.value !in Tracked(w.file)
               && Probes(es[|es| - 1], r.value) && !Vetoes(es[|es| - 1])
               && forall s: byte :: n <= s < r.value && s !in Tracked(w.file) ==>
                    exists j :: 1 <= j < |es| - 1 && Probes(es[j], s) && Vetoes(es[j]))
  {
    hide PickSlot, Encode, Probes, Vetoes, PicksFirst, TrackedSlots, WritableSlots;
    var (w1, count) := SendArm(w);
    if count.Success? && HostSays(w1) {
      var w2 := HostDone(w1.(armed := true));
      var candidates := WritableSlots(count.value, TrackedSlots(w2.file));
      PickSlotPicks(w2, candidates);
      var (w', r) := PickSlot(w2, candidates);
      if r.Success? {
        var es, probes := w'.wire[|w.wire|..], w'.wire[|w2.wire|..];
        LeastOfCandidates(count.value, w2.file, probes, r.value);
        assert es == [w1.wire[|w.wire|]] + probes;
        forall s: byte | count.value <= s < r.value && s !in Tracked(w.file)
          ensures exists j :: 1 <= j < |es| - 1 && Probes(es[j], s) && Vetoes(es[j])
        {
          var k :| 0 <= k < |probes| - 1 && Probes(probes[k], s) && Vetoes(probes[k]);
          assert es[k + 1] == probes[k];
        }
      }
    }
  }

  lemma LeastOfCandidates(n: byte, p: Prints, probes: seq<Exchange>, picked: byte)
    requires PicksFirst(WritableSlots(n, TrackedSlots(p)), probes, Success(picked))
    ensures n <= picked <= MAX_SLOT && picked !in Tracked(p)
    ensures |probes| > 0 && Probes(probes[|probes| - 1], picked) && !Vetoes(probes[|probes| - 1])
    ensures forall s: byte :: n <= s < picked && s !in Tracked(p) ==>
              exists k :: 0 <= k < |probes| - 1 && Probes(probes[k], s) && Vetoes(probes[k])
  {
    hide Probes, Vetoes, Tracked, PicksFirst, TrackedSlots, WritableSlots;
    var candidates := WritableSlots(n, TrackedSlots(p));
    PickedIsLast(candidates, probes, picked);
    assert picked in candidates;
    forall s: byte | n <= s < picked && s !in Tracked(p)
      ensures exists k :: 0 <= k < |probes| - 1 && Probes(probes[k], s) && Vetoes(probes[k])
    {
      assert s !in TrackedSlots(p);
      assert s in candidates;
      SmallerWasVetoed(candidates, probes, picked, s);
    }
  }

  lemma PickedIsLast(candidates: seq<byte>, probes: seq<Exchange>, picked: byte)
    requires PicksFirst(candidates, probes, Success(picked))
    ensures 0 < |probes| <= |candidates| && picked == candidates[|probes| - 1]
    ensures Probes(probes[|probes| - 1], picked) && !Vetoes(probes[|probes| - 1])
  {
  }

  lemma SmallerWasVetoed(candidates: seq<byte>, probes: seq<Exchange>, picked: byte, s: byte)
    requires PicksFirst(candidates, probes, Success(picked)) && StrictlyAscending(candidates)
    requires s in candidates && s < picked
    ensures exists k :: 0 <= k < |probes| - 1 && Probes(probes[k], s) && Vetoes(probes[k])
  {
  }

  // ---------- the whole enrolment ----------

  /** The enrolment passes its checks and gets a slot. */
  ghost predicate ReachesDialogue(w: W, finger: string) {
    && w.claimed.Some? && IsValidFinger(finger) && HostSays(w) && !IsMapped(w.file, w.claimed.value, finger)
    && FreeSlot(HostDone(w)).1.Success?
  }

  /** An enrolment is its dialogue, or fails in silence before one. */
  lemma EnrollInnerCases(w: W, finger: string, stages: Stages, s: Sink)
    ensures
      var t := EnrollInner(w, finger, stages, s);
      if ReachesDialogue(w, finger) then
        var (w2, slot) := FreeSlot(HostDone(w));
        var (sm, action) := Start(WithTotal(slot.value, stages));
        t == EnrollLoop(w2, sm, action.out, w.claimed.value, finger, s)
      else
        t.1 == s && t.2.Failure? && (t.0.wire == w.wire || t.0.wire == FreeSlot(HostDone(w)).0.wire)
  {
    hide FreeSlot, EnrollLoop, Encode, IsValidFinger, HostSays;
  }

  lemma DialogueConcludes(w: W, finger: string, stages: Stages, s: Sink)
    requires ReachesDialogue(w, finger)
    ensures
      var (w2, slot) := FreeSlot(HostDone(w));
      && w.wire <= w2.wire && w2.file == w.file
      && LoopConcludes(w2.wire, w2, w.claimed.value, finger, slot.value, stages, EnrollInner(w, finger, stages, s))
  {
    hide FreeSlot, EnrollLoop, LoopConcludes, Encode;
    FreeSlotIsLeast(HostDone(w));
    var (w2, slot) := FreeSlot(HostDone(w));
    var (sm, action) := Start(WithTotal(slot.value, stages));
    assert Heard([]) == [];
    EnrollLoopConcludes(w2.wire, w2, sm, action.out, w.claimed.value, finger, s, slot.value, stages, []);
  }

  /** The store turning an insert down. */
  predicate IsRefusal<T>(r: Result<T, WorkerError>) {
    r.Failure? && r.error.StoreFailed? && !r.error.store.Io?
  }

  lemma NoDialogue(w: W, finger: string, stages: Stages, s: Sink)
    requires !ReachesDialogue(w, finger)
    ensures
      var (w', s', r) := EnrollInner(w, finger, stages, s);
      s' == s && r.Failure? && w'.file == w.file && r != Failure(EnrollFailed(UnexpectedReply))
      && !IsRefusal(r)
  {
    hide SendArm, PickSlot, WritableSlots, TrackedSlots;
    FreeSlotIsLeast(HostDone(w));
    FreeSlotNeverRefused(HostDone(w));
  }

  lemma FreeSlotNeverRefused(w: W)
    ensures !IsRefusal(FreeSlot(w).1)
  {
    hide WritableSlots, TrackedSlots;
    var (w1, count) := SendArm(w);
    if count.Success? && HostSays(w1) {
      var w2 := HostDone(w1.(armed := true));
      PickSlotNeverRefused(w2, WritableSlots(count.value, TrackedSlots(w2.file)));
    }
  }

  lemma {:induction false} PickSlotNeverRefused(w: W, candidates: seq<byte>)
    ensures !(PickSlot(w, candidates).1.Failure? && PickSlot(w, candidates).1.error.StoreFailed?)
    decreases candidates
  {
    if candidates != [] {
      var c := FingerInfo(candidates[0]);
      PickSlotNeverRefused(Round(w, Encode(c), StatusIn, ExpectedLen(c)).0, candidates[1..]);
    }
  }

  lemma UntrackedIsNotTaken(p: Prints, user: string, finger: string, slot: byte)
    requires slot !in Tracked(p)
    ensures !IsTaken(p, user, finger, slot)
  {
  }

  /**
   * An enrolment either leaves the store alone or adds exactly its one entry, in an untracked slot;
   * the store never refuses a committed template, and no driver error branch is ever taken.
   */
  lemma EnrollRecordsOneEntry(w: W, finger: string, stages: Stages)
    ensures
      var (w', s, r) := Enrolling(w, finger, stages);
      && (r.Failure? ==> w'.file == w.file)
      && !IsRefusal(r)
      && r != Failure(EnrollFailed(UnexpectedReply))
      && (r.Success? ==> ReachesDialogue(w, finger)
                         && var slot := FreeSlot(HostDone(w)).1.value;
                            && slot <= MAX_SLOT && slot !in Tracked(w.file)
                            && w'.file == Inserted(w.file, w.claimed.value, finger, slot))
      && (Wellkept(w.file) ==> Wellkept(w'.file))
  {
    hide EnrollInner, FreeSlot, Language, FollowsMachine, Wellkept, Tracked, Inserted;
    var s0 := Sink(EnrollOp, false, []);
    if ReachesDialogue(w, finger) {
      DialogueConcludes(w, finger, stages, s0);
      FreeSlotIsLeast(HostDone(w));
      var slot := FreeSlot(HostDone(w)).1.value;
      UntrackedIsNotTaken(w.file, w.claimed.value, finger, slot);
      if Wellkept(w.file) {
        InsertKeeps(w.file, w.claimed.value, finger, slot);
      }
    } else {
      NoDialogue(w, finger, stages, s0);
    }
  }

  lemma CueAt(es: seq<Exchange>, slot: byte, n: byte, k: nat)
    requires FollowsMachine(es, slot, n) && k < |es|
    ensures OnCue(es[k], Feed(slot, n, Heard(es[..k])))
  {
    hide OnCue, Feed, Heard;
  }

  lemma CueIsPending(e: Exchange, m: Machine)
    requires OnCue(e, m)
    ensures m.pending.Some?
  {
  }

  lemma CueIsCommit(e: Exchange, m: Machine)
    requires OnCue(e, m) && IsCommit(e.out)
    ensures m.pending == Some(CommitWrite) && e.out == Encode(CommitFor(SubId(m.slot)))
  {
    EncodeRoundTrip(CommandOf(m, m.pending.value));
  }

  /** In a dialogue a commit is the last word, spoken behind the gate, for the chosen slot. */
  lemma CommitIsGatedAndLast(es: seq<Exchange>, slot: byte, n: byte, k: nat)
    requires n >= 1 && FollowsMachine(es, slot, n) && k < |es| && IsCommit(es[k].out)
    ensures k == |es| - 1 && GateOpen(Heard(es[..k]), n) && es[k].out == Encode(CommitFor(SubId(slot)))
  {
    hide Feed, Step, Encode, FollowsMachine, OnCue, Heard, GateOpen;
    var m := Feed(slot, n, Heard(es[..k]));
    CueAt(es, slot, n, k);
    CueIsCommit(es[k], m);
    Recognises(slot, n, Heard(es[..k]));
    if k + 1 < |es| {
      HeardGrows(es[..k], es[k], slot, n);
      assert es[..k] + [es[k]] == es[..k + 1];
      StepMoves(m, DataOf(es[k].outcome));
      CueAt(es, slot, n, k + 1);
      CueIsPending(es[k + 1], Feed(slot, n, Heard(es[..k + 1])));
    }
  }

  /** Every sample names the chosen slot and the number of samples accepted before it. */
  lemma SamplesNameTheSlot(es: seq<Exchange>, slot: byte, n: byte, k: nat)
    requires n >= 1 && FollowsMachine(es, slot, n) && k < |es| && Opcode(es[k].out) == Some(0x01)
    ensures es[k].ep == TouchWait && Accepted(Heard(es[..k])) < n
    ensures es[k].out == Encode(Command.Enroll(slot, n, Accepted(Heard(es[..k]))))
  {
    var m := Feed(slot, n, Heard(es[..k]));
    assert OnCue(es[k], m);
    Recognises(slot, n, Heard(es[..k]));
  }

  /**
   * Driver and machine agree over the whole enrolment: after the count and the probes, every exchange
   * is the pending command of a machine for the slot they chose, on its endpoint and length, up to the
   * closing abort.
   */
  lemma EnrollFollowsMachine(w: W, finger: string, stages: Stages) returns (from: nat, to: nat, slot: byte)
    requires ArmingHolds(w)
    ensures
      var w' := Enrolling(w, finger, stages).0;
      && |w.wire| <= from <= to <= |w'.wire|
      && Grew(w.wire, w'.wire[..from], {Some(0x04), Some(0x12)})
      && FollowsMachine(w'.wire[from..to], slot, stages)
      && Grew(w'.wire[..to], w'.wire, ABORT_OPS)
      && (if ReachesDialogue(w, finger) then
            slot == FreeSlot(HostDone(w)).1.value && w'.wire[..from] == FreeSlot(HostDone(w)).0.wire
          else from == to)
  {
    hide EnrollInner, FreeSlot, Grew, ArmingHoldsFor, FollowsMachine, Feed, Encode;
    var s0 := Sink(EnrollOp, false, []);
    var (w1, s, r) := EnrollInner(w, finger, stages, s0);
    var w' := Enrolling(w, finger, stages).0;
    EnrollInnerKeeps(w, finger, stages, s0);
    PrefixOfGrown(w.wire, w1.wire, ENROLL_OPS);
    AbortKeeps(w1);
    GrewNot(w1.wire, ABORT_OPS);
    to := |w1.wire|;
    PrefixOfGrown(w1.wire, w'.wire, ABORT_OPS);
    if ReachesDialogue(w, finger) {
      DialogueConcludes(w, finger, stages, s0);
      var (w2, picked) := FreeSlot(HostDone(w));
      PreludeOps(HostDone(w));
      from, slot := |w2.wire|, picked.value;
      assert w'.wire[..from] == w2.wire;
      assert w'.wire[from..to] == w1.wire[from..];
    } else {
      from, slot := to, 0;
      NoDialogueOps(w, finger, stages, s0);
      FollowsNothing(w'.wire[from..to], slot, stages);
    }
  }

  lemma FollowsNothing(es: seq<Exchange>, slot: byte, n: byte)
    requires es == []
    ensures FollowsMachine(es, slot, n)
  {
  }

  lemma PrefixOfGrown(a: seq<Exchange>, b: seq<Exchange>, ops: set<Option<byte>>)
    requires Grew(a, b, ops)
    ensures |a| <= |b| && b[..|a|] == a
  {
  }

  lemma PreludeOps(w: W)
    requires ArmingHolds(w)
    ensures Sent(w, FreeSlot(w).0, {Some(0x04), Some(0x12)})
  {
    hide ArmingHoldsFor, Grew, WritableSlots, TrackedSlots, PickSlot;
    var both: set<Option<byte>> := {Some(0x04), Some(0x12)};
    SendArmKeeps(w);
    var (w1, count) := SendArm(w);
    GrewMore(w.wire, w1.wire, ARM_OPS, both);
    if count.Success? && HostSays(w1) {
      var w2 := HostDone(w1.(armed := true));
      var candidates := WritableSlots(count.value, TrackedSlots(w2.file));
      PickSlotKeeps(w2, candidates);
      GrewMore(w2.wire, PickSlot(w2, candidates).0.wire, {Some(0x12)}, both);
      GrewTrans(w.wire, w2.wire, PickSlot(w2, candidates).0.wire, both, both);
    }
  }

  lemma NoDialogueOps(w: W, finger: string, stages: Stages, s: Sink)
    requires ArmingHolds(w) && !ReachesDialogue(w, finger)
    ensures Sent(w, EnrollInner(w, finger, stages, s).0, {Some(0x04), Some(0x12)})
  {
    hide ArmingHoldsFor, Grew, FreeSlot;
    GrewNot(w.wire, {Some(0x04), Some(0x12)});
    PreludeOps(HostDone(w));
  }
}
