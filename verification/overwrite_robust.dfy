/**
 * Exactly when no enrolment overwrites a live template although commits may go unanswered, or their
 * entries unsaved: only where the chip leaves next to no room to enrol.
 */
module OverwriteRobustly {
  import opened Core
  import opened Proto
  import opened Store
  import opened WorkerSpec
  import opened Arming
  import opened EraseAccounting
  import opened EnrollMachine
  import opened EnrollTrace
  import opened NoOverwrite
  import opened ScriptedRuns
  import opened OverwriteExactly

  /** No slot an enrolment could ever be given lies above the number of pinned slots. */
  ghost predicate NoRoomAbove(p: Prints, pinned: set<byte>) {
    forall s: byte :: s <= MAX_SLOT && s !in Unerasable(p) ==> s as int <= |pinned|
  }

  // ---------- without room no commit overwrites ----------

  /** Nothing was overwritten, the floor clears every orphan, and there is no room above it. */
  ghost predicate Guarded(start: set<byte>, w: W, landed: nat -> bool) {
    var held := Occupied(start, w.wire, landed);
    && NeverOverwrites(start, w.wire, landed)
    && FloorClears(Orphans(held, w.file), Pinned(held, w.file)) && NoRoomAbove(w.file, Pinned(held, w.file))
  }

  lemma FloorRises(orphans: set<byte>, pinned: set<byte>, slot: byte)
    requires FloorClears(orphans, pinned) && slot !in pinned && slot as int <= |pinned|
    ensures FloorClears(orphans + {slot}, pinned + {slot}) && |pinned + {slot}| == |pinned| + 1
  {
  }

  lemma UnrecordedSets(p: Prints, held: set<byte>, slot: byte)
    requires slot !in Tracked(p)
    ensures slot !in Unerasable(p)
    ensures Orphans(held + {slot}, p) == Orphans(held, p) + {slot}
    ensures Pinned(held + {slot}, p) == Pinned(held, p) + {slot}
  {
    hide Tracked, Erasable, Unerasable;
    TrackedSplits(p);
  }

  /** A template nobody recorded: its slot is pinned at once, and with it the floor rises above the slot. */
  lemma UnrecordedIsCleared(p: Prints, held: set<byte>, slot: byte)
    requires FloorClears(Orphans(held, p), Pinned(held, p)) && NoRoomAbove(p, Pinned(held, p))
    requires slot <= MAX_SLOT && slot !in Tracked(p) && slot !in held
    ensures
      var now := held + {slot};
      FloorClears(Orphans(now, p), Pinned(now, p)) && NoRoomAbove(p, Pinned(now, p))
  {
    hide Tracked, Erasable, Unerasable, FloorClears, Orphans;
    assert slot !in Pinned(held, p);
    hide Pinned;
    UnrecordedSets(p, held, slot);
    FloorRises(Orphans(held, p), Pinned(held, p), slot);
  }

  lemma RecordedKeepsGuard(p: Prints, held: set<byte>, user: string, finger: string, slot: byte)
    requires FloorClears(Orphans(held, p), Pinned(held, p)) && NoRoomAbove(p, Pinned(held, p))
    requires IsValidFinger(finger) && !IsMapped(p, user, finger) && slot !in held
    ensures
      var now, q := held + {slot}, Inserted(p, user, finger, slot);
      FloorClears(Orphans(now, q), Pinned(now, q)) && NoRoomAbove(q, Pinned(now, q))
  {
    hide IsValidFinger, Inserted, Tracked, Erasable, Unerasable;
    var now, q := held + {slot}, Inserted(p, user, finger, slot);
    TrackedInserted(p, user, finger, slot);
    ErasableInserted(p, user, finger, slot);
    UnerasableInserted(p, user, finger, slot);
    assert Orphans(now, q) == Orphans(held, p);
    assert Pinned(now, q) == Pinned(held, p);
  }

  /** The dialogue's one write, whether or not it was answered. */
  lemma DialogueWrites(start: set<byte>, held: set<byte>, b: seq<Exchange>, es: seq<Exchange>, slot: byte, n: byte,
                       landed: nat -> bool)
    requires n >= 1 && FollowsMachine(es, slot, n)
    requires Occupied(start, b, landed) == held && slot !in held && NeverOverwrites(start, b, landed)
    ensures NeverOverwrites(start, b + es, landed)
    ensures Occupied(start, b + es, landed) in {held, held + {slot}}
    ensures Language(Heard(es), n) ==> Occupied(start, b + es, landed) == held + {slot}
  {
    hide FollowsMachine, Feed, Heard, Encode, Occupied, NeverOverwrites, Language, Grew, Acked;
    LanguageIsAckedCommit(es, slot, n);
    if es == [] {
      assert b + es == b;
    } else {
      var init, e := es[..|es| - 1], es[|es| - 1];
      DialogueInit(es, b, slot, n);
      NoWriteNoChange(start, b, b + init, {Some(0x01), Some(0x10)}, landed);
      FollowsPrefix(es, slot, n);
      DialogueStages(start, b, init, slot, n, landed);
      assert b + es == (b + init) + [e];
      OccupiedMore(start, b + init, e, landed);
      NeverOverwritesMore(start, b + init, e, landed);
    }
  }

  lemma DialogueKeepsGuard(start: set<byte>, w: W, finger: string, stages: Stages, landed: nat -> bool,
                           all: seq<Exchange>)
    requires ArmingHolds(w) && Guarded(start, w, landed) && ReachesDialogue(w, finger)
    requires
      var w1 := EnrollInner(w, finger, stages, Sink(EnrollOp, false, [])).0;
      w1.wire <= all && CountsHonestly(start, all, landed)
    ensures Guarded(start, EnrollInner(w, finger, stages, Sink(EnrollOp, false, [])).0, landed)
  {
    hide FreeSlot, EnrollInner, Grew, ArmingHoldsFor, Occupied, NeverOverwrites, CountsHonestly, FollowsMachine,
         Tracked, Erasable, Unerasable, FloorClears, NoRoomAbove, Language, Inserted, Feed, Heard, Encode, InsertFault,
         IsValidFinger, Orphans, Pinned;
    var s0 := Sink(EnrollOp, false, []);
    var w1 := EnrollInner(w, finger, stages, s0).0;
    DialogueConcludes(w, finger, stages, s0);
    var (w2, picked) := FreeSlot(HostDone(w));
    var slot, held := picked.value, Occupied(start, w.wire, landed);
    var es := w1.wire[|w2.wire|..];
    assert w1.wire == w2.wire + es;
    FreeSlotIsSafe(start, HostDone(w), all, landed, Orphans(held, w.file), Pinned(held, w.file));
    SlotIsUntracked(HostDone(w));
    DialogueWrites(start, held, w2.wire, es, slot, stages, landed);
    if w1.file != w.file {
      RecordedKeepsGuard(w.file, held, w.claimed.value, finger, slot);
    } else if Occupied(start, w1.wire, landed) != held {
      UnrecordedIsCleared(w.file, held, slot);
    }
  }

  lemma SlotIsUntracked(w: W)
    requires FreeSlot(w).1.Success?
    ensures FreeSlot(w).1.value <= MAX_SLOT && FreeSlot(w).1.value !in Tracked(w.file)
  {
    hide FreeSlot, Tracked, Probes, Vetoes, Counts;
    FreeSlotIsLeast(w);
  }

  lemma EnrollKeepsGuard(start: set<byte>, w: W, finger: string, stages: Stages, landed: nat -> bool)
    requires ArmingHolds(w) && Guarded(start, w, landed)
    requires CountsHonestly(start, Enrolling(w, finger, stages).0.wire, landed)
    ensures Guarded(start, Enrolling(w, finger, stages).0, landed)
  {
    hide FreeSlot, EnrollInner, Grew, ArmingHoldsFor, Occupied, NeverOverwrites, CountsHonestly, Tracked, Erasable,
         FloorClears, NoRoomAbove, Orphans, Pinned;
    var s0 := Sink(EnrollOp, false, []);
    var w1 := EnrollInner(w, finger, stages, s0).0;
    var w' := Enrolling(w, finger, stages).0;
    EnrollInnerKeeps(w, finger, stages, s0);
    AbortKeeps(w1);
    GrewNot(w1.wire, ABORT_OPS);
    NoWriteNoChange(start, w1.wire, w'.wire, ABORT_OPS, landed);
    PrefixOfGrown(w1.wire, w'.wire, ABORT_OPS);
    if ReachesDialogue(w, finger) {
      assert w1.wire <= w'.wire;
      DialogueKeepsGuard(start, w, finger, stages, landed, w'.wire);
    } else {
      NoDialogueOps(w, finger, stages, s0);
      NoWriteNoChange(start, w.wire, w1.wire, {Some(0x04), Some(0x12)}, landed);
      NoDialogue(w, finger, stages, s0);
    }
  }

  lemma DeleteKeepsGuard(start: set<byte>, w: W, user: string, finger: string, landed: nat -> bool)
    requires Guarded(start, w, landed)
    ensures Guarded(start, DeleteFinger(w, user, finger).0, landed)
  {
    hide Occupied, NeverOverwrites, Removed, Tracked, Erasable, Unerasable, DeleteFinger, IsValidFinger, FloorClears,
         Orphans, Pinned;
    DeleteKeepsOrphans(start, w, user, finger, landed);
    DeleteShape(w, user, finger);
    if IsValidFinger(finger) {
      UnerasableRemoved(w.file, user, finger);
    }
  }

  lemma CallKeepsGuard(start: set<byte>, w: W, call: Call, stages: Stages, landed: nat -> bool)
    requires ArmingHolds(w) && Guarded(start, w, landed)
    requires CountsHonestly(start, After(w, call, stages).0.wire, landed)
    ensures Guarded(start, After(w, call, stages).0, landed)
  {
    hide Verifying, Enrolling, Claim, DeleteFinger, Grew, ArmingHoldsFor, Occupied, NeverOverwrites, CountsHonestly,
         FloorClears, NoRoomAbove, Orphans, Pinned;
    var w' := After(w, call, stages).0;
    match call {
      case DoClaim(user) => ClaimKeeps(w, user); NoWriteNoChange(start, w.wire, w'.wire, CLAIM_OPS, landed);
      case DoRelease => AbortKeeps(w); NoWriteNoChange(start, w.wire, w'.wire, ABORT_OPS, landed);
      case DoSuspend => AbortKeeps(w); NoWriteNoChange(start, w.wire, w'.wire, ABORT_OPS, landed);
      case DoResume =>
      case DoVerify(finger) => VerifyingKeeps(w, finger); NoWriteNoChange(start, w.wire, w'.wire, VERIFY_OPS, landed);
      case DoEnroll(finger) => EnrollKeepsGuard(start, w, finger, stages, landed);
      case DoDelete(user, finger) => DeleteKeepsGuard(start, w, user, finger, landed);
    }
  }

  /** Whatever becomes of commits and saves, an honest count alone keeps a chip without room from overwriting. */
  lemma {:induction false} NoRoomNoOverwrite(start: set<byte>, file: Prints, steps: seq<Step1>, stages: Stages,
                                             landed: nat -> bool)
    requires FloorClears(Orphans(start, file), Pinned(start, file)) && NoRoomAbove(file, Pinned(start, file))
    requires CountsHonestly(start, Run(Fresh(file), steps, stages).wire, landed)
    ensures Guarded(start, Run(Fresh(file), steps, stages), landed)
  {
    hide After, CountsHonestly, Grew, ArmingHoldsFor, Occupied, NeverOverwrites, FloorClears, NoRoomAbove, Orphans,
         Pinned;
    if steps == [] {
      assert Fresh(file).wire == [];
      NothingWritten(start, landed);
    } else {
      var before, last := steps[..|steps| - 1], steps[|steps| - 1];
      var w := Run(Fresh(file), before, stages).(script := last.script, host := last.host);
      ArmedOverEveryRun(file, before, stages);
      CallKeepsArming(w, last.call, stages);
      HonestPrefix(start, w.wire, After(w, last.call, stages).0.wire, landed);
      NoRoomNoOverwrite(start, file, before, stages, landed);
      CallKeepsGuard(start, w, last.call, stages, landed);
    }
  }

  // ---------- with room a commit gone wrong is overwritten ----------

  lemma TrackedSplits(p: Prints)
    ensures Tracked(p) == Erasable(p) + Unerasable(p)
  {
    hide IsValidFinger;
    forall s
      ensures s in Tracked(p) <==> s in Erasable(p) || s in Unerasable(p)
    {
      if s in Tracked(p) {
        var u, f :| u in p && f in p[u] && p[u][f] == s;
        assert IsValidFinger(f) ==> s in Erasable(p);
        assert !IsValidFinger(f) ==> s in Unerasable(p);
      }
    }
  }

  /** Recording the slot at the floor raises the count, and leaves orphans and pinned slots alone. */
  lemma FloorIsFilled(p: Prints, held: set<byte>, user: string, slot: byte)
    requires Erasable(p) == {} && FloorClears(Orphans(held, p), held) && !IsMapped(p, user, "left-thumb")
    requires slot as int == |held| && slot <= MAX_SLOT && slot !in Tracked(p)
    ensures
      var now, q := held + {slot}, Inserted(p, user, "left-thumb", slot);
      && Pinned(now, q) == held && Orphans(now, q) == Orphans(held, p) && |now| == |held| + 1
      && Tracked(q) == Tracked(p) + {slot}
  {
    hide Tracked, Erasable, Inserted;
    assert slot in held ==> slot in Orphans(held, p);
    assert IsValidFinger(FINGER_NAMES[0]);
    TrackedInserted(p, user, "left-thumb", slot);
    ErasableInserted(p, user, "left-thumb", slot);
  }

  /** With nothing erasable, the slot at the floor is filled if it is free, so that a commit must go above it. */
  lemma FillsTheFloor(start: set<byte>, file: Prints, steps: seq<Step1>, stages: Stages, landed: nat -> bool, s: byte)
    returns (more: seq<Step1>)
    requires Underway(start, file, steps, stages, landed, true, None)
    requires
      var p, held := FileAfter(file, steps, stages), HeldAfter(start, file, steps, stages, landed);
      && Erasable(p) == {} && FloorClears(Orphans(held, p), held)
      && |held| < s as int <= MAX_SLOT as int && s !in Tracked(p)
    ensures Underway(start, file, more, stages, landed, true, None)
    ensures
      var p, held := FileAfter(file, steps, stages), HeldAfter(start, file, steps, stages, landed);
      var q, now := FileAfter(file, more, stages), HeldAfter(start, file, more, stages, landed);
      && Pinned(now, q) == held && FloorClears(Orphans(now, q), held)
      && |held| <= |now| <= s as int && s !in Tracked(q)
      && (forall c: byte :: |now| <= c as int <= MAX_SLOT as int && c !in Tracked(q) ==> |held| < c as int)
  {
    hide Underway, Run, FileAfter, HeldAfter, Tracked, Erasable, Inserted, NeverOverwrites, FloorClears, Orphans;
    var p, held := FileAfter(file, steps, stages), HeldAfter(start, file, steps, stages, landed);
    more := steps;
    var floor: byte := |held|;
    if floor !in Tracked(p) {
      var user, slot;
      more, user, slot := EnrolUnderway(start, file, steps, stages, landed, true, [Reply([0, 0])], []);
      assert slot == floor;
      FloorIsFilled(p, held, user, slot);
    }
  }

  /** A commit above the floor that nobody records is an orphan the floor does not clear. */
  lemma RoomIsLost(start: set<byte>, file: Prints, stages: Stages, landed: nat -> bool, last: seq<Outcome>,
                   host: seq<bool>)
    returns (steps: seq<Step1>)
    requires FloorClears(Orphans(start, file), Pinned(start, file)) && !NoRoomAbove(file, Pinned(start, file))
    requires (GoesUnanswered(last, host) && forall i :: landed(i)) || GoesUnsaved(last, host)
    ensures Underway(start, file, steps, stages, landed, GoesUnanswered(last, host), None)
    ensures !NeverOverwrites(start, Run(Fresh(file), steps, stages).wire, landed)
  {
    hide Underway, FileAfter, HeldAfter, Tracked, Erasable, Unerasable, Run, NeverOverwrites;
    OpensHandle(start, file, stages, landed);
    var cleared := DeletesAll(start, file, [Step1(DoClaim("u"), [Silence, Silence], [])], stages, landed, true);
    var pinned := Pinned(start, file);
    var s: byte :| s <= MAX_SLOT && s !in Unerasable(file) && s as int > |pinned|;
    TrackedSplits(FileAfter(file, cleared, stages));
    var filled := FillsTheFloor(start, file, cleared, stages, landed, s);
    var saved := GoesUnanswered(last, host);
    var p, held := FileAfter(file, filled, stages), HeldAfter(start, file, filled, stages, landed);
    var wrong, _, slot := EnrolUnderway(start, file, filled, stages, landed, true, last, host);
    LostIsUncleared(p, held, pinned, slot);
    var erased := DeletesAll(start, file, wrong, stages, landed, saved);
    steps := ReachesTheOrphan(start, file, erased, stages, landed, saved, slot);
  }

  lemma LostIsUncleared(p: Prints, held: set<byte>, pinned: set<byte>, slot: byte)
    requires Pinned(held, p) == pinned && FloorClears(Orphans(held, p), pinned)
    requires |pinned| < slot as int <= MAX_SLOT as int && slot !in Tracked(p)
    ensures slot in Orphans(held + {slot}, p) && |Pinned(held + {slot}, p)| <= slot as int
  {
    hide Tracked, Erasable, Unerasable;
    TrackedSplits(p);
    assert Pinned(held + {slot}, p) == pinned + {slot};
  }

  // ---------- exactly when the assumptions can be dropped ----------

  ghost predicate Roomless(start: set<byte>, file: Prints) {
    FloorClears(Orphans(start, file), Pinned(start, file)) && NoRoomAbove(file, Pinned(start, file))
  }

  /**
   * Exactly when no commit overwrites a live template, first under an honest count and nothing else, then
   * when commits may land unanswered but acknowledged ones are saved, then when entries may go unsaved
   * but no commit lands unanswered. A reader that shows records truthfully does no better.
   */
  lemma SafeWhateverIsLostExactlyWhen(start: set<byte>, file: Prints, stages: Stages)
    ensures (forall steps, landed :: CountsHonestly(start, Run(Fresh(file), steps, stages).wire, landed) ==>
               NeverOverwrites(start, Run(Fresh(file), steps, stages).wire, landed))
       <==> Roomless(start, file)
    ensures (forall steps, landed ::
               AnswersTruly(start, Run(Fresh(file), steps, stages).wire, landed)
               && SavesFollowCommits(Fresh(file), steps, stages) ==>
                 NeverOverwrites(start, Run(Fresh(file), steps, stages).wire, landed))
       <==> Roomless(start, file)
    ensures (forall steps, landed ::
               AnswersTruly(start, Run(Fresh(file), steps, stages).wire, landed)
               && NoSilentCommit(Run(Fresh(file), steps, stages).wire, landed) ==>
                 NeverOverwrites(start, Run(Fresh(file), steps, stages).wire, landed))
       <==> Roomless(start, file)
  {
    hide CountsHonestly, RecordsTruthfully, NoSilentCommit, SavesFollowCommits, NeverOverwrites, Run, Occupied,
         FloorClears, NoRoomAbove, Orphans, Pinned;
    if Roomless(start, file) {
      forall steps, landed | CountsHonestly(start, Run(Fresh(file), steps, stages).wire, landed)
        ensures NeverOverwrites(start, Run(Fresh(file), steps, stages).wire, landed)
      {
        NoRoomNoOverwrite(start, file, steps, stages, landed);
      }
    } else if !FloorClears(Orphans(start, file), Pinned(start, file)) {
      var silent := UnclearedIsOverwritten(start, file, stages, Everything());
      var unsaved := UnclearedIsOverwritten(start, file, stages, Nothing());
      NothingIsSilent(Run(Fresh(file), unsaved, stages).wire);
    } else {
      var silent := RoomIsLost(start, file, stages, Everything(), [], []);
      var unsaved := RoomIsLost(start, file, stages, Nothing(), [Reply([0, 0])], [true, true, true, false]);
      NothingIsSilent(Run(Fresh(file), unsaved, stages).wire);
    }
  }

  /** On a file of named fingers and a chip of sixteen slots: when orphans fill all of them, or all but the last. */
  lemma RoomlessOnlyWhenFull(start: set<byte>, file: Prints)
    requires NamesValid(file) && forall s :: s in start ==> s <= MAX_SLOT
    ensures Roomless(start, file) <==> Orphans(start, file) == Below(15) || Orphans(start, file) == Below(16)
  {
    hide Tracked, Erasable, Unerasable, FloorClears, NamesValid, NoRoomAbove, Below;
    OrphansAreOccupied(start, file);
    hide Orphans, Pinned;
    var orphans := Orphans(start, file);
    AllErasable(start, file);
    SegmentsClear(orphans);
    NoneUnerasable(file);
    RoomAboveAll(file, orphans);
    assert |Below(15)| == 15 && |Below(16)| == 16;
  }

  lemma RoomAboveAll(p: Prints, pinned: set<byte>)
    requires Unerasable(p) == {}
    ensures NoRoomAbove(p, pinned) <==> |pinned| >= 15
  {
    hide Unerasable;
    assert MAX_SLOT !in Unerasable(p);
  }

  lemma OrphansAreOccupied(start: set<byte>, file: Prints)
    requires forall s :: s in start ==> s <= MAX_SLOT
    ensures forall o :: o in Orphans(start, file) ==> o <= MAX_SLOT
  {
  }

  lemma NoneUnerasable(p: Prints)
    requires NamesValid(p)
    ensures Unerasable(p) == {}
  {
    hide IsValidFinger;
    assert forall u, f :: u in p && f in p[u] ==> IsMapped(p, u, f);
  }
}
