/**
 * Exactly when no enrolment overwrites a live template: the condition on chip and file that rules it out,
 * and the runs that do overwrite one where it fails.
 */
module OverwriteExactly {
  import opened Core
  import opened Proto
  import opened Store
  import opened WorkerSpec
  import opened Arming
  import opened EraseAccounting
  import opened EnrollTrace
  import opened NoOverwrite
  import opened ScriptedRuns

  /** An honest run in which no record was shown of an empty slot. */
  ghost predicate TrueRun(start: set<byte>, file: Prints, steps: seq<Step1>, stages: Stages, landed: nat -> bool) {
    && HonestRun(start, file, steps, stages, landed)
    && RecordsTruthfully(start, Run(Fresh(file), steps, stages).wire, landed)
  }

  /** An orphan the floor does not clear is overwritten once everything else is deleted. */
  lemma UnclearedIsOverwritten(start: set<byte>, file: Prints, stages: Stages, landed: nat -> bool)
    returns (steps: seq<Step1>)
    requires !FloorClears(Orphans(start, file), Pinned(start, file))
    ensures Underway(start, file, steps, stages, landed, true, None)
    ensures !NeverOverwrites(start, Run(Fresh(file), steps, stages).wire, landed)
  {
    hide Underway, NeverOverwrites, Run, FileAfter, HeldAfter, Tracked, Erasable, Unerasable;
    var o: byte :| o in Orphans(start, file) && o <= MAX_SLOT && o as int >= |Pinned(start, file)|;
    OpensHandle(start, file, stages, landed);
    var cleared := DeletesAll(start, file, [Step1(DoClaim("u"), [Silence, Silence], [])], stages, landed, true);
    steps := ReachesTheOrphan(start, file, cleared, stages, landed, true, o);
  }

  lemma UnderwayIsTrue(start: set<byte>, file: Prints, steps: seq<Step1>, stages: Stages)
    requires Underway(start, file, steps, stages, Nothing(), true, None)
    ensures TrueRun(start, file, steps, stages, Nothing())
  {
    hide CountsHonestly, NoSilentCommit, RecordsTruthfully, SavesFollowCommits, Run;
    NothingIsSilent(Run(Fresh(file), steps, stages).wire);
  }

  /**
   * Exactly when no honest run overwrites a live template: every orphan an enrolment could be given
   * lies below the number of slots that stay occupied whatever is deleted. Readers that show a record
   * of occupied slots alone do no better.
   */
  lemma NoOverwriteExactlyWhen(start: set<byte>, file: Prints, stages: Stages)
    ensures (forall steps, landed :: HonestRun(start, file, steps, stages, landed) ==>
               NeverOverwrites(start, Run(Fresh(file), steps, stages).wire, landed))
       <==> FloorClears(Orphans(start, file), Pinned(start, file))
    ensures (forall steps, landed :: TrueRun(start, file, steps, stages, landed) ==>
               NeverOverwrites(start, Run(Fresh(file), steps, stages).wire, landed))
       <==> FloorClears(Orphans(start, file), Pinned(start, file))
  {
    hide HonestRun, NeverOverwrites, Run, FloorClears, Orphans, Pinned, RecordsTruthfully, Underway;
    if FloorClears(Orphans(start, file), Pinned(start, file)) {
      forall steps, landed | HonestRun(start, file, steps, stages, landed)
        ensures NeverOverwrites(start, Run(Fresh(file), steps, stages).wire, landed)
      {
        NoEnrolmentOverwrites(start, file, steps, stages, landed);
      }
    } else {
      var steps := UnclearedIsOverwritten(start, file, stages, Nothing());
      UnderwayIsTrue(start, file, steps, stages);
      assert HonestRun(start, file, steps, stages, Nothing());
    }
  }

  lemma AllErasable(start: set<byte>, file: Prints)
    requires NamesValid(file)
    ensures Pinned(start, file) == Orphans(start, file)
  {
    hide IsValidFinger;
    forall s
      ensures s in Erasable(file) <==> s in Tracked(file)
    {
      if s in Tracked(file) {
        var u, f :| u in file && f in file[u] && file[u][f] == s;
        assert IsMapped(file, u, f);
      }
    }
  }

  lemma SegmentsClear(orphans: set<byte>)
    requires forall o :: o in orphans ==> o <= MAX_SLOT
    ensures |orphans| <= 16
    ensures FloorClears(orphans, orphans) <==> orphans == Below(|orphans|)
  {
    assert orphans <= Below(16);
    SubsetCardinality(orphans, Below(16));
    if FloorClears(orphans, orphans) {
      SubsetCardinality(orphans, Below(|orphans|));
    }
  }

  /**
   * Told of the orphans alone: when every entry has a finger name and the chip holds sixteen slots, no
   * honest run overwrites a live template exactly when the orphans are the slots below some number.
   */
  lemma NoOverwriteExactlyOnInitialSegments(start: set<byte>, file: Prints, stages: Stages)
    requires NamesValid(file) && forall s :: s in start ==> s <= MAX_SLOT
    ensures (forall steps, landed :: HonestRun(start, file, steps, stages, landed) ==>
               NeverOverwrites(start, Run(Fresh(file), steps, stages).wire, landed))
       <==> exists k: nat :: k <= 16 && Orphans(start, file) == Below(k)
  {
    hide HonestRun, NeverOverwrites, Run, FloorClears, Tracked, Erasable;
    NoOverwriteExactlyWhen(start, file, stages);
    AllErasable(start, file);
    SegmentsClear(Orphans(start, file));
  }

  // ---------- why commit, reply and save must stand or fall together ----------

  const ONE_THUMB: Prints := map["u" := map["left-thumb" := 0]]

  /**
   * A claim, an enrolment into slot 1 whose commit ends as `last` and `host` say, a delete of the thumb
   * in slot 0, and one more enrolment, which is given slot 1 again.
   */
  function FourCalls(stages: Stages, last: seq<Outcome>, host: seq<bool>): seq<Step1> {
    [Step1(DoClaim("u"), [Silence, Reply([0, 1])], []),
     Step1(DoEnroll("left-index-finger"), UpToCommit(1, stages, last), host),
     Step1(DoDelete("u", "left-thumb"), [Reply([0, 0])], []),
     Step1(DoEnroll("left-thumb"), UpToCommit(1, stages, []), [])]
  }

  /** How the second call's commit goes wrong. */
  predicate GoesWrong(last: seq<Outcome>, host: seq<bool>) {
    GoesUnanswered(last, host) || GoesUnsaved(last, host)
  }

  /** The worker after the first n of those calls. */
  ghost function AfterCalls(stages: Stages, last: seq<Outcome>, host: seq<bool>, n: nat): W
    requires n <= 4
  {
    Run(Fresh(ONE_THUMB), FourCalls(stages, last, host)[..n], stages)
  }

  lemma NextCall(stages: Stages, last: seq<Outcome>, host: seq<bool>, n: nat)
    requires n < 4
    ensures
      var calls, w := FourCalls(stages, last, host), AfterCalls(stages, last, host, n);
      var (w', r) := RunStep(w, calls[n], stages);
      && AfterCalls(stages, last, host, n + 1) == w'
      && (SavesFollowCommits(Fresh(ONE_THUMB), calls[..n + 1], stages) <==>
            SavesFollowCommits(Fresh(ONE_THUMB), calls[..n], stages)
            && (HasAckedCommit(w.wire, w'.wire) ==> r.Success?))
  {
    hide RunStep, SavesFollowCommits, HasAckedCommit, Run;
    var calls := FourCalls(stages, last, host);
    assert calls[..n + 1] == calls[..n] + [calls[n]];
    RunMore(Fresh(ONE_THUMB), calls[..n], calls[n], stages);
    SavesMore(Fresh(ONE_THUMB), calls[..n], calls[n], stages);
  }

  /** Claimed, one template in slot 0, one count read. */
  lemma AfterClaim(stages: Stages, last: seq<Outcome>, host: seq<bool>, landed: nat -> bool)
    ensures
      var w := AfterCalls(stages, last, host, 1);
      && w.file == ONE_THUMB && w.usb.Some? && w.claimed == Some("u") && Occupied({0}, w.wire, landed) == {0}
      && AnswersTruly({0}, w.wire, landed)
      && SavesFollowCommits(Fresh(ONE_THUMB), FourCalls(stages, last, host)[..1], stages)
  {
    hide Claim, AnswersTruly, Occupied, SavesFollowCommits, HasAckedCommit, UpToCommit, Run;
    NothingHappened({0}, ONE_THUMB, stages);
    NextCall(stages, last, host, 0);
    assert FourCalls(stages, last, host)[..0] == [];
    var w := Fresh(ONE_THUMB).(script := [Silence, Reply([0, 1])]);
    ClaimReads(w, "u", Reply([0, 1]));
    ClaimStaysTrue({0}, w, "u", Reply([0, 1]), landed);
  }

  lemma ThumbTracked()
    ensures Tracked(ONE_THUMB) == {0} && Removed(ONE_THUMB, "u", "left-thumb") == map[] && Tracked(map[]) == {}
    ensures Erasable(ONE_THUMB) == {0}
  {
    assert IsValidFinger(FINGER_NAMES[0]);
    TrackedHas(ONE_THUMB, "u", "left-thumb");
    ErasableHas(ONE_THUMB, "u", "left-thumb");
    assert ONE_THUMB["u"] - {"left-thumb"} == map[];
  }

  /** Slot 1 is the first offered while the count is one and slot 1 untracked. */
  lemma OffersSlotOne(p: Prints)
    requires 1 !in Tracked(p)
    ensures WritableSlots(1, TrackedSlots(p)) != [] && WritableSlots(1, TrackedSlots(p))[0] == 1
  {
    hide TrackedSlots, Tracked;
    assert 1 !in TrackedSlots(p);
  }

  /** The template landed in slot 1, and the file does not know. */
  lemma AfterBadCommit(stages: Stages, last: seq<Outcome>, host: seq<bool>, landed: nat -> bool)
    requires GoesWrong(last, host) && (last == [] ==> forall i :: landed(i))
    ensures
      var w := AfterCalls(stages, last, host, 2);
      && w.file == ONE_THUMB && w.usb.Some? && w.claimed == Some("u") && Occupied({0}, w.wire, landed) == {0, 1}
      && AnswersTruly({0}, w.wire, landed)
      && (last == [] ==> !NoSilentCommit(w.wire, landed))
      && (SavesFollowCommits(Fresh(ONE_THUMB), FourCalls(stages, last, host)[..2], stages) <==> last == [])
  {
    hide AnswersTruly, NoSilentCommit, Occupied, SavesFollowCommits, HasAckedCommit, UpToCommit, Run, Enrolling,
         TrackedSlots, WritableSlots, Tracked, NeverOverwrites, AfterCalls;
    AfterClaim(stages, last, host, landed);
    ThumbTracked();
    OffersSlotOne(ONE_THUMB);
    NextCall(stages, last, host, 1);
    var s := FourCalls(stages, last, host)[1];
    var w := AfterCalls(stages, last, host, 1).(script := s.script, host := s.host);
    assert IsValidFinger(FINGER_NAMES[1]);
    ScriptedEnrolment({0}, w, "left-index-finger", stages, 1, last, landed);
  }

  /** Only the unknown template is left. */
  lemma AfterDelete(stages: Stages, last: seq<Outcome>, host: seq<bool>, landed: nat -> bool)
    requires GoesWrong(last, host) && (last == [] ==> forall i :: landed(i))
    ensures
      var w, w0 := AfterCalls(stages, last, host, 3), AfterCalls(stages, last, host, 2);
      && w.file == map[] && w.usb.Some? && w.claimed == Some("u") && Occupied({0}, w.wire, landed) == {1}
      && AnswersTruly({0}, w.wire, landed) && w0.wire <= w.wire
      && (SavesFollowCommits(Fresh(ONE_THUMB), FourCalls(stages, last, host)[..3], stages) <==> last == [])
  {
    hide AnswersTruly, Occupied, SavesFollowCommits, HasAckedCommit, UpToCommit, Run, DeleteFinger, Removed, Tracked,
         AfterCalls, Grew, ArmingHoldsFor;
    AfterBadCommit(stages, last, host, landed);
    ThumbTracked();
    NextCall(stages, last, host, 2);
    var s := FourCalls(stages, last, host)[2];
    var w := AfterCalls(stages, last, host, 2).(script := s.script, host := s.host);
    assert IsValidFinger(FINGER_NAMES[0]);
    DeleteGoes({0}, w, "u", "left-thumb", landed);
    WireGrows(stages, last, host, 2);
  }

  lemma WireGrows(stages: Stages, last: seq<Outcome>, host: seq<bool>, n: nat)
    requires n < 4
    ensures AfterCalls(stages, last, host, n).wire <= AfterCalls(stages, last, host, n + 1).wire
  {
    hide Run, After, SavesFollowCommits, HasAckedCommit, ArmingHoldsFor;
    var calls := FourCalls(stages, last, host);
    NextCall(stages, last, host, n);
    ArmedOverEveryRun(ONE_THUMB, calls[..n], stages);
    CallKeepsArming(
      AfterCalls(stages, last, host, n).(script := calls[n].script, host := calls[n].host), calls[n].call, stages);
  }

  /** The next enrolment commits to the slot that template is in. */
  lemma BadCommitIsOverwritten(stages: Stages, last: seq<Outcome>, host: seq<bool>, landed: nat -> bool)
    requires GoesWrong(last, host) && (last == [] ==> forall i :: landed(i))
    ensures
      var wire := Run(Fresh(ONE_THUMB), FourCalls(stages, last, host), stages).wire;
      && AnswersTruly({0}, wire, landed) && !NeverOverwrites({0}, wire, landed)
      && (last == [] ==> !NoSilentCommit(wire, landed))
      && (SavesFollowCommits(Fresh(ONE_THUMB), FourCalls(stages, last, host), stages) <==> last == [])
  {
    hide AnswersTruly, NoSilentCommit, Occupied, SavesFollowCommits, HasAckedCommit, UpToCommit, Run, Enrolling,
         TrackedSlots, WritableSlots, Tracked, NeverOverwrites;
    AfterDelete(stages, last, host, landed);
    AfterBadCommit(stages, last, host, landed);
    ThumbTracked();
    OffersSlotOne(map[]);
    NextCall(stages, last, host, 3);
    WireGrows(stages, last, host, 3);
    var calls := FourCalls(stages, last, host);
    assert calls[..4] == calls;
    var w := AfterCalls(stages, last, host, 3).(script := calls[3].script, host := calls[3].host);
    assert IsValidFinger(FINGER_NAMES[0]);
    ScriptedEnrolment({0}, w, "left-thumb", stages, 1, [], landed);
    HonestPrefix({0}, AfterCalls(stages, last, host, 2).wire, AfterCalls(stages, last, host, 4).wire, landed);
  }

  /**
   * A commit that takes effect although its reply is lost is overwritten by the next enrolment but one:
   * the count is honest, every acknowledged commit is saved, and the run starts where the floor clears.
   */
  lemma SilentCommitIsOverwritten(stages: Stages)
    ensures FloorClears(Orphans({0}, ONE_THUMB), Pinned({0}, ONE_THUMB))
    ensures
      var calls := FourCalls(stages, [], []);
      var wire := Run(Fresh(ONE_THUMB), calls, stages).wire;
      && AnswersTruly({0}, wire, Everything()) && SavesFollowCommits(Fresh(ONE_THUMB), calls, stages)
      && !NoSilentCommit(wire, Everything())
      && !NeverOverwrites({0}, wire, Everything())
  {
    hide AnswersTruly, NoSilentCommit, SavesFollowCommits, UpToCommit, Run, NeverOverwrites;
    ThumbTracked();
    BadCommitIsOverwritten(stages, [], [], Everything());
  }

  /** So is an acknowledged commit whose entry is not saved. */
  lemma UnsavedCommitIsOverwritten(stages: Stages)
    ensures FloorClears(Orphans({0}, ONE_THUMB), Pinned({0}, ONE_THUMB))
    ensures
      var calls := FourCalls(stages, [Reply([0, 0])], [true, true, true, false]);
      var wire := Run(Fresh(ONE_THUMB), calls, stages).wire;
      && AnswersTruly({0}, wire, Nothing()) && NoSilentCommit(wire, Nothing())
      && !SavesFollowCommits(Fresh(ONE_THUMB), calls, stages)
      && !NeverOverwrites({0}, wire, Nothing())
  {
    hide AnswersTruly, NoSilentCommit, SavesFollowCommits, UpToCommit, Run, NeverOverwrites;
    ThumbTracked();
    BadCommitIsOverwritten(stages, [Reply([0, 0])], [true, true, true, false], Nothing());
    NothingIsSilent(Run(Fresh(ONE_THUMB), FourCalls(stages, [Reply([0, 0])], [true, true, true, false]), stages).wire);
  }
}
