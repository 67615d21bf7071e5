/**
 * No enrolment overwrites a live template. The chip is modelled by the set of slots its flash holds;
 * it answers enrolled_num with the size of that set and everything else as it likes.
 */
module NoOverwrite {
  import opened Core
  import opened Proto
  import opened EnrollMachine
  import opened Store
  import opened WorkerSpec
  import opened Arming
  import opened EnrollTrace
  import opened EraseAccounting

  // ---------- the chip ----------

  /** A zero-status answer to a write. */
  ghost predicate Acked(e: Exchange) {
    IsZero(DataOf(e.outcome))
  }

  predicate IsDelete(out: seq<byte>) {
    Opcode(out) == Some(0x05) && |out| >= 4
  }

  /** The slot named by the last enroll sample on the wire. */
  ghost function Staged(wire: seq<Exchange>): Option<byte> {
    if wire == [] then None
    else
      var out := wire[|wire| - 1].out;
      if Opcode(out) == Some(0x01) && |out| >= 4 then Some(out[3]) else Staged(wire[..|wire| - 1])
  }

  /**
   * The occupied slots after a wire history. An acknowledged write took effect; `landed` says, per
   * exchange, whether an unacknowledged one did.
   */
  ghost function Occupied(start: set<byte>, wire: seq<Exchange>, landed: nat -> bool): set<byte> {
    if wire == [] then start
    else
      var before, e := wire[..|wire| - 1], wire[|wire| - 1];
      var held := Occupied(start, before, landed);
      if !(Acked(e) || landed(|wire| - 1)) then held
      else if IsCommit(e.out) && Staged(before).Some? then held + {Staged(before).value}
      else if IsDelete(e.out) then held - {e.out[3]}
      else held
  }

  /** enrolled_num tells the number of occupied slots. */
  ghost predicate CountsHonestly(start: set<byte>, wire: seq<Exchange>, landed: nat -> bool) {
    forall i :: 0 <= i < |wire| && Opcode(wire[i].out) == Some(0x04) && |DataOf(wire[i].outcome)| == 2 ==>
      DataOf(wire[i].outcome)[1] == |Occupied(start, wire[..i], landed)|
  }

  /** A commit that was not acknowledged did not reach the flash. */
  ghost predicate NoSilentCommit(wire: seq<Exchange>, landed: nat -> bool) {
    forall i :: 0 <= i < |wire| && IsCommit(wire[i].out) && !Acked(wire[i]) ==> !landed(i)
  }

  ghost predicate HasAckedCommit(before: seq<Exchange>, after: seq<Exchange>) {
    exists i :: |before| <= i < |after| && IsCommit(after[i].out) && Acked(after[i])
  }

  /** No commit targets a slot that holds a template. */
  ghost predicate NeverOverwrites(start: set<byte>, wire: seq<Exchange>, landed: nat -> bool) {
    forall i :: 0 <= i < |wire| && IsCommit(wire[i].out) ==>
      Staged(wire[..i]).Some? && Staged(wire[..i]).value !in Occupied(start, wire[..i], landed)
  }

  /** Occupied slots no user is mapped to. */
  ghost function Orphans(occupied: set<byte>, p: Prints): set<byte> {
    occupied - Tracked(p)
  }

  /** Slots a delete can name: those mapped under a valid finger name. */
  ghost function Erasable(p: Prints): set<byte> {
    set u, f | u in p && f in p[u] && IsValidFinger(f) :: p[u][f]
  }

  /** Slots mapped under a name no delete accepts. */
  ghost function Unerasable(p: Prints): set<byte> {
    set u, f | u in p && f in p[u] && !IsValidFinger(f) :: p[u][f]
  }

  /** Occupied slots no delete can free. */
  ghost function Pinned(occupied: set<byte>, p: Prints): set<byte> {
    occupied - Erasable(p)
  }

  /** Every orphan an enrolment could be given lies below the number of slots that stay occupied. */
  ghost predicate FloorClears(orphans: set<byte>, pinned: set<byte>) {
    forall o :: o in orphans && o <= MAX_SLOT ==> o < |pinned|
  }

  // ---------- what each call does to the flash ----------

  const WRITE_OPS: set<Option<byte>> := {Some(0x05), Some(0x11)}

  lemma {:induction false} NoWriteNoChange(start: set<byte>, before: seq<Exchange>, after: seq<Exchange>,
                                           ops: set<Option<byte>>, landed: nat -> bool)
    requires Grew(before, after, ops) && ops !! WRITE_OPS
    ensures Occupied(start, after, landed) == Occupied(start, before, landed)
    ensures NeverOverwrites(start, before, landed) ==> NeverOverwrites(start, after, landed)
    decreases |after|
  {
    if |after| > |before| {
      var init := after[..|after| - 1];
      NoWriteNoChange(start, before, init, ops, landed);
      assert Opcode(after[|after| - 1].out) in ops;
      if NeverOverwrites(start, before, landed) {
        NeverOverwritesMore(start, init, after[|after| - 1], landed);
        assert init + [after[|after| - 1]] == after;
      }
    } else {
      assert after == before;
    }
  }

  lemma NeverOverwritesMore(start: set<byte>, wire: seq<Exchange>, e: Exchange, landed: nat -> bool)
    requires NeverOverwrites(start, wire, landed)
    requires IsCommit(e.out) ==> Staged(wire).Some? && Staged(wire).value !in Occupied(start, wire, landed)
    ensures NeverOverwrites(start, wire + [e], landed)
  {
    hide Occupied, Staged;
    var more := wire + [e];
    forall i | 0 <= i < |more| && IsCommit(more[i].out)
      ensures Staged(more[..i]).Some? && Staged(more[..i]).value !in Occupied(start, more[..i], landed)
    {
      assert more[..i] == wire[..i];
      if i == |wire| {
        assert wire[..i] == wire;
      }
    }
  }

  lemma OccupiedMore(start: set<byte>, wire: seq<Exchange>, e: Exchange, landed: nat -> bool)
    ensures
      var held := Occupied(start, wire, landed);
      var now := Occupied(start, wire + [e], landed);
      && (IsCommit(e.out) && Staged(wire).Some? ==>
            now == if Acked(e) || landed(|wire|) then held + {Staged(wire).value} else held)
      && (IsDelete(e.out) ==> now == if Acked(e) || landed(|wire|) then held - {e.out[3]} else held)
      && (!IsCommit(e.out) && !IsDelete(e.out) ==> now == held)
  {
    assert (wire + [e])[..|wire|] == wire;
  }

  lemma TrackedRemoved(p: Prints, user: string, finger: string)
    requires IsMapped(p, user, finger)
    ensures
      var q := Removed(p, user, finger);
      forall s :: s != p[user][finger] ==> (s in Tracked(q) <==> s in Tracked(p))
  {
    hide Removed;
    var q := Removed(p, user, finger);
    forall s | s != p[user][finger]
      ensures s in Tracked(q) <==> s in Tracked(p)
    {
      if s in Tracked(p) {
        var u, f :| u in p && f in p[u] && p[u][f] == s;
        RemovedLookup(p, user, finger, u, f);
        assert IsMapped(q, u, f);
      }
      if s in Tracked(q) {
        var u, f :| u in q && f in q[u] && q[u][f] == s;
        RemovedLookup(p, user, finger, u, f);
        assert IsMapped(p, u, f);
      }
    }
  }

  lemma ErasableRemoved(p: Prints, user: string, finger: string)
    requires IsMapped(p, user, finger)
    ensures
      var q := Removed(p, user, finger);
      forall s :: s != p[user][finger] ==> (s in Erasable(q) <==> s in Erasable(p))
  {
    hide Removed, IsValidFinger;
    var q := Removed(p, user, finger);
    forall s | s != p[user][finger]
      ensures s in Erasable(q) <==> s in Erasable(p)
    {
      if s in Erasable(p) {
        var u, f :| u in p && f in p[u] && IsValidFinger(f) && p[u][f] == s;
        RemovedLookup(p, user, finger, u, f);
        assert IsMapped(q, u, f);
      }
      if s in Erasable(q) {
        var u, f :| u in q && f in q[u] && IsValidFinger(f) && q[u][f] == s;
        RemovedLookup(p, user, finger, u, f);
        assert IsMapped(p, u, f);
      }
    }
  }

  lemma UnerasableRemoved(p: Prints, user: string, finger: string)
    requires IsValidFinger(finger)
    ensures Unerasable(Removed(p, user, finger)) == Unerasable(p)
  {
    hide Removed, IsValidFinger;
    var q := Removed(p, user, finger);
    forall s
      ensures s in Unerasable(q) <==> s in Unerasable(p)
    {
      if s in Unerasable(p) {
        var u, f :| u in p && f in p[u] && !IsValidFinger(f) && p[u][f] == s;
        RemovedLookup(p, user, finger, u, f);
        assert IsMapped(q, u, f);
      }
      if s in Unerasable(q) {
        var u, f :| u in q && f in q[u] && !IsValidFinger(f) && q[u][f] == s;
        RemovedLookup(p, user, finger, u, f);
        assert IsMapped(p, u, f);
      }
    }
  }

  lemma UnerasableInserted(p: Prints, user: string, finger: string, slot: byte)
    requires IsValidFinger(finger)
    ensures Unerasable(p) <= Unerasable(Inserted(p, user, finger, slot))
  {
    hide Inserted, IsValidFinger;
    var q := Inserted(p, user, finger, slot);
    forall s | s in Unerasable(p)
      ensures s in Unerasable(q)
    {
      var u, f :| u in p && f in p[u] && !IsValidFinger(f) && p[u][f] == s;
      InsertedLookup(p, user, finger, slot, u, f);
      assert IsMapped(q, u, f);
    }
  }

  lemma ErasableInserted(p: Prints, user: string, finger: string, slot: byte)
    requires !IsMapped(p, user, finger) && IsValidFinger(finger)
    ensures Erasable(Inserted(p, user, finger, slot)) == Erasable(p) + {slot}
  {
    hide Inserted, IsValidFinger;
    var q := Inserted(p, user, finger, slot);
    forall s
      ensures s in Erasable(q) <==> s in Erasable(p) || s == slot
    {
      if s in Erasable(p) {
        var u, f :| u in p && f in p[u] && IsValidFinger(f) && p[u][f] == s;
        InsertedLookup(p, user, finger, slot, u, f);
        assert IsMapped(q, u, f);
      }
      if s in Erasable(q) {
        var u, f :| u in q && f in q[u] && IsValidFinger(f) && q[u][f] == s;
        InsertedLookup(p, user, finger, slot, u, f);
        assert (u, f) != (user, finger) ==> IsMapped(p, u, f);
      }
      InsertedLookup(p, user, finger, slot, user, finger);
    }
  }

  lemma TrackedInserted(p: Prints, user: string, finger: string, slot: byte)
    requires !IsMapped(p, user, finger)
    ensures Tracked(Inserted(p, user, finger, slot)) == Tracked(p) + {slot}
  {
    var q := Inserted(p, user, finger, slot);
    forall s
      ensures s in Tracked(q) <==> s in Tracked(p) || s == slot
    {
      if s in Tracked(p) {
        var u, f :| u in p && f in p[u] && p[u][f] == s;
        InsertedLookup(p, user, finger, slot, u, f);
        assert IsMapped(q, u, f);
      }
      if s in Tracked(q) {
        var u, f :| u in q && f in q[u] && q[u][f] == s;
        InsertedLookup(p, user, finger, slot, u, f);
        assert (u, f) != (user, finger) ==> IsMapped(p, u, f);
      }
      InsertedLookup(p, user, finger, slot, user, finger);
    }
  }

  /** Erasing a tracked slot, whether or not its entry goes too, never makes, mends or frees an orphan. */
  lemma DeleteKeepsOrphans(start: set<byte>, w: W, user: string, finger: string, landed: nat -> bool)
    ensures
      var w' := DeleteFinger(w, user, finger).0;
      && Orphans(Occupied(start, w'.wire, landed), w'.file) == Orphans(Occupied(start, w.wire, landed), w.file)
      && Pinned(Occupied(start, w'.wire, landed), w'.file) == Pinned(Occupied(start, w.wire, landed), w.file)
      && Occupied(start, w'.wire, landed) <= Occupied(start, w.wire, landed)
      && (NeverOverwrites(start, w.wire, landed) ==> NeverOverwrites(start, w'.wire, landed))
  {
    hide Occupied, NeverOverwrites, Removed, Tracked, Erasable, DeleteFinger, IsValidFinger;
    DeleteShape(w, user, finger);
    var w' := DeleteFinger(w, user, finger).0;
    if w'.wire != w.wire {
      var slot := w.file[user][finger];
      var e := DeleteExchange(w, slot);
      OccupiedMore(start, w.wire, e, landed);
      TrackedHas(w.file, user, finger);
      TrackedRemoved(w.file, user, finger);
      ErasableHas(w.file, user, finger);
      ErasableRemoved(w.file, user, finger);
      if NeverOverwrites(start, w.wire, landed) {
        NeverOverwritesMore(start, w.wire, e, landed);
      }
    }
  }

  function DeleteExchange(w: W, slot: byte): Exchange
    requires w.usb.Some?
  {
    Exchange(w.usb.value, Encode(Delete(slot)), StatusIn, 2, NextOutcome(w))
  }

  /** A delete is one exchange, and drops the entry only when that was acknowledged. */
  lemma DeleteShape(w: W, user: string, finger: string)
    ensures
      var w' := DeleteFinger(w, user, finger).0;
      || (w'.wire == w.wire && w'.file == w.file)
      || (&& IsMapped(w.file, user, finger) && IsValidFinger(finger) && w.usb.Some?
          && var e := DeleteExchange(w, w.file[user][finger]);
             && w'.wire == w.wire + [e]
             && (w'.file == w.file || (w'.file == Removed(w.file, user, finger) && Acked(e))))
  {
    hide Removed, IsValidFinger, DropEntry;
    if IsMapped(w.file, user, finger) && w.usb.Some? {
      var (w2, r) := Ask(HostDone(w), Delete(w.file[user][finger]));
      ErasedIsAcked(HostDone(w), w.file[user][finger]);
      DropEntryDrops(w2, user, finger);
    }
  }

  lemma ErasedIsAcked(w: W, slot: byte)
    requires w.usb.Some?
    ensures EraseVerdict(Delete(slot), Ask(w, Delete(slot)).1).Success? ==> Acked(DeleteExchange(w, slot))
  {
  }

  lemma TrackedHas(p: Prints, user: string, finger: string)
    requires IsMapped(p, user, finger)
    ensures p[user][finger] in Tracked(p)
  {
  }

  lemma ErasableHas(p: Prints, user: string, finger: string)
    requires IsMapped(p, user, finger) && IsValidFinger(finger)
    ensures p[user][finger] in Erasable(p)
  {
  }

  // ---------- enrolment ----------

  /** Throughout a dialogue the staged slot is the chosen one, and nothing is written before its last word. */
  lemma {:induction false} DialogueStages(start: set<byte>, b: seq<Exchange>, es: seq<Exchange>, slot: byte, n: byte,
                                          landed: nat -> bool)
    requires n >= 1 && FollowsMachine(es, slot, n)
    ensures es != [] ==> Staged(b + es) == Some(slot)
    ensures es == [] || !IsCommit(es[|es| - 1].out) ==> Occupied(start, b + es, landed) == Occupied(start, b, landed)
    ensures es != [] ==> Occupied(start, b + es[..|es| - 1], landed) == Occupied(start, b, landed)
    decreases |es|
  {
    hide FollowsMachine, Occupied, Feed, Heard, Encode;
    if es == [] {
      assert b + es == b;
    } else {
      var init, e := es[..|es| - 1], es[|es| - 1];
      FollowsPrefix(es, slot, n);
      DialogueStages(start, b, init, slot, n, landed);
      if init != [] && IsCommit(init[|init| - 1].out) {
        CommitIsGatedAndLast(es, slot, n, |init| - 1);
      }
      assert b + es == (b + init) + [e];
      OccupiedMore(start, b + init, e, landed);
      DialogueOps(es, slot, n, |es| - 1);
      assert (b + es)[..|b + es| - 1] == b + init;
      assert init == [] ==> b + init == b;
    }
  }

  lemma FollowsPrefix(es: seq<Exchange>, slot: byte, n: byte)
    requires es != [] && FollowsMachine(es, slot, n)
    ensures FollowsMachine(es[..|es| - 1], slot, n)
  {
    hide OnCue, Feed, Heard;
    var init := es[..|es| - 1];
    assert forall k :: 0 <= k < |init| ==> init[..k] == es[..k] && init[k] == es[k];
  }

  lemma DialogueOps(es: seq<Exchange>, slot: byte, n: byte, k: nat)
    requires n >= 1 && FollowsMachine(es, slot, n) && k < |es|
    ensures !IsDelete(es[k].out)
    ensures Opcode(es[k].out) == Some(0x01) ==> |es[k].out| >= 4 && es[k].out[3] == slot
    ensures k == 0 ==> Opcode(es[k].out) == Some(0x01)
  {
    hide FollowsMachine, OnCue, Feed, Step;
    var m := Feed(slot, n, Heard(es[..k]));
    CueAt(es, slot, n, k);
    Recognises(slot, n, Heard(es[..k]));
    OneCueOps(es[k], m);
    if k == 0 {
      assert Heard(es[..k]) == [];
      FirstCue(slot, n);
    }
  }

  lemma OneCueOps(e: Exchange, m: Machine)
    requires OnCue(e, m)
    ensures !IsDelete(e.out)
    ensures Opcode(e.out) == Some(0x01) ==> |e.out| >= 4 && e.out[3] == m.slot
    ensures m.pending == Some(Sample) ==> Opcode(e.out) == Some(0x01)
  {
  }

  lemma FirstCue(slot: byte, n: byte)
    ensures Feed(slot, n, []).pending == Some(Sample)
  {
  }

  lemma CueIsCommitExactly(e: Exchange, m: Machine)
    requires OnCue(e, m)
    ensures IsCommit(e.out) <==> m.pending == Some(CommitWrite)
  {
    EncodeRoundTrip(CommandOf(m, m.pending.value));
  }

  /** A completed language means the dialogue ended in an acknowledged commit, and conversely. */
  lemma LanguageIsAckedCommit(es: seq<Exchange>, slot: byte, n: byte)
    requires n >= 1 && FollowsMachine(es, slot, n)
    ensures Language(Heard(es), n) <==> es != [] && IsCommit(es[|es| - 1].out) && Acked(es[|es| - 1])
  {
    hide FollowsMachine, OnCue, Feed, Step, GateOpen;
    if es != [] {
      var init := es[..|es| - 1];
      CueAt(es, slot, n, |init|);
      CueIsCommitExactly(es[|init|], Feed(slot, n, Heard(init)));
      Recognises(slot, n, Heard(init));
      assert Heard(es)[..|es| - 1] == Heard(init);
    }
  }

  /** The count floor and the tracked filter together leave only slots without a template. */
  lemma PickedIsUnoccupied(p: Prints, occupied: set<byte>, count: byte, slot: byte)
    requires FloorClears(Orphans(occupied, p), Pinned(occupied, p))
    requires count == |occupied| && count <= slot <= MAX_SLOT && slot !in Tracked(p)
    ensures slot !in occupied
  {
    SubsetCardinality(Pinned(occupied, p), occupied);
    assert slot in occupied ==> slot in Orphans(occupied, p);
  }

  /** The orphans and the pinned slots are still these, and nothing was overwritten. */
  ghost predicate FlashSafe(start: set<byte>, w: W, landed: nat -> bool, orphans: set<byte>, pinned: set<byte>) {
    && Orphans(Occupied(start, w.wire, landed), w.file) == orphans
    && Pinned(Occupied(start, w.wire, landed), w.file) == pinned
    && NeverOverwrites(start, w.wire, landed)
  }

  lemma DialogueInit(es: seq<Exchange>, b: seq<Exchange>, slot: byte, n: byte)
    requires n >= 1 && FollowsMachine(es, slot, n) && es != []
    ensures Grew(b, b + es[..|es| - 1], {Some(0x01), Some(0x10)})
    ensures IsCommit(es[|es| - 1].out) ==> |es| > 1
    ensures !IsDelete(es[|es| - 1].out)
  {
    hide FollowsMachine, Feed, Heard, Encode;
    var after := b + es[..|es| - 1];
    forall i | |b| <= i < |after|
      ensures Opcode(after[i].out) in {Some(0x01), Some(0x10)}
    {
      var j := i - |b|;
      assert after[i] == es[j];
      DialogueOps(es, slot, n, j);
      if IsCommit(es[j].out) {
        CommitIsGatedAndLast(es, slot, n, j);
      }
      CueOps(es, slot, n, j);
    }
    DialogueOps(es, slot, n, |es| - 1);
  }

  lemma CueOps(es: seq<Exchange>, slot: byte, n: byte, k: nat)
    requires FollowsMachine(es, slot, n) && k < |es|
    ensures Opcode(es[k].out) in {Some(0x01 as byte), Some(0x10), Some(0x11)}
  {
  }

  /** The last exchange of a dialogue, the only one that may write. */
  lemma LastWordKeepsOrphans(start: set<byte>, held: set<byte>, b: seq<Exchange>, es: seq<Exchange>, slot: byte,
                             n: byte, landed: nat -> bool)
    requires n >= 1 && es != [] && FollowsMachine(es, slot, n)
    requires Occupied(start, b, landed) == held && slot !in held && NeverOverwrites(start, b, landed)
    requires IsCommit(es[|es| - 1].out) && !Acked(es[|es| - 1]) ==> !landed(|b| + |es| - 1)
    ensures NeverOverwrites(start, b + es, landed)
    ensures Occupied(start, b + es, landed) == if Language(Heard(es), n) then held + {slot} else held
  {
    hide FollowsMachine, Feed, Heard, Encode, Occupied, NeverOverwrites, Language, Grew, Acked;
    var init, e := es[..|es| - 1], es[|es| - 1];
    DialogueInit(es, b, slot, n);
    NoWriteNoChange(start, b, b + init, {Some(0x01), Some(0x10)}, landed);
    FollowsPrefix(es, slot, n);
    DialogueStages(start, b, init, slot, n, landed);
    assert b + es == (b + init) + [e];
    OccupiedMore(start, b + init, e, landed);
    NeverOverwritesMore(start, b + init, e, landed);
    LanguageIsAckedCommit(es, slot, n);
  }

  lemma CountAt(start: set<byte>, before: seq<Exchange>, all: seq<Exchange>, landed: nat -> bool, n: byte)
    requires CountsHonestly(start, all, landed) && before <= all && |before| < |all| && Counts(all[|before|], n)
    ensures n == |Occupied(start, before, landed)|
  {
    hide Occupied;
    assert all[..|before|] == before;
  }

  /** Up to the chosen slot nothing was written, and the slot holds no template. */
  lemma FreeSlotIsSafe(start: set<byte>, w: W, all: seq<Exchange>, landed: nat -> bool, orphans: set<byte>,
                       pinned: set<byte>)
    requires ArmingHolds(w) && FlashSafe(start, w, landed, orphans, pinned) && FloorClears(orphans, pinned)
    requires FreeSlot(w).1.Success? && FreeSlot(w).0.wire <= all && CountsHonestly(start, all, landed)
    ensures
      var (w2, slot) := FreeSlot(w);
      && Occupied(start, w2.wire, landed) == Occupied(start, w.wire, landed)
      && NeverOverwrites(start, w2.wire, landed)
      && slot.value !in Occupied(start, w.wire, landed)
  {
    hide FreeSlot, Occupied, NeverOverwrites, CountsHonestly, Tracked, Erasable, FloorClears, Grew, ArmingHoldsFor,
         Probes, Vetoes, Counts;
    FreeSlotIsLeast(w);
    PreludeOps(w);
    var (w2, slot) := FreeSlot(w);
    NoWriteNoChange(start, w.wire, w2.wire, {Some(0x04), Some(0x12)}, landed);
    var e := w2.wire[|w.wire|..][0];
    assert e == all[|w.wire|];
    CountAt(start, w.wire, all, landed, e.outcome.data[1]);
    PickedIsUnoccupied(w.file, Occupied(start, w.wire, landed), e.outcome.data[1], slot.value);
  }

  lemma AckedCommitSeen(before: seq<Exchange>, after: seq<Exchange>, i: nat)
    requires |before| <= i < |after| && IsCommit(after[i].out) && Acked(after[i])
    ensures HasAckedCommit(before, after)
  {
  }

  lemma SilentAt(wire: seq<Exchange>, landed: nat -> bool, i: nat)
    requires NoSilentCommit(wire, landed) && i < |wire|
    ensures IsCommit(wire[i].out) && !Acked(wire[i]) ==> !landed(i)
  {
  }

  lemma DialogueKeepsOrphans(start: set<byte>, w: W, finger: string, stages: Stages, landed: nat -> bool,
                             orphans: set<byte>, pinned: set<byte>, all: seq<Exchange>)
    requires ArmingHolds(w) && FlashSafe(start, w, landed, orphans, pinned) && FloorClears(orphans, pinned)
    requires ReachesDialogue(w, finger)
    requires
      var (w1, _, r) := EnrollInner(w, finger, stages, Sink(EnrollOp, false, []));
      && w1.wire <= all && CountsHonestly(start, all, landed) && NoSilentCommit(all, landed)
      && (HasAckedCommit(w.wire, all) ==> r.Success?)
    ensures FlashSafe(start, EnrollInner(w, finger, stages, Sink(EnrollOp, false, [])).0, landed, orphans, pinned)
  {
    hide FreeSlot, EnrollInner, Grew, ArmingHoldsFor, Occupied, NeverOverwrites, CountsHonestly, NoSilentCommit,
         HasAckedCommit, FollowsMachine, Tracked, Erasable, FloorClears, Language, Inserted, Feed, Heard, Acked, Encode,
         InsertFault, IsValidFinger;
    var s0 := Sink(EnrollOp, false, []);
    var (w1, s, r) := EnrollInner(w, finger, stages, s0);
    DialogueConcludes(w, finger, stages, s0);
    var (w2, picked) := FreeSlot(HostDone(w));
    var slot := picked.value;
    var es := w1.wire[|w2.wire|..];
    assert w1.wire == w2.wire + es;
    var held := Occupied(start, w.wire, landed);
    FreeSlotIsSafe(start, HostDone(w), all, landed, orphans, pinned);
    LanguageIsAckedCommit(es, slot, stages);
    if es != [] {
      var last := |w2.wire| + |es| - 1;
      assert all[last] == es[|es| - 1];
      SilentAt(all, landed, last);
      if IsCommit(all[last].out) && Acked(all[last]) {
        AckedCommitSeen(w.wire, all, last);
      }
      LastWordKeepsOrphans(start, held, w2.wire, es, slot, stages, landed);
    }
    var now := Occupied(start, w1.wire, landed);
    if r.Success? {
      assert Language(Heard(es), stages) && now == held + {slot};
      TrackedInserted(w.file, w.claimed.value, finger, slot);
      ErasableInserted(w.file, w.claimed.value, finger, slot);
      assert Orphans(now, w1.file) == Orphans(held, w.file);
      assert Pinned(now, w1.file) == Pinned(held, w.file);
    } else {
      assert !Language(Heard(es), stages) && w1.file == w.file;
      assert es == [] ==> w1.wire == w2.wire;
      assert now == held;
    }
  }

  lemma EnrollKeepsOrphans(start: set<byte>, w: W, finger: string, stages: Stages, landed: nat -> bool,
                           orphans: set<byte>, pinned: set<byte>)
    requires ArmingHolds(w) && FlashSafe(start, w, landed, orphans, pinned) && FloorClears(orphans, pinned)
    requires
      var (w', _, r) := Enrolling(w, finger, stages);
      && CountsHonestly(start, w'.wire, landed) && NoSilentCommit(w'.wire, landed)
      && (HasAckedCommit(w.wire, w'.wire) ==> r.Success?)
    ensures FlashSafe(start, Enrolling(w, finger, stages).0, landed, orphans, pinned)
  {
    hide FreeSlot, EnrollInner, Grew, ArmingHoldsFor, Occupied, NeverOverwrites, CountsHonestly, NoSilentCommit,
         HasAckedCommit, FollowsMachine, Tracked, Erasable, FloorClears, LoopConcludes, Language, Inserted, Feed;
    var s0 := Sink(EnrollOp, false, []);
    var (w1, s, r) := EnrollInner(w, finger, stages, s0);
    var w' := Enrolling(w, finger, stages).0;
    EnrollInnerKeeps(w, finger, stages, s0);
    AbortKeeps(w1);
    GrewNot(w1.wire, ABORT_OPS);
    NoWriteNoChange(start, w1.wire, w'.wire, ABORT_OPS, landed);
    if ReachesDialogue(w, finger) {
      DialogueKeepsOrphans(start, w, finger, stages, landed, orphans, pinned, w'.wire);
    } else {
      NoDialogueOps(w, finger, stages, s0);
      NoWriteNoChange(start, w.wire, w1.wire, {Some(0x04), Some(0x12)}, landed);
      NoDialogue(w, finger, stages, s0);
    }
  }

  // ---------- whole runs ----------

  /** Over the run each acknowledged commit belongs to an enrolment that also saved its entry. */
  ghost predicate SavesFollowCommits(w: W, steps: seq<Step1>, stages: Stages) {
    forall i :: 0 <= i < |steps| ==>
      var before := Run(w, steps[..i], stages);
      var (after, r) := RunStep(before, steps[i], stages);
      HasAckedCommit(before.wire, after.wire) ==> r.Success?
  }

  lemma CallKeepsFlash(start: set<byte>, w: W, call: Call, stages: Stages, landed: nat -> bool, orphans: set<byte>,
                       pinned: set<byte>)
    requires ArmingHolds(w) && FlashSafe(start, w, landed, orphans, pinned) && FloorClears(orphans, pinned)
    requires
      var (w', r) := After(w, call, stages);
      && CountsHonestly(start, w'.wire, landed) && NoSilentCommit(w'.wire, landed)
      && (HasAckedCommit(w.wire, w'.wire) ==> r.Success?)
    ensures FlashSafe(start, After(w, call, stages).0, landed, orphans, pinned)
  {
    hide Verifying, Enrolling, Claim, DeleteFinger, Grew, ArmingHoldsFor, Occupied, NeverOverwrites, CountsHonestly,
         NoSilentCommit, HasAckedCommit, Tracked, Erasable, FloorClears;
    var w' := After(w, call, stages).0;
    match call {
      case DoClaim(user) => ClaimKeeps(w, user); NoWriteNoChange(start, w.wire, w'.wire, CLAIM_OPS, landed);
      case DoRelease => AbortKeeps(w); NoWriteNoChange(start, w.wire, w'.wire, ABORT_OPS, landed);
      case DoSuspend => AbortKeeps(w); NoWriteNoChange(start, w.wire, w'.wire, ABORT_OPS, landed);
      case DoResume =>
      case DoVerify(finger) => VerifyingKeeps(w, finger); NoWriteNoChange(start, w.wire, w'.wire, VERIFY_OPS, landed);
      case DoEnroll(finger) => EnrollKeepsOrphans(start, w, finger, stages, landed, orphans, pinned);
      case DoDelete(user, finger) => DeleteKeepsOrphans(start, w, user, finger, landed);
    }
  }

  lemma HonestPrefix(start: set<byte>, wire: seq<Exchange>, more: seq<Exchange>, landed: nat -> bool)
    requires wire <= more
    ensures CountsHonestly(start, more, landed) ==> CountsHonestly(start, wire, landed)
    ensures NoSilentCommit(more, landed) ==> NoSilentCommit(wire, landed)
  {
    hide Occupied;
    assert forall i :: 0 <= i < |wire| ==> wire[i] == more[i] && wire[..i] == more[..i];
  }

  lemma NothingWritten(start: set<byte>, landed: nat -> bool)
    ensures Occupied(start, [], landed) == start && NeverOverwrites(start, [], landed)
  {
  }

  /**
   * The chip counts its templates truthfully, and each commit, its reply and the save of its entry
   * succeed together or not at all.
   */
  ghost predicate HonestRun(start: set<byte>, file: Prints, steps: seq<Step1>, stages: Stages, landed: nat -> bool) {
    var wire := Run(Fresh(file), steps, stages).wire;
    && CountsHonestly(start, wire, landed) && NoSilentCommit(wire, landed)
    && SavesFollowCommits(Fresh(file), steps, stages)
  }

  /**
   * Every honest run of claims, releases, sleeps, verifies, enrolments and deletes: when each orphan
   * lies below the number of slots that stay occupied, the orphans never change and no commit targets
   * a live template.
   */
  lemma {:induction false} NoEnrolmentOverwrites(start: set<byte>, file: Prints, steps: seq<Step1>, stages: Stages,
                                                 landed: nat -> bool)
    requires FloorClears(Orphans(start, file), Pinned(start, file))
    requires HonestRun(start, file, steps, stages, landed)
    ensures FlashSafe(start, Run(Fresh(file), steps, stages), landed, Orphans(start, file), Pinned(start, file))
  {
    hide After, HonestRun, CountsHonestly, NoSilentCommit, HasAckedCommit, ArmingHoldsFor, Occupied, NeverOverwrites,
         FloorClears, Orphans, Pinned;
    if steps == [] {
      assert Fresh(file).wire == [];
      NothingWritten(start, landed);
    } else {
      var before, last := steps[..|steps| - 1], steps[|steps| - 1];
      var w := Run(Fresh(file), before, stages).(script := last.script, host := last.host);
      ArmedOverEveryRun(file, before, stages);
      assert before + [last] == steps;
      HonestBefore(start, file, before, last, stages, landed);
      NoEnrolmentOverwrites(start, file, before, stages, landed);
      CallKeepsFlash(start, w, last.call, stages, landed, Orphans(start, file), Pinned(start, file));
    }
  }

  /** An honest run was honest before its last call, and in it. */
  lemma HonestBefore(start: set<byte>, file: Prints, before: seq<Step1>, last: Step1, stages: Stages,
                     landed: nat -> bool)
    requires HonestRun(start, file, before + [last], stages, landed)
    ensures HonestRun(start, file, before, stages, landed)
    ensures
      var w := Run(Fresh(file), before, stages).(script := last.script, host := last.host);
      var (w', r) := After(w, last.call, stages);
      && CountsHonestly(start, w'.wire, landed) && NoSilentCommit(w'.wire, landed)
      && (HasAckedCommit(w.wire, w'.wire) ==> r.Success?)
  {
    hide After, CountsHonestly, NoSilentCommit, HasAckedCommit, ArmingHoldsFor, Grew;
    var steps := before + [last];
    var w := Run(Fresh(file), before, stages).(script := last.script, host := last.host);
    assert steps[..|before|] == before && steps[|before|] == last;
    assert forall i :: 0 <= i < |before| ==> before[..i] == steps[..i] && before[i] == steps[i];
    ArmedOverEveryRun(file, before, stages);
    CallKeepsArming(w, last.call, stages);
    HonestPrefix(start, w.wire, After(w, last.call, stages).0.wire, landed);
  }

  // ---------- the store over whole runs ----------

  ghost predicate StoreSound(p: Prints) {
    Wellkept(p) && forall u, f :: IsMapped(p, u, f) ==> p[u][f] <= MAX_SLOT
  }

  lemma CallKeepsStoreSound(w: W, call: Call, stages: Stages)
    requires ArmingHolds(w) && StoreSound(w.file)
    ensures StoreSound(After(w, call, stages).0.file)
  {
    hide Verifying, Enrolling, Claim, DeleteFinger, Grew, ArmingHoldsFor, Wellkept, Removed, Inserted;
    var w' := After(w, call, stages).0;
    match call {
      case DoClaim(user) => ClaimKeeps(w, user);
      case DoVerify(finger) => VerifyingKeeps(w, finger);
      case DoEnroll(finger) =>
        EnrollRecordsOneEntry(w, finger, stages);
        forall u, f | IsMapped(w'.file, u, f)
          ensures w'.file[u][f] <= MAX_SLOT
        {
          if Enrolling(w, finger, stages).2.Success? {
            InsertedLookup(w.file, w.claimed.value, finger, FreeSlot(HostDone(w)).1.value, u, f);
          }
        }
      case DoDelete(user, finger) =>
        DeleteErasesOnce(w, user, finger);
        RemoveKeeps(w.file, user, finger);
        forall u, f | IsMapped(w'.file, u, f)
          ensures w'.file[u][f] <= MAX_SLOT
        {
          RemovedLookup(w.file, user, finger, u, f);
        }
      case _ =>
    }
  }

  /** From a sound store file every run keeps it sound. */
  lemma {:induction false} RunKeepsStoreSound(file: Prints, steps: seq<Step1>, stages: Stages)
    requires StoreSound(file)
    ensures StoreSound(Run(Fresh(file), steps, stages).file)
  {
    hide After, ArmingHoldsFor, StoreSound;
    if steps != [] {
      var before, last := steps[..|steps| - 1], steps[|steps| - 1];
      RunKeepsStoreSound(file, before, stages);
      ArmedOverEveryRun(file, before, stages);
      CallKeepsStoreSound(
        Run(Fresh(file), before, stages).(script := last.script, host := last.host), last.call, stages);
    }
  }

  /** No two entries of a sound store share a commit sub id. */
  lemma StoredSubIdsDistinct(p: Prints, u: string, f: string, v: string, g: string)
    requires StoreSound(p) && IsMapped(p, u, f) && IsMapped(p, v, g)
    ensures SubId(p[u][f]) == SubId(p[v][g]) <==> u == v && f == g
  {
    hide SubId, NamesValid, NoEmptyUser;
    SmallSubIdsDistinct(p[u][f], p[v][g]);
  }

  lemma SmallSubIdsDistinct(a: byte, b: byte)
    requires a <= MAX_SLOT && b <= MAX_SLOT
    ensures SubId(a) == SubId(b) <==> a == b
  {
    hide SubId;
    SubIdDistinct(a, b);
  }
}
