/** Every erase on the wire is one explicit delete of one mapped finger (worker.rs, main.rs). */
module EraseAccounting {
  import opened Core
  import opened Proto
  import opened Store
  import opened WorkerSpec
  import opened Arming
  import Names

  /** The erase commands on a wire, in order. */
  ghost function Erases(wire: seq<Exchange>): seq<seq<byte>> {
    if wire == [] then []
    else
      var before, last := wire[..|wire| - 1], wire[|wire| - 1].out;
      Erases(before) + if IsErase(last) then [last] else []
  }

  /** A delete call reaches the chip exactly when its finger is found and a handle is held. */
  ghost predicate ReachesChip(w: W, user: string, finger: string) {
    IsValidFinger(finger) && HostSays(w) && IsMapped(w.file, user, finger) && w.usb.Some?
  }

  /** What the calls themselves account for: each reaching delete, the slot mapped at that moment. */
  ghost function Due(w: W, call: Call): seq<seq<byte>> {
    match call
    case DoDelete(user, finger) => if ReachesChip(w, user, finger) then [Encode(Delete(w.file[user][finger]))] else []
    case _ => []
  }

  ghost function Ledger(w: W, steps: seq<Step1>, stages: Stages): seq<seq<byte>> {
    if steps == [] then []
    else
      var before, last := steps[..|steps| - 1], steps[|steps| - 1];
      Ledger(w, before, stages) + Due(Run(w, before, stages).(script := last.script, host := last.host), last.call)
  }

  const ERASE_OPS: set<Option<byte>> := {Some(0x05), Some(0x13), Some(0x99)}

  lemma {:induction false} NoEraseSent(before: seq<Exchange>, after: seq<Exchange>, ops: set<Option<byte>>)
    requires Grew(before, after, ops) && ops !! ERASE_OPS
    ensures Erases(after) == Erases(before)
    decreases |after|
  {
    if |after| > |before| {
      NoEraseSent(before, after[..|after| - 1], ops);
      assert Opcode(after[|after| - 1].out) in ops;
    } else {
      assert after == before;
    }
  }

  /** A delete adds its one erase when it reaches the chip, and touches nothing but its own entry. */
  lemma DeleteErasesOnce(w: W, user: string, finger: string)
    ensures
      var (w', r) := DeleteFinger(w, user, finger);
      && Erases(w'.wire) == Erases(w.wire) + Due(w, DoDelete(user, finger))
      && w'.usb == w.usb
      && (r.Success? ==> ReachesChip(w, user, finger) && w'.file == Removed(w.file, user, finger))
      && (r.Failure? ==> w'.file == w.file)
  {
    hide Erases, Removed, Parse, HostSays;
    if IsMapped(w.file, user, finger) {
      AskErases(HostDone(w), w.file[user][finger]);
    }
  }

  lemma AskErases(w: W, slot: byte)
    ensures Erases(Ask(w, Delete(slot)).0.wire) == Erases(w.wire) + if w.usb.Some? then [Encode(Delete(slot))] else []
  {
  }

  lemma CallErasesItsDue(w: W, call: Call, stages: Stages)
    requires ArmingHolds(w)
    ensures Erases(After(w, call, stages).0.wire) == Erases(w.wire) + Due(w, call)
  {
    hide ArmingHoldsFor, Grew, Verifying, Enrolling, Claim, DeleteFinger, Erases;
    var w' := After(w, call, stages).0;
    match call {
      case DoClaim(user) => ClaimKeeps(w, user); NoEraseSent(w.wire, w'.wire, CLAIM_OPS);
      case DoRelease => AbortKeeps(w); NoEraseSent(w.wire, w'.wire, ABORT_OPS);
      case DoSuspend => AbortKeeps(w); NoEraseSent(w.wire, w'.wire, ABORT_OPS);
      case DoResume =>
      case DoVerify(finger) => VerifyingKeeps(w, finger); NoEraseSent(w.wire, w'.wire, VERIFY_OPS);
      case DoEnroll(finger) => EnrollingKeeps(w, finger, stages); NoEraseSent(w.wire, w'.wire, ENROLL_OPS);
      case DoDelete(user, finger) => DeleteErasesOnce(w, user, finger);
    }
  }

  /** Over every run the erases on the wire are the reaching deletes, one to one and in order. */
  lemma {:induction false} EraseLedger(file: Prints, steps: seq<Step1>, stages: Stages)
    ensures Erases(Run(Fresh(file), steps, stages).wire) == Ledger(Fresh(file), steps, stages)
  {
    if steps != [] {
      hide After, Due, Erases;
      var before, last := steps[..|steps| - 1], steps[|steps| - 1];
      EraseLedger(file, before, stages);
      ArmedOverEveryRun(file, before, stages);
      var w := Run(Fresh(file), before, stages);
      CallErasesItsDue(w.(script := last.script, host := last.host), last.call, stages);
    } else {
      assert Fresh(file).wire == [];
    }
  }

  // ---------- delete-all ----------

  ghost function SlotErases(mine: Fingers, names: seq<string>): seq<seq<byte>>
    requires forall f :: f in names ==> f in mine
  {
    if names == [] then [] else [Encode(Delete(mine[names[0]]))] + SlotErases(mine, names[1..])
  }

  ghost function Without(p: Prints, user: string, names: seq<string>): Prints {
    if names == [] then p else Without(Removed(p, user, names[0]), user, names[1..])
  }

  lemma {:induction false} DeleteEachErases(w: W, user: string, names: seq<string>)
    requires user in w.file && NoDuplicates(names) && forall f :: f in names ==> f in w.file[user]
    ensures
      var (w', r) := DeleteEach(w, user, names);
      r.Success? ==> Erases(w'.wire) == Erases(w.wire) + SlotErases(w.file[user], names)
                     && w'.file == Without(w.file, user, names)
    decreases names
  {
    hide DeleteFinger, Erases, Encode, Removed;
    if names != [] {
      var (w1, r) := DeleteFinger(w, user, names[0]);
      DeleteErasesOnce(w, user, names[0]);
      if r.Success? {
        var rest := names[1..];
        if rest != [] {
          forall f | f in rest
            ensures f != names[0]
          {
            var i :| 0 <= i < |rest| && rest[i] == f;
            assert names[i + 1] == f;
          }
          assert NoDuplicates(rest);
          OthersStay(w.file, user, names[0], rest);
          DeleteEachErases(w1, user, rest);
          SameSlots(w.file[user], w1.file[user], rest);
        }
      }
    }
  }

  lemma OthersStay(p: Prints, user: string, gone: string, rest: seq<string>)
    requires user in p && rest != [] && forall f :: f in rest ==> f in p[user] && f != gone
    ensures
      var q := Removed(p, user, gone);
      user in q && forall f :: f in rest ==> f in q[user] && q[user][f] == p[user][f]
  {
    forall f | f in rest
      ensures IsMapped(Removed(p, user, gone), user, f) && Removed(p, user, gone)[user][f] == p[user][f]
    {
      RemovedLookup(p, user, gone, user, f);
    }
    assert rest[0] in rest;
  }

  lemma {:induction false} SameSlots(a: Fingers, b: Fingers, names: seq<string>)
    requires forall f :: f in names ==> f in a && f in b && a[f] == b[f]
    ensures SlotErases(a, names) == SlotErases(b, names)
  {
    if names != [] {
      SameSlots(a, b, names[1..]);
    }
  }

  lemma {:induction false} WithoutFlat(p: Prints, user: string, names: seq<string>)
    ensures forall u, f :: IsMapped(Without(p, user, names), u, f) <==> IsMapped(p, u, f) && !(u == user && f in names)
    ensures forall u, f :: IsMapped(Without(p, user, names), u, f) ==>
                             IsMapped(p, u, f) && Without(p, user, names)[u][f] == p[u][f]
    decreases names
  {
    if names != [] {
      var q := Removed(p, user, names[0]);
      WithoutFlat(q, user, names[1..]);
      forall u, f
        ensures IsMapped(Without(p, user, names), u, f) <==> IsMapped(p, u, f) && !(u == user && f in names)
        ensures IsMapped(Without(p, user, names), u, f) ==>
          IsMapped(p, u, f) && Without(p, user, names)[u][f] == p[u][f]
      {
        RemovedLookup(p, user, names[0], u, f);
        assert names == [names[0]] + names[1..];
      }
    }
  }

  /**
   * A delete-all that succeeds erases exactly that user's slots, once each and in finger order, and
   * leaves every other user's fingers as they were.
   */
  lemma DeleteAllErasesExactlyTheUser(w: W, user: string)
    ensures
      var (w', r) := DeleteAll(w, user);
      r.Success? ==>
        && user in w.file
        && Erases(w'.wire) == Erases(w.wire) + SlotErases(w.file[user], Names.Sorted(w.file[user].Keys))
        && (forall f :: !IsMapped(w'.file, user, f))
        && (forall u, f :: u != user ==> (IsMapped(w'.file, u, f) <==> IsMapped(w.file, u, f)))
        && (forall u, f :: u != user && IsMapped(w.file, u, f) ==> w'.file[u][f] == w.file[u][f])
  {
    hide DeleteEach, Erases, SlotErases, Without;
    var (w1, names) := List(w, user);
    if names.Success? {
      DeleteEachErases(w1, user, names.value);
      WithoutFlat(w.file, user, names.value);
    }
  }
}
