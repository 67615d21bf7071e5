/**
 * Trace facts every worker call keeps: no touch-wait runs on a handle that did not answer
 * enrolled_num since it was opened or last aborted, and each call sends only its own commands.
 */
module Arming {
  import opened Core
  import opened Proto
  import opened EnrollMachine
  import opened Store
  import opened WorkerSpec

  // ---------- the arming invariant ----------

  ghost predicate IsAnsweredArm(e: Exchange, h: nat) {
    && e.handle == h && Opcode(e.out) == Some(0x04)
    && Delivered(e.outcome).Success? && |Delivered(e.outcome).value| == 2
  }

  ghost predicate IsAbortOn(e: Exchange, h: nat) {
    e.handle == h && Opcode(e.out) == Some(0x02)
  }

  /** Before position i, handle h answered enrolled_num and was not aborted since. */
  ghost predicate ArmedAt(wire: seq<Exchange>, i: nat, h: nat)
    requires i <= |wire|
  {
    exists j :: 0 <= j < i && IsAnsweredArm(wire[j], h) && forall k :: j < k < i ==> !IsAbortOn(wire[k], h)
  }

  ghost predicate EveryTouchArmed(wire: seq<Exchange>) {
    forall i :: 0 <= i < |wire| && IsTouchWait(wire[i].out) ==> ArmedAt(wire, i, wire[i].handle)
  }

  /** Handles are numbered in opening order, so a number names one opening. */
  ghost predicate HandlesNumbered(usb: Option<nat>, openings: nat, wire: seq<Exchange>) {
    && (usb.Some? ==> usb.value < openings)
    && forall i :: 0 <= i < |wire| ==> wire[i].handle < openings
  }

  ghost predicate ArmingHoldsFor(usb: Option<nat>, openings: nat, wire: seq<Exchange>, armed: bool) {
    && HandlesNumbered(usb, openings, wire)
    && EveryTouchArmed(wire)
    && (armed ==> usb.Some? && ArmedAt(wire, |wire|, usb.value))
  }

  ghost predicate ArmingHolds(w: W) {
    ArmingHoldsFor(w.usb, w.openings, w.wire, w.armed)
  }

  lemma DisarmedHolds(w: W)
    requires ArmingHolds(w)
    ensures w.armed ==> w.usb.Some?
    ensures ArmingHolds(w.(armed := false)) && ArmingHolds(DropHandle(w))
    ensures w.usb.None? ==> ArmingHolds(w.(usb := Some(w.openings), openings := w.openings + 1))
  {
  }

  lemma ArmedAtExtends(wire: seq<Exchange>, more: seq<Exchange>, i: nat, h: nat)
    requires i <= |wire| && wire <= more
    ensures ArmedAt(wire, i, h) <==> ArmedAt(more, i, h)
  {
    assert forall j :: 0 <= j < i ==> wire[j] == more[j];
  }

  lemma ArmingAppend(wire: seq<Exchange>, e: Exchange)
    ensures EveryTouchArmed(wire) && (IsTouchWait(e.out) ==> ArmedAt(wire, |wire|, e.handle)) ==>
              EveryTouchArmed(wire + [e])
    ensures forall h :: ArmedAt(wire, |wire|, h) && !IsAbortOn(e, h) ==> ArmedAt(wire + [e], |wire| + 1, h)
    ensures IsAnsweredArm(e, e.handle) ==> ArmedAt(wire + [e], |wire| + 1, e.handle)
  {
    var more := wire + [e];
    forall i, h | 0 <= i <= |wire|
      ensures ArmedAt(wire, i, h) <==> ArmedAt(more, i, h)
    {
      ArmedAtExtends(wire, more, i, h);
    }
    forall h | ArmedAt(wire, |wire|, h) && !IsAbortOn(e, h)
      ensures ArmedAt(more, |wire| + 1, h)
    {
      var j :| 0 <= j < |wire| && IsAnsweredArm(wire[j], h) && forall k :: j < k < |wire| ==> !IsAbortOn(wire[k], h);
      assert IsAnsweredArm(more[j], h);
      assert forall k :: j < k < |wire| + 1 ==> !IsAbortOn(more[k], h);
    }
    if IsAnsweredArm(e, e.handle) {
      assert IsAnsweredArm(more[|wire|], e.handle);
    }
    if EveryTouchArmed(wire) && (IsTouchWait(e.out) ==> ArmedAt(wire, |wire|, e.handle)) {
      forall i | 0 <= i < |more| && IsTouchWait(more[i].out)
        ensures ArmedAt(more, i, more[i].handle)
      {
        assert i < |wire| ==> more[i] == wire[i];
      }
    }
  }

  // ---------- what a call sends and leaves alone ----------

  /** The wire only grew, by commands of these opcodes. */
  ghost predicate Grew(before: seq<Exchange>, after: seq<Exchange>, ops: set<Option<byte>>) {
    before <= after && forall i :: |before| <= i < |after| ==> Opcode(after[i].out) in ops
  }

  ghost predicate Sent(w: W, w': W, ops: set<Option<byte>>) {
    Grew(w.wire, w'.wire, ops)
  }

  lemma GrewTrans(a: seq<Exchange>, b: seq<Exchange>, c: seq<Exchange>, few: set<Option<byte>>, ops: set<Option<byte>>)
    requires Grew(a, b, few) && few <= ops && Grew(b, c, ops)
    ensures Grew(a, c, ops)
  {
  }

  lemma GrewNot(a: seq<Exchange>, ops: set<Option<byte>>)
    ensures Grew(a, a, ops)
  {
  }

  lemma GrewMore(a: seq<Exchange>, b: seq<Exchange>, few: set<Option<byte>>, ops: set<Option<byte>>)
    requires Grew(a, b, few) && few <= ops
    ensures Grew(a, b, ops)
  {
  }

  /** Nothing but handle, arming, scripts and wire moved. */
  ghost predicate Framed(w: W, w': W) {
    && w'.claimed == w.claimed && w'.flagClaimed == w.flagClaimed && w'.flagUser == w.flagUser
    && w'.busy == w.busy && w'.file == w.file && w'.openings == w.openings
    && (w'.usb == w.usb || (w'.usb.None? && !w'.armed))
  }

  lemma TransferKeeps(w: W, out: seq<byte>, ep: Endpoint, len: nat)
    requires ArmingHolds(w) && w.usb.Some?
    requires IsTouchWait(out) ==> w.armed
    ensures
      var w' := Transfer(w, out, ep, len).0;
      && Framed(w, w') && Sent(w, w', {Opcode(out)}) && w'.usb == w.usb && w'.armed == w.armed
      && (Opcode(out) != Some(0x02) || !w.armed ==> ArmingHolds(w'))
      && ArmingHolds(w'.(armed := false))
      && (Opcode(out) == Some(0x04) && Delivered(NextOutcome(w)).Success? && |Delivered(NextOutcome(w)).value| == 2 ==>
            ArmingHolds(w'.(armed := true)))
  {
    ArmingAppend(w.wire, Exchange(w.usb.value, out, ep, len, NextOutcome(w)));
  }

  lemma AskKeeps(w: W, c: Command)
    requires ArmingHolds(w) && !IsTouchWait(Encode(c))
    ensures
      var (w', r) := Ask(w, c);
      && Framed(w, w') && Sent(w, w', {Opcode(Encode(c))}) && w'.usb == w.usb && w'.armed == w.armed
      && (Opcode(Encode(c)) != Some(0x02) || !w.armed ==> ArmingHolds(w'))
      && ArmingHolds(w'.(armed := false))
      && (c == EnrolledNum && r.Success? && |r.value| == 2 ==> ArmingHolds(w'.(armed := true)))
  {
    if w.usb.Some? {
      TransferKeeps(w, Encode(c), StatusIn, ExpectedLen(c));
    }
  }

  lemma RoundKeeps(w: W, out: seq<byte>, ep: Endpoint, len: nat)
    requires ArmingHolds(w) && Opcode(out) != Some(0x02)
    requires IsTouchWait(out) ==> w.armed
    ensures
      var (w', r) := Round(w, out, ep, len);
      && ArmingHolds(w') && Framed(w, w') && Sent(w, w', {Opcode(out)})
      && (r.Success? ==> w'.armed == w.armed && w'.usb == w.usb && w.usb.Some?)
  {
    hide ArmingHoldsFor, Grew, Transfer, Opcode;
    GrewNot(w.wire, {Opcode(out)});
    if w.usb.Some? {
      TransferKeeps(w, out, ep, len);
      DisarmedHolds(Transfer(w, out, ep, len).0);
    }
  }

  const ARM_OPS: set<Option<byte>> := {Some(0x04)}
  const ABORT_OPS: set<Option<byte>> := {Some(0x02)}
  const CLAIM_OPS: set<Option<byte>> := {None, Some(0x04)}
  const VERIFY_OPS: set<Option<byte>> := {Some(0x04), Some(0x03), Some(0x02)}
  const ENROLL_OPS: set<Option<byte>> := {Some(0x04), Some(0x12), Some(0x01), Some(0x10), Some(0x11), Some(0x02)}
  const DELETE_OPS: set<Option<byte>> := {Some(0x05)}

  lemma SendArmKeeps(w: W)
    requires ArmingHolds(w)
    ensures
      var (w', r) := SendArm(w);
      && ArmingHolds(w') && Framed(w, w') && Sent(w, w', ARM_OPS) && w'.usb == w.usb && w'.armed == w.armed
      && (r.Success? ==> w.usb.Some? && ArmingHolds(w'.(armed := true)))
  {
    AskKeeps(w, EnrolledNum);
  }

  lemma AbortKeeps(w: W)
    requires ArmingHolds(w)
    ensures
      var w' := AbortSession(w);
      && ArmingHolds(w'.(armed := false)) && Framed(w, w') && Sent(w, w', ABORT_OPS) && w'.usb == w.usb
      && (w.usb.Some? ==> |w'.wire| == |w.wire| + 1 && IsAbortOn(w'.wire[|w.wire|], w.usb.value))
  {
    AskKeeps(w, Command.Abort);
  }

  lemma ClaimKeeps(w: W, user: string)
    requires ArmingHolds(w)
    ensures
      var w' := Claim(w, user).0;
      ArmingHolds(w') && Sent(w, w', CLAIM_OPS) && w'.file == w.file && w'.busy == w.busy
  {
    GrewNot(w.wire, CLAIM_OPS);
    if !(w.busy || (w.claimed.Some? && w.claimed.value != user)) {
      DisarmedHolds(w);
      var (w1, open) := OpenHandle(w);
      if open {
        ClaimHandleKeeps(w1);
      }
    }
    hide ArmingHoldsFor, Grew;
  }

  /** The firmware read, at most once, and the arming read on an open handle. */
  lemma ClaimHandleKeeps(w: W)
    requires ArmingHolds(w)
    ensures
      var w2 := if w.firmware.Some? then w else var (f, fw) := ReadFirmware(w); f.(firmware := fw);
      var (w3, r) := SendArm(w2);
      && ArmingHolds(w3) && Sent(w, w3, CLAIM_OPS) && w3.file == w.file && w3.busy == w.busy
      && (r.Success? ==> ArmingHolds(w3.(armed := true)))
  {
    hide ArmingHoldsFor, Grew;
    AskKeeps(w, FwVersion);
    GrewNot(w.wire, {None});
    var w2 := if w.firmware.Some? then w else var (f, fw) := ReadFirmware(w); f.(firmware := fw);
    SendArmKeeps(w2);
    GrewMore(w2.wire, SendArm(w2).0.wire, ARM_OPS, CLAIM_OPS);
    GrewTrans(w.wire, w2.wire, SendArm(w2).0.wire, {None}, CLAIM_OPS);
  }

  /** The claim callers see without the worker lock is the worker's own. */
  ghost predicate ClaimMirrored(w: W) {
    w.flagClaimed == w.claimed.Some? && w.flagUser == w.claimed
  }

  /** A claim that changes anything needs the busy flag clear, and mirrors itself. */
  lemma ClaimMirrors(w: W, user: string)
    requires ClaimMirrored(w)
    ensures ClaimMirrored(Claim(w, user).0)
    ensures w.busy ==> Claim(w, user).0 == w
  {
    hide SendArm, ReadFirmware;
    assert SendArm(w).0.claimed == w.claimed by { SendArmFrames(w); }
    if !w.busy {
      var (w1, open) := OpenHandle(w);
      if open {
        FirmwareFrames(w1);
        var w2 := if w1.firmware.Some? then w1 else var (f, fw) := ReadFirmware(w1); f.(firmware := fw);
        SendArmFrames(w2);
      }
    }
  }

  lemma SendArmFrames(w: W)
    ensures
      var w' := SendArm(w).0;
      w'.claimed == w.claimed && w'.flagClaimed == w.flagClaimed && w'.flagUser == w.flagUser && w'.busy == w.busy
  {
  }

  lemma FirmwareFrames(w: W)
    ensures
      var w' := ReadFirmware(w).0;
      w'.claimed == w.claimed && w'.flagClaimed == w.flagClaimed && w'.flagUser == w.flagUser && w'.busy == w.busy
  {
  }

  /** The claim fields and busy flag of one worker state carried over to another. */
  ghost predicate SameClaim(w: W, w': W) {
    w'.claimed == w.claimed && w'.flagClaimed == w.flagClaimed && w'.flagUser == w.flagUser && w'.busy == w.busy
  }

  lemma DeleteKeeps(w: W, user: string, finger: string)
    requires ArmingHolds(w)
    ensures
      var w' := DeleteFinger(w, user, finger).0;
      ArmingHolds(w') && Sent(w, w', DELETE_OPS) && w'.busy == w.busy && w'.claimed == w.claimed
      && w'.flagClaimed == w.flagClaimed && w'.flagUser == w.flagUser
  {
    hide ArmingHoldsFor, Grew, DeleteFinger, Ask;
    GrewNot(w.wire, DELETE_OPS);
    DeleteOnlyAsks(w, user, finger);
    if IsMapped(w.file, user, finger) {
      AskDeleteKeeps(HostDone(w), w.file[user][finger]);
    }
  }

  /** Everything a delete changes but the script, the host and the file, one exchange changed. */
  ghost predicate SameSession(w: W, w': W) {
    w' == w.(script := w'.script, host := w'.host, file := w'.file)
  }

  lemma DeleteOnlyAsks(w: W, user: string, finger: string)
    ensures
      var w' := DeleteFinger(w, user, finger).0;
      SameSession(w, w') || (IsMapped(w.file, user, finger)
                             && SameSession(Ask(HostDone(w), Delete(w.file[user][finger])).0, w'))
  {
    hide Ask, EraseVerdict, DropEntry, IsValidFinger, HostSays;
    if IsMapped(w.file, user, finger) {
      DropEntryDrops(Ask(HostDone(w), Delete(w.file[user][finger])).0, user, finger);
    }
  }

  lemma DropEntryDrops(w: W, user: string, finger: string)
    ensures
      var w' := DropEntry(w, user, finger).0;
      && w' == w.(host := w'.host, file := w'.file)
      && (w'.file == w.file || w'.file == Removed(w.file, user, finger))
  {
    hide Removed, HostSays;
  }

  lemma AskDeleteKeeps(w: W, slot: byte)
    requires ArmingHolds(w)
    ensures
      var w' := Ask(w, Delete(slot)).0;
      ArmingHolds(w') && Framed(w, w') && Sent(w, w', DELETE_OPS)
  {
    hide ArmingHoldsFor, Grew, Ask;
    AskKeeps(w, Delete(slot));
  }

  lemma {:induction false} VerifyLoopKeeps(w: W, allowed: map<byte, string>, s: Sink)
    requires ArmingHolds(w) && w.armed
    ensures
      var (w', _, _) := VerifyLoop(w, allowed, s);
      ArmingHolds(w') && Framed(w, w') && Sent(w, w', VERIFY_OPS)
    decreases |w.script|
  {
    hide ArmingHoldsFor, Grew;
    RoundKeeps(w, Encode(Verify), TouchWait, 2);
    var (w1, r) := Round(w, Encode(Verify), TouchWait, 2);
    GrewMore(w.wire, w1.wire, {Some(0x03)}, VERIFY_OPS);
    if r.Success? && |r.value| == 2 {
      var (s1, done) := Announce(s, allowed, Classify(r.value[1]));
      if !done {
        VerifyLoopKeeps(w1, allowed, s1);
        GrewTrans(w.wire, w1.wire, VerifyLoop(w1, allowed, s1).0.wire, {Some(0x03)}, VERIFY_OPS);
      }
    }
  }

  lemma FinishKeeps(w0: W, w: W, s: Sink, r: Verdict, ops: set<Option<byte>>)
    requires ArmingHolds(w) && Sent(w0, w, ops) && ABORT_OPS <= ops
    ensures
      var (w', _, _) := Finish(w, s, r);
      ArmingHolds(w') && Framed(w, w') && Sent(w0, w', ops)
  {
    hide ArmingHoldsFor, Grew;
    AbortKeeps(w);
    GrewMore(w.wire, AbortSession(w).wire, ABORT_OPS, ops);
    GrewTrans(w0.wire, w.wire, AbortSession(w).wire, ops, ops);
  }

  lemma VerifyInnerKeeps(w: W, finger: string, s: Sink)
    requires ArmingHolds(w)
    ensures
      var (w', _, _) := VerifyInner(w, finger, s);
      ArmingHolds(w') && Framed(w, w') && Sent(w, w', VERIFY_OPS)
  {
    hide ArmingHoldsFor, Grew, SendArm, VerifyLoop, Allowed;
    GrewNot(w.wire, ARM_OPS);
    SendArmKeeps(w);
    var (w1, arm) := if w.armed then (w, Success(0 as byte)) else SendArm(w);
    GrewMore(w.wire, w1.wire, ARM_OPS, VERIFY_OPS);
    if arm.Success? {
      var (w2, allowed) := Admit(w1.(armed := true), finger);
      if allowed.Success? {
        VerifyLoopKeeps(w2, allowed.value, s);
        GrewTrans(w.wire, w2.wire, VerifyLoop(w2, allowed.value, s).0.wire, ARM_OPS, VERIFY_OPS);
      }
    }
  }

  lemma VerifyingKeeps(w: W, finger: string)
    requires ArmingHolds(w)
    ensures
      var (w', _, _) := Verifying(w, finger);
      ArmingHolds(w') && Framed(w, w') && Sent(w, w', VERIFY_OPS)
  {
    hide ArmingHoldsFor, Grew, VerifyInner;
    VerifyInnerKeeps(w, finger, Sink(VerifyOp, false, []));
    var (w1, s, r) := VerifyInner(w, finger, Sink(VerifyOp, false, []));
    FinishKeeps(w, w1, s, r, VERIFY_OPS);
  }

  lemma {:induction false} PickSlotKeeps(w: W, candidates: seq<byte>)
    requires ArmingHolds(w)
    ensures
      var (w', r) := PickSlot(w, candidates);
      && ArmingHolds(w') && Framed(w, w') && Sent(w, w', {Some(0x12)})
      && (r.Success? ==> r.value in candidates && w'.armed == w.armed && w'.usb == w.usb)
    decreases candidates
  {
    hide ArmingHoldsFor, Grew;
    GrewNot(w.wire, {Some(0x12)});
    if candidates != [] {
      var c := FingerInfo(candidates[0]);
      RoundKeeps(w, Encode(c), StatusIn, ExpectedLen(c));
      var (w1, r) := Round(w, Encode(c), StatusIn, ExpectedLen(c));
      if r.Success? {
        PickSlotKeeps(w1, candidates[1..]);
        GrewTrans(w.wire, w1.wire, PickSlot(w1, candidates[1..]).0.wire, {Some(0x12)}, {Some(0x12)});
      }
    }
  }

  lemma FreeSlotKeeps(w: W)
    requires ArmingHolds(w)
    ensures
      var (w', r) := FreeSlot(w);
      && ArmingHolds(w') && Framed(w, w') && Sent(w, w', ENROLL_OPS)
      && (r.Success? ==> w'.armed && w'.usb == w.usb)
  {
    hide ArmingHoldsFor, Grew, WritableSlots, TrackedSlots, PickSlot;
    SendArmKeeps(w);
    var (w1, count) := SendArm(w);
    GrewMore(w.wire, w1.wire, ARM_OPS, ENROLL_OPS);
    if count.Success? {
      var w2 := HostDone(w1.(armed := true));
      if HostSays(w1) {
        var candidates := WritableSlots(count.value, TrackedSlots(w2.file));
        PickSlotKeeps(w2, candidates);
        GrewMore(w2.wire, PickSlot(w2, candidates).0.wire, {Some(0x12)}, ENROLL_OPS);
        GrewTrans(w.wire, w2.wire, PickSlot(w2, candidates).0.wire, ARM_OPS, ENROLL_OPS);
      }
    }
  }

  /** The bytes in hand are the encoding of the command the machine waits for. */
  ghost predicate OutIsPending(sm: Machine, out: seq<byte>) {
    sm.pending.Some? ==> out == Encode(CommandOf(sm, sm.pending.value))
  }

  lemma PendingOps(sm: Machine)
    requires sm.pending.Some?
    ensures
      var op := Opcode(Encode(CommandOf(sm, sm.pending.value)));
      op == Some(0x01) || op == Some(0x10) || op == Some(0x11)
  {
  }

  lemma SendIsPending(sm: Machine, input: seq<byte>)
    ensures Step(sm, input).1.Send? ==> OutIsPending(Step(sm, input).0, Step(sm, input).1.out)
  {
  }

  ghost predicate FramedButFile(w: W, w': W) {
    Framed(w, w'.(file := w.file))
  }

  /** One round of the enrol loop, up to the point where it either ends or loops. */
  lemma EnrollRoundKeeps(w: W, sm: Machine, out: seq<byte>)
    requires ArmingHolds(w) && w.armed && sm.pending.Some? && OutIsPending(sm, out)
    ensures
      var c := CommandOf(sm, sm.pending.value);
      var (w1, r) := Round(w, out, ReplyEndpoint(c), ExpectedLen(c));
      && ArmingHolds(w1) && Framed(w, w1) && Sent(w, w1, ENROLL_OPS)
      && (r.Success? ==> w1.armed && w1.usb == w.usb)
  {
    hide ArmingHoldsFor, Grew;
    var c := CommandOf(sm, sm.pending.value);
    PendingOps(sm);
    RoundKeeps(w, out, ReplyEndpoint(c), ExpectedLen(c));
    GrewMore(w.wire, Round(w, out, ReplyEndpoint(c), ExpectedLen(c)).0.wire, {Opcode(out)}, ENROLL_OPS);
  }

  lemma RecordKeeps(w: W, s: Sink, user: string, finger: string, id: byte)
    requires ArmingHolds(w)
    ensures
      var w' := Record(w, s, user, finger, id).0;
      ArmingHolds(w') && FramedButFile(w, w') && w'.wire == w.wire
  {
    hide ArmingHoldsFor, InsertFault, Inserted, HostSays, Emit;
  }

  lemma {:induction false} EnrollLoopKeeps(w: W, sm: Machine, out: seq<byte>, user: string, finger: string, s: Sink)
    requires ArmingHolds(w) && w.armed && OutIsPending(sm, out)
    ensures
      var (w', _, _) := EnrollLoop(w, sm, out, user, finger, s);
      ArmingHolds(w') && FramedButFile(w, w') && Sent(w, w', ENROLL_OPS)
    decreases |w.script|, 0
  {
    hide ArmingHoldsFor, Grew, Step, Encode, Round, Record, TakeSend, ReplyEndpoint, ExpectedLen;
    GrewNot(w.wire, ENROLL_OPS);
    if sm.pending.Some? {
      var c := CommandOf(sm, sm.pending.value);
      EnrollRoundKeeps(w, sm, out);
      var (w1, r) := Round(w, out, ReplyEndpoint(c), ExpectedLen(c));
      if r.Success? {
        var (sm1, action) := Step(sm, r.value);
        StepQueuesPending(sm, r.value);
        SendIsPending(sm, r.value);
        match action {
          case EmitProgress(_, _) =>
            ResendKeeps(w1, sm1, user, finger, Emit(s, EnrollStatus(DbusStatus.EStagePassed, false)));
          case EmitRetry(hint) =>
            ResendKeeps(w1, sm1, user, finger, Emit(s, EnrollStatus(DbusStatus.EnrollRetry(hint), false)));
          case Send(next) => EnrollLoopKeeps(w1, sm1, next, user, finger, s);
          case Complete(id) =>
            RecordKeeps(w1, s, user, finger, id);
            GrewNot(w1.wire, ENROLL_OPS);
          case Fail(_) => GrewNot(w1.wire, ENROLL_OPS);
        }
        GrewTrans(w.wire, w1.wire, EnrollLoop(w, sm, out, user, finger, s).0.wire, ENROLL_OPS, ENROLL_OPS);
      }
    }
  }

  lemma {:induction false} ResendKeeps(w: W, sm: Machine, user: string, finger: string, s: Sink)
    requires ArmingHolds(w) && w.armed && BufferHoldsPending(sm)
    ensures
      var (w', _, _) := Resend(w, sm, user, finger, s);
      ArmingHolds(w') && FramedButFile(w, w') && Sent(w, w', ENROLL_OPS)
    decreases |w.script|, 1
  {
    hide ArmingHoldsFor, Grew, EnrollLoop, Encode;
    GrewNot(w.wire, ENROLL_OPS);
    var (sm1, next) := TakeSend(sm);
    if next.Some? {
      EnrollLoopKeeps(w, sm1, next.value, user, finger, s);
    }
  }

  lemma EnrollInnerKeeps(w: W, finger: string, stages: Stages, s: Sink)
    requires ArmingHolds(w)
    ensures
      var (w', _, _) := EnrollInner(w, finger, stages, s);
      ArmingHolds(w') && FramedButFile(w, w') && Sent(w, w', ENROLL_OPS)
  {
    hide ArmingHoldsFor, Grew, EnrollLoop, FreeSlot, Encode;
    GrewNot(w.wire, ENROLL_OPS);
    if w.claimed.Some? && HostSays(w) {
      FreeSlotKeeps(HostDone(w));
      var (w2, slot) := FreeSlot(HostDone(w));
      if slot.Success? {
        var (sm, action) := Start(WithTotal(slot.value, stages));
        EnrollLoopKeeps(w2, sm, action.out, w.claimed.value, finger, s);
        GrewTrans(w.wire, w2.wire,
          EnrollLoop(w2, sm, action.out, w.claimed.value, finger, s).0.wire, ENROLL_OPS, ENROLL_OPS);
      }
    }
  }

  lemma EnrollingKeeps(w: W, finger: string, stages: Stages)
    requires ArmingHolds(w)
    ensures
      var (w', _, _) := Enrolling(w, finger, stages);
      ArmingHolds(w') && FramedButFile(w, w') && Sent(w, w', ENROLL_OPS)
  {
    hide ArmingHoldsFor, Grew, EnrollInner;
    EnrollInnerKeeps(w, finger, stages, Sink(EnrollOp, false, []));
    var (w1, s, r) := EnrollInner(w, finger, stages, Sink(EnrollOp, false, []));
    FinishKeeps(w, w1, s, r, ENROLL_OPS);
  }

  lemma CallKeepsArming(w: W, call: Call, stages: Stages)
    requires ArmingHolds(w)
    ensures ArmingHolds(After(w, call, stages).0)
    ensures w.wire <= After(w, call, stages).0.wire
  {
    hide ArmingHoldsFor, Verifying, Enrolling, Claim, DeleteFinger;
    match call {
      case DoClaim(user) => ClaimKeeps(w, user);
      case DoRelease => AbortKeeps(w);
      case DoSuspend => AbortKeeps(w); DisarmedHolds(AbortSession(w).(armed := false));
      case DoResume => DisarmedHolds(w);
      case DoVerify(finger) => VerifyingKeeps(w, finger);
      case DoEnroll(finger) => EnrollingKeeps(w, finger, stages);
      case DoDelete(user, finger) => DeleteKeeps(w, user, finger);
    }
  }

  /** Over every run from a fresh worker, whatever the chip answers: no touch-wait without arming. */
  lemma {:induction false} ArmedOverEveryRun(file: Prints, steps: seq<Step1>, stages: Stages)
    ensures ArmingHolds(Run(Fresh(file), steps, stages))
  {
    hide After;
    if steps != [] {
      var before, last := steps[..|steps| - 1], steps[|steps| - 1];
      ArmedOverEveryRun(file, before, stages);
      var w := Run(Fresh(file), before, stages);
      CallKeepsArming(w.(script := last.script, host := last.host), last.call, stages);
    }
  }

  /** Disarmed, and the held handle, if any, was sent an abort last. */
  ghost predicate TornDown(w: W) {
    !w.armed && (w.usb.None? || (w.wire != [] && IsAbortOn(w.wire[|w.wire| - 1], w.usb.value)))
  }

  /** A verify or enroll that returns an error leaves the chip session torn down. */
  lemma ErrorTearsDown(w: W, finger: string, stages: Stages)
    ensures Verifying(w, finger).2.Failure? ==> TornDown(Verifying(w, finger).0)
    ensures Enrolling(w, finger, stages).2.Failure? ==> TornDown(Enrolling(w, finger, stages).0)
  {
    FinishTearsDown(VerifyInner(w, finger, Sink(VerifyOp, false, [])));
    FinishTearsDown(EnrollInner(w, finger, stages, Sink(EnrollOp, false, [])));
  }

  lemma FinishTearsDown(t: (W, Sink, Verdict))
    ensures t.2.Failure? ==> TornDown(Finish(t.0, t.1, t.2).0)
  {
  }
}
