/**
 * How each call of the worker ends, told from the outcomes it met: exactly when it succeeds, what it
 * answers otherwise, and what it leaves behind.
 */
module Outcomes {
  import opened Core
  import opened Proto
  import opened EnrollMachine
  import opened Store
  import opened WorkerSpec
  import opened Arming
  import opened EraseAccounting
  import Names

  // ---------- one command outside an op ----------

  /** The outcome of a two-byte command is a reply of two bytes. */
  ghost predicate TwoBytes(o: Outcome) {
    o.Reply? && |o.data| == 2
  }

  /** What a command outside an op answers when its outcome is not a reply of two bytes; a short read is an error. */
  ghost predicate FailsAs(o: Outcome, e: WorkerError) {
    match o
    case Reply(data) => e == ProtoFailed(UnexpectedLength(2, |data|))
    case Short(data) => e == Usb(ShortRead(data))
    case Silence => e == Usb(Timeout)
    case Gone => e == Usb(Disconnected)
    case Interrupted => e == Usb(UsbCancelled)
    case CancelWins => e == Usb(UsbCancelled)
    case Fault => e == Usb(UsbError.Other)
  }

  ghost function First(script: seq<Outcome>): Outcome {
    if script == [] then Silence else script[0]
  }

  /** The exchange a command adds on this handle. */
  ghost function Sending(h: nat, c: Command, o: Outcome): Exchange {
    Exchange(h, Encode(c), StatusIn, ExpectedLen(c), o)
  }

  lemma ArmExactly(w: W)
    ensures
      var (w', r) := SendArm(w);
      var o := First(w.script);
      if w.usb.None? then w' == w && r == Failure(Unclaimed)
      else
        && w' == w.(script := Pop(w.script), wire := w.wire + [Sending(w.usb.value, EnrolledNum, o)])
        && (r.Success? <==> TwoBytes(o))
        && (r.Success? ==> r.value == o.data[1])
        && (r.Failure? ==> FailsAs(o, r.error))
  {
    hide Encode;
  }

  lemma FirmwareExactly(w: W)
    requires w.usb.Some?
    ensures
      var o := First(w.script);
      ReadFirmware(w)
      == (w.(script := Pop(w.script), wire := w.wire + [Sending(w.usb.value, FwVersion, o)]),
          if TwoBytes(o) then Some((o.data[0], o.data[1])) else None)
  {
    hide Encode;
  }

  // ---------- claim ----------

  /** Refused because an op is running, or because somebody else holds the claim. */
  ghost predicate Taken(w: W, user: string) {
    w.busy || (w.claimed.Some? && w.claimed.value != user)
  }

  ghost predicate GetsHandle(w: W) {
    w.usb.Some? || HostSays(w)
  }

  /** The handle a claim works on. */
  ghost function HandleFor(w: W): nat {
    if w.usb.Some? then w.usb.value else w.openings
  }

  /** The outcomes left for the arming count: the firmware read takes one when no version is known. */
  ghost function ArmScript(w: W): seq<Outcome> {
    if w.firmware.Some? then w.script else Pop(w.script)
  }

  /** What a claim that got its handle put on the wire. */
  ghost function ClaimWire(w: W): seq<Exchange> {
    var h := HandleFor(w);
    (if w.firmware.Some? then [] else [Sending(h, FwVersion, First(w.script))])
      + [Sending(h, EnrolledNum, First(ArmScript(w)))]
  }

  /**
   * A claim answers Busy exactly when an op is running or another user holds the claim, and succeeds
   * exactly when neither is so, a handle is held or opened, and the count is answered. It sends the
   * firmware read once per worker and the count every time, and only success changes claim and arming.
   */
  lemma ClaimExactly(w: W, user: string)
    ensures Claim(w, user).1 == Failure(Busy) <==> Taken(w, user)
    ensures Claim(w, user).1.Success? <==> !Taken(w, user) && GetsHandle(w) && TwoBytes(First(ArmScript(w)))
    ensures !Taken(w, user) && !GetsHandle(w) ==> Claim(w, user) == (HostDone(w), Failure(Usb(OpenFailed)))
    ensures Taken(w, user) ==> Claim(w, user).0 == w
    ensures !Taken(w, user) && GetsHandle(w) ==>
              var (w', r) := Claim(w, user);
              && w'.usb == Some(HandleFor(w)) && w'.openings == w.openings + (if w.usb.Some? then 0 else 1)
              && w'.wire == w.wire + ClaimWire(w) && w'.file == w.file && w'.busy == w.busy
              && w'.firmware == (if w.firmware.Some? then w.firmware
                                 else if TwoBytes(First(w.script)) then Some((First(w.script).data[0],
                                                                              First(w.script).data[1]))
                                 else None)
              && (r.Failure? ==> FailsAs(First(ArmScript(w)), r.error) && SameClaim(w, w') && w'.armed == w.armed)
              && (r.Success? ==> w'.armed && w'.claimed == Some(user) && ClaimMirrored(w'))
  {
    hide SendArm, ReadFirmware, Sending, ClaimWire, FailsAs;
    var w1 := OpenHandle(w).0;
    if w1.usb.Some? {
      ClaimOnHandle(w1);
      SameClaimWire(w, w1);
      var w2 := if w1.firmware.Some? then w1 else var (f, fw) := ReadFirmware(w1); f.(firmware := fw);
      var (w3, count) := SendArm(w2);
      if count.Failure? {
        assert FailsAs(First(ArmScript(w)), count.error);
        NeverBusy(First(ArmScript(w)), count.error);
        assert !Taken(w, user) ==> Claim(w, user) == (w3, Failure(count.error));
      }
    }
  }

  lemma SameClaimWire(w: W, w1: W)
    requires w1.usb == Some(HandleFor(w)) && w1.script == w.script && w1.firmware == w.firmware
    ensures ArmScript(w1) == ArmScript(w) && ClaimWire(w1) == ClaimWire(w)
  {
  }

  lemma NeverBusy(o: Outcome, e: WorkerError)
    ensures FailsAs(o, e) ==> e != Busy
  {
  }

  /** Firmware read, if due, and count on a held handle. */
  lemma ClaimOnHandle(w: W)
    requires w.usb.Some?
    ensures
      var w2 := if w.firmware.Some? then w else var (f, fw) := ReadFirmware(w); f.(firmware := fw);
      var (w3, r) := SendArm(w2);
      && w3 == w.(firmware := w3.firmware, script := w3.script, wire := w.wire + ClaimWire(w))
      && w3.firmware == (if w.firmware.Some? then w.firmware
                         else if TwoBytes(First(w.script)) then Some((First(w.script).data[0], First(w.script).data[1]))
                         else None)
      && (r.Success? <==> TwoBytes(First(ArmScript(w))))
      && (r.Failure? ==> FailsAs(First(ArmScript(w)), r.error))
  {
    hide SendArm, ReadFirmware, Sending, FailsAs;
    FirmwareExactly(w);
    var w2 := if w.firmware.Some? then w else var (f, fw) := ReadFirmware(w); f.(firmware := fw);
    ArmExactly(w2);
    var arm := Sending(w.usb.value, EnrolledNum, First(ArmScript(w)));
    if w.firmware.None? {
      var read := Sending(w.usb.value, FwVersion, First(w.script));
      assert w.wire + [read] + [arm] == w.wire + ([read] + [arm]);
    } else {
      assert [] + [arm] == [arm];
    }
  }

  // ---------- release, sleep ----------

  /** Abort went out last on the held handle; without one nothing did. */
  ghost predicate AbortedLast(w: W, w': W) {
    if w.usb.None? then w'.wire == w.wire
    else
      && |w'.wire| == |w.wire| + 1 && w.wire <= w'.wire
      && w'.wire[|w.wire|].out == Encode(Command.Abort) && w'.wire[|w.wire|].handle == w.usb.value
  }

  lemma AbortExactly(w: W)
    ensures
      var w' := AbortSession(w);
      && AbortedLast(w, w')
      && w' == w.(script := if w.usb.Some? then Pop(w.script) else w.script, wire := w'.wire)
  {
  }

  /** Released: the session is aborted, nothing is armed, and the claim is gone in both places. */
  lemma ReleaseEnds(w: W)
    ensures
      var w' := Release(w);
      && AbortedLast(w, w') && w'.usb == w.usb && w'.file == w.file && w'.firmware == w.firmware
      && !w'.armed && w'.claimed == None && !w'.flagClaimed && w'.flagUser == None && w'.busy == w.busy
  {
    hide AbortSession;
    AbortExactly(w);
  }

  /** Asleep: the session is aborted and the handle dropped, and the claim stays. */
  lemma SuspendEnds(w: W)
    ensures
      var w' := Suspend(w);
      && AbortedLast(w, w') && w'.usb == None && !w'.armed && SameClaim(w, w') && w'.openings == w.openings
      && w'.file == w.file && w'.firmware == w.firmware
  {
    hide AbortSession;
    AbortExactly(w);
  }

  lemma ResumeEnds(w: W)
    ensures Resume(w) == w.(usb := None, armed := false)
  {
  }

  /** After sleep the same user claims again and is armed on a new handle, wherever the run had got to. */
  lemma ReclaimAfterSleep(file: Prints, steps: seq<Step1>, stages: Stages, user: string, asleep: seq<Outcome>,
                          answers: seq<Outcome>)
    requires Run(Fresh(file), steps, stages).claimed == Some(user) && !Run(Fresh(file), steps, stages).busy
    requires
      var w := Run(Fresh(file), steps, stages);
      TwoBytes(First(if w.firmware.Some? then answers else Pop(answers)))
    ensures
      var w := Run(Fresh(file), steps, stages);
      var back := [Step1(DoSuspend, asleep, []), Step1(DoResume, [], []), Step1(DoClaim(user), answers, [])];
      var w' := Run(Fresh(file), steps + back, stages);
      && w'.armed && w'.claimed == Some(user) && w'.usb == Some(w.openings) && w'.openings == w.openings + 1
  {
    hide Suspend, Claim, Run;
    var w := Run(Fresh(file), steps, stages);
    var s1, s2, s3 := Step1(DoSuspend, asleep, []), Step1(DoResume, [], []), Step1(DoClaim(user), answers, []);
    OneMore(Fresh(file), steps, s1, stages);
    OneMore(Fresh(file), steps + [s1], s2, stages);
    OneMore(Fresh(file), steps + [s1] + [s2], s3, stages);
    assert steps + [s1, s2, s3] == steps + [s1] + [s2] + [s3];
    SuspendEnds(w.(script := asleep, host := []));
    var w2 := Run(Fresh(file), steps + [s1] + [s2], stages);
    ClaimExactly(w2.(script := answers, host := []), user);
  }

  lemma OneMore(w: W, steps: seq<Step1>, s: Step1, stages: Stages)
    ensures Run(w, steps + [s], stages) == RunStep(Run(w, steps, stages), s, stages).0
  {
    hide RunStep;
    assert (steps + [s])[..|steps|] == steps;
  }

  // ---------- list ----------

  /** The user's names, each once, in ascending order. */
  lemma ListExactly(w: W, user: string)
    ensures
      var (w', r) := List(w, user);
      && w' == HostDone(w)
      && (r.Success? <==> HostSays(w) && user in w.file && w.file[user] != map[])
      && (r.Success? ==>
            && (forall f :: f in r.value <==> IsMapped(w.file, user, f))
            && (forall i, j :: 0 <= i < j < |r.value| ==>
                  Names.Leq(r.value[i], r.value[j]) && r.value[i] != r.value[j]))
      && (r.Failure? ==> r.error == if HostSays(w) then NoPrints(user) else StoreFailed(Io))
  {
    hide Names.Leq, Names.Sorted, HostSays;
    if user in w.file {
      var names := Names.Sorted(w.file[user].Keys);
      forall i, j | 0 <= i < j < |names|
        ensures Names.Leq(names[i], names[j]) && names[i] != names[j]
      {
        Names.SortedAscends(w.file[user].Keys, i, j);
      }
    }
  }

  // ---------- delete ----------

  /** Every one of the next n host calls is granted. */
  ghost predicate HostGrants(w: W, n: nat) {
    forall i :: 0 <= i < n && i < |w.host| ==> w.host[i]
  }

  /** Which error a delete answers, in the order the checks are made. */
  ghost predicate DeleteRefused(w: W, user: string, finger: string, e: WorkerError) {
    var o := First(w.script);
    if !IsValidFinger(finger) then e == BadFingerName(finger)
    else if !HostGrants(w, 1) then e == StoreFailed(Io)
    else if !IsMapped(w.file, user, finger) then e == NotEnrolledFinger(finger)
    else if w.usb.None? then e == Unclaimed
    else if !TwoBytes(o) then FailsAs(o, e)
    else if o.data[1] != 0 then e == EnrollFailed(Device(DeleteCmd, if IsRetry(o.data) then 0xfe else o.data[1]))
    else e == StoreFailed(Io)
  }

  /**
   * A delete succeeds exactly when the finger is named and mapped, the chip answers its one erase with a
   * zero status, and the file loads twice and saves; then, and only then, the entry is gone.
   */
  lemma DeleteExactly(w: W, user: string, finger: string)
    ensures
      var (w', r) := DeleteFinger(w, user, finger);
      var o := First(w.script);
      && (r.Success? <==> IsValidFinger(finger) && IsMapped(w.file, user, finger) && w.usb.Some?
                          && TwoBytes(o) && o.data[1] == 0 && HostGrants(w, 3))
      && (r.Failure? ==> DeleteRefused(w, user, finger, r.error))
      && w'.file == (if r.Success? then Removed(w.file, user, finger) else w.file)
      && w' == w.(file := w'.file, script := w'.script, host := w'.host, wire := w'.wire)
      && w'.wire == (if IsValidFinger(finger) && HostGrants(w, 1) && IsMapped(w.file, user, finger) && w.usb.Some? then
                       w.wire + [Sending(w.usb.value, Delete(w.file[user][finger]), o)]
                     else w.wire)
  {
    hide IsValidFinger, Removed, Ask, EraseVerdict, DropEntry, HostGrants, Sending, FailsAs, TwoBytes;
    GrantsFirst(w);
    GrantsAll(w);
    if IsValidFinger(finger) && HostSays(w) && IsMapped(w.file, user, finger) {
      var c := Delete(w.file[user][finger]);
      var (w2, r) := Ask(HostDone(w), c);
      EntryDropped(w2, user, finger);
      if w.usb.Some? {
        EraseAnswered(HostDone(w), w.file[user][finger]);
        assert w2.host == HostDone(w).host && w2.file == w.file;
      } else {
        AskUnheld(HostDone(w), c);
      }
    }
  }

  lemma AskUnheld(w: W, c: Command)
    requires w.usb.None?
    ensures Ask(w, c) == (w, Failure(Unclaimed))
    ensures c.Delete? ==> EraseVerdict(c, Failure(Unclaimed)) == Failure(Unclaimed)
  {
  }

  lemma GrantsFirst(w: W)
    ensures HostGrants(w, 1) <==> HostSays(w)
  {
  }

  lemma GrantsAll(w: W)
    ensures HostGrants(w, 3) <==> HostSays(w) && HostSays(HostDone(w)) && HostSays(HostDone(HostDone(w)))
  {
    assert HostGrants(w, 3) ==> HostSays(HostDone(HostDone(w)));
  }

  lemma EraseAnswered(w: W, slot: byte)
    requires w.usb.Some?
    ensures
      var c, o := Delete(slot), First(w.script);
      var (w', r) := Ask(w, c);
      && w' == w.(script := Pop(w.script), wire := w.wire + [Sending(w.usb.value, c, o)])
      && (EraseVerdict(c, r).Success? <==> TwoBytes(o) && o.data[1] == 0)
      && (EraseVerdict(c, r).Failure? ==>
            if !TwoBytes(o) then FailsAs(o, EraseVerdict(c, r).error)
            else EraseVerdict(c, r).error
                 == EnrollFailed(Device(DeleteCmd, if IsRetry(o.data) then 0xfe else o.data[1])))
  {
    hide Encode;
  }

  lemma EntryDropped(w: W, user: string, finger: string)
    ensures
      var (w', r) := DropEntry(w, user, finger);
      && (r.Success? <==> HostSays(w) && HostSays(HostDone(w)))
      && (r.Failure? ==> r.error == StoreFailed(Io))
      && w' == w.(host := w'.host, file := if r.Success? then Removed(w.file, user, finger) else w.file)
  {
    hide Removed;
  }

  /** The worker after deleting these fingers one by one, whatever came of each. */
  ghost function AfterDeletes(w: W, user: string, names: seq<string>): W {
    if names == [] then w
    else DeleteFinger(AfterDeletes(w, user, names[..|names| - 1]), user, names[|names| - 1]).0
  }

  /** Whether the k-th of those deletes succeeded. */
  ghost predicate DeletesAt(w: W, user: string, names: seq<string>, k: nat)
    requires k < |names|
  {
    DeleteFinger(AfterDeletes(w, user, names[..k]), user, names[k]).1.Success?
  }

  /** The first k names went, and the next one ended it. */
  ghost predicate StopsAt(w: W, user: string, names: seq<string>, k: nat, t: (W, Verdict)) {
    && k < |names| && (forall i :: 0 <= i < k ==> DeletesAt(w, user, names, i)) && !DeletesAt(w, user, names, k)
    && t == DeleteFinger(AfterDeletes(w, user, names[..k]), user, names[k])
  }

  lemma {:induction false} AfterDeletesFirst(w: W, user: string, names: seq<string>)
    requires names != []
    ensures AfterDeletes(w, user, names) == AfterDeletes(DeleteFinger(w, user, names[0]).0, user, names[1..])
    decreases |names|
  {
    hide DeleteFinger;
    if |names| > 1 {
      var init, last := names[..|names| - 1], names[|names| - 1];
      AfterDeletesFirst(w, user, init);
      assert names[1..][..|names| - 2] == init[1..];
    } else {
      assert names[..0] == [];
    }
  }

  lemma {:induction false} DeleteEachExactly(w: W, user: string, names: seq<string>)
    ensures
      var t := DeleteEach(w, user, names);
      if t.1.Success? then
        t.0 == AfterDeletes(w, user, names) && forall i :: 0 <= i < |names| ==> DeletesAt(w, user, names, i)
      else exists k: nat :: StopsAt(w, user, names, k, t)
    decreases names
  {
    hide DeleteFinger;
    if names == [] {
      return;
    }
    var t := DeleteEach(w, user, names);
    var (w1, r) := DeleteFinger(w, user, names[0]);
    assert names[..0] == [];
    if r.Failure? {
      assert StopsAt(w, user, names, 0, t);
      return;
    }
    var rest := names[1..];
    DeleteEachExactly(w1, user, rest);
    forall i | 0 <= i < |rest|
      ensures DeletesAt(w, user, names, i + 1) <==> DeletesAt(w1, user, rest, i)
      ensures AfterDeletes(w, user, names[..i + 1]) == AfterDeletes(w1, user, rest[..i])
    {
      AfterDeletesFirst(w, user, names[..i + 1]);
      assert names[..i + 1][1..] == rest[..i];
    }
    assert DeletesAt(w, user, names, 0);
    if t.1.Success? {
      AfterDeletesFirst(w, user, names);
      forall i | 0 <= i < |names|
        ensures DeletesAt(w, user, names, i)
      {
        assert i > 0 ==> DeletesAt(w1, user, rest, i - 1);
      }
    } else {
      var k: nat :| StopsAt(w1, user, rest, k, t);
      forall i | 0 <= i < k + 1
        ensures DeletesAt(w, user, names, i)
      {
        assert i > 0 ==> DeletesAt(w1, user, rest, i - 1);
      }
      assert !DeletesAt(w, user, names, k + 1) && names[k + 1] == rest[k];
      assert StopsAt(w, user, names, k + 1, t);
    }
  }

  /** Deleting all of a user's fingers goes through them in order and ends with the first that fails. */
  lemma DeleteAllExactly(w: W, user: string)
    ensures
      var names, t := List(w, user).1, DeleteAll(w, user);
      if names.Failure? then t == (HostDone(w), Failure(names.error))
      else if t.1.Success? then
        && t.0 == AfterDeletes(HostDone(w), user, names.value)
        && forall i :: 0 <= i < |names.value| ==> DeletesAt(HostDone(w), user, names.value, i)
      else exists k: nat :: StopsAt(HostDone(w), user, names.value, k, t)
  {
    hide DeleteFinger, Names.Sorted;
    var names := List(w, user).1;
    if names.Success? {
      DeleteEachExactly(HostDone(w), user, names.value);
    }
  }
}
