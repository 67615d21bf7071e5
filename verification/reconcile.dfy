/** Comparing the store with a slot scan (store/src/lib.rs, reconcile) and pruning (cli/src/main.rs, sync). */
module Reconcile {
  import opened Core
  import opened Proto
  import opened Store
  import opened StoreObject
  import Names

  datatype Reason = DeviceEmpty | RecordPresent | RecordEmpty | SensorStuck | TwoByteForm | OutsideScan

  datatype EntryStatus = EntryStatus(user: string, finger: string, slot: byte, stale: bool, reason: Reason)

  datatype Warning = OverCount(claimed: nat, count: byte, stale: nat) | Untracked(slot: byte)

  datatype SyncReport = SyncReport(confirmed: seq<EntryStatus>, unconfirmed: seq<EntryStatus>, stale: seq<EntryStatus>,
                                   warnings: seq<Warning>)

  datatype Bucket = Confirmed | Unconfirmed | Stale

  type Records = seq<(byte, SlotState)>

  /** What the collected map holds for a slot: its last record. */
  function LastRecord(records: Records, slot: byte): Option<SlotState> {
    if records == [] then None
    else if records[|records| - 1].0 == slot then Some(records[|records| - 1].1)
    else LastRecord(records[..|records| - 1], slot)
  }

  function Judge(count: byte, records: Records, slot: byte): (Bucket, Reason) {
    if count == 0 then (Stale, DeviceEmpty)
    else match LastRecord(records, slot)
      case Some(Enrolled(_)) => (Confirmed, RecordPresent)
      case Some(Empty) => (Stale, RecordEmpty)
      case Some(Stuck) => (Unconfirmed, SensorStuck)
      case Some(SlotError(_)) => (Unconfirmed, TwoByteForm)
      case None => (Unconfirmed, OutsideScan)
  }

  /** Proven stale by the device: it holds nothing, or the slot's last record reads empty. */
  predicate ProvenStale(count: byte, records: Records, slot: byte) {
    count == 0 || LastRecord(records, slot) == Some(Empty)
  }

  function StatusOf(count: byte, records: Records, user: string, finger: string, slot: byte): EntryStatus {
    var (bucket, reason) := Judge(count, records, slot);
    EntryStatus(user, finger, slot, bucket == Stale, reason)
  }

  /** Entries of one user, then of a list of users, in iteration order. */
  function EntriesOf(user: string, fingers: Fingers, names: seq<string>): seq<(string, string, byte)>
    requires forall f :: f in names ==> f in fingers
  {
    if names == [] then []
    else EntriesOf(user, fingers, names[..|names| - 1]) + [(user, names[|names| - 1], fingers[names[|names| - 1]])]
  }

  function Entries(p: Prints, users: seq<string>): seq<(string, string, byte)>
    requires forall u :: u in users ==> u in p
  {
    if users == [] then []
    else
      var u := users[|users| - 1];
      Entries(p, users[..|users| - 1]) + EntriesOf(u, p[u], Names.Sorted(p[u].Keys))
  }

  function AllEntries(p: Prints): seq<(string, string, byte)> {
    Entries(p, Names.Sorted(p.Keys))
  }

  /** The entries judged into one bucket, in order. */
  function InBucket(es: seq<(string, string, byte)>, count: byte, records: Records, b: Bucket): seq<EntryStatus> {
    if es == [] then []
    else
      var e := es[|es| - 1];
      InBucket(es[..|es| - 1], count, records, b)
        + if Judge(count, records, e.2).0 == b then [StatusOf(count, records, e.0, e.1, e.2)] else []
  }

  ghost predicate ReportsOn(r: SyncReport, es: seq<(string, string, byte)>, count: byte, records: Records) {
    && r.confirmed == InBucket(es, count, records, Confirmed)
    && r.unconfirmed == InBucket(es, count, records, Unconfirmed)
    && r.stale == InBucket(es, count, records, Stale)
  }

  lemma BucketMore(es: seq<(string, string, byte)>, e: (string, string, byte), count: byte, records: Records, b: Bucket)
    ensures InBucket(es + [e], count, records, b)
         == InBucket(es, count, records, b)
            + if Judge(count, records, e.2).0 == b then [StatusOf(count, records, e.0, e.1, e.2)] else []
  {
    assert (es + [e])[..|es|] == es;
  }

  lemma {:induction false} BucketJoin(es: seq<(string, string, byte)>, more: seq<(string, string, byte)>, count: byte,
                                      records: Records, b: Bucket)
    ensures InBucket(es + more, count, records, b) ==
      InBucket(es, count, records, b) + InBucket(more, count, records, b)
    decreases |more|
  {
    if more == [] {
      assert es + more == es;
    } else {
      var init, e := more[..|more| - 1], more[|more| - 1];
      BucketJoin(es, init, count, records, b);
      assert es + more == (es + init) + [e];
      BucketMore(es + init, e, count, records, b);
      assert init + [e] == more;
      BucketMore(init, e, count, records, b);
    }
  }

  lemma EntriesOfMore(user: string, fingers: Fingers, names: seq<string>, k: nat)
    requires k < |names| && forall f :: f in names ==> f in fingers
    ensures EntriesOf(user, fingers, names[..k + 1]) ==
      EntriesOf(user, fingers, names[..k]) + [(user, names[k], fingers[names[k]])]
  {
    assert names[..k + 1][..k] == names[..k];
  }

  lemma EntriesMore(p: Prints, users: seq<string>, i: nat)
    requires i < |users| && forall u :: u in users ==> u in p
    ensures Entries(p, users[..i + 1])
         == Entries(p, users[..i]) + EntriesOf(users[i], p[users[i]], Names.Sorted(p[users[i]].Keys))
  {
    assert users[..i + 1][..i] == users[..i];
  }

  function AddTo(r: SyncReport, b: Bucket, e: EntryStatus): SyncReport {
    match b
    case Confirmed => r.(confirmed := r.confirmed + [e])
    case Unconfirmed => r.(unconfirmed := r.unconfirmed + [e])
    case Stale => r.(stale := r.stale + [e])
  }

  lemma ReportMore(r: SyncReport, es: seq<(string, string, byte)>, e: (string, string, byte), count: byte,
                   records: Records)
    requires ReportsOn(r, es, count, records)
    ensures ReportsOn(AddTo(r, Judge(count, records, e.2).0, StatusOf(count, records, e.0, e.1, e.2)),
                      es + [e], count, records)
  {
  }

  /** The whole report: the three buckets, and the warnings unless the device holds nothing. */
  ghost predicate Answers(r: SyncReport, p: Prints, count: byte, records: Records) {
    && ReportsOn(r, AllEntries(p), count, records)
    && r.warnings == if count == 0 then [] else WarningsOf(p, count, records, |r.stale|)
  }

  /** The nested loops of reconcile: every entry is pushed into one bucket. */
  method Compare(store: Prints, count: byte, records: Records) returns (report: SyncReport)
    ensures Answers(report, store, count, records)
  {
    hide ReportsOn, Entries, EntriesOf, Judge, StatusOf, WarningsOf;
    report := SyncReport([], [], [], []);
    var users := Names.Sorted(store.Keys);
    NothingReported(store, users, count, records);
    var i := 0;
    while i < |users|
      invariant 0 <= i <= |users| && report.warnings == []
      invariant ReportsOn(report, Entries(store, users[..i]), count, records)
    {
      report := CompareUser(report, users[i], store[users[i]], count, records, Entries(store, users[..i]));
      EntriesMore(store, users, i);
      i := i + 1;
    }
    assert users[..i] == users;
    if count != 0 {
      var warnings := Warnings(store, count, records, |report.stale|);
      WarningsDoNotMatter(report, warnings, AllEntries(store), count, records);
      report := report.(warnings := warnings);
    }
  }

  lemma NothingReported(p: Prints, users: seq<string>, count: byte, records: Records)
    requires forall u :: u in users ==> u in p
    ensures ReportsOn(SyncReport([], [], [], []), Entries(p, users[..0]), count, records)
  {
  }

  lemma WarningsDoNotMatter(r: SyncReport, ws: seq<Warning>, es: seq<(string, string, byte)>, count: byte,
                            records: Records)
    requires ReportsOn(r, es, count, records)
    ensures ReportsOn(r.(warnings := ws), es, count, records)
  {
  }

  method CompareUser(before: SyncReport, user: string, fingers: Fingers, count: byte, records: Records,
                     ghost done: seq<(string, string, byte)>) returns (report: SyncReport)
    requires ReportsOn(before, done, count, records)
    ensures ReportsOn(report, done + EntriesOf(user, fingers, Names.Sorted(fingers.Keys)), count, records)
    ensures report.warnings == before.warnings
  {
    hide ReportsOn, Judge, StatusOf;
    report := before;
    var names := Names.Sorted(fingers.Keys);
    var k := 0;
    assert done + EntriesOf(user, fingers, names[..0]) == done;
    while k < |names|
      invariant 0 <= k <= |names| && report.warnings == before.warnings
      invariant ReportsOn(report, done + EntriesOf(user, fingers, names[..k]), count, records)
    {
      var slot := fingers[names[k]];
      ReportMore(report, done + EntriesOf(user, fingers, names[..k]), (user, names[k], slot), count, records);
      EntriesOfMore(user, fingers, names, k);
      assert done + EntriesOf(user, fingers, names[..k + 1])
          == done + EntriesOf(user, fingers, names[..k]) + [(user, names[k], slot)];
      var entry := StatusOf(count, records, user, names[k], slot);
      match Judge(count, records, slot).0 {
        case Confirmed => report := report.(confirmed := report.confirmed + [entry]);
        case Unconfirmed => report := report.(unconfirmed := report.unconfirmed + [entry]);
        case Stale => report := report.(stale := report.stale + [entry]);
      }
      k := k + 1;
    }
    assert names[..k] == names;
  }

  ghost predicate Tracks(p: Prints, slot: byte) {
    slot in Tracked(p)
  }

  /** One warning per record that shows a template in a slot no user is mapped to, in scan order. */
  ghost function UntrackedIn(p: Prints, records: Records): seq<Warning> {
    if records == [] then []
    else
      var last := records[|records| - 1];
      UntrackedIn(p, records[..|records| - 1])
        + if last.1.Enrolled? && !Tracks(p, last.0) then [Untracked(last.0)] else []
  }

  /** First whether the store holds more entries than the device counts, then the untracked templates. */
  ghost function WarningsOf(p: Prints, count: byte, records: Records, stale: nat): seq<Warning> {
    (if |Flat(p)| > count then [OverCount(|Flat(p)|, count, stale)] else []) + UntrackedIn(p, records)
  }

  lemma UntrackedMore(p: Prints, records: Records, i: nat)
    requires i < |records|
    ensures UntrackedIn(p, records[..i + 1])
         == UntrackedIn(p, records[..i])
            + if records[i].1.Enrolled? && !Tracks(p, records[i].0) then [Untracked(records[i].0)] else []
  {
    assert records[..i + 1][..i] == records[..i];
  }

  method Warnings(store: Prints, count: byte, records: Records, stale: nat) returns (ws: seq<Warning>)
    ensures ws == WarningsOf(store, count, records, stale)
  {
    hide UntrackedIn, AllEntries, Flat, Tracked, TrackedSlots;
    AllEntriesExact(store);
    var claimed := |AllEntries(store)|;
    ws := if claimed > count then [OverCount(claimed, count, stale)] else [];
    ghost var head := ws;
    var tracked := TrackedSlots(store);
    var i := 0;
    NoneUntracked(store, records);
    while i < |records|
      invariant 0 <= i <= |records|
      invariant ws == head + UntrackedIn(store, records[..i])
    {
      var (id, state) := records[i];
      UntrackedMore(store, records, i);
      if state.Enrolled? && id !in tracked {
        ws := ws + [Untracked(id)];
      }
      i := i + 1;
    }
    assert records[..i] == records;
  }

  lemma NoneUntracked(p: Prints, records: Records)
    ensures UntrackedIn(p, records[..0]) == []
  {
  }

  ghost predicate ShowsTemplate(records: Records, slot: byte) {
    exists i :: 0 <= i < |records| && records[i].0 == slot && records[i].1.Enrolled?
  }

  lemma ShowsMore(records: Records, last: (byte, SlotState), slot: byte)
    ensures ShowsTemplate(records + [last], slot) <==>
              ShowsTemplate(records, slot) || (last.0 == slot && last.1.Enrolled?)
  {
    var more := records + [last];
    if ShowsTemplate(records, slot) {
      var i :| 0 <= i < |records| && records[i].0 == slot && records[i].1.Enrolled?;
      assert more[i] == records[i];
    }
    assert more[|records|] == last;
  }

  /** A slot is warned about exactly when some record shows a template there and no user is mapped to it. */
  lemma {:induction false} WarnsExactly(p: Prints, records: Records, slot: byte)
    ensures Untracked(slot) in UntrackedIn(p, records) <==> ShowsTemplate(records, slot) && slot !in Tracked(p)
    ensures forall w :: w in UntrackedIn(p, records) ==> w.Untracked?
    decreases |records|
  {
    hide ShowsTemplate, Tracked;
    if records != [] {
      var init, last := records[..|records| - 1], records[|records| - 1];
      WarnsExactly(p, init, slot);
      ShowsMore(init, last, slot);
      assert init + [last] == records;
    } else {
      ShowsNothing(slot);
    }
  }

  lemma ShowsNothing(slot: byte)
    ensures !ShowsTemplate([], slot)
  {
  }

  // ---------- the report is a partition of the store ----------

  lemma {:induction false} EntriesOfExact(user: string, fingers: Fingers, names: seq<string>)
    requires NoDuplicates(names) && forall f :: f in names ==> f in fingers
    ensures forall e :: e in EntriesOf(user, fingers, names) <==> e.0 == user && e.1 in names && e.2 == fingers[e.1]
    ensures NoDuplicates(EntriesOf(user, fingers, names))
    decreases |names|
  {
    if names != [] {
      var init, last := names[..|names| - 1], names[|names| - 1];
      EntriesOfExact(user, fingers, init);
      assert names == init + [last];
      assert last !in init;
    }
  }

  ghost predicate EntryAmong(p: Prints, users: seq<string>, e: (string, string, byte)) {
    e.0 in users && IsMapped(p, e.0, e.1) && p[e.0][e.1] == e.2
  }

  lemma {:induction false} EntriesExact(p: Prints, users: seq<string>)
    requires NoDuplicates(users) && forall u :: u in users ==> u in p
    ensures forall e :: e in Entries(p, users) <==> EntryAmong(p, users, e)
    ensures NoDuplicates(Entries(p, users))
    decreases |users|
  {
    hide EntriesOf;
    if users != [] {
      var init, u := users[..|users| - 1], users[|users| - 1];
      EntriesExact(p, init);
      EntriesOfExact(u, p[u], Names.Sorted(p[u].Keys));
      assert users == init + [u];
      assert u !in init;
      var earlier, mine := Entries(p, init), EntriesOf(u, p[u], Names.Sorted(p[u].Keys));
      assert forall e :: e in mine <==> e.0 == u && EntryAmong(p, users, e);
      NoDuplicatesJoin(earlier, mine);
    }
  }

  lemma NoDuplicatesJoin<T>(a: seq<T>, b: seq<T>)
    requires NoDuplicates(a) && NoDuplicates(b) && forall x :: x in a ==> x !in b
    ensures NoDuplicates(a + b)
  {
    forall i, j | 0 <= i < j < |a + b|
      ensures (a + b)[i] != (a + b)[j]
    {
      if i < |a| <= j {
        assert a[i] in a && b[j - |a|] in b;
      }
    }
  }

  lemma {:induction false} NoDuplicatesSize<T>(s: seq<T>)
    requires NoDuplicates(s)
    ensures |set x | x in s| == |s|
    decreases |s|
  {
    if s != [] {
      var init, last := s[..|s| - 1], s[|s| - 1];
      NoDuplicatesSize(init);
      assert s == init + [last] && last !in init;
      assert (set x | x in s) == (set x | x in init) + {last};
    }
  }

  /** The entries listed are the entries stored, each once. */
  lemma AllEntriesExact(p: Prints)
    ensures NoDuplicates(AllEntries(p))
    ensures forall e :: e in AllEntries(p) <==> IsMapped(p, e.0, e.1) && p[e.0][e.1] == e.2
    ensures |AllEntries(p)| == |Flat(p)|
  {
    var users := Names.Sorted(p.Keys);
    EntriesExact(p, users);
    var es := AllEntries(p);
    assert forall e :: EntryAmong(p, users, e) <==> IsMapped(p, e.0, e.1) && p[e.0][e.1] == e.2;
    NoDuplicatesSize(es);
    FlatSize(p, set e | e in es);
  }

  lemma FlatSize(p: Prints, listed: set<(string, string, byte)>)
    requires forall e :: e in listed <==> IsMapped(p, e.0, e.1) && p[e.0][e.1] == e.2
    ensures |listed| == |Flat(p)|
  {
    var keys := Flat(p).Keys;
    forall k
      ensures k in keys <==> IsMapped(p, k.0, k.1)
    {
      FlatLookup(p, k.0, k.1);
    }
    ProjectionSize(p, listed, keys);
  }

  lemma {:induction false} ProjectionSize(p: Prints, listed: set<(string, string, byte)>, keys: set<(string, string)>)
    requires forall e :: e in listed ==> IsMapped(p, e.0, e.1) && p[e.0][e.1] == e.2 && (e.0, e.1) in keys
    requires forall k :: k in keys ==> IsMapped(p, k.0, k.1) && (k.0, k.1, p[k.0][k.1]) in listed
    ensures |listed| == |keys|
    decreases |keys|
  {
    if keys == {} {
      assert listed == {};
    } else {
      var k :| k in keys;
      var e := (k.0, k.1, p[k.0][k.1]);
      ProjectionSize(p, listed - {e}, keys - {k});
    }
  }

  lemma {:induction false} BucketMembers(es: seq<(string, string, byte)>, count: byte, records: Records, b: Bucket,
                                         s: EntryStatus)
    ensures s in InBucket(es, count, records, b) <==>
              (s.user, s.finger, s.slot) in es && Judge(count, records, s.slot).0 == b
              && s == StatusOf(count, records, s.user, s.finger, s.slot)
    decreases |es|
  {
    if es != [] {
      var init, e := es[..|es| - 1], es[|es| - 1];
      BucketMembers(init, count, records, b, s);
      assert es == init + [e];
    }
  }

  lemma {:induction false} BucketSizes(es: seq<(string, string, byte)>, count: byte, records: Records)
    ensures |InBucket(es, count, records, Confirmed)| + |InBucket(es, count, records, Unconfirmed)|
              + |InBucket(es, count, records, Stale)| == |es|
    decreases |es|
  {
    if es != [] {
      BucketSizes(es[..|es| - 1], count, records);
    }
  }

  /**
   * The three lists partition the store: every stored entry is reported once, in one list, as stale
   * exactly when the device proved it, and nothing else is reported.
   */
  lemma ReconcilePartitions(p: Prints, count: byte, records: Records, r: SyncReport, s: EntryStatus)
    requires ReportsOn(r, AllEntries(p), count, records)
    ensures |r.confirmed| + |r.unconfirmed| + |r.stale| == |Flat(p)|
    ensures s in r.confirmed || s in r.unconfirmed || s in r.stale <==>
              IsMapped(p, s.user, s.finger) && s == StatusOf(count, records, s.user, s.finger, p[s.user][s.finger])
    ensures !(s in r.confirmed && s in r.unconfirmed) && !(s in r.confirmed && s in r.stale)
         && !(s in r.unconfirmed && s in r.stale)
    ensures s in r.confirmed || s in r.unconfirmed || s in r.stale ==>
              (s in r.stale <==> ProvenStale(count, records, s.slot)) && (s.stale <==> s in r.stale)
  {
    hide AllEntries, InBucket, Flat;
    AllEntriesExact(p);
    BucketSizes(AllEntries(p), count, records);
    BucketMembers(AllEntries(p), count, records, Confirmed, s);
    BucketMembers(AllEntries(p), count, records, Unconfirmed, s);
    BucketMembers(AllEntries(p), count, records, Stale, s);
  }

  // ---------- the report told from the records, in order ----------

  /** The record a slot is judged by is the last one for it. */
  lemma {:induction false} LastRecordIsLast(records: Records, slot: byte)
    ensures
      match LastRecord(records, slot)
      case None => forall i :: 0 <= i < |records| ==> records[i].0 != slot
      case Some(state) =>
        exists i :: 0 <= i < |records| && records[i] == (slot, state)
                    && forall j :: i < j < |records| ==> records[j].0 != slot
    decreases |records|
  {
    if records != [] && records[|records| - 1].0 != slot {
      var init := records[..|records| - 1];
      LastRecordIsLast(init, slot);
      assert forall i :: 0 <= i < |init| ==> init[i] == records[i];
    }
  }

  ghost predicate Stored(p: Prints, s: EntryStatus) {
    IsMapped(p, s.user, s.finger) && p[s.user][s.finger] == s.slot
  }

  /** Which list an entry belongs in and why, from the count and the last record of its slot. */
  ghost predicate Confirms(count: byte, last: Option<SlotState>, s: EntryStatus) {
    count != 0 && last.Some? && last.value.Enrolled? && !s.stale && s.reason == RecordPresent
  }

  ghost predicate Doubts(count: byte, last: Option<SlotState>, s: EntryStatus) {
    && count != 0 && !s.stale
    && (|| (last == None && s.reason == OutsideScan)
        || (last == Some(Stuck) && s.reason == SensorStuck)
        || (last.Some? && last.value.SlotError? && s.reason == TwoByteForm))
  }

  ghost predicate Disproves(count: byte, last: Option<SlotState>, s: EntryStatus) {
    s.stale && if count == 0 then s.reason == DeviceEmpty else last == Some(Empty) && s.reason == RecordEmpty
  }

  /** Each list holds exactly the stored entries it should, for the reason it gives. */
  lemma ListsTold(p: Prints, count: byte, records: Records, r: SyncReport, s: EntryStatus)
    requires ReportsOn(r, AllEntries(p), count, records)
    ensures s in r.confirmed <==> Stored(p, s) && Confirms(count, LastRecord(records, s.slot), s)
    ensures s in r.unconfirmed <==> Stored(p, s) && Doubts(count, LastRecord(records, s.slot), s)
    ensures s in r.stale <==> Stored(p, s) && Disproves(count, LastRecord(records, s.slot), s)
  {
    hide AllEntries, InBucket, Flat;
    AllEntriesExact(p);
    BucketMembers(AllEntries(p), count, records, Confirmed, s);
    BucketMembers(AllEntries(p), count, records, Unconfirmed, s);
    BucketMembers(AllEntries(p), count, records, Stale, s);
  }

  /** The store's order: by user, then by finger. */
  ghost predicate Precedes(u: string, f: string, v: string, g: string) {
    if u == v then f != g && Names.Leq(f, g) else Names.Leq(u, v)
  }

  ghost predicate InOrder(es: seq<(string, string, byte)>) {
    forall i, j :: 0 <= i < j < |es| ==> Precedes(es[i].0, es[i].1, es[j].0, es[j].1)
  }

  ghost predicate Ascends(list: seq<EntryStatus>) {
    forall i, j :: 0 <= i < j < |list| ==> Precedes(list[i].user, list[i].finger, list[j].user, list[j].finger)
  }

  lemma {:induction false} EntriesOfInOrder(user: string, fingers: Fingers, names: seq<string>)
    requires forall f :: f in names ==> f in fingers
    requires forall i, j :: 0 <= i < j < |names| ==> names[i] != names[j] && Names.Leq(names[i], names[j])
    ensures |EntriesOf(user, fingers, names)| == |names|
    ensures forall i :: 0 <= i < |names| ==>
              EntriesOf(user, fingers, names)[i].0 == user && EntriesOf(user, fingers, names)[i].1 == names[i]
    ensures InOrder(EntriesOf(user, fingers, names))
    decreases |names|
  {
    hide Names.Leq;
    if names != [] {
      EntriesOfInOrder(user, fingers, names[..|names| - 1]);
    }
  }

  lemma {:induction false} EntriesInOrder(p: Prints, users: seq<string>)
    requires forall u :: u in users ==> u in p
    requires forall i, j :: 0 <= i < j < |users| ==> users[i] != users[j] && Names.Leq(users[i], users[j])
    ensures InOrder(Entries(p, users))
    ensures forall e :: e in Entries(p, users) ==> e.0 in users
    decreases |users|
  {
    hide Names.Leq, EntriesOf;
    if users != [] {
      var init, u := users[..|users| - 1], users[|users| - 1];
      EntriesInOrder(p, init);
      var names := Names.Sorted(p[u].Keys);
      SortedStrictly(p[u].Keys);
      EntriesOfInOrder(u, p[u], names);
      var earlier, mine := Entries(p, init), EntriesOf(u, p[u], names);
      var all: seq<(string, string, byte)> := earlier + mine;
      forall i: int, j: int | 0 <= i < j < |all|
        ensures Precedes(all[i].0, all[i].1, all[j].0, all[j].1)
      {
        if i < |earlier| <= j {
          assert earlier[i] in earlier;
          assert mine[j - |earlier|].0 == u;
        }
      }
    }
  }

  lemma SortedStrictly(names: set<string>)
    ensures forall i, j :: 0 <= i < j < |Names.Sorted(names)| ==>
              Names.Sorted(names)[i] != Names.Sorted(names)[j]
              && Names.Leq(Names.Sorted(names)[i], Names.Sorted(names)[j])
  {
    hide Names.Leq, Names.Sorted;
    forall i, j | 0 <= i < j < |Names.Sorted(names)|
      ensures Names.Leq(Names.Sorted(names)[i], Names.Sorted(names)[j])
    {
      Names.SortedAscends(names, i, j);
    }
  }

  lemma {:induction false} BucketAscends(es: seq<(string, string, byte)>, count: byte, records: Records, b: Bucket)
    requires InOrder(es)
    ensures Ascends(InBucket(es, count, records, b))
    ensures forall s :: s in InBucket(es, count, records, b) ==> (s.user, s.finger, s.slot) in es
    decreases |es|
  {
    hide Precedes, Judge;
    if es != [] {
      var init, e := es[..|es| - 1], es[|es| - 1];
      BucketAscends(init, count, records, b);
      var list := InBucket(init, count, records, b);
      forall i | 0 <= i < |list|
        ensures Precedes(list[i].user, list[i].finger, e.0, e.1)
      {
        assert list[i] in list;
        var k :| 0 <= k < |init| && init[k] == (list[i].user, list[i].finger, list[i].slot);
        assert es[k] == init[k];
      }
      assert es == init + [e];
    }
  }

  /** All three lists go by user, then finger; so none holds an entry twice. */
  lemma ListsAscend(p: Prints, count: byte, records: Records, r: SyncReport)
    requires ReportsOn(r, AllEntries(p), count, records)
    ensures Ascends(r.confirmed) && Ascends(r.unconfirmed) && Ascends(r.stale)
  {
    hide InBucket, Entries, Ascends, InOrder, Names.Leq;
    SortedStrictly(p.Keys);
    EntriesInOrder(p, Names.Sorted(p.Keys));
    BucketAscends(AllEntries(p), count, records, Confirmed);
    BucketAscends(AllEntries(p), count, records, Unconfirmed);
    BucketAscends(AllEntries(p), count, records, Stale);
  }

  // ---------- and from the bytes of the scan ----------

  predicate IsAnswer(answer: Option<seq<byte>>) {
    answer.Some? && (|answer.value| == 2 || |answer.value| == 70)
  }

  ghost predicate AllAnswered(scan: seq<Option<seq<byte>>>) {
    |scan| == 16 && forall i :: 0 <= i < 16 ==> IsAnswer(scan[i])
  }

  /** The bytes a slot was read as. */
  ghost function BytesOf(scan: seq<Option<seq<byte>>>, slot: byte): seq<byte> {
    if slot as int < |scan| && scan[slot].Some? then scan[slot].value else []
  }

  /** Each slot up to the last was read once, in order. */
  ghost predicate ScannedFrom(records: Records, scan: seq<Option<seq<byte>>>) {
    && |records| == 16 && AllAnswered(scan)
    && forall i: byte :: i < 16 ==> records[i].0 == i && Success(records[i].1) == ParseSlot(BytesOf(scan, i))
  }

  ghost predicate ReadsPresent(raw: seq<byte>) {
    |raw| == 70 && raw[1] != 0xff && raw[69] != 0xff
  }

  ghost predicate ReadsEmpty(raw: seq<byte>) {
    |raw| == 70 && raw[1] != 0xff && raw[69] == 0xff
  }

  ghost predicate ReadsStuck(raw: seq<byte>) {
    |raw| == 70 && raw[1] == 0xff
  }

  /** One entry of the report, told from the count and the bytes its slot was read as. */
  ghost predicate EntryTold(p: Prints, count: byte, scan: seq<Option<seq<byte>>>, r: SyncReport, s: EntryStatus) {
    var scanned := count != 0 && s.slot < 16;
    && (s in r.confirmed <==>
          Stored(p, s) && scanned && ReadsPresent(BytesOf(scan, s.slot)) && !s.stale && s.reason == RecordPresent)
    && (s in r.stale <==>
          Stored(p, s) && s.stale
          && ((count == 0 && s.reason == DeviceEmpty)
              || (scanned && ReadsEmpty(BytesOf(scan, s.slot)) && s.reason == RecordEmpty)))
    && (s in r.unconfirmed <==>
          Stored(p, s) && !s.stale && count != 0
          && ((s.slot >= 16 && s.reason == OutsideScan)
              || (scanned && ReadsStuck(BytesOf(scan, s.slot)) && s.reason == SensorStuck)
              || (scanned && |BytesOf(scan, s.slot)| == 2 && s.reason == TwoByteForm)))
  }

  /** The whole report, told from the count and the bytes of the scan. */
  ghost predicate ReportTold(p: Prints, count: byte, scan: seq<Option<seq<byte>>>, r: SyncReport) {
    && (forall s :: EntryTold(p, count, scan, r, s))
    && Ascends(r.confirmed) && Ascends(r.unconfirmed) && Ascends(r.stale)
    && WarningsTold(p, count, scan, |r.stale|, r.warnings)
  }

  /** More entries than the device counts come first, if so; then each untracked template, by slot. */
  ghost predicate WarningsTold(p: Prints, count: byte, scan: seq<Option<seq<byte>>>, stale: nat, ws: seq<Warning>) {
    if count == 0 then ws == []
    else
      var over := |Flat(p)| > count as int;
      && (over ==> ws != [] && ws[0] == OverCount(|Flat(p)|, count, stale))
      && (forall i :: (if over then 1 else 0) <= i < |ws| ==> ws[i].Untracked?)
      && (forall i, j :: (if over then 1 else 0) <= i < j < |ws| ==> ws[i].slot < ws[j].slot)
      && (forall slot: byte :: Untracked(slot) in ws <==>
            slot < 16 && ReadsPresent(BytesOf(scan, slot)) && slot !in Tracked(p))
  }

  lemma ScannedLast(records: Records, scan: seq<Option<seq<byte>>>, slot: byte)
    requires ScannedFrom(records, scan)
    ensures LastRecord(records, slot) == if slot < 16 then Some(records[slot].1) else None
    ensures ShowsTemplate(records, slot) <==> slot < 16 && records[slot].1.Enrolled?
  {
    hide ParseSlot, LastRecord;
    LastRecordIsLast(records, slot);
    assert forall i: byte :: i < 16 ==> records[i].0 == i;
    assert forall i: int :: 0 <= i < |records| ==> records[i].0 as int == i by {
      forall i: int | 0 <= i < |records|
        ensures records[i].0 as int == i
      {
        var b: byte := i;
        assert records[b].0 == b;
      }
    }
  }

  /** Warnings of untracked slots, by ascending slot. */
  ghost predicate SlotsAscend(ws: seq<Warning>) {
    && (forall i :: 0 <= i < |ws| ==> ws[i].Untracked?)
    && forall i, j :: 0 <= i < j < |ws| ==> ws[i].slot < ws[j].slot
  }

  ghost predicate RecordsAscend(records: Records) {
    forall i, j :: 0 <= i < j < |records| ==> records[i].0 < records[j].0
  }

  lemma {:induction false} UntrackedAscends(p: Prints, records: Records)
    requires RecordsAscend(records)
    ensures SlotsAscend(UntrackedIn(p, records))
    ensures forall w :: w in UntrackedIn(p, records) ==> exists k :: 0 <= k < |records| && w == Untracked(records[k].0)
    decreases |records|
  {
    hide Tracks;
    if records != [] {
      var init, last := records[..|records| - 1], records[|records| - 1];
      UntrackedAscends(p, init);
      var ws := UntrackedIn(p, init);
      forall i | 0 <= i < |ws|
        ensures ws[i].Untracked? && ws[i].slot < last.0
      {
        assert ws[i] in ws;
      }
      forall w | w in UntrackedIn(p, records)
        ensures exists k :: 0 <= k < |records| && w == Untracked(records[k].0)
      {
        if w in ws {
          var k :| 0 <= k < |init| && w == Untracked(init[k].0);
          assert records[k] == init[k];
        } else {
          assert w == Untracked(records[|records| - 1].0);
        }
      }
    }
  }

  lemma ReportIsTold(p: Prints, count: byte, records: Records, scan: seq<Option<seq<byte>>>, r: SyncReport)
    requires Answers(r, p, count, records)
    requires ScannedFrom(records, scan)
    ensures ReportTold(p, count, scan, r)
  {
    hide AllEntries, InBucket, Flat, Tracked, LastRecord, Ascends, ReportsOn, WarningsOf, WarningsTold;
    ListsAscend(p, count, records, r);
    forall s
      ensures EntryTold(p, count, scan, r, s)
    {
      ListsTold(p, count, records, r, s);
      ScannedLast(records, scan, s.slot);
    }
    WarningsAreTold(p, count, records, scan, r);
  }

  lemma WarningsAreTold(p: Prints, count: byte, records: Records, scan: seq<Option<seq<byte>>>, r: SyncReport)
    requires Answers(r, p, count, records)
    requires ScannedFrom(records, scan)
    ensures WarningsTold(p, count, scan, |r.stale|, r.warnings)
  {
    hide AllEntries, InBucket, Flat, Tracked, LastRecord, ReportsOn, UntrackedIn, ShowsTemplate;
    forall i: int | 0 <= i < |records|
      ensures records[i].0 as int == i
    {
      var b: byte := i;
      assert records[b].0 == b;
    }
    UntrackedAscends(p, records);
    forall slot: byte
      ensures Untracked(slot) in UntrackedIn(p, records) <==>
                slot < 16 && ReadsPresent(BytesOf(scan, slot)) && slot !in Tracked(p)
    {
      WarnsExactly(p, records, slot);
      ScannedLast(records, scan, slot);
    }
  }

  // ---------- pruning ----------

  ghost function Pruned(p: Prints, gone: seq<EntryStatus>): Prints {
    if gone == [] then p
    else Removed(Pruned(p, gone[..|gone| - 1]), gone[|gone| - 1].user, gone[|gone| - 1].finger)
  }

  ghost predicate NamedIn(gone: seq<EntryStatus>, u: string, f: string) {
    exists i :: 0 <= i < |gone| && gone[i].user == u && gone[i].finger == f
  }

  lemma {:induction false} PrunedLookup(p: Prints, gone: seq<EntryStatus>, u: string, f: string)
    ensures IsMapped(Pruned(p, gone), u, f) <==> IsMapped(p, u, f) && !NamedIn(gone, u, f)
    ensures IsMapped(Pruned(p, gone), u, f) ==> Pruned(p, gone)[u][f] == p[u][f]
    decreases |gone|
  {
    if gone != [] {
      var init, last := gone[..|gone| - 1], gone[|gone| - 1];
      PrunedLookup(p, init, u, f);
      RemovedLookup(Pruned(p, init), last.user, last.finger, u, f);
      assert NamedIn(gone, u, f) <==> NamedIn(init, u, f) || (last.user == u && last.finger == f) by {
        if NamedIn(init, u, f) {
          var i :| 0 <= i < |init| && init[i].user == u && init[i].finger == f;
          assert gone[i] == init[i];
        }
      }
    }
  }

  /**
   * sync: the count, the scan of all sixteen slots, the comparison, and with --prune the removal of what
   * was proven stale. A failed count, scan, load or save leaves the file alone.
   */
  method Sync(file: Prints, counted: Option<seq<byte>>, scan: seq<Option<seq<byte>>>, prune: bool, loads: bool,
              saves: bool)
    returns (report: Option<SyncReport>, ok: bool, after: Prints)
    requires |scan| == 16
    ensures report.Some? <==>
              counted.Some? && |counted.value| == 2 && AllAnswered(scan) && loads
    ensures ok <==> report.Some? && (saves || !prune || report.value.stale == [])
    ensures report.Some? ==>
              exists records :: ScannedFrom(records, scan) && Answers(report.value, file, counted.value[1], records)
    ensures report.Some? ==> ReportTold(file, counted.value[1], scan, report.value)
    ensures after == if ok && prune then Pruned(file, report.value.stale) else file
  {
    hide Answers, ReportTold;
    after := file;
    if counted.None? || Parse(EnrolledNum, counted.value).Failure? {
      return None, false, file;
    }
    var count := Parse(EnrolledNum, counted.value).value.count;
    var records: Records := [];
    for id := 0 to 16
      invariant |records| == id
      invariant forall i :: 0 <= i < id ==> IsAnswer(scan[i])
      invariant forall i: byte :: i < id ==> records[i].0 == i && Success(records[i].1) == ParseSlot(BytesOf(scan, i))
    {
      if scan[id].None? {
        return None, false, file;
      }
      match Parse(FingerInfo(id), scan[id].value) {
        case Failure(_) => return None, false, file;
        case Success(SlotIs(_, state)) => records := records + [(id, state)];
      }
    }
    if !loads {
      return None, false, file;
    }
    var compared := Compare(file, count, records);
    ReportIsTold(file, count, records, scan, compared);
    if prune && compared.stale != [] {
      var store := new PrintStore.Open(file);
      var i := 0;
      while i < |compared.stale|
        invariant 0 <= i <= |compared.stale|
        invariant store.prints == Pruned(file, compared.stale[..i])
      {
        assert compared.stale[..i + 1][..i] == compared.stale[..i];
        store.Remove(compared.stale[i].user, compared.stale[i].finger);
        i := i + 1;
      }
      assert compared.stale[..i] == compared.stale;
      if !saves {
        return Some(compared), false, file;
      }
      after := store.prints;
    }
    return Some(compared), true, after;
  }

  /** Pruning leaves exactly the entries not proven stale, untouched. */
  lemma PruneLeavesTheRest(p: Prints, count: byte, records: Records, r: SyncReport, u: string, f: string)
    requires ReportsOn(r, AllEntries(p), count, records)
    ensures
      var q := Pruned(p, r.stale);
      && (IsMapped(q, u, f) <==> IsMapped(p, u, f) && !ProvenStale(count, records, p[u][f]))
      && (IsMapped(q, u, f) ==> q[u][f] == p[u][f])
  {
    hide AllEntries, InBucket, Flat;
    PrunedLookup(p, r.stale, u, f);
    if IsMapped(p, u, f) {
      var s := StatusOf(count, records, u, f, p[u][f]);
      ReconcilePartitions(p, count, records, r, s);
      if s in r.stale {
        var i :| 0 <= i < |r.stale| && r.stale[i] == s;
        assert NamedIn(r.stale, u, f);
      }
      if NamedIn(r.stale, u, f) {
        var i :| 0 <= i < |r.stale| && r.stale[i].user == u && r.stale[i].finger == f;
        assert r.stale[i] in r.stale;
        ReconcilePartitions(p, count, records, r, r.stale[i]);
      }
    }
  }
}
