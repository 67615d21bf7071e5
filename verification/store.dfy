/** The print store (crates/elanprint-store/src/lib.rs): user to finger to slot. */
module Store {
  import opened Core
  import Names

  const MAX_SLOT: byte := 15

  const FINGER_NAMES: seq<string> := [
    "left-thumb", "left-index-finger", "left-middle-finger", "left-ring-finger", "left-little-finger",
    "right-thumb", "right-index-finger", "right-middle-finger", "right-ring-finger", "right-little-finger"
  ]

  predicate IsValidFinger(name: string) {
    name in FINGER_NAMES
  }

  type Fingers = map<string, byte>
  type Prints = map<string, Fingers>

  datatype StoreError =
    | Io
    | BadFinger(finger: string)
    | SlotTaken(slot: byte, user: string, finger: string)

  predicate IsMapped(p: Prints, user: string, finger: string) {
    user in p && finger in p[user]
  }

  /** The nested map seen as one flat map. */
  ghost function Flat(p: Prints): map<(string, string), byte> {
    map u, f | u in p && f in p[u] :: (u, f) := p[u][f]
  }

  ghost predicate SlotsUnique(p: Prints) {
    forall u, f, v, g :: IsMapped(p, u, f) && IsMapped(p, v, g) && p[u][f] == p[v][g] ==> u == v && f == g
  }

  ghost predicate NamesValid(p: Prints) {
    forall u, f :: IsMapped(p, u, f) ==> IsValidFinger(f)
  }

  ghost predicate NoEmptyUser(p: Prints) {
    forall u :: u in p ==> p[u] != map[]
  }

  ghost function Tracked(p: Prints): set<byte> {
    set u, f | u in p && f in p[u] :: p[u][f]
  }

  predicate Conflicts(p: Prints, user: string, finger: string, slot: byte, u: string, f: string) {
    IsMapped(p, u, f) && p[u][f] == slot && (u != user || f != finger)
  }

  ghost predicate IsTaken(p: Prints, user: string, finger: string, slot: byte) {
    exists u, f :: Conflicts(p, user, finger, slot, u, f)
  }

  /** The first entry in key order that holds the slot under another name. */
  ghost predicate IsFirstOwner(p: Prints, user: string, finger: string, slot: byte, u: string, f: string) {
    && Conflicts(p, user, finger, slot, u, f)
    && forall v, g :: Conflicts(p, user, finger, slot, v, g) ==> if v == u then Names.Leq(f, g) else Names.Leq(u, v)
  }

  lemma FirstOwnerExists(p: Prints, user: string, finger: string, slot: byte)
    requires IsTaken(p, user, finger, slot)
    ensures exists u, f :: IsFirstOwner(p, user, finger, slot, u, f)
  {
    var owners := set u | u in p && exists f :: Conflicts(p, user, finger, slot, u, f);
    var v, g :| Conflicts(p, user, finger, slot, v, g);
    assert v in owners;
    var u := Names.Least(owners);
    var held := set f | f in p[u] && Conflicts(p, user, finger, slot, u, f);
    var h :| Conflicts(p, user, finger, slot, u, h);
    assert h in held;
    assert IsFirstOwner(p, user, finger, slot, u, Names.Least(held));
  }

  lemma FirstOwnerUnique(p: Prints, user: string, finger: string, slot: byte, u: string, f: string, v: string,
                         g: string)
    requires IsFirstOwner(p, user, finger, slot, u, f) && IsFirstOwner(p, user, finger, slot, v, g)
    ensures u == v && f == g
  {
    if u != v {
      Names.Antisymmetric(u, v);
    }
    Names.Antisymmetric(f, g);
  }

  /** What Store::insert answers: an unknown name, or the first owner of the slot, or nothing. */
  ghost function InsertFault(p: Prints, user: string, finger: string, slot: byte): Option<StoreError> {
    if !IsValidFinger(finger) then Some(BadFinger(finger))
    else if IsTaken(p, user, finger, slot) then
      FirstOwnerExists(p, user, finger, slot);
      var u, f :| IsFirstOwner(p, user, finger, slot, u, f);
      Some(SlotTaken(slot, u, f))
    else None
  }

  function Inserted(p: Prints, user: string, finger: string, slot: byte): Prints {
    p[user := (if user in p then p[user] else map[])[finger := slot]]
  }

  function Removed(p: Prints, user: string, finger: string): Prints {
    if user !in p then p
    else
      var rest := p[user] - {finger};
      if rest == map[] then p - {user} else p[user := rest]
  }

  // ---------- the nested map refines a flat one ----------

  lemma FlatLookup(p: Prints, u: string, f: string)
    ensures (u, f) in Flat(p) <==> IsMapped(p, u, f)
    ensures IsMapped(p, u, f) ==> Flat(p)[(u, f)] == p[u][f]
  {
  }

  lemma InsertedLookup(p: Prints, user: string, finger: string, slot: byte, u: string, f: string)
    ensures IsMapped(Inserted(p, user, finger, slot), u, f) <==> IsMapped(p, u, f) || (u, f) == (user, finger)
    ensures IsMapped(Inserted(p, user, finger, slot), u, f) ==>
              Inserted(p, user, finger, slot)[u][f] == if (u, f) == (user, finger) then slot else p[u][f]
  {
  }

  lemma RemovedLookup(p: Prints, user: string, finger: string, u: string, f: string)
    ensures IsMapped(Removed(p, user, finger), u, f) <==> IsMapped(p, u, f) && (u, f) != (user, finger)
    ensures IsMapped(Removed(p, user, finger), u, f) ==> Removed(p, user, finger)[u][f] == p[u][f]
  {
    if user in p {
      var rest := p[user] - {finger};
      assert f in p[user] && f != finger ==> f in rest;
    }
  }

  lemma FlatInserted(p: Prints, user: string, finger: string, slot: byte)
    ensures Flat(Inserted(p, user, finger, slot)) == Flat(p)[(user, finger) := slot]
  {
    var left, right := Flat(Inserted(p, user, finger, slot)), Flat(p)[(user, finger) := slot];
    forall k
      ensures k in left <==> k in right
      ensures k in left ==> left[k] == right[k]
    {
      FlatLookup(p, k.0, k.1);
      FlatLookup(Inserted(p, user, finger, slot), k.0, k.1);
      InsertedLookup(p, user, finger, slot, k.0, k.1);
    }
  }

  lemma FlatRemoved(p: Prints, user: string, finger: string)
    ensures Flat(Removed(p, user, finger)) == Flat(p) - {(user, finger)}
  {
    var left, right := Flat(Removed(p, user, finger)), Flat(p) - {(user, finger)};
    forall k
      ensures k in left <==> k in right
      ensures k in left ==> left[k] == right[k]
    {
      FlatLookup(p, k.0, k.1);
      FlatLookup(Removed(p, user, finger), k.0, k.1);
      RemovedLookup(p, user, finger, k.0, k.1);
    }
  }

  /** Removing what was freshly inserted gives back the map, provided no user was left empty. */
  lemma RemoveUndoesInsert(p: Prints, user: string, finger: string, slot: byte)
    requires !IsMapped(p, user, finger) && NoEmptyUser(p)
    ensures Removed(Inserted(p, user, finger, slot), user, finger) == p
  {
    var q := Inserted(p, user, finger, slot);
    var before: Fingers := if user in p then p[user] else map[];
    assert q[user] - {finger} == before;
  }

  datatype Change = Insert(user: string, finger: string, slot: byte) | Remove(user: string, finger: string)

  /** What one call leaves in the store; a refused insert changes nothing. */
  ghost function Apply(p: Prints, c: Change): Prints {
    match c
    case Insert(u, f, s) => if IsValidFinger(f) && !IsTaken(p, u, f, s) then Inserted(p, u, f, s) else p
    case Remove(u, f) => Removed(p, u, f)
  }

  /** The same call on a plain (user, finger) -> slot map. */
  ghost function ApplyFlat(m: map<(string, string), byte>, c: Change): map<(string, string), byte> {
    match c
    case Insert(u, f, s) =>
      if IsValidFinger(f) && forall k :: k in m && m[k] == s ==> k == (u, f) then m[(u, f) := s] else m
    case Remove(u, f) => m - {(u, f)}
  }

  ghost function Replay(changes: seq<Change>): Prints {
    if changes == [] then map[] else Apply(Replay(changes[..|changes| - 1]), changes[|changes| - 1])
  }

  ghost function ReplayFlat(changes: seq<Change>): map<(string, string), byte> {
    if changes == [] then map[] else ApplyFlat(ReplayFlat(changes[..|changes| - 1]), changes[|changes| - 1])
  }

  lemma TakenInFlat(p: Prints, user: string, finger: string, slot: byte)
    ensures IsTaken(p, user, finger, slot) <==> exists k :: k in Flat(p) && Flat(p)[k] == slot && k != (user, finger)
  {
    if IsTaken(p, user, finger, slot) {
      var u, f :| Conflicts(p, user, finger, slot, u, f);
      FlatLookup(p, u, f);
    }
    if k :| k in Flat(p) && Flat(p)[k] == slot && k != (user, finger) {
      FlatLookup(p, k.0, k.1);
      assert Conflicts(p, user, finger, slot, k.0, k.1);
    }
  }

  ghost predicate Wellkept(p: Prints) {
    SlotsUnique(p) && NamesValid(p) && NoEmptyUser(p)
  }

  lemma InsertKeeps(p: Prints, user: string, finger: string, slot: byte)
    requires Wellkept(p) && IsValidFinger(finger) && !IsTaken(p, user, finger, slot)
    ensures Wellkept(Inserted(p, user, finger, slot))
  {
    var q := Inserted(p, user, finger, slot);
    forall u, f, v, g | IsMapped(q, u, f) && IsMapped(q, v, g) && q[u][f] == q[v][g]
      ensures u == v && f == g
    {
      InsertedLookup(p, user, finger, slot, u, f);
      InsertedLookup(p, user, finger, slot, v, g);
      assert !Conflicts(p, user, finger, slot, u, f) && !Conflicts(p, user, finger, slot, v, g);
    }
    forall u, f | IsMapped(q, u, f)
      ensures IsValidFinger(f)
    {
      InsertedLookup(p, user, finger, slot, u, f);
    }
    assert finger in q[user];
  }

  lemma RemoveKeepsUnique(p: Prints, user: string, finger: string)
    requires SlotsUnique(p)
    ensures SlotsUnique(Removed(p, user, finger))
  {
    var q := Removed(p, user, finger);
    forall u, f, v, g | IsMapped(q, u, f) && IsMapped(q, v, g) && q[u][f] == q[v][g]
      ensures u == v && f == g
    {
      RemovedLookup(p, user, finger, u, f);
      RemovedLookup(p, user, finger, v, g);
      assert IsMapped(p, u, f) && IsMapped(p, v, g) && p[u][f] == p[v][g];
    }
  }

  lemma RemoveKeepsNames(p: Prints, user: string, finger: string)
    requires NamesValid(p)
    ensures NamesValid(Removed(p, user, finger))
  {
    var q := Removed(p, user, finger);
    forall u, f | IsMapped(q, u, f)
      ensures IsValidFinger(f)
    {
      RemovedLookup(p, user, finger, u, f);
      assert IsMapped(p, u, f);
    }
  }

  lemma RemoveKeeps(p: Prints, user: string, finger: string)
    requires Wellkept(p)
    ensures Wellkept(Removed(p, user, finger))
  {
    hide SlotsUnique, NamesValid;
    RemoveKeepsUnique(p, user, finger);
    RemoveKeepsNames(p, user, finger);
  }

  lemma EmptyIsWellkept()
    ensures Flat(map[]) == map[] && Wellkept(map[])
  {
  }

  /** Any history of inserts and removes: the nested map is the flat one, and stays well kept. */
  lemma {:induction false} StoreRefinesFlatMap(changes: seq<Change>)
    ensures Flat(Replay(changes)) == ReplayFlat(changes)
    ensures Wellkept(Replay(changes))
  {
    hide Wellkept, Flat, IsTaken;
    if changes != [] {
      var before, c := changes[..|changes| - 1], changes[|changes| - 1];
      StoreRefinesFlatMap(before);
      var p := Replay(before);
      match c {
        case Insert(u, f, s) =>
          TakenInFlat(p, u, f, s);
          if IsValidFinger(f) && !IsTaken(p, u, f, s) {
            FlatInserted(p, u, f, s);
            InsertKeeps(p, u, f, s);
          }
        case Remove(u, f) =>
          FlatRemoved(p, u, f);
          RemoveKeeps(p, u, f);
      }
    } else {
      EmptyIsWellkept();
    }
  }

  // ---------- slots ----------

  function SlotsOf(fingers: Fingers, names: seq<string>): (slots: seq<byte>)
    requires forall f :: f in names ==> f in fingers
    ensures |slots| == |names|
    ensures forall i :: 0 <= i < |names| ==> slots[i] == fingers[names[i]]
  {
    if names == [] then [] else [fingers[names[0]]] + SlotsOf(fingers, names[1..])
  }

  function AllSlots(p: Prints, users: seq<string>): (slots: seq<byte>)
    requires forall u :: u in users ==> u in p
  {
    if users == [] then []
    else SlotsOf(p[users[0]], Names.Sorted(p[users[0]].Keys)) + AllSlots(p, users[1..])
  }

  ghost predicate SomeSlot(fingers: Fingers, s: byte) {
    exists f :: f in fingers && fingers[f] == s
  }

  lemma SlotsOfAll(fingers: Fingers, names: seq<string>, s: byte)
    requires forall f :: f in names <==> f in fingers
    ensures s in SlotsOf(fingers, names) <==> SomeSlot(fingers, s)
  {
  }

  ghost predicate UnderSome(p: Prints, users: seq<string>, s: byte) {
    exists u :: u in users && u in p && SomeSlot(p[u], s)
  }

  lemma UnderFirstOrRest(p: Prints, users: seq<string>, s: byte)
    requires users != [] && users[0] in p
    ensures UnderSome(p, users, s) <==> SomeSlot(p[users[0]], s) || UnderSome(p, users[1..], s)
  {
    assert users == [users[0]] + users[1..];
  }

  lemma {:induction false} AllSlotsAre(p: Prints, users: seq<string>, s: byte)
    requires forall u :: u in users ==> u in p
    ensures s in AllSlots(p, users) <==> UnderSome(p, users, s)
  {
    hide UnderSome, SomeSlot;
    if users != [] {
      SlotsOfAll(p[users[0]], Names.Sorted(p[users[0]].Keys), s);
      AllSlotsAre(p, users[1..], s);
      UnderFirstOrRest(p, users, s);
    } else {
      UnderNobody(p, s);
    }
  }

  lemma UnderNobody(p: Prints, s: byte)
    ensures !UnderSome(p, [], s)
  {
  }

  lemma TrackedAre(p: Prints, s: byte)
    ensures s in AllSlots(p, Names.Sorted(p.Keys)) <==> s in Tracked(p)
  {
    var users := Names.Sorted(p.Keys);
    AllSlotsAre(p, users, s);
    if s in Tracked(p) {
      var u, f :| u in p && f in p[u] && p[u][f] == s;
      assert u in users && SomeSlot(p[u], s);
    }
  }

  predicate Ascending(s: seq<byte>) {
    forall i, j :: 0 <= i < j < |s| ==> s[i] <= s[j]
  }

  predicate StrictlyAscending(s: seq<byte>) {
    forall i, j :: 0 <= i < j < |s| ==> s[i] < s[j]
  }

  function Place(b: byte, s: seq<byte>): (r: seq<byte>)
    requires Ascending(s)
    ensures Ascending(r)
    ensures forall x :: x in r <==> x == b || x in s
  {
    if s == [] then [b]
    else if b <= s[0] then [b] + s
    else
      var rest := Place(b, s[1..]);
      assert forall i :: 0 <= i < |rest| ==> rest[i] in rest;
      [s[0]] + rest
  }

  function Sort(s: seq<byte>): (r: seq<byte>)
    ensures Ascending(r)
    ensures forall x :: x in r <==> x in s
  {
    if s == [] then [] else Place(s[0], Sort(s[1..]))
  }

  function Dedup(s: seq<byte>): (r: seq<byte>)
    requires Ascending(s)
    ensures StrictlyAscending(r)
    ensures forall b :: b in r <==> b in s
    ensures s != [] ==> r != [] && r[0] == s[0]
  {
    if |s| <= 1 then s
    else
      assert s == [s[0]] + s[1..];
      var rest := Dedup(s[1..]);
      if s[0] == s[1] then rest
      else
        assert forall b :: b in rest ==> b in s[1..];
        [s[0]] + rest
  }

  /** Strictly ascending, and exactly the slots some user is mapped to. */
  function TrackedSlots(p: Prints): (slots: seq<byte>)
    ensures StrictlyAscending(slots)
    ensures forall s :: s in slots <==> s in Tracked(p)
  {
    assert forall s :: s in AllSlots(p, Names.Sorted(p.Keys)) <==> s in Tracked(p) by {
      forall s
        ensures s in AllSlots(p, Names.Sorted(p.Keys)) <==> s in Tracked(p)
      {
        TrackedAre(p, s);
      }
    }
    Dedup(Sort(AllSlots(p, Names.Sorted(p.Keys))))
  }

  function WritableSlots(count: byte, tracked: seq<byte>): (slots: seq<byte>)
    ensures StrictlyAscending(slots)
    ensures forall s :: s in slots <==> count <= s <= MAX_SLOT && s !in tracked
    decreases 16 - count
  {
    if count > MAX_SLOT then []
    else
      var rest := WritableSlots(count + 1, tracked);
      assert forall i :: 0 <= i < |rest| ==> rest[i] in rest;
      if count in tracked then rest else [count] + rest
  }

  // ---------- the name a slot is reported under ----------

  /**
   * The slot's finger once the name-to-slot map is turned around: when names share a slot, the last one
   * in key order survives.
   */
  function NameOf(mine: Fingers, slot: byte): (name: string)
    requires slot in mine.Values
    ensures name in mine && mine[name] == slot
    ensures forall f :: f in mine && mine[f] == slot ==> Names.Leq(f, name)
  {
    var named := set f | f in mine && mine[f] == slot;
    assert named != {} by {
      var f :| f in mine && mine[f] == slot;
      assert f in named;
    }
    Names.Greatest(named)
  }
}
