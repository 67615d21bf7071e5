/** The Store object: insert and remove update the nested map in place. */
module StoreObject {
  import opened Core
  import opened Store
  import Names

  lemma OwnerIsFault(p: Prints, user: string, finger: string, slot: byte, u: string, f: string)
    requires IsValidFinger(finger) && IsFirstOwner(p, user, finger, slot, u, f)
    ensures InsertFault(p, user, finger, slot) == Some(SlotTaken(slot, u, f))
  {
    hide IsFirstOwner;
    assert IsTaken(p, user, finger, slot) by {
      OwnerConflicts(p, user, finger, slot, u, f);
    }
    var v, g := InsertFault(p, user, finger, slot).value.user, InsertFault(p, user, finger, slot).value.finger;
    FirstOwnerUnique(p, user, finger, slot, u, f, v, g);
  }

  lemma OwnerConflicts(p: Prints, user: string, finger: string, slot: byte, u: string, f: string)
    requires IsFirstOwner(p, user, finger, slot, u, f)
    ensures Conflicts(p, user, finger, slot, u, f)
  {
  }

  class PrintStore {
    var prints: Prints

    constructor Open(prints: Prints)
      ensures this.prints == prints
    {
      this.prints := prints;
    }

    /** Refused exactly for an unknown name or a slot mapped elsewhere; the refusal names the first owner. */
    method Insert(user: string, finger: string, slot: byte) returns (r: Result<(), StoreError>)
      modifies this
      ensures r.Success? <==> IsValidFinger(finger) && !IsTaken(old(prints), user, finger, slot)
      ensures r.Success? ==> prints == Inserted(old(prints), user, finger, slot)
      ensures r.Failure? ==> prints == old(prints) && InsertFault(old(prints), user, finger, slot) == Some(r.error)
    {
      if !IsValidFinger(finger) {
        return Failure(BadFinger(finger));
      }
      var owner := FindOwner(user, finger, slot);
      if owner.Some? {
        OwnerIsFault(prints, user, finger, slot, owner.value.0, owner.value.1);
        return Failure(SlotTaken(slot, owner.value.0, owner.value.1));
      }
      var mine: Fingers := map[];
      if user in prints {
        mine := prints[user];
      }
      prints := prints[user := mine[finger := slot]];
      return Success(());
    }

    /** The two nested loops of insert: the first conflicting entry in key order. */
    method FindOwner(user: string, finger: string, slot: byte) returns (owner: Option<(string, string)>)
      ensures owner.Some? ==> IsFirstOwner(prints, user, finger, slot, owner.value.0, owner.value.1)
      ensures owner.None? ==> !IsTaken(prints, user, finger, slot)
    {
      var users := Names.Sorted(prints.Keys);
      for i := 0 to |users|
        invariant forall j, f :: 0 <= j < i ==> !Conflicts(prints, user, finger, slot, users[j], f)
      {
        var name := FindUnder(users[i], user, finger, slot);
        if name.Some? {
          forall v, g | Conflicts(prints, user, finger, slot, v, g)
            ensures if v == users[i] then Names.Leq(name.value, g) else Names.Leq(users[i], v)
          {
            assert v in users;
            var j :| 0 <= j < |users| && users[j] == v;
            if i < j {
              Names.SortedAscends(prints.Keys, i, j);
            }
          }
          return Some((users[i], name.value));
        }
      }
      forall u, f
        ensures !Conflicts(prints, user, finger, slot, u, f)
      {
        if u in prints {
          assert u in users;
        }
      }
      return None;
    }

    method FindUnder(u: string, user: string, finger: string, slot: byte) returns (name: Option<string>)
      requires u in prints
      ensures name.Some? ==> Conflicts(prints, user, finger, slot, u, name.value)
      ensures forall f :: Conflicts(prints, user, finger, slot, u, f) ==> name.Some? && Names.Leq(name.value, f)
    {
      var names := Names.Sorted(prints[u].Keys);
      for k := 0 to |names|
        invariant forall j :: 0 <= j < k ==> !Conflicts(prints, user, finger, slot, u, names[j])
      {
        var f := names[k];
        if prints[u][f] == slot && (u != user || f != finger) {
          forall g | Conflicts(prints, user, finger, slot, u, g)
            ensures Names.Leq(f, g)
          {
            assert g in names;
            var j :| 0 <= j < |names| && names[j] == g;
            Names.Total(f, f);
            if k < j {
              Names.SortedAscends(prints[u].Keys, k, j);
            }
          }
          return Some(f);
        }
      }
      forall f
        ensures !Conflicts(prints, user, finger, slot, u, f)
      {
        if f in prints[u] {
          assert f in names;
        }
      }
      return None;
    }

    method Remove(user: string, finger: string)
      modifies this
      ensures prints == Removed(old(prints), user, finger)
    {
      if user in prints {
        prints := prints[user := prints[user] - {finger}];
        if prints[user] == map[] {
          prints := prints - {user};
        }
      }
    }
  }
}
