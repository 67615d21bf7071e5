/**
 * Rotating the keyring key (crates/elanprint-keyring-setup/src/lib.rs, main.rs), observed after every
 * single write, so that a crash may fall between any two of them.
 */
module Rotation {
  import opened Core

  /** A secret on disk. Overwriting one passes through Torn. */
  datatype Slot = Absent | Torn | Holds(secret: string)

  datatype File = Cred | Prev | Recovery

  /** The sealed credential, its previous copy, the recovery file, and the keyring's own password. */
  datatype K = K(cred: Slot, prev: Slot, recovery: Slot, keyring: string)

  /** How one privileged step fares. An exhausted script lets every step complete. */
  datatype Fate = Fails | Tears | Completes

  /** The files with the rest of the script and every state a crash could have left so far. */
  datatype T = T(k: K, env: seq<Fate>, seen: seq<K>)

  function Put(k: K, f: File, s: Slot): K {
    match f
    case Cred => k.(cred := s)
    case Prev => k.(prev := s)
    case Recovery => k.(recovery := s)
  }

  function Get(k: K, f: File): Slot {
    match f
    case Cred => k.cred
    case Prev => k.prev
    case Recovery => k.recovery
  }

  /** One file is torn, or a torn one gets its contents, or the keyring alone changes its password. */
  ghost predicate OneWrite(a: K, b: K) {
    || (exists f :: b == Put(a, f, Torn))
    || (exists f :: Get(a, f) == Torn && b == Put(a, f, Get(b, f)))
    || b == a.(keyring := b.keyring)
  }

  function NextFate(t: T): Fate {
    if t.env == [] then Completes else t.env[0]
  }

  function Spent(t: T): T {
    t.(env := if t.env == [] then [] else t.env[1..])
  }

  function Now(t: T, k: K): T {
    t.(k := k, seen := t.seen + [k])
  }

  /** A step that writes nothing, such as unsealing, verifying or changing a mode. */
  function Attempt(t: T): (T, bool) {
    (Spent(t), NextFate(t) == Completes)
  }

  function WriteFile(t: T, f: File, s: Slot): (T, bool) {
    var t1 := Spent(t);
    match NextFate(t)
    case Fails => (t1, false)
    case Tears => (Now(t1, Put(t.k, f, Torn)), false)
    case Completes => (Now(Now(t1, Put(t.k, f, Torn)), Put(t.k, f, s)), true)
  }

  function Unseals(s: Slot): bool {
    s.Holds? && s.secret != ""
  }

  function Unseal(t: T): (T, Option<string>) {
    var (t1, ok) := Attempt(t);
    (t1, if ok && Unseals(t.k.cred) then Some(t.k.cred.secret) else None)
  }

  function CopyFile(t: T, from: Slot, f: File): (T, bool) {
    if from.Absent? then (t, false) else WriteFile(t, f, from)
  }

  /** Seal, then set the mode. */
  function Seal(t: T, secret: string): (T, bool) {
    var (t1, ok) := WriteFile(t, Cred, Holds(secret));
    if !ok then (t1, false) else Attempt(t1)
  }

  function VerifySeal(t: T, secret: string): (T, bool) {
    var (t1, ok) := Attempt(t);
    (t1, ok && t.k.cred == Holds(secret))
  }

  function WriteRecovery(t: T, secret: string): (T, bool) {
    var (t1, ok) := WriteFile(t, Recovery, Holds(secret));
    if !ok then (t1, false) else Attempt(t1)
  }

  /** rotate_seal: the old secret, once the new one is sealed and proven. */
  function RotateSeal(t: T, newKey: string): (T, Option<string>) {
    var (t1, oldKey) := Unseal(t);
    if oldKey.None? then (t1, None)
    else
      var (t2, copied) := CopyFile(t1, t1.k.cred, Prev);
      if !copied then (t2, None)
      else
        var (t3, sealed) := Seal(t2, newKey);
        if !sealed then (t3, None)
        else
          var (t4, verified) := VerifySeal(t3, newKey);
          if !verified then (t4, None)
          else
            var (t5, written) := WriteRecovery(t4, newKey);
            (t5, if written then oldKey else None)
  }

  function Rollback(t: T): (T, bool) {
    var (t1, copied) := CopyFile(t, t.k.prev, Cred);
    if !copied then (t1, false)
    else
      var (t2, secret) := Unseal(t1);
      if secret.None? then (t2, false) else WriteRecovery(t2, secret.value)
  }

  /** The keyring changes its password entirely or not at all, and only for whoever knows it. */
  function ChangePassword(t: T, oldKey: string, newKey: string): (T, bool) {
    var (t1, ok) := Attempt(t);
    if ok && t.k.keyring == oldKey then (Now(t1, t.k.(keyring := newKey)), true) else (t1, false)
  }

  /** How a rotation ends: given up while sealing, done, or refused with the rollback's own result. */
  datatype Ending = GaveUp | Rotated | Refused(restored: bool)

  function Rotate(t: T, newKey: string): (T, Ending) {
    var (t1, oldKey) := RotateSeal(t, newKey);
    if oldKey.None? then (t1, GaveUp)
    else
      var (t2, changed) := ChangePassword(t1, oldKey.value, newKey);
      if changed then (t2, Rotated)
      else
        var (t3, restored) := Rollback(t2);
        (t3, Refused(restored))
  }

  function From(k: K, env: seq<Fate>): T {
    T(k, env, [k])
  }

  // ---------- no crash point loses the key ----------

  /** The keyring's password can still be unsealed or recovered from the previous copy. */
  predicate Held(k: K) {
    k.cred == Holds(k.keyring) || k.prev == Holds(k.keyring)
  }

  ghost predicate AlwaysHeld(t: T) {
    Held(t.k) && forall i :: 0 <= i < |t.seen| ==> Held(t.seen[i])
  }

  /** One rotation from a synced state, every fate of every step: the key is held at every crash point. */
  lemma RotationNeverLosesTheKey(k: K, newKey: string, env: seq<Fate>)
    requires k.cred == Holds(k.keyring)
    ensures AlwaysHeld(Rotate(From(k, env), newKey).0)
  {
    RotateKeepsHeld(From(k, env), newKey);
  }

  /** Whatever came before, a rotation from a safe state adds no crash point that loses the key. */
  lemma RotateKeepsHeld(t: T, newKey: string)
    requires AlwaysHeld(t) && SafeToRotate(t.k)
    ensures AlwaysHeld(Rotate(t, newKey).0)
  {
    if t.k.cred == Holds(t.k.keyring) {
      SealingKeepsHeld(t, newKey);
      var (t1, oldKey) := RotateSeal(t, newKey);
      hide RotateSeal;
      if oldKey.Some? {
        var (t2, changed) := ChangePassword(t1, oldKey.value, newKey);
        if !changed {
          RollbackKeepsHeld(t2);
        }
      }
    } else {
      assert RotateSeal(t, newKey) == (Spent(t), None);
    }
  }

  /** Once the previous copy holds the password, overwriting anything else keeps it. */
  lemma WriteKeepsPrev(t: T, f: File, s: Slot)
    requires AlwaysHeld(t) && t.k.prev == Holds(t.k.keyring) && f != Prev
    ensures
      var t' := WriteFile(t, f, s).0;
      AlwaysHeld(t') && t'.k.prev == t.k.prev && t'.k.keyring == t.k.keyring
  {
  }

  lemma SealingKeepsHeld(t: T, newKey: string)
    requires AlwaysHeld(t) && t.k.cred == Holds(t.k.keyring)
    ensures
      var (t', oldKey) := RotateSeal(t, newKey);
      && AlwaysHeld(t') && t'.k.keyring == t.k.keyring
      && (oldKey.Some? ==>
            oldKey.value == t.k.keyring && t'.k.prev == Holds(t.k.keyring)
            && t'.k.cred == Holds(newKey) && t'.k.recovery == Holds(newKey))
  {
    hide WriteFile, AlwaysHeld;
    var (t1, oldKey) := Unseal(t);
    SpentKeeps(t);
    if oldKey.Some? {
      CopyKeepsHeld(t1);
      var (t2, copied) := WriteFile(t1, Prev, t1.k.cred);
      if copied {
        SealKeepsPrev(t2, newKey);
        var (t3, sealed) := Seal(t2, newKey);
        if sealed {
          var (t4, verified) := VerifySeal(t3, newKey);
          SpentKeeps(t3);
          if verified {
            RecoveryKeepsPrev(t4, newKey);
          }
        }
      }
    }
  }

  /** Sealed under the new key, the old password one copy back. */
  predicate IsSealed(k: K, newKey: string) {
    k.cred == Holds(newKey) && k.recovery == Holds(newKey) && k.prev == Holds(k.keyring)
  }

  lemma SpentKeeps(t: T)
    requires AlwaysHeld(t)
    ensures AlwaysHeld(Spent(t))
  {
  }

  lemma CopyKeepsHeld(t: T)
    requires AlwaysHeld(t) && t.k.cred == Holds(t.k.keyring)
    ensures
      var (t', copied) := WriteFile(t, Prev, t.k.cred);
      && AlwaysHeld(t') && t'.k.cred == t.k.cred && t'.k.keyring == t.k.keyring
      && (copied ==> t'.k.prev == Holds(t.k.keyring))
  {
  }

  lemma SealKeepsPrev(t: T, newKey: string)
    requires AlwaysHeld(t) && t.k.prev == Holds(t.k.keyring)
    ensures
      var (t', ok) := Seal(t, newKey);
      && AlwaysHeld(t') && t'.k.prev == t.k.prev && t'.k.keyring == t.k.keyring
      && (ok ==> t'.k.cred == Holds(newKey))
  {
    WriteKeepsPrev(t, Cred, Holds(newKey));
  }

  lemma RecoveryKeepsPrev(t: T, secret: string)
    requires AlwaysHeld(t) && t.k.prev == Holds(t.k.keyring)
    ensures
      var (t', ok) := WriteRecovery(t, secret);
      && AlwaysHeld(t') && t'.k.prev == t.k.prev && t'.k.keyring == t.k.keyring && t'.k.cred == t.k.cred
      && (ok ==> t'.k.recovery == Holds(secret))
  {
    WriteKeepsPrev(t, Recovery, Holds(secret));
  }

  lemma RollbackKeepsHeld(t: T)
    requires AlwaysHeld(t) && t.k.prev == Holds(t.k.keyring)
    ensures
      var (t', ok) := Rollback(t);
      && AlwaysHeld(t') && t'.k.keyring == t.k.keyring
      && (ok ==> t'.k.cred == Holds(t.k.keyring) && t'.k.recovery == Holds(t.k.keyring))
  {
    WriteKeepsPrev(t, Cred, t.k.prev);
    var (t1, copied) := CopyFile(t, t.k.prev, Cred);
    if copied {
      hide WriteFile, AlwaysHeld;
      var (t2, secret) := Unseal(t1);
      SpentKeeps(t1);
      if secret.Some? {
        RecoveryKeepsPrev(t2, secret.value);
      }
    }
  }

  /** How a rotation from a synced state leaves things. */
  lemma RotationEnds(k: K, newKey: string, env: seq<Fate>)
    requires k.cred == Holds(k.keyring)
    ensures
      var (t, ending) := Rotate(From(k, env), newKey);
      && (ending == Rotated ==> t.k == K(Holds(newKey), Holds(k.keyring), Holds(newKey), newKey))
      && (ending != Rotated ==> t.k.keyring == k.keyring)
      && (ending == Refused(true) ==> t.k.cred == k.cred && t.k.recovery == Holds(k.keyring))
  {
    var t := From(k, env);
    SealingKeepsHeld(t, newKey);
    var (t1, oldKey) := RotateSeal(t, newKey);
    hide RotateSeal;
    if oldKey.Some? {
      var (t2, changed) := ChangePassword(t1, oldKey.value, newKey);
      if !changed {
        RollbackKeepsHeld(t2);
      }
    }
  }

  // ---------- exactly how a rotation ends ----------

  /** The next n steps all complete; an exhausted script completes. */
  ghost predicate AllComplete(env: seq<Fate>, n: nat) {
    forall i :: 0 <= i < n && i < |env| ==> env[i] == Completes
  }

  ghost function After(env: seq<Fate>, n: nat): seq<Fate> {
    if n <= |env| then env[n..] else []
  }

  lemma OneStep(t: T, n: nat)
    requires n > 0
    ensures AllComplete(t.env, n) <==> NextFate(t) == Completes && AllComplete(Spent(t).env, n - 1)
    ensures After(Spent(t).env, n - 1) == After(t.env, n)
  {
    var rest := Spent(t).env;
    assert AllComplete(rest, n - 1) ==> forall i :: 1 <= i < n && i < |t.env| ==> t.env[i] == rest[i - 1];
    assert AllComplete(t.env, n) ==> forall i :: 0 <= i < n - 1 && i < |rest| ==> rest[i] == t.env[i + 1];
  }

  lemma NoStep(env: seq<Fate>)
    ensures AllComplete(env, 0) && After(env, 0) == env
  {
  }

  /** One write of a file: it goes through exactly when its step completes, and touches no other file. */
  lemma WriteExactly(t: T, f: File, s: Slot)
    ensures
      var (t', ok) := WriteFile(t, f, s);
      && (ok <==> NextFate(t) == Completes) && t'.env == Spent(t).env
      && t'.k == (match NextFate(t) case Fails => t.k case Tears => Put(t.k, f, Torn) case Completes => Put(t.k, f, s))
  {
  }

  /** A file write and the step after it. */
  lemma WriteThenStep(t: T, f: File, s: Slot, n: nat)
    requires n >= 2
    ensures
      var (t1, ok) := WriteFile(t, f, s);
      && (ok && NextFate(t1) == Completes && AllComplete(Spent(t1).env, n - 2) <==> AllComplete(t.env, n))
      && (ok ==> After(Spent(t1).env, n - 2) == After(t.env, n))
      && (ok ==> t1.k == Put(t.k, f, s))
      && (!ok ==> t1.k == t.k || t1.k == Put(t.k, f, Torn))
  {
    hide WriteFile, AllComplete, After;
    WriteExactly(t, f, s);
    OneStep(t, n);
    var t1 := WriteFile(t, f, s).0;
    OneStep(t1, n - 1);
    SameSpent(t, t1, n - 1);
  }

  lemma SameSpent(t: T, t1: T, n: nat)
    requires t1.env == Spent(t).env
    ensures After(t1.env, n) == After(Spent(t).env, n) && (AllComplete(t1.env, n) <==> AllComplete(Spent(t).env, n))
  {
  }

  /** Sealing hands the old secret out exactly when its seven steps complete, and has then written all three files. */
  lemma SealingExactly(t: T, newKey: string)
    requires Unseals(t.k.cred)
    ensures
      var (t', oldKey) := RotateSeal(t, newKey);
      && (oldKey.Some? <==> AllComplete(t.env, 7))
      && (oldKey.Some? ==> oldKey.value == t.k.cred.secret && t'.env == After(t.env, 7)
                           && t'.k == K(Holds(newKey), t.k.cred, Holds(newKey), t.k.keyring))
      && t'.k.keyring == t.k.keyring
      && (!AllComplete(t.env, 2) ==> t'.k.cred == t.k.cred)
      && (!AllComplete(t.env, 5) ==> t'.k.recovery == t.k.recovery)
  {
    hide WriteFile, AllComplete, After;
    Fewer(t.env, 2, 5);
    Fewer(t.env, 5, 7);
    OneStep(t, 7);
    OneStep(t, 5);
    OneStep(t, 2);
    var (t1, oldKey) := Unseal(t);
    if oldKey.Some? {
      CopyExactly(t1, newKey);
    }
  }

  lemma Fewer(env: seq<Fate>, m: nat, n: nat)
    requires m <= n
    ensures AllComplete(env, n) ==> AllComplete(env, m)
  {
  }

  /** The six steps after the unsealing. */
  lemma CopyExactly(t: T, newKey: string)
    requires Unseals(t.k.cred)
    ensures
      var (t2, copied) := CopyFile(t, t.k.cred, Prev);
      var (t3, sealed) := Seal(t2, newKey);
      var (t4, verified) := VerifySeal(t3, newKey);
      var (t5, written) := WriteRecovery(t4, newKey);
      && (copied && sealed && verified && written <==> AllComplete(t.env, 6))
      && (copied && sealed && verified <==> AllComplete(t.env, 4))
      && (copied <==> AllComplete(t.env, 1))
      && (copied && sealed && verified && written ==>
            t5.env == After(t.env, 6) && t5.k == K(Holds(newKey), t.k.cred, Holds(newKey), t.k.keyring))
      && t2.k.cred == t.k.cred && t2.k.recovery == t.k.recovery && t2.k.keyring == t.k.keyring
      && t3.k.recovery == t.k.recovery && t3.k.keyring == t.k.keyring
      && t4.k.recovery == t.k.recovery && t4.k.keyring == t.k.keyring && t5.k.keyring == t.k.keyring
  {
    hide WriteFile, AllComplete, After;
    var (t2, copied) := CopyFile(t, t.k.cred, Prev);
    WriteExactly(t, Prev, t.k.cred);
    OneStep(t, 6);
    OneStep(t, 4);
    OneStep(t, 1);
    NoStep(Spent(t).env);
    var (t3, sealed) := Seal(t2, newKey);
    WriteThenStep(t2, Cred, Holds(newKey), 5);
    WriteThenStep(t2, Cred, Holds(newKey), 3);
    var (t4, verified) := VerifySeal(t3, newKey);
    OneStep(t3, 3);
    OneStep(t3, 1);
    NoStep(Spent(t3).env);
    var (t5, written) := WriteRecovery(t4, newKey);
    WriteThenStep(t4, Recovery, Holds(newKey), 2);
    NoStep(t5.env);
  }

  /** Rolling back restores credential and recovery file exactly when its four steps complete. */
  lemma RollbackExactly(t: T)
    requires Unseals(t.k.prev)
    ensures
      var (t', ok) := Rollback(t);
      && (ok <==> AllComplete(t.env, 4))
      && (ok ==> t'.k == K(t.k.prev, t.k.prev, t.k.prev, t.k.keyring))
      && t'.k.keyring == t.k.keyring
  {
    hide WriteFile, AllComplete, After;
    WriteExactly(t, Cred, t.k.prev);
    OneStep(t, 4);
    var t1 := CopyFile(t, t.k.prev, Cred).0;
    OneStep(t1, 3);
    SameSpent(t, t1, 3);
    var (t2, secret) := Unseal(t1);
    if secret.Some? {
      WriteThenStep(t2, Recovery, Holds(secret.value), 2);
      NoStep(WriteRecovery(t2, secret.value).0.env);
    }
    WriteExactly(t2, Recovery, Holds(t.k.prev.secret));
  }

  /**
   * From a synced state: the rotation is done exactly when all eight steps complete (unseal, copy, seal,
   * mode, verify, recovery file, mode, re-key), refused exactly when only the re-key does not, and given up
   * otherwise; a refusal is rolled back exactly when the four steps after it complete. An empty secret
   * does not unseal.
   */
  lemma RotationEndsExactlyWhen(k: K, newKey: string, env: seq<Fate>)
    requires k.cred == Holds(k.keyring)
    ensures
      var (t, ending) := Rotate(From(k, env), newKey);
      && (ending == Rotated <==> k.keyring != "" && AllComplete(env, 8))
      && (ending.Refused? <==> k.keyring != "" && AllComplete(env, 7) && !AllComplete(env, 8))
      && (ending == Refused(true) ==> t.k == K(k.cred, k.cred, k.cred, k.keyring))
      && (ending.Refused? ==> (ending.restored <==> AllComplete(After(env, 8), 4)))
      && (ending == GaveUp && !AllComplete(env, 2) ==> t.k.cred == k.cred)
      && (ending == GaveUp && !AllComplete(env, 5) ==> t.k.recovery == k.recovery)
  {
    hide Rotate, AllComplete, After;
    RotateExactly(From(k, env), newKey);
  }

  lemma RotateExactly(t: T, newKey: string)
    requires t.k.cred == Holds(t.k.keyring)
    ensures
      var k, env := t.k, t.env;
      var (t', ending) := Rotate(t, newKey);
      && (ending == Rotated <==> k.keyring != "" && AllComplete(env, 8))
      && (ending.Refused? <==> k.keyring != "" && AllComplete(env, 7) && !AllComplete(env, 8))
      && (ending == Rotated ==> t'.k.keyring == newKey)
      && (ending != Rotated ==> t'.k.keyring == k.keyring)
      && (ending == Refused(true) ==> t'.k == K(k.cred, k.cred, k.cred, k.keyring))
      && (ending.Refused? ==> (ending.restored <==> AllComplete(After(env, 8), 4)))
      && (ending == GaveUp && !AllComplete(env, 2) ==> t'.k.cred == k.cred)
      && (ending == GaveUp && !AllComplete(env, 5) ==> t'.k.recovery == k.recovery)
  {
    hide RotateSeal, Rollback, AllComplete, After;
    if t.k.keyring == "" {
      EmptyStays(t, newKey);
      return;
    }
    SealingExactly(t, newKey);
    var (t1, oldKey) := RotateSeal(t, newKey);
    Fewer(t.env, 7, 8);
    if oldKey.Some? {
      OneMoreStep(t.env, 7);
      OneStep(t1, 1);
      NoStep(Spent(t1).env);
      var (t2, changed) := ChangePassword(t1, oldKey.value, newKey);
      if !changed {
        RollbackExactly(t2);
      }
    }
  }

  lemma EmptyStays(t: T, newKey: string)
    requires t.k.cred == Holds("")
    ensures Rotate(t, newKey) == (Spent(t), GaveUp)
  {
  }

  lemma OneMoreStep(env: seq<Fate>, n: nat)
    ensures AllComplete(env, n + 1) <==> AllComplete(env, n) && AllComplete(After(env, n), 1)
    ensures After(After(env, n), 1) == After(env, n + 1)
    ensures forall t: T :: t.env == After(env, n) ==> Spent(t).env == After(env, n + 1)
  {
    assert n < |env| ==> After(env, n)[0] == env[n];
  }

  // ---------- exactly when a rotation is safe ----------

  /** The credential unseals to the keyring's password, or does not unseal at all. */
  predicate SafeToRotate(k: K) {
    k.cred == Holds(k.keyring) || !Unseals(k.cred)
  }

  /**
   * Starting with the password held somewhere, every crash point of every rotation keeps it exactly
   * when the state is safe to rotate from.
   */
  lemma RotationSafeExactlyWhen(k: K)
    requires Held(k)
    ensures (forall newKey, env :: AlwaysHeld(Rotate(From(k, env), newKey).0)) <==> SafeToRotate(k)
  {
    if SafeToRotate(k) {
      forall newKey, env
        ensures AlwaysHeld(Rotate(From(k, env), newKey).0)
      {
        RotateKeepsHeld(From(k, env), newKey);
      }
    } else {
      UnsyncedRotationLoses(k);
    }
  }

  lemma UnsyncedRotationLoses(k: K)
    requires Unseals(k.cred) && k.cred != Holds(k.keyring)
    ensures !AlwaysHeld(Rotate(From(k, []), "x").0)
  {
  }

  /** A rotation given up after sealing leaves a held but unsafe state: the next one can lose the key. */
  lemma GivenUpRotationIsUnsafe(k: K, newKey: string)
    requires k.cred == Holds(k.keyring) && k.keyring != "" && newKey != "" && newKey != k.keyring
    ensures
      var (t, ending) := Rotate(From(k, [Completes, Completes, Completes, Completes, Fails]), newKey);
      ending == GaveUp && Held(t.k) && !SafeToRotate(t.k)
  {
  }
}

/** The same steps on the files themselves. */
module RotationObject {
  import opened Core
  import opened Rotation
  import Spec = Rotation

  class KeyFiles {
    var cred: Slot
    var prev: Slot
    var recovery: Slot
    var keyring: string
    var env: seq<Fate>
    ghost var seen: seq<K>

    ghost function Model(): T
      reads this
    {
      T(K(cred, prev, recovery, keyring), env, seen)
    }

    /** The last state a crash could have left is the present one, and one write led to each from the one before. */
    ghost predicate Valid()
      reads this
    {
      && seen != [] && seen[|seen| - 1] == K(cred, prev, recovery, keyring)
      && forall i :: 0 < i < |seen| ==> OneWrite(seen[i - 1], seen[i])
    }

    constructor (k: K, env: seq<Fate>)
      ensures Model() == From(k, env) && Valid()
    {
      cred, prev, recovery, keyring := k.cred, k.prev, k.recovery, k.keyring;
      this.env, seen := env, [k];
    }

    method Attempt() returns (ok: bool)
      requires Valid()
      modifies this`env
      ensures Valid()
      ensures (Model(), ok) == Spec.Attempt(old(Model()))
    {
      ok := env == [] || env[0] == Completes;
      env := if env == [] then [] else env[1..];
    }

    method Set(f: File, s: Slot)
      requires Valid() && (s == Torn || Get(Model().k, f) == Torn)
      modifies this
      ensures Valid()
      ensures keyring == old(keyring) && Model() == Now(old(Model()), Put(old(Model()).k, f, s))
    {
      match f {
        case Cred => cred := s;
        case Prev => prev := s;
        case Recovery => recovery := s;
      }
      ghost var was, now := seen[|seen| - 1], Model().k;
      seen := seen + [now];
      assert now == Put(was, f, s) && Get(now, f) == s;
    }

    method WriteFile(f: File, s: Slot) returns (ok: bool)
      requires Valid()
      modifies this
      ensures Valid()
      ensures keyring == old(keyring) && (Model(), ok) == Spec.WriteFile(old(Model()), f, s)
    {
      var fate := if env == [] then Completes else env[0];
      env := if env == [] then [] else env[1..];
      if fate != Fails {
        Set(f, Torn);
      }
      if fate == Completes {
        Set(f, s);
      }
      ok := fate == Completes;
    }

    method Unseal() returns (secret: Option<string>)
      requires Valid()
      modifies this`env
      ensures Valid()
      ensures (Model(), secret) == Spec.Unseal(old(Model()))
    {
      var ok := Attempt();
      secret := if ok && Unseals(cred) then Some(cred.secret) else None;
    }

    method Seal(secret: string) returns (ok: bool)
      requires Valid()
      modifies this
      ensures Valid()
      ensures keyring == old(keyring) && (Model(), ok) == Spec.Seal(old(Model()), secret)
    {
      ok := WriteFile(Cred, Holds(secret));
      if ok {
        ok := Attempt();
      }
    }

    method WriteRecovery(secret: string) returns (ok: bool)
      requires Valid()
      modifies this
      ensures Valid()
      ensures keyring == old(keyring) && (Model(), ok) == Spec.WriteRecovery(old(Model()), secret)
    {
      ok := WriteFile(Recovery, Holds(secret));
      if ok {
        ok := Attempt();
      }
    }

    method RotateSeal(newKey: string) returns (oldKey: Option<string>)
      requires Valid()
      modifies this
      ensures Valid()
      ensures old(AlwaysHeld(Model()) && cred == Holds(keyring)) ==>
                AlwaysHeld(Model()) && (oldKey.Some? ==> IsSealed(Model().k, newKey) && oldKey.value == keyring)
      ensures old(Unseals(cred)) ==> (oldKey.Some? <==> AllComplete(old(env), 7))
      ensures keyring == old(keyring) && (Model(), oldKey) == Spec.RotateSeal(old(Model()), newKey)
    {
      hide Spec.WriteFile, AlwaysHeld, AllComplete;
      if Unseals(cred) {
        SealingExactly(Model(), newKey);
      }
      if AlwaysHeld(Model()) && cred == Holds(keyring) {
        SealingKeepsHeld(Model(), newKey);
      }
      var secret := Unseal();
      if secret.None? {
        return None;
      }
      var ok := false;
      if !cred.Absent? {
        ok := WriteFile(Prev, cred);
      }
      if !ok {
        return None;
      }
      ok := Seal(newKey);
      if !ok {
        return None;
      }
      ok := Attempt();
      if !ok || cred != Holds(newKey) {
        return None;
      }
      ok := WriteRecovery(newKey);
      return if ok then secret else None;
    }

    method Rollback() returns (ok: bool)
      requires Valid()
      modifies this
      ensures Valid()
      ensures old(AlwaysHeld(Model()) && prev == Holds(keyring)) ==>
                AlwaysHeld(Model()) && (ok ==> cred == Holds(keyring) && recovery == Holds(keyring))
      ensures old(Unseals(prev)) ==> (ok <==> AllComplete(old(env), 4)) && (ok ==> cred == prev && recovery == prev)
      ensures keyring == old(keyring) && (Model(), ok) == Spec.Rollback(old(Model()))
    {
      hide Spec.WriteFile, AlwaysHeld, AllComplete;
      if Unseals(prev) {
        RollbackExactly(Model());
      }
      if AlwaysHeld(Model()) && prev == Holds(keyring) {
        RollbackKeepsHeld(Model());
      }
      ok := false;
      if !prev.Absent? {
        ok := WriteFile(Cred, prev);
      }
      if !ok {
        return;
      }
      var secret := Unseal();
      if secret.None? {
        return false;
      }
      ok := WriteRecovery(secret.value);
    }

    method Rotate(newKey: string) returns (ending: Ending)
      requires Valid()
      modifies this
      ensures Valid()
      ensures old(AlwaysHeld(Model()) && SafeToRotate(Model().k)) ==> AlwaysHeld(Model())
      ensures old(cred == Holds(keyring)) ==>
                && (ending == Rotated <==> old(keyring) != "" && AllComplete(old(env), 8))
                && (ending.Refused? <==> old(keyring) != "" && AllComplete(old(env), 7) && !AllComplete(old(env), 8))
      ensures keyring == if ending == Rotated then newKey else old(keyring)
      ensures (Model(), ending) == Spec.Rotate(old(Model()), newKey)
    {
      hide Spec.RotateSeal, Spec.Rollback, AlwaysHeld, SafeToRotate, AllComplete;
      if cred == Holds(keyring) {
        RotateExactly(Model(), newKey);
      }
      if AlwaysHeld(Model()) && SafeToRotate(Model().k) {
        RotateKeepsHeld(Model(), newKey);
      }
      var secret := RotateSeal(newKey);
      if secret.None? {
        return GaveUp;
      }
      var ok := Attempt();
      if ok && keyring == secret.value {
        keyring := newKey;
        seen := seen + [Model().k];
        assert OneWrite(seen[|seen| - 2], seen[|seen| - 1]);
        return Rotated;
      }
      var restored := Rollback();
      return Refused(restored);
    }
  }
}
