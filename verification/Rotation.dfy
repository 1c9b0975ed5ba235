/** Key rotation of the sealed TOTP secrets: a restartable job that re-seals every
    row under the vault's current key (internal/auth/rotate.go). */
module Rotation {
  import opened Common

  type Bytes = seq<int>

  datatype Sealed = Sealed(ct: Bytes, nonce: Bytes, ver: int)

  /** The vault, with its cipher left abstract. seal takes the fresh nonce it draws. */
  datatype Vault = Vault(
    current: int,
    loaded: set<int>,
    open: (Bytes, Bytes, int) -> Option<Bytes>,
    seal: (Bytes, Bytes) -> Bytes)
  {
    /** Opening undoes sealing under the current key, which is loaded; a key that is not loaded opens nothing. */
    ghost predicate Sound() {
      && current in loaded
      && (forall plain, nonce :: open(seal(plain, nonce), nonce, current) == Some(plain))
      && (forall ct, nonce, ver :: ver !in loaded ==> open(ct, nonce, ver) == None)
    }

    function Open(s: Sealed): Option<Bytes> {
      open(s.ct, s.nonce, s.ver)
    }
  }

  datatype Column = Secret | Pending

  /** A user's two sealed columns; None is a NULL version, a user not enrolled. */
  datatype UserRow = UserRow(secret: Option<Sealed>, pending: Option<Sealed>) {
    function At(c: Column): Option<Sealed> {
      if c.Secret? then secret else pending
    }

    function With(c: Column, s: Sealed): UserRow {
      if c.Secret? then this.(secret := Some(s)) else this.(pending := Some(s))
    }
  }

  type Users = map<Id, UserRow>

  // ------------------------------------------------------------ what is promised

  /** What a column decrypts to. */
  function Plain(v: Vault, s: Option<Sealed>): Option<Bytes> {
    if s.None? then None else v.Open(s.value)
  }

  /** A sealed value a rotation may have turned into another: itself, or the same
      plaintext under the current key. */
  predicate Rewrapped(v: Vault, before: Option<Sealed>, after: Option<Sealed>) {
    after == before ||
    (before.Some? && after.Some? && after.value.ver == v.current && v.Open(before.value).Some? &&
     v.Open(after.value) == v.Open(before.value))
  }

  ghost predicate Safe(v: Vault, before: Users, after: Users) {
    && before.Keys == after.Keys
    && forall u, c: Column :: u in before ==> Rewrapped(v, before[u].At(c), after[u].At(c))
  }

  predicate OnCurrent(v: Vault, s: Option<Sealed>) {
    s.Some? ==> s.value.ver == v.current
  }

  /** The users whose column is versioned. */
  function Versioned(users: Users, c: Column): set<Id> {
    set u | u in users && users[u].At(c).Some?
  }

  function Stale(v: Vault, users: Users, c: Column): set<Id> {
    set u | u in users && users[u].At(c).Some? && users[u].At(c).value.ver != v.current
  }

  /** However often it is interrupted, a rotation loses nothing: whatever opened still
      opens, to the same plaintext, and whatever did not is untouched. */
  lemma SafeKeepsPlaintexts(v: Vault, before: Users, after: Users)
    requires Safe(v, before, after)
    ensures forall u, c: Column :: u in before ==> Plain(v, after[u].At(c)) == Plain(v, before[u].At(c))
    ensures forall u, c: Column :: u in before && Plain(v, before[u].At(c)) == None ==>
      after[u].At(c) == before[u].At(c)
    ensures forall c: Column :: Versioned(before, c) == Versioned(after, c)
  {
    forall u, c: Column | u in before
      ensures Plain(v, after[u].At(c)) == Plain(v, before[u].At(c))
      ensures Plain(v, before[u].At(c)) == None ==> after[u].At(c) == before[u].At(c)
      ensures after[u].At(c).Some? <==> before[u].At(c).Some?
    {
      assert Rewrapped(v, before[u].At(c), after[u].At(c));
    }
    forall c: Column
      ensures Versioned(before, c) == Versioned(after, c)
    {
    }
  }

  lemma SafeTwice(v: Vault, a: Users, b: Users, c: Users)
    requires Safe(v, a, b) && Safe(v, b, c)
    ensures Safe(v, a, c)
  {
    forall u, col: Column | u in a
      ensures Rewrapped(v, a[u].At(col), c[u].At(col))
    {
      assert Rewrapped(v, a[u].At(col), b[u].At(col)) && Rewrapped(v, b[u].At(col), c[u].At(col));
    }
  }

  // ----------------------------------------------------------------- the job

  datatype Work = Work(id: Id, sealed: Sealed)

  /** work lists exactly the users in ids, once each, with what they have in the column. */
  ghost predicate Lists(work: seq<Work>, ids: set<Id>, users: Users, c: Column) {
    && (forall i :: 0 <= i < |work| ==>
          work[i].id in ids && work[i].id in users && users[work[i].id].At(c) == Some(work[i].sealed))
    && (forall i, j :: 0 <= i < j < |work| ==> work[i].id != work[j].id)
    && |work| == |ids|
  }

  lemma ListOne(work: seq<Work>, ids: set<Id>, users: Users, c: Column, u: Id)
    requires Lists(work, ids, users, c) && u !in ids && u in users && users[u].At(c).Some?
    ensures Lists(work + [Work(u, users[u].At(c).value)], ids + {u}, users, c)
  {
  }

  /** A list of as many distinct members as the set has names all of them. */
  lemma {:induction false} ListsAll(work: seq<Work>, ids: set<Id>, users: Users, c: Column, u: Id)
    requires Lists(work, ids, users, c) && u in ids
    ensures exists i :: 0 <= i < |work| && work[i].id == u
    decreases |work|
  {
    if work != [] && Last(work).id != u {
      ListsAll(Front(work), ids - {Last(work).id}, users, c, u);
      var i :| 0 <= i < |Front(work)| && Front(work)[i].id == u;
      assert work[i].id == u;
    } else if work != [] {
      assert work[|work| - 1].id == u;
    }
  }

  /** The scan: rows on the current version are counted, the others listed in whatever
      order they come. */
  method ScanRotatable(v: Vault, users: Users, c: Column) returns (work: seq<Work>, skipped: int)
    ensures Lists(work, Stale(v, users, c), users, c)
    ensures |work| + skipped == |Versioned(users, c)|
  {
    work, skipped := [], 0;
    var todo := Versioned(users, c);
    ghost var ids: set<Id> := {};
    while todo != {}
      invariant todo <= Versioned(users, c) && ids <= Stale(v, users, c) && ids !! todo
      invariant forall u :: u in Stale(v, users, c) ==> u in ids || u in todo
      invariant |work| + skipped + |todo| == |Versioned(users, c)|
      invariant Lists(work, ids, users, c)
    {
      var u :| u in todo;
      var s := users[u].At(c).value;
      if s.ver == v.current {
        skipped := skipped + 1;
      } else {
        ListOne(work, ids, users, c, u);
        work, ids := work + [Work(u, s)], ids + {u};
      }
      todo := todo - {u};
    }
    assert ids == Stale(v, users, c);
  }

  // ------------------------------------------------------------- the update loop

  datatype RotateResult = RotateResult(
    newVersion: int, secretRotated: int, pendingRotated: int, secretAlready: int, pendingAlready: int)

  /** The users table. nonces are the nonces the vault draws; the steps (seals and
      updates) numbered in refused fail, or the process dies there. */
  class Table {
    var users: Users
    var steps: nat
    const nonces: nat -> Bytes
    const refused: set<nat>

    constructor (users: Users, nonces: nat -> Bytes, refused: set<nat>)
      ensures this.users == users && steps == 0 && this.nonces == nonces && this.refused == refused
    {
      this.users, steps, this.nonces, this.refused := users, 0, nonces, refused;
    }

    /** One column; resealed is how many rows were truly re-sealed. On an error both
        counts come back zero, however many that was. */
    method RotateColumn(v: Vault, c: Column) returns (ok: bool, rotated: int, skipped: int, ghost resealed: nat)
      requires v.Sound()
      modifies this`users, this`steps
      ensures Safe(v, old(users), users) && ConfinedTo(v, c, old(users), users)
      ensures |Stale(v, users, c)| + resealed == |Stale(v, old(users), c)|
      ensures ok ==> Stale(v, users, c) == {} && rotated == resealed
      ensures ok ==> rotated + skipped == |Versioned(users, c)|
      ensures !ok ==> rotated == 0 && skipped == 0
      ensures ok <==> Rotatable(v, old(users), c) && forall n :: old(steps) <= n < steps ==> n !in refused
      ensures old(steps) + resealed <= steps <= old(steps) + resealed + (if ok then 0 else 1)
      ensures forall n :: old(steps) <= n < old(steps) + resealed ==> n !in refused
      ensures !ok ==> resealed < |Stale(v, old(users), c)|
    {
      var work;
      work, skipped := ScanRotatable(v, users, c);
      ok, resealed := true, 0;
      ghost var before := users;
      RotatingStart(v, c, before, work);
      for i := 0 to |work|
        invariant Rotating(v, c, before, users, work, i)
        invariant forall n :: old(steps) <= n < steps ==> n !in refused
        invariant resealed == i == steps - old(steps) && |Stale(v, users, c)| + i == |Stale(v, before, c)|
      {
        ghost var users' := users;
        ok := ResealOne(v, c, work[i]);
        if !ok {
          assert users == users';
          RotatingStop(v, c, before, users, work, i);
          return false, 0, 0, i;
        }
        RotatingStep(v, c, before, users', users, work, i);
        resealed := resealed + 1;
      }
      RotatingStop(v, c, before, users, work, |work|);
      rotated := |work|;
    }

    /** Opens one row, seals its plaintext again and writes it back. */
    method ResealOne(v: Vault, c: Column, w: Work) returns (ok: bool)
      requires v.Sound() && w.id in Stale(v, users, c) && users[w.id].At(c) == Some(w.sealed)
      modifies this`users, this`steps
      ensures ok <==> v.Open(w.sealed).Some? && old(steps) !in refused
      ensures steps == old(steps) + if v.Open(w.sealed).Some? then 1 else 0
      ensures users.Keys == old(users).Keys
      ensures forall u :: u in users && (u != w.id || !ok) ==> users[u] == old(users)[u]
      ensures forall d: Column :: d != c ==> users[w.id].At(d) == old(users)[w.id].At(d)
      ensures ok ==> OnCurrent(v, users[w.id].At(c)) && Plain(v, users[w.id].At(c)) == v.Open(w.sealed)
      ensures ok ==> users[w.id].At(c).Some? && |Stale(v, users, c)| + 1 == |Stale(v, old(users), c)|
    {
      var plain := v.Open(w.sealed);
      if plain.None? {
        return false;
      }
      var n := steps;
      steps := steps + 1;
      if n in refused {
        return false;
      }
      var sealed := Sealed(v.seal(plain.value, nonces(n)), nonces(n), v.current);
      FreshlySealed(v, users, c, w.id, sealed);
      users := users[w.id := users[w.id].With(c, sealed)];
      ok := true;
    }

    /** Both columns: the active secrets, then the pending ones. secrets and pendings are how
        many rows were truly re-sealed. On an error the reported counts are the true ones iff
        the column that failed had re-sealed nothing. */
    method RunRotate(v: Vault) returns (ok: bool, r: RotateResult, ghost secrets: nat, ghost pendings: nat)
      requires v.Sound()
      modifies this`users, this`steps
      ensures Safe(v, old(users), users)
      ensures |Stale(v, users, Secret)| + secrets == |Stale(v, old(users), Secret)|
      ensures |Stale(v, users, Pending)| + pendings == |Stale(v, old(users), Pending)|
      ensures ok ==> Stale(v, users, Secret) == {} && Stale(v, users, Pending) == {}
      ensures ok ==>
        && r.secretRotated == secrets && r.pendingRotated == pendings
        && r.secretRotated + r.secretAlready == |Versioned(users, Secret)|
        && r.pendingRotated + r.pendingAlready == |Versioned(users, Pending)|
      ensures !ok ==>
        if Stale(v, users, Secret) != {} then r == RotateResult(v.current, 0, 0, 0, 0)
        else
          r.secretRotated == secrets && r.secretRotated + r.secretAlready == |Versioned(users, Secret)| &&
          r.pendingRotated == 0 && r.pendingAlready == 0
      ensures !ok ==>
        var failed := if Stale(v, users, Secret) != {} then secrets else pendings;
        (r.secretRotated == secrets && r.pendingRotated == pendings <==> failed == 0)
      ensures ok <==> AllRotatable(v, old(users)) && forall n :: old(steps) <= n < steps ==> n !in refused
      ensures Stale(v, old(users), Secret) == {} && Stale(v, old(users), Pending) == {} ==> users == old(users)
      ensures old(steps) + secrets + pendings <= steps <= old(steps) + secrets + pendings + 1
      ensures forall n :: old(steps) <= n < old(steps) + secrets + pendings ==> n !in refused
      ensures r.newVersion == v.current
    {
      var secRot, secSkip, pendRot, pendSkip;
      pendings := 0;
      ok, secRot, secSkip, secrets := RotateColumn(v, Secret);
      ghost var middle, first := users, steps;
      ConfinedStale(v, Secret, old(users), middle);
      if !ok {
        r := RotateResult(v.current, secRot, 0, secSkip, 0);
        return;
      }
      ok, pendRot, pendSkip, pendings := RotateColumn(v, Pending);
      SafeTwice(v, old(users), middle, users);
      ConfinedStale(v, Pending, middle, users);
      r := RotateResult(v.current, secRot, pendRot, secSkip, pendSkip);
    }

    /** The refusals still to come. */
    ghost function RefusedYet(): set<nat>
      reads this`steps
    {
      set n | n in refused && steps <= n
    }

    /** An operator running the job again until it succeeds. It does: each failed run
        uses up one of the refused steps. Nothing is lost on the way, and one more run
        would find nothing to do. */
    method RotateUntilDone(v: Vault) returns (r: RotateResult)
      requires v.Sound() && AllRotatable(v, users)
      modifies this`users, this`steps
      ensures Safe(v, old(users), users)
      ensures Stale(v, users, Secret) == {} && Stale(v, users, Pending) == {}
      ensures r.secretRotated + r.secretAlready == |Versioned(old(users), Secret)|
      ensures r.pendingRotated + r.pendingAlready == |Versioned(old(users), Pending)|
    {
      var ok := false;
      r := RotateResult(v.current, 0, 0, 0, 0);
      while !ok
        invariant Safe(v, old(users), users) && AllRotatable(v, users)
        invariant ok ==> Stale(v, users, Secret) == {} && Stale(v, users, Pending) == {}
        invariant ok ==> r.secretRotated + r.secretAlready == |Versioned(users, Secret)|
        invariant ok ==> r.pendingRotated + r.pendingAlready == |Versioned(users, Pending)|
        decreases !ok, RefusedYet()
      {
        ghost var before, first, yet := users, steps, RefusedYet();
        ghost var secrets, pendings;
        ok, r, secrets, pendings := RunRotate(v);
        SafeTwice(v, old(users), before, users);
        SafeStaysRotatable(v, before, users);
        if !ok {
          ghost var n :| first <= n < steps && n in refused;
          assert n in yet && n !in RefusedYet() && RefusedYet() <= yet;
        }
      }
      SafeKeepsPlaintexts(v, old(users), users);
    }
  }

  /** The doc comment on runRotate promises the counts reached before a failure; an
      interrupted column reports zero even though a row was re-sealed. */
  method FailureReportsZero() returns (t: Table, before: Users, ok: bool, r: RotateResult, ghost resealed: nat)
    ensures |Stale(PLAIN_VAULT, before, Secret)| == 2 && |Stale(PLAIN_VAULT, t.users, Secret)| == 1
    ensures !ok && resealed == 1 && r == RotateResult(2, 0, 0, 0, 0)
  {
    var old0, old1 := Sealed([7], [], 1), Sealed([8], [], 1);
    before := map["a" := UserRow(Some(old0), None), "b" := UserRow(Some(old1), None)];
    t := new Table(before, n => [], {1});
    assert Stale(PLAIN_VAULT, t.users, Secret) == {"a", "b"};
    ghost var pendings;
    ok, r, resealed, pendings := t.RunRotate(PLAIN_VAULT);
  }

  /** A vault whose cipher is the identity, with keys 1 and 2 loaded. */
  const PLAIN_VAULT := Vault(
    2, {1, 2}, (ct, nonce, ver) => if ver in {1, 2} then Some(ct) else None, (plain, nonce) => plain)

  /** From before to after only column c of stale rows may differ. */
  ghost predicate ConfinedTo(v: Vault, c: Column, before: Users, after: Users) {
    && before.Keys == after.Keys
    && (forall u, d: Column :: u in after && d != c ==> after[u].At(d) == before[u].At(d))
    && (forall u :: u in after && after[u] != before[u] ==> u in Stale(v, before, c))
  }

  lemma ConfinedStale(v: Vault, c: Column, before: Users, after: Users)
    requires Safe(v, before, after) && ConfinedTo(v, c, before, after)
    ensures forall d: Column :: d != c ==> Stale(v, after, d) == Stale(v, before, d)
    ensures forall d: Column :: d != c ==> (Rotatable(v, after, d) <==> Rotatable(v, before, d))
    ensures forall d: Column :: Versioned(after, d) == Versioned(before, d)
    ensures Stale(v, before, c) == {} ==> after == before
  {
    SafeKeepsPlaintexts(v, before, after);
  }

  lemma SafeStaysRotatable(v: Vault, before: Users, after: Users)
    requires Safe(v, before, after) && AllRotatable(v, before)
    ensures AllRotatable(v, after)
  {
    forall u, c: Column | u in after && after[u].At(c).Some? && after[u].At(c).value.ver != v.current
      ensures v.Open(after[u].At(c).value).Some?
    {
      assert Rewrapped(v, before[u].At(c), after[u].At(c));
    }
  }

  predicate AllRotatable(v: Vault, users: Users) {
    Rotatable(v, users, Secret) && Rotatable(v, users, Pending)
  }

  /** Re-sealing one stale row takes exactly it off the stale list. */
  lemma FreshlySealed(v: Vault, users: Users, c: Column, u: Id, sealed: Sealed)
    requires u in Stale(v, users, c) && sealed.ver == v.current
    ensures |Stale(v, users[u := users[u].With(c, sealed)], c)| + 1 == |Stale(v, users, c)|
  {
    assert Stale(v, users[u := users[u].With(c, sealed)], c) == Stale(v, users, c) - {u};
  }

  /** The first i of the listed rows have been re-sealed and nothing else has changed. */
  ghost predicate Rotating(v: Vault, c: Column, before: Users, after: Users, work: seq<Work>, i: nat) {
    && Lists(work, Stale(v, before, c), before, c) && i <= |work|
    && Safe(v, before, after)
    && (forall u, d: Column :: u in after && d != c ==> after[u].At(d) == before[u].At(d))
    && (forall j :: 0 <= j < i ==> OnCurrent(v, after[work[j].id].At(c)) && v.Open(work[j].sealed).Some?)
    && (forall j :: i <= j < |work| ==> after[work[j].id] == before[work[j].id])
    && (forall u :: u in after && u !in Stale(v, before, c) ==> after[u] == before[u])
  }

  lemma RotatingStart(v: Vault, c: Column, before: Users, work: seq<Work>)
    requires Lists(work, Stale(v, before, c), before, c)
    ensures Rotating(v, c, before, before, work, 0)
    ensures forall i :: 0 <= i < |work| ==> work[i].id in before
  {
  }

  lemma RotatingStep(v: Vault, c: Column, before: Users, middle: Users, after: Users, work: seq<Work>, i: nat)
    requires i < |work| && Rotating(v, c, before, middle, work, i) && v.Open(work[i].sealed).Some?
    requires after.Keys == middle.Keys && forall u :: u in after && u != work[i].id ==> after[u] == middle[u]
    requires forall d: Column :: d != c ==> after[work[i].id].At(d) == middle[work[i].id].At(d)
    requires OnCurrent(v, after[work[i].id].At(c)) && Plain(v, after[work[i].id].At(c)) == v.Open(work[i].sealed)
    ensures Rotating(v, c, before, after, work, i + 1)
  {
    forall u, d: Column | u in before
      ensures Rewrapped(v, before[u].At(d), after[u].At(d))
    {
      assert Rewrapped(v, before[u].At(d), middle[u].At(d));
    }
  }

  /** Where a run stops, whether or not it got to the end. */
  lemma RotatingStop(v: Vault, c: Column, before: Users, after: Users, work: seq<Work>, i: nat)
    requires Rotating(v, c, before, after, work, i)
    ensures ConfinedTo(v, c, before, after) && |work| == |Stale(v, before, c)|
    ensures Versioned(after, c) == Versioned(before, c)
    ensures i == |work| ==> Stale(v, after, c) == {} && Rotatable(v, before, c)
    ensures i < |work| && v.Open(work[i].sealed).None? ==> !Rotatable(v, before, c)
  {
    SafeKeepsPlaintexts(v, before, after);
    if i == |work| {
      forall u | u in Stale(v, before, c)
        ensures OnCurrent(v, after[u].At(c)) && v.Open(before[u].At(c).value).Some?
      {
        ListsAll(work, Stale(v, before, c), before, c, u);
        var j :| 0 <= j < |work| && work[j].id == u;
      }
    } else {
      assert work[i].id in Stale(v, before, c);
    }
  }

  /** Every stale row of the column can be opened. */
  predicate Rotatable(v: Vault, users: Users, c: Column) {
    forall u :: u in users && users[u].At(c).Some? && users[u].At(c).value.ver != v.current ==>
      v.Open(users[u].At(c).value).Some?
  }
}
