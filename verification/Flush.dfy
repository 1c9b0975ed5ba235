/** The flusher: releases deferred deliveries once their owner's quiet window has
    ended (internal/notifications/flusher.go). */
module Flush {
  import opened Common
  import opened Alerts
  import opened Delivery
  import Ordering
  import QuietHours

  datatype Item = Item(id: Id, row: PendingRow)

  datatype GroupKey = GroupKey(user: Id, rule: Id, system: Id)

  function KeyOf(i: Item): GroupKey {
    GroupKey(i.row.user, i.row.rule, i.row.system)
  }

  // ---------------------------------------------------------------- the list

  function RankOf(i: Item): Ordering.Key {
    Ordering.Key(i.row.at, i.id)
  }

  /** items is the whole table, oldest first, ties broken by id. */
  ghost predicate Listing(items: seq<Item>, rows: map<Id, PendingRow>) {
    && (forall i :: 0 <= i < |items| ==> items[i].id in rows && rows[items[i].id] == items[i].row)
    && (forall id :: id in rows ==> Item(id, rows[id]) in items)
    && (forall i, j :: 0 <= i < j < |items| ==> Ordering.Less(RankOf(items[i]), RankOf(items[j])))
  }

  method ListPending(rows: map<Id, PendingRow>) returns (items: seq<Item>)
    ensures Listing(items, rows)
  {
    var keys := set id | id in rows :: Ordering.Key(rows[id].at, id);
    var order := Ordering.Sort(keys);
    items := [];
    for n := 0 to |order|
      invariant |items| == n
      invariant forall i :: 0 <= i < n ==> order[i].id in rows && items[i] == Item(order[i].id, rows[order[i].id])
      invariant forall i :: 0 <= i < n ==> RankOf(items[i]) == order[i]
    {
      assert order[n] in keys;
      items := items + [Item(order[n].id, rows[order[n].id])];
    }
    forall id | id in rows
      ensures Item(id, rows[id]) in items
    {
      assert Ordering.Key(rows[id].at, id) in order;
      var i :| 0 <= i < |order| && order[i] == Ordering.Key(rows[id].at, id);
      assert items[i] == Item(id, rows[id]);
    }
  }

  lemma DistinctItems(items: seq<Item>, rows: map<Id, PendingRow>)
    requires Listing(items, rows)
    ensures forall i, j :: 0 <= i < j < |items| ==> items[i].id != items[j].id
  {
    forall i, j | 0 <= i < j < |items|
      ensures items[i].id != items[j].id
    {
      Ordering.LessIsTotalOrder(RankOf(items[i]), RankOf(items[j]), RankOf(items[i]));
    }
  }

  // ------------------------------------------------------------------ groups

  /** The items of one (user, rule, system), in list order. */
  function Members(items: seq<Item>, k: GroupKey): seq<Item> {
    if items == [] then [] else Members(Front(items), k) + if KeyOf(Last(items)) == k then [Last(items)] else []
  }

  /** The groups, in order of first appearance. */
  function GroupKeys(items: seq<Item>): seq<GroupKey> {
    if items == [] then []
    else
      var ks := GroupKeys(Front(items));
      if KeyOf(Last(items)) in ks then ks else ks + [KeyOf(Last(items))]
  }

  lemma {:induction false} MembersAre(items: seq<Item>, k: GroupKey)
    ensures forall x :: x in Members(items, k) <==> x in items && KeyOf(x) == k
    ensures k in GroupKeys(items) <==> Members(items, k) != []
    ensures NoRepeats(GroupKeys(items))
  {
    if items != [] {
      MembersAre(Front(items), k);
      MembersAre(Front(items), KeyOf(Last(items)));
      assert items == Front(items) + [Last(items)];
    }
  }

  /** The last member of a group is the last item with its key. */
  lemma {:induction false} LastMember(items: seq<Item>, k: GroupKey) returns (i: int)
    requires Members(items, k) != []
    ensures 0 <= i < |items| && items[i] == Last(Members(items, k)) && KeyOf(items[i]) == k
    ensures forall j :: i < j < |items| ==> KeyOf(items[j]) != k
  {
    if KeyOf(Last(items)) == k {
      i := |items| - 1;
    } else {
      i := LastMember(Front(items), k);
    }
  }

  /** Both a "fired" and a "resolved" occur: the test the flusher makes. */
  ghost predicate Collapses(items: seq<Item>) {
    (exists i :: 0 <= i < |items| && items[i].row.kind.Fired?) &&
    (exists i :: 0 <= i < |items| && items[i].row.kind.Resolved?)
  }

  method BothKinds(items: seq<Item>) returns (both: bool)
    ensures both == Collapses(items)
  {
    var fired, resolved := false, false;
    for n := 0 to |items|
      invariant fired == exists i :: 0 <= i < n && items[i].row.kind.Fired?
      invariant resolved == exists i :: 0 <= i < n && items[i].row.kind.Resolved?
    {
      match items[n].row.kind
      case Fired => fired := true;
      case Resolved => resolved := true;
    }
    return fired && resolved;
  }

  // ------------------------------------------------------- what a flush does

  datatype Fate = Kept | Collapsed | Superseded | Sent

  ghost function FateOf(env: Env, now: Time, items: seq<Item>, i: int): Fate
    requires 0 <= i < |items|
  {
    if env.QuietFor(items[i].row.user, now) then Kept
    else if Collapses(Members(items, KeyOf(items[i]))) then Collapsed
    else if exists j :: i < j < |items| && KeyOf(items[j]) == KeyOf(items[i]) then Superseded
    else Sent
  }

  function ReleaseOf(env: Env, x: Item): Action {
    Release(x.id, x.row.user, x.row.rule, x.row.msg, env.Targets(x.row.user, x.row.rule))
  }

  ghost function GroupRelease(env: Env, now: Time, items: seq<Item>, k: GroupKey): seq<Action> {
    var group := Members(items, k);
    if group == [] || env.QuietFor(k.user, now) || Collapses(group) then [] else [ReleaseOf(env, Last(group))]
  }

  ghost function Releases(env: Env, now: Time, items: seq<Item>, keys: seq<GroupKey>): seq<Action> {
    if keys == [] then []
    else Releases(env, now, items, Front(keys)) + GroupRelease(env, now, items, Last(keys))
  }

  ghost function Processed(env: Env, now: Time, items: seq<Item>, keys: seq<GroupKey>): set<Id> {
    set x | x in items && KeyOf(x) in keys && !env.QuietFor(x.row.user, now) :: x.id
  }

  /** Every released row is the last of its group, and groups are released at most once. */
  lemma {:induction false} ReleasesAre(env: Env, now: Time, items: seq<Item>, keys: seq<GroupKey>, a: Action)
    requires NoRepeats(keys)
    ensures a in Releases(env, now, items, keys) <==>
      exists i :: 0 <= i < |items| && KeyOf(items[i]) in keys && FateOf(env, now, items, i) == Sent &&
                  a == ReleaseOf(env, items[i])
  {
    if keys != [] {
      var k := Last(keys);
      ReleasesAre(env, now, items, Front(keys), a);
      assert forall x :: x in keys <==> x in Front(keys) || x == k;
      GroupReleaseIs(env, now, items, k, a);
    }
  }

  lemma GroupReleaseIs(env: Env, now: Time, items: seq<Item>, k: GroupKey, a: Action)
    ensures a in GroupRelease(env, now, items, k) <==>
      exists i :: 0 <= i < |items| && KeyOf(items[i]) == k && FateOf(env, now, items, i) == Sent &&
                  a == ReleaseOf(env, items[i])
  {
    var group := Members(items, k);
    MembersAre(items, k);
    if group != [] {
      var n := LastMember(items, k);
      if a in GroupRelease(env, now, items, k) {
        assert FateOf(env, now, items, n) == Sent;
      }
      forall i | 0 <= i < |items| && KeyOf(items[i]) == k && FateOf(env, now, items, i) == Sent
        ensures i == n
      {
        assert i <= n && KeyOf(items[n]) == k;
      }
    } else {
      assert forall i :: 0 <= i < |items| ==> items[i] in items && KeyOf(items[i]) != k;
    }
  }

  /** Conservation. Every listed row is kept, dropped by a collapse, superseded by a
      later row of its group, or sent; exactly the last three are marked for deletion;
      and what goes out is exactly the rows whose fate is Sent, each once. */
  lemma EveryRowHasOneFate(env: Env, now: Time, items: seq<Item>, rows: map<Id, PendingRow>)
    requires Listing(items, rows)
    ensures forall i :: 0 <= i < |items| ==>
      (items[i].id in Processed(env, now, items, GroupKeys(items)) <==> FateOf(env, now, items, i) != Kept)
    ensures forall a :: a in Releases(env, now, items, GroupKeys(items)) <==>
      exists i :: 0 <= i < |items| && FateOf(env, now, items, i) == Sent && a == ReleaseOf(env, items[i])
    ensures ReleasedOnce(Releases(env, now, items, GroupKeys(items)))
  {
    var keys := GroupKeys(items);
    forall i | 0 <= i < |items|
      ensures KeyOf(items[i]) in keys
      ensures items[i].id in Processed(env, now, items, keys) <==> FateOf(env, now, items, i) != Kept
    {
      ProcessedUnlessKept(env, now, items, rows, i);
    }
    MembersAre(items, GroupKey("", "", ""));
    ReleasesOnce(env, now, items, rows, keys);
    forall a
      ensures a in Releases(env, now, items, keys) <==>
        exists i :: 0 <= i < |items| && FateOf(env, now, items, i) == Sent && a == ReleaseOf(env, items[i])
    {
      ReleasesAre(env, now, items, keys, a);
    }
  }

  lemma ProcessedUnlessKept(env: Env, now: Time, items: seq<Item>, rows: map<Id, PendingRow>, i: int)
    requires Listing(items, rows) && 0 <= i < |items|
    ensures KeyOf(items[i]) in GroupKeys(items)
    ensures items[i].id in Processed(env, now, items, GroupKeys(items)) <==> !env.QuietFor(items[i].row.user, now)
  {
    MembersAre(items, KeyOf(items[i]));
    DistinctItems(items, rows);
    assert items[i] in items;
  }

  /** Unless its group collapsed, the newest row of every group whose owner is no
      longer quiet is the one that is sent. */
  lemma NewestIsSent(env: Env, now: Time, items: seq<Item>, k: GroupKey)
    requires Members(items, k) != [] && !env.QuietFor(k.user, now)
    ensures (exists i :: 0 <= i < |items| && KeyOf(items[i]) == k && FateOf(env, now, items, i) == Sent) <==>
      !Collapses(Members(items, k))
  {
    var n := LastMember(items, k);
    assert !Collapses(Members(items, k)) ==> FateOf(env, now, items, n) == Sent;
  }

  // ---------------------------------------------------------------- the flush

  /** The grouping pass: a map from key to members, and the keys in order of appearance. */
  method Group(items: seq<Item>) returns (groups: map<GroupKey, seq<Item>>, order: seq<GroupKey>)
    ensures order == GroupKeys(items)
    ensures forall k :: k in order ==> k in groups && groups[k] == Members(items, k)
  {
    groups, order := map[], [];
    for n := 0 to |items|
      invariant order == GroupKeys(items[..n])
      invariant forall k :: k in groups <==> k in order
      invariant forall k :: k in groups ==> groups[k] == Members(items[..n], k)
    {
      var k := KeyOf(items[n]);
      assert Front(items[..n + 1]) == items[..n];
      MembersAre(items[..n], k);
      if k !in groups {
        order := order + [k];
        groups := groups[k := []];
      }
      groups := groups[k := groups[k] + [items[n]]];
    }
    assert items[..|items|] == items;
  }

  /** The rows of one group are marked unless its owner is still quiet. */
  ghost function Marked(env: Env, now: Time, items: seq<Item>, k: GroupKey): set<Id> {
    if env.QuietFor(k.user, now) then {} else set x | x in Members(items, k) :: x.id
  }

  lemma ProcessedOneMore(env: Env, now: Time, items: seq<Item>, keys: seq<GroupKey>, k: GroupKey)
    ensures Processed(env, now, items, keys + [k]) == Processed(env, now, items, keys) + Marked(env, now, items, k)
  {
    MembersAre(items, k);
    assert forall q :: q in keys + [k] <==> q in keys || q == k;
  }

  /** One group of the release pass. */
  method ReleaseGroup(env: Env, now: Time, ghost items: seq<Item>, k: GroupKey, group: seq<Item>)
    returns (sends: seq<Action>, processed: set<Id>)
    requires group == Members(items, k) && group != []
    ensures sends == GroupRelease(env, now, items, k)
    ensures processed == Marked(env, now, items, k)
  {
    MembersAre(items, k);
    var policy := env.Governing(k.user);
    var quiet := QuietHours.InQuietHours(policy.windows, env.local(policy.zone, now));
    if quiet {
      return [], {};
    }
    processed := set x | x in group :: x.id;
    var both := BothKinds(group);
    if both {
      return [], processed;
    }
    var last := Last(group);
    assert last in group;
    sends := [Release(last.id, k.user, k.rule, last.row.msg, env.Targets(k.user, k.rule))];
  }

  /** The release pass over the groups, in order. */
  method ReleaseGroups(
      env: Env, now: Time, ghost items: seq<Item>, groups: map<GroupKey, seq<Item>>, order: seq<GroupKey>)
    returns (sends: seq<Action>, processed: set<Id>)
    requires order == GroupKeys(items)
    requires forall k :: k in order ==> k in groups && groups[k] == Members(items, k)
    ensures sends == Releases(env, now, items, order)
    ensures processed == Processed(env, now, items, order)
  {
    sends, processed := [], {};
    for n := 0 to |order|
      invariant sends == Releases(env, now, items, order[..n])
      invariant processed == Processed(env, now, items, order[..n])
    {
      var k := order[n];
      PrefixGrows(order, n);
      MembersAre(items, k);
      ProcessedOneMore(env, now, items, order[..n], k);
      var more, ids := ReleaseGroup(env, now, items, k, groups[k]);
      sends, processed := sends + more, processed + ids;
    }
    assert order[..|order|] == order;
  }

  /** A log of releases only, each of a different row, all among ids. */
  ghost predicate ReleasesFrom(log: seq<Action>, ids: set<Id>) {
    ReleasedOnce(log) && forall i :: 0 <= i < |log| ==> log[i].Release? && log[i].row in ids
  }

  lemma OneMoreRelease(log: seq<Action>, ids: set<Id>, a: Action, more: set<Id>)
    requires ReleasesFrom(log, ids) && a.Release? && a.row in more && a.row !in ids && ids <= more
    ensures ReleasesFrom(log + [a], more)
  {
  }

  /** The row sent for a group is marked, and was not marked for the groups before it. */
  lemma ReleaseIsNew(
    env: Env, now: Time, items: seq<Item>, rows: map<Id, PendingRow>, keys: seq<GroupKey>, k: GroupKey)
    requires Listing(items, rows) && k !in keys && GroupRelease(env, now, items, k) != []
    ensures var x := Last(Members(items, k));
      x.id !in Processed(env, now, items, keys) && x.id in Marked(env, now, items, k)
  {
    MembersAre(items, k);
    DistinctItems(items, rows);
    var x := Last(Members(items, k));
    assert x in Members(items, k) && x in items;
  }

  lemma ProcessedAreRows(env: Env, now: Time, items: seq<Item>, rows: map<Id, PendingRow>, keys: seq<GroupKey>)
    requires Listing(items, rows)
    ensures Processed(env, now, items, keys) <= rows.Keys
  {
  }

  /** No row is released twice in a flush, and every released row is one of the processed ones. */
  lemma {:induction false} ReleasesOnce(
    env: Env, now: Time, items: seq<Item>, rows: map<Id, PendingRow>, keys: seq<GroupKey>)
    requires Listing(items, rows) && NoRepeats(keys)
    ensures ReleasesFrom(Releases(env, now, items, keys), Processed(env, now, items, keys))
  {
    if keys != [] {
      var k, before := Last(keys), Releases(env, now, items, Front(keys));
      ReleasesOnce(env, now, items, rows, Front(keys));
      assert keys == Front(keys) + [k];
      ProcessedOneMore(env, now, items, Front(keys), k);
      var release := GroupRelease(env, now, items, k);
      if release == [] {
        assert before + release == before;
      } else {
        ReleaseIsNew(env, now, items, rows, Front(keys), k);
        assert before + release == before + [release[0]];
        OneMoreRelease(before, Processed(env, now, items, Front(keys)), release[0], Processed(env, now, items, keys));
      }
    }
  }

  /** One flush, during which some other goroutine emits a batch between the list and
      the delete. listOk and deleteOk say whether those two statements succeed. */
  method FlushPending(
      d: Dispatcher, env: Env, now: Time, listOk: bool, deleteOk: bool,
      other: Env, batch: seq<Transition>, at: Time)
    returns (ghost items: seq<Item>)
    requires d.Valid() && other.Sane()
    modifies d
    ensures d.Valid()
    ensures d.intact == (old(d.intact) && (deleteOk || !listOk || Processed(env, now, items, GroupKeys(items)) == {}))
    ensures Listing(items, old(d.pending))
    ensures var others := if other.enabled.Some? then Decisions(other, batch, at) else [];
      var kept := d.Stored(old(d.pending), old(d.attempts), others);
      && d.log == old(d.log) + d.Logged(old(d.attempts), others) +
                  (if listOk then Releases(env, now, items, GroupKeys(items)) else [])
      && d.pending == (if listOk && deleteOk then kept - Processed(env, now, items, GroupKeys(items)) else kept)
      && forall id :: id in kept && id !in old(d.pending) ==> id in d.pending
  {
    var listed := ListPending(d.pending);
    items := listed;
    d.Emit(other, batch, at);
    if !listOk {
      return;
    }
    var groups, order := Group(listed);
    var sends, processed := ReleaseGroups(env, now, items, groups, order);
    MembersAre(items, GroupKey("", "", ""));
    ReleasesOnce(env, now, items, old(d.pending), order);
    ProcessedAreRows(env, now, items, old(d.pending), order);
    d.StoredKeeps(old(d.pending), old(d.attempts), if other.enabled.Some? then Decisions(other, batch, at) else []);
    d.ReleaseAndDelete(sends, processed, deleteOk);
  }
}
