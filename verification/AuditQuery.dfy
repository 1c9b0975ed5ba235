/** The WHERE clause of the audit list, as SQL with positional arguments, and the rule
    that says which rows a group-only caller may see (internal/audit/store.go). */
module AuditQuery {
  import opened Common
  import opened AuditLike
  import opened Sql
  import Ordering

  // --------------------------------------------------------------------- rows

  /** One audit_log row; None is NULL. */
  datatype Row = Row(
    id: Id, at: int, actorId: Option<string>, actorLabel: Option<string>, action: string,
    targetKind: Option<string>, targetId: Option<Id>, targetLabel: Option<string>,
    outcome: string, requestId: Option<string>)

  /** The hosts table: each system's group, NULL for none. */
  type Hosts = map<Id, Option<Id>>

  datatype Query = Query(
    since: Option<int>, until: Option<int>, actorId: string, actorLabel: string, action: string,
    targetKind: string, targetId: string, targetLabel: string, outcome: string, requestId: string,
    limit: int, afterMillis: int, afterId: Id, scope: Option<seq<Id>>)

  function KeyOf(r: Row): Ordering.Key {
    Ordering.Key(r.at, r.id)
  }

  // ---------------------------------------------------------- what is asked for

  predicate Names(column: Option<string>, wanted: string) {
    wanted == "" || column == Some(wanted)
  }

  predicate Mentions(column: Option<string>, wanted: string) {
    wanted == "" || (column.Some? && Contains(column.value, wanted))
  }

  predicate ActionFits(action: string, wanted: string) {
    if wanted == "" then true
    else if Last(wanted) == '*' then Like(Front(wanted) + "%", action, None)
    else action == wanted
  }

  /** The row's target resolves to one of the groups: a live system in one, or one of them itself. */
  predicate InScope(groups: seq<Id>, r: Row, hosts: Hosts) {
    r.targetId.Some? &&
    ((r.targetKind == Some("system") && r.targetId.value in hosts &&
      hosts[r.targetId.value].Some? && hosts[r.targetId.value].value in groups) ||
     (r.targetKind == Some("system_group") && r.targetId.value in groups))
  }

  predicate HasCursor(q: Query) {
    q.afterMillis > 0 && q.afterId != ""
  }

  /** The dimensions a query can filter on. */
  datatype Filter =
    | BySince | ByUntil | ByActor | ByActorLabel | ByAction | ByTargetKind | ByTargetId | ByTargetLabel
    | ByOutcome | ByRequest | ByCursor | ByScope

  /** The order in which the clauses are built. */
  function Place(f: Filter): nat {
    match f
    case BySince => 0
    case ByUntil => 1
    case ByActor => 2
    case ByActorLabel => 3
    case ByAction => 4
    case ByTargetKind => 5
    case ByTargetId => 6
    case ByTargetLabel => 7
    case ByOutcome => 8
    case ByRequest => 9
    case ByCursor => 10
    case ByScope => 11
  }

  predicate Fits(q: Query, f: Filter, r: Row, hosts: Hosts) {
    match f
    case BySince => q.since.Some? ==> r.at >= q.since.value
    case ByUntil => q.until.Some? ==> r.at < q.until.value
    case ByActor => Names(r.actorId, q.actorId)
    case ByActorLabel => Mentions(r.actorLabel, q.actorLabel)
    case ByAction => ActionFits(r.action, q.action)
    case ByTargetKind => Names(r.targetKind, q.targetKind)
    case ByTargetId => Names(r.targetId, q.targetId)
    case ByTargetLabel => Mentions(r.targetLabel, q.targetLabel)
    case ByOutcome => Names(Some(r.outcome), q.outcome)
    case ByRequest => Names(r.requestId, q.requestId)
    case ByCursor => HasCursor(q) ==> Ordering.Less(KeyOf(r), Ordering.Key(q.afterMillis, q.afterId))
    case ByScope => q.scope.Some? ==> InScope(q.scope.value, r, hosts)
  }

  /** The row answers the query. */
  ghost predicate Wanted(q: Query, r: Row, hosts: Hosts) {
    forall f :: Fits(q, f, r, hosts)
  }

  // ------------------------------------------------------------- SQL conditions

  datatype Column =
    | OccurredAt | RowId | ActorId | ActorLabel | Action | TargetKind | TargetId | TargetLabel | Outcome | RequestId

  /** Conditions over one row. Every Param, and each of the n of a list, is one "?". */
  datatype Cond =
    | Compare(col: Column, op: Comparison)            // col op ?
    | CompareText(col: Column, text: string)         // col = 'text'
    | LikeParam(col: Column, escape: Option<char>)   // col LIKE ? [ESCAPE '\']
    | InList(col: Column, n: nat)                    // col IN (?, ..., ?)
    | InHostsOf(col: Column, n: nat)                 // col IN (SELECT id FROM hosts WHERE group_id IN (?, ..., ?))
    | And(a: Cond, b: Cond)
    | Or(a: Cond, b: Cond)
    | Never                                          // 1 = 0

  function Cell(r: Row, c: Column): Value {
    match c
    case OccurredAt => Int(r.at)
    case RowId => Text(r.id)
    case ActorId => Nullable(r.actorId)
    case ActorLabel => Nullable(r.actorLabel)
    case Action => Text(r.action)
    case TargetKind => Nullable(r.targetKind)
    case TargetId => Nullable(r.targetId)
    case TargetLabel => Nullable(r.targetLabel)
    case Outcome => Text(r.outcome)
    case RequestId => Nullable(r.requestId)
  }

  /** How many placeholders a condition has. */
  function Params(c: Cond): nat {
    match c
    case Compare(_, _) => 1
    case CompareText(_, _) => 0
    case LikeParam(_, _) => 1
    case InList(_, n) => n
    case InHostsOf(_, n) => n
    case And(a, b) => Params(a) + Params(b)
    case Or(a, b) => Params(a) + Params(b)
    case Never => 0
  }

  /** Three-valued evaluation; the arguments are taken from left to right, one to a placeholder. */
  function Eval(c: Cond, args: seq<Value>, r: Row, hosts: Hosts): Truth
    requires |args| == Params(c)
  {
    match c
    case Compare(col, op) => CompareValues(Cell(r, col), op, args[0])
    case CompareText(col, text) => CompareValues(Cell(r, col), Equal, Text(text))
    case LikeParam(col, escape) =>
      if Cell(r, col).Text? && args[0].Text? then Of(Like(args[0].s, Cell(r, col).s, escape)) else Unknown
    case InList(col, _) => if Cell(r, col).Null? then Unknown else Of(Cell(r, col) in args)
    case InHostsOf(col, _) =>
      if Cell(r, col).Null? then Unknown
      else
        Of(Cell(r, col).Text? && Cell(r, col).s in hosts && Nullable(hosts[Cell(r, col).s]) in args &&
           hosts[Cell(r, col).s].Some?)
    case And(a, b) => Both(Eval(a, args[..Params(a)], r, hosts), Eval(b, args[Params(a)..], r, hosts))
    case Or(a, b) => Either(Eval(a, args[..Params(a)], r, hosts), Eval(b, args[Params(a)..], r, hosts))
    case Never => False
  }

  function AllParams(cs: seq<Cond>): nat {
    if cs == [] then 0 else AllParams(Front(cs)) + Params(Last(cs))
  }

  /** WHERE c1 AND c2 AND ...: the row is selected when the conjunction is true. */
  predicate Selected(cs: seq<Cond>, args: seq<Value>, r: Row, hosts: Hosts)
    requires |args| == AllParams(cs)
  {
    cs == [] ||
    var n := AllParams(Front(cs));
    Selected(Front(cs), args[..n], r, hosts) && Eval(Last(cs), args[n..], r, hosts).True?
  }

  lemma {:induction false} EvalAnd(a: Cond, b: Cond, x: seq<Value>, y: seq<Value>, r: Row, hosts: Hosts)
    requires |x| == Params(a) && |y| == Params(b)
    ensures Eval(And(a, b), x + y, r, hosts) == Both(Eval(a, x, r, hosts), Eval(b, y, r, hosts))
    ensures Eval(Or(a, b), x + y, r, hosts) == Either(Eval(a, x, r, hosts), Eval(b, y, r, hosts))
  {
    assert (x + y)[..|x|] == x && (x + y)[|x|..] == y;
  }

  /** The clauses so far, with exactly their arguments, say what the first n filters say together. */
  ghost predicate Says(q: Query, n: nat, cs: seq<Cond>, args: seq<Value>) {
    |args| == AllParams(cs) &&
    forall r, hosts :: Selected(cs, args, r, hosts) <==> forall f :: Place(f) < n ==> Fits(q, f, r, hosts)
  }

  /** Appending a clause and its arguments conjoins its meaning. */
  lemma {:induction false} SelectedAlso(
    cs: seq<Cond>, args: seq<Value>, c: Cond, more: seq<Value>, r: Row, hosts: Hosts)
    requires |args| == AllParams(cs) && |more| == Params(c)
    ensures |args + more| == AllParams(cs + [c])
    ensures Selected(cs + [c], args + more, r, hosts) <==> Selected(cs, args, r, hosts) && Eval(c, more, r, hosts).True?
  {
    assert Front(cs + [c]) == cs;
    assert (args + more)[..|args|] == args && (args + more)[|args|..] == more;
  }

  // ----------------------------------------------------------------- the scope

  function ScopeCond(n: nat): Cond {
    Or(And(CompareText(TargetKind, "system"), InHostsOf(TargetId, n)),
       And(CompareText(TargetKind, "system_group"), InList(TargetId, n)))
  }

  method ScopeClause(groups: seq<Id>) returns (c: Cond, args: seq<Value>)
    ensures |args| == Params(c)
    ensures forall r, hosts :: Eval(c, args, r, hosts).True? <==> InScope(groups, r, hosts)
  {
    if |groups| == 0 {
      return Never, [];
    }
    c, args := ScopeCond(|groups|), [];
    for i := 0 to |groups|
      invariant args == Texts(groups[..i])
    {
      args := args + [Text(groups[i])];
    }
    for i := 0 to |groups|
      invariant args == Texts(groups) + Texts(groups[..i])
    {
      args := args + [Text(groups[i])];
    }
    assert groups[..|groups|] == groups;
    ScopeParams(|groups|);
    forall r, hosts
      ensures Eval(c, args, r, hosts).True? <==> InScope(groups, r, hosts)
    {
      ScopeCondMeans(groups, r, hosts);
    }
  }

  lemma ScopeParams(n: nat)
    ensures Params(ScopeCond(n)) == n + n
  {
    assert Params(And(CompareText(TargetKind, "system"), InHostsOf(TargetId, n))) == n;
    assert Params(And(CompareText(TargetKind, "system_group"), InList(TargetId, n))) == n;
  }

  /** kind = 'k' AND target_id IN (...), for either shape of list. */
  lemma {:induction false} TargetMeans(kind: string, c: Cond, ids: seq<Value>, r: Row, hosts: Hosts)
    requires |ids| == Params(c)
    ensures Eval(And(CompareText(TargetKind, kind), c), ids, r, hosts).True? <==>
      r.targetKind == Some(kind) && Eval(c, ids, r, hosts).True?
  {
    assert [] + ids == ids;
    EvalAnd(CompareText(TargetKind, kind), c, [], ids, r, hosts);
  }

  lemma {:induction false} ListMeans(groups: seq<Id>, r: Row, hosts: Hosts)
    ensures Eval(InList(TargetId, |groups|), Texts(groups), r, hosts).True? <==>
      r.targetId.Some? && r.targetId.value in groups
    ensures Eval(InHostsOf(TargetId, |groups|), Texts(groups), r, hosts).True? <==>
      r.targetId.Some? && r.targetId.value in hosts && hosts[r.targetId.value].Some? &&
      hosts[r.targetId.value].value in groups
  {
    if r.targetId.Some? {
      TextsContain(groups, r.targetId.value);
      if r.targetId.value in hosts && hosts[r.targetId.value].Some? {
        TextsContain(groups, hosts[r.targetId.value].value);
      }
    }
  }

  lemma {:induction false} ScopeCondMeans(groups: seq<Id>, r: Row, hosts: Hosts)
    requires |groups| + |groups| == Params(ScopeCond(|groups|))
    ensures Eval(ScopeCond(|groups|), Texts(groups) + Texts(groups), r, hosts).True? <==> InScope(groups, r, hosts)
  {
    var a, b := InHostsOf(TargetId, |groups|), InList(TargetId, |groups|);
    ListMeans(groups, r, hosts);
    TargetMeans("system", a, Texts(groups), r, hosts);
    TargetMeans("system_group", b, Texts(groups), r, hosts);
    EvalAnd(And(CompareText(TargetKind, "system"), a), And(CompareText(TargetKind, "system_group"), b),
            Texts(groups), Texts(groups), r, hosts);
  }

  /** A record as the reader projects it: NULL and the empty string are one. */
  datatype Record = Record(targetKind: string, targetId: Id)

  function Project(r: Row): Record {
    Record(if r.targetKind.Some? then r.targetKind.value else "", if r.targetId.Some? then r.targetId.value else "")
  }

  /** The visibility check of the single-record endpoint. */
  method IsVisibleTo(rec: Record, groups: seq<Id>, hosts: Hosts) returns (visible: bool)
    ensures visible == VisibleTo(rec, groups, hosts)
  {
    if rec.targetKind == "system_group" {
      for i := 0 to |groups|
        invariant rec.targetId !in groups[..i]
      {
        if rec.targetId == groups[i] {
          return true;
        }
      }
      return false;
    }
    if rec.targetKind != "system" || rec.targetId == "" || |groups| == 0 {
      return false;
    }
    return rec.targetId in hosts && hosts[rec.targetId].Some? && hosts[rec.targetId].value in groups;
  }

  predicate VisibleTo(rec: Record, groups: seq<Id>, hosts: Hosts) {
    if rec.targetKind == "system_group" then rec.targetId in groups
    else
      rec.targetKind == "system" && rec.targetId != "" &&
      rec.targetId in hosts && hosts[rec.targetId].Some? && hosts[rec.targetId].value in groups
  }

  /** As the writer stores rows: an absent field is NULL, never the empty string. */
  predicate Stored(r: Row) {
    r.targetKind != Some("") && r.targetId != Some("")
  }

  /** The list's clause and the single-record check agree on every stored row, except on a
      group row without a target for a caller whose groups include the empty id. */
  lemma VisibilityAgreesIff(r: Row, groups: seq<Id>, hosts: Hosts)
    requires Stored(r)
    ensures VisibleTo(Project(r), groups, hosts) == InScope(groups, r, hosts) <==>
      !(r.targetKind == Some("system_group") && r.targetId.None? && "" in groups)
  {
    if r.targetId.Some? {
      assert Project(r).targetId == r.targetId.value != "";
    }
  }

  // ------------------------------------------------------------- the WHERE clause

  /** One filter: when its field is set, its clause and arguments are appended. */
  method AddWhen(q: Query, ghost f: Filter, isSet: bool, cs: seq<Cond>, args: seq<Value>, c: Cond, more: seq<Value>)
    returns (cs': seq<Cond>, args': seq<Value>)
    requires Says(q, Place(f), cs, args) && |more| == Params(c)
    requires isSet ==> forall r, hosts :: Eval(c, more, r, hosts).True? <==> Fits(q, f, r, hosts)
    requires !isSet ==> forall r, hosts :: Fits(q, f, r, hosts)
    ensures Says(q, Place(f) + 1, cs', args')
  {
    cs', args' := cs, args;
    if isSet {
      cs', args' := cs + [c], args + more;
      assert |args'| == AllParams(cs') by {
        assert Front(cs + [c]) == cs;
      }
    }
    forall r, hosts
      ensures Selected(cs', args', r, hosts) <==> forall g :: Place(g) < Place(f) + 1 ==> Fits(q, g, r, hosts)
    {
      SelectedAlso(cs, args, c, more, r, hosts);
      assert Selected(cs, args, r, hosts) <==> forall g :: Place(g) < Place(f) ==> Fits(q, g, r, hosts);
      assert forall g :: Place(g) == Place(f) ==> g == f;
    }
  }

  /** A substring filter on a nullable text column. */
  method AddMentions(q: Query, ghost f: Filter, wanted: string, col: Column, cs: seq<Cond>, args: seq<Value>)
    returns (cs': seq<Cond>, args': seq<Value>)
    requires Says(q, Place(f), cs, args)
    requires
      || (f.ByActorLabel? && col.ActorLabel? && wanted == q.actorLabel)
      || (f.ByTargetLabel? && col.TargetLabel? && wanted == q.targetLabel)
    ensures Says(q, Place(f) + 1, cs', args')
  {
    forall t
      ensures Like("%" + EscapeLike(wanted) + "%", t, BACKSLASH) <==> Contains(t, wanted)
    {
      SearchIsSubstring(wanted, t);
    }
    var pattern := Text("%" + EscapeLike(wanted) + "%");
    cs', args' := AddWhen(q, f, wanted != "", cs, args, LikeParam(col, BACKSLASH), [pattern]);
  }

  /** An equality filter on a text column. */
  method AddNames(q: Query, ghost f: Filter, wanted: string, col: Column, cs: seq<Cond>, args: seq<Value>)
    returns (cs': seq<Cond>, args': seq<Value>)
    requires Says(q, Place(f), cs, args)
    requires
      || (f.ByActor? && col.ActorId? && wanted == q.actorId)
      || (f.ByTargetKind? && col.TargetKind? && wanted == q.targetKind)
      || (f.ByTargetId? && col.TargetId? && wanted == q.targetId)
      || (f.ByOutcome? && col.Outcome? && wanted == q.outcome)
      || (f.ByRequest? && col.RequestId? && wanted == q.requestId)
    ensures Says(q, Place(f) + 1, cs', args')
  {
    cs', args' := AddWhen(q, f, wanted != "", cs, args, Compare(col, Equal), [Text(wanted)]);
  }

  function CursorCond(): Cond {
    Or(Compare(OccurredAt, Less), And(Compare(OccurredAt, Equal), Compare(RowId, Less)))
  }

  lemma {:induction false} CursorMeans(ms: int, id: Id, r: Row, hosts: Hosts)
    ensures Eval(CursorCond(), [Int(ms), Int(ms), Text(id)], r, hosts).True? <==>
      Ordering.Less(KeyOf(r), Ordering.Key(ms, id))
  {
    assert [Int(ms)] + [Int(ms), Text(id)] == [Int(ms), Int(ms), Text(id)];
    assert [Int(ms)] + [Text(id)] == [Int(ms), Text(id)];
    EvalAnd(Compare(OccurredAt, Less), And(Compare(OccurredAt, Equal), Compare(RowId, Less)),
            [Int(ms)], [Int(ms), Text(id)], r, hosts);
    EvalAnd(Compare(OccurredAt, Equal), Compare(RowId, Less), [Int(ms)], [Text(id)], r, hosts);
  }

  method AddCursor(q: Query, cs: seq<Cond>, args: seq<Value>) returns (cs': seq<Cond>, args': seq<Value>)
    requires Says(q, Place(ByCursor), cs, args)
    ensures Says(q, Place(ByCursor) + 1, cs', args')
  {
    var more := [Int(q.afterMillis), Int(q.afterMillis), Text(q.afterId)];
    assert Params(And(Compare(OccurredAt, Equal), Compare(RowId, Less))) == 2;
    forall r, hosts
      ensures Eval(CursorCond(), more, r, hosts).True? <==>
        Ordering.Less(KeyOf(r), Ordering.Key(q.afterMillis, q.afterId))
    {
      CursorMeans(q.afterMillis, q.afterId, r, hosts);
    }
    cs', args' := AddWhen(q, ByCursor, q.afterMillis > 0 && q.afterId != "", cs, args, CursorCond(), more);
  }

  method AddTimes(q: Query) returns (cs: seq<Cond>, args: seq<Value>)
    ensures Says(q, Place(ByUntil) + 1, cs, args)
  {
    cs, args := [], [];
    var since, until := if q.since.Some? then q.since.value else 0, if q.until.Some? then q.until.value else 0;
    cs, args := AddWhen(q, BySince, q.since.Some?, cs, args, Compare(OccurredAt, AtLeast), [Int(since)]);
    cs, args := AddWhen(q, ByUntil, q.until.Some?, cs, args, Compare(OccurredAt, Less), [Int(until)]);
  }

  method AddAction(q: Query, cs: seq<Cond>, args: seq<Value>) returns (cs': seq<Cond>, args': seq<Value>)
    requires Says(q, Place(ByAction), cs, args)
    ensures Says(q, Place(ByAction) + 1, cs', args')
  {
    if q.action != "" && Last(q.action) == '*' {
      cs', args' := AddWhen(q, ByAction, true, cs, args, LikeParam(Action, None), [Text(Front(q.action) + "%")]);
    } else {
      cs', args' := AddWhen(q, ByAction, q.action != "", cs, args, Compare(Action, Equal), [Text(q.action)]);
    }
  }

  method AddScope(q: Query, cs: seq<Cond>, args: seq<Value>) returns (cs': seq<Cond>, args': seq<Value>)
    requires Says(q, Place(ByScope), cs, args)
    ensures Says(q, Place(ByScope) + 1, cs', args')
  {
    var c, more := Never, [];
    if q.scope.Some? {
      c, more := ScopeClause(q.scope.value);
    }
    cs', args' := AddWhen(q, ByScope, q.scope.Some?, cs, args, c, more);
  }

  /** All twelve filters together are the query. */
  lemma SaysEverything(q: Query, cs: seq<Cond>, args: seq<Value>)
    requires Says(q, Place(ByScope) + 1, cs, args)
    ensures forall r, hosts :: Selected(cs, args, r, hosts) <==> Wanted(q, r, hosts)
  {
    assert forall f: Filter :: Place(f) < Place(ByScope) + 1;
  }

  method AddTarget(q: Query, cs0: seq<Cond>, args0: seq<Value>) returns (cs: seq<Cond>, args: seq<Value>)
    requires Says(q, Place(ByTargetKind), cs0, args0)
    ensures Says(q, Place(ByTargetLabel) + 1, cs, args)
  {
    cs, args := AddNames(q, ByTargetKind, q.targetKind, TargetKind, cs0, args0);
    cs, args := AddNames(q, ByTargetId, q.targetId, TargetId, cs, args);
    cs, args := AddMentions(q, ByTargetLabel, q.targetLabel, TargetLabel, cs, args);
  }

  method AddActor(q: Query, cs0: seq<Cond>, args0: seq<Value>) returns (cs: seq<Cond>, args: seq<Value>)
    requires Says(q, Place(ByActor), cs0, args0)
    ensures Says(q, Place(ByAction) + 1, cs, args)
  {
    cs, args := AddNames(q, ByActor, q.actorId, ActorId, cs0, args0);
    cs, args := AddMentions(q, ByActorLabel, q.actorLabel, ActorLabel, cs, args);
    cs, args := AddAction(q, cs, args);
  }

  method AddRest(q: Query, cs0: seq<Cond>, args0: seq<Value>) returns (cs: seq<Cond>, args: seq<Value>)
    requires Says(q, Place(ByOutcome), cs0, args0)
    ensures Says(q, Place(ByScope) + 1, cs, args)
  {
    cs, args := AddNames(q, ByOutcome, q.outcome, Outcome, cs0, args0);
    cs, args := AddNames(q, ByRequest, q.requestId, RequestId, cs, args);
    cs, args := AddCursor(q, cs, args);
    cs, args := AddScope(q, cs, args);
  }

  // What a query asks for, of the columns of a row.

  ghost predicate Holds(column: Option<string>, wanted: string) {
    wanted != "" ==> column.Some? && exists i :: StandsAt(column.value, wanted, i)
  }

  predicate IsNamed(column: Option<string>, wanted: string) {
    wanted != "" ==> column == Some(wanted)
  }

  /** A final star asks for the actions that begin with the rest, if that has no wildcard;
      with one it is the pattern that SQL makes of it. */
  predicate ActionIs(action: string, wanted: string) {
    if wanted == "" || wanted[|wanted| - 1] != '*' then wanted != "" ==> action == wanted
    else
      var p := wanted[..|wanted| - 1];
      if '%' !in p && '_' !in p then StandsAt(action, p, 0) else Like(p + "%", action, None)
  }

  predicate TargetIn(groups: seq<Id>, r: Row, hosts: Hosts) {
    r.targetId.Some? &&
    if r.targetKind == Some("system_group") then r.targetId.value in groups
    else
      r.targetKind == Some("system") && r.targetId.value in hosts && hosts[r.targetId.value].Some? &&
      hosts[r.targetId.value].value in groups
  }

  /** From since on and before until, with the actor, action, target, outcome and request asked
      for, below the cursor and within the scope. */
  ghost predicate AskedFor(q: Query, r: Row, hosts: Hosts) {
    && (q.since.Some? ==> q.since.value <= r.at) && (q.until.Some? ==> r.at < q.until.value)
    && IsNamed(r.actorId, q.actorId) && Holds(r.actorLabel, q.actorLabel) && ActionIs(r.action, q.action)
    && IsNamed(r.targetKind, q.targetKind) && IsNamed(r.targetId, q.targetId) && Holds(r.targetLabel, q.targetLabel)
    && IsNamed(Some(r.outcome), q.outcome) && IsNamed(r.requestId, q.requestId)
    && (q.afterMillis > 0 && q.afterId != "" ==>
          r.at < q.afterMillis || (r.at == q.afterMillis && Ordering.Before(r.id, q.afterId)))
    && (q.scope.Some? ==> TargetIn(q.scope.value, r, hosts))
  }

  lemma ActionMeans(action: string, wanted: string)
    ensures ActionFits(action, wanted) <==> ActionIs(action, wanted)
  {
    if wanted != "" && Last(wanted) == '*' && '%' !in Front(wanted) && '_' !in Front(wanted) {
      PrefixMeans(Front(wanted), action);
    }
  }

  lemma MentionsMeans(column: Option<string>, wanted: string)
    ensures Mentions(column, wanted) <==> Holds(column, wanted)
  {
    if column.Some? {
      ContainsMeans(column.value, wanted);
    }
  }

  lemma WantedMeans(q: Query, r: Row, hosts: Hosts)
    ensures Wanted(q, r, hosts) <==> AskedFor(q, r, hosts)
  {
    ActionMeans(r.action, q.action);
    MentionsMeans(r.actorLabel, q.actorLabel);
    MentionsMeans(r.targetLabel, q.targetLabel);
    if Wanted(q, r, hosts) {
      assert Fits(q, BySince, r, hosts) && Fits(q, ByUntil, r, hosts) && Fits(q, ByActor, r, hosts);
      assert Fits(q, ByActorLabel, r, hosts) && Fits(q, ByAction, r, hosts) && Fits(q, ByTargetKind, r, hosts);
      assert Fits(q, ByTargetId, r, hosts) && Fits(q, ByTargetLabel, r, hosts) && Fits(q, ByOutcome, r, hosts);
      assert Fits(q, ByRequest, r, hosts) && Fits(q, ByCursor, r, hosts) && Fits(q, ByScope, r, hosts);
    }
  }

  /** The whole clause: its placeholders take exactly the arguments built with it, and it
      selects exactly the rows that answer the query. */
  method BuildWhere(q: Query) returns (cs: seq<Cond>, args: seq<Value>)
    ensures |args| == AllParams(cs)
    ensures forall r, hosts :: Selected(cs, args, r, hosts) <==> Wanted(q, r, hosts)
    ensures forall r, hosts :: Selected(cs, args, r, hosts) <==> AskedFor(q, r, hosts)
  {
    cs, args := AddTimes(q);
    cs, args := AddActor(q, cs, args);
    cs, args := AddTarget(q, cs, args);
    cs, args := AddRest(q, cs, args);
    SaysEverything(q, cs, args);
    forall r, hosts
      ensures Selected(cs, args, r, hosts) <==> AskedFor(q, r, hosts)
    {
      WantedMeans(q, r, hosts);
    }
  }
}
