/** Label selectors: the in-memory evaluator and the compiler to SQL with positional
    arguments (internal/labels/selector.go). */
module Selector {
  import opened Common
  import opened Labels
  import opened Sql

  datatype Op = Has | NotHas | Eq | NotEq | In | NotIn

  datatype Requirement = Requirement(op: Op, key: string, values: seq<string>)

  type Selector = seq<Requirement>

  /** What the evaluators rely on: how many values each operator comes with. */
  predicate ArityOk(r: Requirement) {
    match r.op
    case Has => r.values == []
    case NotHas => r.values == []
    case Eq => |r.values| == 1
    case NotEq => |r.values| == 1
    case In => |r.values| >= 1
    case NotIn => |r.values| >= 1
  }

  // -------------------------------------------------------- what selectors mean

  /** A system's labels by key; None is a bare tag, a NULL value. */
  type LabelMap = map<string, Option<string>>

  /** The documented meaning: a positive operator needs a present, non-NULL value, and
      each negative operator is the negation of its positive one. */
  predicate Satisfies(labels: LabelMap, r: Requirement) {
    match r.op
    case Has => r.key in labels
    case NotHas => r.key !in labels
    case Eq => r.key in labels && labels[r.key].Some? && labels[r.key].value in r.values
    case In => r.key in labels && labels[r.key].Some? && labels[r.key].value in r.values
    case NotEq => !(r.key in labels && labels[r.key].Some? && labels[r.key].value in r.values)
    case NotIn => !(r.key in labels && labels[r.key].Some? && labels[r.key].value in r.values)
  }

  predicate SatisfiesAll(labels: LabelMap, sel: Selector) {
    forall i :: 0 <= i < |sel| ==> Satisfies(labels, sel[i])
  }

  // ------------------------------------------------------- the in-memory evaluator

  datatype Label = Label(key: string, value: Option<string>)

  /** The labels by key, a later one replacing an earlier one. */
  function ByKey(labels: seq<Label>): LabelMap {
    if labels == [] then map[] else ByKey(Front(labels))[Last(labels).key := Last(labels).value]
  }

  method Contains(values: seq<string>, v: string) returns (found: bool)
    ensures found == (v in values)
  {
    for i := 0 to |values|
      invariant v !in values[..i]
    {
      if values[i] == v {
        return true;
      }
    }
    return false;
  }

  method MatchesRequirement(r: Requirement, byKey: LabelMap) returns (ok: bool)
    requires ArityOk(r)
    ensures ok == Satisfies(byKey, r)
  {
    var present := r.key in byKey;
    var v := if present then byKey[r.key] else None;
    match r.op {
      case Has => ok := present;
      case NotHas => ok := !present;
      case Eq => ok := present && v.Some? && v.value == r.values[0];
      case NotEq => ok := !present || v.None? || v.value != r.values[0];
      case In =>
        if !present || v.None? {
          return false;
        }
        ok := Contains(r.values, v.value);
      case NotIn =>
        if !present || v.None? {
          return true;
        }
        var found := Contains(r.values, v.value);
        ok := !found;
    }
  }

  method Matches(sel: Selector, labels: seq<Label>) returns (ok: bool)
    requires forall i :: 0 <= i < |sel| ==> ArityOk(sel[i])
    ensures ok == SatisfiesAll(ByKey(labels), sel)
  {
    var byKey: LabelMap := map[];
    for i := 0 to |labels|
      invariant byKey == ByKey(labels[..i])
    {
      assert Front(labels[..i + 1]) == labels[..i];
      byKey := byKey[labels[i].key := labels[i].value];
    }
    assert labels[..|labels|] == labels;
    for i := 0 to |sel|
      invariant forall j :: 0 <= j < i ==> Satisfies(byKey, sel[j])
    {
      var one := MatchesRequirement(sel[i], byKey);
      if !one {
        return false;
      }
    }
    return true;
  }

  // ------------------------------------------------------------ the SQL compiler

  /** The condition on value in a fragment; every "?" is one placeholder. */
  datatype ValueTest = AnyValue | EqualParam | InParams(n: nat)

  /** [NOT] EXISTS (SELECT 1 FROM system_labels WHERE system_id = id AND key = ? [AND ...]) */
  datatype Fragment = Exists(negated: bool, test: ValueTest)

  /** The system_labels table; (system, key) is its primary key. */
  type Table = map<Id, LabelMap>

  function RowsOf(t: Table, system: Id): LabelMap {
    if system in t then t[system] else map[]
  }

  function Params(f: Fragment): nat {
    1 + match f.test
        case AnyValue => 0
        case EqualParam => 1
        case InParams(n) => n
  }

  /** The truth of a row's WHERE condition, given the fragment's own arguments. */
  function RowTruth(f: Fragment, args: seq<Value>, key: string, value: Option<string>): Truth
    requires |args| == Params(f)
  {
    Both(CompareValues(Text(key), Equal, args[0]),
      match f.test
      case AnyValue => True
      case EqualParam => CompareValues(Nullable(value), Equal, args[1])
      case InParams(_) => if value.None? then Unknown else Of(Text(value.value) in args[1..]))
  }

  /** EXISTS keeps only the rows whose condition is true, and is never NULL itself. */
  ghost predicate FragmentHolds(f: Fragment, args: seq<Value>, t: Table, system: Id)
    requires |args| == Params(f)
  {
    f.negated != exists key :: key in RowsOf(t, system) && RowTruth(f, args, key, RowsOf(t, system)[key]).True?
  }

  function AllParams(fs: seq<Fragment>): nat {
    if fs == [] then 0 else AllParams(Front(fs)) + Params(Last(fs))
  }

  /** The conjunction; the arguments are taken from left to right, one to a placeholder. */
  ghost predicate AllHold(fs: seq<Fragment>, args: seq<Value>, t: Table, system: Id)
    requires |args| == AllParams(fs)
  {
    fs == [] ||
    var n := AllParams(Front(fs));
    AllHold(Front(fs), args[..n], t, system) && FragmentHolds(Last(fs), args[n..], t, system)
  }

  method RequirementSQL(r: Requirement) returns (f: Fragment, args: seq<Value>)
    requires ArityOk(r)
    ensures |args| == Params(f)
    ensures forall t, system :: FragmentHolds(f, args, t, system) <==> Satisfies(RowsOf(t, system), r)
  {
    match r.op {
      case Has => f, args := Exists(false, AnyValue), [Text(r.key)];
      case NotHas => f, args := Exists(true, AnyValue), [Text(r.key)];
      case Eq => f, args := Exists(false, EqualParam), [Text(r.key), Text(r.values[0])];
      case NotEq => f, args := Exists(true, EqualParam), [Text(r.key), Text(r.values[0])];
      case _ =>
        f := Exists(r.op.NotIn?, InParams(|r.values|));
        args := [Text(r.key)];
        for i := 0 to |r.values|
          invariant args == [Text(r.key)] + Texts(r.values[..i])
        {
          args := args + [Text(r.values[i])];
        }
        assert r.values[..|r.values|] == r.values;
    }
    forall t, system
      ensures FragmentHolds(f, args, t, system) <==> Satisfies(RowsOf(t, system), r)
    {
      FragmentMeans(f, args, r, RowsOf(t, system));
    }
  }

  /** One row at most can pass the key test, so EXISTS speaks of the key's value. */
  lemma FragmentMeans(f: Fragment, args: seq<Value>, r: Requirement, rows: LabelMap)
    requires |args| == Params(f) && args[0] == Text(r.key) && ArityOk(r)
    requires r.op.Has? || r.op.NotHas? ==> f.test.AnyValue?
    requires r.op.Eq? || r.op.NotEq? ==> f.test.EqualParam? && args[1] == Text(r.values[0])
    requires r.op.In? || r.op.NotIn? ==> f.test.InParams? && args[1..] == Texts(r.values)
    requires f.negated == (r.op.NotHas? || r.op.NotEq? || r.op.NotIn?)
    ensures (f.negated != exists key :: key in rows && RowTruth(f, args, key, rows[key]).True?) <==> Satisfies(rows, r)
  {
    if r.key in rows && rows[r.key].Some? {
      TextsContain(r.values, rows[r.key].value);
    }
    assert forall key :: key in rows && RowTruth(f, args, key, rows[key]).True? ==> key == r.key;
  }

  /** The compiled selector: as many arguments as placeholders, in order, and true of a
      system exactly when the selector is satisfied by that system's rows. */
  method SQL(sel: Selector) returns (parts: seq<Fragment>, args: seq<Value>)
    requires forall i :: 0 <= i < |sel| ==> ArityOk(sel[i])
    ensures |parts| == |sel| && |args| == AllParams(parts)
    ensures forall t, system :: AllHold(parts, args, t, system) <==> SatisfiesAll(RowsOf(t, system), sel)
  {
    parts, args := [], [];
    for n := 0 to |sel|
      invariant |parts| == n && |args| == AllParams(parts)
      invariant forall t, system :: AllHold(parts, args, t, system) <==> SatisfiesAll(RowsOf(t, system), sel[..n])
    {
      var f, more := RequirementSQL(sel[n]);
      forall t, system
        ensures |args + more| == AllParams(parts + [f])
        ensures AllHold(parts + [f], args + more, t, system) <==> SatisfiesAll(RowsOf(t, system), sel[..n + 1])
      {
        AllHoldAlso(parts, args, f, more, t, system);
        SatisfiesOneMore(RowsOf(t, system), sel, n);
      }
      parts, args := parts + [f], args + more;
    }
    assert sel[..|sel|] == sel;
  }

  lemma {:induction false} AllHoldAlso(
    fs: seq<Fragment>, args: seq<Value>, f: Fragment, more: seq<Value>, t: Table, system: Id)
    requires |args| == AllParams(fs) && |more| == Params(f)
    ensures |args + more| == AllParams(fs + [f])
    ensures AllHold(fs + [f], args + more, t, system) <==>
      AllHold(fs, args, t, system) && FragmentHolds(f, more, t, system)
  {
    assert Front(fs + [f]) == fs;
    assert (args + more)[..|args|] == args && (args + more)[|args|..] == more;
  }

  lemma SatisfiesOneMore(labels: LabelMap, sel: Selector, n: nat)
    requires n < |sel|
    ensures SatisfiesAll(labels, sel[..n + 1]) <==> SatisfiesAll(labels, sel[..n]) && Satisfies(labels, sel[n])
  {
    var longer := sel[..n + 1];
    assert forall i :: 0 <= i < n ==> longer[i] == sel[..n][i];
    assert longer[n] == sel[n];
    if SatisfiesAll(labels, sel[..n]) && Satisfies(labels, sel[n]) {
      forall i | 0 <= i < |longer|
        ensures Satisfies(labels, longer[i])
      {
        assert i < n ==> Satisfies(labels, sel[..n][i]);
      }
    }
  }

  // ---------------------------------------------------------- the two agree

  /** labels lists a system's rows, in any order. */
  ghost predicate ListsRows(labels: seq<Label>, rows: LabelMap) {
    && (forall i, j :: 0 <= i < j < |labels| ==> labels[i].key != labels[j].key)
    && (forall i :: 0 <= i < |labels| ==> labels[i].key in rows && rows[labels[i].key] == labels[i].value)
    && (forall k :: k in rows ==> exists i :: 0 <= i < |labels| && labels[i].key == k)
  }

  lemma {:induction false} ByKeyAt(labels: seq<Label>, i: int)
    requires 0 <= i < |labels| && forall j, k :: 0 <= j < k < |labels| ==> labels[j].key != labels[k].key
    ensures labels[i].key in ByKey(labels) && ByKey(labels)[labels[i].key] == labels[i].value
  {
    if i < |labels| - 1 {
      ByKeyAt(Front(labels), i);
      assert labels[i].key != Last(labels).key;
    }
  }

  lemma {:induction false} ByKeyKeys(labels: seq<Label>)
    ensures forall k :: k in ByKey(labels) ==> exists i :: 0 <= i < |labels| && labels[i].key == k
  {
    if labels != [] {
      ByKeyKeys(Front(labels));
      assert forall i :: 0 <= i < |labels| - 1 ==> Front(labels)[i] == labels[i];
    }
  }

  lemma ListingIsRows(labels: seq<Label>, rows: LabelMap)
    requires ListsRows(labels, rows)
    ensures ByKey(labels) == rows
  {
    ByKeyKeys(labels);
    forall i | 0 <= i < |labels|
      ensures labels[i].key in ByKey(labels) && ByKey(labels)[labels[i].key] == labels[i].value
    {
      ByKeyAt(labels, i);
    }
    assert forall k :: k in rows ==> k in ByKey(labels) && ByKey(labels)[k] == rows[k];
    assert forall k :: k in ByKey(labels) ==> k in rows;
  }

  /** The two evaluators on the same system: NULLs, absent keys and all six operators included. */
  method EvaluatorsAgree(sel: Selector, t: Table, system: Id, labels: seq<Label>)
    returns (inMemory: bool, parts: seq<Fragment>, args: seq<Value>)
    requires forall i :: 0 <= i < |sel| ==> ArityOk(sel[i])
    requires ListsRows(labels, RowsOf(t, system))
    ensures |args| == AllParams(parts) && inMemory == AllHold(parts, args, t, system)
  {
    ListingIsRows(labels, RowsOf(t, system));
    inMemory := Matches(sel, labels);
    parts, args := SQL(sel);
  }
}
