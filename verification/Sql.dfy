/** SQL values, three-valued truth and comparisons, as far as the statements modelled here need them. */
module Sql {
  import opened Common
  import Ordering

  datatype Value = Null | Int(n: int) | Text(s: string)

  datatype Truth = True | False | Unknown

  function Of(b: bool): Truth {
    if b then True else False
  }

  function Both(a: Truth, b: Truth): Truth {
    if a.False? || b.False? then False else if a.Unknown? || b.Unknown? then Unknown else True
  }

  function Either(a: Truth, b: Truth): Truth {
    if a.True? || b.True? then True else if a.Unknown? || b.Unknown? then Unknown else False
  }

  datatype Comparison = Equal | Less | AtLeast

  function Nullable(s: Option<string>): Value {
    if s.Some? then Text(s.value) else Null
  }

  /** Numbers come before texts. */
  predicate IsLess(a: Value, b: Value) {
    (a.Int? && b.Int? && a.n < b.n) || (a.Text? && b.Text? && Ordering.Before(a.s, b.s)) || (a.Int? && b.Text?)
  }

  function CompareValues(a: Value, op: Comparison, b: Value): Truth {
    if a.Null? || b.Null? then Unknown
    else match op
      case Equal => Of(a == b)
      case Less => Of(IsLess(a, b))
      case AtLeast => Of(!IsLess(a, b))
  }

  /** Texts as arguments. */
  function Texts(ts: seq<string>): seq<Value> {
    seq(|ts|, i requires 0 <= i < |ts| => Text(ts[i]))
  }

  lemma TextsContain(ts: seq<string>, t: string)
    ensures Text(t) in Texts(ts) <==> t in ts
    ensures Null !in Texts(ts)
  {
    if t in ts {
      var i :| 0 <= i < |ts| && ts[i] == t;
      assert Texts(ts)[i] == Text(t);
    }
  }
}
