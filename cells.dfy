/**
 * The values in a run-log row and the order the table sorts them by.
 * A cell holds a string, a number or a boolean; a row without the column's
 * key yields `undefined`, modelled as None.
 */
module Cells {
  import opened Wrappers

  /**
   * A number cell carries its value and the text `Number.prototype.toString`
   * prints for it; the model does not compute that text itself.
   */
  datatype Cell = Str(s: string) | Num(value: real, text: string) | Flag(b: bool)

  /** `value.toString()` */
  function Show(c: Cell): (r: string)
    ensures c.Str? ==> r == c.s
    ensures c.Num? ==> r == c.text
    ensures c.Flag? ==> (r == "true" <==> c.b) && (r == "false" <==> !c.b)
  {
    match c
    case Str(s) => s
    case Num(_, text) => text
    case Flag(b) => if b then "true" else "false"
  }

  /** JavaScript truthiness of a cell value (`undefined`, `false`, `0` and `""` are falsy). */
  predicate Truthy(v: Option<Cell>)
    ensures !Truthy(v) <==>
      v in {None, Some(Flag(false)), Some(Str(""))} || (v.Some? && v.value.Num? && v.value.value == 0.0)
  {
    match v
    case None => false
    case Some(Str(s)) => s != ""
    case Some(Num(x, _)) => x != 0.0
    case Some(Flag(b)) => b
  }

  /** `typeof value === 'number' && !Number.isInteger(value)` */
  predicate IsFraction(v: Option<Cell>)
    ensures IsFraction(v) ==>
      v.Some? && v.value.Num? && v.value.value.Floor as real < v.value.value < (v.value.value.Floor + 1) as real
  {
    v.Some? && v.value.Num? && v.value.value.Floor as real != v.value.value
  }

  /** String `<`: lexicographic on characters. */
  predicate StrBelow(a: string, b: string)
    decreases |a|
  {
    if a == [] then b != []
    else if b == [] then false
    else a[0] < b[0] || (a[0] == b[0] && StrBelow(a[1..], b[1..]))
  }

  lemma {:induction false} StrBelowAsymmetric(a: string, b: string)
    ensures !(StrBelow(a, b) && StrBelow(b, a))
    decreases |a|
  {
    if a != [] && b != [] && a[0] == b[0] {
      StrBelowAsymmetric(a[1..], b[1..]);
    }
  }

  /** If a < c then every b lies above a or below c. */
  lemma {:induction false} StrBelowNegTransitive(a: string, b: string, c: string)
    requires StrBelow(a, c)
    ensures StrBelow(a, b) || StrBelow(b, c)
    decreases |a|
  {
    if a != [] && b != [] && a[0] == b[0] && b[0] == c[0] {
      StrBelowNegTransitive(a[1..], b[1..], c[1..]);
    }
  }

  /** Sort position of a kind: missing, then booleans, then numbers, then strings. */
  function Rank(v: Option<Cell>): nat {
    match v
    case None => 0
    case Some(Flag(_)) => 1
    case Some(Num(_, _)) => 2
    case Some(Str(_)) => 3
  }

  /** The strict order the comparator's `<` stands for. */
  predicate Below(a: Option<Cell>, b: Option<Cell>)
    ensures a.None? ==> (Below(a, b) <==> b.Some?)
    ensures Below(a, b) ==> Rank(a) <= Rank(b)
    ensures a.Some? && b.Some? && a.value.Num? && b.value.Num? ==> (Below(a, b) <==> a.value.value < b.value.value)
    ensures a.Some? && b.Some? && a.value.Flag? && b.value.Flag? ==> (Below(a, b) <==> !a.value.b && b.value.b)
  {
    if Rank(a) != Rank(b) then Rank(a) < Rank(b)
    else match (a, b)
      case (Some(Flag(x)), Some(Flag(y))) => !x && y
      case (Some(Num(x, _)), Some(Num(y, _))) => x < y
      case (Some(Str(x)), Some(Str(y))) => StrBelow(x, y)
      case _ => false
  }

  lemma BelowAsymmetric(a: Option<Cell>, b: Option<Cell>)
    ensures !(Below(a, b) && Below(b, a))
  {
    if a.Some? && b.Some? && a.value.Str? && b.value.Str? {
      StrBelowAsymmetric(a.value.s, b.value.s);
    }
  }

  /** Below is a strict weak order: if a < c then every b lies above a or below c. */
  lemma BelowNegTransitive(a: Option<Cell>, b: Option<Cell>, c: Option<Cell>)
    requires Below(a, c)
    ensures Below(a, b) || Below(b, c)
  {
    if Rank(a) == Rank(b) == Rank(c) && a.Some? && a.value.Str? {
      StrBelowNegTransitive(a.value.s, b.value.s, c.value.s);
    }
  }
}
