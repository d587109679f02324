/**
 * The few pieces of the JavaScript runtime that the aggregation routines
 * rely on: CSV rows as d3.csv delivers them, `Number(...)` conversion,
 * the property key that `undefined` turns into, and the numbers that
 * their arithmetic can produce.
 */
module Js {

  datatype Option<+T> = None | Some(value: T)

  /** A CSV row: column name to the raw cell text. */
  type Row = map<string, string>

  /**
   * `Number(text)` for a cell text: Some(n) when the text converts to the
   * integer n, None when it converts to NaN. Every operation takes the
   * conversion as a parameter, so what is proved holds for any of them.
   */
  type NumberParse = string -> Option<int>

  /** A JavaScript number as these routines can produce it. */
  datatype JsNumber = Finite(n: int) | NaN | Infinity

  /** `row[key]`; None stands for `undefined`. */
  function Get(row: Row, key: string): (v: Option<string>)
    ensures v.Some? <==> key in row
    ensures v.Some? ==> v.value == row[key]
  {
    if key in row then Some(row[key]) else None
  }

  /** ToPropertyKey of a cell value: `undefined` becomes the key "undefined". */
  function ToKey(v: Option<string>): (k: string)
  {
    match v
    case Some(s) => s
    case None => "undefined"
  }

  /** `Number(row[key])`; `Number(undefined)` is NaN. */
  function NumberAt(num: NumberParse, row: Row, key: string): (v: Option<int>)
  {
    match Get(row, key)
    case Some(text) => num(text)
    case None => None
  }

  /** `a + b` on numbers: NaN absorbs everything, then Infinity. */
  function Add(a: JsNumber, b: JsNumber): (r: JsNumber)
    ensures r.Finite? <==> a.Finite? && b.Finite?
    ensures r.Finite? ==> r.n == a.n + b.n
    ensures r == NaN <==> a == NaN || b == NaN
  {
    match (a, b)
    case (Finite(x), Finite(y)) => Finite(x + y)
    case (NaN, _) => NaN
    case (_, NaN) => NaN
    case _ => Infinity
  }

  /**
   * `Math.round(sum / count)` for a non-negative sum: `0 / 0` is NaN and a
   * positive sum over 0 is Infinity; otherwise the quotient rounded to the
   * nearest integer, halves up (RoundQuotientIsNearest).
   */
  function RoundQuotient(sum: nat, count: nat): (r: JsNumber)
    ensures count == 0 ==> (r == NaN <==> sum == 0) && (r == Infinity <==> sum > 0)
    ensures count > 0 ==> r.Finite?
  {
    if count > 0 then Finite((2 * sum + count) / (2 * count))
    else if sum == 0 then NaN
    else Infinity
  }

  /** For a positive count, RoundQuotient lies within one half of sum / count, ties rounded up. */
  lemma {:induction false} RoundQuotientIsNearest(sum: nat, count: nat)
    requires count > 0
    ensures var r := RoundQuotient(sum, count).n;
      2 * count * r - count <= 2 * sum < 2 * count * r + count
  {
    var q := (2 * sum + count) / (2 * count);
    var m := (2 * sum + count) % (2 * count);
    assert 2 * count * q + m == 2 * sum + count;
  }
}
