/** How the database treats the JavaScript values bound to the `?` placeholders of a
    statement: numeric cells, the comparison in a `WHERE column = ?` clause, and the conversion
    on `INSERT`. The schema is not part of the repository; every non-key column read as a
    number is taken to be a numeric column without rounding and the server to run in strict
    SQL mode. */
module Sql {
  import opened Wrappers
  import opened Text
  import opened Js

  /** A numeric cell; `None` is NULL. */
  type Cell = Option<real>

  /** The number the database compares a numeric column with when the parameter is `v`: a
      string gives its longest numeric prefix after leading white space (0 when there is
      none), a boolean 1 or 0; `null` and `undefined` are NULL. */
  function KeyOf(v: JsValue): (k: Cell)
    ensures k.None? <==> v.Null? || v.Undefined?
  {
    match v
    case Undefined => None
    case Null => None
    case Bool(b) => Some(if b then 1.0 else 0.0)
    case Num(n) => Some(n)
    case Str(s) => Some(OrZero(ParseFloat(s)))
  }

  /** `column = ?`: never true when either side is NULL. */
  predicate Matches(column: Cell, param: JsValue) {
    column.Some? && KeyOf(param) == column
  }

  /** The conversion of a parameter written into a numeric column. */
  datatype StoreResult = Rejected | Stored(cell: Cell)

  /** `null` and `undefined` are written as NULL, numbers as themselves, booleans as 1 and 0; a
      string must be one whole decimal literal (white space around it allowed), and any other
      string makes the statement fail. */
  function StoreCell(v: JsValue): (r: StoreResult)
    ensures r == Stored(None) <==> v.Null? || v.Undefined?
    ensures v.Num? ==> r == Stored(Some(v.n))
    ensures v.Bool? ==> r == Stored(Some(if v.b then 1.0 else 0.0))
    ensures v.Str? ==> (r.Stored? <==> StrTrim(v.s) != "" && StringToNumber(v.s).Finite?)
  {
    match v
    case Str(s) =>
      var x := StringToNumber(s);
      if StrTrim(s) != "" && x.Finite? then Stored(Some(x.r)) else Rejected
    case _ => Stored(KeyOf(v))
  }

  /** Round trip: a row written with parameter `v` is found again by `WHERE column = ?` with
      the same parameter, whatever form (number, numeric string, boolean) `v` takes. */
  lemma StoredMatches(v: JsValue)
    requires StoreCell(v).Stored? && StoreCell(v).cell.Some?
    ensures Matches(StoreCell(v).cell, v)
  {
    if v.Str? {
      var s := v.s;
      var u := TrimStart(s, IsSpace);
      var t := TrimEnd(u, IsSpace);
      assert t == StrTrim(s);
      assert t != "";
      var sc := ScanDecimal(t).value;
      assert sc.length == |t|;
      assert |t| == |u| || IsSpace(u[|t|]);
      ScanExtend(t, u);
    }
  }

  /** The conversions of a statement's parameters, or `None` when one of them is refused. */
  function StoreAll(vs: seq<JsValue>): (r: Option<seq<Cell>>)
    ensures r.Some? <==> forall i :: 0 <= i < |vs| ==> StoreCell(vs[i]).Stored?
    ensures r.Some? ==> |r.value| == |vs| && forall i :: 0 <= i < |vs| ==> r.value[i] == StoreCell(vs[i]).cell
  {
    if exists i :: 0 <= i < |vs| && StoreCell(vs[i]).Rejected? then None
    else Some(seq(|vs|, i requires 0 <= i < |vs| => StoreCell(vs[i]).cell))
  }

  /** Parameters that all convert store exactly their cells. */
  lemma StoreAllOf(vs: seq<JsValue>, cs: seq<Cell>)
    requires |vs| == |cs| && forall i :: 0 <= i < |vs| ==> StoreCell(vs[i]) == Stored(cs[i])
    ensures StoreAll(vs) == Some(cs)
  {
    assert forall i :: 0 <= i < |vs| ==> StoreCell(vs[i]).Stored?;
    assert StoreAll(vs).value == cs;
  }

  /** A stored parameter that is not NULL is found again by the parameter it came from. */
  lemma StoreAllMatches(vs: seq<JsValue>, i: nat)
    requires StoreAll(vs).Some? && i < |vs| && !vs[i].Null? && !vs[i].Undefined?
    ensures Matches(StoreAll(vs).value[i], vs[i])
  {
    StoredMatches(vs[i]);
  }

  /** A natural number sent as a query parameter arrives as its decimal string, which is
      truthy and selects the rows whose key is that number. */
  lemma DecimalParamKey(n: nat)
    ensures Truthy(Str(DecimalString(n)))
    ensures KeyOf(Str(DecimalString(n))) == Some(n as real)
  {
    ParseDecimalString(n);
  }
}
