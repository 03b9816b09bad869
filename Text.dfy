/** Character classes, runs, trimming and the scanning of decimal literals, shared by the
    JavaScript, MySQL and PHP conversions of the model. */
module Text {
  import opened Wrappers

  predicate IsDigit(c: char) { '0' <= c <= '9' }

  /** The length of the longest run of `p`-characters in `s` that starts at index `i`. */
  function Run(s: string, i: nat, p: char -> bool): (n: nat)
    requires i <= |s|
    ensures i + n <= |s|
    ensures forall k :: i <= k < i + n ==> p(s[k])
    ensures i + n == |s| || !p(s[i + n])
    decreases |s| - i
  {
    if i < |s| && p(s[i]) then 1 + Run(s, i + 1, p) else 0
  }

  /** Removes leading characters satisfying `sp`. */
  function TrimStart(s: string, sp: char -> bool): (r: string)
    ensures |r| <= |s| && r == s[|s| - |r|..]
    ensures forall i :: 0 <= i < |s| - |r| ==> sp(s[i])
    ensures r == [] || !sp(r[0])
  {
    if |s| > 0 && sp(s[0]) then TrimStart(s[1..], sp) else s
  }

  /** Removes trailing characters satisfying `sp`. */
  function TrimEnd(s: string, sp: char -> bool): (r: string)
    ensures |r| <= |s| && r == s[..|r|]
    ensures forall i :: |r| <= i < |s| ==> sp(s[i])
    ensures r == [] || !sp(r[|r| - 1])
  {
    if |s| > 0 && sp(s[|s| - 1]) then TrimEnd(s[..|s| - 1], sp) else s
  }

  /** Removes leading and trailing characters satisfying `sp`. */
  function Trim(s: string, sp: char -> bool): string {
    TrimEnd(TrimStart(s, sp), sp)
  }

  /** Trimming keeps the infix `s[a..a + |r|]`, where `a` counts the leading `sp`-characters,
      drops only `sp`-characters around it, and leaves neither end on an `sp`-character. */
  lemma TrimShape(s: string, sp: char -> bool, a: nat)
    requires a == |s| - |TrimStart(s, sp)|
    ensures a + |Trim(s, sp)| <= |s| && Trim(s, sp) == s[a..a + |Trim(s, sp)|]
    ensures forall i :: 0 <= i < a ==> sp(s[i])
    ensures forall i :: a + |Trim(s, sp)| <= i < |s| ==> sp(s[i])
    ensures Trim(s, sp) == [] || (!sp(Trim(s, sp)[0]) && !sp(Trim(s, sp)[|Trim(s, sp)| - 1]))
  {
    var t := TrimStart(s, sp);
    var r := TrimEnd(t, sp);
    assert Trim(s, sp) == r;
    InfixShape(s, t, r, a, sp);
  }

  /** The shape of `r` when `t` is `s` without its first `a` characters, all of them `sp`, and
      `r` is `t` without a tail of `sp`-characters. */
  lemma InfixShape(s: string, t: string, r: string, a: nat, sp: char -> bool)
    requires a + |t| == |s| && t == s[a..] && forall i :: 0 <= i < a ==> sp(s[i])
    requires t == [] || !sp(t[0])
    requires |r| <= |t| && r == t[..|r|] && forall i :: |r| <= i < |t| ==> sp(t[i])
    requires r == [] || !sp(r[|r| - 1])
    ensures a + |r| <= |s| && r == s[a..a + |r|]
    ensures forall i :: a + |r| <= i < |s| ==> sp(s[i])
    ensures r == [] || (!sp(r[0]) && !sp(r[|r| - 1]))
  {
    InfixOfSuffix(s, a, |r|);
    forall i | a + |r| <= i < |s| ensures sp(s[i]) {
      assert s[i] == t[i - a];
    }
    if r != [] {
      assert r[0] == t[0];
    }
  }

  /** A prefix of a suffix is an infix. */
  lemma InfixOfSuffix(s: string, a: nat, n: nat)
    requires a + n <= |s|
    ensures s[a..][..n] == s[a..a + n]
  {
    assert forall k :: 0 <= k < n ==> s[a..][..n][k] == s[a + k];
  }

  /** Trimming twice is trimming once. */
  lemma {:induction false} TrimIdempotent(s: string, sp: char -> bool)
    ensures Trim(Trim(s, sp), sp) == Trim(s, sp)
  {
    var r := Trim(s, sp);
    TrimShape(s, sp, |s| - |TrimStart(s, sp)|);
    assert TrimStart(r, sp) == r;
    assert TrimEnd(r, sp) == r;
  }

  /** The value of a decimal digit; 0 for any other character. */
  function DigitValue(c: char): nat {
    if IsDigit(c) then c as int - '0' as int else 0
  }

  /** The value of a string of decimal digits, most significant first. */
  function DigitsValue(d: string): nat {
    if d == [] then 0 else 10 * DigitsValue(d[..|d| - 1]) + DigitValue(d[|d| - 1])
  }

  /** The value of the fraction digits `d` after a decimal point: `0.d`. */
  function FractionValue(d: string): real
    decreases |d|
  {
    if d == [] then 0.0 else (DigitValue(d[0]) as real + FractionValue(d[1..])) / 10.0
  }

  /** A decimal literal scanned at the start of a string: its value and how many characters
      it occupies. */
  datatype Scan = Scan(value: real, length: nat)

  /** The cursor positions of a decimal literal at the start of `s`: an optional sign, then
      `intLen` digits, then optionally a dot followed by `fracLen` digits. */
  function SignLength(s: string): (n: nat)
    ensures n <= |s|
  {
    if |s| > 0 && (s[0] == '+' || s[0] == '-') then 1 else 0
  }

  /** The number of integer digits after the sign. */
  function IntLength(s: string): (n: nat)
    ensures SignLength(s) + n <= |s|
  {
    Run(s, SignLength(s), IsDigit)
  }

  predicate HasDot(s: string) {
    var i := SignLength(s) + IntLength(s);
    i < |s| && s[i] == '.'
  }

  /** The number of fraction digits after the dot, 0 without a dot. */
  function FracLength(s: string): (n: nat)
    ensures HasDot(s) ==> SignLength(s) + IntLength(s) + 1 + n <= |s|
  {
    if HasDot(s) then Run(s, SignLength(s) + IntLength(s) + 1, IsDigit) else 0
  }

  /** Reads the longest decimal literal (sign, digits, optional dot and digits; at least one
      digit) at the start of `s`. Exponents are not part of this grammar. */
  function ScanDecimal(s: string): (r: Option<Scan>)
    ensures r.Some? ==> 0 < r.value.length <= |s|
  {
    var sign := SignLength(s);
    var i := IntLength(s);
    var dot := HasDot(s);
    var f := FracLength(s);
    if i + f == 0 then None
    else
      var whole := DigitsValue(s[sign..sign + i]) as real;
      var frac := if dot then FractionValue(s[sign + i + 1..sign + i + 1 + f]) else 0.0;
      var magnitude := whole + frac;
      Some(Scan(if sign == 1 && s[0] == '-' then -magnitude else magnitude,
                sign + i + (if dot then 1 else 0) + f))
  }

  /** A decimal literal is found exactly when, after the optional sign, the text starts with a
      digit or with a dot followed by a digit. */
  lemma ScanDecimalFound(s: string)
    ensures var k := SignLength(s);
      ScanDecimal(s).Some? <==>
        (k < |s| && IsDigit(s[k])) || (k + 1 < |s| && s[k] == '.' && IsDigit(s[k + 1]))
  {
    var k := SignLength(s);
    if k < |s| && IsDigit(s[k]) {
      assert Run(s, k, IsDigit) > 0;
    } else if k + 1 < |s| && s[k] == '.' && IsDigit(s[k + 1]) {
      assert Run(s, k, IsDigit) == 0;
      assert Run(s, k + 1, IsDigit) > 0;
    } else {
      assert Run(s, k, IsDigit) == 0;
      if HasDot(s) {
        assert Run(s, k + 1, IsDigit) == 0;
      }
    }
  }

  /** A non-empty run of digits scans in full, to the number it denotes. */
  lemma ScanDigits(d: string)
    requires d != [] && forall i :: 0 <= i < |d| ==> IsDigit(d[i])
    ensures ScanDecimal(d) == Some(Scan(DigitsValue(d) as real, |d|))
  {
    assert SignLength(d) == 0;
    RunOfAll(d, 0, IsDigit);
    assert d[0..|d|] == d;
  }

  lemma {:induction false} RunOfAll(s: string, i: nat, p: char -> bool)
    requires i <= |s|
    requires forall k :: i <= k < |s| ==> p(s[k])
    ensures Run(s, i, p) == |s| - i
    decreases |s| - i
  {
    if i < |s| {
      RunOfAll(s, i + 1, p);
    }
  }

  /** A run that stops at the end of `t` stops at the same place in any extension `u` of `t`
      whose next character does not continue it. */
  lemma {:induction false} RunPrefix(t: string, u: string, i: nat, p: char -> bool)
    requires i <= |t| <= |u| && t == u[..|t|]
    requires |t| == |u| || !p(u[|t|])
    ensures Run(u, i, p) == Run(t, i, p)
    decreases |t| - i
  {
    if i < |t| {
      assert u[i] == t[i];
      RunPrefix(t, u, i + 1, p);
    }
  }

  /** The scan depends only on the cursor positions and the digit strings they delimit. */
  lemma ScanCongruent(t: string, u: string)
    requires SignLength(u) == SignLength(t) && IntLength(u) == IntLength(t)
    requires HasDot(u) == HasDot(t) && FracLength(u) == FracLength(t)
    requires SignLength(t) == 1 ==> u[0] == t[0]
    requires var b := SignLength(t) + IntLength(t); u[SignLength(t)..b] == t[SignLength(t)..b]
    requires var b := SignLength(t) + IntLength(t) + 1;
      HasDot(t) ==> u[b..b + FracLength(t)] == t[b..b + FracLength(t)]
    ensures ScanDecimal(u) == ScanDecimal(t)
  {
  }

  /** A literal that fills the whole of `t` is also what is scanned from an extension `u` of `t`
      whose next character is neither a digit nor a dot. */
  lemma ScanExtend(t: string, u: string)
    requires |t| <= |u| && t == u[..|t|]
    requires ScanDecimal(t).Some? && ScanDecimal(t).value.length == |t|
    requires |t| == |u| || (!IsDigit(u[|t|]) && u[|t|] != '.')
    ensures ScanDecimal(u) == ScanDecimal(t)
  {
    ScanPositions(t, u);
    ScanCongruent(t, u);
  }

  /** The cursor positions of a literal that fills `t` are the same in the extension `u`. */
  lemma ScanPositions(t: string, u: string)
    requires |t| <= |u| && t == u[..|t|]
    requires 0 < |t| == SignLength(t) + IntLength(t) + (if HasDot(t) then 1 + FracLength(t) else 0)
    requires |t| == |u| || (!IsDigit(u[|t|]) && u[|t|] != '.')
    ensures SignLength(u) == SignLength(t) && IntLength(u) == IntLength(t)
    ensures HasDot(u) == HasDot(t) && FracLength(u) == FracLength(t)
    ensures SignLength(t) == 1 ==> u[0] == t[0]
    ensures var b := SignLength(t) + IntLength(t); u[SignLength(t)..b] == t[SignLength(t)..b]
    ensures var b := SignLength(t) + IntLength(t) + 1;
      HasDot(t) ==> u[b..b + FracLength(t)] == t[b..b + FracLength(t)]
  {
    IntPositions(t, u);
    if HasDot(t) {
      FracPositions(t, u);
    } else {
      assert SignLength(t) + IntLength(t) == |t|;
    }
  }

  /** The sign and the integer digits of `t` are found in `u` at the same places. */
  lemma IntPositions(t: string, u: string)
    requires 0 < |t| <= |u| && t == u[..|t|]
    requires |t| == |u| || !IsDigit(u[|t|])
    ensures SignLength(u) == SignLength(t) && IntLength(u) == IntLength(t)
    ensures var b := SignLength(t) + IntLength(t); u[SignLength(t)..b] == t[SignLength(t)..b]
  {
    var sign := SignLength(t);
    assert t[0] == u[0];
    RunPrefix(t, u, sign, IsDigit);
    PrefixSlice(t, u, sign, sign + IntLength(t));
  }

  /** So are the dot and the fraction digits, when the literal of `t` has a dot and fills `t`. */
  lemma FracPositions(t: string, u: string)
    requires 0 < |t| <= |u| && t == u[..|t|]
    requires SignLength(u) == SignLength(t) && IntLength(u) == IntLength(t)
    requires HasDot(t) && |t| == SignLength(t) + IntLength(t) + 1 + FracLength(t)
    requires |t| == |u| || !IsDigit(u[|t|])
    ensures HasDot(u) && FracLength(u) == FracLength(t)
    ensures var b := SignLength(t) + IntLength(t) + 1; u[b..b + FracLength(t)] == t[b..b + FracLength(t)]
  {
    var b := SignLength(t) + IntLength(t);
    assert u[b] == t[b];
    RunPrefix(t, u, b + 1, IsDigit);
    PrefixSlice(t, u, b + 1, b + 1 + FracLength(t));
  }

  /** A slice that lies within the prefix `t` of `u` is the same slice of `t`. */
  lemma PrefixSlice(t: string, u: string, a: nat, b: nat)
    requires |t| <= |u| && t == u[..|t|] && a <= b <= |t|
    ensures u[a..b] == t[a..b]
  {
    assert forall k :: a <= k < b ==> u[k] == t[k];
  }
}
