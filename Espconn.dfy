/** The ESP32 bridge: the `/api/data` route fetches the plug's status page and extracts four
    labelled readings with the regular expressions `/Vrms: ([\d.]+)/`, `/Irms: ([\d.]+)/`,
    `/Power: ([\d.]+)/` and `/kWh: ([\d.]+)/`. Each is matched on its own over the whole
    page, at its leftmost position, with a greedy capture. */
module Espconn {
  import opened Wrappers
  import opened Text

  /** The characters of `[\d.]`. */
  predicate IsValueChar(c: char) {
    IsDigit(c) || c == '.'
  }

  const VrmsTag := "Vrms: "
  const IrmsTag := "Irms: "
  const PowerTag := "Power: "
  const KwhTag := "kWh: "

  /** The pattern `tag([\d.]+)` matches at position `p`: the tag is there and at least one
      value character follows it. */
  predicate MatchesAt(body: string, tag: string, p: nat) {
    p + |tag| < |body| && body[p..p + |tag|] == tag && IsValueChar(body[p + |tag|])
  }

  /** The leftmost match position at or after `from`. */
  function FirstMatch(body: string, tag: string, from: nat): (r: Option<nat>)
    requires from <= |body|
    ensures r.Some? ==> from <= r.value && MatchesAt(body, tag, r.value)
    ensures r.Some? ==> forall p :: from <= p < r.value ==> !MatchesAt(body, tag, p)
    ensures r.None? ==> forall p :: from <= p ==> !MatchesAt(body, tag, p)
    decreases |body| - from
  {
    if MatchesAt(body, tag, from) then Some(from)
    else if from == |body| then None
    else FirstMatch(body, tag, from + 1)
  }

  /** The capture group of `tag([\d.]+)`: the longest run of value characters after the
      leftmost match, or `None` when the pattern does not occur. */
  function Capture(body: string, tag: string): (v: Option<string>)
    ensures v.Some? ==> v.value != [] && forall k :: 0 <= k < |v.value| ==> IsValueChar(v.value[k])
  {
    match FirstMatch(body, tag, 0)
    case None => None
    case Some(p) =>
      var start := p + |tag|;
      Some(body[start..start + Run(body, start, IsValueChar)])
  }

  /** The four readings, as the strings captured from the page. */
  datatype Readings = Readings(vrms: string, irms: string, power: string, kwh: string)

  /** The JSON reply: `connected` with the readings, or `error` (status 500). */
  datatype Reply = Connected(data: Readings) | Failed

  /** The route on the fetched page; `None` when the fetch failed or the page is not text.
      A tag that does not match makes `match(...)` null, the indexing throws, and the reply is
      the error as a whole. */
  function Parse(page: Option<string>): Reply {
    match page
    case None => Failed
    case Some(body) =>
      var v := Capture(body, VrmsTag);
      var i := Capture(body, IrmsTag);
      var w := Capture(body, PowerTag);
      var k := Capture(body, KwhTag);
      if v.Some? && i.Some? && w.Some? && k.Some? then Connected(Readings(v.value, i.value, w.value, k.value))
      else Failed
  }

  /** A capture exists exactly when the tag occurs somewhere followed by a value character. */
  lemma CaptureFound(body: string, tag: string)
    ensures Capture(body, tag).Some? <==> exists p :: MatchesAt(body, tag, p)
  {
    if Capture(body, tag).Some? {
      assert MatchesAt(body, tag, FirstMatch(body, tag, 0).value);
    }
  }

  /** The capture is the maximal run of value characters after the leftmost occurrence of the
      tag that is followed by one; earlier occurrences not so followed are skipped. */
  lemma CaptureLeftmost(body: string, tag: string, p: nat)
    requires MatchesAt(body, tag, p)
    requires forall q :: 0 <= q < p ==> !MatchesAt(body, tag, q)
    ensures var start := p + |tag|;
      var n := Run(body, start, IsValueChar);
      0 < n && (start + n == |body| || !IsValueChar(body[start + n]))
      && Capture(body, tag) == Some(body[start..start + n])
  {
    LeftmostIsFirst(body, tag, p);
    CaptureAtFirst(body, tag, p);
    ValueFollowsTag(body, tag, p);
  }

  lemma LeftmostIsFirst(body: string, tag: string, p: nat)
    requires MatchesAt(body, tag, p)
    requires forall q :: 0 <= q < p ==> !MatchesAt(body, tag, q)
    ensures FirstMatch(body, tag, 0) == Some(p)
  {
    var r := FirstMatch(body, tag, 0);
    assert !(r.value < p) && !(p < r.value);
  }

  lemma CaptureAtFirst(body: string, tag: string, p: nat)
    requires FirstMatch(body, tag, 0) == Some(p)
    ensures var start := p + |tag|;
      Capture(body, tag) == Some(body[start..start + Run(body, start, IsValueChar)])
  {
  }

  lemma ValueFollowsTag(body: string, tag: string, p: nat)
    requires MatchesAt(body, tag, p)
    ensures 0 < Run(body, p + |tag|, IsValueChar)
  {
  }

  /** The reply is `connected` exactly when each of the four labels occurs followed by a digit
      or a dot, and then each reading is a non-empty string of digits and dots. */
  lemma ParseConnected(body: string)
    ensures Parse(Some(body)).Connected? <==>
      (exists p :: MatchesAt(body, VrmsTag, p)) && (exists p :: MatchesAt(body, IrmsTag, p))
      && (exists p :: MatchesAt(body, PowerTag, p)) && (exists p :: MatchesAt(body, KwhTag, p))
    ensures Parse(Some(body)).Connected? ==>
      var d := Parse(Some(body)).data;
      Some(d.vrms) == Capture(body, VrmsTag) && Some(d.irms) == Capture(body, IrmsTag)
      && Some(d.power) == Capture(body, PowerTag) && Some(d.kwh) == Capture(body, KwhTag)
  {
    CaptureFound(body, VrmsTag);
    CaptureFound(body, IrmsTag);
    CaptureFound(body, PowerTag);
    CaptureFound(body, KwhTag);
  }

  /** A capture need not be a well-formed number: "Vrms: 1.2.3" yields "1.2.3". */
  lemma CaptureNotNumeric()
    ensures Capture("Vrms: 1.2.3", VrmsTag) == Some("1.2.3")
  {
    var body := "Vrms: 1.2.3";
    assert MatchesAt(body, VrmsTag, 0);
    assert body[6..11] == "1.2.3";
    assert Run(body, 11, IsValueChar) == 0;
    assert Run(body, 6, IsValueChar) == 5;
  }

  /** The label occurs somewhere followed by a value character. */
  predicate Occurs(body: string, tag: string) {
    exists p :: 0 <= p < |body| && MatchesAt(body, tag, p)
  }

  /** The labels are looked up independently over the whole page, so two parts of the page may
      be swapped: when no label occurs in both parts, the page with the parts in either order
      gives the same reply. */
  lemma ParseOrderIndependent(x: string, y: string)
    requires !(Occurs(x, VrmsTag) && Occurs(y, VrmsTag)) && !(Occurs(x, IrmsTag) && Occurs(y, IrmsTag))
    requires !(Occurs(x, PowerTag) && Occurs(y, PowerTag)) && !(Occurs(x, KwhTag) && Occurs(y, KwhTag))
    ensures Parse(Some(x + "\n" + y)) == Parse(Some(y + "\n" + x))
  {
    assert '\n' !in VrmsTag && '\n' !in IrmsTag && '\n' !in PowerTag && '\n' !in KwhTag;
    CaptureSwap(x, y, VrmsTag);
    CaptureSwap(x, y, IrmsTag);
    CaptureSwap(x, y, PowerTag);
    CaptureSwap(x, y, KwhTag);
  }

  /** `b` is `x`, a line break, then `y`. */
  predicate Split(x: string, b: string, y: string) {
    |b| == |x| + 1 + |y| && b[..|x|] == x && b[|x|] == '\n' && b[|x| + 1..] == y
  }

  lemma SplitJoin(x: string, y: string)
    ensures Split(x, x + "\n" + y, y)
  {
    var b := x + "\n" + y;
    assert b[..|x|] == x;
    assert b[|x| + 1..] == y;
  }

  /** One label's capture does not depend on the order of two parts it does not occur in both of. */
  lemma CaptureSwap(x: string, y: string, tag: string)
    requires '\n' !in tag && !(Occurs(x, tag) && Occurs(y, tag))
    ensures Capture(x + "\n" + y, tag) == Capture(y + "\n" + x, tag)
  {
    var xy := x + "\n" + y;
    var yx := y + "\n" + x;
    SplitJoin(x, y);
    SplitJoin(y, x);
    if Occurs(x, tag) {
      CaptureFirst(x, xy, y, tag);
      CaptureSecond(y, yx, x, tag);
    } else if Occurs(y, tag) {
      CaptureSecond(x, xy, y, tag);
      CaptureFirst(y, yx, x, tag);
    } else {
      CaptureSecond(x, xy, y, tag);
      CaptureSecond(y, yx, x, tag);
      CaptureFound(x, tag);
      CaptureFound(y, tag);
    }
  }

  /** A label that occurs in the first part is captured there. */
  lemma CaptureFirst(x: string, b: string, y: string, tag: string)
    requires Split(x, b, y) && '\n' !in tag && Occurs(x, tag)
    ensures Capture(b, tag) == Capture(x, tag)
  {
    var p := FirstMatch(x, tag, 0).value;
    LeftmostInFirst(x, b, y, tag, p);
    var i := p + |tag|;
    assert i < |x| by { assert MatchesAt(x, tag, p); }
    RunSlicePrefix(x, b, i);
    SameCapture(x, b, tag, p, p, i, i);
  }

  /** The leftmost match in the first part is the leftmost match of the whole page. */
  lemma LeftmostInFirst(x: string, b: string, y: string, tag: string, p: nat)
    requires Split(x, b, y) && '\n' !in tag && MatchesAt(x, tag, p)
    requires forall q :: 0 <= q < p ==> !MatchesAt(x, tag, q)
    ensures FirstMatch(b, tag, 0) == Some(p)
  {
    forall q | 0 <= q < p
      ensures !MatchesAt(b, tag, q)
    {
      MatchInFirst(x, b, y, tag, q);
    }
    MatchInFirst(x, b, y, tag, p);
    LeftmostIsFirst(b, tag, p);
  }

  /** Two pages whose runs after their first matches agree capture the same text. */
  lemma SameCapture(x: string, b: string, tag: string, p: nat, q: nat, i: nat, j: nat)
    requires FirstMatch(x, tag, 0) == Some(p) && FirstMatch(b, tag, 0) == Some(q)
    requires i == p + |tag| <= |x| && j == q + |tag| <= |b|
    requires x[i..i + Run(x, i, IsValueChar)] == b[j..j + Run(b, j, IsValueChar)]
    ensures Capture(b, tag) == Capture(x, tag)
  {
    var v := x[i..i + Run(x, i, IsValueChar)];
    CaptureIs(x, tag, p, i, v);
    CaptureIs(b, tag, q, j, v);
  }

  lemma CaptureIs(body: string, tag: string, p: nat, i: nat, v: string)
    requires FirstMatch(body, tag, 0) == Some(p) && i == p + |tag| <= |body|
    requires v == body[i..i + Run(body, i, IsValueChar)]
    ensures Capture(body, tag) == Some(v)
  {
    CaptureAtFirst(body, tag, p);
  }

  lemma RunSlicePrefix(x: string, b: string, i: nat)
    requires i <= |x| < |b| && x == b[..|x|] && !IsValueChar(b[|x|])
    ensures Run(b, i, IsValueChar) == Run(x, i, IsValueChar)
    ensures b[i..i + Run(b, i, IsValueChar)] == x[i..i + Run(x, i, IsValueChar)]
  {
    RunPrefix(x, b, i, IsValueChar);
    var n := Run(x, i, IsValueChar);
    assert forall k :: i <= k < i + n ==> x[k] == b[k];
    assert b[i..i + n] == x[i..i + n];
  }

  /** A label that does not occur in the first part is captured in the second. */
  lemma CaptureSecond(x: string, b: string, y: string, tag: string)
    requires Split(x, b, y) && '\n' !in tag && !Occurs(x, tag)
    ensures Capture(b, tag) == Capture(y, tag)
  {
    match FirstMatch(y, tag, 0)
    case None =>
      NoMatchInJoin(x, b, y, tag);
      CaptureFound(b, tag);
      CaptureFound(y, tag);
    case Some(q) =>
      var i, j := q + |tag|, |x| + 1 + q + |tag|;
      assert i < |y| && j < |b| by { assert MatchesAt(y, tag, q); }
      LeftmostInSecond(x, b, y, tag, q);
      RunSliceShift(y, b, |x| + 1, i, j);
      SameCapture(y, b, tag, q, |x| + 1 + q, i, j);
  }

  /** A label in neither part does not occur in the whole page. */
  lemma NoMatchInJoin(x: string, b: string, y: string, tag: string)
    requires Split(x, b, y) && '\n' !in tag && !Occurs(x, tag) && !Occurs(y, tag)
    ensures !Occurs(b, tag)
  {
    forall r: nat | r < |b|
      ensures !MatchesAt(b, tag, r)
    {
      if r <= |x| {
        MatchInFirst(x, b, y, tag, r);
      } else {
        MatchInSecond(x, b, y, tag, r - |x| - 1);
      }
    }
  }

  /** The leftmost match in the second part, when the first has none, is the leftmost match of
      the whole page. */
  lemma LeftmostInSecond(x: string, b: string, y: string, tag: string, q: nat)
    requires Split(x, b, y) && '\n' !in tag && !Occurs(x, tag) && MatchesAt(y, tag, q)
    requires forall r :: 0 <= r < q ==> !MatchesAt(y, tag, r)
    ensures FirstMatch(b, tag, 0) == Some(|x| + 1 + q)
  {
    forall r: nat | r < |x| + 1 + q
      ensures !MatchesAt(b, tag, r)
    {
      if r <= |x| {
        MatchInFirst(x, b, y, tag, r);
      } else {
        MatchInSecond(x, b, y, tag, r - |x| - 1);
      }
    }
    MatchInSecond(x, b, y, tag, q);
    LeftmostIsFirst(b, tag, |x| + 1 + q);
  }

  lemma RunSliceShift(y: string, b: string, o: nat, i: nat, j: nat)
    requires o <= |b| && b[o..] == y && i <= |y| && j == o + i
    ensures Run(b, j, IsValueChar) == Run(y, i, IsValueChar)
    ensures b[j..j + Run(b, j, IsValueChar)] == y[i..i + Run(y, i, IsValueChar)]
  {
    RunShift(y, b, o, i, j, IsValueChar);
    var n := Run(y, i, IsValueChar);
    assert b[j..j + n] == y[i..i + n];
  }

  /** Up to the line break a match in the whole page is a match in the first part: a label
      holds no line break, and a line break is not a value character. */
  lemma MatchInFirst(x: string, b: string, y: string, tag: string, p: nat)
    requires Split(x, b, y) && '\n' !in tag && p <= |x|
    ensures MatchesAt(b, tag, p) <==> MatchesAt(x, tag, p)
  {
    assert forall k :: 0 <= k < |x| ==> x[k] == b[k];
    if p + |tag| < |x| {
      assert b[p..p + |tag|] == x[p..p + |tag|];
    } else if |x| < p + |tag| < |b| {
      assert b[p..p + |tag|][|x| - p] == b[|x|];
    }
  }

  /** After the line break a match in the whole page is a match in the second part. */
  lemma MatchInSecond(x: string, b: string, y: string, tag: string, q: nat)
    requires Split(x, b, y)
    ensures MatchesAt(b, tag, |x| + 1 + q) <==> MatchesAt(y, tag, q)
  {
    var o := |x| + 1;
    assert forall k :: 0 <= k < |y| ==> b[o + k] == y[k];
    if q + |tag| < |y| {
      assert b[o + q..o + q + |tag|] == y[q..q + |tag|];
    }
  }

  /** A run in a suffix `y` of `b` is the run at the shifted position in `b`. */
  lemma {:induction false} RunShift(y: string, b: string, o: nat, i: nat, j: nat, p: char -> bool)
    requires o <= |b| && b[o..] == y && i <= |y| && j == o + i
    ensures Run(b, j, p) == Run(y, i, p)
    decreases |y| - i
  {
    if i < |y| {
      assert b[j] == y[i];
      RunShift(y, b, o, i + 1, j + 1, p);
    }
  }
}
