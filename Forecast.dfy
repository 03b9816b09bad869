/** The prediction service: the checks on a `/predict` request, the sliding windows built from
    the posted rows for training, and the selection of the last rows the prediction is made
    from. The network itself (training and inference) is a parameter. */
module Forecast {
  import opened Wrappers
  import opened Http

  /** One posted row. A SQL NULL arrives as `None`. */
  datatype PredictRow = PredictRow(avgPower: Option<real>, timeElapsed: Option<real>, pcEmissions: Option<real>)

  /** The feature vector of a row: `avgPower`, `timeElapsed`, `PCEmissions`, in that order. */
  type Features = seq<Option<real>>

  /** Rows per training window and in the prediction input. */
  const SequenceLength: nat := 10

  function FeaturesOf(r: PredictRow): (f: Features)
    ensures |f| == 3 && f[0] == r.avgPower && f[1] == r.timeElapsed && f[2] == r.pcEmissions
  {
    [r.avgPower, r.timeElapsed, r.pcEmissions]
  }

  /** The feature vectors of `rows[from..from + n]`. */
  function Block(rows: seq<PredictRow>, from: nat, n: nat): (b: seq<Features>)
    requires from + n <= |rows|
    ensures |b| == n && forall k :: 0 <= k < n ==> b[k] == FeaturesOf(rows[from + k])
  {
    seq(n, k requires 0 <= k < n => FeaturesOf(rows[from + k]))
  }

  /** The training set: inputs `x` (windows of `SequenceLength` rows) and targets `y`. */
  datatype Windows = Windows(x: seq<seq<Features>>, y: seq<Features>)

  /** The training set of `data`: window `i` holds rows `i .. i + 9` and its target is row
      `i + 10`, for every `i` below `|data| - 10`; so exactly ten rows give no window at all. */
  function TrainingSet(data: seq<PredictRow>): (w: Windows)
    requires |data| >= SequenceLength
    ensures |w.x| == |w.y| == |data| - SequenceLength
    ensures forall i :: 0 <= i < |w.x| ==>
      w.x[i] == Block(data, i, SequenceLength) && w.y[i] == FeaturesOf(data[i + SequenceLength])
  {
    var n := |data| - SequenceLength;
    Windows(seq(n, i requires 0 <= i < n => Block(data, i, SequenceLength)),
            seq(n, i requires 0 <= i < n => FeaturesOf(data[i + SequenceLength])))
  }

  /** Builds the training windows with a loop, or fails (the `ValueError`) with fewer than
      `SequenceLength` rows. */
  method BuildWindows(data: seq<PredictRow>) returns (r: Option<Windows>)
    ensures r.None? <==> |data| < SequenceLength
    ensures r.Some? ==> r.value == TrainingSet(data)
  {
    if |data| < SequenceLength {
      return None;
    }
    var x: seq<seq<Features>> := [];
    var y: seq<Features> := [];
    var i := 0;
    while i < |data| - SequenceLength
      invariant 0 <= i <= |data| - SequenceLength
      invariant |x| == |y| == i
      invariant forall k :: 0 <= k < i ==> x[k] == Block(data, k, SequenceLength)
      invariant forall k :: 0 <= k < i ==> y[k] == FeaturesOf(data[k + SequenceLength])
    {
      x := x + [Block(data, i, SequenceLength)];
      y := y + [FeaturesOf(data[i + SequenceLength])];
      i := i + 1;
    }
    return Some(Windows(x, y));
  }

  /** The prediction input: the feature vectors of the last `SequenceLength` rows. */
  function LastRows(data: seq<PredictRow>): (b: seq<Features>)
    requires |data| >= SequenceLength
    ensures |b| == SequenceLength
    ensures forall k :: 0 <= k < SequenceLength ==> b[k] == FeaturesOf(data[|data| - SequenceLength + k])
  {
    Block(data, |data| - SequenceLength, SequenceLength)
  }

  function Abs(x: real): (r: real)
    ensures r >= 0.0 && (r == x || r == -x)
  {
    if x < 0.0 then -x else x
  }

  /** The three predicted values returned to the caller. */
  datatype Prediction = Prediction(futureAvgPower: real, futureTimeElapsed: real, futurePCEmissions: real)

  /** How training and prediction end: a `ValueError` raised inside them, any other exception,
      or the three outputs of the model. */
  datatype NetworkOutcome = ValueErrorRaised | OtherExceptionRaised | Output(avgPower: real, timeElapsed: real, pcEmissions: real)

  /** The network: trained on the windows, then run on the last rows. */
  type Network = (Windows, seq<Features>) -> NetworkOutcome

  /** The `/predict` route on the posted `data` (`None` when the body has no `data`).
      An absent or empty list, or one shorter than `SequenceLength`, is refused with 400; so is a
      `ValueError` raised while training or predicting, where any other exception gives 500. */
  method Predict(data: Option<seq<PredictRow>>, network: Network) returns (st: Status, p: Option<Prediction>)
    ensures data.None? || |data.value| < SequenceLength ==> st == BadRequest && p.None?
    ensures st == Ok <==> p.Some?
    ensures p.Some? ==> p.value.futurePCEmissions >= 0.0
    ensures data.Some? && |data.value| >= SequenceLength ==>
      match network(TrainingSet(data.value), LastRows(data.value))
      case ValueErrorRaised => st == BadRequest && p.None?
      case OtherExceptionRaised => st == ServerError && p.None?
      case Output(a, t, e) => st == Ok && p == Some(Prediction(a, t, Abs(e)))
  {
    if data.None? || data.value == [] {
      return BadRequest, None;
    }
    var rows := data.value;
    if |rows| < SequenceLength {
      return BadRequest, None;
    }
    var w := BuildWindows(rows);
    match network(w.value, LastRows(rows))
    case ValueErrorRaised =>
      return BadRequest, None;
    case OtherExceptionRaised =>
      return ServerError, None;
    case Output(a, t, e) =>
      return Ok, Some(Prediction(a, t, Abs(e)));
  }
}
