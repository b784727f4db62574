/** The vector helpers around the ARIMA evaluation: projecting smoothed points onto their
    byte counts, the R `c(...)` literal a vector is sent to R as, the number of predicted
    points, the zero prediction of an empty series, and the clamping of a prediction to the
    link bandwidth. */
module PredictionAnalysers {
  import opened Wrappers
  import Decimal
  import FinalDataRouter
  import SmoothingCreators

  type FinalData = FinalDataRouter.FinalData

  // ---------------------------------------------------------------------------------------
  // Clamping to the bandwidth
  // ---------------------------------------------------------------------------------------

  /** A predicted vector with every element above the bandwidth lowered to it. */
  function Standardized(bandwidth: nat, prediction: seq<nat>): (s: seq<nat>)
    ensures |s| == |prediction|
    ensures forall i :: 0 <= i < |s| ==> s[i] <= bandwidth && s[i] <= prediction[i]
    ensures forall i :: 0 <= i < |s| ==> s[i] == prediction[i] || s[i] == bandwidth
  {
    seq(|prediction|, i requires 0 <= i < |prediction| =>
      if prediction[i] > bandwidth then bandwidth else prediction[i])
  }

  /** The loop of `standardizeVector`, appending one clamped element per input element. */
  method StandardizeVector(bandwidth: nat, prediction: seq<nat>) returns (outputVector: seq<nat>)
    ensures outputVector == Standardized(bandwidth, prediction)
  {
    outputVector := [];
    for i := 0 to |prediction|
      invariant outputVector == Standardized(bandwidth, prediction[..i])
    {
      var element := prediction[i];
      if element > bandwidth {
        outputVector := outputVector + [bandwidth];
      } else {
        outputVector := outputVector + [element];
      }
      assert prediction[..i + 1] == prediction[..i] + [element];
    }
    assert prediction[..|prediction|] == prediction;
  }

  /** A vector within the bandwidth is left as it is. */
  lemma StandardizedWithinBand(bandwidth: nat, prediction: seq<nat>)
    requires forall i :: 0 <= i < |prediction| ==> prediction[i] <= bandwidth
    ensures Standardized(bandwidth, prediction) == prediction
  {
  }

  /** Clamping twice is clamping once. */
  lemma StandardizedIdempotent(bandwidth: nat, prediction: seq<nat>)
    ensures Standardized(bandwidth, Standardized(bandwidth, prediction)) == Standardized(bandwidth, prediction)
  {
    StandardizedWithinBand(bandwidth, Standardized(bandwidth, prediction));
  }

  // ---------------------------------------------------------------------------------------
  // Projection of smoothed points
  // ---------------------------------------------------------------------------------------

  /** The loop of `transformFinalDataToUintArray`: the byte counts of the points, in order. */
  method TransformFinalDataToUintArray(inputData: seq<FinalData>) returns (outputArray: seq<nat>)
    ensures outputArray == SmoothingCreators.Values(inputData)
  {
    outputArray := [];
    for i := 0 to |inputData|
      invariant outputArray == SmoothingCreators.Values(inputData[..i])
    {
      outputArray := outputArray + [inputData[i].dataElement];
    }
    assert inputData[..|inputData|] == inputData;
  }

  /** The series handed to R holds all the traffic of the samples it was smoothed from. */
  lemma SeriesConservesBytes(smoothingRange: nat, data: seq<SmoothingCreators.Data>)
    requires smoothingRange >= 1 && SmoothingCreators.TimeOrdered(data)
    ensures SmoothingCreators.SumOf(SmoothingCreators.Values(SmoothingCreators.Smoothed(smoothingRange, data)))
         == SmoothingCreators.SumOf(SmoothingCreators.Bytes(data))
  {
    SmoothingCreators.SmoothedConservesBytes(smoothingRange, data);
  }

  // ---------------------------------------------------------------------------------------
  // The R vector literal
  // ---------------------------------------------------------------------------------------

  /** The decimal renderings of the numbers separated by commas. */
  function Join(v: seq<nat>): string
    decreases |v|
  {
    if v == [] then ""
    else if |v| == 1 then Decimal.NatToString(v[0])
    else Decimal.NatToString(v[0]) + "," + Join(v[1..])
  }

  /** The R command text defining the vector. */
  function RVector(v: seq<nat>): string {
    "c(" + Join(v) + ")"
  }

  /** The loop of `uintSliceToRVector`: each number followed by a comma unless it is the
      last one, between "c(" and ")". */
  method UintSliceToRVector(inputVector: seq<nat>) returns (s: string)
    ensures s == RVector(inputVector)
  {
    var n := |inputVector|;
    var buffer := "c(";
    for i := 0 to n
      invariant buffer == "c(" + Join(inputVector[..i]) + (if 0 < i < n then "," else "")
    {
      var str := Decimal.NatToString(inputVector[i]);
      RVectorStep(inputVector, i);
      buffer := buffer + str;
      if i != n - 1 {
        buffer := buffer + ",";
      }
    }
    assert inputVector[..n] == inputVector;
    s := buffer + ")";
  }

  /** One turn of the loop: the next number, then a comma unless it is the last one. */
  lemma RVectorStep(v: seq<nat>, i: nat)
    requires i < |v|
    ensures var before := "c(" + Join(v[..i]) + (if 0 < i < |v| then "," else "");
            var str := Decimal.NatToString(v[i]);
            && (i != |v| - 1 ==> before + str + "," == "c(" + Join(v[..i + 1]) + ",")
            && (i == |v| - 1 ==> before + str == "c(" + Join(v[..i + 1]))
  {
    var str := Decimal.NatToString(v[i]);
    assert v[..i + 1] == v[..i] + [v[i]];
    if i > 0 {
      JoinSnoc(v[..i], v[i]);
      assert "c(" + Join(v[..i]) + "," + str == "c(" + (Join(v[..i]) + "," + str);
    } else {
      assert v[..i + 1] == [v[0]];
      assert "c(" + Join(v[..i]) + "" + str == "c(" + str;
    }
  }

  lemma {:induction false} JoinSnoc(u: seq<nat>, x: nat)
    requires u != []
    ensures Join(u + [x]) == Join(u) + "," + Decimal.NatToString(x)
    decreases |u|
  {
    var w := u + [x];
    assert w[0] == u[0];
    if |u| == 1 {
      assert w[1..] == [x];
      assert Join(w) == Decimal.NatToString(u[0]) + "," + Join([x]);
    } else {
      assert w[1..] == u[1..] + [x];
      JoinSnoc(u[1..], x);
      assert Join(w) == Decimal.NatToString(u[0]) + "," + Join(u[1..] + [x]);
      assert Join(u) == Decimal.NatToString(u[0]) + "," + Join(u[1..]);
    }
  }

  /** The number of commas in a string. */
  function Commas(s: string): nat {
    if s == [] then 0 else (if s[0] == ',' then 1 else 0) + Commas(s[1..])
  }

  lemma {:induction false} CommasAppend(a: string, b: string)
    ensures Commas(a + b) == Commas(a) + Commas(b)
    decreases |a|
  {
    if a != [] {
      assert (a + b)[0] == a[0] && (a + b)[1..] == a[1..] + b;
      CommasAppend(a[1..], b);
    } else {
      assert a + b == b;
    }
  }

  lemma {:induction false} CommasOfDigits(s: string)
    requires forall i :: 0 <= i < |s| ==> Decimal.IsDigit(s[i])
    ensures Commas(s) == 0
    decreases |s|
  {
    if s != [] {
      CommasOfDigits(s[1..]);
    }
  }

  /** A vector of n >= 1 numbers is written with n - 1 commas; the empty one is "c()". */
  lemma {:induction false} RVectorCommas(v: seq<nat>)
    ensures Commas(RVector(v)) == if v == [] then 0 else |v| - 1
    ensures v == [] ==> RVector(v) == "c()"
  {
    JoinCommas(v);
    CommasAppend("c(", Join(v));
    CommasAppend("c(" + Join(v), ")");
    assert Commas("c(") == 0 && Commas(")") == 0;
  }

  lemma {:induction false} JoinCommas(v: seq<nat>)
    ensures Commas(Join(v)) == if v == [] then 0 else |v| - 1
    decreases |v|
  {
    if v != [] {
      var d := Decimal.NatToString(v[0]);
      CommasOfDigits(d);
      if |v| > 1 {
        JoinCommas(v[1..]);
        CommasAppend(d, ",");
        CommasAppend(d + ",", Join(v[1..]));
      }
    }
  }

  /** The length of the run of digits a string starts with. */
  function LeadingDigits(s: string): (k: nat)
    ensures k <= |s|
    ensures forall i :: 0 <= i < k ==> Decimal.IsDigit(s[i])
    ensures k < |s| ==> !Decimal.IsDigit(s[k])
  {
    if s == [] || !Decimal.IsDigit(s[0]) then 0 else 1 + LeadingDigits(s[1..])
  }

  /** Reads back numbers separated by commas: `None` for anything else. */
  function ParseList(s: string): Option<seq<nat>>
    decreases |s|
  {
    var k := LeadingDigits(s);
    if k == 0 then None
    else
      var n := Decimal.DigitsValue(s[..k]);
      if k == |s| then Some([n])
      else if s[k] == ',' then
        match ParseList(s[k + 1..])
        case Some(rest) => Some([n] + rest)
        case None => None
      else None
  }

  /** Reads back an R vector literal of non-negative integers. */
  function ParseRVector(s: string): Option<seq<nat>> {
    if |s| >= 3 && s[0] == 'c' && s[1] == '(' && s[|s| - 1] == ')' then
      var inner := s[2..|s| - 1];
      if inner == "" then Some([]) else ParseList(inner)
    else None
  }

  lemma {:induction false} LeadingDigitsOf(d: string, t: string)
    requires forall i :: 0 <= i < |d| ==> Decimal.IsDigit(d[i])
    requires t == [] || !Decimal.IsDigit(t[0])
    ensures LeadingDigits(d + t) == |d|
    decreases |d|
  {
    if d != [] {
      assert (d + t)[1..] == d[1..] + t;
      LeadingDigitsOf(d[1..], t);
    }
  }

  lemma {:induction false} ParseListJoin(v: seq<nat>)
    requires v != []
    ensures ParseList(Join(v)) == Some(v)
    decreases |v|
  {
    if |v| == 1 {
      JoinSingleRead(v);
    } else {
      assert Join(v) == Decimal.NatToString(v[0]) + "," + Join(v[1..]);
      assert v == [v[0]] + v[1..];
      ParseListJoin(v[1..]);
      NumberInFront(v[0], Join(v[1..]), v[1..]);
    }
  }

  /** One number reads back from its rendering. */
  lemma JoinSingleRead(v: seq<nat>)
    requires |v| == 1
    ensures ParseList(Join(v)) == Some(v)
  {
    var d := Decimal.NatToString(v[0]);
    Decimal.NatToStringValue(v[0]);
    ParseListSingle(d);
    assert [Decimal.DigitsValue(d)] == v;
  }

  /** A number and a comma in front of a list that reads back also read back. */
  lemma NumberInFront(x: nat, r: string, rest: seq<nat>)
    requires ParseList(r) == Some(rest)
    ensures ParseList(Decimal.NatToString(x) + "," + r) == Some([x] + rest)
  {
    Decimal.NatToStringValue(x);
    ParseListCons(Decimal.NatToString(x), r, rest);
  }

  /** A lone run of digits reads back as one number. */
  lemma ParseListSingle(d: string)
    requires d != [] && forall i :: 0 <= i < |d| ==> Decimal.IsDigit(d[i])
    ensures ParseList(d) == Some([Decimal.DigitsValue(d)])
  {
    LeadingDigitsOf(d, "");
    assert d + "" == d;
    assert d[..|d|] == d;
  }

  /** A run of digits and a comma read back as one number in front of what follows. */
  lemma ParseListCons(d: string, r: string, rest: seq<nat>)
    requires d != [] && forall i :: 0 <= i < |d| ==> Decimal.IsDigit(d[i])
    requires ParseList(r) == Some(rest)
    ensures ParseList(d + "," + r) == Some([Decimal.DigitsValue(d)] + rest)
  {
    var s := d + "," + r;
    assert s == d + ("," + r);
    LeadingDigitsOf(d, "," + r);
    assert s[..|d|] == d;
    assert s[|d|] == ',';
    assert s[|d| + 1..] == r;
  }

  /** The literal sent to R determines the vector: its numbers, their number and their
      order. */
  lemma RVectorRoundTrip(v: seq<nat>)
    ensures ParseRVector(RVector(v)) == Some(v)
  {
    var s := RVector(v);
    assert s[2..|s| - 1] == Join(v);
    if v != [] {
      ParseListJoin(v);
    }
  }

  // ---------------------------------------------------------------------------------------
  // Horizon and the empty series
  // ---------------------------------------------------------------------------------------

  /** The number of points to forecast: the horizon in whole smoothing ranges, rounded up. */
  function HorizonPoints(predictionHorizon: nat, smoothingRange: nat): (p: nat)
    requires smoothingRange >= 1
    ensures p * smoothingRange >= predictionHorizon
    ensures p >= 1 ==> (p - 1) * smoothingRange < predictionHorizon
  {
    SmoothingCreators.CeilDiv(predictionHorizon, smoothingRange)
  }

  /** The result slot of one ARIMA evaluation. The forecast R returns for a nonempty series
      is a parameter; an empty series is given `horizon` zeros without asking R. */
  method EvaluateArima(results: array<seq<nat>>, i: nat, inputVector: seq<nat>, horizon: nat, forecast: seq<nat>)
    requires i < results.Length
    modifies results
    ensures inputVector == [] ==> |results[i]| == horizon && forall k :: 0 <= k < horizon ==> results[i][k] == 0
    ensures inputVector != [] ==> results[i] == forecast
    ensures forall j :: 0 <= j < results.Length && j != i ==> results[j] == old(results[j])
  {
    if |inputVector| != 0 {
      results[i] := forecast;
    } else {
      var zeroVector := seq(horizon, _ => 0);
      results[i] := zeroVector;
    }
  }

  /** One evaluation per input vector, each into its own slot; `forecasts[i]` stands for what
      R returns for the i-th vector. */
  method ParallelArimaComputations(inputVectors: seq<seq<nat>>, horizon: nat, forecasts: seq<seq<nat>>)
    returns (results: seq<seq<nat>>)
    requires |forecasts| == |inputVectors|
    ensures |results| == |inputVectors|
    ensures forall i :: 0 <= i < |results| && inputVectors[i] != [] ==> results[i] == forecasts[i]
    ensures forall i :: 0 <= i < |results| && inputVectors[i] == [] ==>
              |results[i]| == horizon && forall k :: 0 <= k < horizon ==> results[i][k] == 0
  {
    var slots := new seq<nat>[|inputVectors|];
    for i := 0 to |inputVectors|
      invariant forall j :: 0 <= j < i && inputVectors[j] != [] ==> slots[j] == forecasts[j]
      invariant forall j :: 0 <= j < i && inputVectors[j] == [] ==>
                  |slots[j]| == horizon && forall k :: 0 <= k < horizon ==> slots[j][k] == 0
    {
      EvaluateArima(slots, i, inputVectors[i], horizon, forecasts[i]);
    }
    results := slots[..];
  }
}
