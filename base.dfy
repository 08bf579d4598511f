/**
 * Learners and models of Orange/base.py: the preprocessing fold and the checks of
 * `Learner.__call__`, the `ret`/shape dispatch of `Model.__call__` with its
 * argmax and one-hot completion, and the scikit-learn wrapper's parameter
 * filtering, multinomial check and sample-weight decision. Fitting and
 * predicting themselves are opaque: a preprocessor is applied through a given
 * function, and a prediction is an input.
 */
module Learners {
  import opened Wrappers
  import Schema

  datatype Error = ValueError | TypeError | IndexError | AssertionError

  // ---------------------------------------------------------------- preprocessing

  /** A preprocessor; what it does to the data is the `apply` function passed in. */
  datatype Preprocessor = Preprocessor(id: nat)

  /** The data a learner sees: its domain, its weights, and whether it has weights. */
  datatype Data = Data(domain: Schema.Domain, weights: seq<real>, hasWeights: bool)

  /** The preprocessors applied in list order, each to the previous output. */
  function Fold(pps: seq<Preprocessor>, data: Data, apply: (Preprocessor, Data) -> Data): Data
    decreases |pps|
  {
    if pps == [] then data else Fold(pps[1..], apply(pps[0], data), apply)
  }

  /** Preprocessing with `a + b` is preprocessing with `a`, then with `b`. */
  lemma {:induction false} FoldAppend(a: seq<Preprocessor>, b: seq<Preprocessor>, data: Data,
                                      apply: (Preprocessor, Data) -> Data)
    ensures Fold(a + b, data, apply) == Fold(b, Fold(a, data, apply), apply)
    decreases |a|
  {
    if a == [] {
      assert a + b == b;
    } else {
      assert (a + b)[0] == a[0] && (a + b)[1..] == a[1..] + b;
      FoldAppend(a[1..], b, apply(a[0], data), apply);
    }
  }

  /** A discrete variable with more than two values, which wrapped scikit-learn methods refuse. */
  predicate Multinomial(v: Schema.Variable) {
    v.kind.Discrete? && |v.kind.values| > 2
  }

  // ---------------------------------------------------------------- scikit-learn wrappers

  /** An opaque Python value passed as a constructor argument. */
  datatype ParamValue = ParamValue(repr: string)

  /** The wrapped scikit-learn class: the argument names of its `__init__` and of its `fit`. */
  datatype Wrapped = Wrapped(initArgs: seq<string>, fitArgs: seq<string>)

  /** A plain learner, or a scikit-learn wrapper with its `__wraps__` (None when not defined). */
  datatype Flavor = Plain | Skl(wraps: Option<Wrapped>)

  /**
   * `_get_sklparams`: the given values of exactly those keys that are constructor
   * arguments after `self`. No wrapped class raises TypeError; a constructor without
   * arguments raises IndexError at `spec.args[0]`, and one whose first argument is not
   * `self` fails the assertion.
   */
  function GetSklParams(wraps: Option<Wrapped>, values: map<string, ParamValue>): (r: Result<map<string, ParamValue>, Error>)
    ensures wraps.None? ==> r == Err(TypeError)
    ensures wraps.Some? ==> (r.Ok? <==> |wraps.value.initArgs| > 0 && wraps.value.initArgs[0] == "self")
    ensures wraps.Some? && |wraps.value.initArgs| == 0 ==> r == Err(IndexError)
    ensures wraps.Some? && |wraps.value.initArgs| > 0 && wraps.value.initArgs[0] != "self" ==> r == Err(AssertionError)
    ensures r.Ok? ==> forall k :: k in r.value <==> k in wraps.value.initArgs[1..] && k in values
    ensures r.Ok? ==> forall k :: k in r.value ==> r.value[k] == values[k]
  {
    match wraps
    case None => Err(TypeError)
    case Some(w) =>
      if |w.initArgs| == 0 then Err(IndexError)
      else if w.initArgs[0] != "self" then Err(AssertionError)
      else Ok(map k | k in w.initArgs[1..] && k in values :: values[k])
  }

  /** Filtering parameters twice keeps what filtering once kept. */
  lemma GetSklParamsIdempotent(wraps: Option<Wrapped>, values: map<string, ParamValue>)
    requires GetSklParams(wraps, values).Ok?
    ensures GetSklParams(wraps, GetSklParams(wraps, values).value) == GetSklParams(wraps, values)
  {
    var once := GetSklParams(wraps, values).value;
    var twice := GetSklParams(wraps, once).value;
    forall k | k in once
      ensures k in twice && twice[k] == once[k]
    {
    }
    assert twice.Keys == once.Keys;
    assert twice == once;
  }

  /** `supports_weights`: whether the wrapped `fit` takes `sample_weight`. */
  predicate SupportsWeights(w: Wrapped) {
    "sample_weight" in w.fitArgs
  }

  /**
   * The weight decision of `SklLearner.fit`: weights are passed only when given,
   * supported and not all equal to the first; testing that on empty weights
   * raises IndexError.
   */
  function SampleWeights(weights: Option<seq<real>>, supported: bool): (r: Result<Option<seq<real>>, Error>)
    ensures r.Err? <==> weights.Some? && supported && |weights.value| == 0
    ensures r.Err? ==> r.error == IndexError
    ensures r.Ok? && r.value.Some? ==> weights.Some? && r.value.value == weights.value
    ensures r.Ok? ==> (r.value.Some? <==> weights.Some? && supported
                                          && exists k :: 0 <= k < |weights.value| && weights.value[k] != weights.value[0])
  {
    match weights
    case None => Ok(None)
    case Some(w) =>
      if !supported then Ok(None)
      else if |w| == 0 then Err(IndexError)
      else if forall k :: 0 <= k < |w| ==> w[k] == w[0] then Ok(None)
      else Ok(Some(w))
  }

  // ---------------------------------------------------------------- models

  const Value: int := 0
  const Probs: int := 1
  const ValueProbs: int := 2

  /** How the learner reached fitting: through `fit_storage(data)`, or `fit(X, Y, W)` with these weights. */
  datatype FitRoute = ViaStorage | Direct(weights: Option<seq<real>>)

  class Model {
    var domain: Schema.Domain
    var originalDomain: Schema.Domain
    var supportsMulticlass: bool
    var name: string
    var params: map<string, ParamValue>

    constructor(domain: Schema.Domain)
      ensures this.domain == domain && originalDomain == domain
      ensures !supportsMulticlass && name == "" && params == map[]
    {
      this.domain := domain;
      this.originalDomain := domain;
      this.supportsMulticlass := false;
      this.name := "";
      this.params := map[];
    }

    /** `Model.__init__(domain)`: a model without a domain raises ValueError. */
    static method Init(domain: Option<Schema.Domain>) returns (r: Result<Model, Error>)
      ensures r.Err? <==> domain.None?
      ensures r.Err? ==> r.error == ValueError
      ensures r.Ok? ==> fresh(r.value) && r.value.domain == domain.value
    {
      if domain.None? {
        return Err(ValueError);
      }
      var m := new Model(domain.value);
      return Ok(m);
    }

    /** `Model.__call__(data, ret)` for the prediction the predictor returned on `data`. */
    method Predict(ret: int, p: Prediction) returns (r: Result<Output, Error>)
      requires WellFormed(p)
      ensures r == CallSpec(domain.classVars, ret, p)
    {
      var classVars := domain.classVars;
      var check := CheckRet(ret, classVars);
      if check.Some? {
        return Err(check.value);
      }
      var multitarget := |classVars| > 1;
      var parsed := Parse(p, multitarget);
      if parsed.Err? {
        return Err(parsed.error);
      }
      ParseCompletable(p, multitarget);
      var value, probs := parsed.value.value, parsed.value.probs;
      if ret != Probs && value.None? {
        var a := Argmax(probs.value);
        if a.Err? {
          return Err(a.error);
        }
        value := Some(a.value);
      }
      if ret != Value && probs.None? {
        if multitarget {
          var filled := FillOneHot(value.value.m, |classVars|, MaxCard(classVars));
          if filled.Err? {
            return Err(filled.error);
          }
          probs := Some(Cube(filled.value));
        } else {
          probs := Some(Mat(OneHot(value.value.v)));
        }
        if ret == ValueProbs {
          return Ok(Both(value.value, probs.value));
        }
        return Ok(ProbsOnly(probs.value));
      }
      if ret == Probs {
        return Ok(ProbsOnly(probs.value));
      }
      if ret == Value {
        return Ok(ValueOnly(value.value));
      }
      return Ok(Both(value.value, probs.value));
    }
  }

  // ---------------------------------------------------------------- learners

  class Learner {
    var preprocessors: seq<Preprocessor>
    /** `self.domain`, set by a call; absent before the first one. */
    var domain: Option<Schema.Domain>
    var params: map<string, ParamValue>
    const flavor: Flavor
    const supportsMulticlass: bool
    const name: string

    /** `Learner.__init__`: no preprocessors given means a copy of the class defaults. */
    constructor(preprocessors: Option<seq<Preprocessor>>, classDefaults: seq<Preprocessor>,
                flavor: Flavor, supportsMulticlass: bool, name: string)
      ensures this.preprocessors == (if preprocessors.Some? then preprocessors.value else classDefaults)
      ensures domain.None? && params == map[]
      ensures this.flavor == flavor && this.supportsMulticlass == supportsMulticlass && this.name == name
    {
      this.preprocessors := if preprocessors.Some? then preprocessors.value else classDefaults;
      this.domain := None;
      this.params := map[];
      this.flavor := flavor;
      this.supportsMulticlass := supportsMulticlass;
      this.name := name;
    }

    /** The `params` setter of a scikit-learn wrapper: the filtered parameters, or the error. */
    method SetParams(values: map<string, ParamValue>) returns (err: Option<Error>)
      requires flavor.Skl?
      modifies this
      ensures var r := GetSklParams(flavor.wraps, values);
              (r.Ok? ==> err.None? && params == r.value) && (r.Err? ==> err == Some(r.error) && params == old(params))
      ensures preprocessors == old(preprocessors) && domain == old(domain)
    {
      var r := GetSklParams(flavor.wraps, values);
      if r.Err? {
        return Some(r.error);
      }
      params := r.value;
      return None;
    }

    /**
     * `preprocess`: the preprocessors in list order; a scikit-learn wrapper then
     * refuses attributes with more than two discrete values.
     */
    method Preprocess(data: Data, apply: (Preprocessor, Data) -> Data) returns (r: Result<Data, Error>)
      ensures var out := Fold(preprocessors, data, apply);
              r == if flavor.Skl? && exists v :: v in out.domain.attributes && Multinomial(v)
                   then Err(ValueError) else Ok(out)
    {
      var current := data;
      var i := 0;
      while i < |preprocessors|
        invariant 0 <= i <= |preprocessors|
        invariant Fold(preprocessors, data, apply) == Fold(preprocessors[i..], current, apply)
      {
        assert preprocessors[i..][1..] == preprocessors[i + 1..];
        current := apply(preprocessors[i], current);
        i := i + 1;
      }
      assert preprocessors[i..] == [];
      if flavor.Skl? {
        var k := 0;
        while k < |current.domain.attributes|
          invariant 0 <= k <= |current.domain.attributes|
          invariant forall j :: 0 <= j < k ==> !Multinomial(current.domain.attributes[j])
        {
          if Multinomial(current.domain.attributes[k]) {
            return Err(ValueError);
          }
          k := k + 1;
        }
      }
      return Ok(current);
    }

    /**
     * `Learner.__call__`: refuse inadequate data (ValueError), preprocess, refuse
     * several class variables unless supported (TypeError), remember the
     * preprocessed domain, fit, and label the model with both domains, the
     * multiclass flag and the name (and a wrapper's parameters).
     */
    method Call(data: Data, apply: (Preprocessor, Data) -> Data, adequate: Schema.Domain -> bool, overridesFit: bool)
      returns (r: Result<Model, Error>, route: Option<FitRoute>)
      modifies this
      ensures preprocessors == old(preprocessors) && params == old(params)
      ensures !adequate(data.domain) ==> r == Err(ValueError) && domain == old(domain) && route.None?
      ensures adequate(data.domain) ==>
                var out := Fold(preprocessors, data, apply);
                if flavor.Skl? && exists v :: v in out.domain.attributes && Multinomial(v) then
                  r == Err(ValueError) && domain == old(domain) && route.None?
                else if |out.domain.classVars| > 1 && !supportsMulticlass then
                  r == Err(TypeError) && domain == old(domain) && route.None?
                else
                  r.Ok? && fresh(r.value) && domain == Some(out.domain)
                  && r.value.domain == out.domain && r.value.originalDomain == data.domain
                  && r.value.supportsMulticlass == supportsMulticlass && r.value.name == name
                  && (flavor.Skl? ==> r.value.params == params)
                  && route == Some(if overridesFit || flavor.Skl? then Direct(if out.hasWeights then Some(out.weights) else None)
                                   else ViaStorage)
    {
      route := None;
      if !adequate(data.domain) {
        return Err(ValueError), None;
      }
      var origDomain := data.domain;
      var pre := Preprocess(data, apply);
      if pre.Err? {
        return Err(pre.error), None;
      }
      var out := pre.value;
      if |out.domain.classVars| > 1 && !supportsMulticlass {
        return Err(TypeError), None;
      }
      domain := Some(out.domain);
      if overridesFit || flavor.Skl? {
        route := Some(Direct(if out.hasWeights then Some(out.weights) else None));
      } else {
        route := Some(ViaStorage);
      }
      var model := new Model(out.domain);
      model.originalDomain := origDomain;
      model.supportsMulticlass := supportsMulticlass;
      model.name := name;
      if flavor.Skl? {
        model.params := params;
      }
      r := Ok(model);
    }
  }

  // ---------------------------------------------------------------- shaping a prediction

  /** A numeric array by rank: a vector, a matrix, a rank-3 array, or one of higher rank. */
  datatype Array = Vec(v: seq<real>) | Mat(m: seq<seq<real>>) | Cube(c: seq<seq<seq<real>>>) | Higher(rank: nat)

  function Rank(a: Array): nat {
    match a
    case Vec(_) => 1
    case Mat(_) => 2
    case Cube(_) => 3
    case Higher(n) => if n > 3 then n else 0
  }

  /** What the predictor returned: a `(value, probs)` tuple or a single array. */
  datatype Prediction = Pair(value: Array, probs: Array) | Single(a: Array)

  /** What `Model.__call__` returns for `ret` = Value, Probs and ValueProbs. */
  datatype Output = ValueOnly(value: Array) | ProbsOnly(probs: Array) | Both(value: Array, probs: Array)

  datatype Parsed = Parsed(value: Option<Array>, probs: Option<Array>)

  /** The checks made before predicting: `ret` in 0..2, and no continuous class when probabilities are asked for. */
  function CheckRet(ret: int, classVars: seq<Schema.Variable>): (r: Option<Error>)
    ensures r.Some? <==> !(0 <= ret <= 2) || (ret > 0 && exists v :: v in classVars && Schema.IsContinuous(v))
    ensures r.Some? ==> r.value == ValueError
  {
    if !(0 <= ret <= 2) then Some(ValueError)
    else if ret > 0 && exists v :: v in classVars && Schema.IsContinuous(v) then Some(ValueError)
    else None
  }

  /** Parsing by shape: a tuple is (value, probs); rank `1 + multitarget` is a value, `2 + multitarget` probabilities. */
  function Parse(p: Prediction, multitarget: bool): (r: Result<Parsed, Error>)
    ensures r.Ok? ==> r.value.value.Some? || r.value.probs.Some?
    ensures r.Err? <==> p.Single? && Rank(p.a) != (if multitarget then 2 else 1) && Rank(p.a) != (if multitarget then 3 else 2)
    ensures r.Err? ==> r.error == TypeError
    ensures p.Pair? ==> r == Ok(Parsed(Some(p.value), Some(p.probs)))
  {
    var mt := if multitarget then 1 else 0;
    match p
    case Pair(v, pr) => Ok(Parsed(Some(v), Some(pr)))
    case Single(a) =>
      if Rank(a) == 1 + mt then Ok(Parsed(Some(a), None))
      else if Rank(a) == 2 + mt then Ok(Parsed(None, Some(a)))
      else Err(TypeError)
  }

  /** `np.argmax` of a non-empty row: the first position of its largest element. */
  function ArgmaxRow(row: seq<real>): (r: nat)
    requires |row| > 0
    ensures r < |row|
    ensures forall k :: 0 <= k < |row| ==> row[k] <= row[r]
    ensures forall k :: 0 <= k < r ==> row[k] < row[r]
    decreases |row|
  {
    if |row| == 1 then 0
    else
      var j := ArgmaxRow(row[..|row| - 1]);
      if row[|row| - 1] > row[j] then |row| - 1 else j
  }

  /** `np.argmax(probs, axis=-1)` for probabilities of rank 2 or 3; an empty last axis raises ValueError. */
  function Argmax(probs: Array): (r: Result<Array, Error>)
    requires probs.Mat? || probs.Cube?
    ensures probs.Mat? && r.Ok? ==>
              r.value.Vec? && |r.value.v| == |probs.m|
              && forall i :: 0 <= i < |probs.m| ==> |probs.m[i]| > 0 && r.value.v[i] == ArgmaxRow(probs.m[i]) as real
    ensures probs.Mat? ==> (r.Err? <==> exists i :: 0 <= i < |probs.m| && |probs.m[i]| == 0)
    ensures probs.Cube? && r.Ok? ==>
              r.value.Mat? && |r.value.m| == |probs.c|
              && forall i :: 0 <= i < |probs.c| ==> |r.value.m[i]| == |probs.c[i]|
    ensures r.Err? ==> r.error == ValueError
  {
    match probs
    case Mat(m) =>
      if exists i :: 0 <= i < |m| && |m[i]| == 0 then Err(ValueError)
      else Ok(Vec(seq(|m|, i requires 0 <= i < |m| => ArgmaxRow(m[i]) as real)))
    case Cube(c) =>
      if exists i, j :: 0 <= i < |c| && 0 <= j < |c[i]| && |c[i][j]| == 0 then Err(ValueError)
      else Ok(Mat(seq(|c|, i requires 0 <= i < |c| =>
                        seq(|c[i]|, j requires 0 <= j < |c[i]| => ArgmaxRow(c[i][j]) as real))))
  }

  /** The one-hot row of class index `v` in `width` columns (all zero when `v` is not an index below `width`). */
  function OneHotRow(v: real, width: nat): (r: seq<real>)
    ensures |r| == width
    ensures forall k :: 0 <= k < width ==> r[k] == if k as real == v then 1.0 else 0.0
  {
    seq(width, k requires 0 <= k < width => if k as real == v then 1.0 else 0.0)
  }

  function MaxOf(v: seq<real>): (r: real)
    requires |v| > 0
    ensures forall i :: 0 <= i < |v| ==> v[i] <= r
    ensures exists i :: 0 <= i < |v| && v[i] == r
    decreases |v|
  {
    if |v| == 1 then v[0]
    else
      var m := MaxOf(v[1..]);
      assert forall i :: 1 <= i < |v| ==> v[i] == v[1..][i - 1];
      if v[0] >= m then v[0] else m
  }

  /** The number of columns of `one_hot(values)`: one more than the largest value. */
  function OneHotWidth(values: seq<real>): nat {
    if values == [] || MaxOf(values).Floor < 0 then 0 else MaxOf(values).Floor + 1
  }

  /** `one_hot(values)`: one row per value. */
  function OneHot(values: seq<real>): (r: seq<seq<real>>)
    ensures |r| == |values|
    ensures forall i :: 0 <= i < |r| ==> r[i] == OneHotRow(values[i], OneHotWidth(values))
  {
    seq(|values|, i requires 0 <= i < |values| => OneHotRow(values[i], OneHotWidth(values)))
  }

  /** The argmax of a one-hot row is the encoded index. */
  lemma ArgmaxOfOneHotRow(k: nat, width: nat)
    requires k < width
    ensures ArgmaxRow(OneHotRow(k as real, width)) == k
  {
    var row := OneHotRow(k as real, width);
    var j := ArgmaxRow(row);
    assert row[k] == 1.0;
  }

  /** Every whole non-negative value is below the one-hot width, so its row encodes it. */
  lemma OneHotEncodesIndices(values: seq<real>, i: nat)
    requires i < |values| && values[i] >= 0.0 && values[i] == values[i].Floor as real
    ensures values[i].Floor < OneHotWidth(values)
    ensures ArgmaxRow(OneHot(values)[i]) as real == values[i]
  {
    var m := MaxOf(values);
    assert values[i] <= m;
    assert values[i].Floor <= m.Floor;
    ArgmaxOfOneHotRow(values[i].Floor, OneHotWidth(values));
  }

  /** The probabilities of a multi-target prediction with the first `filled` targets one-hot encoded. */
  function PartlyFilled(value: seq<seq<real>>, width: nat, filled: nat, maxCard: nat): (r: seq<seq<seq<real>>>)
    ensures |r| == |value|
  {
    seq(|value|, row requires 0 <= row < |value| =>
      seq(width, i requires 0 <= i < width =>
        if i < filled && i < |value[row]| then OneHotRow(value[row][i], maxCard) else seq(maxCard, _ => 0.0)))
  }

  predicate Rectangular(value: seq<seq<real>>) {
    forall row :: 0 <= row < |value| ==> |value[row]| == |value[0]|
  }

  /**
   * The multi-target one-hot loop: `zeros(value.shape + (max_card,))`, then target by
   * target `probs[:, i, :] = one_hot(value[:, i])`; a target beyond the value's
   * columns raises IndexError.
   */
  method FillOneHot(value: seq<seq<real>>, targets: nat, maxCard: nat) returns (r: Result<seq<seq<seq<real>>>, Error>)
    requires Rectangular(value)
    ensures var width := if value == [] then 0 else |value[0]|;
            r == if value != [] && targets > width then Err(IndexError)
                 else Ok(PartlyFilled(value, width, targets, maxCard))
  {
    var width := if value == [] then 0 else |value[0]|;
    var probs := PartlyFilled(value, width, 0, maxCard);
    var i := 0;
    while i < targets
      invariant 0 <= i <= targets
      invariant i <= width || value == []
      invariant probs == PartlyFilled(value, width, i, maxCard)
    {
      if value != [] && i >= width {
        return Err(IndexError);
      }
      ghost var next := PartlyFilled(value, width, i + 1, maxCard);
      assert forall row :: 0 <= row < |value| ==> |value[row]| == width;
      probs := seq(|value|, row requires 0 <= row < |value| =>
                 seq(width, j requires 0 <= j < width => if j == i then OneHotRow(value[row][i], maxCard) else probs[row][j]));
      assert forall row :: 0 <= row < |value| ==> probs[row] == next[row];
      i := i + 1;
    }
    return Ok(probs);
  }

  /** The largest number of values among the class variables (`max_card`). */
  function MaxCard(classVars: seq<Schema.Variable>): (r: nat)
    ensures forall i :: 0 <= i < |classVars| && classVars[i].kind.Discrete? ==> |classVars[i].kind.values| <= r
    ensures (forall i :: 0 <= i < |classVars| ==> !classVars[i].kind.Discrete?) ==> r == 0
    ensures (exists i :: 0 <= i < |classVars| && classVars[i].kind.Discrete?) ==>
              exists i :: 0 <= i < |classVars| && classVars[i].kind.Discrete? && r == |classVars[i].kind.values|
    decreases |classVars|
  {
    if classVars == [] then 0
    else
      var tail := classVars[1..];
      var here := if classVars[0].kind.Discrete? then |classVars[0].kind.values| else 0;
      var rest := MaxCard(tail);
      assert forall i :: 1 <= i < |classVars| ==> classVars[i] == tail[i - 1];
      var r := if here > rest then here else rest;
      assert (exists i :: 0 <= i < |classVars| && classVars[i].kind.Discrete?) ==>
               exists i :: 0 <= i < |classVars| && classVars[i].kind.Discrete? && r == |classVars[i].kind.values| by {
        if r != here && exists i :: 0 <= i < |classVars| && classVars[i].kind.Discrete? {
          if exists i :: 0 <= i < |tail| && tail[i].kind.Discrete? {
            var i :| 0 <= i < |tail| && tail[i].kind.Discrete? && rest == |tail[i].kind.values|;
            assert classVars[i + 1] == tail[i];
          } else {
            assert classVars[0].kind.Discrete?;
          }
        }
      }
      r
  }

  /** The predictor's arrays are rectangular, as numpy arrays are. */
  predicate WellFormed(p: Prediction) {
    match p
    case Pair(v, pr) => (v.Mat? ==> Rectangular(v.m)) && (pr.Mat? ==> Rectangular(pr.m))
    case Single(a) => a.Mat? ==> Rectangular(a.m)
  }

  /** The outcome of `FillOneHot`. */
  function FillOneHotSpec(value: seq<seq<real>>, targets: nat, maxCard: nat): Result<seq<seq<seq<real>>>, Error> {
    var width := if value == [] then 0 else |value[0]|;
    if value != [] && targets > width then Err(IndexError) else Ok(PartlyFilled(value, width, targets, maxCard))
  }

  /** The halves a parse can produce: a lone value or lone probabilities have the rank the parse expects. */
  predicate Completable(v0: Option<Array>, p0: Option<Array>, multitarget: bool) {
    (v0.Some? || p0.Some?)
    && (p0.None? ==> (if multitarget then v0.value.Mat? && Rectangular(v0.value.m) else v0.value.Vec?))
    && (v0.None? ==> (if multitarget then p0.value.Cube? else p0.value.Mat?))
  }

  /** Filling in the missing half and choosing what to return. */
  function Complete(classVars: seq<Schema.Variable>, ret: int, v0: Option<Array>, p0: Option<Array>): Result<Output, Error>
    requires Completable(v0, p0, |classVars| > 1)
  {
    var multitarget := |classVars| > 1;
    if ret != Probs && v0.None? then
      match Argmax(p0.value)
      case Err(e) => Err(e)
      case Ok(value) => if ret == Value then Ok(ValueOnly(value)) else Ok(Both(value, p0.value))
    else if ret != Value && p0.None? then
      var probs: Result<Array, Error> :=
        if multitarget then
          match FillOneHotSpec(v0.value.m, |classVars|, MaxCard(classVars))
          case Err(e) => Err(e)
          case Ok(c) => Ok(Cube(c))
        else Ok(Mat(OneHot(v0.value.v)));
      match probs
      case Err(e) => Err(e)
      case Ok(pr) => if ret == ValueProbs then Ok(Both(v0.value, pr)) else Ok(ProbsOnly(pr))
    else if ret == Probs then Ok(ProbsOnly(p0.value))
    else if ret == Value then Ok(ValueOnly(v0.value))
    else Ok(Both(v0.value, p0.value))
  }

  lemma ParseCompletable(p: Prediction, multitarget: bool)
    requires WellFormed(p) && Parse(p, multitarget).Ok?
    ensures var q := Parse(p, multitarget).value; Completable(q.value, q.probs, multitarget)
  {
  }

  /** What `Model.__call__(data, ret)` returns for the given prediction. */
  function CallSpec(classVars: seq<Schema.Variable>, ret: int, p: Prediction): Result<Output, Error>
    requires WellFormed(p)
  {
    var check := CheckRet(ret, classVars);
    if check.Some? then Err(check.value)
    else
      match Parse(p, |classVars| > 1)
      case Err(e) => Err(e)
      case Ok(q) =>
        ParseCompletable(p, |classVars| > 1);
        Complete(classVars, ret, q.value, q.probs)
  }

  // ---------------------------------------------------------------- properties of `Model.__call__`

  /** Invalid `ret`, or probabilities of a continuous class, fail with ValueError whatever the predictor returns. */
  lemma CallChecksRetFirst(classVars: seq<Schema.Variable>, ret: int, p: Prediction)
    requires WellFormed(p)
    requires !(0 <= ret <= 2) || (ret > 0 && exists v :: v in classVars && Schema.IsContinuous(v))
    ensures CallSpec(classVars, ret, p) == Err(ValueError)
  {
  }

  /** A single array of a rank that is neither a value's nor probabilities' fails with TypeError. */
  lemma CallRejectsOtherRanks(classVars: seq<Schema.Variable>, ret: int, a: Array)
    requires 0 <= ret <= 2 && (ret > 0 ==> forall v :: v in classVars ==> !Schema.IsContinuous(v))
    requires var mt := if |classVars| > 1 then 1 else 0; Rank(a) != 1 + mt && Rank(a) != 2 + mt
    ensures WellFormed(Single(a)) && CallSpec(classVars, ret, Single(a)) == Err(TypeError)
  {
  }

  /** A successful call returns what `ret` asks for: a value, probabilities, or both. */
  lemma CallReturnsWhatRetAsks(classVars: seq<Schema.Variable>, ret: int, p: Prediction)
    requires WellFormed(p) && CallSpec(classVars, ret, p).Ok?
    ensures var out := CallSpec(classVars, ret, p).value;
            (ret == Value <==> out.ValueOnly?) && (ret == Probs <==> out.ProbsOnly?) && (ret == ValueProbs <==> out.Both?)
  {
  }

  /** What the predictor returned is passed through unchanged. */
  lemma CallKeepsGivenHalves(classVars: seq<Schema.Variable>, ret: int, value: Array, probs: Array)
    requires 0 <= ret <= 2 && (ret > 0 ==> forall v :: v in classVars ==> !Schema.IsContinuous(v))
    requires WellFormed(Pair(value, probs))
    ensures CallSpec(classVars, ret, Pair(value, probs))
            == Ok(if ret == Value then ValueOnly(value) else if ret == Probs then ProbsOnly(probs) else Both(value, probs))
  {
  }

  /** Probabilities alone, with a value asked for: the value is the per-row argmax (single target). */
  lemma CallDerivesValueByArgmax(classVars: seq<Schema.Variable>, ret: int, m: seq<seq<real>>)
    requires |classVars| <= 1 && Rectangular(m)
    requires ret == Value || (ret == ValueProbs && forall v :: v in classVars ==> !Schema.IsContinuous(v))
    requires forall i :: 0 <= i < |m| ==> |m[i]| > 0
    ensures WellFormed(Single(Mat(m)))
    ensures var out := CallSpec(classVars, ret, Single(Mat(m)));
            out.Ok? && out.value.value.Vec? && |out.value.value.v| == |m|
            && (forall i :: 0 <= i < |m| ==> out.value.value.v[i] == ArgmaxRow(m[i]) as real)
            && (ret == ValueProbs ==> out.value.probs == Mat(m))
  {
  }

  /** Probabilities of an empty class row cannot be reduced by argmax: ValueError. */
  lemma CallArgmaxOfEmptyRow(classVars: seq<Schema.Variable>, m: seq<seq<real>>, i: nat)
    requires |classVars| <= 1 && Rectangular(m) && i < |m| && |m[i]| == 0
    ensures CallSpec(classVars, Value, Single(Mat(m))) == Err(ValueError)
  {
  }

  /**
   * A value alone, with probabilities asked for: the probabilities are its one-hot
   * encoding (single target), and each probability row's argmax gives the value back.
   */
  lemma CallDerivesProbsByOneHot(classVars: seq<Schema.Variable>, ret: int, v: seq<real>)
    requires |classVars| <= 1 && (ret == Probs || ret == ValueProbs)
    requires forall c :: c in classVars ==> !Schema.IsContinuous(c)
    ensures var out := CallSpec(classVars, ret, Single(Vec(v)));
            out.Ok? && out.value.probs == Mat(OneHot(v))
            && (ret == ValueProbs ==> out.value.value == Vec(v))
            && forall i :: 0 <= i < |v| && v[i] >= 0.0 && v[i] == v[i].Floor as real ==>
                          |OneHot(v)[i]| > 0 && ArgmaxRow(OneHot(v)[i]) as real == v[i]
  {
    forall i | 0 <= i < |v| && v[i] >= 0.0 && v[i] == v[i].Floor as real
      ensures |OneHot(v)[i]| > 0 && ArgmaxRow(OneHot(v)[i]) as real == v[i]
    {
      OneHotEncodesIndices(v, i);
    }
  }

  /**
   * A multi-target value alone, with probabilities asked for: target `i` of row `r`
   * is the one-hot row of `value[r][i]` over `max_card` columns.
   */
  lemma CallDerivesMultiTargetProbs(classVars: seq<Schema.Variable>, ret: int, m: seq<seq<real>>)
    requires |classVars| > 1 && (ret == Probs || ret == ValueProbs)
    requires forall c :: c in classVars ==> !Schema.IsContinuous(c)
    requires Rectangular(m) && |m| > 0 && |m[0]| == |classVars|
    ensures WellFormed(Single(Mat(m)))
    ensures var out := CallSpec(classVars, ret, Single(Mat(m)));
            out.Ok? && out.value.probs.Cube? && |out.value.probs.c| == |m|
            && forall r, i :: 0 <= r < |m| && 0 <= i < |classVars| ==>
                 |out.value.probs.c[r]| == |classVars| && out.value.probs.c[r][i] == OneHotRow(m[r][i], MaxCard(classVars))
  {
    var out := CallSpec(classVars, ret, Single(Mat(m)));
    var filled := PartlyFilled(m, |m[0]|, |classVars|, MaxCard(classVars));
    assert FillOneHotSpec(m, |classVars|, MaxCard(classVars)) == Ok(filled);
    assert out.value.probs == Cube(filled);
  }
}
