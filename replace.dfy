// The band remapping pipeline of replacePixelValue.py (`main`): rules are compiled from
// the operator, threshold and output-value lists, the condition source is chosen from
// --calcmap/--calcband, and every selected band has each rule applied in order by masked
// assignment (`indata[bools] = outvalue`).
//
// In the default mode the condition array `origdata` is the very array the rules rewrite,
// so each rule is evaluated on the values left by the rules before it. `Replace` keeps
// that aliasing: it passes one array as both condition and target.

module ReplacePixelValue {
  import opened Text
  import opened Raster
  import opened Predicates

  /** One entry of `replace_list`: a compiled predicate and the value it writes. */
  datatype Rule = Rule(pred: Pred, outValue: int)

  /** One entry of `outdata`: the placeholder `0` it starts with, or a band's pixels. */
  datatype OutBand = Placeholder | Pixels(band: Band)

  function Min3(a: nat, b: nat, c: nat): nat {
    if a <= b && a <= c then a else if b <= c then b else c
  }

  /** Entry k is the first failure of a list of results. */
  predicate FirstFailure<T>(rs: seq<Result<T>>, k: int) {
    0 <= k < |rs| && rs[k].Err? && forall j :: 0 <= j < k ==> rs[j].Ok?
  }

  /** The values of a list of results, or the error of its first failure. */
  function Collect<T>(rs: seq<Result<T>>): (r: Result<seq<T>>)
    ensures r.Ok? <==> forall i :: 0 <= i < |rs| ==> rs[i].Ok?
    ensures r.Ok? ==> |r.value| == |rs| && forall i :: 0 <= i < |rs| ==> rs[i] == Ok(r.value[i])
    ensures r.Err? ==> exists k :: FirstFailure(rs, k) && rs[k] == Err(r.error)
  {
    if |rs| == 0 then Ok([])
    else if rs[0].Err? then Err(rs[0].error)
    else
      var rest := Collect(rs[1..]);
      if rest.Err? then
        ghost var k :| FirstFailure(rs[1..], k) && rs[1..][k] == Err(rest.error);
        assert FirstFailure(rs, k + 1);
        Err(rest.error)
      else
        Ok([rs[0].value] + rest.value)
  }

  /** The rule list of `main`: `zip(operators, invals, outvals)`, cut to the shortest list,
      each operator/threshold pair compiled in order; the first failure aborts. */
  function CompileRules(operators: seq<string>, invals: seq<string>, outvals: seq<int>): (r: Result<seq<Rule>>)
    ensures var n := Min3(|operators|, |invals|, |outvals|);
      var compiled := seq(n, i requires 0 <= i < n => GetFunction(operators[i], invals[i]));
      && (r.Ok? <==> forall i :: 0 <= i < n ==> compiled[i].Ok?)
      && (r.Ok? ==> |r.value| == n)
      && (r.Ok? ==> forall i :: 0 <= i < n ==> r.value[i] == Rule(compiled[i].value, outvals[i]))
      && (r.Err? ==> exists k :: FirstFailure(compiled, k) && compiled[k] == Err(r.error))
  {
    var n := Min3(|operators|, |invals|, |outvals|);
    var preds :- Collect(seq(n, i requires 0 <= i < n => GetFunction(operators[i], invals[i])));
    Ok(seq(n, i requires 0 <= i < n => Rule(preds[i], outvals[i])))
  }

  /** When every compiled pair succeeds, the rule list pairs each predicate with its
      output value, in order. */
  lemma CompileRulesOk(operators: seq<string>, invals: seq<string>, outvals: seq<int>, preds: seq<Pred>)
    requires |preds| == Min3(|operators|, |invals|, |outvals|)
    requires forall i :: 0 <= i < |preds| ==> GetFunction(operators[i], invals[i]) == Ok(preds[i])
    ensures CompileRules(operators, invals, outvals) == Ok(seq(|preds|, i requires 0 <= i < |preds| => Rule(preds[i], outvals[i])))
  {
    var r := CompileRules(operators, invals, outvals);
    assert r.Ok?;
    assert r.value == seq(|preds|, i requires 0 <= i < |preds| => Rule(preds[i], outvals[i]));
  }

  /** `item['function'](calcdata)`: the boolean mask of a condition array. */
  function Mask(p: Pred, cond: seq<int>): seq<bool> {
    seq(|cond|, i requires 0 <= i < |cond| => Eval(p, cond[i]))
  }

  /** `indata[bools] = outvalue` on values: masked pixels take `v`, the others keep theirs. */
  function Assign(data: seq<int>, mask: seq<bool>, v: int): seq<int>
    requires |mask| == |data|
  {
    seq(|data|, i requires 0 <= i < |data| => if mask[i] then v else data[i])
  }

  /** One rule applied to `data`, its mask computed from `cond`. */
  function ApplyRule(rule: Rule, cond: seq<int>, data: seq<int>): seq<int>
    requires |cond| == |data|
  {
    Assign(data, Mask(rule.pred, cond), rule.outValue)
  }

  /** The rules in order, each one's mask computed from the array the rules rewrite. */
  function RunAliased(rules: seq<Rule>, data: seq<int>): (r: seq<int>)
    ensures |r| == |data|
  {
    if rules == [] then data
    else
      var prev := RunAliased(rules[..|rules| - 1], data);
      ApplyRule(rules[|rules| - 1], prev, prev)
  }

  /** The rules in order, every mask computed from one condition array nothing rewrites. */
  function RunFixed(rules: seq<Rule>, cond: seq<int>, data: seq<int>): (r: seq<int>)
    requires |cond| == |data|
    ensures |r| == |data|
  {
    if rules == [] then data
    else ApplyRule(rules[|rules| - 1], cond, RunFixed(rules[..|rules| - 1], cond, data))
  }

  /** What the aliased rules do to one pixel: each rule tests the value the previous rules
      left and may overwrite it. */
  function PixelAliased(rules: seq<Rule>, x: int): (r: int)
    ensures r == x || exists j :: 0 <= j < |rules| && r == rules[j].outValue
  {
    if rules == [] then x
    else
      var init := rules[..|rules| - 1];
      assert forall j :: 0 <= j < |init| ==> init[j] == rules[j];
      var y := PixelAliased(init, x);
      if Eval(rules[|rules| - 1].pred, y) then rules[|rules| - 1].outValue else y
  }

  /** What rules with a fixed condition do to one pixel whose condition value is `c`. */
  function PixelFixed(rules: seq<Rule>, c: int, x: int): (r: int)
    ensures r == x || exists j :: 0 <= j < |rules| && r == rules[j].outValue
  {
    if rules == [] then x
    else if Eval(rules[|rules| - 1].pred, c) then rules[|rules| - 1].outValue
    else
      var init := rules[..|rules| - 1];
      assert forall j :: 0 <= j < |init| ==> init[j] == rules[j];
      PixelFixed(init, c, x)
  }

  /** In the aliased mode the pixels evolve independently: pixel i ends as the history of
      its own value through the rules. */
  lemma {:induction false} RunAliasedPixel(rules: seq<Rule>, data: seq<int>, i: nat)
    requires i < |data|
    ensures RunAliased(rules, data)[i] == PixelAliased(rules, data[i])
    decreases |rules|
  {
    if rules != [] {
      RunAliasedPixel(rules[..|rules| - 1], data, i);
    }
  }

  /** With a fixed condition array, pixel i depends only on its condition value and on
      its own value. */
  lemma {:induction false} RunFixedPixel(rules: seq<Rule>, cond: seq<int>, data: seq<int>, i: nat)
    requires |cond| == |data| && i < |data|
    ensures RunFixed(rules, cond, data)[i] == PixelFixed(rules, cond[i], data[i])
    decreases |rules|
  {
    if rules != [] {
      RunFixedPixel(rules[..|rules| - 1], cond, data, i);
    }
  }

  /** Rule j is the last rule whose predicate holds for the value c. */
  predicate LastMatch(rules: seq<Rule>, c: int, j: int) {
    0 <= j < |rules| && Eval(rules[j].pred, c) &&
    forall k :: j < k < |rules| ==> !Eval(rules[k].pred, c)
  }

  /** With a fixed condition, a pixel whose condition value no rule matches keeps its
      value. */
  lemma {:induction false} PixelFixedNoMatch(rules: seq<Rule>, c: int, x: int)
    requires forall j :: 0 <= j < |rules| ==> !Eval(rules[j].pred, c)
    ensures PixelFixed(rules, c, x) == x
    decreases |rules|
  {
    if rules != [] {
      var init := rules[..|rules| - 1];
      forall j | 0 <= j < |init| ensures !Eval(init[j].pred, c) {
        assert init[j] == rules[j];
      }
      PixelFixedNoMatch(init, c, x);
    }
  }

  /** With a fixed condition, the last rule whose predicate holds for the condition value
      decides the pixel: which pixels are replaced does not depend on the band's own
      values. */
  lemma {:induction false} PixelFixedLastMatch(rules: seq<Rule>, c: int, x: int, j: int)
    requires LastMatch(rules, c, j)
    ensures PixelFixed(rules, c, x) == rules[j].outValue
    decreases |rules|
  {
    var n := |rules| - 1;
    if j < n {
      var init := rules[..n];
      assert !Eval(rules[n].pred, c);
      assert PixelFixed(rules, c, x) == PixelFixed(init, c, x);
      assert init[j] == rules[j];
      forall k | j < k < |init| ensures !Eval(init[k].pred, c) {
        assert init[k] == rules[k];
      }
      PixelFixedLastMatch(init, c, x, j);
    }
  }

  /** A single rule behaves the same whether or not its condition array is the band. */
  lemma OneRuleAliasIsHarmless(rule: Rule, x: int)
    ensures PixelAliased([rule], x) == PixelFixed([rule], x, x)
  {
    assert [rule][..0] == [];
  }

  /** The condition source chosen once per run. */
  datatype Condition =
    | OwnData                          // the band's own (progressively rewritten) array
    | FixedBand(band: Band)            // one band read once, before the band loop
    | CalcMapBands(bands: seq<Band>)   // band b of the calc map for input band b

  /** `if calcband:` is a truth test, so a band number 0 counts as absent. */
  predicate Given(calcband: Option<int>) {
    calcband.Some? && calcband.value != 0
  }

  /** Lines choosing the condition source: a fixed band of the calc map or of the input
      when a non-zero calcband is given (a missing band fails when read), the calc map band
      by band when only a calc map is given, and the band's own data otherwise. */
  function ConditionSource(input: seq<Band>, calcmap: Option<seq<Band>>, calcband: Option<int>): (r: Result<Condition>)
    ensures var source := if calcmap.Some? then calcmap.value else input;
      && (r.Err? <==> Given(calcband) && !(1 <= calcband.value <= |source|))
      && (r.Err? ==> r.error == MissingBand(calcband.value))
      && (r.Ok? ==> (r.value.FixedBand? <==> Given(calcband)))
      && (r.Ok? && Given(calcband) ==> r.value.band == source[calcband.value - 1])
      && (r.Ok? ==> (r.value.OwnData? <==> !Given(calcband) && calcmap.None?))
      && (r.Ok? && r.value.CalcMapBands? ==> calcmap == Some(r.value.bands))
  {
    var source := if calcmap.Some? then calcmap.value else input;
    if Given(calcband) then
      if 1 <= calcband.value <= |source| then Ok(FixedBand(source[calcband.value - 1]))
      else Err(MissingBand(calcband.value))
    else if calcmap.Some? then Ok(CalcMapBands(calcmap.value))
    else Ok(OwnData)
  }

  /** The condition band for input band b (1-based); `None` in the own-data mode. */
  function ConditionBand(cond: Condition, b: int): (r: Result<Option<Band>>)
    ensures r.Err? <==> cond.CalcMapBands? && !(1 <= b <= |cond.bands|)
    ensures r.Err? ==> r.error == MissingBand(b)
    ensures r.Ok? ==> (r.value.None? <==> cond.OwnData?)
    ensures cond.FixedBand? ==> r == Ok(Some(cond.band))
    ensures r.Ok? && cond.CalcMapBands? ==> r.value == Some(cond.bands[b - 1])
  {
    match cond
    case OwnData => Ok(None)
    case FixedBand(c) => Ok(Some(c))
    case CalcMapBands(cs) => if 1 <= b <= |cs| then Ok(Some(cs[b - 1])) else Err(MissingBand(b))
  }

  predicate AllWellFormed(bands: seq<Band>) {
    forall k :: 0 <= k < |bands| ==> bands[k].WellFormed()
  }

  predicate ConditionWellFormed(cond: Condition) {
    match cond
    case OwnData => true
    case FixedBand(c) => c.WellFormed()
    case CalcMapBands(cs) => AllWellFormed(cs)
  }

  /** The pixels of a processed band after all rules, given its condition band. */
  function Processed(rules: seq<Rule>, condBand: Option<Band>, band: Band): seq<int>
    requires condBand.Some? ==> condBand.value.WellFormed() && condBand.value.SameShape(band)
    requires band.WellFormed()
  {
    if condBand.None? then RunAliased(rules, band.pixels)
    else RunFixed(rules, condBand.value.pixels, band.pixels)
  }

  /** `outdata[b-1]` after the band loop: a band that is not selected is copied; a selected
      band keeps the placeholder when there are no rules, and otherwise holds the result
      of the rules. A selected band with rules fails exactly when its condition band is
      missing or has another shape. */
  function BandOutput(input: seq<Band>, inputBands: seq<int>, rules: seq<Rule>, cond: Condition, b: int): (r: Result<OutBand>)
    requires 1 <= b <= |input| && AllWellFormed(input) && ConditionWellFormed(cond)
    ensures b !in inputBands ==> r == Ok(Pixels(input[b - 1]))
    ensures b in inputBands && rules == [] ==> r == Ok(Placeholder)
    ensures r.Ok? && b in inputBands && rules != [] ==>
      r.value.Pixels? && r.value.band.SameShape(input[b - 1]) && |r.value.band.pixels| == |input[b - 1].pixels|
    ensures r.Err? ==> r.error == MissingBand(b) || r.error == ShapeMismatch(b)
    ensures b in inputBands && rules != [] ==>
      var cb := ConditionBand(cond, b);
      && (cb.Err? ==> r == Err(MissingBand(b)))
      && (cb.Ok? && cb.value.Some? && !cb.value.value.SameShape(input[b - 1]) ==> r == Err(ShapeMismatch(b)))
      && (cb.Ok? && (cb.value.Some? ==> cb.value.value.SameShape(input[b - 1])) ==> r.Ok?)
  {
    var band := input[b - 1];
    if b !in inputBands then Ok(Pixels(band))
    else if rules == [] then Ok(Placeholder)
    else
      var condBand :- ConditionBand(cond, b);
      if condBand.Some? && !condBand.value.SameShape(band) then Err(ShapeMismatch(b))
      else Ok(Pixels(Band(band.rows, band.cols, Processed(rules, condBand, band))))
  }

  /** The first n entries of `outdata`, the bands taken in ascending order; the first
      failing band stops the run. */
  function Outputs(input: seq<Band>, inputBands: seq<int>, rules: seq<Rule>, cond: Condition, n: nat): (r: Result<seq<OutBand>>)
    requires n <= |input| && AllWellFormed(input) && ConditionWellFormed(cond)
    ensures r.Ok? ==> |r.value| == n
  {
    if n == 0 then Ok([])
    else
      var prev :- Outputs(input, inputBands, rules, cond, n - 1);
      var out :- BandOutput(input, inputBands, rules, cond, n);
      Ok(prev + [out])
  }

  /** `main`, from its arguments to the list handed to the raster writer. */
  function ReplacePixelValues(input: seq<Band>, inputBands: seq<int>, operators: seq<string>,
                              invals: seq<string>, outvals: seq<int>,
                              calcmap: Option<seq<Band>>, calcband: Option<int>): (r: Result<seq<OutBand>>)
    requires AllWellFormed(input)
    requires calcmap.Some? ==> AllWellFormed(calcmap.value)
    ensures CompileRules(operators, invals, outvals).Err? ==> r == Err(CompileRules(operators, invals, outvals).error)
    ensures CompileRules(operators, invals, outvals).Ok? && |input| == 0 ==> r == Err(NoBands)
    ensures r.Ok? ==> |r.value| == |input|
  {
    var rules :- CompileRules(operators, invals, outvals);
    if |input| == 0 then Err(NoBands)
    else
      var cond :- ConditionSource(input, calcmap, calcband);
      ConditionSourceWellFormed(input, calcmap, calcband);
      Outputs(input, inputBands, rules, cond, |input|)
  }

  /** The condition source of a successful choice is well formed when its rasters are. */
  lemma ConditionSourceWellFormed(input: seq<Band>, calcmap: Option<seq<Band>>, calcband: Option<int>)
    requires AllWellFormed(input)
    requires calcmap.Some? ==> AllWellFormed(calcmap.value)
    ensures ConditionSource(input, calcmap, calcband).Ok? ==>
      ConditionWellFormed(ConditionSource(input, calcmap, calcband).value)
  {
  }

  /** `outdata` holds one entry per band, in band order, each the output of its band;
      the run fails exactly when some band does, with the error of the first such band. */
  lemma {:induction false} OutputsPerBand(input: seq<Band>, inputBands: seq<int>, rules: seq<Rule>, cond: Condition, n: nat)
    requires n <= |input| && AllWellFormed(input) && ConditionWellFormed(cond)
    ensures var r := Outputs(input, inputBands, rules, cond, n);
      && (r.Ok? <==> forall b :: 1 <= b <= n ==> BandOutput(input, inputBands, rules, cond, b).Ok?)
      && (r.Ok? ==> |r.value| == n)
      && (r.Ok? ==> forall b :: 1 <= b <= n ==> r.value[b - 1] == BandOutput(input, inputBands, rules, cond, b).value)
  {
    if n > 0 {
      OutputsPerBand(input, inputBands, rules, cond, n - 1);
    }
  }

  /** Once a band fails, every longer prefix of the run fails with that band's error. */
  lemma {:induction false} OutputsFirstError(input: seq<Band>, inputBands: seq<int>, rules: seq<Rule>, cond: Condition, b: nat, n: nat)
    requires 1 <= b <= n <= |input| && AllWellFormed(input) && ConditionWellFormed(cond)
    requires Outputs(input, inputBands, rules, cond, b - 1).Ok?
    requires BandOutput(input, inputBands, rules, cond, b).Err?
    ensures Outputs(input, inputBands, rules, cond, n) == Err(BandOutput(input, inputBands, rules, cond, b).error)
    decreases n
  {
    if n > b {
      OutputsFirstError(input, inputBands, rules, cond, b, n - 1);
    }
  }

  /** Rules i+1 of a band are rule i applied to the result of the first i, its condition
      being the fixed condition band or, without one, that result itself. */
  lemma ProcessedStep(rules: seq<Rule>, i: nat, cb: Option<Band>, band: Band)
    requires i < |rules| && band.WellFormed()
    requires cb.Some? ==> cb.value.WellFormed() && cb.value.SameShape(band)
    ensures var prev := Processed(rules[..i], cb, band);
      Processed(rules[..i + 1], cb, band) ==
        ApplyRule(rules[i], if cb.Some? then cb.value.pixels else prev, prev)
  {
    assert rules[..i + 1][..i] == rules[..i];
  }

  /** The output of a selected band whose rules all ran. */
  lemma BandOutputProcessed(input: seq<Band>, inputBands: seq<int>, rules: seq<Rule>, cond: Condition, b: int)
    requires 1 <= b <= |input| && AllWellFormed(input) && ConditionWellFormed(cond)
    requires b in inputBands && rules != [] && ConditionBand(cond, b).Ok?
    requires var cb := ConditionBand(cond, b).value; cb.Some? ==> cb.value.SameShape(input[b - 1])
    ensures var band, cb := input[b - 1], ConditionBand(cond, b).value;
      BandOutput(input, inputBands, rules, cond, b) ==
        Ok(Pixels(Band(band.rows, band.cols, Processed(rules, cb, band))))
  {
  }

  /** `indata[bools] = outvalue`: the masked pixels of the array take the value, in place. */
  method AssignMasked(a: array<int>, mask: seq<bool>, v: int)
    requires |mask| == a.Length
    modifies a
    ensures a[..] == Assign(old(a[..]), mask, v)
  {
    forall k | 0 <= k < a.Length && mask[k] {
      a[k] := v;
    }
  }

  /** The rule loop of `main` for one selected band b: the band is read at the first rule,
      each rule computes its mask from the condition array and writes its value through
      the mask in place, and `outdata[b-1]` is set to the working array after each rule.
      Without a fixed condition array the condition is re-resolved at every rule: the
      working array itself (no copy) or band b of the calc map, read afresh. */
  method ProcessBand(input: seq<Band>, inputBands: seq<int>, b: int, rules: seq<Rule>,
                     calcmap: Option<seq<Band>>, calcDataSet: bool, calcData: array?<int>,
                     calcShape: (nat, nat), ghost condition: Condition)
      returns (out: Result<OutBand>)
    requires 1 <= b <= |input| && b in inputBands
    requires AllWellFormed(input) && ConditionWellFormed(condition)
    requires calcDataSet <==> condition.FixedBand?
    requires calcDataSet ==> calcData != null && calcData[..] == condition.band.pixels &&
                             calcShape == (condition.band.rows, condition.band.cols)
    requires !calcDataSet ==> (condition.OwnData? <==> calcmap.None?)
    requires condition.CalcMapBands? ==> calcmap == Some(condition.bands)
    ensures out == BandOutput(input, inputBands, rules, condition, b)
  {
    var band := input[b - 1];
    out := Ok(Placeholder);
    var indata: array?<int> := null;
    var origdata: array?<int> := null;
    var calcData, calcShape := calcData, calcShape;
    for i := 0 to |rules|
      invariant i == 0 ==> out == Ok(Placeholder)
      invariant calcDataSet ==> calcData != null && calcData[..] == condition.band.pixels &&
                                calcShape == (condition.band.rows, condition.band.cols)
      invariant i > 0 ==> indata != null && origdata == indata && indata.Length == |band.pixels|
      invariant i > 0 ==> fresh(indata)
      invariant i > 0 && calcDataSet ==> indata != calcData
      invariant i > 0 ==> ConditionBand(condition, b).Ok?
      invariant i > 0 ==> var cb := ConditionBand(condition, b).value;
        && (cb.Some? ==> cb.value.WellFormed() && cb.value.SameShape(band))
        && indata[..] == Processed(rules[..i], cb, band)
        && out == Ok(Pixels(Band(band.rows, band.cols, indata[..])))
    {
      if i == 0 {
        indata := ReadAsArray(band);
        origdata := indata;
      }
      // for i > 0 the source takes `indata = outdata[b-1]`, which is this same array

      if !calcDataSet {
        if calcmap.None? {
          calcData := origdata;  // no copy: the condition array is the working array
          calcShape := (band.rows, band.cols);
        } else {
          if !(1 <= b <= |calcmap.value|) {
            return Err(MissingBand(b));
          }
          var calcBand := calcmap.value[b - 1];
          calcData := ReadAsArray(calcBand);
          calcShape := (calcBand.rows, calcBand.cols);
        }
      }

      var bools := Mask(rules[i].pred, calcData[..]);
      if calcShape != (band.rows, band.cols) {
        return Err(ShapeMismatch(b));
      }
      AssignMasked(indata, bools, rules[i].outValue);
      ProcessedStep(rules, i, ConditionBand(condition, b).value, band);
      out := Ok(Pixels(Band(band.rows, band.cols, indata[..])));
    }
    assert rules[..|rules|] == rules;
    if rules != [] {
      BandOutputProcessed(input, inputBands, rules, condition, b);
    }
  }

  /** The lines of `main` that decide the condition source: with a non-zero calcband the
      fixed condition band is read once, from the calc map when there is one and from the
      input otherwise; without one nothing is read yet. */
  method ReadCondition(input: seq<Band>, calcmap: Option<seq<Band>>, calcband: Option<int>)
      returns (r: Result<bool>, calcData: array?<int>, calcShape: (nat, nat))
    requires |input| > 0
    ensures ConditionSource(input, calcmap, calcband).Err? ==>
      r == Err(ConditionSource(input, calcmap, calcband).error)
    ensures ConditionSource(input, calcmap, calcband).Ok? ==> r.Ok?
    ensures ConditionSource(input, calcmap, calcband).Ok? ==>
      var condition := ConditionSource(input, calcmap, calcband).value;
      && (r.value <==> condition.FixedBand?)
      && (r.value ==> calcData != null && fresh(calcData) && calcData[..] == condition.band.pixels &&
                      calcShape == (condition.band.rows, condition.band.cols))
      && (!r.value ==> (condition.OwnData? <==> calcmap.None?))
      && (condition.CalcMapBands? ==> calcmap == Some(condition.bands))
  {
    calcData, calcShape := null, (0, 0);
    if calcmap.Some? {
      if Given(calcband) {
        if !(1 <= calcband.value <= |calcmap.value|) {
          return Err(MissingBand(calcband.value)), calcData, calcShape;
        }
        var calcBand := calcmap.value[calcband.value - 1];
        calcData := ReadAsArray(calcBand);
        calcShape := (calcBand.rows, calcBand.cols);
        r := Ok(true);
      } else {
        r := Ok(false);
      }
    } else {
      if Given(calcband) {
        if !(1 <= calcband.value <= |input|) {
          return Err(MissingBand(calcband.value)), calcData, calcShape;
        }
        var calcBand := input[calcband.value - 1];
        calcData := ReadAsArray(calcBand);
        calcShape := (calcBand.rows, calcBand.cols);
        r := Ok(true);
      } else {
        r := Ok(false);
        calcData := null;
      }
    }
  }

  /** `main`: compile the rules, choose the condition source, then walk the bands 1..N,
      copying the unselected ones and rewriting the selected ones rule by rule in place. */
  method Replace(input: seq<Band>, inputBands: seq<int>, operators: seq<string>,
                 invals: seq<string>, outvals: seq<int>,
                 calcmap: Option<seq<Band>>, calcband: Option<int>) returns (r: Result<seq<OutBand>>)
    requires AllWellFormed(input)
    requires calcmap.Some? ==> AllWellFormed(calcmap.value)
    ensures r == ReplacePixelValues(input, inputBands, operators, invals, outvals, calcmap, calcband)
  {
    var rules :- CompileRules(operators, invals, outvals);
    var numbands := |input|;
    if numbands == 0 {
      return Err(NoBands);  // `inputds.GetRasterBand(1)` has no band to return
    }

    // The condition source, decided once.
    ConditionSourceWellFormed(input, calcmap, calcband);
    var calcDataSet, calcData, calcShape :- ReadCondition(input, calcmap, calcband);
    ghost var condition := ConditionSource(input, calcmap, calcband).value;
    r := RunBands(input, inputBands, rules, calcmap, calcDataSet, calcData, calcShape, condition);
  }

  /** The band loop of `main`: bands 1..N in order, the unselected ones copied, the
      selected ones rewritten; the first failing band ends the run. */
  method RunBands(input: seq<Band>, inputBands: seq<int>, rules: seq<Rule>,
                  calcmap: Option<seq<Band>>, calcDataSet: bool, calcData: array?<int>,
                  calcShape: (nat, nat), ghost condition: Condition)
      returns (r: Result<seq<OutBand>>)
    requires AllWellFormed(input) && ConditionWellFormed(condition)
    requires calcDataSet <==> condition.FixedBand?
    requires calcDataSet ==> calcData != null && calcData[..] == condition.band.pixels &&
                             calcShape == (condition.band.rows, condition.band.cols)
    requires !calcDataSet ==> (condition.OwnData? <==> calcmap.None?)
    requires condition.CalcMapBands? ==> calcmap == Some(condition.bands)
    ensures r == Outputs(input, inputBands, rules, condition, |input|)
  {
    var numbands := |input|;
    var outdata: seq<OutBand> := seq(numbands, _ => Placeholder);
    for b := 1 to numbands + 1
      invariant |outdata| == numbands
      invariant Outputs(input, inputBands, rules, condition, b - 1) == Ok(outdata[..b - 1])
      invariant calcDataSet ==> calcData != null && calcData[..] == condition.band.pixels
    {
      var band := input[b - 1];
      if b !in inputBands {
        var indata := ReadAsArray(band);
        outdata := outdata[b - 1 := Pixels(Band(band.rows, band.cols, indata[..]))];
      } else {
        var out := ProcessBand(input, inputBands, b, rules, calcmap, calcDataSet, calcData, calcShape, condition);
        if out.Err? {
          OutputsFirstError(input, inputBands, rules, condition, b, numbands);
          return Err(out.error);
        }
        outdata := outdata[b - 1 := out.value];
      }
      assert outdata[..b] == outdata[..b - 1] + [outdata[b - 1]];
    }
    assert outdata[..numbands] == outdata;
    return Ok(outdata);
  }

  /** A successful run holds one entry per input band, entry b - 1 being the output of
      band b under the compiled rules and the chosen condition source. */
  lemma ReplaceOutput(input: seq<Band>, inputBands: seq<int>, operators: seq<string>,
                      invals: seq<string>, outvals: seq<int>,
                      calcmap: Option<seq<Band>>, calcband: Option<int>, b: int)
    requires AllWellFormed(input)
    requires calcmap.Some? ==> AllWellFormed(calcmap.value)
    requires ReplacePixelValues(input, inputBands, operators, invals, outvals, calcmap, calcband).Ok?
    requires 1 <= b <= |input|
    ensures CompileRules(operators, invals, outvals).Ok? && ConditionSource(input, calcmap, calcband).Ok?
    ensures ConditionWellFormed(ConditionSource(input, calcmap, calcband).value)
    ensures var out := ReplacePixelValues(input, inputBands, operators, invals, outvals, calcmap, calcband).value;
      var rules := CompileRules(operators, invals, outvals).value;
      var condition := ConditionSource(input, calcmap, calcband).value;
      |out| == |input| && BandOutput(input, inputBands, rules, condition, b) == Ok(out[b - 1])
  {
    var rules := CompileRules(operators, invals, outvals).value;
    var condition := ConditionSource(input, calcmap, calcband).value;
    ConditionSourceWellFormed(input, calcmap, calcband);
    assert ReplacePixelValues(input, inputBands, operators, invals, outvals, calcmap, calcband) ==
      Outputs(input, inputBands, rules, condition, |input|);
    OutputsPerBand(input, inputBands, rules, condition, |input|);
  }

  /** Every selected band of a run with rules has its condition band, of its own shape. */
  predicate ConditionsFit(input: seq<Band>, inputBands: seq<int>, rules: seq<Rule>, cond: Condition) {
    rules == [] ||
    forall b :: 1 <= b <= |input| && b in inputBands ==>
      ConditionBand(cond, b).Ok? &&
      (ConditionBand(cond, b).value.Some? ==> ConditionBand(cond, b).value.value.SameShape(input[b - 1]))
  }

  /** A run succeeds exactly when the rules compile, the raster has a band, the condition
      source can be read and every selected band has a condition band of its shape. */
  lemma ReplaceSucceeds(input: seq<Band>, inputBands: seq<int>, operators: seq<string>,
                        invals: seq<string>, outvals: seq<int>,
                        calcmap: Option<seq<Band>>, calcband: Option<int>)
    requires AllWellFormed(input)
    requires calcmap.Some? ==> AllWellFormed(calcmap.value)
    ensures ReplacePixelValues(input, inputBands, operators, invals, outvals, calcmap, calcband).Ok? <==>
      && CompileRules(operators, invals, outvals).Ok?
      && |input| > 0
      && ConditionSource(input, calcmap, calcband).Ok?
      && ConditionsFit(input, inputBands, CompileRules(operators, invals, outvals).value,
                       ConditionSource(input, calcmap, calcband).value)
  {
    var compiled, source := CompileRules(operators, invals, outvals), ConditionSource(input, calcmap, calcband);
    if compiled.Ok? && |input| > 0 && source.Ok? {
      ConditionSourceWellFormed(input, calcmap, calcband);
      OutputsSucceed(input, inputBands, compiled.value, source.value);
    }
  }

  /** The band loop over all bands succeeds exactly when the condition bands fit. */
  lemma OutputsSucceed(input: seq<Band>, inputBands: seq<int>, rules: seq<Rule>, cond: Condition)
    requires AllWellFormed(input) && ConditionWellFormed(cond)
    ensures Outputs(input, inputBands, rules, cond, |input|).Ok? <==> ConditionsFit(input, inputBands, rules, cond)
  {
    OutputsPerBand(input, inputBands, rules, cond, |input|);
    if rules != [] {
      forall b | 1 <= b <= |input| && b in inputBands
        ensures BandOutput(input, inputBands, rules, cond, b).Ok? <==>
          ConditionBand(cond, b).Ok? &&
          (ConditionBand(cond, b).value.Some? ==> ConditionBand(cond, b).value.value.SameShape(input[b - 1]))
      {
      }
    }
  }

  /** What a successful run returns: one entry per input band, in band order. A band not
      in `inputBands` is copied unchanged; a selected band keeps the placeholder when the
      rule list is empty and otherwise holds a band of the same shape. */
  lemma ReplaceBands(input: seq<Band>, inputBands: seq<int>, operators: seq<string>,
                     invals: seq<string>, outvals: seq<int>,
                     calcmap: Option<seq<Band>>, calcband: Option<int>, b: int)
    requires AllWellFormed(input)
    requires calcmap.Some? ==> AllWellFormed(calcmap.value)
    requires ReplacePixelValues(input, inputBands, operators, invals, outvals, calcmap, calcband).Ok?
    requires 1 <= b <= |input|
    ensures var out := ReplacePixelValues(input, inputBands, operators, invals, outvals, calcmap, calcband).value;
      && |out| == |input|
      && (b !in inputBands ==> out[b - 1] == Pixels(input[b - 1]))
      && (b in inputBands && Min3(|operators|, |invals|, |outvals|) == 0 ==> out[b - 1] == Placeholder)
      && (b in inputBands && Min3(|operators|, |invals|, |outvals|) > 0 ==>
            out[b - 1].Pixels? && out[b - 1].band.SameShape(input[b - 1]) &&
            |out[b - 1].band.pixels| == |input[b - 1].pixels|)
  {
    ReplaceOutput(input, inputBands, operators, invals, outvals, calcmap, calcband, b);
  }

  /** In the own-data mode a selected band's pixel ends as its own value carried through
      the rules in order, each rule testing the value the previous ones left: with rules
      (> 5 -> 99) and (< 10 -> 1) a pixel 7 becomes 99 and stays 99. */
  lemma OwnDataPixel(input: seq<Band>, inputBands: seq<int>, rules: seq<Rule>, b: int, i: int)
    requires 1 <= b <= |input| && AllWellFormed(input)
    requires b in inputBands && rules != [] && 0 <= i < |input[b - 1].pixels|
    ensures var out := BandOutput(input, inputBands, rules, OwnData, b);
      && out.Ok? && out.value.Pixels? && |out.value.band.pixels| == |input[b - 1].pixels|
      && out.value.band.pixels[i] == PixelAliased(rules, input[b - 1].pixels[i])
  {
    RunAliasedPixel(rules, input[b - 1].pixels, i);
  }

  /** With a condition band of the right shape, pixel i takes the value of the last rule
      whose predicate holds for condition pixel i, and keeps its value when none does:
      which pixels are replaced does not depend on the band's own values. */
  lemma ConditionBandPixel(input: seq<Band>, inputBands: seq<int>, rules: seq<Rule>, cond: Condition,
                           b: int, i: int)
    requires 1 <= b <= |input| && AllWellFormed(input) && ConditionWellFormed(cond)
    requires b in inputBands && rules != [] && 0 <= i < |input[b - 1].pixels|
    requires BandOutput(input, inputBands, rules, cond, b).Ok?
    requires ConditionBand(cond, b).Ok? && ConditionBand(cond, b).value.Some?
    ensures var out := BandOutput(input, inputBands, rules, cond, b).value;
      var c := ConditionBand(cond, b).value.value.pixels[i];
      && out.Pixels? && |out.band.pixels| == |input[b - 1].pixels|
      && ((forall j :: 0 <= j < |rules| ==> !Eval(rules[j].pred, c)) ==>
            out.band.pixels[i] == input[b - 1].pixels[i])
      && (forall j :: LastMatch(rules, c, j) ==> out.band.pixels[i] == rules[j].outValue)
  {
    var cb := ConditionBand(cond, b).value.value;
    RunFixedPixel(rules, cb.pixels, input[b - 1].pixels, i);
    var c, x := cb.pixels[i], input[b - 1].pixels[i];
    if forall j :: 0 <= j < |rules| ==> !Eval(rules[j].pred, c) {
      PixelFixedNoMatch(rules, c, x);
    }
    forall j | LastMatch(rules, c, j) ensures PixelFixed(rules, c, x) == rules[j].outValue {
      PixelFixedLastMatch(rules, c, x, j);
    }
  }

  /** Band b's output when its rules test a copy of the band as read, which the name
      `origdata` evidently means: the band itself is the fixed condition. */
  function CopiedConditionOutput(input: seq<Band>, inputBands: seq<int>, rules: seq<Rule>, b: int): Result<OutBand>
    requires 1 <= b <= |input| && AllWellFormed(input)
  {
    BandOutput(input, inputBands, rules, FixedBand(input[b - 1]), b)
  }

  /** With the condition copied, every rule tests the pixel's original value: the last
      rule that value matches decides the pixel, and a value no rule matches is kept. */
  lemma CopiedConditionPixel(input: seq<Band>, inputBands: seq<int>, rules: seq<Rule>, b: int, i: int)
    requires 1 <= b <= |input| && AllWellFormed(input)
    requires b in inputBands && rules != [] && 0 <= i < |input[b - 1].pixels|
    ensures var out := CopiedConditionOutput(input, inputBands, rules, b);
      var x := input[b - 1].pixels[i];
      && out.Ok? && out.value.Pixels? && |out.value.band.pixels| == |input[b - 1].pixels|
      && ((forall j :: 0 <= j < |rules| ==> !Eval(rules[j].pred, x)) ==> out.value.band.pixels[i] == x)
      && (forall j :: LastMatch(rules, x, j) ==> out.value.band.pixels[i] == rules[j].outValue)
  {
    ConditionBandPixel(input, inputBands, rules, FixedBand(input[b - 1]), b, i);
  }

  /** Without --calcmap or a non-zero calcband, every selected band is rewritten on its
      own values, rule after rule. */
  lemma OwnDataPixels(input: seq<Band>, inputBands: seq<int>, operators: seq<string>,
                      invals: seq<string>, outvals: seq<int>, calcband: Option<int>, b: int, i: int)
    requires AllWellFormed(input)
    requires !Given(calcband)
    requires ReplacePixelValues(input, inputBands, operators, invals, outvals, None, calcband).Ok?
    requires 1 <= b <= |input| && b in inputBands && 0 <= i < |input[b - 1].pixels|
    requires Min3(|operators|, |invals|, |outvals|) > 0
    ensures var out := ReplacePixelValues(input, inputBands, operators, invals, outvals, None, calcband).value;
      var rules := CompileRules(operators, invals, outvals).value;
      |out| == |input| && out[b - 1].Pixels? && |out[b - 1].band.pixels| == |input[b - 1].pixels| &&
      out[b - 1].band.pixels[i] == PixelAliased(rules, input[b - 1].pixels[i])
  {
    ReplaceOutput(input, inputBands, operators, invals, outvals, None, calcband, b);
    var rules := CompileRules(operators, invals, outvals).value;
    assert ConditionSource(input, None, calcband).value == OwnData;
    OwnDataPixel(input, inputBands, rules, b, i);
  }

  /** With a non-zero calcband, every selected band is rewritten against the same band,
      read once, of the calc map when there is one and of the input otherwise. */
  lemma FixedConditionPixels(input: seq<Band>, inputBands: seq<int>, operators: seq<string>,
                             invals: seq<string>, outvals: seq<int>,
                             calcmap: Option<seq<Band>>, calcband: Option<int>, b: int, i: int)
    requires AllWellFormed(input)
    requires calcmap.Some? ==> AllWellFormed(calcmap.value)
    requires Given(calcband)
    requires ReplacePixelValues(input, inputBands, operators, invals, outvals, calcmap, calcband).Ok?
    requires 1 <= b <= |input| && b in inputBands && 0 <= i < |input[b - 1].pixels|
    requires Min3(|operators|, |invals|, |outvals|) > 0
    ensures var source := if calcmap.Some? then calcmap.value else input;
      1 <= calcband.value <= |source| && |source[calcband.value - 1].pixels| == |input[b - 1].pixels|
    ensures var out := ReplacePixelValues(input, inputBands, operators, invals, outvals, calcmap, calcband).value;
      var rules := CompileRules(operators, invals, outvals).value;
      var source := if calcmap.Some? then calcmap.value else input;
      var c := source[calcband.value - 1].pixels[i];
      && |out| == |input| && out[b - 1].Pixels? && |out[b - 1].band.pixels| == |input[b - 1].pixels|
      && ((forall j :: 0 <= j < |rules| ==> !Eval(rules[j].pred, c)) ==>
            out[b - 1].band.pixels[i] == input[b - 1].pixels[i])
      && (forall j :: LastMatch(rules, c, j) ==> out[b - 1].band.pixels[i] == rules[j].outValue)
  {
    ReplaceOutput(input, inputBands, operators, invals, outvals, calcmap, calcband, b);
    var rules := CompileRules(operators, invals, outvals).value;
    var condition := ConditionSource(input, calcmap, calcband).value;
    ConditionBandPixel(input, inputBands, rules, condition, b, i);
  }

  /** With a calc map and no calcband, band b is rewritten against band b of the calc map,
      which the run therefore must have. */
  lemma CalcMapPixels(input: seq<Band>, inputBands: seq<int>, operators: seq<string>,
                      invals: seq<string>, outvals: seq<int>,
                      calcBands: seq<Band>, calcband: Option<int>, b: int, i: int)
    requires AllWellFormed(input) && AllWellFormed(calcBands)
    requires !Given(calcband)
    requires ReplacePixelValues(input, inputBands, operators, invals, outvals, Some(calcBands), calcband).Ok?
    requires 1 <= b <= |input| && b in inputBands && 0 <= i < |input[b - 1].pixels|
    requires Min3(|operators|, |invals|, |outvals|) > 0
    ensures b <= |calcBands| && |calcBands[b - 1].pixels| == |input[b - 1].pixels|
    ensures var out := ReplacePixelValues(input, inputBands, operators, invals, outvals, Some(calcBands), calcband).value;
      var rules := CompileRules(operators, invals, outvals).value;
      var c := calcBands[b - 1].pixels[i];
      && |out| == |input| && out[b - 1].Pixels? && |out[b - 1].band.pixels| == |input[b - 1].pixels|
      && ((forall j :: 0 <= j < |rules| ==> !Eval(rules[j].pred, c)) ==>
            out[b - 1].band.pixels[i] == input[b - 1].pixels[i])
      && (forall j :: LastMatch(rules, c, j) ==> out[b - 1].band.pixels[i] == rules[j].outValue)
  {
    ReplaceOutput(input, inputBands, operators, invals, outvals, Some(calcBands), calcband, b);
    var rules := CompileRules(operators, invals, outvals).value;
    ConditionBandPixel(input, inputBands, rules, CalcMapBands(calcBands), b, i);
  }

  /** The arguments the command line hands to `main`. */
  datatype Arguments = Arguments(operators: seq<string>, invals: seq<string>, outvals: seq<int>,
                                 inputBands: seq<int>, calcband: Option<int>)

  /** `range(1, n + 1)`. */
  function Range1(n: nat): (r: seq<int>)
    ensures |r| == n && forall k :: 0 <= k < n ==> r[k] == k + 1
    ensures forall b :: 1 <= b <= n ==> b in r
  {
    if n == 0 then [] else Range1(n - 1) + [n]
  }

  /** int() of one token, failing with the token. */
  function IntResult(token: string): (r: Result<int>)
    ensures r.Ok? <==> IntOf(token).Some?
    ensures r.Ok? ==> IntOf(token) == Some(r.value)
    ensures r.Err? ==> r.error == BadNumber(token)
  {
    match IntOf(token)
    case None => Err(BadNumber(token))
    case Some(v) => Ok(v)
  }

  /** Token k is the first one int() rejects. */
  predicate FirstBadInt(tokens: seq<string>, k: int) {
    0 <= k < |tokens| && IntOf(tokens[k]).None? &&
    forall j :: 0 <= j < k ==> IntOf(tokens[j]).Some?
  }

  /** `[int(i) for i in tokens]`: every token read by int() in order, the first one it
      rejects failing. */
  function ParseInts(tokens: seq<string>): (r: Result<seq<int>>)
    ensures r.Ok? <==> forall i :: 0 <= i < |tokens| ==> IntOf(tokens[i]).Some?
    ensures r.Ok? ==> |r.value| == |tokens| && forall i :: 0 <= i < |tokens| ==> IntOf(tokens[i]) == Some(r.value[i])
    ensures r.Err? ==> exists k :: FirstBadInt(tokens, k) && r.error == BadNumber(tokens[k])
  {
    var results := seq(|tokens|, i requires 0 <= i < |tokens| => IntResult(tokens[i]));
    assert forall i :: 0 <= i < |tokens| ==> results[i] == IntResult(tokens[i]);
    var r := Collect(results);
    if r.Err? then
      ghost var k :| FirstFailure(results, k) && results[k] == Err(r.error);
      assert forall j :: 0 <= j < k ==> results[j] == IntResult(tokens[j]) && results[j].Ok?;
      assert results[k] == IntResult(tokens[k]);
      assert FirstBadInt(tokens, k);
      r
    else r
  }

  /** The argument formatting of the script: the three positional lists split on commas,
      the output values parsed as numbers (float()), the selected bands read by int() (all
      bands when --inband is absent), and --calcband read by int() when present. The
      values are parsed in that order and the first failure stops the script. */
  function CommandLine(operators: string, invals: string, outvals: string, inband: seq<string>,
                       calcband: Option<string>, numbands: nat): (r: Result<Arguments>)
    ensures r.Ok? <==>
      ParseNumbers(Split(outvals, ',')).Ok? && (inband != [] ==> ParseInts(inband).Ok?) &&
      (calcband.Some? ==> IntOf(calcband.value).Some?)
    ensures r.Err? ==> r.error.BadNumber?
    ensures r.Ok? ==>
      r.value.operators == Split(operators, ',') && r.value.invals == Split(invals, ',') &&
      r.value.outvals == ParseNumbers(Split(outvals, ',')).value
    ensures r.Ok? ==> |r.value.operators| >= 1 && |r.value.invals| >= 1 && |r.value.outvals| >= 1
    ensures r.Ok? && inband == [] ==> r.value.inputBands == Range1(numbands)
    ensures r.Ok? && inband != [] ==>
      |r.value.inputBands| == |inband| &&
      forall k :: 0 <= k < |inband| ==> IntOf(inband[k]) == Some(r.value.inputBands[k])
    ensures r.Ok? ==> r.value.calcband == (if calcband.None? then None else IntOf(calcband.value))
  {
    var outs := ParseNumbers(Split(outvals, ','));
    var bands := if inband == [] then Ok(Range1(numbands)) else ParseInts(inband);
    var cb := if calcband.None? then Ok(None)
              else match IntOf(calcband.value)
                case None => Err(BadNumber(calcband.value))
                case Some(v) => Ok(Some(v));
    if outs.Err? then Err(outs.error)
    else if bands.Err? then Err(bands.error)
    else if cb.Err? then Err(cb.error)
    else Ok(Arguments(Split(operators, ','), Split(invals, ','), outs.value, bands.value, cb.value))
  }

  /** Run from the command line, the rule lists are never empty, so no band of a
      successful run is left as the placeholder; without --inband every band is rewritten. */
  lemma CommandLineNoPlaceholder(input: seq<Band>, operators: string, invals: string, outvals: string,
                                 inband: seq<string>, calcband: Option<string>,
                                 calcmap: Option<seq<Band>>, b: int)
    requires AllWellFormed(input)
    requires calcmap.Some? ==> AllWellFormed(calcmap.value)
    requires CommandLine(operators, invals, outvals, inband, calcband, |input|).Ok?
    requires var a := CommandLine(operators, invals, outvals, inband, calcband, |input|).value;
      ReplacePixelValues(input, a.inputBands, a.operators, a.invals, a.outvals, calcmap, a.calcband).Ok?
    requires 1 <= b <= |input|
    ensures var a := CommandLine(operators, invals, outvals, inband, calcband, |input|).value;
      var out := ReplacePixelValues(input, a.inputBands, a.operators, a.invals, a.outvals, calcmap, a.calcband).value;
      |out| == |input| && out[b - 1].Pixels? && (inband == [] ==> b in a.inputBands)
  {
    var a := CommandLine(operators, invals, outvals, inband, calcband, |input|).value;
    ReplaceBands(input, a.inputBands, a.operators, a.invals, a.outvals, calcmap, a.calcband, b);
  }
}
