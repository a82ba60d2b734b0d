// Worked examples of the three tools, each stated on the model's own functions.

module Scenarios {
  import opened Text
  import opened Raster
  import opened Predicates
  import opened ReplacePixelValue
  import Difference
  import ClipRaster

  lemma LowerNoUpper(s: string)
    requires forall i :: 0 <= i < |s| ==> !IsUpper(s[i])
    ensures Lower(s) == s
  {
  }

  /** Text with no padding and no capitals splits into the parts it was joined from. */
  lemma Tokens(s: string, parts: seq<string>)
    requires |s| > 0 && !IsSpace(s[0]) && !IsSpace(s[|s| - 1])
    requires forall i :: 0 <= i < |s| ==> !IsUpper(s[i])
    requires |parts| >= 1 && forall i :: 0 <= i < |parts| ==> '+' !in parts[i]
    requires Join(parts, "+") == s
    ensures Split(Lower(Strip(s)), '+') == parts
  {
    StripUnpadded(s);
    LowerNoUpper(s);
    SplitJoin(parts, '+');
  }

  lemma SingleToken(s: string)
    requires |s| > 0 && !IsSpace(s[0]) && !IsSpace(s[|s| - 1]) && '+' !in s
    requires forall i :: 0 <= i < |s| ==> !IsUpper(s[i])
    ensures OperatorTokens(s) == [s] && ValueTokens(s) == [s]
  {
    Tokens(s, [s]);
  }

  lemma Number(n: int)
    ensures ParseInt(IntToString(n)) == Some(n)
  {
    ParseIntToString(n);
  }

  lemma Ten()
    ensures ParseInt("10") == Some(10)
  {
    assert IntToString(10) == "10" by { assert NatToString(1) == "1"; }
    Number(10);
  }

  lemma Digit(n: nat)
    requires n < 10
    ensures ParseInt([('0' as int + n) as char]) == Some(n)
  {
    assert IntToString(n) == [('0' as int + n) as char];
    Number(n);
  }

  lemma Numbers1(s: string, v: int)
    requires ParseInt(s) == Some(v)
    ensures ParseNumbers([s]) == Ok([v])
  {
    assert [s][1..] == [];
    assert ParseNumbers([s][1..]) == Ok([]);
    assert [v] + [] == [v];
  }

  lemma Numbers2(s1: string, v1: int, s2: string, v2: int)
    requires ParseInt(s1) == Some(v1) && ParseInt(s2) == Some(v2)
    ensures ParseNumbers([s1, s2]) == Ok([v1, v2])
  {
    assert [s1, s2][1..] == [s2];
    Numbers1(s2, v2);
    assert [v1] + [v2] == [v1, v2];
  }

  /** The compile once the sub-tokens and the thresholds are known. */
  lemma CompileFrom(o: string, v: string, ops: seq<string>, vs: seq<string>, vals: seq<int>)
    requires OperatorTokens(o) == ops && ValueTokens(v) == vs && ParseNumbers(vs) == Ok(vals)
    ensures var cs := Comparisons(ops, vals);
      GetFunction(o, v) == if cs.Ok? then Ok(Combine(cs.value)) else Err(cs.error)
  {
  }

  lemma Comparisons1(op: string, rest: seq<string>, v: int)
    requires ParseOp(op).Some?
    ensures Comparisons([op] + rest, [v]) == Ok([Compare(ParseOp(op).value, v)])
  {
    assert ([op] + rest)[1..] == rest && [v][1..] == [];
    assert ([op] + rest)[0] == op;
    assert Comparisons(rest, []) == Ok([]);
    assert [Compare(ParseOp(op).value, v)] + [] == [Compare(ParseOp(op).value, v)];
  }

  lemma Comparisons2(op1: string, op2: string, v1: int, v2: int)
    requires ParseOp(op1).Some? && ParseOp(op2).Some?
    ensures Comparisons([op1, op2], [v1, v2]) ==
      Ok([Compare(ParseOp(op1).value, v1), Compare(ParseOp(op2).value, v2)])
  {
    assert [op1, op2][1..] == [op2] + [] && [v1, v2][1..] == [v2];
    Comparisons1(op2, [], v2);
    var c1, c2 := Compare(ParseOp(op1).value, v1), Compare(ParseOp(op2).value, v2);
    assert [c1] + [c2] == [c1, c2];
  }

  /** No spelling of an operator holds a space. */
  lemma SpacedNeverOperator(t: string)
    requires ' ' in t
    ensures ParseOp(t) == None
  {
    forall op: Op ensures t != Canonical(op) && t != Alias(op) {
      var c, a := Canonical(op), Alias(op);
      assert forall i :: 0 <= i < |c| ==> c[i] != ' ';
      assert forall i :: 0 <= i < |a| ==> a[i] != ' ';
    }
  }

  /** Sub-tokens are not stripped: "> + <" splits into "> " and " <", and "> " is not an
      operator, so the compile fails although both thresholds are numbers. */
  lemma SpacedOperatorRejected(o: string, v: string)
    requires o == "> + <" && v == "5+10"
    ensures GetFunction(o, v) == Err(UnknownOperator("> "))
  {
    SpacedTokens();
    FiveTen();
    CompileFrom(o, v, ["> ", " <"], ["5", "10"], [5, 10]);
    assert "> "[1] == ' ';
    SpacedNeverOperator("> ");
    assert ["> ", " <"] == ["> "] + [" <"];
  }

  lemma SpacedTokens()
    ensures OperatorTokens("> + <") == ["> ", " <"]
  {
    assert Join(["> ", " <"], "+") == "> + <";
    Tokens("> + <", ["> ", " <"]);
  }

  lemma FiveTen()
    ensures ValueTokens("5+10") == ["5", "10"]
    ensures ParseNumbers(["5", "10"]) == Ok([5, 10])
  {
    assert Join(["5", "10"], "+") == "5+10";
    Tokens("5+10", ["5", "10"]);
    Digit(5);
    Ten();
    Numbers2("5", 5, "10", 10);
  }

  lemma Five()
    ensures ValueTokens("5") == ["5"]
    ensures ParseNumbers(["5"]) == Ok([5])
  {
    SingleToken("5");
    Digit(5);
    Numbers1("5", 5);
  }

  /** "=<" is accepted as another spelling of "<=". */
  lemma AliasSpelling()
    ensures GetFunction("=<", "5") == Ok(Compare(LE, 5))
    ensures GetFunction("<=", "5") == Ok(Compare(LE, 5))
  {
    Five();
    SingleToken("=<");
    SingleToken("<=");
    CompileFrom("=<", "5", ["=<"], ["5"], [5]);
    CompileFrom("<=", "5", ["<="], ["5"], [5]);
    Comparisons1("=<", [], 5);
    Comparisons1("<=", [], 5);
  }

  /** A symbol that is no operator is rejected. */
  lemma UnknownSymbol()
    ensures GetFunction("~", "5") == Err(UnknownOperator("~"))
  {
    Five();
    SingleToken("~");
    CompileFrom("~", "5", ["~"], ["5"], [5]);
    assert ParseOp("~") == None;
  }

  /** Thresholds are parsed first: with a bad threshold and a bad operator the error is
      the threshold's. */
  lemma ThresholdCheckedFirst()
    ensures GetFunction("~", "x") == Err(BadNumber("x"))
  {
    SingleToken("x");
    assert !IsDigit('x') && Strip("x") == "x";
    assert FirstBadNumber(ValueTokens("x"), 0);
    GetFunctionValueErrorFirst("~", "x", 0);
  }

  /** `zip` drops the operator that has no threshold, even one that is not an operator. */
  lemma UnpairedOperatorIgnored()
    ensures GetFunction(">+~", "5") == Ok(Compare(GT, 5))
  {
    assert Join([">", "~"], "+") == ">+~";
    Tokens(">+~", [">", "~"]);
    Five();
    CompileFrom(">+~", "5", [">", "~"], ["5"], [5]);
    Comparisons1(">", ["~"], 5);
    assert [">", "~"] == [">"] + ["~"];
  }

  /** ">+<" with "5+10" selects the open interval between the thresholds. */
  lemma Interval(o: string, v: string)
    requires o == ">+<" && v == "5+10"
    ensures GetFunction(o, v) == Ok(Both(Compare(GT, 5), Compare(LT, 10)))
    ensures Eval(GetFunction(o, v).value, 7)
    ensures !Eval(GetFunction(o, v).value, 12) && !Eval(GetFunction(o, v).value, 5)
  {
    IntervalCompiles(o, v);
  }

  lemma IntervalCompiles(o: string, v: string)
    requires o == ">+<" && v == "5+10"
    ensures GetFunction(o, v) == Ok(Both(Compare(GT, 5), Compare(LT, 10)))
  {
    AboveBelow();
    FiveTen();
    CompileFrom(o, v, [">", "<"], ["5", "10"], [5, 10]);
    Comparisons2(">", "<", 5, 10);
    CombineTwo(Compare(GT, 5), Compare(LT, 10));
  }

  lemma AboveBelow()
    ensures OperatorTokens(">+<") == [">", "<"]
  {
    assert Join([">", "<"], "+") == ">+<";
    Tokens(">+<", [">", "<"]);
  }

  lemma CombineTwo(p: Pred, q: Pred)
    ensures Combine([p, q]) == Both(p, q)
  {
    assert [p, q][..1] == [p];
  }

  /** In the own-data mode the second rule tests the value the first one wrote: with
      (> 5 -> 99) then (< 10 -> 1), a pixel 7 becomes 99 and stays 99. Evaluated against
      a fixed condition band holding the original 7, the same rules give 1. */
  lemma AliasingChangesOutcome()
    ensures var rules := [Rule(Compare(GT, 5), 99), Rule(Compare(LT, 10), 1)];
      PixelAliased(rules, 7) == 99 && PixelFixed(rules, 7, 7) == 1
  {
    var rules := [Rule(Compare(GT, 5), 99), Rule(Compare(LT, 10), 1)];
    assert rules[..1] == [Rule(Compare(GT, 5), 99)];
    assert rules[..1][..0] == [];
  }

  /** ">" with "10" compiles to the single comparison `> 10`. */
  lemma AboveTen(o: string, v: string)
    requires o == ">" && v == "10"
    ensures GetFunction(o, v) == Ok(Compare(GT, 10))
  {
    SingleToken(">");
    SingleToken("10");
    Ten();
    Numbers1("10", 10);
    CompileFrom(o, v, [">"], ["10"], [10]);
    Comparisons1(">", [], 10);
    assert [">"] + [] == [">"];
  }

  /** "<=" with "1" compiles to the single comparison `<= 1`. */
  lemma AtMostOne(o: string, v: string)
    requires o == "<=" && v == "1"
    ensures GetFunction(o, v) == Ok(Compare(LE, 1))
  {
    SingleToken("<=");
    SingleToken("1");
    Digit(1);
    Numbers1("1", 1);
    CompileFrom(o, v, ["<="], ["1"], [1]);
    Comparisons1("<=", [], 1);
    assert ["<="] + [] == ["<="];
  }

  /** The rules (> 10 -> 999) and (<= 1 -> 0) from their command-line texts. */
  lemma TwoRulesCompile(ops: seq<string>, invals: seq<string>, outvals: seq<int>)
    requires ops == [">", "<="] && invals == ["10", "1"] && outvals == [999, 0]
    ensures CompileRules(ops, invals, outvals) == Ok([Rule(Compare(GT, 10), 999), Rule(Compare(LE, 1), 0)])
  {
    AboveTen(ops[0], invals[0]);
    AtMostOne(ops[1], invals[1]);
    CompileTwo(ops, invals, outvals, Compare(GT, 10), Compare(LE, 1));
  }

  /** Two triples whose predicates compile give two rules. */
  lemma CompileTwo(ops: seq<string>, invals: seq<string>, outvals: seq<int>, p0: Pred, p1: Pred)
    requires |ops| == 2 && |invals| == 2 && |outvals| == 2
    requires GetFunction(ops[0], invals[0]) == Ok(p0) && GetFunction(ops[1], invals[1]) == Ok(p1)
    ensures CompileRules(ops, invals, outvals) == Ok([Rule(p0, outvals[0]), Rule(p1, outvals[1])])
  {
    var preds := [p0, p1];
    assert Min3(|ops|, |invals|, |outvals|) == 2;
    forall i | 0 <= i < 2
      ensures GetFunction(ops[i], invals[i]) == Ok(preds[i])
    {
      if i == 0 {
        assert GetFunction(ops[0], invals[0]) == Ok(p0);
      } else {
        assert GetFunction(ops[1], invals[1]) == Ok(p1);
      }
    }
    CompileRulesOk(ops, invals, outvals, preds);
    RulesTwo(preds, outvals);
  }

  /** A two-element rule list written out. */
  lemma RulesTwo(preds: seq<Pred>, outvals: seq<int>)
    requires |preds| == 2 && |outvals| == 2
    ensures seq(2, i requires 0 <= i < 2 => Rule(preds[i], outvals[i])) == [Rule(preds[0], outvals[0]), Rule(preds[1], outvals[1])]
  {
  }

  /** Applied in the own-data mode, they turn [1, 2, 11, 12] into [0, 2, 999, 999]. */
  lemma TwoRulesPixels()
    ensures RunAliased([Rule(Compare(GT, 10), 999), Rule(Compare(LE, 1), 0)], [1, 2, 11, 12]) == [0, 2, 999, 999]
  {
    var rules := [Rule(Compare(GT, 10), 999), Rule(Compare(LE, 1), 0)];
    var out := RunAliased(rules, [1, 2, 11, 12]);
    assert rules[..1] == [rules[0]] && rules[..1][..0] == [];
    forall i | 0 <= i < 4 ensures out[i] == [0, 2, 999, 999][i] {
      RunAliasedPixel(rules, [1, 2, 11, 12], i);
    }
  }

  /** The band loop on those rules: band 1 rewritten, band 2 copied. */
  lemma TwoRulesOutputs(input: seq<Band>, rules: seq<Rule>)
    requires input == [Band(2, 2, [1, 2, 11, 12]), Band(2, 2, [3, 4, 5, 6])]
    requires rules == [Rule(Compare(GT, 10), 999), Rule(Compare(LE, 1), 0)]
    ensures AllWellFormed(input)
    ensures Outputs(input, [1], rules, OwnData, 2) ==
      Ok([Pixels(Band(2, 2, [0, 2, 999, 999])), Pixels(Band(2, 2, [3, 4, 5, 6]))])
  {
    TwoRulesPixels();
    assert BandOutput(input, [1], rules, OwnData, 1) == Ok(Pixels(Band(2, 2, [0, 2, 999, 999])));
    assert BandOutput(input, [1], rules, OwnData, 2) == Ok(Pixels(Band(2, 2, [3, 4, 5, 6])));
    assert Outputs(input, [1], rules, OwnData, 0) == Ok([]);
    assert Outputs(input, [1], rules, OwnData, 1) == Ok([] + [Pixels(Band(2, 2, [0, 2, 999, 999]))]);
    assert [] + [Pixels(Band(2, 2, [0, 2, 999, 999]))] == [Pixels(Band(2, 2, [0, 2, 999, 999]))];
    assert [Pixels(Band(2, 2, [0, 2, 999, 999]))] + [Pixels(Band(2, 2, [3, 4, 5, 6]))] ==
      [Pixels(Band(2, 2, [0, 2, 999, 999])), Pixels(Band(2, 2, [3, 4, 5, 6]))];
  }

  /** Band 1 = [1, 2, 11, 12] with rules (> 10 -> 999) and (<= 1 -> 0) becomes
      [0, 2, 999, 999]; band 2, not selected, is copied. */
  lemma TwoRules(input: seq<Band>, ops: seq<string>, invals: seq<string>, outvals: seq<int>)
    requires input == [Band(2, 2, [1, 2, 11, 12]), Band(2, 2, [3, 4, 5, 6])]
    requires ops == [">", "<="] && invals == ["10", "1"] && outvals == [999, 0]
    ensures AllWellFormed(input)
    ensures ReplacePixelValues(input, [1], ops, invals, outvals, None, None) ==
      Ok([Pixels(Band(2, 2, [0, 2, 999, 999])), Pixels(Band(2, 2, [3, 4, 5, 6]))])
  {
    var rules := [Rule(Compare(GT, 10), 999), Rule(Compare(LE, 1), 0)];
    TwoRulesCompile(ops, invals, outvals);
    TwoRulesOutputs(input, rules);
    assert ConditionSource(input, None, None) == Ok(OwnData);
  }

  /** Bands 5 7 / 6 4 / 9 9 give the stack 0 0 / 1 -3 / 3 5. */
  lemma DifferenceExample()
    ensures Difference.DifferenceStack([Band(1, 2, [5, 7]), Band(1, 2, [6, 4]), Band(1, 2, [9, 9])]) ==
      Ok([Band(1, 2, [0, 0]), Band(1, 2, [1, -3]), Band(1, 2, [3, 5])])
  {
    var input := [Band(1, 2, [5, 7]), Band(1, 2, [6, 4]), Band(1, 2, [9, 9])];
    assert Difference.StackBand(input, 0) == Band(1, 2, [0, 0]);
    assert Difference.StackBand(input, 1) == Band(1, 2, [1, -3]);
    assert Difference.StackBand(input, 2) == Band(1, 2, [3, 5]);
    assert Difference.DifferenceStack(input).value ==
      [Difference.StackBand(input, 0), Difference.StackBand(input, 1), Difference.StackBand(input, 2)];
  }

  /** Zero bands: the run stops before writing anything. */
  lemma NoBandsFail(ops: seq<string>, invals: seq<string>, outvals: seq<int>)
    requires ops == [">"] && invals == ["1"] && outvals == [0]
    ensures Difference.DifferenceStack([]) == Err(NoBands)
    ensures ReplacePixelValues([], [], ops, invals, outvals, None, None) == Err(NoBands)
  {
    SingleToken(">");
    SingleToken("1");
    Digit(1);
    Numbers1("1", 1);
    CompileFrom(ops[0], invals[0], [">"], ["1"], [1]);
    Comparisons1(">", [], 1);
    assert Min3(|ops|, |invals|, |outvals|) == 1;
    assert CompileRules(ops, invals, outvals).Ok?;
  }

  /** The layer of "out/x.shp" is "out/x.lyr": the one `.shp` is replaced and the rest
      of the path is kept. */
  lemma LayerExample()
    ensures ClipRaster.Layer("out/x.shp") == "out/x.lyr"
  {
    var p := "out/x.shp";
    assert p[..|p| - 4] == "out/x";
    assert "out/x"[0..4] != ".shp" by { assert "out/x"[0..4][0] == 'o'; }
    assert "out/x"[1..5] != ".shp" by { assert "out/x"[1..5][0] == 'u'; }
    assert !Occurs("out/x", ".shp");
  }
}
