// The operator compiler of replacePixelValue.py: `combine2`, `combine` and `getFunction`
// turn an operator string such as ">+<=" and a threshold string such as "5+10" into one
// pixel predicate, the conjunction of the paired comparisons. The closures the program
// builds are represented by the `Pred` datatype and interpreted by `Eval`.

module Predicates {
  import opened Text
  import opened Raster

  /** The six comparisons a compiled operator can perform. */
  datatype Op = GT | LT | LE | GE | EQ | NE

  /** `pixel <op> threshold`. */
  function Holds(op: Op, pixel: int, threshold: int): bool {
    match op
    case GT => pixel > threshold
    case LT => pixel < threshold
    case LE => pixel <= threshold
    case GE => pixel >= threshold
    case EQ => pixel == threshold
    case NE => pixel != threshold
  }

  /** A compiled predicate: one comparison closure, or the `&` of two predicates. */
  datatype Pred = Compare(op: Op, threshold: int) | Both(left: Pred, right: Pred)

  /** The value a compiled predicate gives for one pixel (numpy applies it pixel-wise). */
  function Eval(p: Pred, pixel: int): bool {
    match p
    case Compare(op, v) => Holds(op, pixel, v)
    case Both(f, g) => Eval(f, pixel) && Eval(g, pixel)
  }

  /** combine2(f, g): the predicate true exactly where both are. */
  function Combine2(f: Pred, g: Pred): (h: Pred)
    ensures forall x :: Eval(h, x) == (Eval(f, x) && Eval(g, x))
  {
    Both(f, g)
  }

  /** combine(*fs) = functools.reduce(combine2, fs): a left fold that starts from the first
      predicate, so a single predicate is returned as it is. */
  function Combine(fs: seq<Pred>): (h: Pred)
    requires |fs| >= 1
    ensures |fs| == 1 ==> h == fs[0]
    ensures forall x :: Eval(h, x) <==> (forall i :: 0 <= i < |fs| ==> Eval(fs[i], x))
  {
    if |fs| == 1 then fs[0]
    else
      var init := fs[..|fs| - 1];
      assert forall i :: 0 <= i < |fs| - 1 ==> init[i] == fs[i];
      Combine2(Combine(init), fs[|fs| - 1])
  }

  /** The canonical spelling of each comparison. */
  function Canonical(op: Op): string {
    match op
    case GT => ">"
    case LT => "<"
    case LE => "<="
    case GE => ">="
    case EQ => "=="
    case NE => "!="
  }

  /** The second accepted spelling (the same as the canonical one for `>` and `<`). */
  function Alias(op: Op): string {
    match op
    case GT => ">"
    case LT => "<"
    case LE => "=<"
    case GE => "=>"
    case EQ => "="
    case NE => "=!"
  }

  /** The if/elif chain of `getFunction`: an operator sub-token is recognised only when it
      is exactly one of the spellings, with no surrounding whitespace. */
  function ParseOp(token: string): (r: Option<Op>)
    ensures r.Some? ==> token == Canonical(r.value) || token == Alias(r.value)
    ensures r.None? ==> forall op: Op :: token != Canonical(op) && token != Alias(op)
  {
    if token == ">" then Some(GT)
    else if token == "<" then Some(LT)
    else if token == "<=" || token == "=<" then Some(LE)
    else if token == ">=" || token == "=>" then Some(GE)
    else if token == "=" || token == "==" then Some(EQ)
    else if token == "!=" || token == "=!" then Some(NE)
    else None
  }

  /** Token k is the first one that does not parse as a number. */
  predicate FirstBadNumber(tokens: seq<string>, k: int) {
    0 <= k < |tokens| && ParseInt(tokens[k]).None? &&
    forall j :: 0 <= j < k ==> ParseInt(tokens[j]).Some?
  }

  /** `[float(i) for i in tokens]`: every token parsed in order, the first bad one fails. */
  function ParseNumbers(tokens: seq<string>): (r: Result<seq<int>>)
    ensures r.Ok? <==> forall i :: 0 <= i < |tokens| ==> ParseInt(tokens[i]).Some?
    ensures r.Ok? ==> |r.value| == |tokens|
    ensures r.Ok? ==> forall i :: 0 <= i < |tokens| ==> ParseInt(tokens[i]) == Some(r.value[i])
    ensures r.Err? ==> exists k :: FirstBadNumber(tokens, k) && r.error == BadNumber(tokens[k])
  {
    if |tokens| == 0 then Ok([])
    else match ParseInt(tokens[0])
      case None =>
        assert FirstBadNumber(tokens, 0);
        Err(BadNumber(tokens[0]))
      case Some(v) =>
        var rest := ParseNumbers(tokens[1..]);
        if rest.Err? then
          ParsedErrCons(tokens, rest.error);
          Err(rest.error)
        else
          ParsedOkCons(tokens, v, rest.value);
          Ok([v] + rest.value)
  }

  /** A failure in the tail is the first failure of the whole list when the head parses. */
  lemma ParsedErrCons(tokens: seq<string>, e: Error)
    requires |tokens| > 0 && ParseInt(tokens[0]).Some?
    requires exists k :: FirstBadNumber(tokens[1..], k) && e == BadNumber(tokens[1..][k])
    ensures exists k :: FirstBadNumber(tokens, k) && e == BadNumber(tokens[k])
    ensures !forall i :: 0 <= i < |tokens| ==> ParseInt(tokens[i]).Some?
  {
    var k :| FirstBadNumber(tokens[1..], k) && e == BadNumber(tokens[1..][k]);
    assert tokens[k + 1] == tokens[1..][k];
    forall j | 0 <= j < k + 1
      ensures ParseInt(tokens[j]).Some?
    {
      if j > 0 {
        assert tokens[j] == tokens[1..][j - 1];
      }
    }
    assert FirstBadNumber(tokens, k + 1);
  }

  /** The parsed head followed by the parsed tail are the values of the whole list. */
  lemma ParsedOkCons(tokens: seq<string>, v: int, vs: seq<int>)
    requires |tokens| > 0 && ParseInt(tokens[0]) == Some(v)
    requires |vs| == |tokens| - 1
    requires forall i :: 0 <= i < |tokens| - 1 ==> ParseInt(tokens[1..][i]) == Some(vs[i])
    ensures forall i :: 0 <= i < |tokens| ==> ParseInt(tokens[i]) == Some(([v] + vs)[i])
  {
    forall i | 0 <= i < |tokens|
      ensures ParseInt(tokens[i]) == Some(([v] + vs)[i])
    {
      if i > 0 {
        assert tokens[i] == tokens[1..][i - 1];
      }
    }
  }

  /** Operator k is the first unrecognised one among those paired with a value. */
  predicate FirstBadOperator(ops: seq<string>, vals: seq<int>, k: int) {
    0 <= k < |ops| && k < |vals| && ParseOp(ops[k]).None? &&
    forall j :: 0 <= j < k ==> ParseOp(ops[j]).Some?
  }

  /** The loop of `getFunction` over `zip(op_strings, val_strings)`: one comparison per
      pair, in order, the first unknown operator failing. Pairs beyond the shorter list
      are never looked at. */
  function Comparisons(ops: seq<string>, vals: seq<int>): (r: Result<seq<Pred>>)
    ensures var n := if |ops| < |vals| then |ops| else |vals|;
      && (r.Ok? <==> forall i :: 0 <= i < n ==> ParseOp(ops[i]).Some?)
      && (r.Ok? ==> |r.value| == n)
      && (r.Ok? ==> forall i :: 0 <= i < n ==> r.value[i] == Compare(ParseOp(ops[i]).value, vals[i]))
      && (r.Err? ==> exists k :: FirstBadOperator(ops, vals, k) && r.error == UnknownOperator(ops[k]))
  {
    if |ops| == 0 || |vals| == 0 then Ok([])
    else match ParseOp(ops[0])
      case None => Err(UnknownOperator(ops[0]))
      case Some(op) =>
        var rest := Comparisons(ops[1..], vals[1..]);
        if rest.Err? then
          ComparedErrCons(ops, vals, rest.error);
          Err(rest.error)
        else
          ComparedOkCons(ops, vals, op, rest.value);
          Ok([Compare(op, vals[0])] + rest.value)
  }

  lemma ComparedErrCons(ops: seq<string>, vals: seq<int>, e: Error)
    requires |ops| > 0 && |vals| > 0 && ParseOp(ops[0]).Some?
    requires exists k :: FirstBadOperator(ops[1..], vals[1..], k) && e == UnknownOperator(ops[1..][k])
    ensures exists k :: FirstBadOperator(ops, vals, k) && e == UnknownOperator(ops[k])
    ensures var n := if |ops| < |vals| then |ops| else |vals|;
      !forall i :: 0 <= i < n ==> ParseOp(ops[i]).Some?
  {
    var k :| FirstBadOperator(ops[1..], vals[1..], k) && e == UnknownOperator(ops[1..][k]);
    assert ops[k + 1] == ops[1..][k];
    forall j | 0 <= j < k + 1
      ensures ParseOp(ops[j]).Some?
    {
      if j > 0 {
        assert ops[j] == ops[1..][j - 1];
      }
    }
    assert FirstBadOperator(ops, vals, k + 1);
  }

  lemma ComparedOkCons(ops: seq<string>, vals: seq<int>, op: Op, ps: seq<Pred>)
    requires |ops| > 0 && |vals| > 0 && ParseOp(ops[0]) == Some(op)
    requires var m := if |ops| - 1 < |vals| - 1 then |ops| - 1 else |vals| - 1;
      |ps| == m && forall i :: 0 <= i < m ==> ParseOp(ops[1..][i]).Some? && ps[i] == Compare(ParseOp(ops[1..][i]).value, vals[1..][i])
    ensures var n := if |ops| < |vals| then |ops| else |vals|;
      forall i :: 0 <= i < n ==> ParseOp(ops[i]).Some? && ([Compare(op, vals[0])] + ps)[i] == Compare(ParseOp(ops[i]).value, vals[i])
  {
    var n := if |ops| < |vals| then |ops| else |vals|;
    forall i | 0 <= i < n
      ensures ParseOp(ops[i]).Some? && ([Compare(op, vals[0])] + ps)[i] == Compare(ParseOp(ops[i]).value, vals[i])
    {
      if i > 0 {
        assert ops[i] == ops[1..][i - 1] && vals[i] == vals[1..][i - 1];
      }
    }
  }

  /** The operator sub-tokens: the whole string stripped and lower-cased, then split on
      `+`. The sub-tokens themselves are not stripped. */
  function OperatorTokens(operatorString: string): (tokens: seq<string>)
    ensures |tokens| >= 1 && Join(tokens, "+") == Lower(Strip(operatorString))
    ensures forall i :: 0 <= i < |tokens| ==> '+' !in tokens[i]
  {
    Split(Lower(Strip(operatorString)), '+')
  }

  /** The threshold sub-tokens, prepared the same way (float() then strips each one).
      The program prepares the threshold string on its own lines, after the operator
      string (replacePixelValue.py:35-36), so it has its own function here. */
  function ValueTokens(valueString: string): (tokens: seq<string>)
    ensures |tokens| >= 1 && Join(tokens, "+") == Lower(Strip(valueString))
    ensures forall i :: 0 <= i < |tokens| ==> '+' !in tokens[i]
  {
    Split(Lower(Strip(valueString)), '+')
  }

  /** getFunction(operator_string, value_string). A failure is the first threshold that
      does not parse or, when all do, the first paired operator that is not understood. */
  function GetFunction(operatorString: string, valueString: string): (r: Result<Pred>)
    ensures var vs, ops := ValueTokens(valueString), OperatorTokens(operatorString);
      r.Err? ==>
        (exists k :: FirstBadNumber(vs, k) && r.error == BadNumber(vs[k])) ||
        (ParseNumbers(vs).Ok? &&
         exists k :: FirstBadOperator(ops, ParseNumbers(vs).value, k) && r.error == UnknownOperator(ops[k]))
  {
    var vals :- ParseNumbers(ValueTokens(valueString));
    var fs :- Comparisons(OperatorTokens(operatorString), vals);
    Ok(Combine(fs))
  }

  /** The number of (operator, value) pairs `zip` forms: at least one, since `split`
      always yields at least one sub-token. */
  function PairCount(operatorString: string, valueString: string): (n: nat)
    ensures 1 <= n
    ensures n <= |OperatorTokens(operatorString)| && n <= |ValueTokens(valueString)|
  {
    var ops, vs := OperatorTokens(operatorString), ValueTokens(valueString);
    if |ops| < |vs| then |ops| else |vs|
  }

  /** A compile succeeds exactly when every value sub-token parses and every operator
      sub-token paired with a value is recognised; unpaired operators are never checked. */
  lemma GetFunctionSucceeds(operatorString: string, valueString: string)
    ensures GetFunction(operatorString, valueString).Ok? <==>
      (forall i :: 0 <= i < |ValueTokens(valueString)| ==> ParseInt(ValueTokens(valueString)[i]).Some?) &&
      (forall i :: 0 <= i < PairCount(operatorString, valueString) ==>
         ParseOp(OperatorTokens(operatorString)[i]).Some?)
  {
    var pv := ParseNumbers(ValueTokens(valueString));
    if pv.Ok? {
      var cs := Comparisons(OperatorTokens(operatorString), pv.value);
    }
  }

  /** Every value sub-token is parsed before any operator is looked at: a bad value fails
      the compile with that value's error, whatever the operators are. */
  lemma GetFunctionValueErrorFirst(operatorString: string, valueString: string, k: nat)
    requires FirstBadNumber(ValueTokens(valueString), k)
    ensures GetFunction(operatorString, valueString) == Err(BadNumber(ValueTokens(valueString)[k]))
  {
    var vs := ValueTokens(valueString);
    var pv := ParseNumbers(vs);
    var k' :| FirstBadNumber(vs, k') && pv.error == BadNumber(vs[k']);
    FirstBadNumberUnique(vs, k, k');
  }

  lemma FirstBadNumberUnique(tokens: seq<string>, k: int, k': int)
    requires FirstBadNumber(tokens, k) && FirstBadNumber(tokens, k')
    ensures k == k'
  {
  }

  /** The compiled predicate holds at a pixel exactly when every paired comparison does:
      the AND of `operator_i(pixel, value_i)` over the pairs `zip` forms. */
  lemma GetFunctionEval(operatorString: string, valueString: string, x: int)
    requires GetFunction(operatorString, valueString).Ok?
    ensures Eval(GetFunction(operatorString, valueString).value, x) <==>
      forall i :: 0 <= i < PairCount(operatorString, valueString) ==>
        Holds(ParseOp(OperatorTokens(operatorString)[i]).value, x,
              ParseInt(ValueTokens(valueString)[i]).value)
  {
    var ops, vs := OperatorTokens(operatorString), ValueTokens(valueString);
    var vals := ParseNumbers(vs).value;
    var fs := Comparisons(ops, vals).value;
    var n := PairCount(operatorString, valueString);
    assert |fs| == n;
    assert GetFunction(operatorString, valueString) == Ok(Combine(fs));
    forall i | 0 <= i < n
      ensures Eval(fs[i], x) == Holds(ParseOp(ops[i]).value, x, ParseInt(vs[i]).value)
    {
      assert fs[i] == Compare(ParseOp(ops[i]).value, vals[i]);
    }
  }
}
