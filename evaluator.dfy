/**
 * The rule logic evaluator: `compare`, the two leaf evaluators and
 * `eval_node` with Python's short-circuiting `all`/`any`.
 * Source: backend/rules_engine/engine.py, lines 33-113.
 */
module Evaluator {
  import opened Wrappers
  import opened Dsl
  import opened Features

  /** The `TypeError` Python raises for an unguarded comparison. */
  datatype TypeError = TypeError(op: string)

  predicate IsOrdering(op: string) {
    op == "<" || op == "<=" || op == ">" || op == ">="
  }

  function Order(op: string, x: real, y: real): bool
    requires IsOrdering(op)
  {
    if op == "<" then x < y
    else if op == "<=" then x <= y
    else if op == ">" then x > y
    else x >= y
  }

  /**
   * `compare(op, left, right)`. An absent left operand is false for every
   * operator. An ordering against anything but a number raises, and so does
   * `between` against a bare number (its `len` raises); `in` swallows its error.
   */
  function Compare(op: string, left: Option<real>, right: Operand): Result<bool, TypeError>
  {
    if left.None? then Ok(false)
    else
      var x := left.value;
      if IsOrdering(op) then
        (if right.Num? then Ok(Order(op, x, right.x)) else Err(TypeError(op)))
      else if op == "==" then Ok(right.Num? && right.x == x)
      else if op == "between" then
        match right
        case Null => Ok(false)
        case Num(_) => Err(TypeError(op))
        case Items(items) =>
          if |items| != 2 then Ok(false)
          else if items[0].None? || items[1].None? then Ok(false)
          else Ok(items[0].value <= x <= items[1].value)
      else if op == "in" then Ok(right.Items? && Some(x) in right.items)
      else Ok(false)
  }

  /** One entry of the explanation trace (`why`). */
  datatype TraceEntry =
    | NumericEntry(variable: string, agg: string, op: string, threshold: Operand,
                   observed: Option<real>, result: bool)
    | RelativeEntry(leftVar: string, leftAgg: string, leftObserved: Option<real>, op: string,
                    rightVar: string, rightAgg: string, scale: Option<real>,
                    rightObserved: Option<real>, result: bool)

  /** The boolean a node yields (or the error it raises) and the trace entries it appends. */
  datatype Evaluation = Evaluation(outcome: Result<bool, TypeError>, trace: seq<TraceEntry>)

  /** A present observation as the right operand of a comparison. */
  function AsOperand(v: Option<real>): Operand {
    if v.Some? then Num(v.value) else Null
  }

  /** `eval_numeric_leaf`. */
  function EvalNumericLeaf(variable: string, agg: string, op: string, value: Operand, required: bool,
                           f: FeatureSet): Evaluation
  {
    var observed := Lookup(f, variable, agg);
    var c := Compare(op, observed, value);
    if c.Err? then Evaluation(Err(c.error), [])
    else
      var entry := NumericEntry(variable, agg, op, value, observed, c.value);
      if observed.None? && required then Evaluation(Ok(false), [entry])
      else Evaluation(Ok(c.value), [entry])
  }

  /** The right operand of a relative leaf: scaled only when present and a scale is given. */
  function ScaledRight(right: VarRef, f: FeatureSet): Option<real> {
    var observed := Lookup(f, right.variable, right.agg);
    if observed.Some? && right.scale.Some? then Some(observed.value * right.scale.value) else observed
  }

  /** `eval_relative_leaf`. */
  function EvalRelativeLeaf(left: VarRef, op: string, right: VarRef, required: bool, f: FeatureSet): Evaluation
  {
    var l := Lookup(f, left.variable, left.agg);
    var r := ScaledRight(right, f);
    var c := Compare(op, l, AsOperand(r));
    if c.Err? then Evaluation(Err(c.error), [])
    else
      var entry := RelativeEntry(left.variable, left.agg, l, op, right.variable, right.agg, right.scale, r, c.value);
      if (l.None? || r.None?) && required then Evaluation(Ok(false), [entry])
      else Evaluation(Ok(c.value), [entry])
  }

  /** `eval_node`: groups evaluate their children left to right and stop early. */
  function EvalNode(n: Node, f: FeatureSet): Evaluation
    decreases n, 1
  {
    match n
    case NumericLeaf(variable, agg, op, value, required) => EvalNumericLeaf(variable, agg, op, value, required, f)
    case RelativeLeaf(left, op, right, required) => EvalRelativeLeaf(left, op, right, required, f)
    case GroupAll(cs) => EvalAll(cs, f)
    case GroupAny(cs) => EvalAny(cs, f)
    case GroupNone(cs) =>
      var e := EvalAny(cs, f);
      Evaluation(if e.outcome.Ok? then Ok(!e.outcome.value) else e.outcome, e.trace)
  }

  /** Python's `all(...)` over a generator: stops at the first false child. */
  function EvalAll(cs: seq<Node>, f: FeatureSet): Evaluation
    decreases cs, 0
  {
    if cs == [] then Evaluation(Ok(true), [])
    else
      var h := EvalNode(cs[0], f);
      if h.outcome != Ok(true) then h
      else
        var t := EvalAll(cs[1..], f);
        Evaluation(t.outcome, h.trace + t.trace)
  }

  /** Python's `any(...)` over a generator: stops at the first true child. */
  function EvalAny(cs: seq<Node>, f: FeatureSet): Evaluation
    decreases cs, 0
  {
    if cs == [] then Evaluation(Ok(false), [])
    else
      var h := EvalNode(cs[0], f);
      if h.outcome != Ok(false) then h
      else
        var t := EvalAny(cs[1..], f);
        Evaluation(t.outcome, h.trace + t.trace)
  }

  // ---------------------------------------------------------------------------
  // Properties of compare

  /** An absent left operand makes every comparison false, whatever the operator and right operand. */
  lemma AbsentLeftIsFalse(op: string, right: Operand)
    ensures Compare(op, None, right) == Ok(false)
  {
  }

  /**
   * `between` is inclusive on both ends, and false for a missing, mis-sized
   * or half-open bound list; against a bare number `len` raises.
   */
  lemma BetweenSemantics(x: real, right: Operand)
    ensures right.Num? ==> Compare("between", Some(x), right) == Err(TypeError("between"))
    ensures !right.Num? ==>
              Compare("between", Some(x), right) ==
                Ok(right.Items? && |right.items| == 2 && right.items[0].Some? && right.items[1].Some?
                   && right.items[0].value <= x <= right.items[1].value)
  {
  }

  /** `in` never raises; an operator outside the seven yields false. */
  lemma MembershipAndUnknownOperators(op: string, left: Option<real>, right: Operand)
    ensures Compare("in", left, right) == Ok(left.Some? && right.Items? && left in right.items)
    ensures op !in ComparisonOps ==> Compare(op, left, right) == Ok(false)
  {
  }

  /** A present left operand against an absent right one raises under the four orderings. */
  lemma OrderingAgainstAbsentRaises(op: string, x: real)
    requires IsOrdering(op)
    ensures Compare(op, Some(x), Null).Err?
  {
  }

  // ---------------------------------------------------------------------------
  // Properties of the leaf evaluators

  /**
   * A relative `between` leaf compares against a single number, never a
   * bound list: it is false without raising when either side is missing,
   * and raises when both are present.
   */
  lemma RelativeBetweenRaises(left: VarRef, right: VarRef, required: bool, f: FeatureSet)
    ensures var e := EvalRelativeLeaf(left, "between", right, required, f);
            var l := Lookup(f, left.variable, left.agg);
            var r := ScaledRight(right, f);
            && (l.Some? && r.Some? ==> e == Evaluation(Err(TypeError("between")), []))
            && (l.None? || r.None? ==> e.outcome == Ok(false))
  {
  }

  /**
   * A numeric leaf returns exactly the outcome of `compare` (the `required`
   * flag never changes it) and appends exactly one entry recording it;
   * when `compare` raises nothing is appended.
   */
  lemma NumericLeafOutcome(variable: string, agg: string, op: string, value: Operand, required: bool, f: FeatureSet)
    ensures var e := EvalNumericLeaf(variable, agg, op, value, required, f);
      var c := Compare(op, Lookup(f, variable, agg), value);
      && e.outcome == c
      && (c.Ok? ==> e.trace == [NumericEntry(variable, agg, op, value, Lookup(f, variable, agg), c.value)])
      && (c.Err? ==> e.trace == [])
  {
  }

  /**
   * A relative leaf returns exactly the outcome of `compare` on the unscaled
   * left value and the (possibly scaled) right value, with one trace entry.
   */
  lemma RelativeLeafOutcome(left: VarRef, op: string, right: VarRef, required: bool, f: FeatureSet)
    ensures var e := EvalRelativeLeaf(left, op, right, required, f);
      var l := Lookup(f, left.variable, left.agg);
      var r := ScaledRight(right, f);
      var c := Compare(op, l, AsOperand(r));
      && e.outcome == c
      && (c.Ok? ==> |e.trace| == 1 && e.trace[0].leftObserved == l && e.trace[0].rightObserved == r
                    && e.trace[0].result == c.value)
      && (c.Err? ==> e.trace == [])
  {
    var l := Lookup(f, left.variable, left.agg);
    var r := ScaledRight(right, f);
    var c := Compare(op, l, AsOperand(r));
    if c.Ok? && (l.None? || r.None?) {
      assert c.value == false;
    }
  }

  /** The scale multiplies the right operand only when both it and the observation are present. */
  lemma ScaleAppliesToPresentRight(right: VarRef, f: FeatureSet)
    ensures var o := Lookup(f, right.variable, right.agg);
      && (o.None? ==> ScaledRight(right, f).None?)
      && (right.scale.None? ==> ScaledRight(right, f) == o)
      && (o.Some? && right.scale.Some? ==>
            ScaledRight(right, f).Some? && ScaledRight(right, f).value == o.value * right.scale.value)
  {
  }

  // ---------------------------------------------------------------------------
  // Short-circuiting groups

  /** The trace entries of a list of children, each evaluated in full, in order. */
  function Traces(cs: seq<Node>, f: FeatureSet): seq<TraceEntry> {
    if cs == [] then [] else EvalNode(cs[0], f).trace + Traces(cs[1..], f)
  }

  /** Vacuous groups: `all([])` is true, `any([])` false, `none([])` true, with empty traces. */
  lemma EmptyGroups(f: FeatureSet)
    ensures EvalNode(GroupAll([]), f) == Evaluation(Ok(true), [])
    ensures EvalNode(GroupAny([]), f) == Evaluation(Ok(false), [])
    ensures EvalNode(GroupNone([]), f) == Evaluation(Ok(true), [])
  {
  }

  /**
   * `all` visits children up to and including the first one whose outcome is
   * not true: its outcome is that child's, its trace the visited children's.
   */
  lemma {:induction false} AllStopsAtFirstNonTrue(cs: seq<Node>, f: FeatureSet, k: nat)
    requires k <= |cs|
    requires forall i :: 0 <= i < k ==> EvalNode(cs[i], f).outcome == Ok(true)
    requires k < |cs| ==> EvalNode(cs[k], f).outcome != Ok(true)
    ensures k == |cs| ==> EvalAll(cs, f) == Evaluation(Ok(true), Traces(cs, f))
    ensures k < |cs| ==> EvalAll(cs, f) == Evaluation(EvalNode(cs[k], f).outcome, Traces(cs[..k + 1], f))
  {
    if cs != [] && k > 0 {
      AllStopsAtFirstNonTrue(cs[1..], f, k - 1);
      if k < |cs| { assert cs[..k + 1][1..] == cs[1..][..k]; }
    } else if cs != [] {
      assert Traces(cs[..1], f) == EvalNode(cs[0], f).trace + Traces([], f);
    }
  }

  /**
   * `any` visits children up to and including the first one whose outcome is
   * not false: its outcome is that child's, its trace the visited children's.
   */
  lemma {:induction false} AnyStopsAtFirstNonFalse(cs: seq<Node>, f: FeatureSet, k: nat)
    requires k <= |cs|
    requires forall i :: 0 <= i < k ==> EvalNode(cs[i], f).outcome == Ok(false)
    requires k < |cs| ==> EvalNode(cs[k], f).outcome != Ok(false)
    ensures k == |cs| ==> EvalAny(cs, f) == Evaluation(Ok(false), Traces(cs, f))
    ensures k < |cs| ==> EvalAny(cs, f) == Evaluation(EvalNode(cs[k], f).outcome, Traces(cs[..k + 1], f))
  {
    if cs != [] && k > 0 {
      AnyStopsAtFirstNonFalse(cs[1..], f, k - 1);
      if k < |cs| { assert cs[..k + 1][1..] == cs[1..][..k]; }
    } else if cs != [] {
      assert Traces(cs[..1], f) == EvalNode(cs[0], f).trace + Traces([], f);
    }
  }

  /** Every list of children has a first child that stops the scan, or none does. */
  lemma FirstStop(cs: seq<Node>, f: FeatureSet, keepGoing: Result<bool, TypeError>) returns (k: nat)
    ensures k <= |cs|
    ensures forall i :: 0 <= i < k ==> EvalNode(cs[i], f).outcome == keepGoing
    ensures k < |cs| ==> EvalNode(cs[k], f).outcome != keepGoing
  {
    k := 0;
    while k < |cs| && EvalNode(cs[k], f).outcome == keepGoing
      invariant k <= |cs|
      invariant forall i :: 0 <= i < k ==> EvalNode(cs[i], f).outcome == keepGoing
    {
      k := k + 1;
    }
  }

  /** `all` is true exactly when every child is true (no child raising). */
  lemma AllIsConjunction(cs: seq<Node>, f: FeatureSet)
    ensures EvalNode(GroupAll(cs), f).outcome == Ok(true)
        <==> forall i :: 0 <= i < |cs| ==> EvalNode(cs[i], f).outcome == Ok(true)
  {
    var k := FirstStop(cs, f, Ok(true));
    AllStopsAtFirstNonTrue(cs, f, k);
  }

  /** `any` is false exactly when every child is false; `none` is true exactly then. */
  lemma AnyIsDisjunction(cs: seq<Node>, f: FeatureSet)
    ensures EvalNode(GroupAny(cs), f).outcome == Ok(false)
        <==> forall i :: 0 <= i < |cs| ==> EvalNode(cs[i], f).outcome == Ok(false)
    ensures EvalNode(GroupNone(cs), f).outcome == Ok(true)
        <==> forall i :: 0 <= i < |cs| ==> EvalNode(cs[i], f).outcome == Ok(false)
  {
    var k := FirstStop(cs, f, Ok(false));
    AnyStopsAtFirstNonFalse(cs, f, k);
  }

  /**
   * Short-circuit on a concrete pair: in `all([a, b])` with `a` false, `b`
   * is never evaluated and the trace holds `a`'s entries only.
   */
  lemma AllFalseFirstSkipsSecond(a: Node, b: Node, f: FeatureSet)
    requires EvalNode(a, f).outcome == Ok(false)
    ensures EvalNode(GroupAll([a, b]), f) == Evaluation(Ok(false), EvalNode(a, f).trace)
  {
    AllStopsAtFirstNonTrue([a, b], f, 0);
    assert [a, b][..1] == [a];
    assert Traces([a], f) == EvalNode(a, f).trace + Traces([], f);
  }

  // ---------------------------------------------------------------------------
  // The trace never holds more entries than the tree has leaves

  function LeafCount(n: Node): nat
    decreases n, 1
  {
    match n
    case NumericLeaf(_, _, _, _, _) => 1
    case RelativeLeaf(_, _, _, _) => 1
    case GroupAll(cs) => LeafCountAll(cs)
    case GroupAny(cs) => LeafCountAll(cs)
    case GroupNone(cs) => LeafCountAll(cs)
  }

  function LeafCountAll(cs: seq<Node>): nat
    decreases cs, 0
  {
    if cs == [] then 0 else LeafCount(cs[0]) + LeafCountAll(cs[1..])
  }

  /** Each leaf appends at most one entry, and only visited leaves append. */
  lemma {:induction false} TraceBoundedByLeaves(n: Node, f: FeatureSet)
    ensures |EvalNode(n, f).trace| <= LeafCount(n)
    decreases n, 1
  {
    match n
    case NumericLeaf(_, _, _, _, _) =>
    case RelativeLeaf(_, _, _, _) =>
    case GroupAll(cs) => AllTraceBounded(cs, f);
    case GroupAny(cs) => AnyTraceBounded(cs, f);
    case GroupNone(cs) => AnyTraceBounded(cs, f);
  }

  lemma {:induction false} AllTraceBounded(cs: seq<Node>, f: FeatureSet)
    ensures |EvalAll(cs, f).trace| <= LeafCountAll(cs)
    decreases cs, 0
  {
    if cs != [] {
      TraceBoundedByLeaves(cs[0], f);
      AllTraceBounded(cs[1..], f);
    }
  }

  lemma {:induction false} AnyTraceBounded(cs: seq<Node>, f: FeatureSet)
    ensures |EvalAny(cs, f).trace| <= LeafCountAll(cs)
    decreases cs, 0
  {
    if cs != [] {
      TraceBoundedByLeaves(cs[0], f);
      AnyTraceBounded(cs[1..], f);
    }
  }
}
