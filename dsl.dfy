/**
 * The rule DSL: the logic tree a rule carries, its wire shape, and the
 * validation that turns a wire tree and a stored rule into a rule model.
 * Source: backend/rules_engine/dsl.py and the aggregator list of
 * backend/rules_engine/registry.py.
 */
module Dsl {
  import opened Wrappers

  /** The seven aggregator names a variable reference may use. */
  const AllowedAggregators: seq<string> :=
    ["current", "mean_3d", "mean_7d", "mean_14d", "median_14d", "delta_pct_3v14", "zscore_28d"]

  /** The seven comparison operators (`ComparisonOp`). */
  const ComparisonOps: seq<string> := ["<", "<=", ">", ">=", "==", "between", "in"]

  /**
   * A threshold as the wire format carries it: JSON `null`, a number, or a
   * list/tuple whose elements are numbers or `null`.
   */
  datatype Operand = Null | Num(x: real) | Items(items: seq<Option<real>>)

  /** A reference to `features[variable][agg]`, optionally scaled. */
  datatype VarRef = VarRef(variable: string, agg: string, scale: Option<real>)

  /** The logic tree: exactly five variants. */
  datatype Node =
    | GroupAll(all: seq<Node>)
    | GroupAny(any: seq<Node>)
    | GroupNone(none: seq<Node>)
    | NumericLeaf(variable: string, agg: string, op: string, value: Operand, required: bool)
    | RelativeLeaf(left: VarRef, op: string, right: VarRef, required: bool)

  /** A variable reference on the wire: `agg` and `scale` may be omitted. */
  datatype RawVarRef = RawVarRef(variable: string, agg: Option<string>, scale: Option<real>)

  /**
   * A logic tree on the wire. An object keyed by a group name, an object with
   * `var`/`op`/`value`, an object with `left`/`op`/`right`, or anything else.
   * Omitted optional fields are `None`.
   */
  datatype RawNode =
    | RawGroup(key: string, children: seq<RawNode>)
    | RawNumeric(variable: string, agg: Option<string>, op: string, value: Option<Operand>, required: Option<bool>)
    | RawRelative(left: RawVarRef, op: string, right: RawVarRef, required: Option<bool>)
    | RawOther

  datatype ParseError =
    | UnknownAggregator(agg: string)
    | UnknownOperator(op: string)
    | MissingValue
    | BetweenNeedsPair
    | UnknownShape
    | OutOfRange(field: string)

  predicate IsPair(v: Operand) {
    v.Items? && |v.items| == 2
  }

  /** `VarRef` validation: the aggregator defaults to `current` and must be allowed. */
  function ParseVarRef(raw: RawVarRef): (r: Result<VarRef, ParseError>)
    ensures r.Ok? <==> raw.agg.GetOr("current") in AllowedAggregators
    ensures r.Ok? ==> r.value == VarRef(raw.variable, raw.agg.GetOr("current"), raw.scale)
    ensures r.Err? ==> r.error == UnknownAggregator(raw.agg.GetOr("current"))
  {
    var agg := raw.agg.GetOr("current");
    if agg !in AllowedAggregators then Err(UnknownAggregator(agg))
    else Ok(VarRef(raw.variable, agg, raw.scale))
  }

  /** `NumericLeaf` validation: operator, required value, aggregator, then the `between` shape. */
  function ParseNumeric(variable: string, agg: Option<string>, op: string, value: Option<Operand>, required: Option<bool>)
    : (r: Result<Node, ParseError>)
    ensures r.Ok? <==>
      op in ComparisonOps && value.Some? && agg.GetOr("current") in AllowedAggregators
      && (op == "between" ==> IsPair(value.value))
    ensures r.Ok? ==> r.value == NumericLeaf(variable, agg.GetOr("current"), op, value.value, required.GetOr(false))
  {
    var a := agg.GetOr("current");
    if op !in ComparisonOps then Err(UnknownOperator(op))
    else if value.None? then Err(MissingValue)
    else if a !in AllowedAggregators then Err(UnknownAggregator(a))
    else if op == "between" && !IsPair(value.value) then Err(BetweenNeedsPair)
    else Ok(NumericLeaf(variable, a, op, value.value, required.GetOr(false)))
  }

  /** `RelativeLeaf` validation: both references and the operator; no `between` shape check. */
  function ParseRelative(left: RawVarRef, op: string, right: RawVarRef, required: Option<bool>)
    : (r: Result<Node, ParseError>)
    ensures r.Ok? <==>
      left.agg.GetOr("current") in AllowedAggregators && op in ComparisonOps
      && right.agg.GetOr("current") in AllowedAggregators
    ensures r.Ok? ==>
      r.value == RelativeLeaf(VarRef(left.variable, left.agg.GetOr("current"), left.scale), op,
                              VarRef(right.variable, right.agg.GetOr("current"), right.scale),
                              required.GetOr(false))
  {
    var l := ParseVarRef(left);
    if l.Err? then Err(l.error)
    else if op !in ComparisonOps then Err(UnknownOperator(op))
    else
      var rr := ParseVarRef(right);
      if rr.Err? then Err(rr.error)
      else Ok(RelativeLeaf(l.value, op, rr.value, required.GetOr(false)))
  }

  /** Parsing of the `Node` union from its wire shape. */
  function ParseNode(raw: RawNode): (r: Result<Node, ParseError>)
    decreases raw, 1
  {
    match raw
    case RawGroup(key, children) =>
      if key != "all" && key != "any" && key != "none" then Err(UnknownShape)
      else
        var cs := ParseChildren(children);
        if cs.Err? then Err(cs.error)
        else if key == "all" then Ok(GroupAll(cs.value))
        else if key == "any" then Ok(GroupAny(cs.value))
        else Ok(GroupNone(cs.value))
    case RawNumeric(variable, agg, op, value, required) => ParseNumeric(variable, agg, op, value, required)
    case RawRelative(left, op, right, required) => ParseRelative(left, op, right, required)
    case RawOther => Err(UnknownShape)
  }

  /** The children of a group, parsed in order; the first child that fails fails the group. */
  function ParseChildren(raws: seq<RawNode>): (r: Result<seq<Node>, ParseError>)
    ensures r.Ok? ==> |r.value| == |raws|
    decreases raws, 0
  {
    if raws == [] then Ok([])
    else
      var h := ParseNode(raws[0]);
      if h.Err? then Err(h.error)
      else
        var t := ParseChildren(raws[1..]);
        if t.Err? then Err(t.error) else Ok([h.value] + t.value)
  }

  /** A group's children are accepted exactly when each child is, and child i parses to node i. */
  lemma {:induction false} ParseChildrenEach(raws: seq<RawNode>)
    ensures ParseChildren(raws).Ok? <==> forall i :: 0 <= i < |raws| ==> ParseNode(raws[i]).Ok?
    ensures ParseChildren(raws).Ok? ==>
              forall i :: 0 <= i < |raws| ==> ParseChildren(raws).value[i] == ParseNode(raws[i]).value
  {
    if raws != [] {
      ParseChildrenEach(raws[1..]);
      assert forall i :: 1 <= i < |raws| ==> raws[i] == raws[1..][i - 1];
    }
  }

  predicate WellFormedRef(v: VarRef) {
    v.agg in AllowedAggregators
  }

  /** What validation guarantees about every node of a parsed tree. */
  predicate WellFormed(n: Node) {
    match n
    case GroupAll(cs) => forall i :: 0 <= i < |cs| ==> WellFormed(cs[i])
    case GroupAny(cs) => forall i :: 0 <= i < |cs| ==> WellFormed(cs[i])
    case GroupNone(cs) => forall i :: 0 <= i < |cs| ==> WellFormed(cs[i])
    case NumericLeaf(_, agg, op, value, _) =>
      agg in AllowedAggregators && op in ComparisonOps && (op == "between" ==> IsPair(value))
    case RelativeLeaf(left, op, right, _) =>
      WellFormedRef(left) && op in ComparisonOps && WellFormedRef(right)
  }

  /** The wire shape that writes every field of a node out explicitly. */
  function Unparse(n: Node): (r: RawNode)
    decreases n, 1
  {
    match n
    case GroupAll(cs) => RawGroup("all", UnparseAll(cs))
    case GroupAny(cs) => RawGroup("any", UnparseAll(cs))
    case GroupNone(cs) => RawGroup("none", UnparseAll(cs))
    case NumericLeaf(variable, agg, op, value, required) => RawNumeric(variable, Some(agg), op, Some(value), Some(required))
    case RelativeLeaf(left, op, right, required) =>
      RawRelative(RawVarRef(left.variable, Some(left.agg), left.scale), op,
                  RawVarRef(right.variable, Some(right.agg), right.scale), Some(required))
  }

  function UnparseAll(ns: seq<Node>): (r: seq<RawNode>)
    ensures |r| == |ns|
    decreases ns, 0
  {
    if ns == [] then [] else [Unparse(ns[0])] + UnparseAll(ns[1..])
  }

  /** Whatever parses is well formed. */
  lemma {:induction false} ParsedIsWellFormed(raw: RawNode)
    requires ParseNode(raw).Ok?
    ensures WellFormed(ParseNode(raw).value)
    decreases raw, 1
  {
    match raw
    case RawGroup(key, children) => ParsedChildrenAreWellFormed(children);
    case RawNumeric(_, _, _, _, _) =>
    case RawRelative(_, _, _, _) =>
  }

  lemma {:induction false} ParsedChildrenAreWellFormed(raws: seq<RawNode>)
    requires ParseChildren(raws).Ok?
    ensures forall i :: 0 <= i < |raws| ==> WellFormed(ParseChildren(raws).value[i])
    decreases raws, 0
  {
    if raws != [] {
      ParsedIsWellFormed(raws[0]);
      ParsedChildrenAreWellFormed(raws[1..]);
      var r := ParseChildren(raws).value;
      assert r == [ParseNode(raws[0]).value] + ParseChildren(raws[1..]).value;
      forall i | 0 <= i < |raws| ensures WellFormed(r[i]) {
        if i > 0 { assert r[i] == ParseChildren(raws[1..]).value[i - 1]; }
      }
    }
  }

  /** Every well-formed tree round-trips through its explicit wire shape. */
  lemma {:induction false} ParseUnparse(n: Node)
    requires WellFormed(n)
    ensures ParseNode(Unparse(n)) == Ok(n)
    decreases n, 1
  {
    match n
    case GroupAll(cs) => ParseUnparseAll(cs);
    case GroupAny(cs) => ParseUnparseAll(cs);
    case GroupNone(cs) => ParseUnparseAll(cs);
    case NumericLeaf(_, _, _, _, _) =>
    case RelativeLeaf(_, _, _, _) =>
  }

  lemma {:induction false} ParseUnparseAll(ns: seq<Node>)
    requires forall i :: 0 <= i < |ns| ==> WellFormed(ns[i])
    ensures ParseChildren(UnparseAll(ns)) == Ok(ns)
    decreases ns, 0
  {
    if ns != [] {
      ParseUnparse(ns[0]);
      ParseUnparseAll(ns[1..]);
      assert UnparseAll(ns)[1..] == UnparseAll(ns[1..]);
      assert [ns[0]] + ns[1..] == ns;
    }
  }

  /** Omitted leaf fields take their defaults: `agg` is `current`, `required` is false. */
  lemma LeafDefaults(variable: string, op: string, value: Operand)
    requires op in ComparisonOps && (op == "between" ==> IsPair(value))
    ensures ParseNode(RawNumeric(variable, None, op, Some(value), None))
         == Ok(NumericLeaf(variable, "current", op, value, false))
  {
  }

  // ---------------------------------------------------------------------------
  // Message candidates and rule models

  /** A message variant: optional id, template text and an integer weight. */
  datatype MessageCandidate = MessageCandidate(id: Option<string>, text: string, weight: int)

  datatype RawCandidate = RawCandidate(id: Option<string>, text: string, weight: Option<int>)

  /** `MessageCandidate`: the weight defaults to 1, the id stays optional. */
  function ParseCandidate(raw: RawCandidate): (c: MessageCandidate)
    ensures c.id == raw.id && c.text == raw.text
    ensures raw.weight.None? ==> c.weight == 1
    ensures raw.weight.Some? ==> c.weight == raw.weight.value
  {
    MessageCandidate(raw.id, raw.text, raw.weight.GetOr(1))
  }

  /** A validated rule. */
  datatype RuleModel = RuleModel(
    id: string,
    tenantId: string,
    category: string,
    priority: int,
    severity: int,
    cooldownDays: int,
    maxPerDay: int,
    logic: Node,
    locale: string,
    candidates: seq<MessageCandidate>)

  /** A rule as handed to `RuleModel(...)`; omitted fields are `None`. */
  datatype RawRule = RawRule(
    id: string,
    tenantId: Option<string>,
    category: string,
    priority: Option<int>,
    severity: Option<int>,
    cooldownDays: Option<int>,
    maxPerDay: Option<int>,
    logic: RawNode,
    locale: Option<string>,
    candidates: seq<RawCandidate>)

  predicate InRanges(priority: int, severity: int, cooldownDays: int, maxPerDay: int) {
    && 0 <= priority <= 100
    && 1 <= severity <= 3
    && 0 <= cooldownDays <= 30
    && 0 <= maxPerDay <= 10
  }

  function ParseCandidates(raws: seq<RawCandidate>): (cs: seq<MessageCandidate>)
    ensures |cs| == |raws|
    ensures forall i :: 0 <= i < |raws| ==> cs[i] == ParseCandidate(raws[i])
  {
    if raws == [] then [] else [ParseCandidate(raws[0])] + ParseCandidates(raws[1..])
  }

  /** `RuleModel` validation: field defaults, numeric ranges, then the logic tree. */
  function ParseRule(raw: RawRule): (r: Result<RuleModel, ParseError>)
  {
    var priority := raw.priority.GetOr(50);
    var severity := raw.severity.GetOr(1);
    var cooldown := raw.cooldownDays.GetOr(0);
    var maxPerDay := raw.maxPerDay.GetOr(0);
    if !(0 <= priority <= 100) then Err(OutOfRange("priority"))
    else if !(1 <= severity <= 3) then Err(OutOfRange("severity"))
    else if !(0 <= cooldown <= 30) then Err(OutOfRange("cooldown_days"))
    else if !(0 <= maxPerDay <= 10) then Err(OutOfRange("max_per_day"))
    else
      var logic := ParseNode(raw.logic);
      if logic.Err? then Err(logic.error)
      else Ok(RuleModel(raw.id, raw.tenantId.GetOr("default"), raw.category, priority, severity,
                        cooldown, maxPerDay, logic.value, raw.locale.GetOr("es-ES"),
                        ParseCandidates(raw.candidates)))
  }

  /** A rule is accepted exactly when its numbers are in range and its logic parses. */
  lemma ParseRuleAccepts(raw: RawRule)
    ensures ParseRule(raw).Ok? <==>
      InRanges(raw.priority.GetOr(50), raw.severity.GetOr(1), raw.cooldownDays.GetOr(0), raw.maxPerDay.GetOr(0))
      && ParseNode(raw.logic).Ok?
    ensures ParseRule(raw).Ok? ==>
      var m := ParseRule(raw).value;
      InRanges(m.priority, m.severity, m.cooldownDays, m.maxPerDay) && WellFormed(m.logic)
      && m.logic == ParseNode(raw.logic).value
  {
    if ParseRule(raw).Ok? { ParsedIsWellFormed(raw.logic); }
  }
}
