/**
 * Message variants: the weighted random choice among candidates and the
 * `{{var[:agg][:fmt]}}` placeholder substitution.
 * Source: backend/rules_engine/messages.py.
 */
module Messages {
  import opened Wrappers
  import opened Text
  import opened Features

  /** An active message offered to the draw, as `select_message_for_rule` builds it. */
  datatype Candidate = Candidate(id: int, text: string, weight: int)

  // ---------------------------------------------------------------------------
  // Weighted choice

  function Total(ws: seq<nat>): nat {
    if ws == [] then 0 else ws[0] + Total(ws[1..])
  }

  /** The cumulative weight of the first k entries. */
  function Prefix(ws: seq<nat>, k: nat): nat
    requires k <= |ws|
  {
    Total(ws[..k])
  }

  /** `max(0, int(weight))` for each candidate. */
  function Floored(cands: seq<Candidate>): (ws: seq<nat>)
    ensures |ws| == |cands|
    ensures forall i :: 0 <= i < |cands| ==> ws[i] == if cands[i].weight > 0 then cands[i].weight else 0
  {
    if cands == [] then []
    else [if cands[0].weight > 0 then cands[0].weight else 0] + Floored(cands[1..])
  }

  lemma {:induction false} TotalZero(ws: seq<nat>)
    ensures Total(ws) == 0 <==> forall i :: 0 <= i < |ws| ==> ws[i] == 0
  {
    if ws != [] {
      TotalZero(ws[1..]);
      assert forall i :: 1 <= i < |ws| ==> ws[i] == ws[1..][i - 1];
    }
  }

  /** The weights handed to the draw: the floored weights, or all 1 when they sum to nothing. */
  function EffectiveWeights(cands: seq<Candidate>): (ws: seq<nat>)
    ensures |ws| == |cands|
    ensures cands != [] ==> Total(ws) > 0
    ensures Total(Floored(cands)) > 0 ==> ws == Floored(cands)
    ensures Total(Floored(cands)) == 0 ==> forall i :: 0 <= i < |ws| ==> ws[i] == 1
  {
    var floored := Floored(cands);
    if Total(floored) > 0 then floored
    else
      var ones := seq(|cands|, _ => 1);
      assert cands != [] ==> Total(ones) > 0 by {
        if cands != [] {
          TotalZero(ones);
          assert ones[0] != 0;
        }
      }
      ones
  }

  /**
   * The index `bisect_right(cum_weights, t)`: the first entry whose
   * cumulative weight exceeds the ticket t.
   */
  function Pick(ws: seq<nat>, t: nat): (i: nat)
    requires t < Total(ws)
    ensures i < |ws|
  {
    if t < ws[0] then 0 else 1 + Pick(ws[1..], t - ws[0])
  }

  lemma {:induction false} PrefixStep(ws: seq<nat>, k: nat)
    requires 0 < k <= |ws|
    ensures Prefix(ws, k) == ws[0] + Prefix(ws[1..], k - 1)
  {
    assert ws[..k][1..] == ws[1..][..k - 1];
  }

  /**
   * Ticket t selects entry i exactly when it falls in i's slice
   * [Prefix(i), Prefix(i + 1)) of the cumulative weights, so each entry is
   * selected by as many tickets as its weight and a zero weight by none.
   */
  lemma {:induction false} PickSlice(ws: seq<nat>, t: nat, i: nat)
    requires t < Total(ws) && i < |ws|
    ensures Pick(ws, t) == i <==> Prefix(ws, i) <= t < Prefix(ws, i + 1)
  {
    PrefixStep(ws, i + 1);
    if i > 0 {
      PrefixStep(ws, i);
      assert ws[..|ws|] == ws;
      if t >= ws[0] {
        PrefixStep(ws, |ws|);
        assert ws[1..][..|ws| - 1] == ws[1..];
        PickSlice(ws[1..], t - ws[0], i - 1);
      }
    } else {
      assert ws[..0] == [];
    }
  }

  /** The selected entry has a positive weight. */
  lemma PickPositive(ws: seq<nat>, t: nat)
    requires t < Total(ws)
    ensures ws[Pick(ws, t)] > 0
  {
    var i := Pick(ws, t);
    PickSlice(ws, t, i);
    PrefixStep(ws, i + 1);
    if i > 0 {
      PrefixStep(ws, i);
    }
    assert ws[..i + 1] == ws[..i] + [ws[i]];
    TotalAppend(ws[..i], ws[i]);
  }

  lemma {:induction false} TotalAppend(ws: seq<nat>, w: nat)
    ensures Total(ws + [w]) == Total(ws) + w
  {
    if ws != [] {
      TotalAppend(ws[1..], w);
      assert (ws + [w])[1..] == ws[1..] + [w];
    }
  }

  /**
   * `select_weighted_random(candidates)`: `random.choices` with the
   * effective weights. `draw` stands for `floor(random() * total)`, taken
   * modulo the total.
   */
  function SelectIndex(cands: seq<Candidate>, draw: nat): (r: Option<nat>)
    ensures r.None? <==> cands == []
    ensures r.Some? ==> r.value < |cands|
  {
    if cands == [] then None
    else
      var ws := EffectiveWeights(cands);
      Some(Pick(ws, draw % Total(ws)))
  }

  function SelectWeightedRandom(cands: seq<Candidate>, draw: nat): (r: Option<Candidate>)
    ensures r.None? <==> cands == []
    ensures r.Some? ==> r.value in cands
  {
    match SelectIndex(cands, draw)
    case None => None
    case Some(i) => Some(cands[i])
  }

  /**
   * The chosen candidate has a positive weight unless every weight was
   * floored to zero, in which case the draw was uniform.
   */
  lemma ChoiceHasWeight(cands: seq<Candidate>, draw: nat)
    requires cands != []
    ensures var i := SelectIndex(cands, draw).value;
            Total(Floored(cands)) > 0 ==> cands[i].weight > 0
  {
    var ws := EffectiveWeights(cands);
    PickPositive(ws, draw % Total(ws));
  }

  /** The draw is exactly `random.choices`: the tickets that select i are i's slice of the cumulative weights. */
  lemma ChoiceDistribution(cands: seq<Candidate>, draw: nat, i: nat)
    requires i < |cands|
    ensures var ws := EffectiveWeights(cands);
            SelectIndex(cands, draw) == Some(i)
            <==> Prefix(ws, i) <= draw % Total(ws) < Prefix(ws, i + 1)
  {
    var ws := EffectiveWeights(cands);
    PickSlice(ws, draw % Total(ws), i);
  }

  // ---------------------------------------------------------------------------
  // The placeholder grammar
  //   \{\{\s*([a-zA-Z0-9_]+)(?::([a-zA-Z0-9_]+))?(?::([^}]+))?\s*\}\}

  /** The groups of one placeholder match: the variable, the aggregator and the format. */
  datatype Placeholder = Placeholder(variable: string, agg: Option<string>, fmt: Option<string>)

  /** A match at some position, ending just before `end`. */
  datatype Found = Found(placeholder: Placeholder, end: nat)

  /** The end of the longest run from i whose characters satisfy p. */
  function RunEnd(s: string, i: nat, p: char -> bool): (j: nat)
    requires i <= |s|
    ensures i <= j <= |s|
    decreases |s| - i
  {
    if i < |s| && p(s[i]) then RunEnd(s, i + 1, p) else i
  }

  /** The run from i holds only characters satisfying p and stops at the first one that does not. */
  lemma {:induction false} RunEndSpans(s: string, i: nat, p: char -> bool)
    requires i <= |s|
    ensures var j := RunEnd(s, i, p);
            && (forall k :: i <= k < j ==> p(s[k]))
            && (j == |s| || !p(s[j]))
    decreases |s| - i
  {
    if i < |s| && p(s[i]) {
      RunEndSpans(s, i + 1, p);
    }
  }

  predicate NotBrace(c: char) {
    c != '}'
  }

  predicate ClosesAt(s: string, j: nat) {
    j + 1 < |s| && s[j] == '}' && s[j + 1] == '}'
  }

  /** The rest of a placeholder from p: the format group if it can be closed, else `\s*\}\}`. */
  datatype Rest = Rest(fmt: Option<string>, end: nat)

  /** The text a format group may hold: `[^}]+`. */
  predicate IsFormat(fmt: string) {
    fmt != [] && forall k :: 0 <= k < |fmt| ==> fmt[k] != '}'
  }

  predicate AllSpace(w: string) {
    forall k :: 0 <= k < |w| ==> IsSpace(w[k])
  }

  /**
   * `(?::([^}]+))?\s*\}\}` at p: a match ends with `}}`; before them stands
   * either `:` and the format, or whitespace only.
   */
  function MatchRest(s: string, p: nat): (r: Option<Rest>)
    requires p <= |s|
    ensures r.Some? ==> p + 2 <= r.value.end <= |s| && ClosesAt(s, r.value.end - 2)
    ensures r.Some? && r.value.fmt.Some? ==>
              s[p] == ':' && s[p + 1..r.value.end - 2] == r.value.fmt.value && IsFormat(r.value.fmt.value)
    ensures r.Some? && r.value.fmt.None? ==> AllSpace(s[p..r.value.end - 2])
  {
    var e := if p < |s| && s[p] == ':' then RunEnd(s, p + 1, NotBrace) else p;
    if p < |s| && s[p] == ':' && e > p + 1 && ClosesAt(s, e) then
      RunEndSpans(s, p + 1, NotBrace);
      Some(Rest(Some(s[p + 1..e]), e + 2))
    else
      var q := RunEnd(s, p, IsSpace);
      RunEndSpans(s, p, IsSpace);
      if ClosesAt(s, q) then Some(Rest(None, q + 2)) else None
  }

  /**
   * `PLACEHOLDER_RE.match(s, i)` with the backtracking order of `re`: the
   * aggregator group is tried first and dropped when the rest then fails,
   * which lets the format group take the text after the colon instead.
   */
  function MatchAt(s: string, i: nat): (r: Option<Found>)
    requires i <= |s|
    ensures r.Some? ==> i < r.value.end <= |s|
  {
    if !(i + 1 < |s| && s[i] == '{' && s[i + 1] == '{') then None
    else
      var p := RunEnd(s, i + 2, IsSpace);
      var q := RunEnd(s, p, IsWordChar);
      if q == p then None
      else MatchGroups(s, p, q)
  }

  /** The groups of a placeholder whose variable is `s[p..q]`: the aggregator is tried first. */
  function MatchGroups(s: string, p: nat, q: nat): (r: Option<Found>)
    requires p < q <= |s|
    ensures r.Some? ==> q + 2 <= r.value.end <= |s|
  {
    var name := s[p..q];
    match MatchAggregator(s, q)
    case Some(a) => Some(Found(Placeholder(name, Some(a.agg), a.rest.fmt), a.rest.end))
    case None =>
      match MatchRest(s, q)
      case Some(rest) => Some(Found(Placeholder(name, None, rest.fmt), rest.end))
      case None => None
  }

  /** The aggregator group and the rest of the placeholder after it. */
  datatype Aggregated = Aggregated(agg: string, rest: Rest)

  /** `:([a-zA-Z0-9_]+)` at q, kept only when the rest of the placeholder then matches. */
  function MatchAggregator(s: string, q: nat): (r: Option<Aggregated>)
    requires q <= |s|
    ensures r.Some? ==> q + 2 < r.value.rest.end <= |s|
  {
    if q < |s| && s[q] == ':' then
      var e := RunEnd(s, q + 1, IsWordChar);
      if e > q + 1 && MatchRest(s, e).Some? then Some(Aggregated(s[q + 1..e], MatchRest(s, e).value))
      else None
    else None
  }

  /** A kept aggregator group is `:` and a name, and the rest of the placeholder follows it. */
  lemma MatchAggregatorSound(s: string, q: nat)
    requires q <= |s| && MatchAggregator(s, q).Some?
    ensures var a := MatchAggregator(s, q).value;
            && q + 1 + |a.agg| <= |s| && s[q..q + 1 + |a.agg|] == ":" + a.agg && IsName(a.agg)
            && MatchRest(s, q + 1 + |a.agg|) == Some(a.rest)
  {
    var e := RunEnd(s, q + 1, IsWordChar);
    RunEndSpans(s, q + 1, IsWordChar);
    var agg := s[q + 1..e];
    assert MatchAggregator(s, q).value.agg == agg;
    assert forall k :: 0 <= k < |agg| ==> agg[k] == s[q + 1 + k];
    assert IsName(agg);
    assert s[q..e] == [s[q]] + agg;
  }

  /** The aggregator group as written: `:` and the name, or nothing. */
  function AggText(ph: Placeholder): string {
    if ph.agg.Some? then ":" + ph.agg.value else ""
  }

  /** The format group as written: `:` and the format, or nothing. */
  function FmtText(ph: Placeholder): string {
    if ph.fmt.Some? then ":" + ph.fmt.value else ""
  }

  /** What a placeholder with these groups spells, given the whitespace after `{{` and before `}}`. */
  function Spelling(ph: Placeholder, lead: string, trail: string): string {
    "{{" + lead + ph.variable + AggText(ph) + FmtText(ph) + trail + "}}"
  }

  /** w is the spelling of ph with some whitespace after `{{` and before `}}` (none after a format). */
  ghost predicate Spells(w: string, ph: Placeholder) {
    exists lead, trail :: && AllSpace(lead) && AllSpace(trail) && (ph.fmt.Some? ==> trail == [])
                          && w == Spelling(ph, lead, trail)
  }

  /** The groups the pattern can capture: a name, a name as aggregator, a format without `}`. */
  predicate WellFormedGroups(ph: Placeholder) {
    && IsName(ph.variable)
    && (ph.agg.Some? ==> IsName(ph.agg.value))
    && (ph.fmt.Some? ==> IsFormat(ph.fmt.value))
  }

  lemma SliceSplit(s: string, a: nat, b: nat, c: nat)
    requires a <= b <= c <= |s|
    ensures s[a..c] == s[a..b] + s[b..c]
  {
  }

  /**
   * Every match spells a placeholder: `{{`, whitespace, the variable, the
   * aggregator after a `:` if captured, the format after a `:` if captured,
   * whitespace (none after a format, which takes it), and `}}`.
   */
  lemma MatchAtSound(s: string, i: nat)
    requires i <= |s| && MatchAt(s, i).Some?
    ensures var m := MatchAt(s, i).value;
            WellFormedGroups(m.placeholder) && Spells(s[i..m.end], m.placeholder)
  {
    var m := MatchAt(s, i).value;
    var p, q := MatchAtOpens(s, i);
    var t := MatchGroupsSound(s, p, q);
    MatchRestSound(s, t);
    var ph, end := m.placeholder, m.end;
    var lead := s[i + 2..p];
    if ph.fmt.Some? {
      SpellingAt(s, i, p, q, t, end - 2, ph, lead, "", end);
      SpellsBy(s[i..end], ph, lead, "");
    } else {
      var trail := s[t..end - 2];
      SpellingAt(s, i, p, q, t, t, ph, lead, trail, end);
      SpellsBy(s[i..end], ph, lead, trail);
    }
  }

  lemma SpellsBy(w: string, ph: Placeholder, lead: string, trail: string)
    requires AllSpace(lead) && AllSpace(trail) && (ph.fmt.Some? ==> trail == [])
    requires w == Spelling(ph, lead, trail)
    ensures Spells(w, ph)
  {
  }

  /** A match at i opens with `{{` and whitespace up to p, and its groups start with the name `s[p..q]`. */
  lemma MatchAtOpens(s: string, i: nat) returns (p: nat, q: nat)
    requires i <= |s| && MatchAt(s, i).Some?
    ensures i + 1 < |s| && s[i] == '{' && s[i + 1] == '{'
    ensures i + 2 <= p < q <= |s| && AllSpace(s[i + 2..p]) && q == RunEnd(s, p, IsWordChar)
    ensures MatchGroups(s, p, q) == MatchAt(s, i)
  {
    p := RunEnd(s, i + 2, IsSpace);
    q := RunEnd(s, p, IsWordChar);
    RunEndSpans(s, i + 2, IsSpace);
  }

  /** The pieces of a match, laid end to end, are its spelling. */
  lemma SpellingAt(s: string, i: nat, p: nat, q: nat, t: nat, u: nat, ph: Placeholder, lead: string, trail: string,
                   end: nat)
    requires i + 2 <= p <= q <= t <= u && u + 2 <= end <= |s|
    requires s[i] == '{' && s[i + 1] == '{' && ClosesAt(s, end - 2)
    requires lead == s[i + 2..p] && ph.variable == s[p..q]
    requires s[q..t] == AggText(ph) && s[t..u] == FmtText(ph) && s[u..end - 2] == trail
    ensures s[i..end] == Spelling(ph, lead, trail)
  {
    assert s[i..i + 2] == "{{";
    assert s[end - 2..end] == "}}";
    SliceSplit(s, i, i + 2, p);
    SliceSplit(s, i, p, q);
    SliceSplit(s, i, q, t);
    SliceSplit(s, i, t, u);
    SliceSplit(s, i, u, end - 2);
    SliceSplit(s, i, end - 2, end);
  }

  /**
   * The groups of a match after `{{` and the whitespace: the variable is the
   * name `s[p..q]`, an aggregator is `:` and a name up to t, and from t the
   * rest holds the format or the whitespace before `}}`.
   */
  lemma MatchGroupsSound(s: string, p: nat, q: nat) returns (t: nat)
    requires p < q <= |s| && MatchGroups(s, p, q).Some?
    requires q == RunEnd(s, p, IsWordChar)
    ensures var m := MatchGroups(s, p, q).value;
            && q <= t <= m.end - 2
            && WellFormedGroups(m.placeholder) && m.placeholder.variable == s[p..q]
            && s[q..t] == AggText(m.placeholder)
            && MatchRest(s, t) == Some(Rest(m.placeholder.fmt, m.end))
  {
    RunEndSpans(s, p, IsWordChar);
    assert IsName(s[p..q]);
    var m := MatchGroups(s, p, q).value;
    var ag := MatchAggregator(s, q);
    var rest: Rest;
    if ag.Some? {
      MatchAggregatorSound(s, q);
      t, rest := q + 1 + |ag.value.agg|, ag.value.rest;
      assert m == Found(Placeholder(s[p..q], Some(ag.value.agg), rest.fmt), rest.end);
    } else {
      t, rest := q, MatchRest(s, q).value;
      assert m == Found(Placeholder(s[p..q], None, rest.fmt), rest.end);
    }
    assert MatchRest(s, t) == Some(rest);
  }

  /** The rest of a match from t is `:` and the format, or whitespace, before the closing `}}`. */
  lemma MatchRestSound(s: string, t: nat)
    requires t <= |s| && MatchRest(s, t).Some?
    ensures var r := MatchRest(s, t).value;
            && t + 2 <= r.end && ClosesAt(s, r.end - 2)
            && (r.fmt.Some? ==> s[t..r.end - 2] == ":" + r.fmt.value && IsFormat(r.fmt.value))
            && (r.fmt.None? ==> AllSpace(s[t..r.end - 2]))
  {
    var r := MatchRest(s, t).value;
    if r.fmt.Some? {
      assert s[t..r.end - 2] == [s[t]] + s[t + 1..r.end - 2];
    }
  }

  // ---------------------------------------------------------------------------
  // Rendering

  /** The aggregator of a placeholder written without one. */
  const DefaultAggregator: string := "current"

  /** What `repl` returns for one placeholder, and the warning it appends if any. */
  datatype Piece = Piece(text: string, warning: Option<string>)

  /**
   * `repl(match)`. `format(value, spec)` is `("{:" + spec + "}").format(value)`,
   * `None` when it raises; `show(value)` is `str(value)`.
   */
  function Replacement(ph: Placeholder, f: FeatureSet, format: (real, string) -> Option<string>,
                       show: real -> string): Piece
  {
    var agg := ph.agg.GetOr(DefaultAggregator);
    var value := Lookup(f, ph.variable, agg);
    if value.None? then
      Piece("", Some("placeholder " + ph.variable + ":" + agg + " no disponible"))
    else if ph.fmt.None? then
      Piece(show(value.value), None)
    else
      match format(value.value, ph.fmt.value)
      case Some(text) => Piece(text, None)
      case None => Piece(show(value.value), Some("formato inválido en placeholder " + ph.variable + ":" + agg + ":" + ph.fmt.value))
  }

  datatype Rendered = Rendered(text: string, warnings: seq<string>)

  function WarningsOf(p: Piece): seq<string> {
    if p.warning.Some? then [p.warning.value] else []
  }

  /** `PLACEHOLDER_RE.sub(repl, s)` from position i: each match replaced, other characters kept. */
  function RenderFrom(s: string, i: nat, f: FeatureSet, format: (real, string) -> Option<string>,
                      show: real -> string): Rendered
    requires i <= |s|
    decreases |s| - i
  {
    if i == |s| then Rendered("", [])
    else
      match MatchAt(s, i)
      case None =>
        var rest := RenderFrom(s, i + 1, f, format, show);
        Rendered([s[i]] + rest.text, rest.warnings)
      case Some(m) =>
        var piece := Replacement(m.placeholder, f, format, show);
        var rest := RenderFrom(s, m.end, f, format, show);
        Rendered(piece.text + rest.text, WarningsOf(piece) + rest.warnings)
  }

  function Render(s: string, f: FeatureSet, format: (real, string) -> Option<string>, show: real -> string)
    : Rendered
  {
    RenderFrom(s, 0, f, format, show)
  }

  /** A step of the scan where no placeholder starts: the character is kept. */
  lemma RenderKeeps(s: string, i: nat, f: FeatureSet, format: (real, string) -> Option<string>, show: real -> string)
    requires i < |s| && MatchAt(s, i).None?
    ensures var rest := RenderFrom(s, i, f, format, show);
            var next := RenderFrom(s, i + 1, f, format, show);
            rest.text == [s[i]] + next.text && rest.warnings == next.warnings
  {
  }

  /** A step of the scan where a placeholder starts: it is replaced and the scan resumes after it. */
  lemma RenderReplaces(s: string, i: nat, m: Found, f: FeatureSet, format: (real, string) -> Option<string>,
                       show: real -> string)
    requires i < |s| && MatchAt(s, i) == Some(m)
    ensures m.end <= |s|
    ensures var rest := RenderFrom(s, i, f, format, show);
            var piece := Replacement(m.placeholder, f, format, show);
            var next := RenderFrom(s, m.end, f, format, show);
            rest.text == piece.text + next.text && rest.warnings == WarningsOf(piece) + next.warnings
  {
  }

  lemma Regroup<T>(acc: seq<T>, piece: seq<T>, after: seq<T>, rest: seq<T>)
    requires rest == piece + after
    ensures acc + rest == (acc + piece) + after
  {
  }

  /**
   * One step of the scan at position i: the text that replaces what starts
   * there, the warning it raises if any, and where the scan resumes.
   */
  method ScanStep(template: string, i: nat, f: FeatureSet, format: (real, string) -> Option<string>,
                  show: real -> string)
    returns (text: string, warning: seq<string>, next: nat)
    requires i < |template|
    ensures i < next <= |template|
    ensures var rest := RenderFrom(template, i, f, format, show);
            var after := RenderFrom(template, next, f, format, show);
            rest.text == text + after.text && rest.warnings == warning + after.warnings
  {
    var m := MatchAt(template, i);
    if m.None? {
      RenderKeeps(template, i, f, format, show);
      text, warning, next := [template[i]], [], i + 1;
    } else {
      RenderReplaces(template, i, m.value, f, format, show);
      var piece := Replacement(m.value.placeholder, f, format, show);
      text, warning, next := piece.text, WarningsOf(piece), m.value.end;
    }
  }

  /** `render_message`: the scan of `re.sub`, with `repl` appending to `warnings` as it goes. */
  method RenderMessage(template: string, f: FeatureSet, format: (real, string) -> Option<string>,
                       show: real -> string)
    returns (rendered: string, warnings: seq<string>)
    ensures Rendered(rendered, warnings) == Render(template, f, format, show)
  {
    rendered, warnings := "", [];
    var i := 0;
    ghost var whole := Render(template, f, format, show);
    assert whole.text == rendered + whole.text;
    assert whole.warnings == warnings + whole.warnings;
    while i < |template|
      invariant 0 <= i <= |template|
      invariant whole.text == rendered + RenderFrom(template, i, f, format, show).text
      invariant whole.warnings == warnings + RenderFrom(template, i, f, format, show).warnings
      decreases |template| - i
    {
      ghost var rest := RenderFrom(template, i, f, format, show);
      var text, warning, next := ScanStep(template, i, f, format, show);
      ghost var after := RenderFrom(template, next, f, format, show);
      Regroup(rendered, text, after.text, rest.text);
      Regroup(warnings, warning, after.warnings, rest.warnings);
      rendered, warnings, i := rendered + text, warnings + warning, next;
    }
    assert RenderFrom(template, i, f, format, show) == Rendered("", []);
    assert rendered + "" == rendered;
    assert warnings + [] == warnings;
  }

  // ---------------------------------------------------------------------------
  // Properties of rendering

  /** The placeholders `re.sub` replaces from position i, in order. */
  function Placeholders(s: string, i: nat): seq<Placeholder>
    requires i <= |s|
    decreases |s| - i
  {
    if i == |s| then []
    else
      match MatchAt(s, i)
      case None => Placeholders(s, i + 1)
      case Some(m) => [m.placeholder] + Placeholders(s, m.end)
  }

  /** A template in which no placeholder matches comes back unchanged, with no warnings. */
  lemma {:induction false} NoPlaceholderUnchanged(s: string, i: nat, f: FeatureSet,
                                                  format: (real, string) -> Option<string>, show: real -> string)
    requires i <= |s|
    requires forall k :: i <= k < |s| ==> MatchAt(s, k).None?
    ensures RenderFrom(s, i, f, format, show) == Rendered(s[i..], [])
    decreases |s| - i
  {
    if i < |s| {
      NoPlaceholderUnchanged(s, i + 1, f, format, show);
      assert s[i..] == [s[i]] + s[i + 1..];
    }
  }

  /** Without `{{` there is nothing to match. */
  lemma NoBracesNoMatch(s: string, i: nat)
    requires i <= |s|
    requires forall k :: 0 <= k < |s| - 1 ==> !(s[k] == '{' && s[k + 1] == '{')
    ensures MatchAt(s, i).None?
  {
  }

  /** Each placeholder adds at most one warning, and rendering never fails. */
  lemma {:induction false} WarningsPerPlaceholder(s: string, i: nat, f: FeatureSet,
                                                  format: (real, string) -> Option<string>, show: real -> string)
    requires i <= |s|
    ensures |RenderFrom(s, i, f, format, show).warnings| <= |Placeholders(s, i)|
    decreases |s| - i
  {
    if i < |s| {
      match MatchAt(s, i)
      case None =>
        WarningsPerPlaceholder(s, i + 1, f, format, show);
      case Some(m) =>
        WarningsPerPlaceholder(s, m.end, f, format, show);
    }
  }

  /** The pieces of one placeholder: the aggregator defaults to `current`; a missing value renders empty with a warning. */
  lemma ReplacementCases(ph: Placeholder, f: FeatureSet, format: (real, string) -> Option<string>,
                         show: real -> string)
    ensures var agg := if ph.agg.Some? then ph.agg.value else DefaultAggregator;
            var value := Lookup(f, ph.variable, agg);
            var piece := Replacement(ph, f, format, show);
            && (value.None? ==> piece == Piece("", Some("placeholder " + ph.variable + ":" + agg + " no disponible")))
            && (value.Some? && ph.fmt.None? ==> piece == Piece(show(value.value), None))
            && (value.Some? && ph.fmt.Some? ==> piece.text == format(value.value, ph.fmt.value).GetOr(show(value.value)))
            && (value.Some? ==> (piece.warning.Some? <==> ph.fmt.Some? && format(value.value, ph.fmt.value).None?))
  {
  }

  predicate IsName(v: string) {
    v != [] && forall k :: 0 <= k < |v| ==> IsWordChar(v[k])
  }

  lemma {:induction false} RunEndOver(s: string, i: nat, n: nat, p: char -> bool)
    requires i + n <= |s|
    requires forall k :: i <= k < i + n ==> p(s[k])
    requires i + n == |s| || !p(s[i + n])
    ensures RunEnd(s, i, p) == i + n
    decreases n
  {
    if n > 0 {
      RunEndOver(s, i + 1, n - 1, p);
    }
  }

  /** `{{v}}` is a placeholder for v with the default aggregator and no format. */
  lemma BarePlaceholder(v: string, rest: string)
    requires IsName(v)
    ensures var s := "{{" + v + "}}" + rest;
            MatchAt(s, 0) == Some(Found(Placeholder(v, None, None), |v| + 4))
  {
    var s := "{{" + v + "}}" + rest;
    assert s[2..2 + |v|] == v;
    assert !IsSpace(s[2]);
    RunEndOver(s, 2, 0, IsSpace);
    RunEndOver(s, 2, |v|, IsWordChar);
    RunEndOver(s, |v| + 2, 0, IsSpace);
  }

  /** The template `{{v}}` alone renders the current value, or nothing and a warning when it is missing. */
  lemma LonePlaceholder(v: string, f: FeatureSet, format: (real, string) -> Option<string>, show: real -> string)
    requires IsName(v)
    ensures var r := Render("{{" + v + "}}", f, format, show);
            match Lookup(f, v, DefaultAggregator)
            case Some(x) => r == Rendered(show(x), [])
            case None => r == Rendered("", ["placeholder " + v + ":" + DefaultAggregator + " no disponible"])
  {
    RenderBare(v, f, format, show);
  }

  lemma RenderBare(v: string, f: FeatureSet, format: (real, string) -> Option<string>, show: real -> string)
    requires IsName(v)
    ensures var piece := Replacement(Placeholder(v, None, None), f, format, show);
            Render("{{" + v + "}}", f, format, show) == Rendered(piece.text, WarningsOf(piece))
  {
    var s := "{{" + v + "}}";
    BarePlaceholder(v, "");
    assert s + "" == s;
    RenderSingle(s, Found(Placeholder(v, None, None), |s|), f, format, show);
  }

  /** A template that is exactly one placeholder renders to that placeholder's piece. */
  lemma RenderSingle(s: string, m: Found, f: FeatureSet, format: (real, string) -> Option<string>,
                     show: real -> string)
    requires s != [] && MatchAt(s, 0) == Some(m) && m.end == |s|
    ensures var piece := Replacement(m.placeholder, f, format, show);
            Render(s, f, format, show) == Rendered(piece.text, WarningsOf(piece))
  {
    RenderReplaces(s, 0, m, f, format, show);
    var piece := Replacement(m.placeholder, f, format, show);
    assert RenderFrom(s, |s|, f, format, show) == Rendered("", []);
    assert piece.text + "" == piece.text;
    assert WarningsOf(piece) + [] == WarningsOf(piece);
  }

  /** A word w at position i, not followed by another word character, is the run from i. */
  lemma {:induction false} WordAt(s: string, i: nat, w: string)
    requires IsName(w) && i + |w| <= |s| && s[i..i + |w|] == w
    requires i + |w| == |s| || !IsWordChar(s[i + |w|])
    ensures RunEnd(s, i, IsWordChar) == i + |w|
  {
    assert forall k :: i <= k < i + |w| ==> s[k] == w[k - i];
    RunEndOver(s, i, |w|, IsWordChar);
  }

  /** `:fmt}}` at p is the format group followed by the closing braces. */
  lemma FormatAt(s: string, p: nat, fmt: string)
    requires fmt != [] && forall k :: 0 <= k < |fmt| ==> fmt[k] != '}'
    requires p + |fmt| + 3 <= |s| && s[p] == ':' && s[p + 1..p + 1 + |fmt|] == fmt
    requires s[p + 1 + |fmt|] == '}' && s[p + 2 + |fmt|] == '}'
    ensures MatchRest(s, p) == Some(Rest(Some(fmt), p + |fmt| + 3))
  {
    assert forall k :: p + 1 <= k < p + 1 + |fmt| ==> s[k] == fmt[k - p - 1];
    RunEndOver(s, p + 1, |fmt|, NotBrace);
  }

  /** A match at i that keeps its aggregator group. */
  lemma MatchWithAggregator(s: string, i: nat, p: nat, q: nat, r: nat, rest: Rest)
    requires i + 1 < |s| && s[i] == '{' && s[i + 1] == '{'
    requires p == RunEnd(s, i + 2, IsSpace) && q == RunEnd(s, p, IsWordChar) && p < q
    requires q < |s| && s[q] == ':' && r == RunEnd(s, q + 1, IsWordChar) && q + 1 < r
    requires MatchRest(s, r) == Some(rest)
    ensures MatchAt(s, i) == Some(Found(Placeholder(s[p..q], Some(s[q + 1..r]), rest.fmt), rest.end))
  {
    assert MatchAggregator(s, q) == Some(Aggregated(s[q + 1..r], rest));
  }

  /** A match at i without an aggregator group. */
  lemma MatchWithoutAggregator(s: string, i: nat, p: nat, q: nat, rest: Rest)
    requires i + 1 < |s| && s[i] == '{' && s[i + 1] == '{'
    requires p == RunEnd(s, i + 2, IsSpace) && q == RunEnd(s, p, IsWordChar) && p < q
    requires !(q < |s| && s[q] == ':' && RunEnd(s, q + 1, IsWordChar) > q + 1
               && MatchRest(s, RunEnd(s, q + 1, IsWordChar)).Some?)
    requires MatchRest(s, q) == Some(rest)
    ensures MatchAt(s, i) == Some(Found(Placeholder(s[p..q], None, rest.fmt), rest.end))
  {
  }

  /** `{{v:agg:fmt}}` carries all three groups when fmt is non-empty and has no closing brace. */
  lemma FullPlaceholder(v: string, agg: string, fmt: string, rest: string)
    requires IsName(v) && IsName(agg)
    requires fmt != [] && forall k :: 0 <= k < |fmt| ==> fmt[k] != '}'
    ensures var s := "{{" + v + ":" + agg + ":" + fmt + "}}" + rest;
            MatchAt(s, 0) == Some(Found(Placeholder(v, Some(agg), Some(fmt)), |v| + |agg| + |fmt| + 6))
  {
    var s := "{{" + v + ":" + agg + ":" + fmt + "}}" + rest;
    var q := |v| + 2;
    var r := q + 1 + |agg|;
    assert s[0] == '{' && s[1] == '{' && s[2..q] == v && s[q] == ':' && s[q + 1..r] == agg;
    assert s[r] == ':' && s[r + 1..r + 1 + |fmt|] == fmt;
    assert s[r + 1 + |fmt|] == '}' && s[r + 2 + |fmt|] == '}';
    FullPlaceholderAt(s, v, agg, fmt);
  }

  ghost predicate FullLayout(s: string, v: string, agg: string, fmt: string) {
    && IsName(v) && IsName(agg)
    && fmt != [] && (forall k :: 0 <= k < |fmt| ==> fmt[k] != '}')
    && |v| + |agg| + |fmt| + 6 <= |s| && s[0] == '{' && s[1] == '{'
    && var q := |v| + 2; var r := q + 1 + |agg|;
       && s[2..q] == v && s[q] == ':' && s[q + 1..r] == agg && s[r] == ':' && s[r + 1..r + 1 + |fmt|] == fmt
       && s[r + 1 + |fmt|] == '}' && s[r + 2 + |fmt|] == '}'
  }

  lemma FullRuns(s: string, v: string, agg: string, fmt: string)
    requires FullLayout(s, v, agg, fmt)
    ensures var q := |v| + 2; var r := q + 1 + |agg|;
            && RunEnd(s, 2, IsSpace) == 2 && RunEnd(s, 2, IsWordChar) == q && RunEnd(s, q + 1, IsWordChar) == r
            && MatchRest(s, r) == Some(Rest(Some(fmt), r + |fmt| + 3))
  {
    var q := |v| + 2;
    var r := q + 1 + |agg|;
    assert s[2] == v[0];
    RunEndOver(s, 2, 0, IsSpace);
    WordAt(s, 2, v);
    WordAt(s, q + 1, agg);
    FormatAt(s, r, fmt);
  }

  lemma FullPlaceholderAt(s: string, v: string, agg: string, fmt: string)
    requires FullLayout(s, v, agg, fmt)
    ensures MatchAt(s, 0) == Some(Found(Placeholder(v, Some(agg), Some(fmt)), |v| + |agg| + |fmt| + 6))
  {
    var q := |v| + 2;
    var r := q + 1 + |agg|;
    FullRuns(s, v, agg, fmt);
    MatchWithAggregator(s, 0, 2, q, r, Rest(Some(fmt), r + |fmt| + 3));
  }

  /**
   * A colon followed by text that is not a single word is a format, not an
   * aggregator: `{{hrv:+.1f}}` renders the current value formatted.
   */
  lemma FormatWithoutAggregator(s: string)
    requires s == "{{hrv:+.1f}}"
    ensures MatchAt(s, 0) == Some(Found(Placeholder("hrv", None, Some("+.1f")), 12))
  {
    FormatRuns(s);
    assert s[2..5] == "hrv";
    MatchWithoutAggregator(s, 0, 2, 5, Rest(Some("+.1f"), 12));
  }

  lemma FormatRuns(s: string)
    requires s == "{{hrv:+.1f}}"
    ensures RunEnd(s, 2, IsSpace) == 2 && RunEnd(s, 2, IsWordChar) == 5 && RunEnd(s, 6, IsWordChar) == 6
    ensures MatchRest(s, 5) == Some(Rest(Some("+.1f"), 12))
  {
    RunEndOver(s, 2, 0, IsSpace);
    RunEndOver(s, 2, 3, IsWordChar);
    RunEndOver(s, 6, 0, IsWordChar);
    RunEndOver(s, 6, 4, NotBrace);
    assert s[6..10] == "+.1f";
  }

  /**
   * The aggregator group is dropped when the rest fails after it: in
   * `{{hrv:mean_3d x}}` the text after the colon becomes the format.
   */
  lemma AggregatorBacktracks(s: string)
    requires s == "{{hrv:mean_3d x}}"
    ensures MatchAt(s, 0) == Some(Found(Placeholder("hrv", None, Some("mean_3d x")), 17))
  {
    BacktrackRuns(s);
    assert s[2..5] == "hrv";
    MatchWithoutAggregator(s, 0, 2, 5, Rest(Some("mean_3d x"), 17));
  }

  lemma BacktrackRuns(s: string)
    requires s == "{{hrv:mean_3d x}}"
    ensures RunEnd(s, 2, IsSpace) == 2 && RunEnd(s, 2, IsWordChar) == 5 && RunEnd(s, 6, IsWordChar) == 13
    ensures MatchRest(s, 13).None?
    ensures MatchRest(s, 5) == Some(Rest(Some("mean_3d x"), 17))
  {
    BacktrackWords(s);
    BacktrackNoClose(s);
    BacktrackFormat(s);
  }

  lemma BacktrackWords(s: string)
    requires s == "{{hrv:mean_3d x}}"
    ensures RunEnd(s, 2, IsSpace) == 2 && RunEnd(s, 2, IsWordChar) == 5 && RunEnd(s, 6, IsWordChar) == 13
  {
    RunEndOver(s, 2, 0, IsSpace);
    RunEndOver(s, 2, 3, IsWordChar);
    RunEndOver(s, 6, 7, IsWordChar);
  }

  lemma BacktrackNoClose(s: string)
    requires s == "{{hrv:mean_3d x}}"
    ensures MatchRest(s, 13).None?
  {
    RunEndOver(s, 13, 1, IsSpace);
    assert s[13] == ' ' && s[14] == 'x';
  }

  lemma BacktrackFormat(s: string)
    requires s == "{{hrv:mean_3d x}}"
    ensures MatchRest(s, 5) == Some(Rest(Some("mean_3d x"), 17))
  {
    RunEndOver(s, 6, 9, NotBrace);
    assert s[5] == ':' && s[15] == '}' && s[16] == '}';
    assert s[6..15] == "mean_3d x";
  }

  /** A bad format keeps `str(value)` and warns with the variable, the aggregator and the format. */
  lemma BadFormatWarns(v: string, agg: string, fmt: string, f: FeatureSet,
                       format: (real, string) -> Option<string>, show: real -> string)
    requires IsName(v) && IsName(agg)
    requires fmt != [] && forall k :: 0 <= k < |fmt| ==> fmt[k] != '}'
    requires Lookup(f, v, agg).Some? && format(Lookup(f, v, agg).value, fmt).None?
    ensures var s := "{{" + v + ":" + agg + ":" + fmt + "}}";
            Render(s, f, format, show)
            == Rendered(show(Lookup(f, v, agg).value), ["formato inválido en placeholder " + v + ":" + agg + ":" + fmt])
  {
    RenderFull(v, agg, fmt, f, format, show);
  }

  lemma RenderFull(v: string, agg: string, fmt: string, f: FeatureSet, format: (real, string) -> Option<string>,
                   show: real -> string)
    requires IsName(v) && IsName(agg)
    requires fmt != [] && forall k :: 0 <= k < |fmt| ==> fmt[k] != '}'
    ensures var piece := Replacement(Placeholder(v, Some(agg), Some(fmt)), f, format, show);
            Render("{{" + v + ":" + agg + ":" + fmt + "}}", f, format, show) == Rendered(piece.text, WarningsOf(piece))
  {
    var s := "{{" + v + ":" + agg + ":" + fmt + "}}";
    FullPlaceholder(v, agg, fmt, "");
    assert s + "" == s;
    RenderSingle(s, Found(Placeholder(v, Some(agg), Some(fmt)), |s|), f, format, show);
  }
}
