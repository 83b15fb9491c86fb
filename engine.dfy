/**
 * The pipeline stages of the rules engine: message selection with
 * anti-repeat, the cooldown filter over the audit log, conflict resolution
 * and the per-rule loop of `evaluate_user`, which appends one audit row per
 * parsed rule to the audit store.
 * Source: backend/rules_engine/engine.py, lines 116-327.
 */
module Engine {
  import opened Wrappers
  import opened Dsl
  import opened Evaluator
  import opened Features
  import opened Messages

  // ---------------------------------------------------------------------------
  // Rows, audits, events and settings

  /** A row of `rule_messages`. */
  datatype RuleMessage = RuleMessage(id: int, text: string, weight: int, active: bool)

  /** A row of `rules`, with its messages loaded. */
  datatype RuleRow = RuleRow(
    id: string,
    tenantId: string,
    category: Option<string>,
    priority: int,
    severity: int,
    cooldownDays: int,
    maxPerDay: int,
    logic: RawNode,
    locale: string,
    messages: seq<RuleMessage>)

  /** A row of `audits`; the engine always sets the rule id. */
  datatype Audit = Audit(tenantId: string, userId: string, date: int, ruleId: string, fired: bool,
                         messageId: Option<int>)

  /** `RecommendationEvent`; the trailing `{"warnings": ...}` entry of `why` is kept apart. */
  datatype Event = Event(
    date: int,
    tenantId: string,
    userId: string,
    ruleId: string,
    category: Option<string>,
    severity: int,
    priority: int,
    messageId: Option<int>,
    messageText: string,
    locale: string,
    why: seq<TraceEntry>,
    warnings: seq<string>)

  /**
   * The settings the engine reads. `antiRepeatDays` is `None` when the
   * settings object has no such attribute, which `int(...)` turns into an
   * exception and the engine into 0.
   */
  datatype Settings = Settings(antiRepeatDays: Option<int>, maxRecsPerDay: int, maxRecsPerCategoryPerDay: int)

  /** The values of `backend/config.py`, which defines no anti-repeat window. */
  const BackendSettings := Settings(None, 3, 1)

  // ---------------------------------------------------------------------------
  // select_message_for_rule

  /** The active messages as `{"id", "text", "weight"}` candidates, in order. */
  function ActiveCandidates(ms: seq<RuleMessage>): (cs: seq<Candidate>)
    ensures forall c :: c in cs <==> exists m :: m in ms && m.active && c == Candidate(m.id, m.text, m.weight)
  {
    if ms == [] then []
    else
      var rest := ActiveCandidates(ms[1..]);
      assert forall m :: m in ms[1..] ==> m in ms;
      if ms[0].active then [Candidate(ms[0].id, ms[0].text, ms[0].weight)] + rest else rest
  }

  /**
   * The candidates follow the messages' order: a message alone gives its
   * candidate exactly when it is active, and the candidates of two stretches
   * of messages are those of the first followed by those of the second.
   */
  lemma {:induction false} ActiveCandidatesInOrder(a: seq<RuleMessage>, b: seq<RuleMessage>, m: RuleMessage)
    ensures ActiveCandidates([m]) == if m.active then [Candidate(m.id, m.text, m.weight)] else []
    ensures ActiveCandidates(a + b) == ActiveCandidates(a) + ActiveCandidates(b)
  {
    assert [m][1..] == [];
    if a == [] {
      assert a + b == b;
    } else {
      var ab := a + b;
      assert ab[0] == a[0] && ab[1..] == a[1..] + b;
      ActiveCandidatesInOrder(a[1..], b, m);
    }
  }

  /** `max(0, int(settings.anti_repeat_days))`, or 0 when that raises. */
  function AntiRepeatDays(settings: Settings): nat {
    match settings.antiRepeatDays
    case None => 0
    case Some(d) => if d > 0 then d else 0
  }

  /** The message ids of this user's fired audits of this rule dated on or after `since`. */
  function RecentIds(log: seq<Audit>, userId: string, ruleId: string, since: int): set<int> {
    set a | a in log && a.userId == userId && a.ruleId == ruleId && a.fired && a.date >= since
                       && a.messageId.Some? :: a.messageId.value
  }

  /** `[c for c in candidates if c["id"] not in recent_ids]`. */
  function NotRecent(cs: seq<Candidate>, recent: set<int>): (r: seq<Candidate>)
    ensures forall c :: c in r <==> c in cs && c.id !in recent
  {
    if cs == [] then []
    else if cs[0].id !in recent then [cs[0]] + NotRecent(cs[1..], recent)
    else NotRecent(cs[1..], recent)
  }

  /** Each candidate whose id was not used recently is kept as often as it is offered; the others are dropped. */
  lemma {:induction false} NotRecentCounts(cs: seq<Candidate>, recent: set<int>)
    ensures forall c :: multiset(NotRecent(cs, recent))[c] == if c.id !in recent then multiset(cs)[c] else 0
  {
    if cs != [] {
      NotRecentCounts(cs[1..], recent);
      assert cs == [cs[0]] + cs[1..];
    }
  }

  /** The filter keeps the candidates' order: filtering two stretches is filtering each in turn. */
  lemma {:induction false} NotRecentAppend(a: seq<Candidate>, b: seq<Candidate>, recent: set<int>)
    ensures NotRecent(a + b, recent) == NotRecent(a, recent) + NotRecent(b, recent)
  {
    if a == [] {
      assert a + b == b;
    } else {
      var ab := a + b;
      assert ab[0] == a[0] && ab[1..] == a[1..] + b;
      NotRecentAppend(a[1..], b, recent);
    }
  }

  /** The id, rendered text and warnings `select_message_for_rule` returns. */
  datatype MessageChoice = MessageChoice(id: Option<int>, text: string, warnings: seq<string>)

  /** The pool of the draw: the candidates not used recently, or all of them if none is left. */
  function Pool(rule: RuleRow, userId: string, day: int, log: seq<Audit>, settings: Settings): seq<Candidate> {
    var candidates := ActiveCandidates(rule.messages);
    var days := AntiRepeatDays(settings);
    var recent := if days > 0 then RecentIds(log, userId, rule.id, day - days) else {};
    var preferred := NotRecent(candidates, recent);
    if preferred != [] then preferred else candidates
  }

  /**
   * `select_message_for_rule`. `log` is the audit table as it stands,
   * `draw` the random ticket and `format`/`show` the formatting of values.
   */
  function SelectMessageForRule(rule: RuleRow, f: FeatureSet, userId: string, day: int, log: seq<Audit>,
                                settings: Settings, draw: nat, format: (real, string) -> Option<string>,
                                show: real -> string): MessageChoice
  {
    if ActiveCandidates(rule.messages) == [] then MessageChoice(None, "", [])
    else
      match SelectWeightedRandom(Pool(rule, userId, day, log, settings), draw)
      case None => MessageChoice(None, "", [])
      case Some(choice) =>
        var r := Render(choice.text, f, format, show);
        MessageChoice(Some(choice.id), r.text, r.warnings)
  }

  /**
   * No active message gives `(None, "", [])`; otherwise the pool is never
   * empty, the chosen id is that of an active message of the rule, and the
   * text is its template rendered.
   */
  lemma SelectedMessageIsActive(rule: RuleRow, f: FeatureSet, userId: string, day: int, log: seq<Audit>,
                                settings: Settings, draw: nat, format: (real, string) -> Option<string>,
                                show: real -> string)
    ensures var c := SelectMessageForRule(rule, f, userId, day, log, settings, draw, format, show);
            && (ActiveCandidates(rule.messages) == [] ==> c == MessageChoice(None, "", []))
            && (ActiveCandidates(rule.messages) != [] ==>
                  Pool(rule, userId, day, log, settings) != []
                  && c.id.Some?
                  && exists m :: m in rule.messages && m.active && m.id == c.id.value
                                 && Render(m.text, f, format, show) == Rendered(c.text, c.warnings))
  {
    var candidates := ActiveCandidates(rule.messages);
    if candidates != [] {
      var pool := Pool(rule, userId, day, log, settings);
      assert candidates[0] in candidates;
      if NotRecent(candidates, RecentIds(log, userId, rule.id, day - AntiRepeatDays(settings))) != [] {
        assert pool != [];
      }
      var choice := SelectWeightedRandom(pool, draw).value;
      assert choice in candidates;
    }
  }

  /**
   * Anti-repeat: when some active message was not shown in the window, the
   * chosen one was not shown in the window either.
   */
  lemma AntiRepeat(rule: RuleRow, f: FeatureSet, userId: string, day: int, log: seq<Audit>, settings: Settings,
                   draw: nat, format: (real, string) -> Option<string>, show: real -> string, m: RuleMessage)
    requires AntiRepeatDays(settings) > 0
    requires m in rule.messages && m.active
    requires m.id !in RecentIds(log, userId, rule.id, day - AntiRepeatDays(settings))
    ensures var c := SelectMessageForRule(rule, f, userId, day, log, settings, draw, format, show);
            c.id.Some? && c.id.value !in RecentIds(log, userId, rule.id, day - AntiRepeatDays(settings))
  {
    var candidates := ActiveCandidates(rule.messages);
    var recent := RecentIds(log, userId, rule.id, day - AntiRepeatDays(settings));
    var cm := Candidate(m.id, m.text, m.weight);
    assert cm in candidates;
    assert cm in NotRecent(candidates, recent);
    var pool := Pool(rule, userId, day, log, settings);
    var choice := SelectWeightedRandom(pool, draw).value;
    assert choice in NotRecent(candidates, recent);
  }

  /** Without an anti-repeat window, the draw is over all active messages. */
  lemma NoWindowNoFilter(rule: RuleRow, userId: string, day: int, log: seq<Audit>, settings: Settings)
    requires AntiRepeatDays(settings) == 0
    ensures Pool(rule, userId, day, log, settings) == ActiveCandidates(rule.messages)
  {
    var candidates := ActiveCandidates(rule.messages);
    assert NotRecent(candidates, {}) == candidates by {
      NotRecentNothing(candidates);
    }
  }

  lemma {:induction false} NotRecentNothing(cs: seq<Candidate>)
    ensures NotRecent(cs, {}) == cs
  {
    if cs != [] {
      NotRecentNothing(cs[1..]);
    }
  }

  // ---------------------------------------------------------------------------
  // Subsequences

  /** a is obtained from b by deleting elements. */
  predicate SubseqOf<T(==)>(a: seq<T>, b: seq<T>)
    decreases |b|
  {
    if a == [] then true
    else if b == [] then false
    else if a[|a| - 1] == b[|b| - 1] then SubseqOf(a[..|a| - 1], b[..|b| - 1])
    else SubseqOf(a, b[..|b| - 1])
  }

  lemma {:induction false} SubseqDropLast<T>(a: seq<T>, b: seq<T>)
    requires a != [] && SubseqOf(a, b)
    ensures SubseqOf(a[..|a| - 1], b)
    decreases |b|, 0
  {
    var a', b' := a[..|a| - 1], b[..|b| - 1];
    if a[|a| - 1] == b[|b| - 1] {
      assert SubseqOf(a', b');
    } else {
      SubseqDropLast(a, b');
    }
    // now SubseqOf(a', b'); extend by the last element of b
    SubseqExtend(a', b', b[|b| - 1]);
    assert b' + [b[|b| - 1]] == b;
  }

  lemma {:induction false} SubseqExtend<T>(a: seq<T>, b: seq<T>, e: T)
    requires SubseqOf(a, b)
    ensures SubseqOf(a, b + [e])
    decreases |b|, 1
  {
    var b2 := b + [e];
    assert b2[..|b2| - 1] == b;
    if a != [] && a[|a| - 1] == e {
      SubseqDropLast(a, b);
    }
  }

  lemma SubseqSnoc<T>(a: seq<T>, b: seq<T>, e: T)
    requires SubseqOf(a, b)
    ensures SubseqOf(a + [e], b + [e])
  {
    assert (a + [e])[..|a|] == a;
    assert (b + [e])[..|b|] == b;
  }

  lemma {:induction false} SubseqRefl<T>(a: seq<T>)
    ensures SubseqOf(a, a)
    decreases |a|
  {
    if a != [] {
      SubseqRefl(a[..|a| - 1]);
      SubseqSnoc(a[..|a| - 1], a[..|a| - 1], a[|a| - 1]);
      assert a[..|a| - 1] + [a[|a| - 1]] == a;
    }
  }

  lemma {:induction false} SubseqPrefix<T>(a: seq<T>, b: seq<T>, n: nat)
    requires n <= |a| && SubseqOf(a, b)
    ensures SubseqOf(a[..n], b)
    decreases |a| - n
  {
    if n < |a| {
      SubseqDropLast(a, b);
      SubseqPrefix(a[..|a| - 1], b, n);
      assert a[..|a| - 1][..n] == a[..n];
    } else {
      assert a[..n] == a;
    }
  }

  lemma {:induction false} SubseqMultiset<T>(a: seq<T>, b: seq<T>)
    requires SubseqOf(a, b)
    ensures multiset(a) <= multiset(b)
    decreases |b|
  {
    if a != [] {
      var a', b' := a[..|a| - 1], b[..|b| - 1];
      assert b == b' + [b[|b| - 1]];
      if a[|a| - 1] == b[|b| - 1] {
        SubseqMultiset(a', b');
        assert a == a' + [a[|a| - 1]];
      } else {
        SubseqMultiset(a, b');
      }
    }
  }

  // ---------------------------------------------------------------------------
  // resolve_conflicts

  /** a sorts before b under the key `(priority, severity)`, descending. */
  predicate Outranks(a: Event, b: Event) {
    a.priority > b.priority || (a.priority == b.priority && a.severity > b.severity)
  }

  predicate SortedDesc(s: seq<Event>) {
    forall i, j :: 0 <= i < j < |s| ==> !Outranks(s[j], s[i])
  }

  /** Insert x in front of the first element it is not outranked by. */
  function Insert(x: Event, ys: seq<Event>): (r: seq<Event>)
    ensures |r| == |ys| + 1
  {
    if ys == [] || !Outranks(ys[0], x) then [x] + ys else [ys[0]] + Insert(x, ys[1..])
  }

  lemma {:induction false} InsertPermutes(x: Event, ys: seq<Event>)
    ensures multiset(Insert(x, ys)) == multiset{x} + multiset(ys)
  {
    if ys != [] && Outranks(ys[0], x) {
      InsertPermutes(x, ys[1..]);
      assert ys == [ys[0]] + ys[1..];
    }
  }

  lemma {:induction false} InsertSorted(x: Event, ys: seq<Event>)
    requires SortedDesc(ys)
    ensures SortedDesc(Insert(x, ys))
  {
    if ys != [] && Outranks(ys[0], x) {
      InsertSorted(x, ys[1..]);
      InsertPermutes(x, ys[1..]);
      var r := Insert(x, ys);
      forall j | 1 <= j < |r| ensures !Outranks(r[j], ys[0]) {
        assert r[j] in multiset(Insert(x, ys[1..]));
        if r[j] != x {
          assert r[j] in multiset(ys[1..]);
          var k :| 0 <= k < |ys[1..]| && ys[1..][k] == r[j];
          assert ys[k + 1] == r[j];
        }
      }
    }
  }

  /** `events.sort(key=lambda e: (e.priority, e.severity), reverse=True)` on a copy: a stable sort. */
  function SortDesc(s: seq<Event>): seq<Event> {
    if s == [] then [] else Insert(s[0], SortDesc(s[1..]))
  }

  lemma {:induction false} SortDescSorted(s: seq<Event>)
    ensures SortedDesc(SortDesc(s))
    ensures multiset(SortDesc(s)) == multiset(s)
  {
    if s != [] {
      SortDescSorted(s[1..]);
      InsertSorted(s[0], SortDesc(s[1..]));
      InsertPermutes(s[0], SortDesc(s[1..]));
      assert s == [s[0]] + s[1..];
    }
  }

  /** The events of one `(priority, severity)` key, in order. */
  function OfRank(s: seq<Event>, priority: int, severity: int): seq<Event> {
    if s == [] then []
    else if s[0].priority == priority && s[0].severity == severity then [s[0]] + OfRank(s[1..], priority, severity)
    else OfRank(s[1..], priority, severity)
  }

  lemma {:induction false} InsertStable(x: Event, ys: seq<Event>, priority: int, severity: int)
    ensures OfRank(Insert(x, ys), priority, severity)
         == if x.priority == priority && x.severity == severity then [x] + OfRank(ys, priority, severity)
            else OfRank(ys, priority, severity)
  {
    if ys != [] && Outranks(ys[0], x) {
      InsertStable(x, ys[1..], priority, severity);
    } else {
      assert Insert(x, ys)[1..] == ys;
    }
  }

  /** The sort is stable: events of equal key keep their input order. */
  lemma {:induction false} SortDescStable(s: seq<Event>, priority: int, severity: int)
    ensures OfRank(SortDesc(s), priority, severity) == OfRank(s, priority, severity)
  {
    if s != [] {
      SortDescStable(s[1..], priority, severity);
      InsertStable(s[0], SortDesc(s[1..]), priority, severity);
    }
  }

  /** The number of events of a category. */
  function Count(s: seq<Event>, category: Option<string>): (n: nat)
    ensures n <= |s|
  {
    if s == [] then 0
    else Count(s[..|s| - 1], category) + (if s[|s| - 1].category == category then 1 else 0)
  }

  /** The category loop: an event is kept unless its category already reached the cap. */
  function CategoryCap(s: seq<Event>, cap: int): seq<Event> {
    if s == [] then []
    else
      var out := CategoryCap(s[..|s| - 1], cap);
      var e := s[|s| - 1];
      if cap > 0 && Count(out, e.category) >= cap then out else out + [e]
  }

  /** `out[:n]` when the cap n is positive: the first n events, or all of them when fewer. */
  function Truncate(s: seq<Event>, n: int): (r: seq<Event>)
    ensures n > 0 ==> |r| == (if n < |s| then n else |s|) && r == s[..|r|]
    ensures n <= 0 ==> r == s
  {
    if n > 0 && n < |s| then s[..n] else s
  }

  /** What `resolve_conflicts` returns. */
  function Resolve(events: seq<Event>, settings: Settings): seq<Event> {
    Truncate(CategoryCap(SortDesc(events), settings.maxRecsPerCategoryPerDay), settings.maxRecsPerDay)
  }

  lemma {:induction false} CategoryCapSubseq(s: seq<Event>, cap: int)
    ensures SubseqOf(CategoryCap(s, cap), s)
    decreases |s|
  {
    if s != [] {
      var s' := s[..|s| - 1];
      CategoryCapSubseq(s', cap);
      assert s == s' + [s[|s| - 1]];
      var out := CategoryCap(s', cap);
      if cap > 0 && Count(out, s[|s| - 1].category) >= cap {
        SubseqExtend(out, s', s[|s| - 1]);
      } else {
        SubseqSnoc(out, s', s[|s| - 1]);
      }
    }
  }

  lemma {:induction false} CountSnoc(s: seq<Event>, e: Event, category: Option<string>)
    ensures Count(s + [e], category) == Count(s, category) + if e.category == category then 1 else 0
  {
    assert (s + [e])[..|s|] == s;
  }

  lemma {:induction false} CategoryCapBound(s: seq<Event>, cap: int, category: Option<string>)
    requires cap > 0
    ensures Count(CategoryCap(s, cap), category) <= cap
    decreases |s|
  {
    if s != [] {
      var s' := s[..|s| - 1];
      CategoryCapBound(s', cap, category);
      var out := CategoryCap(s', cap);
      var e := s[|s| - 1];
      if Count(out, e.category) < cap {
        CountSnoc(out, e, category);
      }
    }
  }

  /**
   * The events that are among the first `cap` of their category in s, in
   * order (every event when the cap is off): which events the category loop
   * keeps, stated on the input alone.
   */
  function KeepFirst(s: seq<Event>, cap: int): seq<Event> {
    if s == [] then []
    else
      var e := s[|s| - 1];
      KeepFirst(s[..|s| - 1], cap) + (if cap <= 0 || Count(s[..|s| - 1], e.category) < cap then [e] else [])
  }

  /** With a positive cap the loop keeps min(count, cap) events of every category. */
  lemma {:induction false} CategoryCapCount(s: seq<Event>, cap: int, category: Option<string>)
    requires cap > 0
    ensures Count(CategoryCap(s, cap), category) == if Count(s, category) < cap then Count(s, category) else cap
    decreases |s|
  {
    if s != [] {
      var s' := s[..|s| - 1];
      var e := s[|s| - 1];
      CategoryCapCount(s', cap, category);
      CategoryCapCount(s', cap, e.category);
      var out := CategoryCap(s', cap);
      assert s == s' + [e];
      CountSnoc(s', e, category);
      if Count(out, e.category) < cap {
        CountSnoc(out, e, category);
      }
    }
  }

  /** The loop keeps exactly the first `cap` events of each category, in order. */
  lemma {:induction false} CategoryCapKeepsFirst(s: seq<Event>, cap: int)
    ensures CategoryCap(s, cap) == KeepFirst(s, cap)
    decreases |s|
  {
    if s != [] {
      var s' := s[..|s| - 1];
      CategoryCapKeepsFirst(s', cap);
      if cap > 0 {
        CategoryCapCount(s', cap, s[|s| - 1].category);
      }
    }
  }

  lemma {:induction false} CategoryCapOff(s: seq<Event>, cap: int)
    requires cap <= 0
    ensures CategoryCap(s, cap) == s
    decreases |s|
  {
    if s != [] {
      CategoryCapOff(s[..|s| - 1], cap);
      assert s[..|s| - 1] + [s[|s| - 1]] == s;
    }
  }

  lemma {:induction false} CountPrefix(s: seq<Event>, n: nat, category: Option<string>)
    requires n <= |s|
    ensures Count(s[..n], category) <= Count(s, category)
    decreases |s| - n
  {
    if n < |s| {
      CountPrefix(s[..|s| - 1], n, category);
      assert s[..|s| - 1][..n] == s[..n];
    } else {
      assert s[..n] == s;
    }
  }

  lemma {:induction false} SubseqSorted(a: seq<Event>, b: seq<Event>)
    requires SubseqOf(a, b) && SortedDesc(b)
    ensures SortedDesc(a)
    decreases |b|
  {
    if a != [] {
      var a', b' := a[..|a| - 1], b[..|b| - 1];
      assert SortedDesc(b');
      if a[|a| - 1] == b[|b| - 1] {
        SubseqSorted(a', b');
        SubseqMultiset(a', b');
        forall i | 0 <= i < |a'| ensures !Outranks(a[|a| - 1], a[i]) {
          assert a[i] == a'[i];
          assert a'[i] in multiset(b');
          var k :| 0 <= k < |b'| && b'[k] == a'[i];
          assert b[k] == a[i];
        }
      } else {
        SubseqSorted(a, b');
      }
    }
  }

  /**
   * `resolve_conflicts`: the result keeps events of the sorted input in
   * order, so it is sorted by `(priority, severity)` descending and draws on
   * the input's events; no category exceeds a positive category cap; a
   * positive daily cap bounds its length; and with both caps off it is the
   * whole sorted input. Exactly: it is the first events of each category,
   * up to the category cap, of the sorted input, cut to the daily cap.
   */
  lemma ResolveProperties(events: seq<Event>, settings: Settings)
    ensures var r := Resolve(events, settings);
            var kept := KeepFirst(SortDesc(events), settings.maxRecsPerCategoryPerDay);
            && (settings.maxRecsPerDay > 0 && settings.maxRecsPerDay < |kept| ==> r == kept[..settings.maxRecsPerDay])
            && (settings.maxRecsPerDay <= 0 || settings.maxRecsPerDay >= |kept| ==> r == kept)
            && SubseqOf(r, SortDesc(events))
            && SortedDesc(r)
            && multiset(r) <= multiset(events)
            && (settings.maxRecsPerCategoryPerDay > 0 ==>
                  forall c :: Count(r, c) <= settings.maxRecsPerCategoryPerDay)
            && (settings.maxRecsPerDay > 0 ==> |r| <= settings.maxRecsPerDay)
            && (settings.maxRecsPerCategoryPerDay <= 0 && settings.maxRecsPerDay <= 0 ==> r == SortDesc(events))
  {
    var sorted := SortDesc(events);
    var capped := CategoryCap(sorted, settings.maxRecsPerCategoryPerDay);
    var r := Resolve(events, settings);
    CategoryCapKeepsFirst(sorted, settings.maxRecsPerCategoryPerDay);
    SortDescSorted(events);
    CategoryCapSubseq(sorted, settings.maxRecsPerCategoryPerDay);
    if settings.maxRecsPerDay > 0 && settings.maxRecsPerDay < |capped| {
      SubseqPrefix(capped, sorted, settings.maxRecsPerDay);
    }
    SubseqSorted(r, sorted);
    SubseqMultiset(r, sorted);
    if settings.maxRecsPerCategoryPerDay > 0 {
      forall c ensures Count(r, c) <= settings.maxRecsPerCategoryPerDay {
        CategoryCapBound(sorted, settings.maxRecsPerCategoryPerDay, c);
        if settings.maxRecsPerDay > 0 && settings.maxRecsPerDay < |capped| {
          CountPrefix(capped, settings.maxRecsPerDay, c);
        }
      }
    }
    if settings.maxRecsPerCategoryPerDay <= 0 {
      CategoryCapOff(sorted, settings.maxRecsPerCategoryPerDay);
    }
  }

  function CountOr(m: map<Option<string>, int>, category: Option<string>): int {
    if category in m then m[category] else 0
  }

  /**
   * `resolve_conflicts(events)`: the stable sort, the `per_rule` loop (which
   * changes nothing), the per-category loop with its counters, and the
   * global truncation.
   */
  method ResolveConflicts(events: seq<Event>, settings: Settings) returns (out: seq<Event>)
    ensures out == Resolve(events, settings)
  {
    var sorted := SortDesc(events);
    var perRule: map<string, int> := map[];
    var tmp: seq<Event> := [];
    for i := 0 to |sorted|
      invariant tmp == sorted[..i]
    {
      var e := sorted[i];
      perRule := perRule[e.ruleId := if e.ruleId in perRule then perRule[e.ruleId] else 0];
      tmp := tmp + [e];
    }
    assert tmp == sorted;
    out := CapCategories(tmp, settings.maxRecsPerCategoryPerDay);
    if settings.maxRecsPerDay > 0 && settings.maxRecsPerDay < |out| {
      out := out[..settings.maxRecsPerDay];
    }
  }

  /** The per-category loop of `resolve_conflicts`, with its `per_category` counters. */
  method CapCategories(sorted: seq<Event>, maxPerCategory: int) returns (out: seq<Event>)
    ensures out == CategoryCap(sorted, maxPerCategory)
  {
    out := [];
    var perCategory: map<Option<string>, int> := map[];
    for i := 0 to |sorted|
      invariant out == CategoryCap(sorted[..i], maxPerCategory)
      invariant forall c :: CountOr(perCategory, c) == Count(out, c)
    {
      var e := sorted[i];
      CategoryCapStep(sorted, i, maxPerCategory);
      if maxPerCategory > 0 && CountOr(perCategory, e.category) >= maxPerCategory {
        continue;
      }
      CounterStep(perCategory, out, e);
      out := out + [e];
      perCategory := perCategory[e.category := CountOr(perCategory, e.category) + 1];
    }
    assert sorted[..|sorted|] == sorted;
  }

  lemma CategoryCapStep(s: seq<Event>, i: nat, cap: int)
    requires i < |s|
    ensures var out := CategoryCap(s[..i], cap);
            CategoryCap(s[..i + 1], cap)
            == if cap > 0 && Count(out, s[i].category) >= cap then out else out + [s[i]]
  {
    assert s[..i + 1][..i] == s[..i];
  }

  lemma CounterStep(m: map<Option<string>, int>, out: seq<Event>, e: Event)
    requires forall c :: CountOr(m, c) == Count(out, c)
    ensures forall c :: CountOr(m[e.category := CountOr(m, e.category) + 1], c) == Count(out + [e], c)
  {
    forall c ensures CountOr(m[e.category := CountOr(m, e.category) + 1], c) == Count(out + [e], c) {
      CountSnoc(out, e, c);
    }
  }

  // ---------------------------------------------------------------------------
  // enforce_cooldowns

  /** `session.get(Rule, id)`: the row of the rules table with that id. */
  function FindRule(table: seq<RuleRow>, id: string): (r: Option<RuleRow>)
    ensures r.Some? ==> r.value in table && r.value.id == id
    ensures r.None? ==> forall x :: x in table ==> x.id != id
  {
    if table == [] then None else if table[0].id == id then Some(table[0]) else FindRule(table[1..], id)
  }

  /** Whether this user has a fired audit of the rule dated on or after `since`. */
  predicate FiredSince(log: seq<Audit>, userId: string, ruleId: string, since: int) {
    exists a :: a in log && a.userId == userId && a.ruleId == ruleId && a.fired && a.date >= since
  }

  /** Whether `enforce_cooldowns` keeps the event. */
  predicate KeepsEvent(userId: string, day: int, e: Event, table: seq<RuleRow>, log: seq<Audit>) {
    match FindRule(table, e.ruleId)
    case None => false
    case Some(rule) => !(rule.cooldownDays > 0 && FiredSince(log, userId, rule.id, day - rule.cooldownDays))
  }

  /** The events `enforce_cooldowns` keeps, in order. */
  function Cooled(userId: string, day: int, events: seq<Event>, table: seq<RuleRow>, log: seq<Audit>)
    : seq<Event>
  {
    if events == [] then []
    else
      var kept := Cooled(userId, day, events[..|events| - 1], table, log);
      var e := events[|events| - 1];
      if KeepsEvent(userId, day, e, table, log) then kept + [e] else kept
  }

  /** The kept events are a subsequence of the input: exactly those whose rule exists and is not cooling down. */
  lemma {:induction false} CooledMeaning(userId: string, day: int, events: seq<Event>, table: seq<RuleRow>,
                                         log: seq<Audit>)
    ensures var kept := Cooled(userId, day, events, table, log);
            && SubseqOf(kept, events)
            && forall e :: e in kept <==> e in events && KeepsEvent(userId, day, e, table, log)
    decreases |events|
  {
    if events != [] {
      var es := events[..|events| - 1];
      var e := events[|events| - 1];
      CooledMeaning(userId, day, es, table, log);
      assert events == es + [e];
      var kept := Cooled(userId, day, es, table, log);
      if KeepsEvent(userId, day, e, table, log) {
        SubseqSnoc(kept, es, e);
      } else {
        SubseqExtend(kept, es, e);
      }
    }
  }

  /** `enforce_cooldowns(user_id, day, events)` against the rules table and the audit log. */
  method EnforceCooldowns(userId: string, day: int, events: seq<Event>, table: seq<RuleRow>, log: seq<Audit>)
    returns (kept: seq<Event>)
    ensures kept == Cooled(userId, day, events, table, log)
  {
    kept := [];
    for i := 0 to |events|
      invariant kept == Cooled(userId, day, events[..i], table, log)
    {
      var e := events[i];
      assert events[..i + 1][..i] == events[..i];
      var rule := FindRule(table, e.ruleId);
      if rule.None? {
        continue;
      }
      if rule.value.cooldownDays > 0 {
        var since := day - rule.value.cooldownDays;
        if exists a :: a in log && a.userId == userId && a.ruleId == rule.value.id && a.fired && a.date >= since {
          continue;
        }
      }
      kept := kept + [e];
    }
    assert events[..|events|] == events;
  }

  /**
   * A fired audit of the user dated `day` removes every event of a rule
   * with a positive cooldown: the window `[day - cooldown_days, ...)`
   * contains `day` itself.
   */
  lemma TodayBlocksCooldown(userId: string, day: int, e: Event, table: seq<RuleRow>, log: seq<Audit>, a: Audit)
    requires a in log && a.userId == userId && a.ruleId == e.ruleId && a.fired && a.date == day
    requires KeepsEvent(userId, day, e, table, log)
    ensures FindRule(table, e.ruleId).Some? && FindRule(table, e.ruleId).value.cooldownDays <= 0
  {
  }

  // ---------------------------------------------------------------------------
  // evaluate_user

  /** The audit table: rows are only ever added. */
  class AuditStore {
    var log: seq<Audit>

    constructor (initial: seq<Audit>)
      ensures log == initial
    {
      log := initial;
    }

    /** `session.add(Audit(...))` followed by `session.commit()`. */
    method Add(a: Audit)
      modifies this
      ensures log == old(log) + [a]
    {
      log := log + [a];
    }
  }

  function DigitChar(d: nat): char
    requires d < 10
  {
    "0123456789"[d]
  }

  function Digits(n: nat): string
    decreases n
  {
    if n < 10 then [DigitChar(n)] else Digits(n / 10) + [DigitChar(n % 10)]
  }

  /** `str(n)` for an int. */
  function DecimalString(n: int): string {
    if n < 0 then "-" + Digits(-n) else Digits(n)
  }

  function RawCandidates(ms: seq<RuleMessage>): seq<RawCandidate> {
    if ms == [] then []
    else if ms[0].active then [RawCandidate(Some(DecimalString(ms[0].id)), ms[0].text, Some(ms[0].weight))]
                              + RawCandidates(ms[1..])
    else RawCandidates(ms[1..])
  }

  /** The arguments `evaluate_user` passes to `RuleModel(...)` for a rule row. */
  function ToRawRule(r: RuleRow): RawRule {
    RawRule(r.id, Some(r.tenantId), r.category.GetOr(""), Some(r.priority), Some(r.severity),
            Some(r.cooldownDays), Some(r.maxPerDay), r.logic, Some(r.locale), RawCandidates(r.messages))
  }

  /**
   * The inputs of one `evaluate_user` call: the user, the target day, the
   * tenant, the feature map `build_features` returned, the settings, the
   * random ticket drawn for the rule at each position, and value formatting.
   */
  datatype Run = Run(userId: string, day: int, tenantId: string, features: FeatureSet, settings: Settings,
                     draws: nat -> nat, format: (real, string) -> Option<string>, show: real -> string)

  /** The state of the rule loop: the fired events, the audit table, and the error raised if any. */
  datatype RunState = RunState(events: seq<Event>, log: seq<Audit>, error: Option<TypeError>)

  function ParsedRule(r: RuleRow): Result<RuleModel, ParseError> {
    ParseRule(ToRawRule(r))
  }

  /** The message chosen for rule r at position i, against the audit table as it stands. */
  function ChoiceFor(run: Run, r: RuleRow, i: nat, log: seq<Audit>): MessageChoice {
    SelectMessageForRule(r, run.features, run.userId, run.day, log, run.settings, run.draws(i), run.format, run.show)
  }

  function EventFor(run: Run, r: RuleRow, why: seq<TraceEntry>, choice: MessageChoice): Event {
    Event(run.day, run.tenantId, run.userId, r.id, r.category, r.severity, r.priority, choice.id, choice.text,
          r.locale, why, choice.warnings)
  }

  function AuditFor(run: Run, r: RuleRow, fired: bool, choice: MessageChoice): Audit {
    Audit(run.tenantId, run.userId, run.day, r.id, fired, choice.id)
  }

  /**
   * One iteration of the rule loop: a rule that does not parse is skipped;
   * an evaluation that raises stops the loop; otherwise a message is drawn,
   * the event is kept if the rule fired, and the audit is appended either way.
   */
  function RuleStep(run: Run, r: RuleRow, i: nat, st: RunState): RunState {
    var model := ParsedRule(r);
    if model.Err? then st
    else
      var evaluation := EvalNode(model.value.logic, run.features);
      if evaluation.outcome.Err? then st.(error := Some(evaluation.outcome.error))
      else
        var fired := evaluation.outcome.value;
        var choice := ChoiceFor(run, r, i, st.log);
        var events := if fired then st.events + [EventFor(run, r, evaluation.trace, choice)] else st.events;
        RunState(events, st.log + [AuditFor(run, r, fired, choice)], None)
  }

  /** The state after the first n rules, starting from the audit table `log`. */
  function RunRules(run: Run, rules: seq<RuleRow>, n: nat, log: seq<Audit>): RunState
    requires n <= |rules|
  {
    if n == 0 then RunState([], log, None)
    else
      var st := RunRules(run, rules, n - 1, log);
      if st.error.Some? then st else RuleStep(run, rules[n - 1], n - 1, st)
  }

  /**
   * The rule loop of `evaluate_user`: for each rule, parse it, evaluate its
   * logic, draw its message, keep the event if it fired, and add its audit.
   */
  method RuleLoop(store: AuditStore, run: Run, rules: seq<RuleRow>) returns (results: seq<Event>, error: Option<TypeError>)
    modifies store
    ensures RunRules(run, rules, |rules|, old(store.log)) == RunState(results, store.log, error)
  {
    results, error := [], None;
    ghost var log0 := store.log;
    for i := 0 to |rules|
      invariant RunRules(run, rules, i, log0) == RunState(results, store.log, None)
    {
      var r := rules[i];
      assert RunRules(run, rules, i + 1, log0) == RuleStep(run, r, i, RunRules(run, rules, i, log0));
      var model := ParseRule(ToRawRule(r));
      if model.Err? {
        continue;
      }
      var evaluation := EvalNode(model.value.logic, run.features);
      if evaluation.outcome.Err? {
        error := Some(evaluation.outcome.error);
        ErrorStops(run, rules, i + 1, |rules|, log0);
        return;
      }
      var fired := evaluation.outcome.value;
      var choice := SelectMessageForRule(r, run.features, run.userId, run.day, store.log, run.settings,
                                         run.draws(i), run.format, run.show);
      if fired {
        results := results + [EventFor(run, r, evaluation.trace, choice)];
      }
      store.Add(AuditFor(run, r, fired, choice));
    }
  }

  /** Once an evaluation raises, later rules change nothing. */
  lemma {:induction false} ErrorStops(run: Run, rules: seq<RuleRow>, n: nat, m: nat, log: seq<Audit>)
    requires n <= m <= |rules| && RunRules(run, rules, n, log).error.Some?
    ensures RunRules(run, rules, m, log) == RunRules(run, rules, n, log)
    decreases m - n
  {
    if n < m {
      ErrorStops(run, rules, n, m - 1, log);
    }
  }

  /**
   * `evaluate_user` without `debug`: the rule loop, then `enforce_cooldowns`
   * against the audit table as the loop left it, then `resolve_conflicts`.
   * An evaluation error propagates, leaving the audits already added.
   */
  method EvaluateUser(store: AuditStore, run: Run, rules: seq<RuleRow>, table: seq<RuleRow>)
    returns (result: Result<seq<Event>, TypeError>)
    modifies store
    ensures var st := RunRules(run, rules, |rules|, old(store.log));
            && store.log == st.log
            && result == if st.error.Some? then Err(st.error.value)
                         else Ok(Resolve(Cooled(run.userId, run.day, st.events, table, st.log), run.settings))
  {
    var results, error := RuleLoop(store, run, rules);
    if error.Some? {
      return Err(error.value);
    }
    var kept := EnforceCooldowns(run.userId, run.day, results, table, store.log);
    var out := ResolveConflicts(kept, run.settings);
    return Ok(out);
  }

  // ---------------------------------------------------------------------------
  // Properties of the rule loop

  /** The rules that parse, in order. */
  function Parsed(rules: seq<RuleRow>): seq<RuleRow> {
    if rules == [] then []
    else Parsed(rules[..|rules| - 1]) + if ParsedRule(rules[|rules| - 1]).Ok? then [rules[|rules| - 1]] else []
  }

  /** The loop only appends to the audit table. */
  lemma {:induction false} AuditLogGrows(run: Run, rules: seq<RuleRow>, n: nat, log: seq<Audit>)
    requires n <= |rules|
    ensures var st := RunRules(run, rules, n, log);
            |log| <= |st.log| && st.log[..|log|] == log
  {
    if n > 0 {
      var prev := RunRules(run, rules, n - 1, log);
      AuditLogGrows(run, rules, n - 1, log);
      var st := RunRules(run, rules, n, log);
      if st.log != prev.log {
        assert st.log[..|prev.log|] == prev.log;
        assert st.log[..|log|] == prev.log[..|log|];
      }
    }
  }

  /**
   * Without an error the loop appends exactly one audit per parsed rule, in
   * order, for this user and day, whose `fired` is the rule's evaluation,
   * carrying a message id exactly when the rule has an active message,
   * fired or not.
   */
  lemma {:induction false} AuditPerParsedRule(run: Run, rules: seq<RuleRow>, n: nat, log: seq<Audit>)
    requires n <= |rules|
    ensures var st := RunRules(run, rules, n, log);
            st.error.None? ==>
              var ps := Parsed(rules[..n]);
              && |st.log| == |log| + |ps|
              && forall k :: 0 <= k < |ps| ==>
                   var a := st.log[|log| + k];
                   && a.ruleId == ps[k].id && a.userId == run.userId && a.date == run.day
                   && (a.messageId.Some? <==> ActiveCandidates(ps[k].messages) != [])
                   && ParsedRule(ps[k]).Ok? && EvalNode(ParsedRule(ps[k]).value.logic, run.features).outcome == Ok(a.fired)
  {
    if n > 0 {
      var prev := RunRules(run, rules, n - 1, log);
      AuditPerParsedRule(run, rules, n - 1, log);
      var r := rules[n - 1];
      assert rules[..n][..n - 1] == rules[..n - 1];
      assert rules[..n][n - 1] == r;
      var st := RunRules(run, rules, n, log);
      if st.error.None? && ParsedRule(r).Ok? {
        var evaluation := EvalNode(ParsedRule(r).value.logic, run.features);
        var choice := ChoiceFor(run, r, n - 1, prev.log);
        SelectedMessageIsActive(r, run.features, run.userId, run.day, prev.log, run.settings, run.draws(n - 1),
                                run.format, run.show);
        assert st.log == prev.log + [AuditFor(run, r, evaluation.outcome.value, choice)];
        var ps := Parsed(rules[..n]);
        assert ps == Parsed(rules[..n - 1]) + [r];
        forall k | 0 <= k < |ps|
          ensures var a := st.log[|log| + k];
                  && a.ruleId == ps[k].id && a.userId == run.userId && a.date == run.day
                  && (a.messageId.Some? <==> ActiveCandidates(ps[k].messages) != [])
                  && ParsedRule(ps[k]).Ok? && EvalNode(ParsedRule(ps[k]).value.logic, run.features).outcome == Ok(a.fired)
        {
          if k < |ps| - 1 {
            assert st.log[|log| + k] == prev.log[|log| + k];
            assert ps[k] == Parsed(rules[..n - 1])[k];
          }
        }
      }
    }
  }

  /** The audit table holds a fired audit of the rule for this run's user and day. */
  predicate FiredToday(log: seq<Audit>, run: Run, ruleId: string) {
    exists a :: a in log && a.userId == run.userId && a.ruleId == ruleId && a.fired && a.date == run.day
  }

  /** Every event kept has a fired audit of its rule for this user and day. */
  lemma {:induction false} EventsHaveAudits(run: Run, rules: seq<RuleRow>, n: nat, log: seq<Audit>)
    requires n <= |rules|
    ensures var st := RunRules(run, rules, n, log);
            forall e :: e in st.events ==> FiredToday(st.log, run, e.ruleId)
  {
    if n > 0 {
      var prev := RunRules(run, rules, n - 1, log);
      EventsHaveAudits(run, rules, n - 1, log);
      var st := RunRules(run, rules, n, log);
      forall e | e in st.events
        ensures FiredToday(st.log, run, e.ruleId)
      {
        if e in prev.events {
          assert FiredToday(prev.log, run, e.ruleId);
          var a :| a in prev.log && a.userId == run.userId && a.ruleId == e.ruleId && a.fired && a.date == run.day;
          assert a in st.log;
        } else {
          assert st.log[|st.log| - 1] in st.log;
        }
      }
    }
  }

  /**
   * The events `evaluate_user` returns all belong to rules with no positive
   * cooldown: today's fired audit is committed before `enforce_cooldowns`
   * runs, and the cooldown window includes today.
   */
  lemma CooldownRulesNeverFire(run: Run, rules: seq<RuleRow>, table: seq<RuleRow>, log: seq<Audit>)
    ensures var st := RunRules(run, rules, |rules|, log);
            forall e :: e in Resolve(Cooled(run.userId, run.day, st.events, table, st.log), run.settings) ==>
              FindRule(table, e.ruleId).Some? && FindRule(table, e.ruleId).value.cooldownDays <= 0
  {
    var st := RunRules(run, rules, |rules|, log);
    var kept := Cooled(run.userId, run.day, st.events, table, st.log);
    EventsHaveAudits(run, rules, |rules|, log);
    CooledMeaning(run.userId, run.day, st.events, table, st.log);
    ResolveProperties(kept, run.settings);
    forall e | e in Resolve(kept, run.settings)
      ensures FindRule(table, e.ruleId).Some? && FindRule(table, e.ruleId).value.cooldownDays <= 0
    {
      assert e in multiset(Resolve(kept, run.settings));
      assert e in kept;
      assert FiredToday(st.log, run, e.ruleId);
      var a :| a in st.log && a.userId == run.userId && a.ruleId == e.ruleId && a.fired && a.date == run.day;
      TodayBlocksCooldown(run.userId, run.day, e, table, st.log, a);
    }
  }

  /**
   * The cooldown filter as its comment describes it, against the fires
   * recorded before this run: `enforce_cooldowns` given the audit table as
   * it stood when `evaluate_user` started.
   */
  method EvaluateUserPriorFires(store: AuditStore, run: Run, rules: seq<RuleRow>, table: seq<RuleRow>)
    returns (result: Result<seq<Event>, TypeError>)
    modifies store
    ensures var st := RunRules(run, rules, |rules|, old(store.log));
            && store.log == st.log
            && result == if st.error.Some? then Err(st.error.value)
                         else Ok(Resolve(Cooled(run.userId, run.day, st.events, table, old(store.log)), run.settings))
  {
    var prior := store.log;
    var results, error := RuleLoop(store, run, rules);
    if error.Some? {
      return Err(error.value);
    }
    var kept := EnforceCooldowns(run.userId, run.day, results, table, prior);
    var out := ResolveConflicts(kept, run.settings);
    return Ok(out);
  }

  /**
   * Against prior fires only, a fired rule with a cooldown is kept exactly
   * when the user has no fired audit of it inside the window before today's
   * run: the first fire of a cooling-down rule gets through.
   */
  lemma PriorFiresCooldown(run: Run, rules: seq<RuleRow>, table: seq<RuleRow>, log: seq<Audit>, e: Event)
    requires e in RunRules(run, rules, |rules|, log).events
    requires FindRule(table, e.ruleId).Some?
    ensures var rule := FindRule(table, e.ruleId).value;
            var kept := Cooled(run.userId, run.day, RunRules(run, rules, |rules|, log).events, table, log);
            e in kept <==> !(rule.cooldownDays > 0 && FiredSince(log, run.userId, e.ruleId, run.day - rule.cooldownDays))
  {
    CooledMeaning(run.userId, run.day, RunRules(run, rules, |rules|, log).events, table, log);
  }
}
