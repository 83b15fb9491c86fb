# Recommendation rules engine — a Dafny model

This project models the core of a recommendation engine. The engine turns
per-user daily biometric measurements into recommendation events.

- **Features.** `build_features` reduces a user's measurement rows to a
  feature map: variable → aggregator → value. The aggregators are
  `current`, 3/7/14-row means, the 14-row median, the 3-vs-14 delta and
  the 28-row z-score, plus one derived heart-rate ratio.
- **Rule DSL.** Each rule carries a logic tree: `all`/`any`/`none` groups
  over numeric and relative comparison leaves. The tree is validated
  together with the rule's numeric ranges.
- **Evaluator.** `eval_node` evaluates the tree with Python's
  short-circuiting `all`/`any` and records an explanation trace.
- **Message selection.** `select_message_for_rule` filters the rule's
  active messages by the anti-repeat window and draws one with
  `random.choices`. `render_message` fills its `{{var:agg:fmt}}`
  placeholders from the feature map.
- **Pipeline.** `evaluate_user` loops over the rules and appends one audit
  row per parsed rule. It then drops events of rules in cooldown
  (`enforce_cooldowns`). Finally it sorts, caps per category and truncates
  (`resolve_conflicts`).
- **Two normalisers.**
  - `_slugify_id` normalises rule ids.
  - The patient-metadata standardiser maps sex tokens, converts heights
    and weights with range checks, and picks the source column for each
    field.

Modules:

| file | module | models |
|---|---|---|
| `wrappers.dfy` | `Wrappers` | `Option`, `Result` |
| `text.dfy` | `Text` | `str.isspace`, `str.lower` on ASCII, `str.strip` |
| `dsl.dfy` | `Dsl` | `backend/rules_engine/dsl.py`: the node union, validation, `RuleModel` ranges |
| `evaluator.dfy` | `Evaluator` | `compare`, the leaf evaluators and `eval_node` |
| `features.dfy`, `feature_facts.dfy` | `Features`, `FeatureFacts` | `rolling_mean`, `rolling_median`, `zscore`, `build_features` |
| `messages.dfy` | `Messages` | `select_weighted_random`, `PLACEHOLDER_RE`, `render_message` |
| `engine.dfy` | `Engine` | `select_message_for_rule`, `resolve_conflicts`, `enforce_cooldowns`, the rule loop of `evaluate_user`, the audit table |
| `slug.dfy` | `Slug` | `_slugify_id` |
| `patient.dfy` | `Patient` | `_normalize_sex`, `_to_cm`, `_to_kg`, `standardize_patient_metadata` |

The model takes the form of the code it follows:

- The validators, `compare`, the evaluators and the statistics are
  functions.
- Each loop of the source is a method, proved equal to a function. That
  covers the character loop of `_slugify_id`, the two column passes of
  `build_features`, the `re.sub` scan of `render_message`, the
  `per_rule`/`per_category` loops of `resolve_conflicts`, the `kept` loop
  of `enforce_cooldowns`, the rule loop of `evaluate_user` and the column
  searches of `standardize_patient_metadata`.
- The audit table is a class, `Engine.AuditStore`, whose `log` only ever
  grows.

Some inputs are parameters of the model:

- the feature map;
- the random ticket of each draw, as a function of the rule's position;
- the square root inside `np.std`;
- the format-spec formatter and `str(value)` for floats;
- `astype(str)`, `to_numeric` and the age-from-birth computation, which
  reads today's date.

Two behaviours of the code are easy to miss:

- **Cooldowns.** `enforce_cooldowns` is meant to read the audits of prior
  fires (its own comment, backend/rules_engine/engine.py:187). But
  `evaluate_user` writes today's audit before calling it, so every rule
  with a cooldown is suppressed (see Findings).
- **Z-score.** `np.mean`/`np.std` do not skip NaN. So the z-score is
  absent not only for an empty window but also when any of the last 28
  rows lacks the value.

## Model

| member | source | states |
|---|---|---|
| Dsl.ParseVarRef | backend/rules_engine/dsl.py:13-22 | a reference is accepted exactly when its aggregator, defaulting to `current`, is one of the seven allowed; otherwise the error names that aggregator; `scale` is kept as given |
| Dsl.ParseNumeric | backend/rules_engine/dsl.py:25-39 | a numeric leaf is accepted exactly when its operator is one of the seven, a value is given, its aggregator is allowed and a `between` value is a two-element list; the result carries the defaults `current` and `required = false` |
| Dsl.ParseRelative | backend/rules_engine/dsl.py:42-46 | a relative leaf is accepted exactly when both references and the operator are valid; no `between` shape check is made; the accepted leaf holds both references with their aggregators defaulted to `current` and their scales kept, the operator, and `required` defaulted to false |
| Dsl.ParseChildren | backend/rules_engine/dsl.py:49-61 | a parsed child list has one node per raw child |
| Dsl.ParseChildrenEach | backend/rules_engine/dsl.py:49-61 | a group's children parse exactly when every child parses, and then the i-th parsed child is the i-th child parsed on its own |
| Dsl.ParsedIsWellFormed | backend/rules_engine/dsl.py:10-61 | every node of a parsed tree is one of the five variants with allowed aggregators and operators and a paired `between` value |
| Dsl.ParsedChildrenAreWellFormed | backend/rules_engine/dsl.py:49-61 | every child of a parsed group is well formed |
| Dsl.ParseUnparse | backend/rules_engine/dsl.py:49-61 | every well-formed tree round-trips through its explicit wire form: parse(unparse(n)) == n |
| Dsl.ParseUnparseAll | backend/rules_engine/dsl.py:49-61 | the same round trip for a child list |
| Dsl.LeafDefaults | backend/rules_engine/dsl.py:25-30 | a numeric leaf with `agg` and `required` omitted parses with `current` and false |
| Dsl.ParseCandidate | backend/rules_engine/dsl.py:64-67 | a message candidate keeps its optional id and its text; its weight defaults to 1 |
| Dsl.ParseCandidates | backend/rules_engine/dsl.py:70-72 | the candidate list is parsed element by element, in order |
| Dsl.ParseRuleAccepts | backend/rules_engine/dsl.py:75-87 | a rule is accepted exactly when priority ∈ [0,100], severity ∈ [1,3], cooldown_days ∈ [0,30], max_per_day ∈ [0,10] (after defaults) and its logic parses; an accepted rule's logic is well formed |
| Evaluator.AbsentLeftIsFalse | backend/rules_engine/engine.py:33-35 | `compare(op, None, x)` is false for every operator and every right operand |
| Evaluator.OrderingAgainstAbsentRaises | backend/rules_engine/engine.py:36-43 | a present left operand against an absent right one raises under `<`, `<=`, `>`, `>=` |
| Evaluator.BetweenSemantics | backend/rules_engine/engine.py:46-52 | against a bare number `between` raises a TypeError (`len` of a number); otherwise it is false for a missing bound list, one without exactly two entries or with a missing bound, and else `low <= x <= high`, inclusive |
| Evaluator.RelativeBetweenRaises | backend/rules_engine/engine.py:46-47 | a relative `between` leaf, whose right side is one number, raises with an empty trace when both sides are present and is false when either is missing |
| Evaluator.MembershipAndUnknownOperators | backend/rules_engine/engine.py:53-58 | `in` never raises and is list membership; an operator outside the seven yields false |
| Evaluator.NumericLeafOutcome | backend/rules_engine/engine.py:61-78 | a numeric leaf yields exactly `compare`'s outcome on the looked-up value (`required` never changes it) and appends exactly one trace entry recording it, none when `compare` raises |
| Evaluator.RelativeLeafOutcome | backend/rules_engine/engine.py:81-98 | a relative leaf yields exactly `compare`'s outcome on the unscaled left value and the possibly scaled right value, with one trace entry |
| Evaluator.ScaleAppliesToPresentRight | backend/rules_engine/engine.py:82-85 | the scale multiplies the right value only when both the value and the scale are present |
| Evaluator.EmptyGroups | backend/rules_engine/engine.py:106-111 | `all([])` is true, `any([])` false, `none([])` true, each with an empty trace |
| Evaluator.AllStopsAtFirstNonTrue | backend/rules_engine/engine.py:106-107 | `all` visits children in order up to the first one that is not true; its outcome is that child's and its trace holds exactly the visited children's entries |
| Evaluator.AnyStopsAtFirstNonFalse | backend/rules_engine/engine.py:108-111 | `any` (and so `none`) visits children in order up to the first one that is not false, with the same outcome and trace rule |
| Evaluator.AllIsConjunction | backend/rules_engine/engine.py:106-107 | `all` is true exactly when every child is true |
| Evaluator.AnyIsDisjunction | backend/rules_engine/engine.py:108-111 | `any` is false, and `none` true, exactly when every child is false |
| Evaluator.AllFalseFirstSkipsSecond | backend/rules_engine/engine.py:106-107 | in `all([a, b])` with `a` false, `b` is never evaluated: the trace is `a`'s alone |
| Evaluator.TraceBoundedByLeaves | backend/rules_engine/engine.py:101-113 | the trace never holds more entries than the tree has leaves |
| Evaluator.AllTraceBounded | backend/rules_engine/engine.py:106-107 | the same bound for the children of an `all` group |
| Evaluator.AnyTraceBounded | backend/rules_engine/engine.py:108-111 | the same bound for the children of an `any`/`none` group |
| Features.Lookup | backend/rules_engine/engine.py:62 | `features.get(var, {}).get(agg)` is the stored value (absent for a stored NaN) when the map holds the variable and, under it, the aggregator, and absent otherwise |
| Features.Qualifying | backend/rules_engine/features.py:196 | a row is kept exactly when it is a history row of the user dated on or before the target |
| Features.QualifyingCounts | backend/rules_engine/features.py:196 | the boolean mask keeps every qualifying row as many times as the history holds it, and no other row |
| Features.QualifyingAppend | backend/rules_engine/features.py:196 | the mask keeps the history's order: filtering `a + b` is filtering `a` followed by filtering `b` |
| Features.SortByDate | backend/rules_engine/features.py:196 | `sort_values("date")` returns a date-ordered permutation of its input |
| Features.SortByDateMembers | backend/rules_engine/features.py:196 | the sort keeps exactly the rows it is given |
| Features.UserRows | backend/rules_engine/features.py:196 | the user's rows are date-ordered, hold a row exactly when it is a user history row on or before the target date, and hold it as many times as the history does |
| Features.Series | backend/rules_engine/features.py:217 | a column series has one entry per row, that row's value (NaN when the row lacks it) |
| Features.Tail | backend/rules_engine/features.py:169 | `tail(n)` has min(n, length) entries |
| Features.PresentMembers | backend/rules_engine/features.py:167-178 | the values the mean and the median see are exactly the present entries of the window |
| Features.PresentEmpty | backend/rules_engine/features.py:167-178 | no value is seen exactly when every entry of the window is missing |
| Features.SortReals | backend/rules_engine/features.py:174-178 | the median's sort returns a sorted permutation of the present values |
| Features.MeanMedianAbsent | backend/rules_engine/features.py:167-178 | the mean and the median are absent exactly when every entry of the window is missing |
| Features.DeltaPctMeaning | backend/rules_engine/features.py:222-228 | `delta_pct_3v14` is present exactly when `mean_3d` is present and `mean_14d` is present and non-zero, and then `delta * mean_14d == mean_3d - mean_14d` |
| Features.AggregatorMapEntries | backend/rules_engine/features.py:217-229 | a signal's aggregator map holds exactly the seven aggregators, each with its statistic |
| Features.Add | backend/rules_engine/features.py:200-201 | `add` creates the variable's map if needed, sets one aggregator and leaves every other variable unchanged |
| Features.PerSignalAt | backend/rules_engine/features.py:208-216 | the column passes produce an entry for exactly the columns other than `date` and `user_id`, each with that column's value |
| Features.AddCurrents | backend/rules_engine/features.py:206-211 | the first column pass sets each signal's `current` to its value in the last row |
| Features.AddWindows | backend/rules_engine/features.py:217-229 | the second pass's updates of one signal map, in the source's order with the delta read back from the map, equal merging in the aggregator map |
| Features.ColumnWindows | backend/rules_engine/features.py:214-229 | one iteration of the second pass turns a signal's map holding its `current` into its full aggregator map, in the source's update order |
| Features.AddAllWindows | backend/rules_engine/features.py:213-229 | the second column pass yields the full aggregator map of every signal column |
| Features.FillFeatures | backend/rules_engine/features.py:206-229 | the two column passes together yield the window feature map |
| Features.BuildFeatures | backend/rules_engine/features.py:195-237 | `build_features` returns the feature map of the user's rows up to the target date, with the derived ratio |
| FeatureFacts.WindowsAreRowCounts | backend/rules_engine/features.py:167-192 | rows older than the last n do not change the n-row mean, median or z-score: windows are row counts |
| FeatureFacts.SameWindow | backend/rules_engine/features.py:167-192 | any two series with the same last n rows have the same n-row statistics |
| FeatureFacts.MissingIsSkipped | backend/rules_engine/features.py:167-178 | a missing value inside a window changes neither the mean nor the median |
| FeatureFacts.SamePresent | backend/rules_engine/features.py:167-178 | the mean and the median depend only on the present values, in order |
| FeatureFacts.MeanWithin | backend/rules_engine/features.py:167-171 | the mean lies within any bounds of the present values |
| FeatureFacts.MedianWithin | backend/rules_engine/features.py:174-178 | the median lies within any bounds of the present values |
| FeatureFacts.ZScoreAbsent | backend/rules_engine/features.py:181-192 | the z-score is absent for an empty window and for a window with a missing value |
| FeatureFacts.ZScoreConstant | backend/rules_engine/features.py:186-189 | a window of one repeated value has standard deviation 0 and z-score 0.0 |
| FeatureFacts.DerivedRatio | backend/rules_engine/features.py:231-235 | `max_hr_pct_user_max.current` is added exactly when max HR is present and the user max HR is present and non-zero, equals their quotient, and nothing else changes |
| FeatureFacts.NoRowsNoFeatures | backend/rules_engine/features.py:203-204 | no qualifying row gives the empty feature map |
| FeatureFacts.LastRowIsLatest | backend/rules_engine/features.py:207 | the row `current` reads is a latest qualifying row |
| FeatureFacts.SignalFeatures | backend/rules_engine/features.py:207-229 | each signal column's entry is its aggregator map over the user's rows |
| FeatureFacts.ColumnFeaturesMeaning | backend/rules_engine/features.py:207-229 | `current` is the last row's value; the means and median are over the last 3, 7, 14 and 14 rows; the delta compares the 3- and 14-row means; the z-score is over the last 28 rows |
| FeatureFacts.FeatureKeys | backend/rules_engine/features.py:198-237 | the feature map's keys are the signal columns, plus the derived ratio when it applies |
| Messages.Floored | backend/rules_engine/messages.py:14 | each weight is `max(0, weight)` |
| Messages.EffectiveWeights | backend/rules_engine/messages.py:14-17 | the effective weights are the floored ones, or all 1 when those sum to 0, and always sum to more than 0 for a non-empty list |
| Messages.Pick | backend/rules_engine/messages.py:18 | a ticket below the total picks an index of the list |
| Messages.PickSlice | backend/rules_engine/messages.py:18 | ticket t picks index i exactly when t lies in i's slice of the cumulative weights |
| Messages.PickPositive | backend/rules_engine/messages.py:18 | the picked entry has a positive weight |
| Messages.SelectIndex | backend/rules_engine/messages.py:11-18 | no index exactly for an empty list; otherwise an index of the list |
| Messages.SelectWeightedRandom | backend/rules_engine/messages.py:11-18 | `None` exactly for an empty list; otherwise an element of the list |
| Messages.ChoiceHasWeight | backend/rules_engine/messages.py:14-18 | the chosen candidate has a positive weight unless every weight was floored to zero |
| Messages.ChoiceDistribution | backend/rules_engine/messages.py:14-18 | the tickets that choose candidate i are exactly i's slice of the cumulative effective weights, so i is chosen in proportion to its weight |
| Messages.MatchRest | backend/rules_engine/messages.py:8 | the tail of a placeholder match ends after a closing `}}` inside the string; with a format group, it is a colon then a non-empty run without `}` before the `}}`, else only whitespace |
| Messages.MatchAt | backend/rules_engine/messages.py:8 | a match consumes at least one character and ends inside the string |
| Messages.MatchAtSound | backend/rules_engine/messages.py:8 | every match spells its groups: the matched text is `{{`, whitespace, the word-character variable, `:agg` when the aggregator is present, `:fmt` when the format is present (with no `}` in it), whitespace when there is no format, and `}}` |
| Messages.MatchAggregatorSound | backend/rules_engine/messages.py:8 | an aggregator group is a colon and a run of word characters, and the rest of the pattern matches right after it |
| Messages.MatchRestSound | backend/rules_engine/messages.py:8 | the format group and trailing whitespace are followed by the closing `}}` where the match ends |
| Messages.NoBracesNoMatch | backend/rules_engine/messages.py:8 | without `{{` no placeholder matches |
| Messages.BarePlaceholder | backend/rules_engine/messages.py:8 | `{{v}}` matches with variable v, no aggregator and no format |
| Messages.FullPlaceholder | backend/rules_engine/messages.py:8 | `{{v:agg:fmt}}` matches with all three groups |
| Messages.FullPlaceholderAt | backend/rules_engine/messages.py:8 | the same match at the start of a string laid out as `{{v:agg:fmt}}…` |
| Messages.FormatWithoutAggregator | backend/rules_engine/messages.py:8 | in `{{hrv:+.1f}}` the text after the colon is the format and the aggregator is absent |
| Messages.AggregatorBacktracks | backend/rules_engine/messages.py:8 | in `{{hrv:mean_3d x}}` the aggregator group is given up on backtracking and `mean_3d x` becomes the format |
| Messages.ScanStep | backend/rules_engine/messages.py:24-44 | one scan step returns the text and warning of what starts at i and a later resume position, consistent with the rendering from i |
| Messages.RenderMessage | backend/rules_engine/messages.py:21-45 | the scan with the `warnings` list built by `repl` returns exactly the rendered text and warnings |
| Messages.NoPlaceholderUnchanged | backend/rules_engine/messages.py:44-45 | a template with no match is returned unchanged with no warnings |
| Messages.WarningsPerPlaceholder | backend/rules_engine/messages.py:24-42 | each placeholder adds at most one warning |
| Messages.ReplacementCases | backend/rules_engine/messages.py:24-42 | the aggregator defaults to `current`; a missing value gives "" and `placeholder var:agg no disponible`; no format gives `str(value)`; a failing format gives `str(value)` and `formato inválido en placeholder var:agg:fmt`; otherwise the formatted value |
| Messages.LonePlaceholder | backend/rules_engine/messages.py:25-39 | the template `{{v}}` renders `str` of the current value, or "" with `placeholder v:current no disponible` |
| Messages.RenderBare | backend/rules_engine/messages.py:25-39 | rendering `{{v}}` is `repl` of its placeholder |
| Messages.RenderSingle | backend/rules_engine/messages.py:44 | a template that is exactly one match renders to that match's replacement |
| Messages.RenderFull | backend/rules_engine/messages.py:24-42 | rendering `{{v:agg:fmt}}` is `repl` of the placeholder with all three groups |
| Messages.BadFormatWarns | backend/rules_engine/messages.py:36-42 | a failing format keeps `str(value)` and warns with the variable, aggregator and format |
| Engine.ActiveCandidates | backend/rules_engine/engine.py:118-122 | a candidate is listed exactly when it is built from an active message of the rule |
| Engine.ActiveCandidatesInOrder | backend/rules_engine/engine.py:118-122 | the comprehension keeps the messages' order and multiplicity: one candidate per active message, nothing for an inactive one, and the list of `a + b` is that of `a` followed by that of `b` |
| Engine.NotRecent | backend/rules_engine/engine.py:150 | a candidate is preferred exactly when it is a candidate whose id was not used recently |
| Engine.NotRecentCounts | backend/rules_engine/engine.py:150 | each candidate not used recently is kept as many times as it occurs; a recently used one not at all |
| Engine.NotRecentAppend | backend/rules_engine/engine.py:150 | the filter keeps the candidates' order: filtering `a + b` is filtering `a` followed by filtering `b` |
| Engine.SelectedMessageIsActive | backend/rules_engine/engine.py:116-157 | no active message gives `(None, "", [])`; otherwise the pool is non-empty, an id is returned, and it belongs to an active message of the rule whose template rendered gives the text and warnings |
| Engine.AntiRepeat | backend/rules_engine/engine.py:126-153 | with a positive anti-repeat window, if some active message was not used in the window, neither was the chosen one |
| Engine.NoWindowNoFilter | backend/rules_engine/engine.py:128-151 | without an anti-repeat window the draw is over all active messages |
| Engine.InsertPermutes | backend/rules_engine/engine.py:162 | an insertion step of the sort permutes |
| Engine.InsertSorted | backend/rules_engine/engine.py:162 | an insertion step keeps the order `(priority, severity)` descending |
| Engine.SortDescSorted | backend/rules_engine/engine.py:162 | the sort returns a permutation ordered by `(priority, severity)` descending |
| Engine.InsertStable | backend/rules_engine/engine.py:162 | an insertion step keeps the input order of equal keys |
| Engine.SortDescStable | backend/rules_engine/engine.py:162 | the sort is stable: events of equal key keep their input order |
| Engine.Truncate | backend/rules_engine/engine.py:181-182 | a positive global cap keeps exactly the first `n` events (all of them when fewer); a cap of 0 or less keeps the list |
| Engine.CategoryCapSubseq | backend/rules_engine/engine.py:174-179 | the per-category loop keeps a subsequence of its input |
| Engine.CategoryCapBound | backend/rules_engine/engine.py:174-179 | with a positive cap no category appears more often than the cap |
| Engine.CategoryCapCount | backend/rules_engine/engine.py:174-179 | with a positive cap each category keeps min(its count, the cap) events |
| Engine.CategoryCapKeepsFirst | backend/rules_engine/engine.py:174-179 | the per-category loop keeps exactly the events that are among the first `cap` of their category in the input, in order |
| Engine.CategoryCapOff | backend/rules_engine/engine.py:174-179 | with a cap of 0 or less every event is kept |
| Engine.ResolveProperties | backend/rules_engine/engine.py:160-183 | the result is the first events of each category (up to a positive category cap) of the stably sorted input, cut to its first `max_recs_per_day` events when that cap is positive; hence it is sorted, draws on the input's events, respects both caps, and with both caps off is the whole sorted input |
| Engine.ResolveConflicts | backend/rules_engine/engine.py:160-183 | the sort, the `per_rule` loop (which changes nothing), the counted per-category loop and the truncation compute `Resolve` |
| Engine.CapCategories | backend/rules_engine/engine.py:170-179 | the loop with its `per_category` counters keeps exactly the events the per-category cap admits |
| Engine.FindRule | backend/rules_engine/engine.py:191 | the row found has the requested id; no row means no rule has that id |
| Engine.CooledMeaning | backend/rules_engine/engine.py:186-208 | the kept events are a subsequence of the input: exactly those whose rule exists and that do not have a positive cooldown with a fired audit dated on or after `day - cooldown_days` |
| Engine.EnforceCooldowns | backend/rules_engine/engine.py:186-208 | the `kept` loop computes `Cooled` |
| Engine.TodayBlocksCooldown | backend/rules_engine/engine.py:194-206 | a fired audit dated `day` blocks every event of a rule with a positive cooldown, because the window includes `day` |
| Engine.AuditStore.Add | backend/rules_engine/engine.py:304-318 | adding an audit appends exactly that row |
| Engine.RuleLoop | backend/rules_engine/engine.py:239-318 | the rule loop's events, audit table and raised error are those of `RunRules` over all rules |
| Engine.ErrorStops | backend/rules_engine/engine.py:276 | once an evaluation raises, later rules change nothing |
| Engine.EvaluateUser | backend/rules_engine/engine.py:239-323 | the loop, then `enforce_cooldowns` against the audit table as the loop left it, then `resolve_conflicts`; an evaluation error propagates and leaves the audits already written |
| Engine.AuditLogGrows | backend/rules_engine/engine.py:303-318 | the loop only appends to the audit table |
| Engine.AuditPerParsedRule | backend/rules_engine/engine.py:239-318 | without an error, exactly one audit per parsed rule is appended, in order, for this user and day, with `fired` equal to the rule's evaluation; it carries a message id exactly when the rule has an active message; rules that fail to parse add none |
| Engine.EventsHaveAudits | backend/rules_engine/engine.py:286-318 | every event kept by the loop has a fired audit of its rule for this user and day |
| Engine.CooldownRulesNeverFire | backend/rules_engine/engine.py:304-322 | every event `evaluate_user` returns belongs to a rule with no positive cooldown |
| Engine.EvaluateUserPriorFires | backend/rules_engine/engine.py:186-208 | the pipeline with `enforce_cooldowns` given the audit table as it stood before the loop |
| Engine.PriorFiresCooldown | backend/rules_engine/engine.py:186-208 | against prior fires, a fired rule with a cooldown is kept exactly when the user has no fired audit of it in the window |
| Slug.SpacesToUnderscores | backend/api/rules.py:14 | same length; every space becomes `_`, every other character is kept |
| Slug.Sanitize | backend/api/rules.py:15-17 | same length; every character outside `a-z0-9_-` becomes `_` |
| Slug.Collapse | backend/api/rules.py:20 | `re.sub("_+", "_")` never lengthens, keeps the first character and keeps every character other than `_`, in order |
| Slug.CollapseAbsorbs | backend/api/rules.py:20 | removing one `_` of a `__` pair does not change the collapse, so each run of `_` becomes one `_` |
| Slug.CollapseNoDouble | backend/api/rules.py:20 | after the collapse no `__` remains |
| Slug.CollapseFixed | backend/api/rules.py:20 | a string without `__` is left unchanged by the collapse |
| Slug.TrimShape | backend/api/rules.py:20 | stripping `_` from both ends of a collapsed, sanitised string gives "" or a slug |
| Slug.RuleIsSlug | backend/api/rules.py:21 | the fallback `rule` is a slug |
| Slug.SlugifyId | backend/api/rules.py:11-21 | the character loop, then the collapse, the strip and the fallback, compute `Slug` |
| Slug.SlugShape | backend/api/rules.py:11-21 | every id is non-empty, uses only `a-z0-9_-`, has no `__` and neither starts nor ends with `_`; an input that sanitises to nothing gives `rule` |
| Slug.CanonicalUnchanged | backend/api/rules.py:11-21 | an id already in slug form is returned unchanged |
| Slug.SlugIdempotent | backend/api/rules.py:11-21 | `_slugify_id(_slugify_id(x)) == _slugify_id(x)` |
| Text.LowerChar | src/data/patient.py:47 | the result is never an upper-case ASCII letter: A-Z become lower-case letters and every other character is kept |
| Text.Lower | src/data/patient.py:47 | `str.lower` keeps the length and lower-cases each character |
| Text.TrimStart | backend/api/rules.py:20 | the leading characters dropped are exactly the longest prefix satisfying the predicate |
| Text.TrimEnd | backend/api/rules.py:20 | the trailing characters dropped are exactly the longest suffix satisfying the predicate |
| Patient.NormalizeSex | src/data/patient.py:44-55 | the result is always `male`, `female` or `unknown` |
| Patient.SexMapping | src/data/patient.py:47-54 | after strip and lower-case, `m`, `male`, `h`, `varon`, `hombre`, `1` give male, `f`, `female`, `mujer`, `0` give female, anything else unknown |
| Patient.TokensDisjoint | src/data/patient.py:48-53 | no token maps to both male and female |
| Patient.SexIgnoresCaseAndPadding | src/data/patient.py:47 | surrounding whitespace and ASCII case do not change the result |
| Patient.KeyIsStable | src/data/patient.py:47 | normalising a key again gives the same key |
| Patient.ToCm | src/data/patient.py:58-67 | a height comes out only within [120, 230] cm |
| Patient.ToCmMeaning | src/data/patient.py:62-66 | exactly the values in (0, 2.5] are scaled by 100; a value comes out exactly when the converted value is in [120, 230] |
| Patient.ToKg | src/data/patient.py:70-76 | a weight comes out unconverted and only within [35, 250] kg |
| Patient.ToKgKeepsRange | src/data/patient.py:73-75 | a weight comes out exactly when it is in [35, 250] |
| Patient.FirstIdColumn | src/data/patient.py:103 | the id column is a column whose lower-cased label is an id alias; none exactly when no label lower-cases to one |
| Patient.FirstIdColumnIsFirst | src/data/patient.py:103-105 | the id column is the first alias column in frame order: when column k is an alias and none before it is, column k is chosen |
| Patient.FirstPresent | src/data/patient.py:111-115 | the chosen label is a candidate and a column; none exactly when no candidate is a column |
| Patient.FirstPresentIsFirst | src/data/patient.py:111-115 | every candidate before the chosen one is absent from the frame |
| Patient.FindColumn | src/data/patient.py:111-115 | the search loop with its `break` returns the first candidate present |
| Patient.MetricsMeaning | src/data/patient.py:151-152 | `height_m` is present exactly with the height and equals it over 100; the BMI is present exactly with height and weight and equals weight over `height_m` squared |
| Patient.StandardizePatientMetadata | src/data/patient.py:96-156 | the result has exactly the seven standard columns; an absent or empty frame gives no rows; otherwise one standardised row per input row, from the chosen columns |
| Patient.StandardRowMeaning | src/data/patient.py:103-152 | each row's id is the first alias column's value or its row number; its sex is `_normalize_sex` of the sex column's text, or `unknown` without one; its age is `to_numeric` of the age column, else the age from the birth column, else NaN; its height and weight are `_to_cm`/`_to_kg` of their columns, else NaN; `height_m` and the BMI are as above |

## Left out

- Database reads and writes: the ORM, sessions, `get_enabled_rules` and `load_base_dataframe`. They become parameters: the rule rows, the audit table (`Engine.AuditStore`) and the history rows. Rules are taken in the order given.
- The `debug` output of `evaluate_user` (`per_rule_debug`, `_jsonable`) and the `values`/`why` snapshots stored in each audit row. They do not affect the events or the audit fields modelled.
- The trailing `{"warnings": …}` entry of an event's `why` is kept in a separate `warnings` field of the event.
- The probability behind `random.choices`. Each draw is an integer ticket, standing for `floor(random() * total)` and taken modulo the total. The tickets are a parameter, one per rule position. The ticket-to-candidate map is modelled exactly.
- Floating-point arithmetic. Values are exact reals. `sqrt`, Python's format-spec mini-language and `str(float)` are parameters.
- `to_numeric`, `astype(str)` and age from date of birth (which reads today's clock) are parameters of the patient standardiser.
- Text.Lower: lower-cases ASCII letters only. Non-ASCII case mappings of `str.lower` (such as the Kelvin sign or a dotted capital I) are not modelled.
- Thresholds that are strings or booleans. A threshold is `null`, a number or a list of numbers and `null`s.
- Pandas' tie order when several rows share a date. The model's sort is stable.
- Features.BuildFeatures: a signal label that appears twice among the history columns (the loader's renames at backend/rules_engine/features.py:64-73 can produce one). The source raises, in `pd.to_numeric` of a two-column selection while loading the frame (features.py:161) or in `add`'s `pd.isna` test of a Series (features.py:201); the model visits the label twice and returns the same map as for one visit.
- Duplicate column labels in the patient data frame. A row maps each label to one cell.
- `_slugify_id` receiving `None`. The `raw or ""` guard is not modelled; the input is always a string.
- `eval_node`'s fallback `return False` for an unparsed node. Every node reaching the evaluator here is one of the five parsed variants.
- The locale of an event is copied from the rule row. Messages are not filtered by locale.
- `select_message_for_rule` raising in `int(choice.get("id"))`. Message ids are integers here, so it cannot raise.
- `version`, `enabled` and `tags` of a stored rule. The rule row's `tags` are not read, and a rule row whose stored tags are not a list of strings fails `RuleModel` validation in the source and is skipped; the model accepts it.
- Pydantic's choice among the `Node` union members for an object that fits more than one. A wire node arrives already tagged with its variant.
- NumPy scalars as the left operand. `current` is read from `iloc[-1]`, so `==` and the orderings against a list threshold broadcast in the source: a one-element list compares element-wise, and `bool()` of a longer result raises. The model compares a number with a list as Python floats do: `==` is false and an ordering raises a TypeError.
- The `anti_repeat_days` setting. `backend/config.py` defines no such attribute. `Engine.Settings.antiRepeatDays` may therefore be `None`, which the engine treats as 0 (`Engine.BackendSettings`).

## Findings

| source | as written | input that shows it | evidently intended | confidence | as-written member | corrected member |
|---|---|---|---|---|---|---|
| backend/rules_engine/engine.py:304-322 | each rule's audit is committed inside the loop, and `enforce_cooldowns` then looks for fired audits dated `>= day - cooldown_days`, a window that includes `day`, so today's own audit suppresses every event of a rule with `cooldown_days > 0` | any rule with `cooldown_days = 3` whose logic is true and which has never fired before: the loop writes its fired audit for `day`, then `enforce_cooldowns` finds that audit and drops the event, so the rule can never fire | the cooldown is checked against fires recorded before this evaluation, so the first fire of a cooling-down rule gets through | not executed | Engine.CooldownRulesNeverFire | Engine.EvaluateUserPriorFires |
