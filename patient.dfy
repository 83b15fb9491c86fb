/**
 * Patient metadata normalisation: the sex-token mapping, the height and
 * weight conversions with their valid ranges, and the choice of source
 * columns in `standardize_patient_metadata`.
 * Source: src/data/patient.py, lines 44-156.
 */
module Patient {
  import opened Wrappers
  import opened Text

  // ---------------------------------------------------------------------------
  // Element-wise normalisers

  predicate IsMaleToken(key: string) {
    key == "m" || key == "male" || key == "h" || key == "varon" || key == "hombre" || key == "1"
  }

  predicate IsFemaleToken(key: string) {
    key == "f" || key == "female" || key == "mujer" || key == "0"
  }

  /** `_normalize_sex` for one value already turned into text by `astype(str)`. */
  function NormalizeSex(value: string): (r: string)
    ensures r == "male" || r == "female" || r == "unknown"
  {
    var key := Lower(Strip(value));
    if IsMaleToken(key) then "male" else if IsFemaleToken(key) then "female" else "unknown"
  }

  /** The mapping after strip and lower-casing: male tokens, female tokens, everything else unknown. */
  lemma SexMapping(value: string)
    ensures var key := Lower(Strip(value));
            && (NormalizeSex(value) == "male" <==> IsMaleToken(key))
            && (NormalizeSex(value) == "female" <==> IsFemaleToken(key))
            && (NormalizeSex(value) == "unknown" <==> !IsMaleToken(key) && !IsFemaleToken(key))
  {
    TokensDisjoint(Lower(Strip(value)));
  }

  lemma TokensDisjoint(key: string)
    ensures !(IsMaleToken(key) && IsFemaleToken(key))
  {
    if IsMaleToken(key) && |key| > 0 {
      if key[0] == 'm' {
        assert |key| == 1 || key[1] == 'a';
        assert "mujer"[1] == 'u';
      }
    }
  }

  /** Surrounding whitespace and ASCII case do not matter. */
  lemma SexIgnoresCaseAndPadding(value: string)
    ensures NormalizeSex(Lower(Strip(value))) == NormalizeSex(value)
  {
    KeyIsStable(value);
  }

  /** Normalising the key of a value again gives the same key. */
  lemma KeyIsStable(value: string)
    ensures Lower(Strip(Lower(Strip(value)))) == Lower(Strip(value))
  {
    var t := Strip(value);
    calc {
      Lower(Strip(Lower(t)));
      { LowerStripCommute(t); }
      Lower(Lower(Strip(t)));
      { StripIdempotent(value); }
      Lower(Lower(t));
      { LowerIdempotent(t); }
      Lower(t);
    }
  }

  lemma {:induction false} LowerIdempotent(s: string)
    ensures Lower(Lower(s)) == Lower(s)
  {
    if s != [] {
      LowerIdempotent(s[1..]);
    }
  }

  /** Lower-casing neither adds nor removes whitespace, so it commutes with `strip`. */
  lemma LowerStripCommute(s: string)
    ensures Strip(Lower(s)) == Lower(Strip(s))
  {
    LowerTrimStart(s);
    var t := TrimStart(s, IsSpace);
    LowerTrimEnd(t);
  }

  lemma {:induction false} LowerTrimStart(s: string)
    ensures TrimStart(Lower(s), IsSpace) == Lower(TrimStart(s, IsSpace))
  {
    if s != [] {
      var l := Lower(s);
      assert l[1..] == Lower(s[1..]);
      LowerKeepsSpace(s[0]);
      LowerTrimStart(s[1..]);
    }
  }

  lemma {:induction false} LowerTrimEnd(s: string)
    ensures TrimEnd(Lower(s), IsSpace) == Lower(TrimEnd(s, IsSpace))
  {
    if s != [] {
      var init := s[..|s| - 1];
      var l := Lower(s);
      assert l[..|l| - 1] == Lower(init);
      LowerKeepsSpace(s[|s| - 1]);
      LowerTrimEnd(init);
    }
  }

  lemma LowerKeepsSpace(c: char)
    ensures IsSpace(LowerChar(c)) == IsSpace(c)
  {
  }

  lemma StripIdempotent(s: string)
    ensures Strip(Strip(s)) == Strip(s)
  {
    var t := Strip(s);
    if t != [] {
      var u := TrimStart(s, IsSpace);
      assert t == u[..|t|];
      assert t[0] == u[0];
    }
  }

  /** `_to_cm` for one value after `to_numeric`: metres in (0, 2.5] are scaled, then only [120, 230] is kept. */
  function ToCm(x: Option<real>): (r: Option<real>)
    ensures r.Some? ==> 120.0 <= r.value <= 230.0
  {
    match x
    case None => None
    case Some(v) =>
      var cm := if 0.0 < v <= 2.5 then v * 100.0 else v;
      if 120.0 <= cm <= 230.0 then Some(cm) else None
  }

  /** The scaling applies exactly to (0, 2.5]; a value comes out only if the converted value is in range. */
  lemma ToCmMeaning(v: real)
    ensures 0.0 < v <= 2.5 ==> (ToCm(Some(v)).Some? <==> 1.2 <= v <= 2.3)
    ensures 0.0 < v <= 2.5 && ToCm(Some(v)).Some? ==> ToCm(Some(v)).value == v * 100.0
    ensures !(0.0 < v <= 2.5) ==> ToCm(Some(v)) == if 120.0 <= v <= 230.0 then Some(v) else None
  {
  }

  /** `_to_kg` for one value after `to_numeric`: no conversion, only [35, 250] is kept. */
  function ToKg(x: Option<real>): (r: Option<real>)
    ensures r.Some? ==> 35.0 <= r.value <= 250.0
    ensures r.Some? ==> r == x
  {
    match x
    case None => None
    case Some(v) => if 35.0 <= v <= 250.0 then Some(v) else None
  }

  lemma ToKgKeepsRange(v: real)
    ensures ToKg(Some(v)).Some? <==> 35.0 <= v <= 250.0
  {
  }

  // ---------------------------------------------------------------------------
  // Frames

  /** A cell of the input frame. */
  datatype Cell = Missing | Int(n: int) | Num(x: real) | Text(s: string)

  /** A data frame: its column labels in order and one mapping per row. */
  datatype Frame = Frame(columns: seq<string>, rows: seq<map<string, Cell>>)

  function Get(row: map<string, Cell>, column: string): Cell {
    if column in row then row[column] else Missing
  }

  /**
   * The cell conversions the frame operations perform: `astype(str)`,
   * `to_numeric(errors="coerce")` and `_compute_age_years` (which reads
   * today's date).
   */
  datatype Conversions = Conversions(asText: Cell -> string, toNumeric: Cell -> Option<real>,
                                     ageFromBirth: Cell -> Option<real>)

  const StandardColumns: seq<string> := ["patient_id", "sex", "age_years", "height_cm", "weight_kg", "height_m", "bmi"]

  /** A row of the standardised frame. */
  datatype PatientRow = PatientRow(patientId: Cell, sex: string, ageYears: Option<real>, heightCm: Option<real>,
                                   weightKg: Option<real>, heightM: Option<real>, bmi: Option<real>)

  datatype Standardized = Standardized(columns: seq<string>, rows: seq<PatientRow>)

  const IdAliases: set<string> := {"patient_id", "id", "user_id", "subject_id"}

  /** `c.lower() in {"patient_id", "id", "user_id", "subject_id"}`. */
  predicate IsIdAlias(c: string) {
    Lower(c) in IdAliases
  }

  /** The first column, in frame order, whose lower-cased label is an id alias. */
  function FirstIdColumn(columns: seq<string>): (r: Option<string>)
    ensures r.Some? ==> r.value in columns && IsIdAlias(r.value)
    ensures r.None? ==> forall c :: c in columns ==> !IsIdAlias(c)
  {
    if columns == [] then None
    else if IsIdAlias(columns[0]) then Some(columns[0])
    else FirstIdColumn(columns[1..])
  }

  /** `id_cols[0]`: an alias column with no alias column before it is the one chosen. */
  lemma {:induction false} FirstIdColumnIsFirst(columns: seq<string>, k: nat)
    requires k < |columns| && IsIdAlias(columns[k])
    requires forall j :: 0 <= j < k ==> !IsIdAlias(columns[j])
    ensures FirstIdColumn(columns) == Some(columns[k])
  {
    if k > 0 {
      assert !IsIdAlias(columns[0]);
      assert forall j :: 0 <= j < k - 1 ==> columns[1..][j] == columns[j + 1];
      FirstIdColumnIsFirst(columns[1..], k - 1);
    }
  }

  /** The first candidate label that is a column. */
  function FirstPresent(candidates: seq<string>, columns: seq<string>): (r: Option<string>)
    ensures r.Some? ==> r.value in candidates && r.value in columns
    ensures r.None? ==> forall c :: c in candidates ==> c !in columns
  {
    if candidates == [] then None
    else if candidates[0] in columns then Some(candidates[0])
    else FirstPresent(candidates[1..], columns)
  }

  /** Every candidate before the chosen one is absent. */
  lemma FirstPresentIsFirst(candidates: seq<string>, columns: seq<string>, k: nat)
    requires k < |candidates| && FirstPresent(candidates, columns) == Some(candidates[k])
    requires forall i, j :: 0 <= i < j < |candidates| ==> candidates[i] != candidates[j]
    ensures forall i :: 0 <= i < k ==> candidates[i] !in columns
  {
    if candidates[0] !in columns {
      FirstPresentIsFirst(candidates[1..], columns, k - 1);
    }
  }

  /** The `for cand in [...]: if cand in out.columns: ...; break` search. */
  method FindColumn(candidates: seq<string>, columns: seq<string>) returns (found: Option<string>)
    ensures found == FirstPresent(candidates, columns)
  {
    found := None;
    for i := 0 to |candidates|
      invariant FirstPresent(candidates, columns) == FirstPresent(candidates[i..], columns)
    {
      assert candidates[i..][1..] == candidates[i + 1..];
      if candidates[i] in columns {
        found := Some(candidates[i]);
        return;
      }
    }
  }

  /** The candidate labels for each field, in the order they are tried. */
  const SexColumns: seq<string> := ["sex", "gender", "sexo"]
  const AgeColumns: seq<string> := ["age_years", "age", "edad"]
  const BirthColumns: seq<string> := ["date_of_birth", "birth_date", "dob", "birthdate"]
  const HeightColumns: seq<string> := ["height_cm", "height", "height_m", "stature_cm"]
  const WeightColumns: seq<string> := ["weight_kg", "weight", "peso_kg"]

  /** The columns chosen for each standard field. */
  datatype Sources = Sources(id: Option<string>, sex: Option<string>, age: Option<string>, birth: Option<string>,
                             height: Option<string>, weight: Option<string>)

  function ChooseSources(columns: seq<string>): Sources {
    Sources(FirstIdColumn(columns),
            FirstPresent(SexColumns, columns),
            FirstPresent(AgeColumns, columns),
            FirstPresent(BirthColumns, columns),
            FirstPresent(HeightColumns, columns),
            FirstPresent(WeightColumns, columns))
  }

  function Quotient(a: Option<real>, b: Option<real>): Option<real> {
    if a.Some? && b.Some? && b.value != 0.0 then Some(a.value / b.value) else None
  }

  /** Row i of the standardised frame. */
  function StandardRow(row: map<string, Cell>, i: nat, src: Sources, conv: Conversions): PatientRow {
    var id := if src.id.Some? then Get(row, src.id.value) else Int(i);
    var sex := if src.sex.Some? then NormalizeSex(conv.asText(Get(row, src.sex.value))) else "unknown";
    var age := if src.age.Some? then conv.toNumeric(Get(row, src.age.value))
               else if src.birth.Some? then conv.ageFromBirth(Get(row, src.birth.value))
               else None;
    var height := if src.height.Some? then ToCm(conv.toNumeric(Get(row, src.height.value))) else None;
    var weight := if src.weight.Some? then ToKg(conv.toNumeric(Get(row, src.weight.value))) else None;
    PatientRow(id, sex, age, height, weight, Metres(height), Bmi(weight, Metres(height)))
  }

  /** `height_cm / 100`. */
  function Metres(heightCm: Option<real>): Option<real> {
    if heightCm.Some? then Some(heightCm.value / 100.0) else None
  }

  /** `weight_kg / height_m ** 2`, absent when either is absent (or the height is zero). */
  function Bmi(weightKg: Option<real>, heightM: Option<real>): Option<real> {
    if heightM.Some? then Quotient(weightKg, Some(heightM.value * heightM.value)) else None
  }

  /** For a height in range, `height_m` is the height in metres and the BMI is present exactly with a weight. */
  lemma MetricsMeaning(heightCm: Option<real>, weightKg: Option<real>)
    requires heightCm.Some? ==> heightCm.value >= 120.0
    ensures Metres(heightCm).Some? <==> heightCm.Some?
    ensures Metres(heightCm).Some? ==> Metres(heightCm).value * 100.0 == heightCm.value
    ensures Bmi(weightKg, Metres(heightCm)).Some? <==> heightCm.Some? && weightKg.Some?
    ensures Bmi(weightKg, Metres(heightCm)).Some? ==>
              Bmi(weightKg, Metres(heightCm)).value * (Metres(heightCm).value * Metres(heightCm).value) == weightKg.value
  {
    if heightCm.Some? {
      HeightMetres(heightCm.value, if weightKg.Some? then weightKg.value else 0.0);
    }
  }

  /** `df is None or df.empty`. */
  predicate IsEmpty(df: Option<Frame>) {
    df.None? || df.value.columns == [] || df.value.rows == []
  }

  /**
   * `standardize_patient_metadata(df)`: the column searches, then one
   * standardised row per input row.
   */
  method StandardizePatientMetadata(df: Option<Frame>, conv: Conversions) returns (out: Standardized)
    ensures out.columns == StandardColumns
    ensures IsEmpty(df) ==> out.rows == []
    ensures !IsEmpty(df) ==>
              var src := ChooseSources(df.value.columns);
              && |out.rows| == |df.value.rows|
              && forall i :: 0 <= i < |out.rows| ==> out.rows[i] == StandardRow(df.value.rows[i], i, src, conv)
  {
    if IsEmpty(df) {
      return Standardized(StandardColumns, []);
    }
    var frame := df.value;
    var id := FirstIdColumn(frame.columns);
    var sex := FindColumn(SexColumns, frame.columns);
    var age := FindColumn(AgeColumns, frame.columns);
    var birth := FindColumn(BirthColumns, frame.columns);
    var height := FindColumn(HeightColumns, frame.columns);
    var weight := FindColumn(WeightColumns, frame.columns);
    var src := Sources(id, sex, age, birth, height, weight);
    assert src == ChooseSources(frame.columns);
    var rows := seq(|frame.rows|, i requires 0 <= i < |frame.rows| => StandardRow(frame.rows[i], i, src, conv));
    out := Standardized(StandardColumns, rows);
  }

  lemma HeightMetres(cm: real, kg: real)
    requires cm >= 120.0
    ensures (cm / 100.0) * 100.0 == cm
    ensures (cm / 100.0) * (cm / 100.0) != 0.0
    ensures (kg / ((cm / 100.0) * (cm / 100.0))) * ((cm / 100.0) * (cm / 100.0)) == kg
  {
    var m := cm / 100.0;
    assert m >= 1.2;
    var sq := m * m;
    assert sq >= 1.2 * m;
    var q := kg / sq;
    assert q * sq == kg;
  }

  /**
   * Every standardised row has a sex of `male`, `female` or `unknown`, a
   * height in [120, 230] cm and a weight in [35, 250] kg when present,
   * `height_m` equal to the height over 100, and the BMI as weight over
   * `height_m` squared exactly when both are present.
   */
  lemma StandardRowMeaning(row: map<string, Cell>, i: nat, src: Sources, conv: Conversions)
    ensures var p := StandardRow(row, i, src, conv);
            && (p.sex == "male" || p.sex == "female" || p.sex == "unknown")
            && (src.sex.None? ==> p.sex == "unknown")
            && (src.sex.Some? ==> p.sex == NormalizeSex(conv.asText(Get(row, src.sex.value))))
            && (src.age.Some? ==> p.ageYears == conv.toNumeric(Get(row, src.age.value)))
            && (src.age.None? && src.birth.Some? ==> p.ageYears == conv.ageFromBirth(Get(row, src.birth.value)))
            && (src.age.None? && src.birth.None? ==> p.ageYears.None?)
            && (src.height.None? ==> p.heightCm.None?)
            && (src.height.Some? ==> p.heightCm == ToCm(conv.toNumeric(Get(row, src.height.value))))
            && (src.weight.None? ==> p.weightKg.None?)
            && (src.weight.Some? ==> p.weightKg == ToKg(conv.toNumeric(Get(row, src.weight.value))))
            && (p.heightCm.Some? ==> 120.0 <= p.heightCm.value <= 230.0)
            && (p.weightKg.Some? ==> 35.0 <= p.weightKg.value <= 250.0)
            && (p.heightM.Some? <==> p.heightCm.Some?)
            && (p.heightM.Some? ==> p.heightM.value * 100.0 == p.heightCm.value)
            && (p.bmi.Some? <==> p.heightCm.Some? && p.weightKg.Some?)
            && (p.bmi.Some? ==> p.bmi.value * (p.heightM.value * p.heightM.value) == p.weightKg.value)
            && (src.id.None? ==> p.patientId == Int(i))
            && (src.id.Some? ==> p.patientId == Get(row, src.id.value))
  {
    var p := StandardRow(row, i, src, conv);
    MetricsMeaning(p.heightCm, p.weightKg);
  }
}
