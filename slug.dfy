/**
 * `_slugify_id`: rule ids normalised to lower-case letters, digits, `_` and
 * `-`, with runs of `_` collapsed and no `_` at either end.
 * Source: backend/api/rules.py, lines 11-21.
 */
module Slug {
  import opened Text

  /** The characters of `allowed`: `abcdefghijklmnopqrstuvwxyz0123456789_-`. */
  predicate Allowed(c: char) {
    IsAsciiLower(c) || IsDigit(c) || c == '_' || c == '-'
  }

  predicate IsUnderscore(c: char) {
    c == '_'
  }

  predicate NoDoubleUnderscore(s: string) {
    forall i :: 0 <= i < |s| - 1 ==> !(s[i] == '_' && s[i + 1] == '_')
  }

  /** The shape every id produced here has. */
  predicate IsSlug(s: string) {
    && s != []
    && (forall i :: 0 <= i < |s| ==> Allowed(s[i]))
    && NoDoubleUnderscore(s)
    && s[0] != '_' && s[|s| - 1] != '_'
  }

  /** `.replace(" ", "_")`. */
  function SpacesToUnderscores(s: string): (r: string)
    ensures |r| == |s|
    ensures forall i :: 0 <= i < |s| ==> r[i] == if s[i] == ' ' then '_' else s[i]
  {
    if s == [] then [] else [if s[0] == ' ' then '_' else s[0]] + SpacesToUnderscores(s[1..])
  }

  /** The loop over the characters: each disallowed character becomes `_`. */
  function Sanitize(s: string): (r: string)
    ensures |r| == |s|
    ensures forall i :: 0 <= i < |s| ==> r[i] == if Allowed(s[i]) then s[i] else '_'
  {
    if s == [] then [] else Sanitize(s[..|s| - 1]) + [if Allowed(s[|s| - 1]) then s[|s| - 1] else '_']
  }

  /** The characters of s other than `_`, in order. */
  function Others(s: string): string {
    if s == [] then [] else (if s[0] == '_' then [] else [s[0]]) + Others(s[1..])
  }

  /** `re.sub(r"_+", "_", s)`: every run of `_` shrinks to one. */
  function Collapse(s: string): (r: string)
    ensures |r| <= |s|
    ensures s != [] ==> r != [] && r[0] == s[0]
    ensures forall i :: 0 <= i < |r| ==> r[i] in s
    ensures Others(r) == Others(s)
  {
    if |s| <= 1 then s
    else if s[0] == '_' && s[1] == '_' then Collapse(s[1..])
    else [s[0]] + Collapse(s[1..])
  }

  /** `(raw or "").strip().lower().replace(" ", "_")`. */
  function Prepare(raw: string): string {
    SpacesToUnderscores(Lower(Strip(raw)))
  }

  /** `_slugify_id(raw)`. */
  function Slug(raw: string): string {
    var val := TrimEnd(TrimStart(Collapse(Sanitize(Prepare(raw))), IsUnderscore), IsUnderscore);
    if val == [] then "rule" else val
  }

  /** `_slugify_id`: the character loop, then the collapse, the strip and the fallback. */
  method SlugifyId(raw: string) returns (slug: string)
    ensures slug == Slug(raw)
  {
    var s := Prepare(raw);
    var out := "";
    for i := 0 to |s|
      invariant out == Sanitize(s[..i])
    {
      var ch := s[i];
      out := out + [if Allowed(ch) then ch else '_'];
      assert s[..i + 1][..i] == s[..i];
    }
    assert s[..|s|] == s;
    var val := TrimEnd(TrimStart(Collapse(out), IsUnderscore), IsUnderscore);
    slug := if val == [] then "rule" else val;
  }

  lemma {:induction false} CollapseNoDouble(s: string)
    ensures NoDoubleUnderscore(Collapse(s))
  {
    if |s| > 1 {
      CollapseNoDouble(s[1..]);
      if !(s[0] == '_' && s[1] == '_') {
        var r := Collapse(s);
        var t := Collapse(s[1..]);
        assert r == [s[0]] + t;
        forall i | 0 <= i < |r| - 1 ensures !(r[i] == '_' && r[i + 1] == '_') {
          if i > 0 {
            assert r[i] == t[i - 1] && r[i + 1] == t[i];
          }
        }
      }
    }
  }

  /**
   * Dropping one `_` of a `__` pair does not change the collapse. With
   * `CollapseFixed` and `CollapseNoDouble` this pins the collapse down: each
   * run of `_` becomes a single `_` in place, and nothing else changes.
   */
  lemma {:induction false} CollapseAbsorbs(s: string, i: nat)
    requires i + 1 < |s| && s[i] == '_' && s[i + 1] == '_'
    ensures Collapse(s[..i] + s[i + 1..]) == Collapse(s)
  {
    var t := s[..i] + s[i + 1..];
    if i == 0 {
      assert t == s[1..];
    } else if i == 1 {
      assert t == [s[0]] + s[2..];
      assert t[1..] == s[2..] && s[1..][1..] == s[2..];
    } else {
      assert t[0] == s[0] && t[1] == s[1];
      assert t[1..] == s[1..][..i - 1] + s[1..][i..];
      CollapseAbsorbs(s[1..], i - 1);
    }
  }

  /** A string with no run of two `_` is left as it is by the collapse. */
  lemma {:induction false} CollapseFixed(s: string)
    requires NoDoubleUnderscore(s)
    ensures Collapse(s) == s
  {
    if |s| > 1 {
      assert NoDoubleUnderscore(s[1..]) by {
        forall i | 0 <= i < |s[1..]| - 1 ensures !(s[1..][i] == '_' && s[1..][i + 1] == '_') {
          assert s[1..][i] == s[i + 1] && s[1..][i + 1] == s[i + 2];
        }
      }
      CollapseFixed(s[1..]);
      assert s == [s[0]] + s[1..];
    }
  }

  lemma SubstringKeepsShape(s: string, a: nat, b: nat)
    requires a <= b <= |s|
    requires forall i :: 0 <= i < |s| ==> Allowed(s[i])
    requires NoDoubleUnderscore(s)
    ensures forall i :: 0 <= i < b - a ==> Allowed(s[a..b][i])
    ensures NoDoubleUnderscore(s[a..b])
  {
    forall i | 0 <= i < b - a - 1 ensures !(s[a..b][i] == '_' && s[a..b][i + 1] == '_') {
      assert s[a..b][i] == s[a + i] && s[a..b][i + 1] == s[a + i + 1];
    }
  }

  /** Stripping `_` from both ends of a collapsed, sanitised string leaves a slug or nothing. */
  lemma TrimShape(c: string)
    requires forall i :: 0 <= i < |c| ==> Allowed(c[i])
    requires NoDoubleUnderscore(c)
    ensures var val := TrimEnd(TrimStart(c, IsUnderscore), IsUnderscore);
            val == [] || IsSlug(val)
  {
    var t := TrimStart(c, IsUnderscore);
    var val := TrimEnd(t, IsUnderscore);
    SubstringKeepsShape(c, |c| - |t|, |c|);
    SubstringKeepsShape(t, 0, |val|);
    if val != [] {
      assert val[0] == t[0];
    }
  }

  lemma RuleIsSlug()
    ensures IsSlug("rule")
  {
    var r := "rule";
    assert Allowed(r[0]) && Allowed(r[1]) && Allowed(r[2]) && Allowed(r[3]);
  }

  /**
   * Every id `_slugify_id` returns is non-empty, uses only the allowed
   * characters, has no `__` and neither starts nor ends with `_`; an input
   * that sanitises to nothing gives `rule`.
   */
  lemma SlugShape(raw: string)
    ensures IsSlug(Slug(raw))
    ensures TrimEnd(TrimStart(Collapse(Sanitize(Prepare(raw))), IsUnderscore), IsUnderscore) == [] ==> Slug(raw) == "rule"
  {
    var c := Collapse(Sanitize(Prepare(raw)));
    CollapseNoDouble(Sanitize(Prepare(raw)));
    TrimShape(c);
    RuleIsSlug();
  }

  lemma CanonicalUnchangedBySteps(s: string)
    requires IsSlug(s)
    ensures Prepare(s) == s
    ensures Sanitize(s) == s
  {
    SlugIsStripped(s);
    SlugIsLower(s);
    SlugHasNoSpaces(s);
  }

  lemma SlugIsStripped(s: string)
    requires IsSlug(s)
    ensures Strip(s) == s
  {
    assert Allowed(s[0]) && Allowed(s[|s| - 1]);
    assert !IsSpace(s[0]) && !IsSpace(s[|s| - 1]);
    assert TrimStart(s, IsSpace) == s;
  }

  lemma SlugIsLower(s: string)
    requires IsSlug(s)
    ensures Lower(s) == s
  {
    forall i | 0 <= i < |s| ensures Lower(s)[i] == s[i] {
      assert Allowed(s[i]);
    }
  }

  lemma SlugHasNoSpaces(s: string)
    requires IsSlug(s)
    ensures SpacesToUnderscores(s) == s
    ensures Sanitize(s) == s
  {
    forall i | 0 <= i < |s| ensures SpacesToUnderscores(s)[i] == s[i] && Sanitize(s)[i] == s[i] {
      assert Allowed(s[i]);
    }
  }

  /** An id already in slug form is returned unchanged. */
  lemma CanonicalUnchanged(s: string)
    requires IsSlug(s)
    ensures Slug(s) == s
  {
    CanonicalUnchangedBySteps(s);
    CollapseFixed(s);
    assert !IsUnderscore(s[0]) && !IsUnderscore(s[|s| - 1]);
    var t := TrimStart(s, IsUnderscore);
    assert t == s;
    assert TrimEnd(t, IsUnderscore) == s;
  }

  /** `_slugify_id` is idempotent. */
  lemma SlugIdempotent(raw: string)
    ensures Slug(Slug(raw)) == Slug(raw)
  {
    SlugShape(raw);
    CanonicalUnchanged(Slug(raw));
  }
}
