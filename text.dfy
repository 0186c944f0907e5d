/**
 * The string helpers the widget relies on: ASCII lower-casing (`toLowerCase`),
 * whitespace trimming (`trim`), substring search (`includes`) and the
 * checkbox-id sanitiser built from two `replace` calls.
 */
module Text {

  /** The characters matched by `\s` and removed by `trim`: the ASCII whitespace
      and line terminators plus the common Unicode ones. */
  predicate IsSpace(c: char) {
    c == ' ' || c == '\t' || c == '\n' || c == '\r' || c == '\U{000B}' || c == '\U{000C}'
    || c == '\U{00A0}' || c == '\U{2028}' || c == '\U{2029}' || c == '\U{FEFF}'
  }

  predicate IsUpper(c: char) {
    'A' <= c <= 'Z'
  }

  function LowerChar(c: char): (r: char)
    ensures IsUpper(c) ==> 'a' <= r <= 'z' && r as int - 'a' as int == c as int - 'A' as int
    ensures !IsUpper(r)
    ensures IsSpace(r) <==> IsSpace(c)
    ensures !IsUpper(c) ==> r == c
  {
    if IsUpper(c) then (c as int - 'A' as int + 'a' as int) as char else c
  }

  /** `s.toLowerCase()`, restricted to the ASCII letters. */
  function Lower(s: string): (r: string)
    ensures |r| == |s|
  {
    seq(|s|, i requires 0 <= i < |s| => LowerChar(s[i]))
  }

  /** Lower-casing leaves no upper-case letter, keeps whitespace where it was, and changes
      nothing in text without upper-case letters. */
  lemma LowerCases(s: string)
    ensures forall i :: 0 <= i < |s| ==> !IsUpper(Lower(s)[i])
    ensures forall i :: 0 <= i < |s| ==> (IsSpace(Lower(s)[i]) <==> IsSpace(s[i]))
    ensures (forall i :: 0 <= i < |s| ==> !IsUpper(s[i])) ==> Lower(s) == s
  {
  }

  /** `hay.includes(needle)`: `needle` occurs in `hay` at some position. A prefix always
      occurs, and nothing longer than `hay` does. */
  predicate Contains(hay: string, needle: string): (r: bool)
    ensures needle <= hay ==> r
    ensures r ==> |needle| <= |hay|
  {
    assert needle <= hay ==> needle <= hay[0..];
    exists i :: 0 <= i <= |hay| && needle <= hay[i..]
  }

  lemma ContainsEmpty(hay: string)
    ensures Contains(hay, "")
  {
    assert "" <= hay[0..];
  }

  /** `trimStart`: drops the leading whitespace and nothing else. */
  function TrimStart(s: string): (r: string)
    ensures |r| <= |s| && r == s[|s| - |r|..]
    ensures forall k :: 0 <= k < |s| - |r| ==> IsSpace(s[k])
    ensures r == [] || !IsSpace(r[0])
  {
    if s != [] && IsSpace(s[0]) then TrimStart(s[1..]) else s
  }

  /** `trimEnd`: drops the trailing whitespace and nothing else. */
  function TrimEnd(s: string): (r: string)
    ensures |r| <= |s| && r == s[..|r|]
    ensures forall k :: |r| <= k < |s| ==> IsSpace(s[k])
    ensures r == [] || !IsSpace(r[|r| - 1])
  {
    if s != [] && IsSpace(s[|s| - 1]) then TrimEnd(s[..|s| - 1]) else s
  }

  /** `s.trim()`: the slice of `s` left once whitespace is dropped at both ends. */
  function Trim(s: string): (r: string)
    ensures |r| <= |s|
  {
    TrimEnd(TrimStart(s))
  }

  /** The trimmed text has no whitespace at either end, holds only characters of the input,
      and is the input itself when that has no whitespace. */
  lemma TrimShape(s: string)
    ensures Trim(s) == [] || (!IsSpace(Trim(s)[0]) && !IsSpace(Trim(s)[|Trim(s)| - 1]))
    ensures forall i :: 0 <= i < |Trim(s)| ==> Trim(s)[i] in s
    ensures (forall k :: 0 <= k < |s| ==> !IsSpace(s[k])) ==> Trim(s) == s
  {
  }

  /** The trimmed text is empty exactly when the input is all whitespace. */
  lemma TrimEmptyIff(s: string)
    ensures Trim(s) == [] <==> forall k :: 0 <= k < |s| ==> IsSpace(s[k])
  {
    var t := TrimStart(s);
    if t != [] {
      assert TrimEnd(t)[0] == t[0];
    }
  }

  /** A string with no whitespace at either end is its own trim. */
  lemma TrimOfTrimmed(s: string)
    requires s == [] || (!IsSpace(s[0]) && !IsSpace(s[|s| - 1]))
    ensures Trim(s) == s
  {
  }

  lemma TrimIdempotent(s: string)
    ensures Trim(Trim(s)) == Trim(s)
  {
    TrimOfTrimmed(Trim(s));
  }

  /** The search box text `toLowerCase().trim()` is a fixed point of that same normalisation,
      so writing it to the address bar and reading it back into the box changes nothing. */
  lemma NormalizeQueryIdempotent(s: string)
    ensures Trim(Lower(Trim(Lower(s)))) == Trim(Lower(s))
  {
    var q := Trim(Lower(s));
    assert Lower(q) == q;
    TrimIdempotent(Lower(s));
  }

  // ---- Checkbox id sanitiser -------------------------------------------------------

  /** `s.replace(/\//g, '-')`. */
  function ReplaceSlashes(s: string): (r: string)
    ensures |r| == |s|
    ensures forall i :: 0 <= i < |s| ==> r[i] == (if s[i] == '/' then '-' else s[i])
  {
    seq(|s|, i requires 0 <= i < |s| => if s[i] == '/' then '-' else s[i])
  }

  /** `s.replace(/\s+/g, '-')`: every maximal run of whitespace becomes a single `-`. */
  function CollapseSpaces(s: string): (r: string)
    ensures |r| <= |s|
    ensures forall i :: 0 <= i < |r| ==> !IsSpace(r[i])
    ensures '/' !in s ==> '/' !in r
    decreases |s|
  {
    if s == [] then []
    else if IsSpace(s[0]) then ['-'] + CollapseSpaces(TrimStart(s[1..]))
    else [s[0]] + CollapseSpaces(s[1..])
  }

  /** A string with no whitespace passes through the collapse unchanged. */
  lemma {:induction false} CollapseSpacesClean(s: string)
    requires forall i :: 0 <= i < |s| ==> !IsSpace(s[i])
    ensures CollapseSpaces(s) == s
    decreases |s|
  {
    if s != [] {
      CollapseSpacesClean(s[1..]);
    }
  }

  /** The `data-testid` suffix of a specialty checkbox: no `/` and no whitespace survive,
      and the id is never longer than the specialty name. */
  function IdSafe(spec: string): (r: string)
    ensures |r| <= |spec|
    ensures forall i :: 0 <= i < |r| ==> r[i] != '/' && !IsSpace(r[i])
  {
    CollapseSpaces(ReplaceSlashes(spec))
  }

  /** Characters the sanitiser leaves alone. */
  predicate Clean(s: string) {
    forall i :: 0 <= i < |s| ==> s[i] != '/' && !IsSpace(s[i])
  }

  /** A name with no `/` and no whitespace is its own id. */
  lemma IdSafeClean(spec: string)
    requires Clean(spec)
    ensures IdSafe(spec) == spec
  {
    assert ReplaceSlashes(spec) == spec;
    CollapseSpacesClean(spec);
  }

  /** A clean prefix passes through the collapse unchanged. */
  lemma {:induction false} CollapseSpacesCleanPrefix(a: string, t: string)
    requires forall i :: 0 <= i < |a| ==> !IsSpace(a[i])
    ensures CollapseSpaces(a + t) == a + CollapseSpaces(t)
    decreases |a|
  {
    if a == [] {
      assert a + t == t;
    } else {
      assert (a + t)[0] == a[0] && (a + t)[1..] == a[1..] + t;
      CollapseSpacesCleanPrefix(a[1..], t);
      assert a == [a[0]] + a[1..];
    }
  }

  /** Leading whitespace in front of text that does not start with whitespace is all that
      `TrimStart` drops. */
  lemma {:induction false} TrimStartSpaces(w: string, t: string)
    requires forall i :: 0 <= i < |w| ==> IsSpace(w[i])
    requires t == [] || !IsSpace(t[0])
    ensures TrimStart(w + t) == t
    decreases |w|
  {
    if w == [] {
      assert w + t == t;
    } else {
      assert (w + t)[0] == w[0] && (w + t)[1..] == w[1..] + t;
      TrimStartSpaces(w[1..], t);
    }
  }

  /** Regrouping a concatenation. A lemma of its own, so that the proof of CollapseSpacesRun
      does not reason about concatenation beside its quantified premises. */
  lemma Regroup(a: string, b: string, c: string)
    ensures a + b + c == a + (b + c)
  {
  }

  /** A leading run of one or more whitespace characters becomes a single `-`. */
  lemma CollapseLeadingRun(w: string, t: string)
    requires |w| > 0 && forall i :: 0 <= i < |w| ==> IsSpace(w[i])
    requires t == [] || !IsSpace(t[0])
    ensures CollapseSpaces(w + t) == "-" + CollapseSpaces(t)
  {
    var run := w + t;
    assert run[0] == w[0];
    assert run[1..] == w[1..] + t;
    TrimStartSpaces(w[1..], t);
  }

  /** A run of one or more whitespace characters after a clean prefix becomes a single `-`,
      and the collapse carries on with the text after the run. */
  lemma CollapseSpacesRun(a: string, w: string, t: string)
    requires forall i :: 0 <= i < |a| ==> !IsSpace(a[i])
    requires |w| > 0 && forall i :: 0 <= i < |w| ==> IsSpace(w[i])
    requires t == [] || !IsSpace(t[0])
    ensures CollapseSpaces(a + w + t) == a + "-" + CollapseSpaces(t)
  {
    Regroup(a, w, t);
    CollapseSpacesCleanPrefix(a, w + t);
    CollapseLeadingRun(w, t);
    Regroup(a, "-", CollapseSpaces(t));
  }

  lemma ReplaceSlashesJoin(a: string, sep: char, b: string)
    requires Clean(a) && Clean(b)
    ensures ReplaceSlashes(a + [sep] + b) == a + [if sep == '/' then '-' else sep] + b
  {
  }

  /** One whitespace character followed by a clean word collapses to a `-` before the word. */
  lemma CollapseSpaceWord(sep: char, b: string)
    requires IsSpace(sep) && Clean(b)
    ensures CollapseSpaces([sep] + b) == "-" + b
  {
    assert ([sep] + b)[1..] == b;
    CollapseSpacesClean(b);
  }

  /** A single `/` or whitespace character between two clean words becomes one `-`. */
  lemma IdSafeJoin(a: string, sep: char, b: string)
    requires sep == '/' || IsSpace(sep)
    requires Clean(a) && Clean(b)
    ensures IdSafe(a + [sep] + b) == a + "-" + b
  {
    var c := if sep == '/' then '-' else sep;
    ReplaceSlashesJoin(a, sep, b);
    assert a + [c] + b == a + ([c] + b);
    CollapseSpacesCleanPrefix(a, [c] + b);
    if sep == '/' {
      CollapseSpacesClean([c] + b);
    } else {
      CollapseSpaceWord(sep, b);
    }
  }

  lemma IdSafeSlashExample()
    ensures IdSafe("Dietitian/Nutritionist") == "Dietitian-Nutritionist"
  {
    assert "Dietitian/Nutritionist" == "Dietitian" + ['/'] + "Nutritionist";
    assert Clean("Dietitian") && Clean("Nutritionist");
    IdSafeJoin("Dietitian", '/', "Nutritionist");
    assert "Dietitian" + "-" + "Nutritionist" == "Dietitian-Nutritionist";
  }

  lemma IdSafeSpaceExample()
    ensures IdSafe("General Physician") == "General-Physician"
  {
    assert "General Physician" == "General" + [' '] + "Physician";
    assert Clean("General") && Clean("Physician");
    IdSafeJoin("General", ' ', "Physician");
    assert "General" + "-" + "Physician" == "General-Physician";
  }

  lemma IdSafeCleanExample()
    ensures IdSafe("ENT") == "ENT"
  {
    assert Clean("ENT");
    IdSafeClean("ENT");
  }
}
