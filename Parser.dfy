/** The free-text ingredient normaliser `smartParseIngredients` (index.tsx).

    Each non-blank line is trimmed and matched against
    `^(\d+(?:\.\d+)?)\s*([a-zA-Z]+)?\s+(.*)$`. The regular expression is written here
    as a scanner that computes the match a backtracking engine settles on:

    - the digit run and its optional `.digits` fraction are taken whole, because a
      shorter choice leaves a digit or a `.` where `\s`, a letter or the end is needed;
    - with the full `\s*` run, a letter run is the unit only when the whole run is
      followed by whitespace, and `(.*)` then starts after the maximal `\s+` run;
    - failing that, at least one whitespace character after the number lets `\s*` give
      its last character back to `\s+`, the unit is absent and `(.*)` starts at the
      first non-space character;
    - `(.*)` must reach the end of the line, so the remainder may hold no line terminator. */
module Parser {
  import opened Types
  import opened Text

  predicate IsDigit(c: char) { '0' <= c <= '9' }

  predicate IsLetter(c: char) { ('a' <= c <= 'z') || ('A' <= c <= 'Z') }

  /** The end of the longest run of characters satisfying `p` that starts at `i`. */
  function Run(s: string, i: nat, p: char -> bool): (j: nat)
    requires i <= |s|
    ensures i <= j <= |s|
    decreases |s| - i
  {
    if i < |s| && p(s[i]) then Run(s, i + 1, p) else i
  }

  /** A run is made of characters satisfying `p` and stops at one that does not. */
  lemma {:induction false} RunFacts(s: string, i: nat, p: char -> bool)
    requires i <= |s|
    ensures forall k :: i <= k < Run(s, i, p) ==> p(s[k])
    ensures Run(s, i, p) == |s| || !p(s[Run(s, i, p)])
    decreases |s| - i
  {
    if i < |s| && p(s[i]) { RunFacts(s, i + 1, p); }
  }

  /** A run is determined by where it stops. */
  lemma {:induction false} RunIs(s: string, i: nat, j: nat, p: char -> bool)
    requires i <= j <= |s|
    requires forall k :: i <= k < j ==> p(s[k])
    requires j == |s| || !p(s[j])
    ensures Run(s, i, p) == j
    decreases j - i
  {
    if i < j { RunIs(s, i + 1, j, p); }
  }

  predicate NoTerminator(s: string)
  {
    forall k :: 0 <= k < |s| ==> !IsLineTerminator(s[k])
  }

  predicate AllDigits(s: string) { forall k :: 0 <= k < |s| ==> IsDigit(s[k]) }

  predicate AllLetters(s: string) { forall k :: 0 <= k < |s| ==> IsLetter(s[k]) }

  function DigitValue(c: char): nat
  {
    if IsDigit(c) then c as int - '0' as int else 0
  }

  /** The decimal value of a string of digits. */
  function DigitsValue(d: string): nat
  {
    if d == [] then 0 else 10 * DigitsValue(d[..|d| - 1]) + DigitValue(d[|d| - 1])
  }

  /** The value of the digits after a decimal point. */
  function FractionValue(f: string): (v: real)
    ensures 0.0 <= v <= 1.0
  {
    if f == [] then 0.0 else (DigitValue(f[0]) as real + FractionValue(f[1..])) / 10.0
  }

  /** `parseFloat` of `whole` or of `whole.frac`. */
  function DecimalValue(whole: string, frac: string): (v: real)
    ensures v >= 0.0
  {
    DigitsValue(whole) as real + FractionValue(frac)
  }

  /** The text of the number group: `whole`, or `whole.frac` when there is a fraction. */
  function NumberText(whole: string, frac: string): string
  {
    if frac == [] then whole else whole + "." + frac
  }

  /** What the regular expression captured, together with the two whitespace runs
      (`\s*` and `\s+`) it consumed. */
  datatype LineMatch = LineMatch(
    whole: string, frac: string, gap1: string, unit: Option<string>, gap2: string, rest: string)

  function UnitText(u: Option<string>): string
  {
    if u.Some? then u.value else []
  }

  /** The line a match was taken from. */
  function Matched(m: LineMatch): string
  {
    NumberText(m.whole, m.frac) + m.gap1 + UnitText(m.unit) + m.gap2 + m.rest
  }

  /** Each part of a match belongs to the class its group of the pattern allows. */
  predicate WellFormed(m: LineMatch)
  {
    && |m.whole| > 0 && AllDigits(m.whole)
    && AllDigits(m.frac)
    && AllSpaces(m.gap1)
    && (m.unit.Some? ==> |m.unit.value| > 0 && AllLetters(m.unit.value))
    && |m.gap2| > 0 && AllSpaces(m.gap2)
    && NoTerminator(m.rest)
  }

  /** A `.` followed by a digit starts a fraction at `p`. */
  predicate HasFrac(t: string, p: nat)
  {
    p + 1 < |t| && t[p] == '.' && IsDigit(t[p + 1])
  }

  /** The end of the number group whose integer digits end at `p`. */
  function NumberEnd(t: string, p: nat): (q: nat)
    requires p <= |t|
    ensures p <= q <= |t|
  {
    if HasFrac(t, p) then Run(t, p + 1, IsDigit) else p
  }

  function Fraction(t: string, p: nat): string
    requires p <= |t|
  {
    if HasFrac(t, p) then t[p + 1..NumberEnd(t, p)] else []
  }

  /** The letter run `t[w..l]` is the unit: it is followed by whitespace and the rest of the
      line after that whitespace can be matched by `(.*)`. */
  predicate UnitFollows(t: string, w: nat, l: nat)
    requires l <= |t|
  {
    l > w && l < |t| && IsSpace(t[l]) && NoTerminator(t[Run(t, l, IsSpace)..])
  }

  /** The match of the pattern against a trimmed line, if there is one. */
  function MatchLine(t: string): (r: Option<LineMatch>)
  {
    var p := Run(t, 0, IsDigit);
    if p == 0 then None
    else
      var q := NumberEnd(t, p);
      var w := Run(t, q, IsSpace);
      var l := Run(t, w, IsLetter);
      if UnitFollows(t, w, l) then
        var e := Run(t, l, IsSpace);
        Some(LineMatch(t[..p], Fraction(t, p), t[q..w], Some(t[w..l]), t[l..e], t[e..]))
      else if w > q && NoTerminator(t[w..]) then
        Some(LineMatch(t[..p], Fraction(t, p), t[q..w - 1], None, t[w - 1..w], t[w..]))
      else
        None
  }

  /** The number group as it stands in the line. */
  lemma NumberTextIsPrefix(t: string, p: nat)
    requires p <= |t|
    ensures NumberText(t[..p], Fraction(t, p)) == t[..NumberEnd(t, p)]
  {
    if HasFrac(t, p) {
      var q := NumberEnd(t, p);
      assert t[..q] == t[..p] + "." + t[p + 1..q];
    }
  }

  /** The characters of a run, as a string of their own. */
  lemma RunSlice(t: string, i: nat, p: char -> bool)
    requires i <= |t|
    ensures forall k :: 0 <= k < |t[i..Run(t, i, p)]| ==> p(t[i..Run(t, i, p)][k])
  {
    var j := Run(t, i, p);
    RunFacts(t, i, p);
    forall k | 0 <= k < |t[i..j]| ensures p(t[i..j][k]) {
      assert t[i..j][k] == t[i + k];
    }
  }

  /** The integer digits and the fraction of a number group, as strings of digits. */
  lemma NumberDigits(t: string, p: nat)
    requires 0 < p == Run(t, 0, IsDigit)
    ensures AllDigits(t[..p]) && AllDigits(Fraction(t, p))
  {
    RunSlice(t, 0, IsDigit);
    assert t[..p] == t[0..p];
    if HasFrac(t, p) { RunSlice(t, p + 1, IsDigit); }
  }

  /** Reassembling the pieces of a line cut at `q <= w <= l <= e`. */
  lemma Reassemble(t: string, q: nat, w: nat, l: nat, e: nat)
    requires q <= w <= l <= e <= |t|
    ensures t[..q] + t[q..w] + t[w..l] + t[l..e] + t[e..] == t
  {
  }

  lemma SoundWithUnit(t: string, p: nat, q: nat, w: nat, l: nat, e: nat)
    requires 0 < p == Run(t, 0, IsDigit) && q == NumberEnd(t, p)
    requires w == Run(t, q, IsSpace) && w <= |t| && l == Run(t, w, IsLetter)
    requires UnitFollows(t, w, l) && e == Run(t, l, IsSpace)
    ensures var m := LineMatch(t[..p], Fraction(t, p), t[q..w], Some(t[w..l]), t[l..e], t[e..]);
      WellFormed(m) && Matched(m) == t
  {
    var m := LineMatch(t[..p], Fraction(t, p), t[q..w], Some(t[w..l]), t[l..e], t[e..]);
    assert WellFormed(m) by {
      NumberDigits(t, p);
      RunSlice(t, q, IsSpace);
      RunSlice(t, w, IsLetter);
      RunSlice(t, l, IsSpace);
    }
    assert Matched(m) == t by {
      NumberTextIsPrefix(t, p);
      Reassemble(t, q, w, l, e);
      assert Matched(m) == t[..q] + t[q..w] + t[w..l] + t[l..e] + t[e..];
    }
  }

  lemma SoundWithoutUnitParts(t: string, p: nat, q: nat, w: nat)
    requires 0 < p == Run(t, 0, IsDigit) && q == NumberEnd(t, p)
    requires w == Run(t, q, IsSpace) && q < w && NoTerminator(t[w..])
    ensures WellFormed(LineMatch(t[..p], Fraction(t, p), t[q..w - 1], None, t[w - 1..w], t[w..]))
  {
    NumberDigits(t, p);
    RunSlice(t, q, IsSpace);
    var gap, run := t[q..w - 1], t[q..w];
    assert AllSpaces(gap) by {
      forall k | 0 <= k < |gap| ensures IsSpace(gap[k]) { assert gap[k] == run[k]; }
    }
    assert AllSpaces(t[w - 1..w]) by { assert t[w - 1..w][0] == run[w - 1 - q]; }
  }

  lemma SoundWithoutUnitJoin(t: string, p: nat, q: nat, w: nat)
    requires 0 < p <= q < w <= |t| && q == NumberEnd(t, p)
    ensures Matched(LineMatch(t[..p], Fraction(t, p), t[q..w - 1], None, t[w - 1..w], t[w..])) == t
  {
    var m := LineMatch(t[..p], Fraction(t, p), t[q..w - 1], None, t[w - 1..w], t[w..]);
    NumberTextIsPrefix(t, p);
    Reassemble(t, q, w - 1, w - 1, w);
    assert Matched(m) == t[..q] + t[q..w - 1] + t[w - 1..w - 1] + t[w - 1..w] + t[w..];
  }

  lemma SoundWithoutUnit(t: string, p: nat, q: nat, w: nat)
    requires 0 < p == Run(t, 0, IsDigit) && q == NumberEnd(t, p)
    requires w == Run(t, q, IsSpace) && q < w && NoTerminator(t[w..])
    ensures var m := LineMatch(t[..p], Fraction(t, p), t[q..w - 1], None, t[w - 1..w], t[w..]);
      WellFormed(m) && Matched(m) == t
  {
    SoundWithoutUnitParts(t, p, q, w);
    SoundWithoutUnitJoin(t, p, q, w);
  }

  /** A match is a reading of the whole line by the pattern: its parts, put back together,
      give the line, and each belongs to its group's character class. */
  lemma MatchLineSound(t: string)
    ensures MatchLine(t).Some? ==> WellFormed(MatchLine(t).value) && Matched(MatchLine(t).value) == t
    ensures MatchLine(t).Some? ==> |t| > 0 && IsDigit(t[0])
  {
    var p := Run(t, 0, IsDigit);
    if p > 0 {
      var q := NumberEnd(t, p);
      var w := Run(t, q, IsSpace);
      var l := Run(t, w, IsLetter);
      if UnitFollows(t, w, l) {
        MatchLineWithUnitAt(t, p, q, w, l);
        SoundWithUnit(t, p, q, w, l, Run(t, l, IsSpace));
      } else if w > q && NoTerminator(t[w..]) {
        MatchLineWithoutUnitAt(t, p, q, w, l);
        SoundWithoutUnit(t, p, q, w);
      }
    }
  }

  /** One line of the text box as an ingredient: the number, the unit (`pcs` when the
      line has none) and the trimmed remainder; a line the pattern does not match
      becomes one `pcs` of the whole trimmed line. */
  function ParseLine(line: string): (ing: Ingredient)
    ensures !ing.isSeasoning && ing.amount >= 0.0
  {
    var t := Trim(line);
    match MatchLine(t)
    case Some(m) =>
      Ingredient(Trim(m.rest), DecimalValue(m.whole, m.frac),
                 if m.unit.Some? then m.unit.value else "pcs", false)
    case None => Ingredient(t, 1.0, "pcs", false)
  }

  /** `text.split('\n')`. */
  function Lines(s: string): (r: seq<string>)
    ensures |r| >= 1
  {
    if s == [] then [""]
    else if s[0] == '\n' then [""] + Lines(s[1..])
    else var rest := Lines(s[1..]); [[s[0]] + rest[0]] + rest[1..]
  }

  /** Splitting at a newline splits the list of lines there. */
  lemma {:induction false} LinesAppend(a: string, b: string)
    ensures Lines(a + "\n" + b) == Lines(a) + Lines(b)
  {
    if a == [] {
      assert a + "\n" + b == "\n" + b;
      assert ("\n" + b)[1..] == b;
    } else {
      assert (a + "\n" + b)[0] == a[0];
      assert (a + "\n" + b)[1..] == a[1..] + "\n" + b;
      LinesAppend(a[1..], b);
    }
  }

  /** A string without a newline is a single line. */
  lemma {:induction false} LinesSingle(s: string)
    requires '\n' !in s
    ensures Lines(s) == [s]
  {
    if s != [] {
      assert '\n' !in s[1..];
      LinesSingle(s[1..]);
      assert s == [s[0]] + s[1..];
    }
  }

  function ParseLines(lines: seq<string>): seq<Ingredient>
  {
    if lines == [] then []
    else (if Trim(lines[0]) == [] then [] else [ParseLine(lines[0])]) + ParseLines(lines[1..])
  }

  lemma {:induction false} ParseLinesAppend(a: seq<string>, b: seq<string>)
    ensures ParseLines(a + b) == ParseLines(a) + ParseLines(b)
  {
    if a == [] {
      assert a + b == b;
    } else {
      assert (a + b)[0] == a[0];
      assert (a + b)[1..] == a[1..] + b;
      ParseLinesAppend(a[1..], b);
    }
  }

  /** `smartParseIngredients(text)`. */
  function ParseIngredients(text: string): seq<Ingredient>
  {
    ParseLines(Lines(text))
  }

  /** Lines are parsed independently of each other, in order. */
  lemma ParseIngredientsAppend(a: string, b: string)
    ensures ParseIngredients(a + "\n" + b) == ParseIngredients(a) + ParseIngredients(b)
  {
    LinesAppend(a, b);
    ParseLinesAppend(Lines(a), Lines(b));
  }

  /** A blank line yields nothing and any other line exactly one ingredient. */
  lemma ParseIngredientsLine(line: string)
    requires '\n' !in line
    ensures ParseIngredients(line) == if AllSpaces(line) then [] else [ParseLine(line)]
  {
    LinesSingle(line);
    TrimEmptyIff(line);
    assert ParseLines([line]) == (if Trim(line) == [] then [] else [ParseLine(line)]) + ParseLines([]);
  }

  /** Every parsed ingredient is a non-seasoning with a non-negative amount and a unit. */
  lemma {:induction false} ParsedIngredientsWellFormed(text: string)
    ensures forall k :: 0 <= k < |ParseIngredients(text)| ==>
      var ing := ParseIngredients(text)[k]; !ing.isSeasoning && ing.amount >= 0.0 && |ing.unit| > 0
  {
    ParseLinesWellFormed(Lines(text));
  }

  lemma {:induction false} ParseLinesWellFormed(lines: seq<string>)
    ensures forall k :: 0 <= k < |ParseLines(lines)| ==>
      var ing := ParseLines(lines)[k]; !ing.isSeasoning && ing.amount >= 0.0 && |ing.unit| > 0
  {
    if lines != [] { ParseLinesWellFormed(lines[1..]); }
  }

  /** A line whose trimmed text has no reading by the pattern becomes one `pcs` of the
      whole trimmed line. */
  lemma Fallback(line: string)
    requires forall m :: WellFormed(m) ==> Matched(m) != Trim(line)
    ensures ParseLine(line) == Ingredient(Trim(line), 1.0, "pcs", false)
  {
    MatchLineSound(Trim(line));
  }

  /** In particular a line that does not start with a digit falls back. */
  lemma FallbackWithoutDigit(line: string)
    requires Trim(line) == [] || !IsDigit(Trim(line)[0])
    ensures ParseLine(line) == Ingredient(Trim(line), 1.0, "pcs", false)
  {
    MatchLineSound(Trim(line));
  }

  /** What the scanner finds in a number group followed by something that cannot extend it. */
  predicate ReadsNumber(t: string, whole: string, frac: string, tail: string)
  {
    && |whole| <= |t|
    && Run(t, 0, IsDigit) == |whole|
    && NumberEnd(t, |whole|) == |NumberText(whole, frac)|
    && t[..|whole|] == whole
    && Fraction(t, |whole|) == frac
    && t[|NumberText(whole, frac)|..] == tail
  }

  lemma NumberRunsWhole(whole: string, tail: string)
    requires |whole| > 0 && AllDigits(whole)
    requires |tail| > 0 && !IsDigit(tail[0]) && tail[0] != '.'
    ensures ReadsNumber(whole + tail, whole, [], tail)
  {
    var t, k := whole + tail, |whole|;
    assert t[0..k] == whole && t[k] == tail[0] && t[..k] == whole && t[k..] == tail;
    SliceRun(t, 0, k, whole, IsDigit);
  }

  lemma NumberRunsFrac(whole: string, frac: string, tail: string)
    requires |whole| > 0 && AllDigits(whole) && |frac| > 0 && AllDigits(frac)
    requires |tail| > 0 && !IsDigit(tail[0]) && tail[0] != '.'
    ensures ReadsNumber(whole + "." + frac + tail, whole, frac, tail)
  {
    var t, k := whole + "." + frac + tail, |whole|;
    var e := k + 1 + |frac|;
    assert t[0..k] == whole && t[k] == '.' && t[k + 1] == frac[0];
    assert t[k + 1..e] == frac && t[e] == tail[0];
    assert t[..k] == whole && t[e..] == tail;
    SliceRun(t, 0, k, whole, IsDigit);
    SliceRun(t, k + 1, e, frac, IsDigit);
    assert HasFrac(t, k);
  }

  /** How the scanner reads a number group followed by something that cannot extend it. */
  lemma NumberRuns(whole: string, frac: string, tail: string)
    requires |whole| > 0 && AllDigits(whole) && AllDigits(frac)
    requires |tail| > 0 && !IsDigit(tail[0]) && tail[0] != '.'
    ensures ReadsNumber(NumberText(whole, frac) + tail, whole, frac, tail)
  {
    if frac == [] {
      NumberRunsWhole(whole, tail);
    } else {
      NumberRunsFrac(whole, frac, tail);
    }
  }

  predicate SpaceOrLetter(c: char) { IsSpace(c) || IsLetter(c) }

  lemma SpaceOrLetterIsNotNumber(c: char)
    requires SpaceOrLetter(c)
    ensures !IsDigit(c) && c != '.'
  {
  }

  /** The scanner's reading of a line whose integer digits end at `p`, whose number group
      ends at `q`, and whose first whitespace and letter runs end at `w` and `l`, when the
      letter run is the unit. */
  lemma MatchLineWithUnitAt(t: string, p: nat, q: nat, w: nat, l: nat)
    requires 0 < p == Run(t, 0, IsDigit) && q == NumberEnd(t, p)
    requires q <= |t| && w == Run(t, q, IsSpace) && w <= |t| && l == Run(t, w, IsLetter)
    requires UnitFollows(t, w, l)
    ensures MatchLine(t) == Some(LineMatch(t[..p], Fraction(t, p), t[q..w], Some(t[w..l]),
                                           t[l..Run(t, l, IsSpace)], t[Run(t, l, IsSpace)..]))
  {
  }

  /** The same reading when the line has no unit but whitespace after the number. */
  lemma MatchLineWithoutUnitAt(t: string, p: nat, q: nat, w: nat, l: nat)
    requires 0 < p == Run(t, 0, IsDigit) && q == NumberEnd(t, p)
    requires q <= |t| && w == Run(t, q, IsSpace) && w <= |t| && l == Run(t, w, IsLetter)
    requires !UnitFollows(t, w, l) && w > q && NoTerminator(t[w..])
    ensures MatchLine(t) == Some(LineMatch(t[..p], Fraction(t, p), t[q..w - 1], None, t[w - 1..w], t[w..]))
  {
  }

  /** A run over a known slice of a string ends where the slice ends. */
  lemma SliceRun(t: string, i: nat, j: nat, seg: string, p: char -> bool)
    requires i <= j <= |t| && t[i..j] == seg
    requires forall k :: 0 <= k < |seg| ==> p(seg[k])
    requires j == |t| || !p(t[j])
    ensures Run(t, i, p) == j
  {
    forall k | i <= k < j ensures p(t[k]) {
      assert t[k] == seg[k - i];
    }
    RunIs(t, i, j, p);
  }

  lemma ScanWithUnit(whole: string, frac: string, gap1: string, unit: string, gap2: string, name: string)
    requires |whole| > 0 && AllDigits(whole) && AllDigits(frac)
    requires AllSpaces(gap1) && |unit| > 0 && AllLetters(unit) && |gap2| > 0 && AllSpaces(gap2)
    requires |name| > 0 && !IsSpace(name[0]) && NoTerminator(name)
    ensures MatchLine(NumberText(whole, frac) + gap1 + unit + gap2 + name)
         == Some(LineMatch(whole, frac, gap1, Some(unit), gap2, name))
  {
    var n := NumberText(whole, frac);
    var tail := gap1 + unit + gap2 + name;
    var t := n + tail;
    assert t == n + gap1 + unit + gap2 + name;
    SpaceOrLetterIsNotNumber(tail[0]);
    NumberRuns(whole, frac, tail);
    var q := |n|;
    var w := q + |gap1|;
    var l := w + |unit|;
    var e := l + |gap2|;
    assert t[q..w] == gap1 && t[w..l] == unit && t[l..e] == gap2 && t[e..] == name;
    assert t[w] == unit[0] && t[l] == gap2[0] && t[e] == name[0];
    SliceRun(t, q, w, gap1, IsSpace);
    SliceRun(t, w, l, unit, IsLetter);
    SliceRun(t, l, e, gap2, IsSpace);
    assert UnitFollows(t, w, l);
    MatchLineWithUnitAt(t, |whole|, q, w, l);
  }

  /** A number, a unit and a name parse back to themselves
      (`200g Chicken`, `1.5 kg Beef`, and also `2 eggs whites` with unit `eggs`). */
  lemma ParseWithUnit(whole: string, frac: string, gap1: string, unit: string, gap2: string, name: string)
    requires |whole| > 0 && AllDigits(whole) && AllDigits(frac)
    requires AllSpaces(gap1) && |unit| > 0 && AllLetters(unit) && |gap2| > 0 && AllSpaces(gap2)
    requires |name| > 0 && Trimmed(name) && NoTerminator(name)
    ensures ParseLine(NumberText(whole, frac) + gap1 + unit + gap2 + name)
         == Ingredient(name, DecimalValue(whole, frac), unit, false)
  {
    var t := NumberText(whole, frac) + gap1 + unit + gap2 + name;
    ScanWithUnit(whole, frac, gap1, unit, gap2, name);
    assert t[0] == NumberText(whole, frac)[0] == whole[0];
    assert t[|t| - 1] == name[|name| - 1];
    TrimOfTrimmed(t);
    TrimOfTrimmed(name);
  }

  /** The leading letter run of `name` is not followed by whitespace, so it cannot be a unit:
      the name does not start with a letter (`1/2 cup`), is one word (`Chicken`), or its first
      word runs into punctuation (`Lemon, sliced`). */
  predicate NoUnitWord(name: string)
  {
    var k := Run(name, 0, IsLetter);
    k == |name| || !IsSpace(name[k])
  }

  /** A run inside a suffix of a string is the same run, shifted. */
  lemma {:induction false} RunSuffix(t: string, w: nat, i: nat, p: char -> bool)
    requires w + i <= |t|
    ensures Run(t, w + i, p) == w + Run(t[w..], i, p)
    decreases |t| - (w + i)
  {
    if w + i < |t| {
      assert t[w..][i] == t[w + i];
      if p(t[w + i]) { RunSuffix(t, w, i + 1, p); }
    }
  }

  /** A name whose leading word is no unit offers none to the scanner. */
  lemma NoUnitAfter(t: string, w: nat, name: string)
    requires w <= |t| && t[w..] == name && |name| > 0 && !IsSpace(name[0])
    requires NoUnitWord(name)
    ensures !UnitFollows(t, w, Run(t, w, IsLetter))
  {
    RunSuffix(t, w, 0, IsLetter);
    var k := Run(name, 0, IsLetter);
    var l := Run(t, w, IsLetter);
    if l > w && l < |t| {
      assert t[l] == name[k];
    }
  }

  lemma ScanWithoutUnit(whole: string, frac: string, gap: string, name: string)
    requires |whole| > 0 && AllDigits(whole) && AllDigits(frac)
    requires |gap| > 0 && AllSpaces(gap)
    requires |name| > 0 && !IsSpace(name[0]) && NoTerminator(name)
    requires NoUnitWord(name)
    ensures var n := NumberText(whole, frac);
      MatchLine(n + gap + name) == Some(LineMatch(whole, frac, gap[..|gap| - 1], None, gap[|gap| - 1..], name))
  {
    var n := NumberText(whole, frac);
    var tail := gap + name;
    var t := n + tail;
    assert t == n + gap + name;
    SpaceOrLetterIsNotNumber(tail[0]);
    NumberRuns(whole, frac, tail);
    var q := |n|;
    var w := q + |gap|;
    assert t[q..w] == gap && t[w..] == name && t[w] == name[0];
    assert t[q..w - 1] == gap[..|gap| - 1] && t[w - 1..w] == gap[|gap| - 1..];
    SliceRun(t, q, w, gap, IsSpace);
    NoUnitAfter(t, w, name);
    MatchLineWithoutUnitAt(t, |whole|, q, w, Run(t, w, IsLetter));
  }

  /** A number followed by whitespace and a name whose leading word is no unit has no unit:
      it counts `pcs` (`2 Chicken`, `2 Lemon, sliced`, `3 1/2 cups`). */
  lemma ParseWithoutUnit(whole: string, frac: string, gap: string, name: string)
    requires |whole| > 0 && AllDigits(whole) && AllDigits(frac)
    requires |gap| > 0 && AllSpaces(gap)
    requires |name| > 0 && Trimmed(name) && NoTerminator(name)
    requires NoUnitWord(name)
    ensures ParseLine(NumberText(whole, frac) + gap + name)
         == Ingredient(name, DecimalValue(whole, frac), "pcs", false)
  {
    var t := NumberText(whole, frac) + gap + name;
    ScanWithoutUnit(whole, frac, gap, name);
    assert t[0] == NumberText(whole, frac)[0] == whole[0];
    assert t[|t| - 1] == name[|name| - 1];
    TrimOfTrimmed(t);
    TrimOfTrimmed(name);
  }

  /** A run covers at least a stretch of characters that all satisfy `p`. */
  lemma {:induction false} RunPast(t: string, i: nat, j: nat, p: char -> bool)
    requires i <= j <= |t|
    requires forall k :: i <= k < j ==> p(t[k])
    ensures Run(t, i, p) >= j
    decreases j - i
  {
    if i < j { RunPast(t, i + 1, j, p); }
  }

  lemma SuffixNoTerminator(t: string, d: nat, w: nat)
    requires d <= w <= |t| && NoTerminator(t[d..])
    ensures NoTerminator(t[w..])
  {
    forall k | 0 <= k < |t[w..]| ensures !IsLineTerminator(t[w..][k]) {
      assert t[w..][k] == t[d..][w - d + k];
    }
  }

  /** The scanner reads the number group of a reading as that reading's number. */
  lemma ReadingNumber(m: LineMatch)
    requires WellFormed(m)
    ensures ReadsNumber(Matched(m), m.whole, m.frac, Matched(m)[|NumberText(m.whole, m.frac)|..])
  {
    var u := UnitText(m.unit);
    var tail := m.gap1 + u + m.gap2 + m.rest;
    assert Matched(m) == NumberText(m.whole, m.frac) + tail;
    assert tail[0] == if |m.gap1| > 0 then m.gap1[0] else if |u| > 0 then u[0] else m.gap2[0];
    SpaceOrLetterIsNotNumber(tail[0]);
    NumberRuns(m.whole, m.frac, tail);
  }

  /** Where the parts of a reading stand in the line it reads: after the number group come
      the three runs `t[a..b]`, `t[b..c]` and `t[c..d]`, then the name. */
  lemma ReadingLayout(m: LineMatch, a: nat, b: nat, c: nat, d: nat)
    requires WellFormed(m)
    requires a == |NumberText(m.whole, m.frac)| && b == a + |m.gap1|
    requires c == b + |UnitText(m.unit)| && d == c + |m.gap2|
    ensures d <= |Matched(m)|
    ensures forall k :: a <= k < b ==> IsSpace(Matched(m)[k])
    ensures forall k :: b <= k < c ==> IsLetter(Matched(m)[k])
    ensures forall k :: c <= k < d ==> IsSpace(Matched(m)[k])
    ensures Matched(m)[d..] == m.rest
  {
    var u := UnitText(m.unit);
    var t := Matched(m);
    assert t[a..b] == m.gap1 && t[b..c] == u && t[c..d] == m.gap2 && t[d..] == m.rest;
    forall k | a <= k < b ensures IsSpace(t[k]) { assert t[k] == m.gap1[k - a]; }
    forall k | b <= k < c ensures IsLetter(t[k]) { assert t[k] == u[k - b]; }
    forall k | c <= k < d ensures IsSpace(t[k]) { assert t[k] == m.gap2[k - c]; }
  }

  /** Every reading of a line by the pattern is found: the scanner matches the line. */
  lemma MatchLineComplete(m: LineMatch)
    requires WellFormed(m)
    ensures MatchLine(Matched(m)).Some?
  {
    var t := Matched(m);
    var p, a := |m.whole|, |NumberText(m.whole, m.frac)|;
    var b := a + |m.gap1|;
    var c := b + |UnitText(m.unit)|;
    var d := c + |m.gap2|;
    ReadingLayout(m, a, b, c, d);
    ReadingNumber(m);
    var w := Run(t, a, IsSpace);
    if m.unit.Some? {
      RunIs(t, a, b, IsSpace);
      RunIs(t, b, c, IsLetter);
      RunPast(t, c, d, IsSpace);
      SuffixNoTerminator(t, d, Run(t, c, IsSpace));
      assert UnitFollows(t, w, c);
      MatchLineWithUnitAt(t, p, a, w, c);
    } else {
      RunPast(t, a, d, IsSpace);
      var l := Run(t, w, IsLetter);
      if UnitFollows(t, w, l) {
        MatchLineWithUnitAt(t, p, a, w, l);
      } else {
        SuffixNoTerminator(t, d, w);
        MatchLineWithoutUnitAt(t, p, a, w, l);
      }
    }
  }

  /** The scanner matches a line exactly when the pattern has a reading of it. */
  lemma MatchLineExact(t: string)
    ensures MatchLine(t).Some? <==> exists m :: WellFormed(m) && Matched(m) == t
  {
    MatchLineSound(t);
    if exists m :: WellFormed(m) && Matched(m) == t {
      var m :| WellFormed(m) && Matched(m) == t;
      MatchLineComplete(m);
    }
  }

  /** A line that starts with a digit but that the pattern rejects falls back too: a
      fraction written with a slash. */
  lemma SlashFallback()
    ensures ParseLine("1/2 cup sugar") == Ingredient("1/2 cup sugar", 1.0, "pcs", false)
  {
    var t := "1/2 cup sugar";
    TrimOfTrimmed(t);
    assert t[0] == '1' && t[1] == '/';
    assert Run(t, 1, IsDigit) == 1;
    assert Run(t, 0, IsDigit) == 1;
    assert !HasFrac(t, 1);
    assert Run(t, 1, IsSpace) == 1 && Run(t, 1, IsLetter) == 1;
    assert MatchLine(t).None?;
  }

  /** And a number with a unit but no name after it. */
  lemma NamelessFallback()
    ensures ParseLine("500g") == Ingredient("500g", 1.0, "pcs", false)
  {
    var t := "500g";
    TrimOfTrimmed(t);
    assert t[3] == 'g';
    assert Run(t, 3, IsDigit) == 3;
    assert Run(t, 0, IsDigit) == 3;
    assert !HasFrac(t, 3);
    assert Run(t, 3, IsSpace) == 3;
    assert Run(t, 4, IsLetter) == 4;
    assert Run(t, 3, IsLetter) == 4;
    assert MatchLine(t).None?;
  }
}
