/**
 * Key-case conversion of the resource layer (`ResourceBase.camel_to_snake` and
 * `ResourceBase.snake_to_camel`).
 *
 * `camel_to_snake` is two regular-expression substitutions followed by `lower()`:
 *   1. `(.)([A-Z][a-z]+)`  ->  `\1_\2`   (modelled by WordBreaks)
 *   2. `([a-z0-9])([A-Z])` ->  `\1_\2`   (modelled by CaseBreaks)
 * Each substitution scans left to right and, after a match, resumes right after it,
 * exactly as `re.sub` does. Case mapping is ASCII only.
 */
module KeyCase {

  // ---------------------------------------------------------------------------
  // Characters

  predicate IsUpper(c: char) { 'A' <= c <= 'Z' }
  predicate IsLower(c: char) { 'a' <= c <= 'z' }
  predicate IsDigit(c: char) { '0' <= c <= '9' }

  function ToLower(c: char): char {
    if IsUpper(c) then (c as int + 32) as char else c
  }

  function ToUpper(c: char): char {
    if IsLower(c) then (c as int - 32) as char else c
  }

  /** `str.lower()`. */
  function Lower(s: string): string {
    seq(|s|, i requires 0 <= i < |s| => ToLower(s[i]))
  }

  /** `str.capitalize()`: the first character upper-cased, the rest lower-cased. */
  function Capitalize(s: string): string {
    if s == [] then [] else [ToUpper(s[0])] + Lower(s[1..])
  }

  /** Every character is a lower-case ASCII letter. */
  predicate AllLower(s: string) {
    forall i :: 0 <= i < |s| ==> IsLower(s[i])
  }

  /** No character is an upper-case ASCII letter. */
  predicate NoUpper(s: string) {
    forall i :: 0 <= i < |s| ==> !IsUpper(s[i])
  }

  // ---------------------------------------------------------------------------
  // camel_to_snake

  /** Length of the longest prefix of `s` made of lower-case letters (the greedy `[a-z]+`). */
  function LowerRun(s: string): (n: nat)
    ensures n <= |s|
    ensures forall i :: 0 <= i < n ==> IsLower(s[i])
    ensures n < |s| ==> !IsLower(s[n])
  {
    if s != [] && IsLower(s[0]) then 1 + LowerRun(s[1..]) else 0
  }

  /** `re.sub('(.)([A-Z][a-z]+)', r'\1_\2', s)`; `.` matches anything but a newline. */
  function WordBreaks(s: string): string
    decreases |s|
  {
    if |s| >= 3 && s[0] != '\n' && IsUpper(s[1]) && IsLower(s[2]) then
      var k := 2 + LowerRun(s[2..]);
      [s[0], '_'] + s[1..k] + WordBreaks(s[k..])
    else if s == [] then []
    else [s[0]] + WordBreaks(s[1..])
  }

  /** `re.sub('([a-z0-9])([A-Z])', r'\1_\2', s)`. */
  function CaseBreaks(s: string): string
    decreases |s|
  {
    if |s| >= 2 && (IsLower(s[0]) || IsDigit(s[0])) && IsUpper(s[1]) then
      [s[0], '_', s[1]] + CaseBreaks(s[2..])
    else if s == [] then []
    else [s[0]] + CaseBreaks(s[1..])
  }

  /** `camel_to_snake`: its result never holds an upper-case letter. */
  function CamelToSnake(name: string): (r: string)
    ensures NoUpper(r)
  {
    Lower(CaseBreaks(WordBreaks(name)))
  }

  // ---------------------------------------------------------------------------
  // snake_to_camel

  /** `str.split('_')`: always at least one part, and no part holds `'_'`. */
  function Split(s: string): (parts: seq<string>)
    ensures |parts| >= 1
    ensures forall i, j :: 0 <= i < |parts| && 0 <= j < |parts[i]| ==>
              parts[i][j] != '_' && parts[i][j] in s
  {
    if s == [] then [""]
    else if s[0] == '_' then [""] + Split(s[1..])
    else
      var rest := Split(s[1..]);
      [[s[0]] + rest[0]] + rest[1..]
  }

  /** `'_'.join(parts)`. */
  function Join(parts: seq<string>): string
    requires |parts| >= 1
  {
    if |parts| == 1 then parts[0] else parts[0] + "_" + Join(parts[1..])
  }

  /** `''.join(parts)`. */
  function Concat(parts: seq<string>): string {
    if parts == [] then "" else parts[0] + Concat(parts[1..])
  }

  /** What the loop of `snake_to_camel` appends for the part at `index`. */
  function CasePart(index: nat, part: string): string {
    if index == 0 then Lower(part) else Capitalize(part)
  }

  /** The list `snake_to_camel` builds from the parts of its argument. */
  function CasedParts(parts: seq<string>): (r: seq<string>)
    ensures |r| == |parts|
  {
    seq(|parts|, i requires 0 <= i < |parts| => CasePart(i, parts[i]))
  }

  /** The value `snake_to_camel(name)` returns. */
  function Camelized(name: string): string {
    Concat(CasedParts(Split(name)))
  }

  /** `snake_to_camel`: the loop over the parts of `name.split('_')`, then the join. */
  method SnakeToCamel(name: string) returns (r: string)
    ensures r == Camelized(name)
  {
    var parts := Split(name);
    var result: seq<string> := [];
    var index := 0;
    while index < |parts|
      invariant 0 <= index <= |parts|
      invariant result == CasedParts(parts)[..index]
    {
      if index == 0 {
        result := result + [Lower(parts[index])];
      } else {
        result := result + [Capitalize(parts[index])];
      }
      index := index + 1;
    }
    assert result == CasedParts(parts);
    r := Concat(result);
  }

  // ---------------------------------------------------------------------------
  // Properties of snake_to_camel

  lemma LowerAppend(a: string, b: string)
    ensures Lower(a + b) == Lower(a) + Lower(b)
  {
    assert forall i :: 0 <= i < |a + b| ==> Lower(a + b)[i] == (Lower(a) + Lower(b))[i];
  }

  lemma {:induction false} ConcatNoUnderscore(parts: seq<string>)
    requires forall i :: 0 <= i < |parts| ==> '_' !in parts[i]
    ensures '_' !in Concat(parts)
  {
    if parts != [] {
      ConcatNoUnderscore(parts[1..]);
      assert Concat(parts) == parts[0] + Concat(parts[1..]);
    }
  }

  /** The result of `snake_to_camel` never holds `'_'`. */
  lemma CamelizedNoUnderscore(name: string)
    ensures '_' !in Camelized(name)
  {
    var parts := Split(name);
    var cased := CasedParts(parts);
    forall i | 0 <= i < |cased| ensures '_' !in cased[i] {
      assert '_' !in parts[i] by {
        forall j | 0 <= j < |parts[i]| ensures parts[i][j] != '_' { }
      }
      if i > 0 && parts[i] != [] {
        assert cased[i] == [ToUpper(parts[i][0])] + Lower(parts[i][1..]);
        assert '_' !in Lower(parts[i][1..]) by {
          forall j | 0 <= j < |parts[i][1..]| ensures Lower(parts[i][1..])[j] != '_' {
            assert parts[i][1..][j] == parts[i][j + 1];
          }
        }
      }
    }
    ConcatNoUnderscore(cased);
  }

  /** Splitting and re-joining on `'_'` gives back the original string. */
  lemma {:induction false} JoinSplit(s: string)
    ensures Join(Split(s)) == s
  {
    if s == [] {
    } else if s[0] == '_' {
      JoinSplit(s[1..]);
      assert Split(s) == [""] + Split(s[1..]);
      assert Split(s)[1..] == Split(s[1..]);
    } else {
      var rest := Split(s[1..]);
      JoinSplit(s[1..]);
      var parts := [[s[0]] + rest[0]] + rest[1..];
      assert Split(s) == parts;
      if |rest| == 1 {
        assert Join(parts) == [s[0]] + rest[0];
      } else {
        assert parts[1..] == rest[1..];
        assert Join(parts) == [s[0]] + rest[0] + "_" + Join(rest[1..]);
        assert Join(rest) == rest[0] + "_" + Join(rest[1..]);
      }
      assert s == [s[0]] + s[1..];
    }
  }

  // ---------------------------------------------------------------------------
  // The round trip camel_to_snake(snake_to_camel(k)) == k

  /** Parts after the first: lower-case letters, at least two of them. */
  predicate LaterParts(ps: seq<string>) {
    forall i :: 0 <= i < |ps| ==> |ps[i]| >= 2 && AllLower(ps[i])
  }

  /** A key the round trip holds for: lower-case letters and `'_'`, a non-empty first part,
      and later parts of at least two letters (e.g. `sum_on_dash`, `id`, `a_bc`). */
  predicate RoundTripKey(k: string) {
    && (forall i :: 0 <= i < |k| ==> IsLower(k[i]) || k[i] == '_')
    && |Split(k)[0]| >= 1
    && (forall i :: 1 <= i < |Split(k)| ==> |Split(k)[i]| >= 2)
  }

  /** `Capitalize` on the later parts, concatenated. */
  function Caps(ps: seq<string>): string {
    if ps == [] then "" else Capitalize(ps[0]) + Caps(ps[1..])
  }

  /** The shape WordBreaks gives `Caps(ps)` when it starts inside a lower-case run:
      an underscore before the first, third, fifth, ... capitalised part. */
  function Odd(ps: seq<string>): string {
    if ps == [] then "" else "_" + Capitalize(ps[0]) + Even(ps[1..])
  }

  function Even(ps: seq<string>): string {
    if ps == [] then "" else Capitalize(ps[0]) + Odd(ps[1..])
  }

  /** Every capitalised part preceded by an underscore. */
  function UnderCaps(ps: seq<string>): string {
    if ps == [] then "" else "_" + Capitalize(ps[0]) + UnderCaps(ps[1..])
  }

  /** Every part preceded by an underscore. */
  function UnderParts(ps: seq<string>): string {
    if ps == [] then "" else "_" + ps[0] + UnderParts(ps[1..])
  }

  lemma LowerOfLower(s: string)
    requires AllLower(s)
    ensures Lower(s) == s
  {
  }

  lemma CapitalizeLower(p: string)
    requires |p| >= 1 && AllLower(p)
    ensures Capitalize(p) == [ToUpper(p[0])] + p[1..]
    ensures IsUpper(Capitalize(p)[0])
    ensures Lower(Capitalize(p)) == p
  {
    LowerOfLower(p[1..]);
    LowerAppend([ToUpper(p[0])], p[1..]);
    assert Lower([ToUpper(p[0])]) == [p[0]];
  }

  lemma {:induction false} LowerRunAppend(w: string, t: string)
    requires AllLower(w)
    requires t == [] || !IsLower(t[0])
    ensures LowerRun(w + t) == |w|
    decreases |w|
  {
    if w != [] {
      assert (w + t)[0] == w[0];
      assert (w + t)[1..] == w[1..] + t;
      LowerRunAppend(w[1..], t);
    }
  }

  lemma CapsStart(ps: seq<string>)
    requires LaterParts(ps)
    ensures Caps(ps) == [] || IsUpper(Caps(ps)[0])
  {
    if ps != [] {
      CapitalizeLower(ps[0]);
    }
  }

  lemma Assoc(a: string, b: string, c: string)
    ensures (a + b) + c == a + (b + c)
  {
  }

  lemma ConsTail(s: string)
    requires s != []
    ensures [s[0]] + s[1..] == s
  {
  }

  lemma SnocInit(w: string)
    requires w != []
    ensures w == w[..|w| - 1] + [w[|w| - 1]]
  {
  }

  lemma Triple(a: char, b: char, c: char)
    ensures [a, b, c] == [a] + ([b] + [c])
    ensures [a, b] == [a] + [b]
  {
  }

  lemma AppendEmpty(s: string)
    ensures s + [] == s && [] + s == s
  {
  }

  /** One step of WordBreaks where the pattern does not match at the first character. */
  lemma WordBreaksSkip(c: char, t: string, s: string)
    requires s == [c] + t
    requires !(|s| >= 3 && c != '\n' && IsUpper(t[0]) && IsLower(t[1]))
    ensures WordBreaks(s) == [c] + WordBreaks(t)
  {
    assert s[1..] == t;
  }

  /** One step of WordBreaks where the pattern matches `c`, then `u` and the run `w`. */
  lemma WordBreaksMatch(c: char, u: char, w: string, t: string, s: string)
    requires c != '\n' && IsUpper(u) && |w| >= 1 && AllLower(w)
    requires t == [] || !IsLower(t[0])
    requires s == [c] + ([u] + (w + t))
    ensures WordBreaks(s) == ([c, '_'] + ([u] + w)) + WordBreaks(t)
  {
    assert s[2..] == w + t;
    LowerRunAppend(w, t);
    var k := 2 + |w|;
    assert s[0] == c && s[1] == u && s[2] == w[0];
    assert s[1..k] == [u] + w;
    assert s[k..] == t;
  }

  /** One step of CaseBreaks where the pattern does not match at the first character. */
  lemma CaseBreaksSkip(c: char, t: string, s: string)
    requires s == [c] + t
    requires !((IsLower(c) || IsDigit(c)) && t != [] && IsUpper(t[0]))
    ensures CaseBreaks(s) == [c] + CaseBreaks(t)
  {
    assert s[1..] == t;
  }

  /** One step of CaseBreaks where the pattern matches `c` and `u`. */
  lemma CaseBreaksMatch(c: char, u: char, t: string, s: string)
    requires (IsLower(c) || IsDigit(c)) && IsUpper(u)
    requires s == [c] + ([u] + t)
    ensures CaseBreaks(s) == [c, '_', u] + CaseBreaks(t)
  {
    assert s[2..] == t;
  }

  lemma {:induction false} WordBreaksNoUpper(s: string)
    requires NoUpper(s)
    ensures WordBreaks(s) == s
    decreases |s|
  {
    if s != [] {
      ConsTail(s);
      WordBreaksSkip(s[0], s[1..], s);
      WordBreaksNoUpper(s[1..]);
    }
  }

  lemma {:induction false} CaseBreaksNoUpper(s: string)
    requires NoUpper(s)
    ensures CaseBreaks(s) == s
    decreases |s|
  {
    if s != [] {
      ConsTail(s);
      CaseBreaksSkip(s[0], s[1..], s);
      CaseBreaksNoUpper(s[1..]);
    }
  }

  /** WordBreaks on a lower-case run `w` followed by capitalised parts. */
  lemma {:induction false} WordBreaksAfterLower(w: string, ps: seq<string>, s: string)
    requires |w| >= 1 && AllLower(w) && LaterParts(ps)
    requires s == w + Caps(ps)
    ensures WordBreaks(s) == w + Odd(ps)
    decreases |ps|, |w|
  {
    if ps == [] {
      AppendEmpty(w);
      WordBreaksNoUpper(w);
    } else if |w| >= 2 {
      var t := w[1..] + Caps(ps);
      ConsTail(w);
      Assoc([w[0]], w[1..], Caps(ps));
      assert s == [w[0]] + t;
      WordBreaksSkip(w[0], t, s);
      WordBreaksAfterLower(w[1..], ps, t);
      Assoc([w[0]], w[1..], Odd(ps));
    } else {
      assert w == [w[0]];
      WordBreaksLastLower(w[0], ps, s);
    }
  }

  /** WordBreaks on the last letter of a lower-case run followed by capitalised parts:
      the pattern matches that letter and the first capitalised part. */
  lemma {:induction false} WordBreaksLastLower(c: char, ps: seq<string>, s: string)
    requires IsLower(c) && LaterParts(ps) && ps != []
    requires s == [c] + Caps(ps)
    ensures WordBreaks(s) == [c] + Odd(ps)
    decreases |ps|, 0
  {
    var p := ps[0];
    CapitalizeLower(p);
    var u, v := ToUpper(p[0]), p[1..];
    var rest := Caps(ps[1..]);
    CapsStart(ps[1..]);
    assert Caps(ps) == ([u] + v) + rest;
    Assoc([u], v, rest);
    assert s == [c] + ([u] + (v + rest));
    WordBreaksMatch(c, u, v, rest, s);
    WordBreaksCaps(ps[1..], rest);
    var cap, even := [u] + v, Even(ps[1..]);
    assert Odd(ps) == ("_" + cap) + even;
    Triple(c, '_', u);
    Assoc([c], "_", cap);
    Assoc([c], "_" + cap, even);
  }

  /** WordBreaks on capitalised parts from their very start. */
  lemma {:induction false} WordBreaksCaps(ps: seq<string>, s: string)
    requires LaterParts(ps)
    requires s == Caps(ps)
    ensures WordBreaks(s) == Even(ps)
    decreases |ps|, 0
  {
    if ps != [] {
      var p := ps[0];
      CapitalizeLower(p);
      var u, v := ToUpper(p[0]), p[1..];
      var t := v + Caps(ps[1..]);
      Assoc([u], v, Caps(ps[1..]));
      assert s == [u] + t;
      assert t[0] == p[1];
      WordBreaksSkip(u, t, s);
      WordBreaksAfterLower(v, ps[1..], t);
      Assoc([u], v, Odd(ps[1..]));
    }
  }

  /** CaseBreaks leaves a lower-case run alone when no upper-case letter follows it. */
  lemma {:induction false} CaseBreaksAfterLower(w: string, t: string, s: string)
    requires AllLower(w)
    requires t == [] || !IsUpper(t[0])
    requires s == w + t
    ensures CaseBreaks(s) == w + CaseBreaks(t)
    decreases |w|
  {
    if w == [] {
      AppendEmpty(t);
      AppendEmpty(CaseBreaks(t));
    } else {
      var r := w[1..] + t;
      ConsTail(w);
      Assoc([w[0]], w[1..], t);
      assert s == [w[0]] + r;
      assert r != [] ==> r[0] == (if |w| >= 2 then w[1] else t[0]);
      CaseBreaksSkip(w[0], r, s);
      CaseBreaksAfterLower(w[1..], t, r);
      Assoc([w[0]], w[1..], CaseBreaks(t));
    }
  }

  lemma OddStart(ps: seq<string>)
    ensures Odd(ps) == [] || Odd(ps)[0] == '_'
  {
  }

  lemma {:induction false} CaseBreaksOdd(ps: seq<string>, s: string)
    requires LaterParts(ps)
    requires s == Odd(ps)
    ensures CaseBreaks(s) == UnderCaps(ps)
    decreases |ps|, 2
  {
    if ps != [] {
      var p := ps[0];
      CapitalizeLower(p);
      var u, w := ToUpper(p[0]), p[1..];
      var tail := Even(ps[1..]);
      var s2 := w + tail;
      var s1 := [u] + s2;
      // Odd(ps) == ("_" + ([u] + w)) + tail
      Assoc([u], w, tail);
      Assoc("_", [u] + w, tail);
      assert s == "_" + s1;
      CaseBreaksSkip('_', s1, s);
      CaseBreaksSkip(u, s2, s1);
      var under := UnderCaps(ps[1..]);
      if ps[1..] == [] {
        AppendEmpty(w);
        CaseBreaksNoUpper(w);
      } else {
        CaseBreaksPair(w, ps[1..], s2);
      }
      // CaseBreaks(s) == "_" + ([u] + (w + under)); UnderCaps(ps) == ("_" + ([u] + w)) + under
      Assoc([u], w, under);
      Assoc("_", [u] + w, under);
    }
  }

  /** CaseBreaks at the end of one part, when the next capitalised part follows directly. */
  lemma {:induction false} CaseBreaksPair(w: string, ps: seq<string>, s: string)
    requires |w| >= 1 && AllLower(w) && LaterParts(ps) && ps != []
    requires s == w + Even(ps)
    ensures CaseBreaks(s) == w + UnderCaps(ps)
    decreases |ps|, 1
  {
    var w0, last := w[..|w| - 1], w[|w| - 1];
    SnocInit(w);
    assert AllLower(w0) by {
      forall i | 0 <= i < |w0| ensures IsLower(w0[i]) {
        assert w0[i] == w[i];
      }
    }
    var t := [last] + Even(ps);
    Assoc(w0, [last], Even(ps));
    CaseBreaksAfterLower(w0, t, s);
    CaseBreaksPairLast(last, ps, t);
    Assoc(w0, [last], UnderCaps(ps));
  }

  /** The same, for the last letter of the part alone. */
  lemma {:induction false} CaseBreaksPairLast(last: char, ps: seq<string>, t: string)
    requires IsLower(last) && LaterParts(ps) && ps != []
    requires t == [last] + Even(ps)
    ensures CaseBreaks(t) == [last] + UnderCaps(ps)
    decreases |ps|, 0
  {
    var q := ps[0];
    CapitalizeLower(q);
    var u, v := ToUpper(q[0]), q[1..];
    var odd := Odd(ps[1..]);
    var t2 := v + odd;
    // Even(ps) == ([u] + v) + odd
    Assoc([u], v, odd);
    CaseBreaksMatch(last, u, t2, t);
    OddStart(ps[1..]);
    CaseBreaksAfterLower(v, odd, t2);
    CaseBreaksOdd(ps[1..], odd);
    var under := UnderCaps(ps[1..]);
    var y := v + under;
    // UnderCaps(ps) == ("_" + ([u] + v)) + under == "_" + ([u] + y)
    Assoc([u], v, under);
    Assoc("_", [u] + v, under);
    Assoc("_", [u], y);
    Assoc([last], "_" + [u], y);
    Triple(last, '_', u);
  }

  lemma {:induction false} LowerUnderCaps(ps: seq<string>)
    requires LaterParts(ps)
    ensures Lower(UnderCaps(ps)) == UnderParts(ps)
  {
    if ps != [] {
      CapitalizeLower(ps[0]);
      LowerUnderCaps(ps[1..]);
      LowerAppend("_" + Capitalize(ps[0]), UnderCaps(ps[1..]));
      LowerAppend("_", Capitalize(ps[0]));
    }
  }

  lemma {:induction false} JoinUnderParts(ps: seq<string>)
    requires |ps| >= 1
    ensures Join(ps) == ps[0] + UnderParts(ps[1..])
  {
    if |ps| > 1 {
      JoinUnderParts(ps[1..]);
      assert ps[1..][1..] == ps[2..];
    }
  }

  lemma {:induction false} ConcatCased(parts: seq<string>)
    requires |parts| >= 1
    ensures Concat(CasedParts(parts)) == Lower(parts[0]) + Caps(parts[1..])
  {
    CapsOfCased(parts, 1);
    assert CasedParts(parts)[0..] == CasedParts(parts);
  }

  /** The part of the `snake_to_camel` list from `from` on concatenates to `Caps`. */
  lemma {:induction false} CapsOfCased(parts: seq<string>, from: nat)
    requires 1 <= from <= |parts|
    ensures Concat(CasedParts(parts)[from - 1..]) ==
            CasedParts(parts)[from - 1] + Caps(parts[from..])
    decreases |parts| - from
  {
    var cased := CasedParts(parts);
    assert cased[from - 1..][1..] == cased[from..];
    if from == |parts| {
      assert cased[from..] == [];
      assert parts[from..] == [];
    } else {
      CapsOfCased(parts, from + 1);
      assert parts[from..][1..] == parts[from + 1..];
      assert cased[from] == Capitalize(parts[from]);
    }
  }

  lemma PartsLower(k: string)
    requires forall i :: 0 <= i < |k| ==> IsLower(k[i]) || k[i] == '_'
    ensures forall i :: 0 <= i < |Split(k)| ==> AllLower(Split(k)[i])
  {
    var ps := Split(k);
    forall i, j | 0 <= i < |ps| && 0 <= j < |ps[i]| ensures IsLower(ps[i][j]) {
      var c := ps[i][j];
      assert c in k && c != '_';
    }
  }

  /** camel_to_snake puts `'_'` before each capital that starts a later word (after a
      lower-case letter, as in `accountId`), and lower-cases it: a lower-case word
      followed by capitalised words of two or more letters comes out as those words
      joined by `'_'`. */
  lemma CamelToSnakeCaps(w: string, ps: seq<string>)
    requires |w| >= 1 && AllLower(w) && LaterParts(ps)
    ensures CamelToSnake(w + Caps(ps)) == Join([w] + ps)
  {
    WordBreaksAfterLower(w, ps, w + Caps(ps));
    OddStart(ps);
    CaseBreaksAfterLower(w, Odd(ps), w + Odd(ps));
    CaseBreaksOdd(ps, Odd(ps));
    LowerAppend(w, UnderCaps(ps));
    LowerUnderCaps(ps);
    LowerOfLower(w);
    JoinUnderParts([w] + ps);
    assert ([w] + ps)[1..] == ps;
  }

  /** camel_to_snake undoes snake_to_camel on keys of lower-case words joined by `'_'`
      whose first word is non-empty and whose later words have at least two letters.
      This is why a key sent back by the response side (snake_to_camel) reaches the
      request side (camel_to_snake) unchanged. */
  lemma SnakeCamelRoundTrip(k: string)
    requires RoundTripKey(k)
    ensures CamelToSnake(Camelized(k)) == k
  {
    var ps := Split(k);
    PartsLower(k);
    var p0, rest := ps[0], ps[1..];
    assert LaterParts(rest) by {
      forall i | 0 <= i < |rest| ensures |rest[i]| >= 2 && AllLower(rest[i]) {
        assert rest[i] == ps[i + 1];
      }
    }
    ConcatCased(ps);
    LowerOfLower(p0);
    CamelToSnakeCaps(p0, rest);
    assert [p0] + rest == ps;
    JoinSplit(k);
  }

  /** `str.split('_')` on a word with no `'_'` followed by `t`: the word goes in front of
      the first part of `t`. */
  lemma {:induction false} SplitPrefix(w: string, t: string)
    requires forall i :: 0 <= i < |w| ==> w[i] != '_'
    ensures Split(w + t) == [w + Split(t)[0]] + Split(t)[1..]
  {
    if w == [] {
      assert w + t == t;
      assert w + Split(t)[0] == Split(t)[0];
    } else {
      var s := w + t;
      assert s[1..] == w[1..] + t;
      SplitPrefix(w[1..], t);
      var rest := Split(s[1..]);
      assert rest[0] == w[1..] + Split(t)[0];
      assert rest[1..] == Split(t)[1..];
      assert Split(s) == [[w[0]] + rest[0]] + rest[1..];
      ConsTail(w);
      Assoc([w[0]], w[1..], Split(t)[0]);
    }
  }

  /** `'_'.join` then `split('_')` gives back parts that hold no `'_'`. */
  lemma {:induction false} SplitJoin(ps: seq<string>)
    requires |ps| >= 1
    requires forall i, j :: 0 <= i < |ps| && 0 <= j < |ps[i]| ==> ps[i][j] != '_'
    ensures Split(Join(ps)) == ps
  {
    if |ps| == 1 {
      SplitPrefix(ps[0], "");
      AppendEmpty(ps[0]);
    } else {
      var j := Join(ps[1..]);
      SplitJoin(ps[1..]);
      Assoc(ps[0], "_", j);
      SplitPrefix(ps[0], "_" + j);
      assert ("_" + j)[1..] == j;
      AppendEmpty(ps[0]);
    }
  }

  /** Every character of a join of lower-case parts is a lower-case letter or `'_'`. */
  lemma {:induction false} JoinChars(ps: seq<string>)
    requires |ps| >= 1 && forall i :: 0 <= i < |ps| ==> AllLower(ps[i])
    ensures forall i :: 0 <= i < |Join(ps)| ==> IsLower(Join(ps)[i]) || Join(ps)[i] == '_'
  {
    if |ps| > 1 {
      JoinChars(ps[1..]);
      var j := Join(ps[1..]);
      assert Join(ps) == ps[0] + "_" + j;
      forall i | 0 <= i < |Join(ps)| ensures IsLower(Join(ps)[i]) || Join(ps)[i] == '_' {
        if i >= |ps[0]| + 1 {
          assert Join(ps)[i] == j[i - |ps[0]| - 1];
        }
      }
    }
  }

  /** A key given by its words: a non-empty lower-case first word and later
      lower-case words of at least two letters. */
  predicate RoundTripParts(ps: seq<string>) {
    |ps| >= 1 && |ps[0]| >= 1 && AllLower(ps[0]) && LaterParts(ps[1..])
  }

  /** Such words joined by `'_'` make a round-trip key. */
  lemma RoundTripKeyOfParts(ps: seq<string>)
    requires RoundTripParts(ps)
    ensures RoundTripKey(Join(ps))
    ensures CamelToSnake(Camelized(Join(ps))) == Join(ps)
  {
    assert forall i :: 0 <= i < |ps| ==> AllLower(ps[i]) by {
      forall i | 1 <= i < |ps| ensures AllLower(ps[i]) {
        assert ps[i] == ps[1..][i - 1];
      }
    }
    JoinChars(ps);
    SplitJoin(ps);
    assert forall i :: 1 <= i < |ps| ==> |ps[i]| >= 2 by {
      forall i | 1 <= i < |ps| ensures |ps[i]| >= 2 {
        assert ps[i] == ps[1..][i - 1];
      }
    }
    SnakeCamelRoundTrip(Join(ps));
  }

  /** A key whose only capital is its first letter is just lower-cased. */
  lemma CamelToSnakeLeadingCapital(s: string)
    requires s != [] && NoUpper(s[1..])
    ensures CamelToSnake(s) == Lower(s)
  {
    WordBreaksNoUpper(s[1..]);
    CaseBreaksNoUpper(s[1..]);
    if |s| >= 3 {
      assert !IsUpper(s[1..][0]);
    }
    ConsTail(s);
    WordBreaksSkip(s[0], s[1..], s);
    CaseBreaksSkip(s[0], s[1..], s);
  }

  /** A key with no upper-case letter is returned unchanged by camel_to_snake
      (both patterns need an upper-case letter to match). */
  lemma CamelToSnakeNoUpper(name: string)
    requires NoUpper(name)
    ensures CamelToSnake(name) == name
  {
    WordBreaksNoUpper(name);
    CaseBreaksNoUpper(name);
  }

  /** The first part of the key comes out lower-cased and every later part capitalised. */
  lemma CamelizedParts(name: string)
    ensures Camelized(name) == Lower(Split(name)[0]) + Caps(Split(name)[1..])
  {
    ConcatCased(Split(name));
  }

  /** A leading `'_'` is lost: its empty first part makes snake_to_camel capitalise
      the next word (`_links` gives `Links`), which camel_to_snake just lower-cases
      (`links`). Keys with an empty first part are therefore outside the round trip. */
  lemma LeadingUnderscoreLost(k: string)
    requires RoundTripKey(k) && |Split(k)[0]| >= 2
    ensures CamelToSnake(Camelized("_" + k)) == k
  {
    var s := "_" + k;
    assert s[1..] == k;
    var ps := Split(k);
    assert Split(s) == [""] + ps;
    assert ([""] + ps)[1..] == ps;
    CamelizedParts(s);
    PartsLower(k);
    assert LaterParts(ps) by {
      forall i | 0 <= i < |ps| ensures |ps[i]| >= 2 && AllLower(ps[i]) {
      }
    }
    var p0, rest := ps[0], ps[1..];
    assert LaterParts(rest) by {
      forall i | 0 <= i < |rest| ensures |rest[i]| >= 2 && AllLower(rest[i]) {
        assert rest[i] == ps[i + 1];
      }
    }
    CapitalizeLower(p0);
    var u, v := ToUpper(p0[0]), p0[1..];
    assert AllLower(v) by {
      forall i | 0 <= i < |v| ensures IsLower(v[i]) {
        assert v[i] == p0[i + 1];
      }
    }
    assert Lower("") == "";
    var t := v + Caps(rest);
    Assoc([u], v, Caps(rest));
    assert Camelized(s) == [u] + t;
    WordBreaksSkip(u, t, [u] + t);
    WordBreaksAfterLower(v, rest, t);
    var o := v + Odd(rest);
    CaseBreaksSkip(u, o, [u] + o);
    OddStart(rest);
    CaseBreaksAfterLower(v, Odd(rest), o);
    CaseBreaksOdd(rest, Odd(rest));
    var uc := UnderCaps(rest);
    Assoc([u], v, uc);
    LowerAppend([u] + v, uc);
    LowerUnderCaps(rest);
    JoinUnderParts(ps);
    JoinSplit(k);
  }

  /** `accountId` becomes `account_id`. */
  lemma AccountIdToSnake()
    ensures CamelToSnake("accountId") == "account_id"
  {
    CapitalizeLower("id");
    assert Caps(["id"]) == "Id";
    CamelToSnakeCaps("account", ["id"]);
    assert Join(["account", "id"]) == "account_id";
    assert "account" + Caps(["id"]) == "accountId";
  }
}
