/** The pieces of Python's `str` behaviour that the backend relies on:
    `isspace`, `strip`, `in`, `replace(p, "")`, `split()`, `float()` and
    code-point ordering of strings. */
module Text {
  import opened Wrappers

  /** Python's `str.isspace()` on one character (the Unicode whitespace set). */
  predicate IsSpace(c: char) {
    c == ' ' || ('\t' <= c <= '\r') || ('\U{1C}' <= c <= '\U{1F}')
    || c == '\U{85}' || c == '\U{A0}' || c == '\U{1680}'
    || ('\U{2000}' <= c <= '\U{200A}') || c == '\U{2028}' || c == '\U{2029}'
    || c == '\U{202F}' || c == '\U{205F}' || c == '\U{3000}'
  }

  /** An ASCII decimal digit. */
  predicate IsDigit(c: char) {
    '0' <= c <= '9'
  }

  function DigitValue(c: char): (n: nat)
    requires IsDigit(c)
    ensures n < 10
  {
    (c as int - '0' as int) as nat
  }

  function DigitChar(n: nat): (c: char)
    requires n < 10
    ensures IsDigit(c) && DigitValue(c) == n
  {
    ('0' as int + n) as char
  }

  predicate AllDigits(s: string) {
    forall i :: 0 <= i < |s| ==> IsDigit(s[i])
  }

  predicate HasDigit(s: string) {
    exists i :: 0 <= i < |s| && IsDigit(s[i])
  }

  /** The number a string of decimal digits denotes. */
  function NatValue(s: string): (n: nat)
    requires AllDigits(s)
    ensures n < Pow10(|s|)
  {
    if s == [] then 0 else 10 * NatValue(s[..|s| - 1]) + DigitValue(s[|s| - 1])
  }

  /** Length of the longest prefix of `s` made of digits. */
  function DigitRun(s: string): (n: nat)
    ensures n <= |s| && AllDigits(s[..n])
    ensures n < |s| ==> !IsDigit(s[n])
  {
    if s == [] || !IsDigit(s[0]) then 0 else 1 + DigitRun(s[1..])
  }

  // ---------------------------------------------------------------------------
  // strip()

  /** Number of whitespace characters at the front of `s`. */
  function Lead(s: string): (n: nat)
    ensures n <= |s|
    ensures forall i :: 0 <= i < n ==> IsSpace(s[i])
    ensures n < |s| ==> !IsSpace(s[n])
  {
    if s == [] || !IsSpace(s[0]) then 0 else 1 + Lead(s[1..])
  }

  /** Number of whitespace characters at the end of `s`. */
  function Trail(s: string): (n: nat)
    ensures n <= |s|
    ensures forall i :: |s| - n <= i < |s| ==> IsSpace(s[i])
    ensures n < |s| ==> !IsSpace(s[|s| - 1 - n])
  {
    if s == [] || !IsSpace(s[|s| - 1]) then 0 else 1 + Trail(s[..|s| - 1])
  }

  /** Python's `s.strip()`: `s` without its leading and trailing whitespace. */
  function Strip(s: string): (r: string)
    ensures |r| <= |s|
    ensures r != [] ==> !IsSpace(r[0]) && !IsSpace(r[|r| - 1])
    ensures r == [] ==> forall i :: 0 <= i < |s| ==> IsSpace(s[i])
    ensures (forall i :: 0 <= i < |s| ==> !IsSpace(s[i])) ==> r == s
  {
    var a := Lead(s);
    var t := s[a..];
    var b := Trail(t);
    StripEnds(s, a, b);
    StripEmpty(s, a, b);
    StripUnchanged(s, a, b);
    t[..|t| - b]
  }

  lemma StripEnds(s: string, a: nat, b: nat)
    requires a == Lead(s) && b == Trail(s[a..])
    ensures var r := s[a..][..|s| - a - b];
            r != [] ==> !IsSpace(r[0]) && !IsSpace(r[|r| - 1])
  {
    var t := s[a..];
    var r := t[..|t| - b];
    if r != [] {
      assert r[0] == s[a];
      assert r[|r| - 1] == t[|t| - 1 - b];
    }
  }

  lemma StripEmpty(s: string, a: nat, b: nat)
    requires a == Lead(s) && b == Trail(s[a..])
    ensures s[a..][..|s| - a - b] == [] ==> forall i :: 0 <= i < |s| ==> IsSpace(s[i])
  {
    var t := s[a..];
    if |t| - b == 0 {
      forall i | 0 <= i < |s| ensures IsSpace(s[i]) {
        assert i < a;
      }
    }
  }

  lemma StripUnchanged(s: string, a: nat, b: nat)
    requires a == Lead(s) && b == Trail(s[a..])
    ensures (forall i :: 0 <= i < |s| ==> !IsSpace(s[i])) ==> s[a..][..|s| - a - b] == s
  {
    if forall i :: 0 <= i < |s| ==> !IsSpace(s[i]) {
      assert a == 0;
      assert s[a..] == s;
      if b > 0 {
        assert IsSpace(s[|s| - 1]);
      }
    }
  }

  /** Text that starts and ends with a non-space character is already
      stripped, whatever it holds inside. */
  lemma StripOfTrimmed(s: string)
    requires s != [] && !IsSpace(s[0]) && !IsSpace(s[|s| - 1])
    ensures Strip(s) == s
  {
    assert Lead(s) == 0 && s[0..] == s;
    assert Trail(s) == 0 && s[..|s|] == s;
  }

  /** `strip()` never yields a lone no-break space, because U+00A0 is itself
      whitespace to Python. */
  lemma StripIsNeverNoBreakSpace(s: string)
    ensures Strip(s) != "\U{A0}"
  {
    assert IsSpace('\U{A0}');
  }

  // ---------------------------------------------------------------------------
  // `p in s` and `s.replace(p, "")`

  /** `p` occurs in `s` starting at index `i`. */
  predicate OccursAt(s: string, p: string, i: nat) {
    i + |p| <= |s| && s[i..i + |p|] == p
  }

  /** Python's substring test `p in s`. */
  function Contains(s: string, p: string): (b: bool)
    ensures b <==> exists i: nat :: OccursAt(s, p, i)
    decreases |s|
  {
    if |s| < |p| then false
    else if s[..|p|] == p then
      assert OccursAt(s, p, 0);
      true
    else
      var b := Contains(s[1..], p);
      assert b ==> exists i: nat :: OccursAt(s, p, i) by {
        if b {
          var i: nat :| OccursAt(s[1..], p, i);
          assert s[i + 1..i + 1 + |p|] == s[1..][i..i + |p|];
          assert OccursAt(s, p, i + 1);
        }
      }
      assert (exists i: nat :: OccursAt(s, p, i)) ==> b by {
        if exists i: nat :: OccursAt(s, p, i) {
          var i: nat :| OccursAt(s, p, i);
          assert i != 0;
          assert s[1..][i - 1..i - 1 + |p|] == s[i..i + |p|];
          assert OccursAt(s[1..], p, i - 1);
        }
      }
      b
  }

  /** Python's `s.replace(p, "")`: removes the non-overlapping occurrences of
      `p`, scanning left to right. */
  function RemoveAll(s: string, p: string): (r: string)
    requires p != []
    ensures |r| <= |s|
    ensures |p| == 1 ==> p[0] !in r
    ensures |p| == 1 && p[0] !in s ==> r == s
    ensures forall i :: 0 <= i < |r| ==> r[i] in s
    decreases |s|
  {
    if |s| < |p| then
      assert |p| == 1 ==> s == [];
      s
    else if s[..|p|] == p then RemoveAll(s[|p|..], p)
    else
      assert |p| == 1 ==> s[0] != p[0];
      [s[0]] + RemoveAll(s[1..], p)
  }

  /** Removes each pattern of `ps` in turn, as a chain of `replace` calls. */
  function RemoveEach(s: string, ps: seq<string>): (r: string)
    requires forall i :: 0 <= i < |ps| ==> ps[i] != []
    ensures |r| <= |s|
    decreases |ps|
  {
    if ps == [] then s else RemoveEach(RemoveAll(s, ps[0]), ps[1..])
  }

  /** What never starts in `s` is never removed from it. */
  lemma {:induction false} RemoveAllWithoutHead(s: string, p: string)
    requires p != [] && p[0] !in s
    ensures RemoveAll(s, p) == s
  {
    if |s| >= |p| {
      assert s[..|p|][0] == s[0];
      assert s[1..] + [] == s[1..];
      RemoveAllWithoutHead(s[1..], p);
      assert [s[0]] + s[1..] == s;
    }
  }

  /** A single character at the end of a string without it is removed and
      nothing else is. */
  lemma {:induction false} RemoveTrailing(s: string, c: char)
    requires c !in s
    ensures RemoveAll(s + [c], [c]) == s
  {
    if s == [] {
      assert (s + [c])[1..] == [];
    } else {
      assert (s + [c])[1..] == s[1..] + [c];
      RemoveTrailing(s[1..], c);
      assert [s[0]] + s[1..] == s;
    }
  }

  /** Removing one character distributes over concatenation. */
  lemma {:induction false} RemoveCharAppend(a: string, b: string, c: char)
    ensures RemoveAll(a + b, [c]) == RemoveAll(a, [c]) + RemoveAll(b, [c])
  {
    if a == [] {
      assert a + b == b;
    } else {
      assert (a + b)[1..] == a[1..] + b;
      assert (a + b)[..1] == a[..1];
      RemoveCharAppend(a[1..], b, c);
    }
  }

  /** A chain of `replace` calls none of whose patterns starts in `s`
      leaves `s` as it is. */
  lemma {:induction false} RemoveEachWithoutHeads(s: string, ps: seq<string>)
    requires forall i :: 0 <= i < |ps| ==> ps[i] != [] && ps[i][0] !in s
    ensures RemoveEach(s, ps) == s
    decreases |ps|
  {
    if ps != [] {
      RemoveAllWithoutHead(s, ps[0]);
      RemoveEachWithoutHeads(s, ps[1..]);
    }
  }

  /** A unit character `c` at the end of a string the patterns do not touch
      is the only thing the chain removes, provided `c` is one of the
      patterns and no longer pattern starts with it. */
  lemma {:induction false} RemoveEachTrailing(s: string, c: char, ps: seq<string>)
    requires forall i :: 0 <= i < |ps| ==> ps[i] != [] && ps[i][0] !in s
    requires forall i :: 0 <= i < |ps| && ps[i][0] == c ==> ps[i] == [c]
    requires [c] in ps
    ensures RemoveEach(s + [c], ps) == s
    decreases |ps|
  {
    if ps[0] == [c] {
      assert c !in s;
      RemoveTrailing(s, c);
      RemoveEachWithoutHeads(s, ps[1..]);
    } else {
      assert ps[0][0] !in s + [c];
      RemoveAllWithoutHead(s + [c], ps[0]);
      RemoveEachTrailing(s, c, ps[1..]);
    }
  }

  // ---------------------------------------------------------------------------
  // split()

  /** Length of the longest prefix of `s` without whitespace. */
  function WordLength(s: string): (n: nat)
    ensures n <= |s|
    ensures forall i :: 0 <= i < n ==> !IsSpace(s[i])
    ensures n < |s| ==> IsSpace(s[n])
  {
    if s == [] || IsSpace(s[0]) then 0 else 1 + WordLength(s[1..])
  }

  /** Python's `s.split()` with no separator: the maximal runs of
      non-whitespace characters, in order. */
  function Split(s: string): (tokens: seq<string>)
    decreases |s|
  {
    var a := Lead(s);
    if a == |s| then []
    else
      var t := s[a..];
      var w := WordLength(t);
      assert w >= 1;
      [t[..w]] + Split(t[w..])
  }

  /** A word ends where the first whitespace character, or the text, does. */
  lemma {:induction false} WordLengthOfWord(w: string, t: string)
    requires forall i :: 0 <= i < |w| ==> !IsSpace(w[i])
    requires t == [] || IsSpace(t[0])
    ensures WordLength(w + t) == |w|
  {
    if w == [] {
      assert w + t == t;
    } else {
      assert (w + t)[1..] == w[1..] + t;
      WordLengthOfWord(w[1..], t);
    }
  }

  /** Two words written together make one word. */
  lemma WordsJoin(a: string, b: string)
    requires IsWord(a) && IsWord(b)
    ensures IsWord(a + b)
  {
    assert forall i :: 0 <= i < |a + b| ==> (a + b)[i] == if i < |a| then a[i] else b[i - |a|];
  }

  /** Two words around one whitespace character split into those words. */
  lemma SplitTwoWords(a: string, sep: char, b: string)
    requires IsWord(a) && IsWord(b) && IsSpace(sep)
    ensures Split(a + [sep] + b) == [a, b]
  {
    var s := a + [sep] + b;
    assert Lead(s) == 0 by { assert s[0] == a[0]; }
    assert s[0..] == a + ([sep] + b);
    WordLengthOfWord(a, [sep] + b);
    assert s[0..][..|a|] == a;
    var t := [sep] + b;
    assert s[0..][|a|..] == t;
    assert Lead(t) == 1 by { assert t[1..] == b && Lead(b) == 0; }
    assert t[1..] == b + [];
    WordLengthOfWord(b, []);
    assert b[..|b|] == b && b[|b|..] == [];
    assert Split(b) == [b];
    assert Split(t) == [b];
  }

  /** `s` with every whitespace character dropped. */
  function NonSpace(s: string): string {
    if s == [] then []
    else (if IsSpace(s[0]) then [] else [s[0]]) + NonSpace(s[1..])
  }

  function Concat(ss: seq<string>): string {
    if ss == [] then [] else ss[0] + Concat(ss[1..])
  }

  predicate IsWord(t: string) {
    t != [] && forall i :: 0 <= i < |t| ==> !IsSpace(t[i])
  }

  lemma {:induction false} NonSpaceAppend(a: string, b: string)
    ensures NonSpace(a + b) == NonSpace(a) + NonSpace(b)
  {
    if a == [] {
      assert a + b == b;
    } else {
      assert (a + b)[1..] == a[1..] + b;
      NonSpaceAppend(a[1..], b);
    }
  }

  lemma {:induction false} NonSpaceOfSpaces(a: string)
    requires forall i :: 0 <= i < |a| ==> IsSpace(a[i])
    ensures NonSpace(a) == []
  {
    if a != [] {
      NonSpaceOfSpaces(a[1..]);
    }
  }

  lemma {:induction false} NonSpaceOfWord(a: string)
    requires forall i :: 0 <= i < |a| ==> !IsSpace(a[i])
    ensures NonSpace(a) == a
  {
    if a != [] {
      NonSpaceOfWord(a[1..]);
    }
  }

  /** The tokens of `split()` are words, and together they are exactly the
      non-whitespace characters of `s`, in order. */
  lemma SplitTokens(s: string)
    ensures forall i :: 0 <= i < |Split(s)| ==> IsWord(Split(s)[i])
    ensures Concat(Split(s)) == NonSpace(s)
  {
    SplitWords(s);
    SplitConcat(s);
  }

  /** Split on a text with a word after its leading whitespace. */
  lemma SplitCons(s: string)
    requires Lead(s) < |s|
    ensures var t := s[Lead(s)..];
            WordLength(t) >= 1 && Split(s) == [t[..WordLength(t)]] + Split(t[WordLength(t)..])
  {
  }

  /** Every token of `split()` is a non-empty run without whitespace. */
  lemma {:induction false} SplitWords(s: string)
    ensures forall i :: 0 <= i < |Split(s)| ==> IsWord(Split(s)[i])
    decreases |s|
  {
    if Lead(s) < |s| {
      var t := s[Lead(s)..];
      var w := WordLength(t);
      SplitCons(s);
      SplitWords(t[w..]);
      var rest := Split(t[w..]);
      forall i | 0 <= i < |Split(s)| ensures IsWord(Split(s)[i]) {
        if i > 0 { assert Split(s)[i] == rest[i - 1]; }
      }
    }
  }

  /** The tokens of `split()`, joined, are the text without its whitespace. */
  lemma {:induction false} SplitConcat(s: string)
    ensures Concat(Split(s)) == NonSpace(s)
    decreases |s|
  {
    var t := s[Lead(s)..];
    NonSpaceAfterLead(s);
    if t != [] {
      var w := WordLength(t);
      SplitCons(s);
      NonSpaceWordFirst(t);
      SplitConcat(t[w..]);
      assert ([t[..w]] + Split(t[w..]))[1..] == Split(t[w..]);
    }
  }

  /** Leading whitespace adds nothing to NonSpace. */
  lemma NonSpaceAfterLead(s: string)
    ensures NonSpace(s) == NonSpace(s[Lead(s)..])
  {
    var a := Lead(s);
    assert s == s[..a] + s[a..];
    NonSpaceAppend(s[..a], s[a..]);
    NonSpaceOfSpaces(s[..a]);
  }

  /** The first word of a text is the start of its NonSpace. */
  lemma NonSpaceWordFirst(t: string)
    ensures NonSpace(t) == t[..WordLength(t)] + NonSpace(t[WordLength(t)..])
  {
    var w := WordLength(t);
    assert t == t[..w] + t[w..];
    NonSpaceAppend(t[..w], t[w..]);
    NonSpaceOfWord(t[..w]);
  }

  // ---------------------------------------------------------------------------
  // float()

  function Pow10(n: nat): (p: nat)
    ensures p >= 1
  {
    if n == 0 then 1 else 10 * Pow10(n - 1)
  }

  /** `x / 10^n`, one digit at a time. */
  function Shifted(x: real, n: nat): (r: real)
    ensures x >= 0.0 ==> r >= 0.0
  {
    if n == 0 then x else Shifted(x, n - 1) / 10.0
  }

  /** The unsigned decimal forms Python's `float()` accepts:
      `digits`, `digits.`, `.digits` and `digits.digits`. */
  function ParseUnsigned(s: string): (r: Option<real>)
    ensures r.Some? ==> r.value >= 0.0
  {
    var k := DigitRun(s);
    var whole := NatValue(s[..k]) as real;
    if k == |s| then
      (if k > 0 then Some(whole) else None)
    else if s[k] != '.' then None
    else
      var frac := s[k + 1..];
      var j := DigitRun(frac);
      if j == |frac| && (k > 0 || j > 0) then
        Some(whole + Shifted(NatValue(frac) as real, j))
      else None
  }

  /** Python's `float(s)` on decimal notation: surrounding whitespace and one
      sign are allowed. */
  function ParseFloat(s: string): (r: Option<real>)
    ensures r.Some? ==> Strip(s) != []
  {
    var t := Strip(s);
    if t == [] then None
    else if t[0] == '-' then
      match ParseUnsigned(t[1..])
      case Some(x) => Some(-x)
      case None => None
    else if t[0] == '+' then ParseUnsigned(t[1..])
    else ParseUnsigned(t)
  }

  lemma {:induction false} NatValueOfDigitString(s: string)
    requires AllDigits(s)
    ensures DigitRun(s) == |s|
  {
    if s != [] {
      NatValueOfDigitString(s[1..]);
    }
  }

  /** A plain run of digits parses to the number it spells. */
  lemma ParseDigits(s: string)
    requires s != [] && AllDigits(s)
    ensures ParseFloat(s) == Some(NatValue(s) as real)
  {
    NatValueOfDigitString(s);
    assert forall i :: 0 <= i < |s| ==> !IsSpace(s[i]);
    assert Strip(s) == s;
    assert s[0] != '-' && s[0] != '+';
    assert s[..|s|] == s;
  }

  // ---------------------------------------------------------------------------
  // Code-point ordering of strings, as Python compares `str` values.

  predicate Less(a: string, b: string) {
    if a == [] then b != []
    else if b == [] then false
    else if a[0] != b[0] then a[0] < b[0]
    else Less(a[1..], b[1..])
  }

  predicate AtMost(a: string, b: string) {
    a == b || Less(a, b)
  }

  lemma {:induction false} LessIrreflexive(a: string)
    ensures !Less(a, a)
  {
    if a != [] {
      LessIrreflexive(a[1..]);
    }
  }

  lemma {:induction false} LessTotal(a: string, b: string)
    ensures a == b || Less(a, b) || Less(b, a)
  {
    if a != [] && b != [] && a[0] == b[0] {
      LessTotal(a[1..], b[1..]);
      if a[1..] == b[1..] {
        assert a == [a[0]] + a[1..] && b == [b[0]] + b[1..];
      }
    }
  }

  lemma {:induction false} LessTransitive(a: string, b: string, c: string)
    requires Less(a, b) && Less(b, c)
    ensures Less(a, c)
  {
    if a != [] && a[0] == b[0] && b[0] == c[0] {
      LessTransitive(a[1..], b[1..], c[1..]);
    }
  }

  lemma AtMostTotal(a: string, b: string)
    ensures AtMost(a, b) || AtMost(b, a)
  {
    LessTotal(a, b);
  }

  lemma AtMostTransitive(a: string, b: string, c: string)
    requires AtMost(a, b) && AtMost(b, c)
    ensures AtMost(a, c)
  {
    if Less(a, b) && Less(b, c) {
      LessTransitive(a, b, c);
    }
  }
}
