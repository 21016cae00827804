/** The Kotlin string operations the calendar output gateway relies on, over
    strings as sequences of characters: ASCII case mapping (`toLowerCase`,
    `capitalize`) and literal, case-sensitive, left-to-right, non-overlapping
    replacement of every occurrence of a pattern (`String.replace`).
 */
module Text {

  // ---------------------------------------------------------------------
  // ASCII case mapping
  // ---------------------------------------------------------------------

  predicate IsUpper(c: char) { 'A' <= c <= 'Z' }

  predicate IsLower(c: char) { 'a' <= c <= 'z' }

  /** Lower-cases an ASCII capital letter; every other character is kept. */
  function LowerChar(c: char): (r: char)
    ensures !IsUpper(r)
    ensures IsUpper(c) ==> IsLower(r) && r as int == c as int + 32
    ensures !IsUpper(c) ==> r == c
  {
    if IsUpper(c) then (c as int + 32) as char else c
  }

  /** Upper-cases an ASCII small letter; every other character is kept. */
  function UpperChar(c: char): (r: char)
    ensures !IsLower(r)
    ensures IsLower(c) ==> IsUpper(r) && r as int + 32 == c as int
    ensures !IsLower(c) ==> r == c
  {
    if IsLower(c) then (c as int - 32) as char else c
  }

  /** Kotlin `String.toLowerCase()` restricted to ASCII: every character is
      lower-cased in place. */
  function ToLower(s: string): (r: string)
    ensures |r| == |s|
    ensures forall i :: 0 <= i < |s| ==> r[i] == LowerChar(s[i])
  {
    if s == [] then [] else [LowerChar(s[0])] + ToLower(s[1..])
  }

  /** Kotlin `String.capitalize()` restricted to ASCII: a leading small letter
      becomes a capital, the rest of the string is kept as it is. */
  function Capitalize(s: string): (r: string)
    ensures |r| == |s|
    ensures s != [] ==> r[0] == UpperChar(s[0]) && r[1..] == s[1..]
    ensures s == [] ==> r == []
  {
    if s != [] && IsLower(s[0]) then [UpperChar(s[0])] + s[1..] else s
  }

  /** `capitalize()` after `toLowerCase()` gives a title-case word: the first
      character upper-cased, every other one lower-cased, the length kept. */
  lemma TitleCase(s: string)
    ensures |Capitalize(ToLower(s))| == |s|
    ensures s != [] ==> Capitalize(ToLower(s))[0] == UpperChar(LowerChar(s[0]))
    ensures s != [] && IsUpper(s[0]) ==> Capitalize(ToLower(s))[0] == s[0]
    ensures forall i :: 1 <= i < |s| ==> Capitalize(ToLower(s))[i] == LowerChar(s[i])
  {
  }

  // ---------------------------------------------------------------------
  // Occurrences of a pattern
  // ---------------------------------------------------------------------

  /** `s` contains `p` as a contiguous piece. */
  predicate Contains(s: string, p: string)
    decreases |s|
  {
    p <= s || (s != [] && Contains(s[1..], p))
  }

  /** The recursive definition agrees with "some suffix of `s` starts with `p`". */
  lemma {:induction false} ContainsIffAtIndex(s: string, p: string)
    ensures Contains(s, p) <==> exists i :: 0 <= i <= |s| && p <= s[i..]
    decreases |s|
  {
    assert s[0..] == s;
    if s != [] {
      ContainsIffAtIndex(s[1..], p);
      if Contains(s[1..], p) {
        var i :| 0 <= i <= |s[1..]| && p <= s[1..][i..];
        assert s[1..][i..] == s[i + 1..];
      }
      if i :| 0 < i <= |s| && p <= s[i..] {
        assert s[1..][i - 1..] == s[i..];
        assert Contains(s[1..], p);
      }
    }
  }

  /** A pattern is a prefix of `[c] + t` when it starts with `c` and the rest
      of it is a prefix of `t`. */
  lemma PrefixOfCons(c: char, t: string, p: string)
    requires p != []
    ensures p <= [c] + t <==> p[0] == c && p[1..] <= t
  {
  }

  /** A text shorter than the pattern cannot contain it. */
  lemma {:induction false} ShorterThanPattern(s: string, p: string)
    requires |s| < |p|
    ensures !Contains(s, p)
    decreases |s|
  {
    if s != [] {
      ShorterThanPattern(s[1..], p);
    }
  }

  /** An occurrence in `a + b` whose first character cannot lie in `a` lies in `b`. */
  lemma {:induction false} ContainsAppend(a: string, b: string, p: string)
    requires p != [] && p[0] !in a
    requires Contains(a + b, p)
    ensures Contains(b, p)
    decreases |a|
  {
    if a != [] {
      assert (a + b)[1..] == a[1..] + b;
      ContainsAppend(a[1..], b, p);
    } else {
      assert a + b == b;
    }
  }

  // ---------------------------------------------------------------------
  // Kotlin `String.replace(pattern, replacement)` for a non-empty pattern
  // ---------------------------------------------------------------------

  /** Scans `s` from the left; wherever `pattern` starts, emits `replacement`
      and resumes after the matched characters, otherwise copies one character.
      A template without the pattern, or a replacement equal to the pattern,
      leaves the text exactly as it was. */
  function ReplaceAll(s: string, pattern: string, replacement: string): (r: string)
    requires pattern != []
    ensures !Contains(s, pattern) ==> r == s
    ensures replacement == pattern ==> r == s
    decreases |s|
  {
    if s == [] then []
    else if pattern <= s then replacement + ReplaceAll(s[|pattern|..], pattern, replacement)
    else [s[0]] + ReplaceAll(s[1..], pattern, replacement)
  }

  /** A text that starts with the pattern starts, once replaced, with the replacement. */
  lemma ReplaceAllLeading(pattern: string, rest: string, replacement: string)
    requires pattern != []
    ensures ReplaceAll(pattern + rest, pattern, replacement) == replacement + ReplaceAll(rest, pattern, replacement)
  {
  }

  /** Splits `s` at the occurrences `ReplaceAll` matches: the text before the
      first match, between consecutive matches, and after the last one. */
  function Split(s: string, pattern: string): (pieces: seq<string>)
    requires pattern != []
    ensures pieces != []
    decreases |s|
  {
    if s == [] then [[]]
    else if pattern <= s then [[]] + Split(s[|pattern|..], pattern)
    else
      var rest := Split(s[1..], pattern);
      [[s[0]] + rest[0]] + rest[1..]
  }

  /** Concatenates `pieces` with `sep` between neighbours. */
  function Join(pieces: seq<string>, sep: string): (r: string)
    requires pieces != []
    ensures pieces[0] <= r
  {
    if |pieces| == 1 then pieces[0] else pieces[0] + sep + Join(pieces[1..], sep)
  }

  function SumLengths(pieces: seq<string>): nat
  {
    if pieces == [] then 0 else |pieces[0]| + SumLengths(pieces[1..])
  }

  /** The length of a join: the pieces plus one separator between neighbours. */
  lemma {:induction false} JoinLength(pieces: seq<string>, sep: string)
    requires pieces != []
    ensures |Join(pieces, sep)| == SumLengths(pieces) + (|pieces| - 1) * |sep|
  {
    if |pieces| > 1 {
      JoinLength(pieces[1..], sep);
    }
  }

  /** Putting a character in front of the first piece puts it in front of the join. */
  lemma JoinConsFirst(c: char, pieces: seq<string>, sep: string)
    requires pieces != []
    ensures Join([[c] + pieces[0]] + pieces[1..], sep) == [c] + Join(pieces, sep)
  {
  }

  /** Splitting at the pattern and joining with the pattern gives `s` back. */
  lemma {:induction false} JoinSplit(s: string, pattern: string)
    requires pattern != []
    ensures Join(Split(s, pattern), pattern) == s
    decreases |s|
  {
    if s == [] {
    } else if pattern <= s {
      JoinSplit(s[|pattern|..], pattern);
      assert s == pattern + s[|pattern|..];
    } else {
      JoinSplit(s[1..], pattern);
      JoinConsFirst(s[0], Split(s[1..], pattern), pattern);
      assert s == [s[0]] + s[1..];
    }
  }

  /** Replacing every occurrence is joining the split pieces with the replacement. */
  lemma {:induction false} ReplaceAllIsJoinSplit(s: string, pattern: string, replacement: string)
    requires pattern != []
    ensures ReplaceAll(s, pattern, replacement) == Join(Split(s, pattern), replacement)
    decreases |s|
  {
    if s == [] {
    } else if pattern <= s {
      ReplaceAllIsJoinSplit(s[|pattern|..], pattern, replacement);
    } else {
      ReplaceAllIsJoinSplit(s[1..], pattern, replacement);
      JoinConsFirst(s[0], Split(s[1..], pattern), replacement);
    }
  }

  /** No piece of the split contains the pattern: every occurrence was matched. */
  lemma {:induction false} SplitPiecesFree(s: string, pattern: string)
    requires pattern != []
    ensures forall i :: 0 <= i < |Split(s, pattern)| ==> !Contains(Split(s, pattern)[i], pattern)
    decreases |s|
  {
    var pieces := Split(s, pattern);
    if s == [] {
      assert pieces == [[]];
    } else if pattern <= s {
      SplitPiecesFree(s[|pattern|..], pattern);
      forall i | 0 <= i < |pieces| ensures !Contains(pieces[i], pattern) {
        if i > 0 {
          assert pieces[i] == Split(s[|pattern|..], pattern)[i - 1];
        }
      }
    } else {
      var rest := Split(s[1..], pattern);
      SplitPiecesFree(s[1..], pattern);
      JoinSplit(s[1..], pattern);
      var first := [s[0]] + rest[0];
      assert first <= s by {
        assert rest[0] <= s[1..];
        assert s == [s[0]] + s[1..];
      }
      assert !(pattern <= first);
      assert first[1..] == rest[0];
      assert !Contains(first, pattern);
      forall i | 0 <= i < |pieces| ensures !Contains(pieces[i], pattern) {
        if i > 0 {
          assert pieces[i] == rest[i];
        }
      }
    }
  }

  /** The first piece ends at the leftmost occurrence of the pattern: no
      occurrence starts inside it, and, unless it is the whole text, one starts
      right after it. */
  lemma {:induction false} SplitFirstIsLeftmost(s: string, pattern: string)
    requires pattern != []
    ensures var first := Split(s, pattern)[0];
      && first <= s
      && (forall i :: 0 <= i < |first| ==> !(pattern <= s[i..]))
      && (|Split(s, pattern)| == 1 ==> first == s)
      && (|Split(s, pattern)| > 1 ==> pattern <= s[|first|..])
    decreases |s|
  {
    if s != [] && !(pattern <= s) {
      var rest := Split(s[1..], pattern);
      var first := Split(s, pattern)[0];
      SplitFirstIsLeftmost(s[1..], pattern);
      assert first == [s[0]] + rest[0];
      assert s == [s[0]] + s[1..];
      forall i | 0 <= i < |first| ensures !(pattern <= s[i..]) {
        if i > 0 {
          assert s[i..] == s[1..][i - 1..];
        }
      }
      if |rest| > 1 {
        assert s[|first|..] == s[1..][|rest[0]|..];
      }
    }
  }

  /** After the first piece and the occurrence that ends it, the split starts
      afresh on the rest of the text. With `SplitFirstIsLeftmost` this fixes
      the split as the leftmost, non-overlapping one. */
  lemma {:induction false} SplitRest(s: string, pattern: string)
    requires pattern != []
    requires |Split(s, pattern)| > 1
    ensures var first := Split(s, pattern)[0];
      |first| + |pattern| <= |s|
      && Split(s, pattern)[1..] == Split(s[|first| + |pattern|..], pattern)
    decreases |s|
  {
    if !(pattern <= s) {
      var rest := Split(s[1..], pattern);
      SplitRest(s[1..], pattern);
      assert Split(s, pattern)[1..] == rest[1..];
      assert s[1..][|rest[0]| + |pattern|..] == s[1 + |rest[0]| + |pattern|..];
    }
  }

  /** A self-overlapping pattern is matched leftmost and without overlap:
      in "aaa" only the first two characters form a match. */
  lemma OverlappingMatchIsLeftmost()
    ensures Split("aaa", "aa") == ["", "a"]
    ensures ReplaceAll("aaa", "aa", "b") == "ba"
  {
    assert "aa" <= "aaa";
    assert "aaa"[2..] == "a";
    assert !("aa" <= "a");
    assert Split("a"[1..], "aa") == [[]];
    assert ["a"[0]] + [] == "a";
    assert Split("a", "aa") == ["a"];
  }

  /** The pattern is absent exactly when the split has a single piece. */
  lemma {:induction false} SplitSingleIffAbsent(s: string, pattern: string)
    requires pattern != []
    ensures !Contains(s, pattern) <==> |Split(s, pattern)| == 1
    decreases |s|
  {
    if s == [] {
    } else if pattern <= s {
      assert |Split(s, pattern)| >= 2;
    } else {
      SplitSingleIffAbsent(s[1..], pattern);
    }
  }

  /** Each match changes the length by the difference of replacement and pattern. */
  lemma ReplaceAllLength(s: string, pattern: string, replacement: string)
    requires pattern != []
    ensures |ReplaceAll(s, pattern, replacement)|
         == |s| + (|Split(s, pattern)| - 1) * (|replacement| - |pattern|)
  {
    ReplaceAllIsJoinSplit(s, pattern, replacement);
    JoinSplit(s, pattern);
    var pieces := Split(s, pattern);
    JoinLength(pieces, replacement);
    JoinLength(pieces, pattern);
    var m := |pieces| - 1;
    assert m * (|replacement| - |pattern|) == m * |replacement| - m * |pattern|;
  }

  /** If a result of `ReplaceAll` starts with a suffix of the pattern, so did the
      text, provided the replacement is non-empty and its first character does
      not occur in the pattern. */
  lemma {:induction false} SuffixPrefixOfResult(s: string, pattern: string, replacement: string, k: nat)
    requires pattern != [] && replacement != [] && replacement[0] !in pattern
    requires k <= |pattern|
    ensures pattern[k..] <= ReplaceAll(s, pattern, replacement) ==> pattern[k..] <= s
    decreases |s|
  {
    var r := ReplaceAll(s, pattern, replacement);
    if k < |pattern| && s != [] {
      if pattern <= s {
        assert r[0] == replacement[0];
        assert !(pattern[k..] <= r);
      } else {
        SuffixPrefixOfResult(s[1..], pattern, replacement, k + 1);
        assert pattern[k..][1..] == pattern[k + 1..];
        PrefixOfCons(s[0], ReplaceAll(s[1..], pattern, replacement), pattern[k..]);
        PrefixOfCons(s[0], s[1..], pattern[k..]);
        assert s == [s[0]] + s[1..];
      }
    }
  }

  /** After `ReplaceAll`, the pattern occurs nowhere, provided the replacement is
      non-empty, starts with a character that does not occur in the pattern, and
      does not contain the pattern's first character. Dropping any one of the
      three conditions makes the claim fail (see `ReplacementCanRebuildPattern`). */
  lemma {:induction false} ReplaceAllRemovesPattern(s: string, pattern: string, replacement: string)
    requires pattern != [] && replacement != []
    requires replacement[0] !in pattern && pattern[0] !in replacement
    ensures !Contains(ReplaceAll(s, pattern, replacement), pattern)
    decreases |s|
  {
    var r := ReplaceAll(s, pattern, replacement);
    if s == [] {
    } else if pattern <= s {
      var rest := ReplaceAll(s[|pattern|..], pattern, replacement);
      ReplaceAllRemovesPattern(s[|pattern|..], pattern, replacement);
      if Contains(r, pattern) {
        ContainsAppend(replacement, rest, pattern);
      }
    } else {
      var rest := ReplaceAll(s[1..], pattern, replacement);
      ReplaceAllRemovesPattern(s[1..], pattern, replacement);
      SuffixPrefixOfResult(s[1..], pattern, replacement, 1);
      PrefixOfCons(s[0], rest, pattern);
      PrefixOfCons(s[0], s[1..], pattern);
      assert s == [s[0]] + s[1..];
      assert r == [s[0]] + rest;
      assert !(pattern <= r);
      assert r[1..] == rest;
    }
  }

  /** Under the same conditions, replacing a second time changes nothing. */
  lemma ReplaceAllIdempotent(s: string, pattern: string, replacement: string)
    requires pattern != [] && replacement != []
    requires replacement[0] !in pattern && pattern[0] !in replacement
    ensures ReplaceAll(ReplaceAll(s, pattern, replacement), pattern, replacement)
         == ReplaceAll(s, pattern, replacement)
  {
    ReplaceAllRemovesPattern(s, pattern, replacement);
  }

  /** None of the three conditions of `ReplaceAllRemovesPattern` can be dropped:
      an empty replacement, one starting with a character of the pattern, and
      one containing the pattern's first character can each rebuild the
      pattern out of the characters around a match. */
  lemma ReplacementCanRebuildPattern()
    ensures ReplaceAll("<b<b>>", "<b>", "") == "<b>"
    ensures ReplaceAll("<<b>>", "<b>", "b") == "<b>"
    ensures ReplaceAll("<b>b>", "<b>", "x<") == "x<b>"
  {
    assert ReplaceAll("b>", "<b>", "x<") == "b>";
    assert ReplaceAll("<b>b>", "<b>", "x<") == "x<" + "b>";
    assert ReplaceAll(">", "<b>", "") == ">";
    assert ReplaceAll("<b>>", "<b>", "") == ">";
    assert ReplaceAll("b<b>>", "<b>", "") == "b>";
    assert ReplaceAll(">", "<b>", "b") == ">";
    assert ReplaceAll("<b>>", "<b>", "b") == "b>";
  }
}
