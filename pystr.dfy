/**
 * The Python string operations the plugin relies on (split, join, replace,
 * strip, lower, upper, str(int)), written out so that their behaviour on
 * edge cases is explicit, with the facts about them the other modules use.
 */
module PyStr {

  /** The characters for which Python's `str.isspace()` holds; `str.split()`
      and `str.strip()` without arguments use exactly this set. */
  predicate IsSpace(c: char) {
    c == ' ' || ('\t' <= c <= '\r') || ('\U{1C}' <= c <= '\U{1F}')
    || c == '\U{85}' || c == '\U{A0}' || c == '\U{1680}'
    || ('\U{2000}' <= c <= '\U{200A}') || c == '\U{2028}' || c == '\U{2029}'
    || c == '\U{202F}' || c == '\U{205F}' || c == '\U{3000}'
  }

  predicate NoSpace(w: string) {
    forall i :: 0 <= i < |w| ==> !IsSpace(w[i])
  }

  predicate StartsWith(s: string, prefix: string) {
    |prefix| <= |s| && s[..|prefix|] == prefix
  }

  /** `pat in s`, which is also what an unanchored regular-expression search
      for a literal pattern decides. */
  predicate Contains(s: string, pat: string)
    decreases |s|
  {
    StartsWith(s, pat) || (s != [] && Contains(s[1..], pat))
  }

  // ---------------------------------------------------------------------
  // sep.join(parts), s.split(sep), s.replace(old, new), s.count(old)
  // ---------------------------------------------------------------------

  function JoinWith(sep: string, parts: seq<string>): string
  {
    if |parts| == 0 then ""
    else if |parts| == 1 then parts[0]
    else parts[0] + sep + JoinWith(sep, parts[1..])
  }

  /** `s.split(sep)` for a non-empty separator: the pieces between the
      non-overlapping occurrences of `sep`, found from left to right. */
  function SplitOn(s: string, sep: string): (r: seq<string>)
    requires sep != []
    ensures |r| >= 1
    decreases |s|
  {
    if |s| < |sep| then [s]
    else if s[..|sep|] == sep then [""] + SplitOn(s[|sep|..], sep)
    else
      var rest := SplitOn(s[1..], sep);
      [[s[0]] + rest[0]] + rest[1..]
  }

  /** `s.replace(pat, rep)`: every non-overlapping occurrence, left to right. */
  function ReplaceAll(s: string, pat: string, rep: string): string
    requires pat != []
    decreases |s|
  {
    if |s| < |pat| then s
    else if s[..|pat|] == pat then rep + ReplaceAll(s[|pat|..], pat, rep)
    else [s[0]] + ReplaceAll(s[1..], pat, rep)
  }

  /** `s.count(pat)`: the number of occurrences `ReplaceAll` replaces. */
  function Count(s: string, pat: string): nat
    requires pat != []
    decreases |s|
  {
    if |s| < |pat| then 0
    else if s[..|pat|] == pat then 1 + Count(s[|pat|..], pat)
    else Count(s[1..], pat)
  }

  /** `s.replace(pat, rep, 1)`. */
  function ReplaceFirst(s: string, pat: string, rep: string): string
    requires pat != []
    decreases |s|
  {
    if |s| < |pat| then s
    else if s[..|pat|] == pat then rep + s[|pat|..]
    else [s[0]] + ReplaceFirst(s[1..], pat, rep)
  }

  lemma JoinConsFirst(sep: string, c: char, parts: seq<string>)
    requires |parts| >= 1
    ensures JoinWith(sep, [[c] + parts[0]] + parts[1..]) == [c] + JoinWith(sep, parts)
  {
    var ps := [[c] + parts[0]] + parts[1..];
    if |parts| > 1 {
      assert ps[1..] == parts[1..];
    }
  }

  /** Replacing is splitting at the occurrences and joining with the
      replacement: the text between occurrences is kept, in order. */
  lemma {:induction false} ReplaceIsJoinOfSplit(s: string, pat: string, rep: string)
    requires pat != []
    ensures ReplaceAll(s, pat, rep) == JoinWith(rep, SplitOn(s, pat))
    decreases |s|
  {
    if |s| < |pat| {
    } else if s[..|pat|] == pat {
      ReplaceIsJoinOfSplit(s[|pat|..], pat, rep);
      var rest := SplitOn(s[|pat|..], pat);
      assert ([""] + rest)[1..] == rest;
    } else {
      ReplaceIsJoinOfSplit(s[1..], pat, rep);
      JoinConsFirst(rep, s[0], SplitOn(s[1..], pat));
    }
  }

  lemma {:induction false} ReplaceWithItself(s: string, pat: string)
    requires pat != []
    ensures ReplaceAll(s, pat, pat) == s
    decreases |s|
  {
    if |s| < |pat| {
    } else if s[..|pat|] == pat {
      ReplaceWithItself(s[|pat|..], pat);
      assert s == s[..|pat|] + s[|pat|..];
    } else {
      ReplaceWithItself(s[1..], pat);
      assert s == [s[0]] + s[1..];
    }
  }

  /** `sep.join(s.split(sep)) == s`. */
  lemma SplitJoinRoundTrip(s: string, sep: string)
    requires sep != []
    ensures JoinWith(sep, SplitOn(s, sep)) == s
  {
    ReplaceIsJoinOfSplit(s, sep, sep);
    ReplaceWithItself(s, sep);
  }

  lemma {:induction false} SplitLength(s: string, sep: string)
    requires sep != []
    ensures |SplitOn(s, sep)| == Count(s, sep) + 1
    decreases |s|
  {
    if |s| < |sep| {
    } else if s[..|sep|] == sep {
      SplitLength(s[|sep|..], sep);
    } else {
      SplitLength(s[1..], sep);
    }
  }

  /** One more replacement adds the difference of the lengths once more. */
  lemma GrowthStep(total: int, rest: int, c: int, lr: int, ls: int, lp: int)
    requires rest == (ls - lp) + c * (lr - lp) && total == lr + rest
    ensures total == ls + (1 + c) * (lr - lp)
  {
    assert (1 + c) * (lr - lp) == (lr - lp) + c * (lr - lp);
  }

  lemma {:induction false} ReplaceLength(s: string, pat: string, rep: string)
    requires pat != []
    ensures |ReplaceAll(s, pat, rep)| == |s| + Count(s, pat) * (|rep| - |pat|)
    decreases |s|
  {
    if |s| < |pat| {
    } else if s[..|pat|] == pat {
      var t := s[|pat|..];
      ReplaceLength(t, pat, rep);
      assert Count(s, pat) == 1 + Count(t, pat);
      assert |ReplaceAll(s, pat, rep)| == |rep| + |ReplaceAll(t, pat, rep)|;
      GrowthStep(|ReplaceAll(s, pat, rep)|, |ReplaceAll(t, pat, rep)|, Count(t, pat), |rep|, |s|, |pat|);
    } else {
      var t := s[1..];
      ReplaceLength(t, pat, rep);
      assert Count(s, pat) == Count(t, pat);
      assert |ReplaceAll(s, pat, rep)| == 1 + |ReplaceAll(t, pat, rep)|;
    }
  }

  lemma {:induction false} ReplaceWithoutMatch(s: string, pat: string, rep: string)
    requires pat != [] && Count(s, pat) == 0
    ensures ReplaceAll(s, pat, rep) == s
    decreases |s|
  {
    if |s| < |pat| {
    } else {
      ReplaceWithoutMatch(s[1..], pat, rep);
      assert s == [s[0]] + s[1..];
    }
  }

  lemma {:induction false} CountWithoutOccurrence(s: string, pat: string)
    requires pat != [] && !Contains(s, pat)
    ensures Count(s, pat) == 0
    decreases |s|
  {
    if |s| >= |pat| {
      CountWithoutOccurrence(s[1..], pat);
    }
  }

  lemma CountOfAbsentChar(s: string, c: char)
    requires c !in s
    ensures Count(s, [c]) == 0
  {
    if Contains(s, [c]) {
      ContainsCharIsMember(s, c);
    }
    CountWithoutOccurrence(s, [c]);
  }

  lemma {:induction false} ContainsCharIsMember(s: string, c: char)
    requires Contains(s, [c])
    ensures c in s
    decreases |s|
  {
    if StartsWith(s, [c]) {
      assert s[0] == s[..1][0];
    } else {
      ContainsCharIsMember(s[1..], c);
      assert s[1..] <= s[1..] && c in s[1..];
      assert exists i :: 1 <= i < |s| && s[i] == c;
    }
  }

  /** Replacing every `c` by a text without `c` leaves no `c` behind. */
  lemma {:induction false} ReplaceRemovesChar(s: string, c: char, rep: string)
    requires c !in rep
    ensures c !in ReplaceAll(s, [c], rep)
    decreases |s|
  {
    if |s| < 1 {
    } else if s[..1] == [c] {
      ReplaceRemovesChar(s[1..], c, rep);
    } else {
      ReplaceRemovesChar(s[1..], c, rep);
      assert s[0] != c;
    }
  }

  /** A text without the separator is a single piece. */
  lemma {:induction false} SplitWithoutSeparator(a: string, c: char)
    requires c !in a
    ensures SplitOn(a, [c]) == [a]
    decreases |a|
  {
    if a != [] {
      SplitWithoutSeparator(a[1..], c);
      assert a == [a[0]] + a[1..];
    }
  }

  /** Splitting stops at the first separator: the piece before it comes
      first and the rest is split on its own. */
  lemma {:induction false} SplitAtFirst(a: string, c: char, b: string)
    requires c !in a
    ensures SplitOn(a + [c] + b, [c]) == [a] + SplitOn(b, [c])
    decreases |a|
  {
    var s := a + [c] + b;
    if a == [] {
      assert s[..1] == [c] && s[1..] == b;
    } else {
      assert s[..1] == [a[0]] && s[1..] == a[1..] + [c] + b;
      SplitAtFirst(a[1..], c, b);
      assert a == [a[0]] + a[1..];
    }
  }
  /** Pieces without the separator, joined by it, split back into those
      pieces. */
  lemma {:induction false} SplitOfJoin(ws: seq<string>, c: char)
    requires |ws| >= 1 && forall k :: 0 <= k < |ws| ==> c !in ws[k]
    ensures SplitOn(JoinWith([c], ws), [c]) == ws
  {
    if |ws| == 1 {
      SplitWithoutSeparator(ws[0], c);
    } else {
      SplitOfJoin(ws[1..], c);
      SplitAtFirst(ws[0], c, JoinWith([c], ws[1..]));
      assert ws == [ws[0]] + ws[1..];
    }
  }

  /** Replacing the separator of joined pieces joins them with the
      replacement instead. */
  lemma ReplaceSeparatorOfJoin(ws: seq<string>, c: char, rep: string)
    requires |ws| >= 1 && forall k :: 0 <= k < |ws| ==> c !in ws[k]
    ensures ReplaceAll(JoinWith([c], ws), [c], rep) == JoinWith(rep, ws)
  {
    ReplaceIsJoinOfSplit(JoinWith([c], ws), [c], rep);
    SplitOfJoin(ws, c);
  }


  // ---------------------------------------------------------------------
  // s.split() without a separator
  // ---------------------------------------------------------------------

  function WordEnd(s: string, i: nat): (j: nat)
    requires i <= |s|
    ensures i <= j <= |s|
    ensures j == |s| || IsSpace(s[j])
    ensures forall k :: i <= k < j ==> !IsSpace(s[k])
    decreases |s| - i
  {
    if i < |s| && !IsSpace(s[i]) then WordEnd(s, i + 1) else i
  }

  /** `s.split()`: the maximal runs of non-whitespace characters. */
  function Words(s: string): (r: seq<string>)
    ensures forall k :: 0 <= k < |r| ==> r[k] != [] && NoSpace(r[k])
    decreases |s|
  {
    if s == [] then []
    else if IsSpace(s[0]) then Words(s[1..])
    else
      var n := WordEnd(s, 0);
      [s[..n]] + Words(s[n..])
  }

  lemma WordEndOfSpaceless(s: string, i: nat)
    requires i <= |s| && NoSpace(s)
    ensures WordEnd(s, i) == |s|
    decreases |s| - i
  {
    if i < |s| {
      WordEndOfSpaceless(s, i + 1);
    }
  }

  /** A word followed by a space is split off as the first word. */
  lemma WordsCons(a: string, b: string)
    requires a != [] && NoSpace(a)
    ensures Words(a + " " + b) == [a] + Words(b)
  {
    var s := a + " " + b;
    WordEndAt(s, 0, |a|);
    assert s[..|a|] == a;
    assert s[|a|..] == " " + b;
    assert (" " + b)[1..] == b;
  }

  /** Words joined by single spaces split back into those words. */
  lemma {:induction false} WordsOfJoin(ws: seq<string>)
    requires forall k :: 0 <= k < |ws| ==> ws[k] != [] && NoSpace(ws[k])
    ensures Words(JoinWith(" ", ws)) == ws
  {
    if |ws| == 1 {
      WordsOfSpaceless(ws[0]);
    } else if |ws| > 1 {
      WordsOfJoin(ws[1..]);
      WordsCons(ws[0], JoinWith(" ", ws[1..]));
      assert ws == [ws[0]] + ws[1..];
    }
  }

  /** A character in neither the parts nor the separator is not in the
      joined text. */
  lemma {:induction false} CharNotInJoin(sep: string, ws: seq<string>, c: char)
    requires c !in sep && forall k :: 0 <= k < |ws| ==> c !in ws[k]
    ensures c !in JoinWith(sep, ws)
  {
    if |ws| > 1 {
      CharNotInJoin(sep, ws[1..], c);
    }
  }

  lemma WordEndAt(s: string, i: nat, n: nat)
    requires i <= n < |s| && IsSpace(s[n])
    requires forall k :: i <= k < n ==> !IsSpace(s[k])
    ensures WordEnd(s, i) == n
    decreases n - i
  {
    if i < n {
      WordEndAt(s, i + 1, n);
    }
  }

  lemma WordsOfSpaceless(s: string)
    requires NoSpace(s)
    ensures Words(s) == if s == [] then [] else [s]
  {
    if s != [] {
      assert !IsSpace(s[0]);
      WordEndOfSpaceless(s, 0);
      assert s[..|s|] == s;
      assert s[|s|..] == [];
    }
  }

  // ---------------------------------------------------------------------
  // strip, lower, upper, str(n)
  // ---------------------------------------------------------------------

  function LStripBy(s: string, drop: char -> bool): (r: string)
    ensures r == [] || !drop(r[0])
    ensures |r| <= |s| && r == s[|s| - |r|..]
    decreases |s|
  {
    if s != [] && drop(s[0]) then LStripBy(s[1..], drop) else s
  }

  function RStripBy(s: string, drop: char -> bool): (r: string)
    ensures r == [] || !drop(r[|r| - 1])
    ensures |r| <= |s| && r == s[..|r|]
    decreases |s|
  {
    if s != [] && drop(s[|s| - 1]) then RStripBy(s[..|s| - 1], drop) else s
  }

  /** `s.strip(chars)`, with `drop` deciding membership in `chars`. */
  function StripBy(s: string, drop: char -> bool): (r: string)
    ensures r == [] || (!drop(r[0]) && !drop(r[|r| - 1]))
  {
    RStripBy(LStripBy(s, drop), drop)
  }

  /** `s.strip()`. */
  function StripSpace(s: string): string
  {
    StripBy(s, IsSpace)
  }

  lemma StripNothing(s: string, drop: char -> bool)
    requires s == [] || (!drop(s[0]) && !drop(s[|s| - 1]))
    ensures StripBy(s, drop) == s
  {
  }

  /** Leading characters to drop go; a text whose ends are kept remains. */
  lemma {:induction false} StripLeading(p: string, w: string, drop: char -> bool)
    requires forall i :: 0 <= i < |p| ==> drop(p[i])
    requires w != [] && !drop(w[0]) && !drop(w[|w| - 1])
    ensures StripBy(p + w, drop) == w
    decreases |p|
  {
    if p == [] {
      assert p + w == w;
      StripNothing(w, drop);
    } else {
      assert (p + w)[1..] == p[1..] + w;
      StripLeading(p[1..], w, drop);
    }
  }

  function LowerChar(c: char): char {
    if 'A' <= c <= 'Z' then (c as int + 32) as char else c
  }

  function UpperChar(c: char): char {
    if 'a' <= c <= 'z' then (c as int - 32) as char else c
  }

  /** `s.lower()` restricted to ASCII letters. */
  function LowerAscii(s: string): (r: string)
    ensures |r| == |s|
  {
    seq(|s|, i requires 0 <= i < |s| => LowerChar(s[i]))
  }

  /** `s.upper()` restricted to ASCII letters. */
  function UpperAscii(s: string): (r: string)
    ensures |r| == |s|
  {
    seq(|s|, i requires 0 <= i < |s| => UpperChar(s[i]))
  }

  predicate IsDigit(c: char) {
    '0' <= c <= '9'
  }

  function DigitChar(d: nat): (c: char)
    requires d < 10
    ensures IsDigit(c)
  {
    (d + '0' as int) as char
  }

  /** `str(n)` for a natural number. */
  function NatToString(n: nat): (r: string)
    ensures |r| >= 1 && forall i :: 0 <= i < |r| ==> IsDigit(r[i])
    decreases n
  {
    if n < 10 then [DigitChar(n)] else NatToString(n / 10) + [DigitChar(n % 10)]
  }
}
