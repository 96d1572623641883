/**
 The string primitives the reply selector relies on, stated over Dafny's
 `string` (a sequence of Unicode scalar values, like a Python `str` without
 lone surrogates).

 - `IsSpace` is Python's `str.isspace()`, code point by code point.
 - `Lower` is `str.lower()` restricted to ASCII letters.
 - `Strip`, `Split`, `Contains` and `StartsWithAny` are `str.strip()`,
   `str.split()`, `k in s` and `s.startswith(p)` over that whitespace notion.
 */
module Text {

  /** The 29 code points for which Python's `str.isspace()` holds. */
  predicate IsSpace(c: char) {
    || ('\t' <= c <= '\r')
    || ('\U{1C}' <= c <= ' ')
    || c == '\U{85}' || c == '\U{A0}' || c == '\U{1680}'
    || ('\U{2000}' <= c <= '\U{200A}')
    || c == '\U{2028}' || c == '\U{2029}' || c == '\U{202F}'
    || c == '\U{205F}' || c == '\U{3000}'
  }

  /** The same 29 code points, listed one by one in increasing order. */
  const SpaceCodePoints: seq<char> := [
    '\t', '\n', '\U{0B}', '\U{0C}', '\r', '\U{1C}', '\U{1D}', '\U{1E}', '\U{1F}', ' ',
    '\U{85}', '\U{A0}', '\U{1680}',
    '\U{2000}', '\U{2001}', '\U{2002}', '\U{2003}', '\U{2004}', '\U{2005}',
    '\U{2006}', '\U{2007}', '\U{2008}', '\U{2009}', '\U{200A}',
    '\U{2028}', '\U{2029}', '\U{202F}', '\U{205F}', '\U{3000}'
  ]

  /** `IsSpace` holds for exactly the 29 listed code points, which are distinct. */
  lemma IsSpaceListed(c: char)
    ensures IsSpace(c) <==> c in SpaceCodePoints
    ensures |SpaceCodePoints| == 29
    ensures forall i, j :: 0 <= i < j < |SpaceCodePoints| ==> SpaceCodePoints[i] < SpaceCodePoints[j]
  {
    SpaceCodePointsIncreasing();
    if IsSpace(c) {
      SpaceIsListed(c);
    } else {
      ListedAreSpace();
    }
  }

  lemma SpaceCodePointsIncreasing()
    ensures forall i, j :: 0 <= i < j < |SpaceCodePoints| ==> SpaceCodePoints[i] < SpaceCodePoints[j]
  {
    var sp := SpaceCodePoints;
    forall i | 0 <= i < |sp| - 1 ensures sp[i] < sp[i + 1] { }
    IncreasingSteps(sp);
  }

  lemma SpaceIsListed(c: char)
    requires IsSpace(c)
    ensures c in SpaceCodePoints
  {
    var sp := SpaceCodePoints;
    if '\t' <= c <= '\r' {
      assert c == sp[c as int - 9];
    } else if '\U{1C}' <= c <= ' ' {
      assert c == sp[c as int - 0x1C + 5];
    } else if '\U{2000}' <= c <= '\U{200A}' {
      assert c == sp[c as int - 0x2000 + 13];
    } else if c == '\U{85}' {
      assert c == sp[10];
    } else if c == '\U{A0}' {
      assert c == sp[11];
    } else if c == '\U{1680}' {
      assert c == sp[12];
    } else if c == '\U{2028}' {
      assert c == sp[24];
    } else if c == '\U{2029}' {
      assert c == sp[25];
    } else if c == '\U{202F}' {
      assert c == sp[26];
    } else if c == '\U{205F}' {
      assert c == sp[27];
    } else {
      assert c == sp[28];
    }
  }

  lemma ListedAreSpace()
    ensures forall i :: 0 <= i < |SpaceCodePoints| ==> IsSpace(SpaceCodePoints[i])
  {
  }

  /** Increasing step by step is increasing. */
  lemma {:induction false} IncreasingSteps(s: seq<char>)
    requires forall i :: 0 <= i < |s| - 1 ==> s[i] < s[i + 1]
    ensures forall i, j :: 0 <= i < j < |s| ==> s[i] < s[j]
    decreases |s|
  {
    if |s| > 1 {
      IncreasingSteps(s[1..]);
      forall i, j | 0 <= i < j < |s| ensures s[i] < s[j] {
        if i > 0 {
          assert s[1..][i - 1] < s[1..][j - 1];
        } else if j > 1 {
          assert s[1..][0] < s[1..][j - 1];
        }
      }
    }
  }

  predicate AllSpace(s: string) {
    forall i :: 0 <= i < |s| ==> IsSpace(s[i])
  }

  predicate NoSpace(s: string) {
    forall i :: 0 <= i < |s| ==> !IsSpace(s[i])
  }

  /** A string with no whitespace at either end. */
  predicate Trimmed(s: string) {
    s == [] || (!IsSpace(s[0]) && !IsSpace(s[|s| - 1]))
  }

  // ---------------------------------------------------------------------
  // lower()
  // ---------------------------------------------------------------------

  function LowerChar(c: char): (d: char)
    ensures 'A' <= c <= 'Z' ==> 'a' <= d <= 'z' && d as int - c as int == 32
    ensures !('A' <= c <= 'Z') ==> d == c
    ensures IsSpace(d) <==> IsSpace(c)
  {
    if 'A' <= c <= 'Z' then (c as int + 32) as char else c
  }

  function Lower(s: string): (r: string)
    ensures |r| == |s|
    ensures forall i :: 0 <= i < |s| ==> r[i] == LowerChar(s[i])
  {
    seq(|s|, i requires 0 <= i < |s| => LowerChar(s[i]))
  }

  /** Lowering neither creates nor removes whitespace. */
  lemma LowerKeepsSpaces(s: string)
    ensures AllSpace(Lower(s)) <==> AllSpace(s)
  {
    assert forall i :: 0 <= i < |s| ==> (IsSpace(Lower(s)[i]) <==> IsSpace(s[i]));
  }

  /** `lower()` is idempotent, and leaves no ASCII capital behind. */
  lemma LowerIdempotent(s: string)
    ensures Lower(Lower(s)) == Lower(s)
    ensures forall i :: 0 <= i < |s| ==> !('A' <= Lower(s)[i] <= 'Z')
  {
  }

  // ---------------------------------------------------------------------
  // strip()
  // ---------------------------------------------------------------------

  /** Length of the run of whitespace that starts `s`. */
  function LeadingSpaces(s: string): (n: nat)
    ensures n <= |s|
    ensures AllSpace(s[..n])
    ensures n < |s| ==> !IsSpace(s[n])
  {
    if s == [] || !IsSpace(s[0]) then 0
    else
      var n := 1 + LeadingSpaces(s[1..]);
      assert s[..n] == [s[0]] + s[1..][..n - 1];
      n
  }

  /** Length of the run of whitespace that ends `s`. */
  function TrailingSpaces(s: string): (n: nat)
    ensures n <= |s|
    ensures AllSpace(s[|s| - n..])
    ensures n < |s| ==> !IsSpace(s[|s| - n - 1])
  {
    if s == [] || !IsSpace(s[|s| - 1]) then 0
    else
      var init := s[..|s| - 1];
      var n := 1 + TrailingSpaces(init);
      assert s[|s| - n..] == init[|init| - (n - 1)..] + [s[|s| - 1]];
      n
  }

  lemma LeadingSpacesUnique(s: string, n: nat)
    requires n <= |s| && AllSpace(s[..n]) && (n < |s| ==> !IsSpace(s[n]))
    ensures LeadingSpaces(s) == n
  {
    var l := LeadingSpaces(s);
    forall i | 0 <= i < n ensures IsSpace(s[i]) { assert s[..n][i] == s[i]; }
    forall i | 0 <= i < l ensures IsSpace(s[i]) { assert s[..l][i] == s[i]; }
  }

  lemma TrailingSpacesUnique(s: string, n: nat)
    requires n <= |s| && AllSpace(s[|s| - n..]) && (n < |s| ==> !IsSpace(s[|s| - n - 1]))
    ensures TrailingSpaces(s) == n
  {
    var l := TrailingSpaces(s);
  }

  /** Python `s.strip()`: drop whitespace at both ends. */
  function Strip(s: string): (r: string)
    ensures Trimmed(r)
    ensures r == [] <==> AllSpace(s)
  {
    var a := LeadingSpaces(s);
    var t := s[a..];
    var n := TrailingSpaces(t);
    assert t != [] ==> t[0] == s[a];
    TrimmedInside(t, n);
    StripEmptyIff(s, a, n);
    t[..|t| - n]
  }

  lemma AllSpaceJoin(x: string, y: string)
    requires AllSpace(x) && AllSpace(y)
    ensures AllSpace(x + y)
  {
    forall i | 0 <= i < |x + y| ensures IsSpace((x + y)[i]) {
      if i < |x| {
        assert (x + y)[i] == x[i];
      } else {
        assert (x + y)[i] == y[i - |x|];
      }
    }
  }

  /** Cutting `n` characters off the end of `t` leaves a trimmed string. */
  lemma TrimmedInside(t: string, n: nat)
    requires n <= |t|
    requires t != [] ==> !IsSpace(t[0])
    requires n < |t| ==> !IsSpace(t[|t| - n - 1])
    ensures Trimmed(t[..|t| - n])
  {
  }

  /** Only an all-whitespace string is stripped to nothing. */
  lemma StripEmptyIff(s: string, a: nat, n: nat)
    requires a <= |s| && AllSpace(s[..a]) && (a < |s| ==> !IsSpace(s[a]))
    requires n <= |s| - a && AllSpace(s[a..][|s| - a - n..])
    ensures n == |s| - a <==> AllSpace(s)
  {
    if n == |s| - a {
      assert s[a..][|s| - a - n..] == s[a..];
      AllSpaceJoin(s[..a], s[a..]);
      assert s == s[..a] + s[a..];
    } else {
      assert !IsSpace(s[a]);
    }
  }

  /** What `strip()` removes is whitespace, from the two ends only. */
  lemma StripDecomposes(s: string) returns (front: string, back: string)
    ensures AllSpace(front) && AllSpace(back)
    ensures s == front + Strip(s) + back
  {
    var a := LeadingSpaces(s);
    var t := s[a..];
    var n := TrailingSpaces(t);
    front, back := s[..a], t[|t| - n..];
    CutThree(s, a, n);
  }

  lemma CutThree(s: string, a: nat, n: nat)
    requires a <= |s| && n <= |s| - a
    ensures s == s[..a] + s[a..][..|s| - a - n] + s[a..][|s| - a - n..]
  {
    var t := s[a..];
    assert t == t[..|t| - n] + t[|t| - n..];
    assert s == s[..a] + t;
  }

  /**
   Stripping is pinned down by its contract: whitespace, then a trimmed
   core, then whitespace strips to exactly that core.
   */
  lemma StripUnique(front: string, core: string, back: string)
    requires AllSpace(front) && AllSpace(back) && Trimmed(core)
    ensures Strip(front + core + back) == core
  {
    var s := front + core + back;
    if core == [] {
      assert AllSpace(s) by {
        forall i | 0 <= i < |s| ensures IsSpace(s[i]) {
          if i < |front| { assert s[i] == front[i]; }
          else { assert s[i] == back[i - |front|]; }
        }
      }
    } else {
      assert s[..|front|] == front;
      assert s[|front|] == core[0];
      LeadingSpacesUnique(s, |front|);
      var t := s[|front|..];
      assert t == core + back;
      assert t[|t| - |back|..] == back;
      assert t[|t| - |back| - 1] == core[|core| - 1];
      TrailingSpacesUnique(t, |back|);
      assert t[..|t| - |back|] == core;
    }
  }

  /** `strip()` is idempotent. */
  lemma StripIdempotent(s: string)
    ensures Strip(Strip(s)) == Strip(s)
  {
    StripUnique([], Strip(s), []);
    assert [] + Strip(s) + [] == Strip(s);
  }

  // ---------------------------------------------------------------------
  // split()
  // ---------------------------------------------------------------------

  /** Length of the run of non-whitespace that starts `s`. */
  function WordLength(s: string): (n: nat)
    ensures n <= |s|
    ensures NoSpace(s[..n])
    ensures n < |s| ==> IsSpace(s[n])
  {
    if s == [] || IsSpace(s[0]) then 0
    else
      var n := 1 + WordLength(s[1..]);
      assert s[..n] == [s[0]] + s[1..][..n - 1];
      n
  }

  /** Python `s.split()` with no separator: the maximal whitespace-free runs. */
  function Split(s: string): (words: seq<string>)
    ensures forall k :: 0 <= k < |words| ==> words[k] != [] && NoSpace(words[k])
    decreases |s|
  {
    var a := LeadingSpaces(s);
    if a == |s| then []
    else
      var t := s[a..];
      var n := WordLength(t);
      [t[..n]] + Split(t[n..])
  }

  /**
   `gaps` and `words` interleaved: `gaps[0] + words[0] + gaps[1] + ... +
   words[n-1] + gaps[n]`.
   */
  function Weave(gaps: seq<string>, words: seq<string>): string
    requires |gaps| == |words| + 1
    decreases |words|
  {
    if words == [] then gaps[0]
    else gaps[0] + words[0] + Weave(gaps[1..], words[1..])
  }

  /**
   The words of `split()` are the maximal whitespace-free runs of `s`, in
   order: `s` is rebuilt by putting whitespace runs around and between
   them, and every run between two words is non-empty.
   */
  lemma {:induction false} SplitRebuilds(s: string) returns (gaps: seq<string>)
    ensures |gaps| == |Split(s)| + 1
    ensures forall k :: 0 <= k < |gaps| ==> AllSpace(gaps[k])
    ensures forall k :: 0 < k < |gaps| - 1 ==> gaps[k] != []
    ensures gaps[0] == s[..LeadingSpaces(s)]
    ensures Weave(gaps, Split(s)) == s
    decreases |s|
  {
    var a := LeadingSpaces(s);
    if a == |s| {
      gaps := [s];
      assert s[..a] == s;
    } else {
      var t := s[a..];
      var n := WordLength(t);
      var u := t[n..];
      var rest := SplitRebuilds(u);
      SplitFirstWord(s, a, t, n, u);
      gaps := [s[..a]] + rest;
      GapsExtend(s[..a], rest, |Split(u)|);
      WeaveCons(s[..a], rest, t[..n], Split(u));
      CutWord(s, a, t, n, u);
    }
  }

  /** One step of `split()`: leading whitespace, a word, and the rest. */
  lemma SplitFirstWord(s: string, a: nat, t: string, n: nat, u: string)
    requires a == LeadingSpaces(s) < |s| && t == s[a..] && n == WordLength(t) && u == t[n..]
    ensures Split(s) == [t[..n]] + Split(u)
    ensures Split(u) != [] ==> LeadingSpaces(u) > 0
  {
    if Split(u) != [] {
      assert u != [] && IsSpace(u[0]);
    }
  }

  /** A whitespace run put in front of the gaps of the rest of a split. */
  lemma GapsExtend(g: string, rest: seq<string>, words: nat)
    requires AllSpace(g) && |rest| == words + 1
    requires forall k :: 0 <= k < |rest| ==> AllSpace(rest[k])
    requires forall k :: 0 < k < |rest| - 1 ==> rest[k] != []
    requires words > 0 ==> rest[0] != []
    ensures forall k :: 0 <= k < |[g] + rest| ==> AllSpace(([g] + rest)[k])
    ensures forall k :: 0 < k < |[g] + rest| - 1 ==> ([g] + rest)[k] != []
  {
    var gaps := [g] + rest;
    forall k | 0 < k < |gaps| ensures gaps[k] == rest[k - 1] { }
  }

  lemma WeaveCons(g: string, rest: seq<string>, w: string, words: seq<string>)
    requires |rest| == |words| + 1
    ensures Weave([g] + rest, [w] + words) == g + w + Weave(rest, words)
  {
    assert ([g] + rest)[1..] == rest;
    assert ([w] + words)[1..] == words;
  }

  /** Leading whitespace, then a word, then the rest, is the whole string. */
  lemma CutWord(s: string, a: nat, t: string, n: nat, u: string)
    requires a <= |s| && t == s[a..] && n <= |t| && u == t[n..]
    ensures s[..a] + t[..n] + u == s
  {
    assert t == t[..n] + u;
    assert s == s[..a] + t;
  }

  /**
   An independent count of the words of `s`: the positions holding a
   non-whitespace character that is first or follows whitespace.
   `afterSpace` says whether the character before `s` was whitespace.
   */
  function WordStarts(s: string, afterSpace: bool): nat {
    if s == [] then 0
    else (if afterSpace && !IsSpace(s[0]) then 1 else 0) + WordStarts(s[1..], IsSpace(s[0]))
  }

  lemma {:induction false} WordStartsSkipSpaces(s: string, n: nat, afterSpace: bool)
    requires n <= |s| && AllSpace(s[..n])
    requires n > 0 || afterSpace
    ensures WordStarts(s, afterSpace) == WordStarts(s[n..], true)
    decreases n
  {
    if n > 0 {
      assert IsSpace(s[..n][0]);
      WordStartsSkipSpaces(s[1..], n - 1, true);
      assert s[1..][..n - 1] == s[..n][1..];
      assert s[1..][n - 1..] == s[n..];
    }
  }

  lemma {:induction false} WordStartsSkipWord(s: string, n: nat)
    requires 0 < n <= |s| && NoSpace(s[..n])
    ensures WordStarts(s, true) == 1 + WordStarts(s[n..], false)
    decreases n
  {
    assert !IsSpace(s[..n][0]);
    if n == 1 {
      assert s[1..] == s[n..];
    } else {
      WordStartsInside(s[1..], n - 1);
      assert s[1..][..n - 1] == s[..n][1..];
      assert s[1..][n - 1..] == s[n..];
    }
  }

  lemma {:induction false} WordStartsInside(s: string, n: nat)
    requires 0 < n <= |s| && NoSpace(s[..n])
    ensures WordStarts(s, false) == WordStarts(s[n..], false)
    decreases n
  {
    assert !IsSpace(s[..n][0]);
    if n > 1 {
      WordStartsInside(s[1..], n - 1);
      assert s[1..][..n - 1] == s[..n][1..];
    }
    assert s[1..][n - 1..] == s[n..];
  }

  /** Python's `len(s.split())` is the number of word starts in `s`. */
  lemma {:induction false} SplitCountsWords(s: string)
    ensures |Split(s)| == WordStarts(s, true)
    decreases |s|
  {
    var a := LeadingSpaces(s);
    WordStartsSkipSpaces(s, a, true);
    if a < |s| {
      var t := s[a..];
      var n := WordLength(t);
      assert n > 0;
      WordStartsSkipWord(t, n);
      if n < |t| {
        var u := t[n..];
        assert IsSpace(u[0]);
        assert AllSpace(u[..1]);
        WordStartsSkipSpaces(u, 1, false);
        WordStartsSkipSpaces(u, 1, true);
      }
      SplitCountsWords(t[n..]);
    }
  }

  // ---------------------------------------------------------------------
  // `k in s` and startswith()
  // ---------------------------------------------------------------------

  predicate IsPrefix(p: string, s: string) {
    |p| <= |s| && s[..|p|] == p
  }

  /** `k` occurs in `s` starting at index `i`. */
  predicate OccursAt(k: string, s: string, i: int) {
    0 <= i && i + |k| <= |s| && s[i..i + |k|] == k
  }

  /** Python's `k in s` on strings. */
  function Contains(s: string, k: string): (b: bool)
    ensures b <==> exists i :: OccursAt(k, s, i)
    decreases |s|
  {
    if IsPrefix(k, s) then
      assert OccursAt(k, s, 0);
      true
    else if s == [] then
      false
    else
      var b := Contains(s[1..], k);
      OccursShift(k, s);
      b
  }

  lemma OccursShift(k: string, s: string)
    requires s != [] && !IsPrefix(k, s)
    ensures (exists i :: OccursAt(k, s, i)) <==> (exists j :: OccursAt(k, s[1..], j))
  {
    if i :| OccursAt(k, s, i) {
      assert i != 0;
      assert s[1..][i - 1..i - 1 + |k|] == s[i..i + |k|];
      assert OccursAt(k, s[1..], i - 1);
    }
    if j :| OccursAt(k, s[1..], j) {
      assert s[1..][j..j + |k|] == s[j + 1..j + 1 + |k|];
      assert OccursAt(k, s, j + 1);
    }
  }

  /** Occurrence is transitive: a part of a part of `s` is a part of `s`. */
  lemma ContainsTransitive(s: string, k: string, part: string)
    requires Contains(s, k) && Contains(k, part)
    ensures Contains(s, part)
  {
    var i :| OccursAt(k, s, i);
    var j :| OccursAt(part, k, j);
    forall m | 0 <= m < |part| ensures s[i + j + m] == part[m] {
      assert part[m] == k[j + m] == s[i + j + m];
    }
    assert s[i + j..i + j + |part|] == part;
    assert OccursAt(part, s, i + j);
  }

  /** Python's `s.startswith(prefixes)` with a tuple of prefixes. */
  function StartsWithAny(s: string, prefixes: seq<string>): (b: bool)
    ensures b <==> exists k :: 0 <= k < |prefixes| && IsPrefix(prefixes[k], s)
    decreases |prefixes|
  {
    if prefixes == [] then false
    else IsPrefix(prefixes[0], s) || StartsWithAny(s, prefixes[1..])
  }

  /** The order of the tuple, and repeats in it, do not matter to `startswith`. */
  lemma StartsWithAnySameMembers(s: string, prefixes: seq<string>, others: seq<string>)
    requires forall p :: p in prefixes <==> p in others
    ensures StartsWithAny(s, prefixes) <==> StartsWithAny(s, others)
  {
    if StartsWithAny(s, prefixes) {
      var k :| 0 <= k < |prefixes| && IsPrefix(prefixes[k], s);
      assert prefixes[k] in others;
      var j :| 0 <= j < |others| && others[j] == prefixes[k];
    }
    if StartsWithAny(s, others) {
      var k :| 0 <= k < |others| && IsPrefix(others[k], s);
      assert others[k] in prefixes;
      var j :| 0 <= j < |prefixes| && prefixes[j] == others[k];
    }
  }

  /** Python's slice `s[:n]` for `n >= 0`. */
  function Take(s: string, n: nat): (r: string)
    ensures |r| == if |s| <= n then |s| else n
    ensures IsPrefix(r, s)
  {
    if |s| <= n then s else s[..n]
  }
}
