/** The Python `str` operations the generators use, over ASCII characters:
    `lower`, `replace`, `split()`, `strip()`, `join`, `in` and slicing. */
module Strings {

  /** Python's `str.isspace` restricted to ASCII: blank, \t, \n, \v, \f, \r and
      the four information separators \x1c to \x1f, which `str.split()` also splits on. */
  predicate IsSpace(c: char) {
    c == ' ' || c == '\t' || c == '\n' || c == '\r' || c == '\U{000B}' || c == '\U{000C}'
    || ('\U{001C}' <= c <= '\U{001F}')
  }

  predicate IsUpper(c: char) { 'A' <= c <= 'Z' }

  function LowerChar(c: char): (d: char)
    ensures !IsUpper(d)
    ensures !IsUpper(c) ==> d == c
  {
    if IsUpper(c) then (c as int + 32) as char else c
  }

  /** `s.lower()`. */
  function Lower(s: string): (r: string)
    ensures |r| == |s|
    ensures forall i :: 0 <= i < |s| ==> r[i] == LowerChar(s[i])
  {
    seq(|s|, i requires 0 <= i < |s| => LowerChar(s[i]))
  }

  /** Lower-casing a second time changes nothing. */
  lemma LowerIdempotent(s: string)
    ensures Lower(Lower(s)) == Lower(s)
  {
  }

  /** `s.replace(a, b)` for one-character `a` and `b`. */
  function ReplaceChar(s: string, a: char, b: char): (r: string)
    ensures |r| == |s|
    ensures forall i :: 0 <= i < |s| ==> r[i] == (if s[i] == a then b else s[i])
  {
    seq(|s|, i requires 0 <= i < |s| => if s[i] == a then b else s[i])
  }

  /** `s.lower().replace(a, b)` for one-character `a` and `b`: each character
      is lower-cased, and one that lower-cases to `a` becomes `b`. */
  function LowerReplacing(s: string, a: char, b: char): (r: string)
    ensures |r| == |s|
    ensures forall i :: 0 <= i < |s| ==> r[i] == (if LowerChar(s[i]) == a then b else LowerChar(s[i]))
    ensures a != b ==> a !in r
    ensures !IsUpper(b) ==> forall i :: 0 <= i < |r| ==> !IsUpper(r[i])
  {
    ReplaceChar(Lower(s), a, b)
  }

  /** `s.replace(c, "")`: every occurrence of `c` deleted, the rest kept in order. */
  function DeleteChar(s: string, c: char): (r: string)
    ensures c !in r
    ensures forall d :: d in r <==> d in s && d != c
    ensures multiset(r) == multiset(s)[c := 0]
    ensures |r| == |s| - multiset(s)[c]
  {
    DeletedCounts(s, c);
    Deleted(s, c)
  }

  /** The deletion itself, front to back. */
  function Deleted(s: string, c: char): string
    decreases |s|
  {
    if s == [] then [] else (if s[0] == c then [] else [s[0]]) + Deleted(s[1..], c)
  }

  /** What survives a deletion: every character but `c`, each as often as before. */
  lemma {:induction false} DeletedCounts(s: string, c: char)
    ensures c !in Deleted(s, c)
    ensures forall d :: d in Deleted(s, c) <==> d in s && d != c
    ensures multiset(Deleted(s, c)) == multiset(s)[c := 0]
    ensures |Deleted(s, c)| == |s| - multiset(s)[c]
    decreases |s|
  {
    if s != [] {
      DeletedCounts(s[1..], c);
      assert s == [s[0]] + s[1..];
    }
  }

  /** Deleting a character from a concatenation deletes it from each part. */
  lemma DeleteCharAppend(a: string, b: string, c: char)
    ensures DeleteChar(a + b, c) == DeleteChar(a, c) + DeleteChar(b, c)
  {
    DeletedAppend(a, b, c);
  }

  lemma {:induction false} DeletedAppend(a: string, b: string, c: char)
    ensures Deleted(a + b, c) == Deleted(a, c) + Deleted(b, c)
    decreases |a|
  {
    if a == [] {
      assert a + b == b;
    } else {
      var t := a[1..];
      var h := if a[0] == c then [] else [a[0]];
      ConsAppend(a, b);
      DeletedCons(a[0], t + b, c);
      DeletedCons(a[0], t, c);
      DeletedAppend(t, b, c);
      AppendAssoc(h, Deleted(t, c), Deleted(b, c));
    }
  }

  lemma AppendAssoc<A>(x: seq<A>, y: seq<A>, z: seq<A>)
    ensures (x + y) + z == x + (y + z)
  {
  }

  lemma DeletedCons(x: char, s: string, c: char)
    ensures Deleted([x] + s, c) == (if x == c then [] else [x]) + Deleted(s, c)
  {
    assert ([x] + s)[0] == x && ([x] + s)[1..] == s;
  }

  /** A non-empty `a` is its head followed by its tail, also in front of `b`. */
  lemma ConsAppend<A>(a: seq<A>, b: seq<A>)
    requires a != []
    ensures a == [a[0]] + a[1..] && a + b == [a[0]] + (a[1..] + b)
  {
  }

  /** Lower-casing a concatenation lower-cases each part. */
  lemma LowerAppend(a: string, b: string)
    ensures Lower(a + b) == Lower(a) + Lower(b)
  {
    assert forall i :: 0 <= i < |a + b| ==> Lower(a + b)[i] == (Lower(a) + Lower(b))[i];
  }

  /** `s[:n]`: the first `n` characters, or all of `s` when it is shorter. */
  function Take(s: string, n: nat): (r: string)
    ensures r <= s
    ensures |r| == if |s| < n then |s| else n
  {
    if |s| <= n then s else s[..n]
  }

  /** `s.split(c)[0]`: everything before the first `c`, or all of `s` when there is none. */
  function BeforeFirst(s: string, c: char): (r: string)
    ensures r <= s
    ensures c !in r
    ensures |r| < |s| ==> s[|r|] == c
  {
    if s == [] || s[0] == c then [] else [s[0]] + BeforeFirst(s[1..], c)
  }

  // ---------------------------------------------------------------------------
  // Substring search: Python's `p in s`.

  predicate OccursAt(s: string, p: string, i: int) {
    0 <= i && i + |p| <= |s| && s[i..i + |p|] == p
  }

  predicate Contains(s: string, p: string) {
    exists i | 0 <= i <= |s| - |p| :: OccursAt(s, p, i)
  }

  lemma PrefixContained(s: string, p: string)
    requires p <= s
    ensures Contains(s, p)
  {
    assert OccursAt(s, p, 0);
  }

  /** A piece occurs in any text built around it. */
  lemma ContainsMiddle(a: string, p: string, b: string)
    ensures Contains(a + (p + b), p)
  {
    assert (a + (p + b))[|a|..|a| + |p|] == p;
    assert OccursAt(a + (p + b), p, |a|);
  }

  lemma ContainedInLeft(a: string, b: string, p: string)
    requires Contains(a, p)
    ensures Contains(a + b, p)
  {
    var i :| 0 <= i <= |a| - |p| && OccursAt(a, p, i);
    assert (a + b)[i..i + |p|] == a[i..i + |p|];
    assert OccursAt(a + b, p, i);
  }

  lemma ContainedInRight(a: string, b: string, p: string)
    requires Contains(b, p)
    ensures Contains(a + b, p)
  {
    var i :| 0 <= i <= |b| - |p| && OccursAt(b, p, i);
    assert (a + b)[|a| + i..|a| + i + |p|] == b[i..i + |p|];
    assert OccursAt(a + b, p, |a| + i);
  }

  /** Lower-casing commutes with taking a slice. */
  lemma LowerSlice(s: string, i: int, j: int)
    requires 0 <= i <= j <= |s|
    ensures Lower(s)[i..j] == Lower(s[i..j])
  {
  }

  /** `p` occurs in `s` up to ASCII case: some window of `s` lower-cases to `p`. */
  predicate ContainsIgnoringCase(s: string, p: string) {
    exists i | 0 <= i <= |s| - |p| :: MatchesIgnoringCaseAt(s, p, i)
  }

  predicate MatchesIgnoringCaseAt(s: string, p: string, i: int) {
    0 <= i && i + |p| <= |s| && Lower(s[i..i + |p|]) == p
  }

  /** Searching the lower-cased text is searching the text without regard to case. */
  lemma ContainsLowerIgnoringCase(s: string, p: string)
    ensures Contains(Lower(s), p) <==> ContainsIgnoringCase(s, p)
  {
    if Contains(Lower(s), p) {
      var i :| 0 <= i <= |s| - |p| && OccursAt(Lower(s), p, i);
      LowerSlice(s, i, i + |p|);
      assert MatchesIgnoringCaseAt(s, p, i);
    }
    if ContainsIgnoringCase(s, p) {
      var i :| 0 <= i <= |s| - |p| && MatchesIgnoringCaseAt(s, p, i);
      LowerSlice(s, i, i + |p|);
      assert OccursAt(Lower(s), p, i);
    }
  }

  // ---------------------------------------------------------------------------
  // `sep.join(xs)`

  function Join(sep: string, xs: seq<string>): (r: string)
    ensures xs == [] ==> r == ""
    ensures |xs| == 1 ==> r == xs[0]
  {
    if xs == [] then ""
    else if |xs| == 1 then xs[0]
    else xs[0] + sep + Join(sep, xs[1..])
  }

  /** A joined list begins with its first element. */
  lemma JoinStartsWithFirst(sep: string, xs: seq<string>)
    requires xs != []
    ensures xs[0] <= Join(sep, xs)
  {
    if |xs| > 1 {
      assert Join(sep, xs) == xs[0] + (sep + Join(sep, xs[1..]));
    }
  }

  lemma PrefixTransitive(a: string, b: string, c: string)
    requires a <= b && b <= c
    ensures a <= c
  {
  }

  /** Joining two non-empty lists is joining each and putting one separator between. */
  lemma {:induction false} JoinAppend(sep: string, xs: seq<string>, ys: seq<string>)
    requires xs != [] && ys != []
    ensures Join(sep, xs + ys) == Join(sep, xs) + sep + Join(sep, ys)
  {
    if |xs| == 1 {
      assert (xs + ys)[1..] == ys;
    } else {
      assert (xs + ys)[1..] == xs[1..] + ys;
      JoinAppend(sep, xs[1..], ys);
    }
  }

  // ---------------------------------------------------------------------------
  // `s.split()` and `s.strip()`

  /** A word `split()` can return: non-empty, without whitespace. */
  predicate IsToken(w: string) {
    w != [] && forall k :: 0 <= k < |w| ==> !IsSpace(w[k])
  }

  /** `s.lstrip()`. */
  function SkipSpace(s: string): (r: string)
    ensures |r| <= |s| && r == s[|s| - |r|..]
    ensures r != [] ==> !IsSpace(r[0])
  {
    if s != [] && IsSpace(s[0]) then SkipSpace(s[1..]) else s
  }

  /** `s.rstrip()`. */
  function TrimRight(s: string): (r: string)
    ensures r <= s
    ensures r != [] ==> !IsSpace(r[|r| - 1])
  {
    if s != [] && IsSpace(s[|s| - 1]) then TrimRight(s[..|s| - 1]) else s
  }

  /** `s.strip()`. */
  function Strip(s: string): string {
    TrimRight(SkipSpace(s))
  }

  /** A string of whitespace only has no words once stripped. */
  lemma SplitBlank(s: string)
    requires forall k :: 0 <= k < |s| ==> IsSpace(s[k])
    ensures Split(Strip(s)) == []
  {
    SkipSpaceBlank(s);
    StripAfterSkip(s);
    SplitEmpty();
  }

  lemma SkipSpaceBlank(s: string)
    requires forall k :: 0 <= k < |s| ==> IsSpace(s[k])
    ensures SkipSpace(s) == []
  {
  }

  lemma StripAfterSkip(s: string)
    requires SkipSpace(s) == []
    ensures Strip(s) == []
  {
  }

  lemma SplitEmpty()
    ensures Split([]) == []
  {
  }

  /** The longest prefix of `s` without whitespace. */
  function Word(s: string): (w: string)
    ensures |w| <= |s| && w == s[..|w|]
    ensures forall k :: 0 <= k < |w| ==> !IsSpace(w[k])
    ensures |w| == |s| || IsSpace(s[|w|])
  {
    if s == [] || IsSpace(s[0]) then [] else [s[0]] + Word(s[1..])
  }

  /** `s.split()`: the maximal runs of non-whitespace, in order. */
  function Split(s: string): seq<string>
    decreases |s|
  {
    var t := SkipSpace(s);
    if t == [] then []
    else
      var w := Word(t);
      assert |w| > 0;
      [w] + Split(t[|w|..])
  }

  /** Every piece `split()` returns is a non-empty run without whitespace. */
  lemma {:induction false} SplitTokens(s: string)
    ensures forall i :: 0 <= i < |Split(s)| ==> IsToken(Split(s)[i])
    decreases |s|
  {
    var t := SkipSpace(s);
    if t != [] {
      var w := Word(t);
      SplitTokens(t[|w|..]);
      var rest := Split(t[|w|..]);
      assert Split(s) == [w] + rest;
      forall i | 0 <= i < |Split(s)| ensures IsToken(Split(s)[i]) {
        if i > 0 { assert Split(s)[i] == rest[i - 1]; }
      }
    }
  }

  /** The last word of a split is a word. */
  lemma LastWordIsToken(s: string)
    requires Split(s) != []
    ensures IsToken(Split(s)[|Split(s)| - 1])
  {
    SplitTokens(s);
  }

  lemma {:induction false} WordBeforeSpace(w: string, x: string)
    requires forall k :: 0 <= k < |w| ==> !IsSpace(w[k])
    requires x == [] || IsSpace(x[0])
    ensures Word(w + x) == w
  {
    if w == [] {
      assert w + x == x;
    } else {
      assert (w + x)[1..] == w[1..] + x;
      WordBeforeSpace(w[1..], x);
    }
  }

  lemma SplitSkipsSpace(c: char, s: string)
    requires IsSpace(c)
    ensures Split([c] + s) == Split(s)
  {
    assert ([c] + s)[1..] == s;
  }

  /** A word followed by nothing or by whitespace is the first piece `split()` returns. */
  lemma SplitTokenThen(w: string, x: string)
    requires IsToken(w)
    requires x == [] || IsSpace(x[0])
    ensures Split(w + x) == [w] + Split(x)
  {
    WordBeforeSpace(w, x);
    assert SkipSpace(w + x) == w + x;
    assert (w + x)[|w|..] == x;
  }

  /** Round trip: splitting words joined by single blanks gives back the words. */
  lemma SplitJoin(ts: seq<string>)
    requires forall i :: 0 <= i < |ts| ==> IsToken(ts[i])
    ensures Split(Join(" ", ts)) == ts
  {
    AllTokensOf(ts);
    SplitJoinTokens(ts);
  }

  /** Every element is a word, stated element by element from the front. */
  predicate AllTokens(ts: seq<string>)
    decreases |ts|
  {
    ts == [] || (IsToken(ts[0]) && AllTokens(ts[1..]))
  }

  lemma {:induction false} AllTokensOf(ts: seq<string>)
    requires forall i :: 0 <= i < |ts| ==> IsToken(ts[i])
    ensures AllTokens(ts)
    decreases |ts|
  {
    if ts != [] {
      var rest := ts[1..];
      forall i | 0 <= i < |rest| ensures IsToken(rest[i]) {
        assert rest[i] == ts[i + 1];
      }
      AllTokensOf(rest);
    }
  }

  lemma {:induction false} SplitJoinTokens(ts: seq<string>)
    requires AllTokens(ts)
    ensures Split(Join(" ", ts)) == ts
    decreases |ts|
  {
    if |ts| == 1 {
      SplitJoinOne(ts);
    } else if |ts| > 1 {
      SplitJoinTokens(ts[1..]);
      SplitJoinCons(ts);
    }
  }

  lemma SplitJoinOne(ts: seq<string>)
    requires |ts| == 1 && IsToken(ts[0])
    ensures Split(Join(" ", ts)) == ts
  {
    SplitJoinSingle(ts[0]);
    assert [ts[0]] == ts;
  }

  lemma SplitJoinCons(ts: seq<string>)
    requires |ts| > 1 && IsToken(ts[0])
    requires Split(Join(" ", ts[1..])) == ts[1..]
    ensures Split(Join(" ", ts)) == ts
  {
    SplitJoinHead(ts);
    assert [ts[0]] + ts[1..] == ts;
  }

  /** Splitting words joined by single blanks peels off the first word. */
  lemma SplitJoinHead(ts: seq<string>)
    requires |ts| > 1 && IsToken(ts[0])
    ensures Split(Join(" ", ts)) == [ts[0]] + Split(Join(" ", ts[1..]))
  {
    var rest := Join(" ", ts[1..]);
    assert Join(" ", ts) == ts[0] + ([' '] + rest);
    SplitTokenThen(ts[0], [' '] + rest);
    SplitSkipsSpace(' ', rest);
  }

  lemma SplitJoinSingle(w: string)
    requires IsToken(w)
    ensures Split(Join(" ", [w])) == [w]
  {
    SplitTokenThen(w, []);
    assert w + [] == w;
  }

  /** Words joined by single blanks start and end with a non-blank character. */
  lemma {:induction false} JoinTokensEnds(ts: seq<string>)
    requires ts != [] && forall i :: 0 <= i < |ts| ==> IsToken(ts[i])
    ensures var s := Join(" ", ts); s != [] && !IsSpace(s[0]) && !IsSpace(s[|s| - 1])
  {
    assert IsToken(ts[0]);
    if |ts| > 1 {
      JoinTokensEnds(ts[1..]);
    }
  }

  /** Stripping words joined by single blanks changes nothing. */
  lemma StripJoinedTokens(ts: seq<string>)
    requires ts != [] && forall i :: 0 <= i < |ts| ==> IsToken(ts[i])
    ensures Strip(Join(" ", ts)) == Join(" ", ts)
  {
    var s := Join(" ", ts);
    JoinTokensEnds(ts);
    assert SkipSpace(s) == s;
    assert TrimRight(s) == s;
  }

  // ---------------------------------------------------------------------------
  // `s.replace(pat, rep)` for a non-empty pattern: one left-to-right pass,
  // non-overlapping occurrences.

  function ReplaceAll(s: string, pat: string, rep: string): string
    requires |pat| > 0
    decreases |s|
  {
    if s == [] then []
    else if pat <= s then rep + ReplaceAll(s[|pat|..], pat, rep)
    else [s[0]] + ReplaceAll(s[1..], pat, rep)
  }

  /** A string in which the pattern never occurs is returned unchanged. */
  lemma {:induction false} ReplaceAbsent(s: string, pat: string, rep: string)
    requires |pat| > 0 && !Contains(s, pat)
    ensures ReplaceAll(s, pat, rep) == s
    decreases |s|
  {
    if s != [] {
      if pat <= s {
        PrefixContained(s, pat);
      }
      if Contains(s[1..], pat) {
        var i :| 0 <= i <= |s[1..]| - |pat| && OccursAt(s[1..], pat, i);
        OccursInTail(s, pat, i);
      }
      ReplaceAbsent(s[1..], pat, rep);
      assert s == [s[0]] + s[1..];
    }
  }

  /** An occurrence in the tail is an occurrence one position later. */
  lemma OccursInTail(s: string, pat: string, i: int)
    requires s != [] && OccursAt(s[1..], pat, i)
    ensures OccursAt(s, pat, i + 1)
  {
    assert s[i + 1..i + 1 + |pat|] == s[1..][i..i + |pat|];
  }

  /** Characters that cannot start the pattern are copied through unchanged. */
  lemma {:induction false} ReplaceSkipsClear(a: string, b: string, pat: string, rep: string)
    requires |pat| > 0
    requires forall k :: 0 <= k < |a| ==> a[k] != pat[0]
    ensures ReplaceAll(a + b, pat, rep) == a + ReplaceAll(b, pat, rep)
  {
    if a == [] {
      assert a + b == b;
    } else {
      var s := a + b;
      assert !(pat <= s) by { assert s[0] == a[0]; }
      assert s[1..] == a[1..] + b;
      ReplaceSkipsClear(a[1..], b, pat, rep);
      assert a == [a[0]] + a[1..];
    }
  }

  /** A string that is exactly the pattern is replaced as a whole. */
  lemma ReplaceWhole(pat: string, rep: string)
    requires |pat| > 0
    ensures ReplaceAll(pat, pat, rep) == rep
  {
    assert pat[|pat|..] == [];
  }

  /** A position where the text and the pattern disagree is not the start of a match. */
  lemma ReplaceMismatch(s: string, pat: string, rep: string, k: nat)
    requires k < |pat| && k < |s| && s[k] != pat[k]
    ensures ReplaceAll(s, pat, rep) == [s[0]] + ReplaceAll(s[1..], pat, rep)
  {
  }
}
