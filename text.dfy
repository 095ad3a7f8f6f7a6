/** Character classes, ASCII lowercasing, the maximal-run scanner that stands in
    for the two regular expressions of the extractor, and occurrence counting. */
module Text {

  /** The two regular-expression character classes the extractor scans for:
      `[a-zA-Z0-9]` (tokens) and `[A-Z]` (capital runs). */
  datatype CharClass = AlphaNumeric | Uppercase

  predicate IsUpper(c: char) { 'A' <= c <= 'Z' }
  predicate IsLower(c: char) { 'a' <= c <= 'z' }
  predicate IsDigit(c: char) { '0' <= c <= '9' }

  predicate InClass(c: char, k: CharClass)
  {
    match k
    case AlphaNumeric => IsUpper(c) || IsLower(c) || IsDigit(c)
    case Uppercase => IsUpper(c)
  }

  /** A non-empty string all of whose characters belong to class `k`. */
  predicate IsRun(w: string, k: CharClass)
  {
    w != [] && forall i :: 0 <= i < |w| ==> InClass(w[i], k)
  }

  // ---------------------------------------------------------------------------
  // ASCII lowercasing (the model's reading of `str.lower()`)
  // ---------------------------------------------------------------------------

  function LowerChar(c: char): (d: char)
    ensures IsUpper(c) ==> IsLower(d) && d as int == c as int + 32
    ensures !IsUpper(c) ==> d == c
    ensures !IsUpper(d)
    ensures InClass(d, AlphaNumeric) == InClass(c, AlphaNumeric)
  {
    if IsUpper(c) then (c as int + 32) as char else c
  }

  function Lower(s: string): (t: string)
    ensures |t| == |s|
    ensures forall i :: 0 <= i < |t| ==> !IsUpper(t[i])
    ensures forall i :: 0 <= i < |s| ==> InClass(t[i], AlphaNumeric) == InClass(s[i], AlphaNumeric)
  {
    seq(|s|, i requires 0 <= i < |s| => LowerChar(s[i]))
  }

  lemma LowerIdempotent(s: string)
    ensures Lower(Lower(s)) == Lower(s)
  {
  }

  lemma LowerAppend(a: string, b: string)
    ensures Lower(a + b) == Lower(a) + Lower(b)
  {
  }

  /** A lowercased string contains no capital letter. */
  lemma LowerHasNoUpper(s: string)
    ensures forall i :: 0 <= i < |Lower(s)| ==> !IsUpper(Lower(s)[i])
  {
  }

  // ---------------------------------------------------------------------------
  // The maximal-run scanner (the model of `re.findall` with a `[...]+` class)
  // ---------------------------------------------------------------------------

  /** Length of the longest prefix of `s` whose characters are all in class `k`. */
  function Span(s: string, k: CharClass): (n: nat)
    ensures n <= |s|
    ensures forall i :: 0 <= i < n ==> InClass(s[i], k)
    ensures n < |s| ==> !InClass(s[n], k)
  {
    if s != [] && InClass(s[0], k) then 1 + Span(s[1..], k) else 0
  }

  /** The three facts Span promises determine it. */
  lemma SpanUnique(s: string, k: CharClass, n: nat)
    requires n <= |s|
    requires forall i :: 0 <= i < n ==> InClass(s[i], k)
    requires n < |s| ==> !InClass(s[n], k)
    ensures Span(s, k) == n
  {
  }

  /** The maximal non-empty runs of class-`k` characters of `s`, left to right,
      scanned the way `re.findall(r'[...]+', s)` scans: skip characters outside
      the class, then take the longest run starting at the current position. */
  function Runs(s: string, k: CharClass): (runs: seq<string>)
    ensures forall j :: 0 <= j < |runs| ==> IsRun(runs[j], k)
    decreases |s|
  {
    if s == [] then []
    else if !InClass(s[0], k) then Runs(s[1..], k)
    else
      var n := Span(s, k);
      [s[..n]] + Runs(s[n..], k)
  }

  /** `[len(run) for run in runs]` */
  function Lengths(runs: seq<string>): (ls: seq<nat>)
    ensures |ls| == |runs|
    ensures forall j :: 0 <= j < |runs| ==> ls[j] == |runs[j]|
  {
    seq(|runs|, j requires 0 <= j < |runs| => |runs[j]|)
  }

  /** `s` with every character outside class `k` deleted. */
  function Keep(s: string, k: CharClass): (t: string)
    ensures |t| <= |s|
  {
    if s == [] then []
    else (if InClass(s[0], k) then [s[0]] else []) + Keep(s[1..], k)
  }

  function Concat(ss: seq<string>): string
  {
    if ss == [] then [] else ss[0] + Concat(ss[1..])
  }

  lemma ConcatCons(w: string, ss: seq<string>)
    ensures Concat([w] + ss) == w + Concat(ss)
  {
    assert ([w] + ss)[1..] == ss;
  }

  lemma {:induction false} KeepAppend(a: string, b: string, k: CharClass)
    ensures Keep(a + b, k) == Keep(a, k) + Keep(b, k)
  {
    if a == [] {
      assert a + b == b;
    } else {
      assert (a + b)[0] == a[0];
      assert (a + b)[1..] == a[1..] + b;
      KeepAppend(a[1..], b, k);
      var h := if InClass(a[0], k) then [a[0]] else [];
      calc {
        Keep(a + b, k);
        h + Keep(a[1..] + b, k);
        h + (Keep(a[1..], k) + Keep(b, k));
        (h + Keep(a[1..], k)) + Keep(b, k);
      }
    }
  }

  lemma {:induction false} KeepRun(w: string, k: CharClass)
    requires forall i :: 0 <= i < |w| ==> InClass(w[i], k)
    ensures Keep(w, k) == w
  {
    if w != [] {
      KeepRun(w[1..], k);
    }
  }

  lemma {:induction false} KeepEmptyIff(s: string, k: CharClass)
    ensures Keep(s, k) == [] <==> IsGap(s, k)
  {
    if s != [] {
      KeepEmptyIff(s[1..], k);
      assert forall i :: 1 <= i < |s| ==> s[i] == s[1..][i - 1];
    }
  }

  /** Gluing the runs back together gives the text with every character outside
      the class deleted: the runs lose and reorder nothing of the class. */
  lemma {:induction false} RunsConcat(s: string, k: CharClass)
    ensures Concat(Runs(s, k)) == Keep(s, k)
    decreases |s|
  {
    if s == [] {
    } else if !InClass(s[0], k) {
      RunsConcat(s[1..], k);
    } else {
      var n := Span(s, k);
      RunsConcat(s[n..], k);
      ConcatCons(s[..n], Runs(s[n..], k));
      assert s == s[..n] + s[n..];
      KeepAppend(s[..n], s[n..], k);
      KeepRun(s[..n], k);
    }
  }

  /** A single run is scanned as itself. */
  lemma RunsOfRun(w: string, k: CharClass)
    requires IsRun(w, k)
    ensures Runs(w, k) == [w]
  {
    SpanUnique(w, k, |w|);
    assert w[..|w|] == w && w[|w|..] == [];
  }

  /** No runs at all exactly when no character is in the class. */
  lemma RunsEmptyIff(s: string, k: CharClass)
    ensures Runs(s, k) == [] <==> IsGap(s, k)
  {
    var runs := Runs(s, k);
    RunsConcat(s, k);
    KeepEmptyIff(s, k);
    if runs != [] {
      ConcatCons(runs[0], runs[1..]);
      assert runs == [runs[0]] + runs[1..];
      assert IsRun(runs[0], k);
    }
  }

  /** Two texts that meet at a character outside the class are scanned
      independently: no run spans the seam. */
  lemma {:induction false} RunsAppend(a: string, b: string, k: CharClass)
    requires a == [] || b == [] || !InClass(a[|a| - 1], k) || !InClass(b[0], k)
    ensures Runs(a + b, k) == Runs(a, k) + Runs(b, k)
    decreases |a|, 1
  {
    if a == [] {
      assert a + b == b;
    } else if !InClass(a[0], k) {
      assert (a + b)[0] == a[0];
      assert (a + b)[1..] == a[1..] + b;
      RunsAppend(a[1..], b, k);
    } else {
      RunsAppendAtRun(a, b, k);
    }
  }

  lemma {:induction false} RunsAppendAtRun(a: string, b: string, k: CharClass)
    requires a != [] && InClass(a[0], k)
    requires b == [] || !InClass(a[|a| - 1], k) || !InClass(b[0], k)
    ensures Runs(a + b, k) == Runs(a, k) + Runs(b, k)
    decreases |a|, 0
  {
    var n := Span(a, k);
    var head, tail := a[..n], a[n..];
    RunsAppendHead(a, b, k);
    RunsStep(a, k);
    assert tail != [] ==> tail[|tail| - 1] == a[|a| - 1];
    RunsAppend(tail, b, k);
    assert [head] + (Runs(tail, k) + Runs(b, k)) == ([head] + Runs(tail, k)) + Runs(b, k);
  }

  /** The first run of `a` is split off `a + b` as it is split off `a`. */
  lemma {:induction false} RunsAppendHead(a: string, b: string, k: CharClass)
    requires a != [] && InClass(a[0], k)
    requires b == [] || !InClass(a[|a| - 1], k) || !InClass(b[0], k)
    ensures Runs(a + b, k) == [a[..Span(a, k)]] + Runs(a[Span(a, k)..] + b, k)
  {
    var n := Span(a, k);
    SpanAppend(a, b, k);
    RunsStep(a + b, k);
    assert (a + b)[..n] == a[..n];
    assert (a + b)[n..] == a[n..] + b;
  }

  /** The first run of `a` is not extended by `b` when they meet outside the class. */
  lemma {:induction false} SpanAppend(a: string, b: string, k: CharClass)
    requires a != []
    requires b == [] || !InClass(a[|a| - 1], k) || !InClass(b[0], k)
    ensures Span(a + b, k) == Span(a, k)
  {
    var n := Span(a, k);
    assert forall i :: 0 <= i < |a| ==> (a + b)[i] == a[i];
    if n < |a| {
      assert (a + b)[n] == a[n];
    } else if b != [] {
      assert (a + b)[n] == b[0];
      assert InClass(a[|a| - 1], k);
    }
    SpanUnique(a + b, k, n);
  }

  /** One step of the scan at a position that starts a run. */
  lemma {:induction false} RunsStep(s: string, k: CharClass)
    requires s != [] && InClass(s[0], k)
    ensures Runs(s, k) == [s[..Span(s, k)]] + Runs(s[Span(s, k)..], k)
  {
  }

  /** A run followed by a character outside its class is split off first. */
  lemma RunThen(w: string, rest: string, k: CharClass)
    requires IsRun(w, k)
    requires rest == [] || !InClass(rest[0], k)
    ensures Runs(w + rest, k) == [w] + Runs(rest, k)
  {
    RunsOfRun(w, k);
    RunsAppend(w, rest, k);
  }

  /** A run followed by a class-free gap is scanned as that run alone. */
  lemma RunThenGap(w: string, g: string, k: CharClass)
    requires IsRun(w, k) && IsGap(g, k)
    ensures Runs(w + g, k) == [w]
  {
    RunsEmptyIff(g, k);
    RunThen(w, g, k);
    assert [w] + [] == [w];
  }

  /** A non-empty gap with no character of the class contributes no run. */
  lemma GapThen(g: string, rest: string, k: CharClass)
    requires g != [] && IsGap(g, k)
    ensures Runs(g + rest, k) == Runs(rest, k)
  {
    RunsEmptyIff(g, k);
    RunsAppend(g, rest, k);
  }

  /** A stretch of text with no character of the class. */
  predicate IsGap(g: string, k: CharClass)
  {
    forall i :: 0 <= i < |g| ==> !InClass(g[i], k)
  }

  /** `gaps[0] + ws[0] + gaps[1] + ... + ws[n-1] + gaps[n]`. */
  function Weave(gaps: seq<string>, ws: seq<string>): string
    requires |gaps| == |ws| + 1
    decreases |ws|
  {
    if ws == [] then gaps[0] else gaps[0] + ws[0] + Weave(gaps[1..], ws[1..])
  }

  /** The scan finds exactly the maximal runs: in a text made of runs
      separated by non-empty class-free gaps (the outer two may be empty),
      the runs found are those runs, in order. */
  lemma {:induction false} RunsOfWeave(gaps: seq<string>, ws: seq<string>, k: CharClass)
    requires |gaps| == |ws| + 1
    requires forall j :: 0 <= j < |ws| ==> IsRun(ws[j], k)
    requires forall j :: 0 <= j < |gaps| ==> IsGap(gaps[j], k)
    requires forall j :: 0 < j < |ws| ==> gaps[j] != []
    ensures Runs(Weave(gaps, ws), k) == ws
    decreases |ws|
  {
    if ws == [] {
      RunsEmptyIff(gaps[0], k);
    } else {
      var rest := Weave(gaps[1..], ws[1..]);
      assert forall j :: 0 <= j < |ws[1..]| ==> ws[1..][j] == ws[j + 1];
      assert forall j :: 0 <= j < |gaps[1..]| ==> gaps[1..][j] == gaps[j + 1];
      RunsOfWeave(gaps[1..], ws[1..], k);
      WeaveStart(gaps[1..], ws[1..]);
      assert rest == [] || !InClass(rest[0], k) by {
        if gaps[1] == [] {
          assert |ws| == 1;
        } else {
          assert IsGap(gaps[1], k);
        }
      }
      GapRunThen(gaps[0], ws[0], rest, k);
      assert [ws[0]] + ws[1..] == ws;
    }
  }

  /** A class-free gap, then a run, then a text not continuing the run. */
  lemma GapRunThen(g: string, w: string, rest: string, k: CharClass)
    requires IsGap(g, k) && IsRun(w, k)
    requires rest == [] || !InClass(rest[0], k)
    ensures Runs(g + w + rest, k) == [w] + Runs(rest, k)
  {
    RunThen(w, rest, k);
    assert g + w + rest == g + (w + rest);
    if g != [] {
      GapThen(g, w + rest, k);
    } else {
      assert g + (w + rest) == w + rest;
    }
  }

  /** A woven text starts with its first gap; with no run it is that gap. */
  lemma WeaveStart(gaps: seq<string>, ws: seq<string>)
    requires |gaps| == |ws| + 1
    ensures gaps[0] != [] ==> Weave(gaps, ws) != [] && Weave(gaps, ws)[0] == gaps[0][0]
    ensures ws == [] ==> Weave(gaps, ws) == gaps[0]
  {
  }

  // ---------------------------------------------------------------------------
  // Counting (`list.count`, `str.count` of one character)
  // ---------------------------------------------------------------------------

  /** Number of positions of `s` holding `x`. */
  function Count<T(==)>(s: seq<T>, x: T): (n: nat)
    ensures n <= |s|
    ensures n == 0 <==> x !in s
  {
    if s == [] then 0 else (if s[0] == x then 1 else 0) + Count(s[1..], x)
  }

  lemma {:induction false} CountAppend<T>(a: seq<T>, b: seq<T>, x: T)
    ensures Count(a + b, x) == Count(a, x) + Count(b, x)
  {
    if a == [] {
      assert a + b == b;
    } else {
      assert (a + b)[1..] == a[1..] + b;
      CountAppend(a[1..], b, x);
    }
  }

  /** The characters of class `k` in `s` are as many as the characters `Keep` keeps. */
  function CountClass(s: string, k: CharClass): (n: nat)
    ensures n <= |s|
  {
    if s == [] then 0 else (if InClass(s[0], k) then 1 else 0) + CountClass(s[1..], k)
  }

  lemma {:induction false} KeepLength(s: string, k: CharClass)
    ensures |Keep(s, k)| == CountClass(s, k)
  {
    if s != [] {
      KeepLength(s[1..], k);
    }
  }

  predicate Distinct<T(==)>(xs: seq<T>)
  {
    forall i, j :: 0 <= i < j < |xs| ==> xs[i] != xs[j]
  }

  /** Total number of occurrences in `s` of the entries of `xs`, one per entry. */
  function CountAll<T(==)>(s: seq<T>, xs: seq<T>): nat
  {
    if xs == [] then 0 else Count(s, xs[0]) + CountAll(s, xs[1..])
  }

  lemma {:induction false} CountAllCons<T>(a: T, s: seq<T>, xs: seq<T>)
    ensures CountAll([a] + s, xs) == Count(xs, a) + CountAll(s, xs)
  {
    if xs != [] {
      assert ([a] + s)[1..] == s;
      CountAllCons(a, s, xs[1..]);
    }
  }

  lemma {:induction false} CountDistinct<T>(xs: seq<T>, a: T)
    requires Distinct(xs)
    ensures Count(xs, a) <= 1
  {
    if xs != [] {
      CountDistinct(xs[1..], a);
      if xs[0] == a {
        assert a !in xs[1..] by {
          forall j | 0 <= j < |xs[1..]| ensures xs[1..][j] != a {
            assert xs[1..][j] == xs[j + 1];
          }
        }
      }
    }
  }

  /** Counting several distinct targets never counts a position twice, so the
      counts add up to at most the length of the sequence. */
  lemma {:induction false} CountAllDistinct<T>(s: seq<T>, xs: seq<T>)
    requires Distinct(xs)
    ensures CountAll(s, xs) <= |s|
  {
    if s == [] {
      CountAllZero(s, xs);
    } else {
      assert s == [s[0]] + s[1..];
      CountAllCons(s[0], s[1..], xs);
      CountDistinct(xs, s[0]);
      CountAllDistinct(s[1..], xs);
    }
  }

  lemma {:induction false} CountAllZero<T>(s: seq<T>, xs: seq<T>)
    requires s == []
    ensures CountAll(s, xs) == 0
  {
    if xs != [] {
      CountAllZero(s, xs[1..]);
    }
  }

  /** Python's `s.count(p)`: non-overlapping occurrences of `p`, scanning from the left. */
  function CountSubstring(s: string, p: string): (n: nat)
    requires p != []
    ensures n * |p| <= |s|
    decreases |s|
  {
    if |p| <= |s| && s[..|p|] == p then 1 + CountSubstring(s[|p|..], p)
    else if s == [] then 0
    else CountSubstring(s[1..], p)
  }

  /** Counting a one-character string counts that character's positions. */
  lemma {:induction false} CountSubstringChar(s: string, c: char)
    ensures CountSubstring(s, [c]) == Count(s, c)
  {
    if s != [] {
      CountSubstringChar(s[1..], c);
      assert s[..1] == [s[0]];
    }
  }
}
