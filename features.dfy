/** The feature row of one text, slot by slot, as exact rationals, and the
    properties the extractor promises about it. */
module Features {
  import opened Text
  import opened Schema

  // ---------------------------------------------------------------------------
  // Pre-processing: tokens and the two denominators
  // ---------------------------------------------------------------------------

  /** `words`: the maximal runs of ASCII letters and digits of the lowercased text. */
  function Tokens(text: string): (ts: seq<string>)
    ensures forall j :: 0 <= j < |ts| ==> IsRun(ts[j], AlphaNumeric)
  {
    Runs(Lower(text), AlphaNumeric)
  }

  /** `total_words`: the token count, or 1 when there are no tokens. */
  function TotalWords(text: string): (n: nat)
    ensures n >= 1 && n >= |Tokens(text)|
    ensures Tokens(text) != [] ==> n == |Tokens(text)|
    ensures Tokens(text) == [] ==> n == 1
  {
    if |Tokens(text)| > 0 then |Tokens(text)| else 1
  }

  /** `total_chars`: the length of the original text, or 1 when it is empty. */
  function TotalChars(text: string): (n: nat)
    ensures n >= 1 && n >= |text|
    ensures text != [] ==> n == |text|
    ensures text == [] ==> n == 1
  {
    if |text| > 0 then |text| else 1
  }

  /** `(count / total) * 100`, computed exactly. */
  function Percent(count: nat, total: nat): (r: real)
    requires total > 0
    ensures r >= 0.0
    ensures count == 0 ==> r == 0.0
    ensures count <= total ==> r <= 100.0
  {
    (count as real / total as real) * 100.0
  }

  lemma PercentAdd(a: nat, b: nat, d: nat)
    requires d > 0
    ensures Percent(a, d) + Percent(b, d) == Percent(a + b, d)
  {
    assert a as real / d as real + b as real / d as real == (a + b) as real / d as real;
  }

  lemma PercentScale(a: nat, d: nat, m: nat)
    requires d > 0 && m > 0
    ensures Percent(m * a, m * d) == Percent(a, d)
  {
    assert (m * a) as real == m as real * a as real;
    assert (m * d) as real == m as real * d as real;
    assert (m as real * a as real) / (m as real * d as real) == a as real / d as real;
  }

  // ---------------------------------------------------------------------------
  // Word and character frequencies
  // ---------------------------------------------------------------------------

  /** A word slot: whole-token occurrences of `word` per hundred tokens. */
  function WordFrequency(text: string, word: string): (r: real)
    ensures 0.0 <= r <= 100.0
    ensures word !in Tokens(text) <==> r == 0.0
  {
    Percent(Count(Tokens(text), word), TotalWords(text))
  }

  /** A character slot: occurrences of `c` in the original text per hundred characters. */
  function CharFrequency(text: string, c: char): (r: real)
    ensures 0.0 <= r <= 100.0
    ensures c !in text <==> r == 0.0
  {
    Percent(Count(text, c), TotalChars(text))
  }

  // ---------------------------------------------------------------------------
  // Capital runs
  // ---------------------------------------------------------------------------

  /** `capital_runs`: the maximal runs of `A`-`Z` in the original text. */
  function CapitalRuns(text: string): (runs: seq<string>)
    ensures forall j :: 0 <= j < |runs| ==> IsRun(runs[j], Uppercase)
  {
    Runs(text, Uppercase)
  }

  function Sum(xs: seq<nat>): (s: nat)
    ensures forall j :: 0 <= j < |xs| ==> xs[j] <= s
  {
    if xs == [] then 0 else xs[0] + Sum(xs[1..])
  }

  /** `np.max`: an element of the list that no element exceeds. */
  function Max(xs: seq<nat>): (m: nat)
    requires xs != []
    ensures m in xs
    ensures forall j :: 0 <= j < |xs| ==> xs[j] <= m
  {
    if |xs| == 1 then xs[0]
    else
      var rest := Max(xs[1..]);
      assert forall j :: 1 <= j < |xs| ==> xs[j] == xs[1..][j - 1];
      if xs[0] >= rest then xs[0] else rest
  }

  datatype CapitalStats = CapitalStats(average: real, longest: nat, total: nat)

  /** The three capital-run slots: mean, maximum and sum of the run lengths,
      or three zeros when the text has no capital run. */
  function CapitalRunStats(text: string): (st: CapitalStats)
    ensures CapitalRuns(text) == [] <==> st == CapitalStats(0.0, 0, 0)
    ensures CapitalRuns(text) != [] ==>
      st.longest in Lengths(CapitalRuns(text)) && st.longest <= st.total
  {
    var lengths := Lengths(CapitalRuns(text));
    if lengths == [] then CapitalStats(0.0, 0, 0)
    else CapitalStats(Sum(lengths) as real / |lengths| as real, Max(lengths), Sum(lengths))
  }

  // ---------------------------------------------------------------------------
  // The row
  // ---------------------------------------------------------------------------

  /** The value of one slot for a text. */
  function SlotValue(kind: SlotKind, text: string): real
  {
    match kind
    case WordFreq(w) => WordFrequency(text, w)
    case CharFreq(c) => CharFrequency(text, c)
    case CapitalRunAverage => CapitalRunStats(text).average
    case CapitalRunLongest => CapitalRunStats(text).longest as real
    case CapitalRunTotal => CapitalRunStats(text).total as real
  }

  /** The feature row: every slot of the schema, in schema order. */
  function FeatureRow(text: string): (row: seq<real>)
    ensures |row| == SlotCount
  {
    seq(SlotCount, i requires 0 <= i < SlotCount => SlotValue(Column(i).kind, text))
  }

  /** The row holds the 48 word frequencies, then the 6 character frequencies,
      then the average, longest and total capital-run lengths. */
  lemma FeatureRowLayout(text: string)
    ensures |FeatureRow(text)| == 57
    ensures forall i :: 0 <= i < WordSlotCount ==>
      FeatureRow(text)[i] == WordFrequency(text, WordLiteral(i))
    ensures forall i :: 0 <= i < CharSlotCount ==>
      FeatureRow(text)[WordSlotCount + i] == CharFrequency(text, CharLiterals[i])
    ensures FeatureRow(text)[AverageSlot] == CapitalRunStats(text).average
    ensures FeatureRow(text)[LongestSlot] == CapitalRunStats(text).longest as real
    ensures FeatureRow(text)[TotalSlot] == CapitalRunStats(text).total as real
  {
  }

  // ---------------------------------------------------------------------------
  // Word slots
  // ---------------------------------------------------------------------------

  /** Each word slot lies in [0, 100], and is 0 when the text has no token. */
  lemma WordFrequencyBounds(text: string, word: string)
    ensures 0.0 <= WordFrequency(text, word) <= 100.0
    ensures Tokens(text) == [] ==> WordFrequency(text, word) == 0.0
  {
  }

  /** A text without any ASCII letter or digit has no tokens, and every word
      slot of its row is 0. */
  lemma NoTokensNoWordFrequency(text: string)
    requires IsGap(text, AlphaNumeric)
    ensures Tokens(text) == []
    ensures forall i :: 0 <= i < WordSlotCount ==> FeatureRow(text)[i] == 0.0
  {
    RunsEmptyIff(Lower(text), AlphaNumeric);
    assert forall i :: 0 <= i < |text| ==> Lower(text)[i] == LowerChar(text[i]);
  }

  /** Tokens are taken from the lowercased text, so a text and its lowercased
      copy have the same tokens and the same word slots. */
  lemma WordSlotsCaseInsensitive(text: string)
    ensures Tokens(Lower(text)) == Tokens(text)
    ensures forall i :: 0 <= i < WordSlotCount ==> FeatureRow(Lower(text))[i] == FeatureRow(text)[i]
  {
    LowerIdempotent(text);
  }

  function SumReals(xs: seq<real>): real
  {
    if xs == [] then 0.0 else xs[0] + SumReals(xs[1..])
  }

  /** The percentages of the entries of `xs` among the elements of `s`. */
  function Percents<T(==)>(s: seq<T>, xs: seq<T>, d: nat): (ps: seq<real>)
    requires d > 0
    ensures |ps| == |xs|
  {
    seq(|xs|, i requires 0 <= i < |xs| => Percent(Count(s, xs[i]), d))
  }

  lemma {:induction false} SumPercents<T>(s: seq<T>, xs: seq<T>, d: nat)
    requires d > 0
    ensures SumReals(Percents(s, xs, d)) == Percent(CountAll(s, xs), d)
  {
    if xs != [] {
      assert Percents(s, xs, d)[1..] == Percents(s, xs[1..], d);
      SumPercents(s, xs[1..], d);
      PercentAdd(Count(s, xs[0]), CountAll(s, xs[1..]), d);
    }
  }

  /** The 48 word literals are distinct and matching is by whole token, so no
      token is counted by two slots: the word slots add up to at most 100. */
  lemma WordSlotsSumAtMost100(text: string)
    ensures SumReals(FeatureRow(text)[..WordSlotCount]) <= 100.0
  {
    var toks, d := Tokens(text), TotalWords(text);
    FeatureRowLayout(text);
    assert FeatureRow(text)[..WordSlotCount] == Percents(toks, WordLiterals, d);
    SumPercents(toks, WordLiterals, d);
    LiteralsDistinct();
    CountAllDistinct(toks, WordLiterals);
  }

  // ---------------------------------------------------------------------------
  // Character slots
  // ---------------------------------------------------------------------------

  /** Each character slot lies in [0, 100], and is 0 for the empty text. */
  lemma CharFrequencyBounds(text: string, c: char)
    ensures 0.0 <= CharFrequency(text, c) <= 100.0
    ensures text == [] ==> CharFrequency(text, c) == 0.0
  {
  }

  /** The six character literals are distinct, so the character slots add up
      to at most 100. */
  lemma CharSlotsSumAtMost100(text: string)
    ensures SumReals(FeatureRow(text)[WordSlotCount..WordSlotCount + CharSlotCount]) <= 100.0
  {
    var d := TotalChars(text);
    FeatureRowLayout(text);
    assert FeatureRow(text)[WordSlotCount..WordSlotCount + CharSlotCount] == Percents(text, CharLiterals, d);
    SumPercents(text, CharLiterals, d);
    LiteralsDistinct();
    CountAllDistinct(text, CharLiterals);
  }

  /** The slot named `char_freq__` counts the character `[`. */
  lemma BracketSlot(text: string)
    ensures Column(50).name == "char_freq__"
    ensures FeatureRow(text)[50] == Percent(Count(text, '['), TotalChars(text))
  {
    CharLiteralsFixed();
    FeatureRowLayout(text);
  }

  /** Only `[` moves the `[` count: appending any other character leaves it. */
  lemma BracketCountOnly(text: string, c: char)
    requires c != '['
    ensures Count(text + [c], '[') == Count(text, '[')
  {
    CountAppend(text, [c], '[');
  }

  // ---------------------------------------------------------------------------
  // Capital-run slots
  // ---------------------------------------------------------------------------

  lemma {:induction false} SumLengthsConcat(runs: seq<string>)
    ensures Sum(Lengths(runs)) == |Concat(runs)|
  {
    if runs != [] {
      assert Lengths(runs)[1..] == Lengths(runs[1..]);
      SumLengthsConcat(runs[1..]);
    }
  }

  lemma {:induction false} SumBounds(xs: seq<nat>, lo: nat, hi: nat)
    requires forall j :: 0 <= j < |xs| ==> lo <= xs[j] <= hi
    ensures |xs| * lo <= Sum(xs) <= |xs| * hi
  {
    if xs != [] {
      var rest := xs[1..];
      assert forall j :: 0 <= j < |rest| ==> rest[j] == xs[j + 1];
      SumBounds(rest, lo, hi);
      assert lo <= xs[0] <= hi;
      BoundsStep(|rest|, xs[0], Sum(rest), lo, hi);
    }
  }

  /** One more element between `lo` and `hi` keeps the sum between the bounds. */
  lemma BoundsStep(n: nat, x: nat, s: nat, lo: nat, hi: nat)
    requires n * lo <= s <= n * hi && lo <= x <= hi
    ensures (n + 1) * lo <= x + s <= (n + 1) * hi
  {
    assert (n + 1) * lo == n * lo + lo && (n + 1) * hi == n * hi + hi;
  }

  /** The capital-run slots.  With no capital letter all three are 0, and
      only then.  Otherwise the total is the number of `A`-`Z` characters of
      the text, the longest run is between 1 and the total, and the average
      is the total divided by the number of runs, between 1 and the longest. */
  lemma CapitalRunStatsSpec(text: string)
    ensures var st := CapitalRunStats(text);
      && (IsGap(text, Uppercase) <==> st == CapitalStats(0.0, 0, 0))
      && st.total == CountClass(text, Uppercase)
      && (st.total > 0 ==>
            && 1 <= st.longest <= st.total
            && st.average == st.total as real / |CapitalRuns(text)| as real
            && 1.0 <= st.average <= st.longest as real)
  {
    CapitalStatsZeroIff(text);
    CapitalTotal(text);
    if CapitalRunStats(text).total > 0 {
      CapitalBounds(text);
    }
  }

  /** All three capital-run slots are 0 exactly when no `A`-`Z` occurs. */
  lemma CapitalStatsZeroIff(text: string)
    ensures IsGap(text, Uppercase) <==> CapitalRunStats(text) == CapitalStats(0.0, 0, 0)
  {
    var runs := CapitalRuns(text);
    RunsEmptyIff(text, Uppercase);
    if runs != [] {
      CapitalTotal(text);
      PositiveLengths(runs);
      SumAtLeastElement(Lengths(runs), 0);
    }
  }

  /** The capital-run total is the number of `A`-`Z` characters. */
  lemma CapitalTotal(text: string)
    ensures CapitalRunStats(text).total == CountClass(text, Uppercase)
  {
    var runs := CapitalRuns(text);
    RunsConcat(text, Uppercase);
    KeepLength(text, Uppercase);
    SumLengthsConcat(runs);
  }

  /** With at least one capital, 1 <= longest <= total and
      1 <= average = total / run count <= longest. */
  lemma CapitalBounds(text: string)
    requires CapitalRunStats(text).total > 0
    ensures 1 <= CapitalRunStats(text).longest <= CapitalRunStats(text).total
    ensures CapitalRunStats(text).average == CapitalRunStats(text).total as real / |CapitalRuns(text)| as real
    ensures 1.0 <= CapitalRunStats(text).average <= CapitalRunStats(text).longest as real
  {
    var runs := CapitalRuns(text);
    PositiveLengths(runs);
    LengthStats(Lengths(runs));
  }

  /** Runs are non-empty, so their lengths are positive. */
  lemma PositiveLengths(runs: seq<string>)
    requires forall j :: 0 <= j < |runs| ==> IsRun(runs[j], Uppercase)
    ensures forall j :: 0 <= j < |runs| ==> 1 <= Lengths(runs)[j]
  {
    forall j | 0 <= j < |runs| ensures 1 <= Lengths(runs)[j] {
      assert IsRun(runs[j], Uppercase);
    }
  }

  /** Mean, maximum and sum of a non-empty list of positive lengths. */
  lemma LengthStats(ls: seq<nat>)
    requires ls != []
    requires forall j :: 0 <= j < |ls| ==> 1 <= ls[j]
    ensures 1 <= Max(ls) <= Sum(ls)
    ensures 1.0 <= Sum(ls) as real / |ls| as real <= Max(ls) as real
  {
    var m, t, n := Max(ls), Sum(ls), |ls|;
    SumBounds(ls, 1, m);
    MaxAtMostSum(ls);
    MeanBounds(t, n, m);
  }

  lemma MaxAtMostSum(ls: seq<nat>)
    requires ls != []
    ensures 1 <= |ls| && ls[0] <= Max(ls) <= Sum(ls)
  {
    var m := Max(ls);
    var k :| 0 <= k < |ls| && ls[k] == m;
    SumAtLeastElement(ls, k);
  }

  lemma MeanBounds(t: nat, n: nat, m: nat)
    requires 0 < n <= t <= n * m
    ensures 1.0 <= t as real / n as real <= m as real
  {
    CastMul(n, m);
    var q, nn, tt, mm := t as real / n as real, n as real, t as real, m as real;
    assert q * nn == tt;
    NonNegativeFactor(q - 1.0, nn);
    NonNegativeFactor(mm - q, nn);
  }

  lemma NonNegativeFactor(x: real, y: real)
    requires y > 0.0 && x * y >= 0.0
    ensures x >= 0.0
  {
  }

  lemma {:induction false} CastMul(n: nat, m: nat)
    ensures (n * m) as real == n as real * m as real
  {
    if n > 0 {
      CastMul(n - 1, m);
      assert n * m == (n - 1) * m + m;
    }
  }

  lemma {:induction false} SumAtLeastElement(xs: seq<nat>, k: nat)
    requires k < |xs|
    ensures xs[k] <= Sum(xs)
  {
    if k > 0 {
      SumAtLeastElement(xs[1..], k - 1);
    }
  }

  // ---------------------------------------------------------------------------
  // Whole-row properties
  // ---------------------------------------------------------------------------

  /** Every slot of every row is non-negative, the frequency slots are at most 100. */
  lemma FeatureRowBounds(text: string)
    ensures forall i :: 0 <= i < SlotCount ==> FeatureRow(text)[i] >= 0.0
    ensures forall i :: 0 <= i < WordSlotCount + CharSlotCount ==> FeatureRow(text)[i] <= 100.0
  {
    forall i | 0 <= i < SlotCount
      ensures FeatureRow(text)[i] >= 0.0
      ensures i < WordSlotCount + CharSlotCount ==> FeatureRow(text)[i] <= 100.0
    {
      SlotBounds(text, i);
    }
  }

  lemma SlotBounds(text: string, i: nat)
    requires i < SlotCount
    ensures FeatureRow(text)[i] >= 0.0
    ensures i < WordSlotCount + CharSlotCount ==> FeatureRow(text)[i] <= 100.0
  {
    FeatureRowLayout(text);
    if i < WordSlotCount {
      WordFrequencyBounds(text, WordLiteral(i));
    } else if i < WordSlotCount + CharSlotCount {
      CharFrequencyBounds(text, CharLiterals[i - WordSlotCount]);
    } else {
      CapitalRunStatsSpec(text);
    }
  }

  /** The empty text gives 0 in all 57 slots. */
  lemma EmptyTextRow()
    ensures FeatureRow("") == seq(SlotCount, _ => 0.0)
  {
    FeatureRowLayout("");
    CapitalRunStatsSpec("");
    NoTokensNoWordFrequency("");
  }

  /** Repeating a text whose two ends cannot join into one token (`s + s`)
      keeps every frequency slot, doubles the capital-run total and keeps the
      average and the longest run. */
  lemma DoubledText(s: string)
    requires s == [] || !InClass(s[|s| - 1], AlphaNumeric) || !InClass(s[0], AlphaNumeric)
    ensures forall i :: 0 <= i < WordSlotCount + CharSlotCount ==> FeatureRow(s + s)[i] == FeatureRow(s)[i]
    ensures CapitalRunStats(s + s).total == 2 * CapitalRunStats(s).total
    ensures CapitalRunStats(s + s).longest == CapitalRunStats(s).longest
    ensures CapitalRunStats(s + s).average == CapitalRunStats(s).average
  {
    forall i | 0 <= i < WordSlotCount + CharSlotCount
      ensures FeatureRow(s + s)[i] == FeatureRow(s)[i]
    {
      DoubledSlot(s, i);
    }
    assert s == [] || !IsUpper(s[|s| - 1]) || !IsUpper(s[0]);
    DoubledCapitals(s);
  }

  lemma DoubledSlot(s: string, i: nat)
    requires s == [] || !InClass(s[|s| - 1], AlphaNumeric) || !InClass(s[0], AlphaNumeric)
    requires i < WordSlotCount + CharSlotCount
    ensures FeatureRow(s + s)[i] == FeatureRow(s)[i]
  {
    var kind := Column(i).kind;
    assert kind.WordFreq? || kind.CharFreq?;
    if kind.WordFreq? {
      DoubledWordFrequency(s, kind.word);
    } else {
      DoubledCharFrequency(s, kind.ch);
    }
  }

  lemma DoubledWordFrequency(s: string, w: string)
    requires s == [] || !InClass(s[|s| - 1], AlphaNumeric) || !InClass(s[0], AlphaNumeric)
    ensures WordFrequency(s + s, w) == WordFrequency(s, w)
  {
    DoubledTokens(s);
    CountAppend(Tokens(s), Tokens(s), w);
    if Tokens(s) != [] {
      PercentScale(Count(Tokens(s), w), TotalWords(s), 2);
    }
  }

  lemma DoubledCharFrequency(s: string, c: char)
    ensures CharFrequency(s + s, c) == CharFrequency(s, c)
  {
    CountAppend(s, s, c);
    if s != [] {
      PercentScale(Count(s, c), TotalChars(s), 2);
    } else {
      assert s + s == s;
    }
  }

  lemma DoubledTokens(s: string)
    requires s == [] || !InClass(s[|s| - 1], AlphaNumeric) || !InClass(s[0], AlphaNumeric)
    ensures Tokens(s + s) == Tokens(s) + Tokens(s)
  {
    LowerAppend(s, s);
    var t := Lower(s);
    assert t == [] || !InClass(t[|t| - 1], AlphaNumeric) || !InClass(t[0], AlphaNumeric);
    RunsAppend(t, t, AlphaNumeric);
  }

  /** Repeating a text whose two ends cannot join into one capital run
      doubles the capital-run total and keeps the average and the longest run. */
  lemma DoubledCapitals(s: string)
    requires s == [] || !IsUpper(s[|s| - 1]) || !IsUpper(s[0])
    ensures CapitalRunStats(s + s).total == 2 * CapitalRunStats(s).total
    ensures CapitalRunStats(s + s).longest == CapitalRunStats(s).longest
    ensures CapitalRunStats(s + s).average == CapitalRunStats(s).average
  {
    DoubledRunLengths(s);
    DoubledStats(Lengths(CapitalRuns(s)), Lengths(CapitalRuns(s + s)));
  }

  /** The statistics of a length list repeated twice. */
  lemma DoubledStats(ls: seq<nat>, ls2: seq<nat>)
    requires ls2 == ls + ls
    ensures Sum(ls2) == 2 * Sum(ls)
    ensures ls != [] ==> ls2 != [] && Max(ls2) == Max(ls)
    ensures ls != [] ==> Sum(ls2) as real / |ls2| as real == Sum(ls) as real / |ls| as real
  {
    SumAppend(ls, ls);
    if ls != [] {
      MaxDoubled(ls);
      var t, n := Sum(ls), |ls|;
      assert Sum(ls2) == 2 * t && |ls2| == 2 * n;
      MeanDoubled(t, n);
    }
  }

  lemma DoubledRunLengths(s: string)
    requires s == [] || !IsUpper(s[|s| - 1]) || !IsUpper(s[0])
    ensures Lengths(CapitalRuns(s + s)) == Lengths(CapitalRuns(s)) + Lengths(CapitalRuns(s))
  {
    RunsAppend(s, s, Uppercase);
    LengthsAppend(CapitalRuns(s), CapitalRuns(s));
  }

  lemma LengthsAppend(xs: seq<string>, ys: seq<string>)
    ensures Lengths(xs + ys) == Lengths(xs) + Lengths(ys)
  {
  }

  lemma MeanDoubled(t: nat, n: nat)
    requires n > 0
    ensures (2 * t) as real / (2 * n) as real == t as real / n as real
  {
    assert (2 * t) as real == 2.0 * t as real && (2 * n) as real == 2.0 * n as real;
  }

  lemma {:induction false} SumAppend(xs: seq<nat>, ys: seq<nat>)
    ensures Sum(xs + ys) == Sum(xs) + Sum(ys)
  {
    if xs == [] {
      assert xs + ys == ys;
    } else {
      assert (xs + ys)[1..] == xs[1..] + ys;
      SumAppend(xs[1..], ys);
    }
  }

  lemma MaxDoubled(xs: seq<nat>)
    requires xs != []
    ensures Max(xs + xs) == Max(xs)
  {
    var m, mm := Max(xs), Max(xs + xs);
    assert m in xs + xs;
    assert mm in xs;
    var k :| 0 <= k < |xs + xs| && (xs + xs)[k] == m;
    var l :| 0 <= l < |xs| && xs[l] == mm;
  }
}
