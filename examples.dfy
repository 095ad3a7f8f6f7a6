/** Worked inputs: the row the extractor produces for a few concrete texts. */
module Examples {
  import opened Text
  import opened Schema
  import opened Features

  /** "Hello WORLD test AB" has the capital runs H, WORLD and AB, of lengths
      1, 5 and 2. */
  lemma HelloWorldRuns()
    ensures CapitalRuns("Hello WORLD test AB") == ["H", "WORLD", "AB"]
  {
    HelloWorldPieces();
    HelloWorldHead("Hello WORLD test AB");
  }

  lemma HelloWorldHead(s: string)
    requires s == "H" + ("ello " + ("WORLD" + (" test " + "AB")))
    ensures Runs(s, Uppercase) == ["H", "WORLD", "AB"]
  {
    var k := Uppercase;
    var s3 := "WORLD" + (" test " + "AB");
    var s2 := "ello " + s3;
    HelloWorldTail(s3);
    GapThen("ello ", s3, k);
    RunThen("H", s2, k);
    assert Runs("H" + s2, k) == ["H"] + ["WORLD", "AB"];
  }

  lemma HelloWorldTail(s: string)
    requires s == "WORLD" + (" test " + "AB")
    ensures Runs(s, Uppercase) == ["WORLD", "AB"]
  {
    var k := Uppercase;
    var s4 := " test " + "AB";
    RunsOfRun("AB", k);
    GapThen(" test ", "AB", k);
    RunThen("WORLD", s4, k);
  }

  /** Any text with those capital runs (such as "Hello WORLD test AB", by
      HelloWorldRuns) gets average 8/3, longest 5 and total 8. */
  lemma HelloWorldCapitals(text: string)
    requires CapitalRuns(text) == ["H", "WORLD", "AB"]
    ensures Lengths(CapitalRuns(text)) == [1, 5, 2]
    ensures CapitalRunStats(text) == CapitalStats(8.0 / 3.0, 5, 8)
  {
    assert Lengths(["H", "WORLD", "AB"]) == [1, 5, 2];
    StatsOfRuns(text, ["H", "WORLD", "AB"], [1, 5, 2]);
    HelloWorldAggregates();
  }

  /** "Buy NOW!!! FREE money $$$" has the capital runs B, NOW and FREE: the
      capital 'B' of "Buy" is a run of its own. */
  lemma BuyNowRuns()
    ensures CapitalRuns("Buy NOW!!! FREE money $$$") == ["B", "NOW", "FREE"]
  {
    BuyNowPieces();
    BuyNowHead("Buy NOW!!! FREE money $$$");
  }

  lemma BuyNowHead(s: string)
    requires s == "B" + ("uy " + ("NOW" + ("!!! " + ("FREE" + " money $$$"))))
    ensures Runs(s, Uppercase) == ["B", "NOW", "FREE"]
  {
    var k := Uppercase;
    var s3 := "NOW" + ("!!! " + ("FREE" + " money $$$"));
    var s2 := "uy " + s3;
    BuyNowTail(s3);
    GapThen("uy ", s3, k);
    RunThen("B", s2, k);
    assert Runs("B" + s2, k) == ["B"] + ["NOW", "FREE"];
  }

  lemma BuyNowTail(s: string)
    requires s == "NOW" + ("!!! " + ("FREE" + " money $$$"))
    ensures Runs(s, Uppercase) == ["NOW", "FREE"]
  {
    var k := Uppercase;
    var s5 := "FREE" + " money $$$";
    var s4 := "!!! " + s5;
    BuyNowLastRun(s5);
    GapThen("!!! ", s5, k);
    RunThen("NOW", s4, k);
    assert Runs("NOW" + s4, k) == ["NOW"] + ["FREE"];
  }

  lemma BuyNowLastRun(s: string)
    requires s == "FREE" + " money $$$"
    ensures Runs(s, Uppercase) == ["FREE"]
  {
    RunThenGap("FREE", " money $$$", Uppercase);
  }

  /** Any text with those capital runs gets average 8/3, longest 4 and total 8. */
  lemma BuyNowCapitals(text: string)
    requires CapitalRuns(text) == ["B", "NOW", "FREE"]
    ensures Lengths(CapitalRuns(text)) == [1, 3, 4]
    ensures CapitalRunStats(text) == CapitalStats(8.0 / 3.0, 4, 8)
  {
    assert Lengths(["B", "NOW", "FREE"]) == [1, 3, 4];
    StatsOfRuns(text, ["B", "NOW", "FREE"], [1, 3, 4]);
    BuyNowAggregates();
  }

  lemma BuyNowAggregates()
    ensures Sum([1, 3, 4]) == 8 && Max([1, 3, 4]) == 4
  {
    var ls: seq<nat> := [1, 3, 4];
    assert ls[1..] == [3, 4] && ls[1..][1..] == [4];
    assert Max(ls) in ls;
  }

  lemma HelloWorldAggregates()
    ensures Sum([1, 5, 2]) == 8 && Max([1, 5, 2]) == 5
  {
    var ls: seq<nat> := [1, 5, 2];
    assert ls[1..] == [5, 2] && ls[1..][1..] == [2];
    assert Max(ls) in ls;
  }

  /** The three statistics of a text whose run lengths are known. */
  lemma StatsOfRuns(t: string, runs: seq<string>, ls: seq<nat>)
    requires CapitalRuns(t) == runs && Lengths(runs) == ls && ls != []
    ensures CapitalRunStats(t) == CapitalStats(Sum(ls) as real / |ls| as real, Max(ls), Sum(ls))
  {
  }

  lemma HelloWorldPieces()
    ensures "H" + ("ello " + ("WORLD" + (" test " + "AB"))) == "Hello WORLD test AB"
  {
  }

  lemma BuyNowPieces()
    ensures "B" + ("uy " + ("NOW" + ("!!! " + ("FREE" + " money $$$")))) == "Buy NOW!!! FREE money $$$"
  {
  }

  /** "FREE" and "free" have the same single token, "free". */
  lemma FreeTokens(text: string)
    requires text == "FREE" || text == "free"
    ensures Tokens(text) == ["free"]
  {
    assert Lower(text) == "free";
    RunsOfRun("free", AlphaNumeric);
  }

  /** A text whose only token is "free" (either spelling, by FreeTokens) fills
      the `free` slot, slot 15, with 100 and every other word slot with 0. */
  lemma FreeSlot(text: string)
    requires Tokens(text) == ["free"]
    ensures FeatureRow(text)[15] == 100.0
    ensures forall i :: 0 <= i < WordSlotCount && i != 15 ==> FeatureRow(text)[i] == 0.0
  {
    FeatureRowLayout(text);
    LiteralsDistinct();
    assert WordLiteral(15) == "free";
    assert Count(["free"], "free") == 1;
    forall i | 0 <= i < WordSlotCount && i != 15
      ensures FeatureRow(text)[i] == 0.0
    {
      assert WordLiteral(i) != "free";
      assert Count(["free"], WordLiteral(i)) == 0;
    }
  }

  /** "FREE" and "free" themselves both put 100 in the `free` slot. */
  lemma FreeBothSpellings()
    ensures FeatureRow("FREE")[15] == 100.0 && FeatureRow("free")[15] == 100.0
  {
    FreeTokens("FREE");
    FreeSlot("FREE");
    FreeTokens("free");
    FreeSlot("free");
  }

  /** The lowercased "Buy NOW!!! FREE money $$$". */
  lemma BuyNowLower()
    ensures Lower("Buy NOW!!! FREE money $$$") == "buy now!!! free money $$$"
  {
    var a, b := "Buy NOW!!! ", "FREE money $$$";
    assert a + b == "Buy NOW!!! FREE money $$$";
    LowerAppend(a, b);
    LowerPieces();
  }

  lemma LowerPieces()
    ensures Lower("Buy NOW!!! ") == "buy now!!! "
    ensures Lower("FREE money $$$") == "free money $$$"
  {
  }

  /** The tokens of "Buy NOW!!! FREE money $$$" are buy, now, free, money. */
  lemma BuyNowTokens()
    ensures Tokens("Buy NOW!!! FREE money $$$") == ["buy", "now", "free", "money"]
  {
    var gaps := ["", " ", "!!! ", " ", " $$$"];
    var ws := ["buy", "now", "free", "money"];
    BuyNowLower();
    BuyNowWeave();
    RunsOfWeave(gaps, ws, AlphaNumeric);
  }

  lemma BuyNowWeave()
    ensures Weave(["", " ", "!!! ", " ", " $$$"], ["buy", "now", "free", "money"]) == "buy now!!! free money $$$"
  {
    WeaveFour("", " ", "!!! ", " ", " $$$", "buy", "now", "free", "money");
    BuyNowWeavePieces();
  }

  lemma BuyNowWeavePieces()
    ensures "" + "buy" + (" " + "now" + ("!!! " + "free" + (" " + "money" + " $$$"))) == "buy now!!! free money $$$"
  {
  }

  /** Four runs woven between five gaps, spelled out. */
  lemma WeaveFour(g0: string, g1: string, g2: string, g3: string, g4: string,
                  w0: string, w1: string, w2: string, w3: string)
    ensures Weave([g0, g1, g2, g3, g4], [w0, w1, w2, w3])
         == g0 + w0 + (g1 + w1 + (g2 + w2 + (g3 + w3 + g4)))
  {
    assert Weave([g4], []) == g4;
    assert Weave([g3, g4], [w3]) == g3 + w3 + g4 by {
      assert [g3, g4][1..] == [g4] && [w3][1..] == [];
    }
    assert Weave([g2, g3, g4], [w2, w3]) == g2 + w2 + (g3 + w3 + g4) by {
      assert [g2, g3, g4][1..] == [g3, g4] && [w2, w3][1..] == [w3];
    }
    assert Weave([g1, g2, g3, g4], [w1, w2, w3]) == g1 + w1 + (g2 + w2 + (g3 + w3 + g4)) by {
      assert [g1, g2, g3, g4][1..] == [g2, g3, g4] && [w1, w2, w3][1..] == [w2, w3];
    }
    assert [g0, g1, g2, g3, g4][1..] == [g1, g2, g3, g4] && [w0, w1, w2, w3][1..] == [w1, w2, w3];
  }

  /** With those four tokens the `free` slot (15) and the `money` slot (23)
      are 1/4 * 100 = 25. */
  lemma BuyNowWordSlots(text: string)
    requires Tokens(text) == ["buy", "now", "free", "money"]
    ensures FeatureRow(text)[15] == 25.0 && FeatureRow(text)[23] == 25.0
  {
    BuyNowTokenCounts(Tokens(text));
    assert Column(15).kind == WordFreq("free");
    assert Column(23).kind == WordFreq("money");
    assert TotalWords(text) == 4;
    assert FeatureRow(text)[15] == Percent(1, 4);
    assert FeatureRow(text)[23] == Percent(1, 4);
  }

  lemma BuyNowTokenCounts(ts: seq<string>)
    requires ts == ["buy", "now", "free", "money"]
    ensures Count(ts, "free") == 1 && Count(ts, "money") == 1 && |ts| == 4
  {
    CountOfFour("buy", "now", "free", "money", "free");
    CountOfFour("buy", "now", "free", "money", "money");
    assert |"buy"| == 3 && |"now"| == 3 && |"free"| == 4 && |"money"| == 5;
  }

  /** The occurrences of `x` in a four-element list, one element at a time. */
  lemma CountOfFour<T>(a: T, b: T, c: T, d: T, x: T)
    ensures Count([a, b, c, d], x) ==
      (if a == x then 1 else 0) + (if b == x then 1 else 0) +
      (if c == x then 1 else 0) + (if d == x then 1 else 0)
  {
    var n := if d == x then 1 else 0;
    assert [d][1..] == [] && Count([d], x) == n;
    n := n + if c == x then 1 else 0;
    assert [c, d][1..] == [d] && Count([c, d], x) == n;
    n := n + if b == x then 1 else 0;
    assert [b, c, d][1..] == [c, d] && Count([b, c, d], x) == n;
    assert [a, b, c, d][1..] == [b, c, d];
  }

  /** "Buy NOW!!! FREE money $$$" has 25 characters, three `!` and three `$`. */
  lemma BuyNowCounts()
    ensures var text := "Buy NOW!!! FREE money $$$";
      |text| == 25 && Count(text, '!') == 3 && Count(text, '$') == 3
  {
    BuyNowCharPieces();
    BuyNowCountsOf("Buy NOW!!! FREE money $$$");
  }

  lemma BuyNowCountsOf(s: string)
    requires s == ("Buy NOW" + "!!!") + (" FREE money " + "$$$")
    ensures |s| == 25 && Count(s, '!') == 3 && Count(s, '$') == 3
  {
    BuyNowCountPieces("Buy NOW", "!!!", " FREE money ", "$$$");
    CountFour("Buy NOW", "!!!", " FREE money ", "$$$", '!');
    CountFour("Buy NOW", "!!!", " FREE money ", "$$$", '$');
  }

  lemma BuyNowCharPieces()
    ensures ("Buy NOW" + "!!!") + (" FREE money " + "$$$") == "Buy NOW!!! FREE money $$$"
  {
  }

  lemma CountFour(a: string, b: string, c: string, d: string, x: char)
    ensures Count((a + b) + (c + d), x) == Count(a, x) + Count(b, x) + Count(c, x) + Count(d, x)
  {
    CountAppend(a, b, x);
    CountAppend(c, d, x);
    CountAppend(a + b, c + d, x);
  }

  lemma BuyNowCountPieces(a: string, b: string, c: string, d: string)
    requires a == "Buy NOW" && b == "!!!" && c == " FREE money " && d == "$$$"
    ensures Count(a, '!') == 0 && Count(b, '!') == 3 && Count(c, '!') == 0 && Count(d, '!') == 0
    ensures Count(a, '$') == 0 && Count(b, '$') == 0 && Count(c, '$') == 0 && Count(d, '$') == 3
  {
    assert '!' !in a && '!' !in c && '!' !in d;
    assert '$' !in a && '$' !in b && '$' !in c;
    CountThree('!');
    CountThree('$');
  }

  lemma CountThree(c: char)
    ensures Count([c, c, c], c) == 3
  {
    CountOfFour(c, c, c, c, c);
    CountAppend([c, c, c], [c], c);
  }

  /** With 25 characters, three `!` and three `$`, the `!` slot (51) and the
      `$` slot (52) are 3/25 * 100 = 12. */
  lemma BuyNowCharSlots(text: string)
    requires |text| == 25 && Count(text, '!') == 3 && Count(text, '$') == 3
    ensures FeatureRow(text)[51] == 12.0 && FeatureRow(text)[52] == 12.0
  {
    assert Column(51).kind == CharFreq('!');
    assert Column(52).kind == CharFreq('$');
  }

  /** "Hello WORLD test AB" itself: average 8/3, longest 5, total 8. */
  lemma HelloWorldRow()
    ensures CapitalRunStats("Hello WORLD test AB") == CapitalStats(8.0 / 3.0, 5, 8)
  {
    HelloWorldRuns();
    HelloWorldCapitals("Hello WORLD test AB");
  }

  /** "Buy NOW!!! FREE money $$$" itself: 25 in the `free` and `money` slots,
      12 in the `!` and `$` slots, and capital runs 8/3, 4, 8. */
  lemma BuyNowRow()
    ensures var row := FeatureRow("Buy NOW!!! FREE money $$$");
      row[15] == 25.0 && row[23] == 25.0 && row[51] == 12.0 && row[52] == 12.0
    ensures CapitalRunStats("Buy NOW!!! FREE money $$$") == CapitalStats(8.0 / 3.0, 4, 8)
  {
    BuyNowTokens();
    BuyNowWordSlots("Buy NOW!!! FREE money $$$");
    BuyNowCounts();
    BuyNowCharSlots("Buy NOW!!! FREE money $$$");
    BuyNowRuns();
    BuyNowCapitals("Buy NOW!!! FREE money $$$");
  }
}
