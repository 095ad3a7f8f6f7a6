/** `extract_features_from_text`: the step-by-step filling of the feature row. */
module Extractor {
  import opened Text
  import opened Schema
  import opened Features

  /** Fills a fresh row initialised to 0 in three passes, as the extractor
      fills its `features` dictionary: the word columns picked by
      `'word_freq' in col`, then the character columns picked by
      `'char_freq' in col`, then the three capital-run slots.  Slot `i` of the
      array holds the column `feature_columns[i]`, so the array read in order
      is the single row of the returned frame. */
  method ExtractFeatures(text: string) returns (row: seq<real>)
    ensures row == FeatureRow(text)
  {
    var features := new real[SlotCount](_ => 0.0);
    FillWordSlots(text, features);
    FillCharSlots(text, features);
    FillCapitalSlots(text, features);
    row := features[..];
  }

  /** The first pass: every column whose name contains `word_freq` gets the
      percentage of the tokens equal to its word; the other slots keep 0. */
  method FillWordSlots(text: string, features: array<real>)
    requires features.Length == SlotCount
    requires forall j :: 0 <= j < SlotCount ==> features[j] == 0.0
    modifies features
    ensures forall j :: 0 <= j < SlotCount ==>
      features[j] == if Column(j).kind.WordFreq? then FeatureRow(text)[j] else 0.0
  {
    var words := Runs(Lower(text), AlphaNumeric);
    var totalWords := if |words| > 0 then |words| else 1;
    assert words == Tokens(text) && totalWords == TotalWords(text);
    var i := 0;
    while i < SlotCount
      invariant 0 <= i <= SlotCount
      invariant forall j :: 0 <= j < i ==>
        features[j] == if Column(j).kind.WordFreq? then FeatureRow(text)[j] else 0.0
      invariant forall j :: i <= j < SlotCount ==> features[j] == 0.0
    {
      var col := Column(i).name;
      ColumnLookup(i);
      if IsWordColumn(col) {
        var word := WordOfColumn(col);
        WordSlotValue(text, i);
        features[i] := (Count(words, word) as real / totalWords as real) * 100.0;
      }
      i := i + 1;
    }
  }

  /** The second pass: every column whose name contains `char_freq` gets the
      percentage of the characters equal to its character; the word slots
      are left as the first pass set them. */
  method FillCharSlots(text: string, features: array<real>)
    requires features.Length == SlotCount
    requires forall j :: 0 <= j < SlotCount ==>
      features[j] == if Column(j).kind.WordFreq? then FeatureRow(text)[j] else 0.0
    modifies features
    ensures forall j :: 0 <= j < SlotCount ==>
      features[j] == if Column(j).kind.WordFreq? || Column(j).kind.CharFreq? then FeatureRow(text)[j] else 0.0
  {
    var totalChars := if |text| > 0 then |text| else 1;
    assert totalChars == TotalChars(text);
    var i := 0;
    while i < SlotCount
      invariant 0 <= i <= SlotCount
      invariant forall j :: 0 <= j < i ==>
        features[j] == if Column(j).kind.WordFreq? || Column(j).kind.CharFreq? then FeatureRow(text)[j] else 0.0
      invariant forall j :: i <= j < SlotCount ==>
        features[j] == if Column(j).kind.WordFreq? then FeatureRow(text)[j] else 0.0
    {
      var col := Column(i).name;
      ColumnLookup(i);
      if IsCharColumn(col) {
        var ch := CharOfColumn(col);
        assert ch == [Column(i).kind.ch];
        CountSubstringChar(text, ch[0]);
        CharSlotValue(text, i);
        features[i] := (CountSubstring(text, ch) as real / totalChars as real) * 100.0;
      }
      i := i + 1;
    }
  }

  /** The third pass: the average, longest and total capital-run lengths, or
      three zeros when the text has no capital letter.  After it the array is
      the whole row. */
  method FillCapitalSlots(text: string, features: array<real>)
    requires features.Length == SlotCount
    requires forall j :: 0 <= j < SlotCount ==>
      features[j] == if Column(j).kind.WordFreq? || Column(j).kind.CharFreq? then FeatureRow(text)[j] else 0.0
    modifies features
    ensures features[..] == FeatureRow(text)
  {
    var capitalRuns := Runs(text, Uppercase);
    if capitalRuns != [] {
      var runLengths := Lengths(capitalRuns);
      features[AverageSlot] := Sum(runLengths) as real / |runLengths| as real;
      features[LongestSlot] := Max(runLengths) as real;
      features[TotalSlot] := Sum(runLengths) as real;
    } else {
      features[AverageSlot] := 0.0;
      features[LongestSlot] := 0.0;
      features[TotalSlot] := 0.0;
    }
    CapitalSlots(text);
    SlotKinds();
  }

  /** A word slot of the row, as the first pass computes it. */
  lemma WordSlotValue(text: string, i: nat)
    requires i < SlotCount && Column(i).kind.WordFreq?
    ensures FeatureRow(text)[i] ==
      (Count(Tokens(text), Column(i).kind.word) as real / TotalWords(text) as real) * 100.0
  {
  }

  /** A character slot of the row, as the second pass computes it. */
  lemma CharSlotValue(text: string, i: nat)
    requires i < SlotCount && Column(i).kind.CharFreq?
    ensures FeatureRow(text)[i] ==
      (Count(text, Column(i).kind.ch) as real / TotalChars(text) as real) * 100.0
  {
  }

  /** The three capital-run slots of the row, as the branch computes them. */
  lemma CapitalSlots(text: string)
    ensures var ls := Lengths(Runs(text, Uppercase));
      && FeatureRow(text)[AverageSlot] == (if ls != [] then Sum(ls) as real / |ls| as real else 0.0)
      && FeatureRow(text)[LongestSlot] == (if ls != [] then Max(ls) as real else 0.0)
      && FeatureRow(text)[TotalSlot] == (if ls != [] then Sum(ls) as real else 0.0)
  {
    FeatureRowLayout(text);
  }

  /** The first 54 slots are frequency slots, the last three are not. */
  lemma SlotKinds()
    ensures forall j :: 0 <= j < WordSlotCount + CharSlotCount ==>
      Column(j).kind.WordFreq? || Column(j).kind.CharFreq?
    ensures forall j :: WordSlotCount + CharSlotCount <= j < SlotCount ==>
      !Column(j).kind.WordFreq? && !Column(j).kind.CharFreq?
  {
    SchemaLayout();
  }
}
