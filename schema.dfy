/** The fixed 57-slot feature schema of the UCI Spambase data set, as an
    explicit ordered table of (name, kind, literal) entries, together with the
    name-based lookup the extractor performs on it (`'word_freq' in col`,
    `col.replace('word_freq_', '')`, the `'_'`-to-`'['` special case) and the
    proof that the table and that lookup agree slot by slot. */
module Schema {

  /** What a slot measures.  Word and character slots carry their literal. */
  datatype SlotKind =
    | WordFreq(word: string)
    | CharFreq(ch: char)
    | CapitalRunAverage
    | CapitalRunLongest
    | CapitalRunTotal

  datatype Slot = Slot(name: string, kind: SlotKind)

  const SlotCount: nat := 57
  const WordSlotCount: nat := 48
  const CharSlotCount: nat := 6

  const WordPrefix := "word_freq_"
  const CharPrefix := "char_freq_"

  /** The literal of word slot `i`. */
  function WordLiteral(i: nat): string
    requires i < WordSlotCount
  {
    match i
    case 0 => "make"
    case 1 => "address"
    case 2 => "all"
    case 3 => "3d"
    case 4 => "our"
    case 5 => "over"
    case 6 => "remove"
    case 7 => "internet"
    case 8 => "order"
    case 9 => "mail"
    case 10 => "receive"
    case 11 => "will"
    case 12 => "people"
    case 13 => "report"
    case 14 => "addresses"
    case 15 => "free"
    case 16 => "business"
    case 17 => "email"
    case 18 => "you"
    case 19 => "credit"
    case 20 => "your"
    case 21 => "font"
    case 22 => "000"
    case 23 => "money"
    case 24 => "hp"
    case 25 => "hpl"
    case 26 => "george"
    case 27 => "650"
    case 28 => "lab"
    case 29 => "labs"
    case 30 => "telnet"
    case 31 => "857"
    case 32 => "data"
    case 33 => "415"
    case 34 => "85"
    case 35 => "technology"
    case 36 => "1999"
    case 37 => "parts"
    case 38 => "pm"
    case 39 => "direct"
    case 40 => "cs"
    case 41 => "meeting"
    case 42 => "original"
    case 43 => "project"
    case 44 => "re"
    case 45 => "edu"
    case 46 => "table"
    case 47 => "conference"
  }

  /** Slot `i` of the schema, in the order the classifier was trained on.
      Word slot `i` is named `word_freq_` followed by its literal. */
  function Column(i: nat): (col: Slot)
    requires i < SlotCount
    ensures col.kind.WordFreq? <==> i < WordSlotCount
    ensures col.kind.CharFreq? <==> WordSlotCount <= i < WordSlotCount + CharSlotCount
  {
    if i < WordSlotCount then Slot(WordPrefix + WordLiteral(i), WordFreq(WordLiteral(i)))
    else match i
    case 48 => Slot("char_freq_;", CharFreq(';'))
    case 49 => Slot("char_freq_(", CharFreq('('))
    case 50 => Slot("char_freq__", CharFreq('['))
    case 51 => Slot("char_freq_!", CharFreq('!'))
    case 52 => Slot("char_freq_$", CharFreq('$'))
    case 53 => Slot("char_freq_#", CharFreq('#'))
    case 54 => Slot("capital_run_length_average", CapitalRunAverage)
    case 55 => Slot("capital_run_length_longest", CapitalRunLongest)
    case 56 => Slot("capital_run_length_total", CapitalRunTotal)
  }

  /** `feature_columns`, the whole table in order. */
  const Columns: seq<Slot> := seq(SlotCount, i requires 0 <= i < SlotCount => Column(i))

  /** The 48 word literals and the 6 character literals, in slot order. */
  const WordLiterals: seq<string> :=
    seq(WordSlotCount, i requires 0 <= i < WordSlotCount => WordLiteral(i))
  const CharLiterals: seq<char> :=
    seq(CharSlotCount, i requires 0 <= i < CharSlotCount => Column(WordSlotCount + i).kind.ch)

  /** Slot indices of the three capital-run slots. */
  const AverageSlot: nat := 54
  const LongestSlot: nat := 55
  const TotalSlot: nat := 56

  /** 48 word slots, then 6 character slots, then the average, longest and
      total capital-run slots, in that order. */
  lemma SchemaLayout()
    ensures |Columns| == SlotCount == WordSlotCount + CharSlotCount + 3
    ensures forall i :: 0 <= i < WordSlotCount ==> Columns[i].kind.WordFreq?
    ensures forall i :: WordSlotCount <= i < WordSlotCount + CharSlotCount ==> Columns[i].kind.CharFreq?
    ensures Columns[AverageSlot].kind == CapitalRunAverage
    ensures Columns[LongestSlot].kind == CapitalRunLongest
    ensures Columns[TotalSlot].kind == CapitalRunTotal
    ensures forall i :: 0 <= i < WordSlotCount ==> Columns[i].kind.word == WordLiterals[i]
    ensures forall i :: 0 <= i < CharSlotCount ==> Columns[WordSlotCount + i].kind.ch == CharLiterals[i]
  {
  }

  /** Every column name is different, so `{col: 0 for col in feature_columns}`
      has one key per slot and the frame it builds has all 57 columns. */
  lemma ColumnNamesDistinct()
    ensures forall i, j :: 0 <= i < j < SlotCount ==> Column(i).name != Column(j).name
  {
    LiteralsDistinct();
    forall i, j | 0 <= i < j < SlotCount ensures Column(i).name != Column(j).name {
      if j < WordSlotCount {
        PrefixCancel(WordPrefix, WordLiteral(i), WordLiteral(j));
      } else if i < WordSlotCount {
        assert Column(i).name[0] == 'w';
        assert Column(j).name[0] == 'c';
      }
    }
  }

  lemma PrefixCancel(p: string, u: string, v: string)
    ensures p + u == p + v ==> u == v
  {
    assert (p + u)[|p|..] == u && (p + v)[|p|..] == v;
  }

  /** The word literals are 48 different strings, and the character literals
      are 6 different characters. */
  lemma LiteralsDistinct()
    ensures forall i, j :: 0 <= i < j < WordSlotCount ==> WordLiteral(i) != WordLiteral(j)
    ensures forall i, j :: 0 <= i < j < |CharLiterals| ==> CharLiterals[i] != CharLiterals[j]
  {
    CharLiteralsFixed();
  }

  /** Each word literal is a non-empty string without an underscore. */
  lemma WordLiteralsPlain()
    ensures forall i :: 0 <= i < WordSlotCount ==> WordLiteral(i) != [] && '_' !in WordLiteral(i)
  {
  }

  /** The slot named `char_freq__` counts `[`; the six characters, in order. */
  lemma CharLiteralsFixed()
    ensures Column(50) == Slot("char_freq__", CharFreq('['))
    ensures CharLiterals == [';', '(', '[', '!', '$', '#']
  {
    assert Column(48).kind.ch == ';' && Column(49).kind.ch == '(' && Column(50).kind.ch == '[';
    assert Column(51).kind.ch == '!' && Column(52).kind.ch == '$' && Column(53).kind.ch == '#';
  }

  // ---------------------------------------------------------------------------
  // The name-based lookup of the extractor, and its agreement with the table
  // ---------------------------------------------------------------------------

  /** Python's `p in s` on strings: `p` occurs in `s` at some position. */
  predicate Contains(s: string, p: string)
    ensures Contains(s, p) ==> |p| <= |s|
    ensures p == [] ==> Contains(s, p)
  {
    assert p == [] ==> OccursAt(s, p, 0);
    exists k: nat :: k <= |s| && OccursAt(s, p, k)
  }

  /** `p` occurs in `s` starting at position `k`. */
  predicate OccursAt(s: string, p: string, k: nat)
  {
    k + |p| <= |s| && s[k..k + |p|] == p
  }

  /** Python's `s.replace(p, '')`: delete the non-overlapping occurrences of
      `p`, scanning from the left. */
  function RemoveAll(s: string, p: string): (r: string)
    requires p != []
    ensures |r| <= |s|
    decreases |s|
  {
    if |p| <= |s| && s[..|p|] == p then RemoveAll(s[|p|..], p)
    else if s == [] then []
    else [s[0]] + RemoveAll(s[1..], p)
  }

  /** `'word_freq' in col` and `'char_freq' in col`, the two column filters. */
  predicate IsWordColumn(name: string)
    ensures IsWordColumn(name) ==> |name| >= 9
    ensures WordPrefix <= name ==> IsWordColumn(name)
  {
    assert WordPrefix <= name ==> OccursAt(name, "word_freq", 0);
    Contains(name, "word_freq")
  }

  predicate IsCharColumn(name: string)
    ensures IsCharColumn(name) ==> |name| >= 9
    ensures CharPrefix <= name ==> IsCharColumn(name)
  {
    assert CharPrefix <= name ==> OccursAt(name, "char_freq", 0);
    Contains(name, "char_freq")
  }

  /** The word a word column counts: `col.replace('word_freq_', '')`. */
  function WordOfColumn(name: string): (w: string)
    ensures |w| <= |name|
  {
    RemoveAll(name, WordPrefix)
  }

  /** The character string a character column counts:
      `col.replace('char_freq_', '')`, with `_` read as `[`. */
  function CharOfColumn(name: string): (c: string)
    ensures |c| <= |name| || c == "["
  {
    var c := RemoveAll(name, CharPrefix);
    if c == "_" then "[" else c
  }

  lemma NotContainsMissing(s: string, p: string, j: nat)
    requires j < |p| && p[j] !in s
    ensures !Contains(s, p)
  {
    forall k: nat ensures !OccursAt(s, p, k) {
      if k + |p| <= |s| {
        assert s[k..k + |p|][j] == s[k + j];
      }
    }
  }

  lemma RemoveAllPrefix(p: string, t: string)
    requires p != []
    ensures RemoveAll(p + t, p) == RemoveAll(t, p)
  {
    assert (p + t)[..|p|] == p && (p + t)[|p|..] == t;
  }

  lemma {:induction false} RemoveAllAbsent(t: string, p: string)
    requires p != [] && !Contains(t, p)
    ensures RemoveAll(t, p) == t
    decreases |t|
  {
    if t != [] {
      assert !OccursAt(t, p, 0);
      forall k: nat ensures !OccursAt(t[1..], p, k) {
        if OccursAt(t[1..], p, k) {
          assert t[1..][k..k + |p|] == t[k + 1..k + 1 + |p|];
          assert OccursAt(t, p, k + 1);
        }
      }
      RemoveAllAbsent(t[1..], p);
    }
  }

  /** A word column is a word column and not a character column, and the
      replace recovers its literal. */
  lemma WordColumnLookup(w: string)
    requires '_' !in w
    ensures IsWordColumn(WordPrefix + w) && !IsCharColumn(WordPrefix + w)
    ensures WordOfColumn(WordPrefix + w) == w
  {
    var name := WordPrefix + w;
    assert name[0..0 + |"word_freq"|] == "word_freq";
    assert OccursAt(name, "word_freq", 0);
    forall k: nat ensures !OccursAt(name, "char_freq", k) {
      if k + 9 <= |name| {
        assert name[k..k + 9][0] == name[k] && name[k..k + 9][4] == name[k + 4];
        if k + 4 >= |WordPrefix| {
          assert name[k + 4] == w[k + 4 - |WordPrefix|];
        }
      }
    }
    RemoveAllPrefix(WordPrefix, w);
    NotContainsMissing(w, WordPrefix, 4);
    RemoveAllAbsent(w, WordPrefix);
  }

  /** A character column `char_freq_` + `c` is a character column and not a
      word column, and the replace gives `c` back, except that `_` stands
      for `[`. */
  lemma CharColumnLookup(c: char)
    ensures IsCharColumn(CharPrefix + [c]) && !IsWordColumn(CharPrefix + [c])
    ensures CharOfColumn(CharPrefix + [c]) == if c == '_' then "[" else [c]
  {
    var name := CharPrefix + [c];
    assert name[0..0 + |"char_freq"|] == "char_freq";
    assert OccursAt(name, "char_freq", 0);
    if c == 'w' {
      NotContainsMissing(name, "word_freq", 1);
    } else {
      NotContainsMissing(name, "word_freq", 0);
    }
    RemoveAllPrefix(CharPrefix, [c]);
    assert RemoveAll([c], CharPrefix) == [c];
  }

  /** The table and the extractor's name-based lookup agree on every slot:
      the two filters pick exactly the word and the character slots, the
      replace recovers each word literal, and each character column counts
      its literal character, `char_freq__` counting `[`.  The capital-run
      slots fall in neither filter. */
  lemma TableMatchesNameLookup()
    ensures forall i :: 0 <= i < SlotCount ==> (IsWordColumn(Column(i).name) <==> Column(i).kind.WordFreq?)
    ensures forall i :: 0 <= i < SlotCount ==> (IsCharColumn(Column(i).name) <==> Column(i).kind.CharFreq?)
    ensures forall i :: 0 <= i < WordSlotCount ==> WordOfColumn(Column(i).name) == Column(i).kind.word
    ensures forall i :: WordSlotCount <= i < WordSlotCount + CharSlotCount ==>
      CharOfColumn(Column(i).name) == [Column(i).kind.ch]
  {
    forall i | 0 <= i < SlotCount
      ensures IsWordColumn(Column(i).name) <==> Column(i).kind.WordFreq?
      ensures IsCharColumn(Column(i).name) <==> Column(i).kind.CharFreq?
      ensures i < WordSlotCount ==> WordOfColumn(Column(i).name) == Column(i).kind.word
      ensures WordSlotCount <= i < WordSlotCount + CharSlotCount ==>
        CharOfColumn(Column(i).name) == [Column(i).kind.ch]
    {
      ColumnLookup(i);
    }
  }

  /** The lookup for one slot. */
  lemma ColumnLookup(i: nat)
    requires i < SlotCount
    ensures IsWordColumn(Column(i).name) <==> Column(i).kind.WordFreq?
    ensures IsCharColumn(Column(i).name) <==> Column(i).kind.CharFreq?
    ensures Column(i).kind.WordFreq? ==> WordOfColumn(Column(i).name) == Column(i).kind.word
    ensures Column(i).kind.CharFreq? ==> CharOfColumn(Column(i).name) == [Column(i).kind.ch]
  {
    if i < WordSlotCount {
      WordSlotLookup(i);
    } else if i < WordSlotCount + CharSlotCount {
      CharSlotLookup(i);
    } else {
      CapitalSlotLookup(i);
    }
  }

  lemma WordSlotLookup(i: nat)
    requires i < WordSlotCount
    ensures IsWordColumn(Column(i).name) && !IsCharColumn(Column(i).name)
    ensures WordOfColumn(Column(i).name) == Column(i).kind.word
  {
    WordLiteralsPlain();
    WordColumnLookup(WordLiteral(i));
  }

  lemma CharSlotLookup(i: nat)
    requires WordSlotCount <= i < WordSlotCount + CharSlotCount
    ensures IsCharColumn(Column(i).name) && !IsWordColumn(Column(i).name)
    ensures CharOfColumn(Column(i).name) == [Column(i).kind.ch]
  {
    var c := Column(i).name[|CharPrefix|];
    assert Column(i).name == CharPrefix + [c];
    CharColumnLookup(c);
  }

  lemma CapitalSlotLookup(i: nat)
    requires WordSlotCount + CharSlotCount <= i < SlotCount
    ensures !IsWordColumn(Column(i).name) && !IsCharColumn(Column(i).name)
  {
    if i == AverageSlot {
      CapitalNameLookup("capital_run_length_average");
    } else if i == LongestSlot {
      CapitalNameLookup("capital_run_length_longest");
    } else {
      CapitalNameLookup("capital_run_length_total");
    }
  }

  /** The capital-run names hold neither a `w` nor a `q`, so neither filter
      picks them. */
  lemma CapitalNameLookup(name: string)
    requires 'w' !in name && 'q' !in name
    ensures !IsWordColumn(name) && !IsCharColumn(name)
  {
    NotContainsMissing(name, "word_freq", 0);
    NotContainsMissing(name, "char_freq", 8);
  }
}
