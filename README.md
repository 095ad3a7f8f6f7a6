# Spambase feature extractor

A Dafny model of `extract_features_from_text` from the spam predictor
(`CapstoneProjectGautamS/predict_spam.py`). The function turns a raw text into
the 57-value row of the UCI Spambase schema:

- 48 word-frequency slots: whole-token occurrences of a fixed word among the
  tokens, per hundred tokens;
- 6 character-frequency slots: occurrences of one of `; ( [ ! $ #` in the
  original text, per hundred characters;
- average, longest and total length of the runs of capital letters.

The tokens are the maximal runs of ASCII letters and digits of the lowercased
text. The denominators are the token count or the text length, replaced by 1
when that count is 0.

Modules:

- `Text` (`text.dfy`): ASCII character classes and lowercasing. A left-to-right
  maximal-run scanner (`Runs`) stands in for `re.findall` with a
  `[...]+` class. Also holds list and string counting (`list.count`,
  `str.count`).
- `Schema` (`schema.dfy`): the fixed 57-slot table. Each slot has a name and a
  kind, and the character literal of `char_freq__` is written as `[`. Also
  holds the extractor's name-based lookup (`'word_freq' in col`,
  `col.replace(...)`, the `_`-to-`[` case), with a proof that this lookup
  agrees with the table on every slot.
- `Features` (`features.dfy`): the specification functions and the properties
  of the row. `FeatureRow(text)` is the row as a function of the text.
- `Extractor` (`extractor.dfy`): the extractor itself. It is a method that
  fills a 57-slot array initialised to 0, in the same three passes as the
  source, one method each: the word columns, then the character columns, then
  the capital-run branch. It is proved to return exactly `FeatureRow(text)`.
- `Examples` (`examples.dfy`): worked inputs.

All frequencies are exact `real`s (`count / total * 100`), with no rounding.

The three capital-run slots of "Buy NOW!!! FREE money $$$" are average 8/3,
longest 4 and total 8, because the capital `B` of "Buy" is a run of its own
(`Examples.BuyNowRuns`, `Examples.BuyNowCapitals`).

## Model

| member | source | states |
|---|---|---|
| Text.LowerChar | CapstoneProjectGautamS/predict_spam.py:35 | an ASCII capital maps to its lowercase letter (code + 32); every other character is unchanged; the result is never a capital; being a letter or digit is preserved |
| Text.Lower | CapstoneProjectGautamS/predict_spam.py:35 | `text.lower()`: keeps the length, leaves no `A`-`Z`, and keeps every character's letter-or-digit class |
| Text.LowerIdempotent | CapstoneProjectGautamS/predict_spam.py:35 | lowercasing twice is the same as lowercasing once |
| Text.LowerAppend | CapstoneProjectGautamS/predict_spam.py:35 | lowercasing distributes over concatenation |
| Text.LowerHasNoUpper | CapstoneProjectGautamS/predict_spam.py:35 | the lowercased text contains no `A`-`Z` |
| Text.Span | CapstoneProjectGautamS/predict_spam.py:37 | the length of the longest prefix inside the class: every character before it is in the class, and the next one (if any) is not |
| Text.SpanUnique | CapstoneProjectGautamS/predict_spam.py:37 | any length with that maximal-prefix property is the span |
| Text.Runs | CapstoneProjectGautamS/predict_spam.py:37 | every run returned by the scanner is non-empty and lies entirely in the class |
| Text.Lengths | CapstoneProjectGautamS/predict_spam.py:60 | `[len(run) for run in capital_runs]`: one entry per run, each the length of its run |
| Text.RunsConcat | CapstoneProjectGautamS/predict_spam.py:37 | the runs, concatenated in order, give the text with every character outside the class deleted |
| Text.RunsEmptyIff | CapstoneProjectGautamS/predict_spam.py:37 | there are no runs if and only if no character of the text is in the class |
| Text.RunsOfRun | CapstoneProjectGautamS/predict_spam.py:37 | a text made only of class characters is a single run |
| Text.RunsAppend | CapstoneProjectGautamS/predict_spam.py:37 | the runs of `a + b` are the runs of `a` followed by those of `b`, when the junction cannot merge two runs |
| Text.RunsAppendHead | CapstoneProjectGautamS/predict_spam.py:37 | when `a` starts with a run and the junction cannot merge runs, the scan of `a + b` emits the first run of `a` and continues on the rest of `a` followed by `b` |
| Text.SpanAppend | CapstoneProjectGautamS/predict_spam.py:37 | the first run of `a` is not lengthened by `b` when the two meet outside the class |
| Text.RunsStep | CapstoneProjectGautamS/predict_spam.py:37 | one scanning step: at a text that starts in the class, the scan emits the maximal prefix and continues after it (a proof helper) |
| Text.RunThen | CapstoneProjectGautamS/predict_spam.py:37 | a run followed by a character outside the class is emitted whole, then the scan continues after it |
| Text.RunThenGap | CapstoneProjectGautamS/predict_spam.py:37 | a run followed by a class-free stretch is scanned as that run alone |
| Text.GapThen | CapstoneProjectGautamS/predict_spam.py:37 | a non-empty stretch with no class character produces no run |
| Text.GapRunThen | CapstoneProjectGautamS/predict_spam.py:37 | a class-free gap, then a run that the next character cannot continue, yields that run first |
| Text.RunsOfWeave | CapstoneProjectGautamS/predict_spam.py:37 | the scan returns exactly the maximal runs: for runs separated by non-empty class-free gaps (the two outer gaps may be empty), the runs found are those runs, in order |
| Text.KeepEmptyIff | CapstoneProjectGautamS/predict_spam.py:37 | deleting all characters outside the class leaves nothing if and only if no character is in the class |
| Text.Count | CapstoneProjectGautamS/predict_spam.py:45 | `list.count`: at most the length, and 0 exactly when the element is absent |
| Text.CountAppend | CapstoneProjectGautamS/predict_spam.py:45 | counts add over concatenation |
| Text.KeepLength | CapstoneProjectGautamS/predict_spam.py:58-63 | the number of characters kept from the class is the class count of the text |
| Text.CountDistinct | CapstoneProjectGautamS/predict_spam.py:14-25 | in a list of distinct words each word occurs at most once |
| Text.CountAllDistinct | CapstoneProjectGautamS/predict_spam.py:42-45 | the counts of distinct words among the tokens add up to at most the number of tokens |
| Text.CountSubstring | CapstoneProjectGautamS/predict_spam.py:54 | `str.count`: non-overlapping occurrences of a non-empty pattern, left to right; that many copies of the pattern fit in the text |
| Text.CountSubstringChar | CapstoneProjectGautamS/predict_spam.py:54 | `str.count` of a one-character string is the number of occurrences of that character |
| Schema.Column | CapstoneProjectGautamS/predict_spam.py:13-29 | slot `i` of `feature_columns` (listed in order by the constant `Columns`): a word slot exactly for the first 48 indices, a character slot exactly for the next 6 |
| Schema.SchemaLayout | CapstoneProjectGautamS/predict_spam.py:13-29 | 57 slots: 48 word slots with their literals, then the 6 character slots with `; ( [ ! $ #`, then average, longest and total |
| Schema.ColumnNamesDistinct | CapstoneProjectGautamS/predict_spam.py:13-29 | the 57 column names are pairwise distinct, so the dictionary keyed by them has 57 entries |
| Schema.LiteralsDistinct | CapstoneProjectGautamS/predict_spam.py:14-27 | the 48 word literals are pairwise distinct, and so are the 6 character literals |
| Schema.WordLiteralsPlain | CapstoneProjectGautamS/predict_spam.py:14-25 | every word literal is non-empty and contains no `_` |
| Schema.CharLiteralsFixed | CapstoneProjectGautamS/predict_spam.py:26-27 | the slot named `char_freq__` counts `[`; the character literals are `; ( [ ! $ #` in that order |
| Schema.Contains | CapstoneProjectGautamS/predict_spam.py:42 | Python's substring `in`: a pattern that occurs is no longer than the text, and the empty pattern occurs in every text |
| Schema.IsWordColumn | CapstoneProjectGautamS/predict_spam.py:42 | the filter `'word_freq' in col`: a passing name has at least 9 characters, and every name starting with `word_freq_` passes |
| Schema.IsCharColumn | CapstoneProjectGautamS/predict_spam.py:48 | the filter `'char_freq' in col`: a passing name has at least 9 characters, and every name starting with `char_freq_` passes |
| Schema.RemoveAll | CapstoneProjectGautamS/predict_spam.py:44 | `s.replace(p, '')` for a non-empty `p`: the result is never longer than `s` |
| Schema.WordOfColumn | CapstoneProjectGautamS/predict_spam.py:44 | `col.replace('word_freq_', '')`: never longer than the name |
| Schema.CharOfColumn | CapstoneProjectGautamS/predict_spam.py:50-53 | `col.replace('char_freq_', '')` with `_` read as `[`: never longer than the name, unless it is the `[` |
| Schema.NotContainsMissing | CapstoneProjectGautamS/predict_spam.py:42 | a string missing one character of a pattern does not contain the pattern |
| Schema.RemoveAllAbsent | CapstoneProjectGautamS/predict_spam.py:44 | `replace(p, '')` leaves a string that does not contain `p` unchanged |
| Schema.WordColumnLookup | CapstoneProjectGautamS/predict_spam.py:42-44 | `word_freq_` + w passes the word filter, fails the character filter, and the replace gives back w |
| Schema.CharColumnLookup | CapstoneProjectGautamS/predict_spam.py:48-53 | `char_freq_` + c passes the character filter, fails the word filter, and gives `[` for `_` and c otherwise |
| Schema.CapitalNameLookup | CapstoneProjectGautamS/predict_spam.py:42-48 | a name with no `w` and no `q`, such as each capital-run name, passes neither filter |
| Schema.TableMatchesNameLookup | CapstoneProjectGautamS/predict_spam.py:42-53 | on all 57 slots, the two name filters pick exactly the word and the character slots, and the name lookup gives each slot's literal |
| Schema.ColumnLookup | CapstoneProjectGautamS/predict_spam.py:42-53 | the same agreement, for one slot |
| Features.Tokens | CapstoneProjectGautamS/predict_spam.py:35-37 | `re.findall(r'[a-zA-Z0-9]+', text.lower())`: every token is a non-empty run of letters and digits |
| Features.TotalWords | CapstoneProjectGautamS/predict_spam.py:38 | `total_words` is at least 1 and at least the token count, and equals the token count when there are tokens, and is 1 when there are no tokens |
| Features.TotalChars | CapstoneProjectGautamS/predict_spam.py:39 | `total_chars` is at least 1 and at least the length, and equals the length for a non-empty text, and is 1 for the empty text |
| Features.Percent | CapstoneProjectGautamS/predict_spam.py:45 | `count / total * 100` is non-negative, 0 for a zero count, and at most 100 when the count does not exceed the total |
| Features.PercentAdd | CapstoneProjectGautamS/predict_spam.py:45 | percentages over one denominator add like their counts |
| Features.WordFrequency | CapstoneProjectGautamS/predict_spam.py:45 | `words.count(word) / total_words * 100`: between 0 and 100, and 0 exactly when the word is not a token |
| Features.CharFrequency | CapstoneProjectGautamS/predict_spam.py:54 | `text.count(char) / total_chars * 100`: between 0 and 100, and 0 exactly when the character does not occur |
| Features.CapitalRuns | CapstoneProjectGautamS/predict_spam.py:58 | `re.findall(r'[A-Z]+', text)`: every capital run is a non-empty run of `A`-`Z` |
| Features.Sum | CapstoneProjectGautamS/predict_spam.py:63 | `np.sum`: no element exceeds the sum |
| Features.CapitalRunStats | CapstoneProjectGautamS/predict_spam.py:59-67 | the three capital-run values: all 0 exactly when there is no capital run; otherwise the longest is one of the run lengths and at most the total |
| Features.Max | CapstoneProjectGautamS/predict_spam.py:62 | `np.max`: an element of the list that no element exceeds |
| Features.FeatureRow | CapstoneProjectGautamS/predict_spam.py:69-70 | the returned single-row frame: one value per entry of `feature_columns`, 57 in all |
| Features.FeatureRowLayout | CapstoneProjectGautamS/predict_spam.py:13-70 | the row has 57 values: the 48 word frequencies in table order, then the 6 character frequencies, then average, longest and total |
| Features.WordFrequencyBounds | CapstoneProjectGautamS/predict_spam.py:45 | each word slot lies in [0, 100], and is 0 when there are no tokens |
| Features.NoTokensNoWordFrequency | CapstoneProjectGautamS/predict_spam.py:37-45 | a text without ASCII letters or digits has no tokens and 0 in all 48 word slots |
| Features.WordSlotsCaseInsensitive | CapstoneProjectGautamS/predict_spam.py:35-45 | a text and its lowercased form have the same tokens and the same 48 word slots |
| Features.SumPercents | CapstoneProjectGautamS/predict_spam.py:45 | the percentages of several words add up to the percentage of their combined count |
| Features.WordSlotsSumAtMost100 | CapstoneProjectGautamS/predict_spam.py:42-45 | the 48 word slots sum to at most 100 |
| Features.CharFrequencyBounds | CapstoneProjectGautamS/predict_spam.py:54 | each character slot lies in [0, 100], and is 0 for the empty text |
| Features.CharSlotsSumAtMost100 | CapstoneProjectGautamS/predict_spam.py:48-54 | the 6 character slots sum to at most 100 |
| Features.BracketSlot | CapstoneProjectGautamS/predict_spam.py:50-54 | slot 50 is named `char_freq__` and holds the frequency of `[` |
| Features.BracketCountOnly | CapstoneProjectGautamS/predict_spam.py:54 | appending a character other than `[` leaves the count of `[` unchanged |
| Features.SumLengthsConcat | CapstoneProjectGautamS/predict_spam.py:60-63 | the run lengths add up to the length of the concatenated runs |
| Features.CapitalRunStatsSpec | CapstoneProjectGautamS/predict_spam.py:58-67 | the three slots are all 0 if and only if there is no `A`-`Z`; the total is the number of `A`-`Z` characters; when positive, 1 <= longest <= total and average = total / run count, with 1 <= average <= longest |
| Features.CapitalStatsZeroIff | CapstoneProjectGautamS/predict_spam.py:58-67 | all three capital-run slots are 0 if and only if the text has no `A`-`Z` |
| Features.CapitalTotal | CapstoneProjectGautamS/predict_spam.py:58-63 | the capital-run total is the number of `A`-`Z` characters of the text |
| Features.CapitalBounds | CapstoneProjectGautamS/predict_spam.py:58-63 | with at least one capital: 1 <= longest <= total, and average = total / run count with 1 <= average <= longest |
| Features.PositiveLengths | CapstoneProjectGautamS/predict_spam.py:58-60 | every capital run has length at least 1 |
| Features.LengthStats | CapstoneProjectGautamS/predict_spam.py:60-63 | for a non-empty list of positive lengths: 1 <= max <= sum and 1 <= mean <= max |
| Features.MaxAtMostSum | CapstoneProjectGautamS/predict_spam.py:62-63 | the maximum of a list of naturals is at most its sum |
| Features.SlotBounds | CapstoneProjectGautamS/predict_spam.py:45-67 | one slot of the row is non-negative, and at most 100 when it is one of the 54 frequency slots |
| Features.FeatureRowBounds | CapstoneProjectGautamS/predict_spam.py:45-67 | every slot is non-negative, and the 54 frequency slots are at most 100 |
| Features.EmptyTextRow | CapstoneProjectGautamS/predict_spam.py:32-67 | the empty text gives 0 in all 57 slots |
| Features.DoubledText | CapstoneProjectGautamS/predict_spam.py:35-67 | for `s + s` whose junction cannot merge two tokens, the 54 frequency slots equal those of s, the total doubles, and longest and average are unchanged |
| Features.DoubledSlot | CapstoneProjectGautamS/predict_spam.py:42-54 | each of the 54 frequency slots of such an `s + s` equals that of s |
| Features.DoubledWordFrequency | CapstoneProjectGautamS/predict_spam.py:45 | every word frequency of such an `s + s` equals that of s |
| Features.DoubledCharFrequency | CapstoneProjectGautamS/predict_spam.py:54 | every character frequency of `s + s` equals that of s, for any s |
| Features.DoubledTokens | CapstoneProjectGautamS/predict_spam.py:35-37 | the tokens of such an `s + s` are the tokens of s twice |
| Features.DoubledCapitals | CapstoneProjectGautamS/predict_spam.py:58-63 | for `s + s` whose junction cannot join two capital runs (an end of s is not `A`-`Z`), the capital-run total doubles; longest and average are unchanged |
| Features.DoubledRunLengths | CapstoneProjectGautamS/predict_spam.py:58-60 | when an end of s is not `A`-`Z`, the capital-run lengths of `s + s` are those of s twice |
| Features.DoubledStats | CapstoneProjectGautamS/predict_spam.py:61-63 | a length list repeated twice has twice the sum, the same maximum and the same mean |
| Extractor.ExtractFeatures | CapstoneProjectGautamS/predict_spam.py:7-70 | the three filling passes over a zero-initialised 57-slot row produce exactly the row the specification functions define |
| Extractor.FillWordSlots | CapstoneProjectGautamS/predict_spam.py:35-45 | after the word pass, every word slot holds its word frequency and every other slot is still 0 |
| Extractor.FillCharSlots | CapstoneProjectGautamS/predict_spam.py:39-54 | after the character pass, every character slot holds its character frequency, the word slots are kept and the capital-run slots are still 0 |
| Extractor.FillCapitalSlots | CapstoneProjectGautamS/predict_spam.py:56-67 | after the capital-run branch, the array is the whole row |
| Examples.HelloWorldRuns | CapstoneProjectGautamS/predict_spam.py:58 | the capital runs of "Hello WORLD test AB" are H, WORLD, AB |
| Examples.HelloWorldCapitals | CapstoneProjectGautamS/predict_spam.py:58-63 | with those runs, the lengths are 1, 5, 2: average 8/3, longest 5, total 8 |
| Examples.BuyNowRuns | CapstoneProjectGautamS/predict_spam.py:58 | the capital runs of "Buy NOW!!! FREE money $$$" are B, NOW, FREE |
| Examples.BuyNowCapitals | CapstoneProjectGautamS/predict_spam.py:58-63 | with those runs, the lengths are 1, 3, 4: average 8/3, longest 4, total 8 |
| Examples.BuyNowLower | CapstoneProjectGautamS/predict_spam.py:35 | "Buy NOW!!! FREE money $$$" lowercases to "buy now!!! free money $$$" |
| Examples.BuyNowTokens | CapstoneProjectGautamS/predict_spam.py:35-37 | its tokens are buy, now, free, money |
| Examples.BuyNowWordSlots | CapstoneProjectGautamS/predict_spam.py:38-45 | with those four tokens the `free` and `money` slots are 25 |
| Examples.BuyNowCounts | CapstoneProjectGautamS/predict_spam.py:54 | the text has 25 characters, three `!` and three `$` |
| Examples.BuyNowCharSlots | CapstoneProjectGautamS/predict_spam.py:39-54 | with those counts the `!` and `$` slots are 12 |
| Examples.HelloWorldRow | CapstoneProjectGautamS/predict_spam.py:58-63 | "Hello WORLD test AB" itself has the capital-run slots 8/3, 5 and 8 |
| Examples.BuyNowRow | CapstoneProjectGautamS/predict_spam.py:35-67 | "Buy NOW!!! FREE money $$$" itself has 25 in the `free` and `money` slots, 12 in the `!` and `$` slots, and the capital-run slots 8/3, 4 and 8 |
| Examples.FreeTokens | CapstoneProjectGautamS/predict_spam.py:35-37 | "FREE" and "free" both have the single token "free" |
| Examples.FreeSlot | CapstoneProjectGautamS/predict_spam.py:42-45 | a text whose only token is "free" has 100 in the `free` slot and 0 in every other word slot |
| Examples.FreeBothSpellings | CapstoneProjectGautamS/predict_spam.py:35-45 | the texts "FREE" and "free" themselves both put 100 in the `free` slot |

## Left out

- `main()` (`predict_spam.py:73-122`) is not part of this model. It covers console
  input and output, the read loop, the model-file check and `joblib.load`.
  The classifier's `predict`/`predict_proba` is an opaque scorer.
- The pandas `DataFrame` is not modelled. The row is a sequence of 57 values in
  column order. Slot `i` corresponds to `feature_columns[i]` (`Schema.Column`).
- Floating-point rounding in `/`, `* 100`, `np.mean`, `np.max` and `np.sum` is
  not modelled. Every value is an exact real. The source stores 0 as an
  integer and the capital-run longest and total as integers; the model writes
  all of them as reals.
- Python's full-Unicode `str.lower()` is not modelled. `Text.LowerChar` lowers
  `A`-`Z` only. For texts with non-ASCII characters that lowercase to ASCII
  letters, or that change length when lowercased, the model's tokens can
  differ from the source's.
- The regular-expression engine is not modelled. `re.findall` with
  `[a-zA-Z0-9]+` and `[A-Z]+` is replaced by the maximal-run scanner
  `Text.Runs`.
- The dictionary `features` is modelled as an array indexed by slot position,
  not keyed by column name. `Schema.ColumnNamesDistinct` shows the two views
  hold the same entries.
