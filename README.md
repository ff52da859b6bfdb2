# CapacitorValueMatcher — a verified model of the decoding engine

`CapacitorValueMatcher.py` matches capacitor part numbers against the
capacitance written in a value column. This project models its core in Dafny
and proves what each part promises:

- **Token extraction** (`extract_patterns`, `extraction.dfy`). The part
  number is scanned for 3- and 4-character all-digit windows and for the
  left-to-right matches of `\d*R\d*` and `R\d+`, and duplicates are
  collapsed. `ExtractPatterns` builds the list with two window loops and two
  `findall` scans, as the source does. Each scan is a cursor method
  (`FindAllMatches`) proved equal to a recursive definition (`FindAll`).
  The result is the set `Tokens(p)`.
- **Candidate decoding** (`calculate_values`, `decoding.dfy`). `R` is read
  as a decimal point. A 3- or 4-digit code is read with its last digit as
  the power of ten, then with extra readings for a last digit of 7, 8 or 9,
  then with its first digit as the power of ten. `CalculateValues` appends
  as the source does and is proved equal to `Readings`. The candidates are
  exact reals, in source order.
- **Unit scaling and value parsing** (`convert_to_pf` and
  `parse_value_column` through its unit search, `units.dfy`). The unit is
  lower-cased, then stripped, then looked up with a default factor of 1.
  The value field is stripped, then searched for its first `[\d.]+` run and
  its first `[a-zA-Zµ]+` run.
- **Checkpointing** (`save_checkpoint` and `load_checkpoint`,
  `checkpoint.dfy`). The matcher's three progress fields are saved to, and
  loaded from, three files. The files are modelled as slots of a store: a
  slot is missing, unreadable, or holds what was written.
- **One row end to end** (`scenario.dfy`). The part number
  `CL10B104KB8NNNC` with the value `0.1uF`.

`text.dfy` and `numbers.dfy` model the Python built-ins the core calls:
`isdigit`, `strip`, `lower`, `split`, `int()` and `float()`. `IsSpace` is
the set of white-space characters that `strip` removes (lines 119 and 133).
`IndexOf` locates the separator at which `split` cuts (line 91).

Three behaviours of the code are worth stating on their own:

- A failing `load_checkpoint` can leave the matcher changed. Line 38
  assigns `processed_rows` before the payload reads at lines 40-46. An
  unreadable matched payload ends the load with the new count and both old
  lists (`FailedLoadKeepsCount`). An unreadable unmatched payload ends it
  with the new count, the matched list read at line 42 (when that file
  exists) and the old unmatched list (`LoadOutcome`).
- `save_checkpoint` writes three files one after another (lines 59-64).
- For `"100nF"` the code up to line 138 yields the magnitude 100 and the
  letter run `"nF"` (`HundredNanofaradExample`).

## Model

All sources are `CapacitorValueMatcher.py`.

| member | source | states |
|---|---|---|
| PatternExtraction.ExtractPatterns | CapacitorValueMatcher.py:66-80 | No tokens for a missing part number. Otherwise the set of all-digit 3- and 4-windows plus both `findall` results. |
| PatternExtraction.FindAllMatches | CapacitorValueMatcher.py:78-79 | The cursor scan that jumps past each match returns exactly `findall`'s leftmost, non-overlapping matches. |
| PatternExtraction.MatchAt | CapacitorValueMatcher.py:78-79 | A match at a position is digits, one `R`, digits, ends where the digits end, and for `R\d+` starts with `R` and has a digit. No match means none of these fits. |
| PatternExtraction.DigitWindowsStep | CapacitorValueMatcher.py:70-77 | One more loop step adds the window there exactly when it is all digits. |
| ExtractionProperties.FindAllShape | CapacitorValueMatcher.py:78-79 | Every `findall` match is a substring of the part number with exactly one `R` and otherwise digits. `R\d+` matches start with `R` and have at least 2 characters. |
| ExtractionProperties.FindAllCoversEveryR | CapacitorValueMatcher.py:78 | Every `R` at or after the cursor lies inside some `\d*R\d*` match. |
| ExtractionProperties.DigitWindowsAreDigitSubstrings | CapacitorValueMatcher.py:70-77 | The window tokens of width w are exactly the all-digit substrings of length w. |
| ExtractionProperties.TokensShape | CapacitorValueMatcher.py:66-80 | Every token is a substring of the part number, and is either 3 or 4 digits or digits around exactly one `R`. |
| ExtractionProperties.EveryRInAToken | CapacitorValueMatcher.py:78-80 | Every `R` of the part number lies inside an extracted token. |
| ValueDecoding.CalculateValues | CapacitorValueMatcher.py:82-114 | The list built by appends equals `Readings(pattern)` for every string, including the `float()` error. |
| DecodingProperties.LeadingRToken | CapacitorValueMatcher.py:85-89 | `"R" + digits` reads as `[0.digits]`, and `"R"` alone reads as `[]`. |
| DecodingProperties.TrailingRToken | CapacitorValueMatcher.py:93-96 | `digits + "R"` reads as `[digits.0]`. |
| DecodingProperties.InnerRToken | CapacitorValueMatcher.py:90-96 | `before + "R" + after`, with digits before, reads as exactly `[before.after]`. |
| DecodingProperties.RTokenHasOneReading | CapacitorValueMatcher.py:84-96 | Every R-notation token other than `"R"` gives exactly one candidate. |
| DecodingProperties.ExponentCodeReadings | CapacitorValueMatcher.py:97-113 | For a 3- or 4-digit code, the first candidate is mantissa·10^last and the final one is rest·10^first. The length is 4 for a last digit of 7 or 9, 3 for 8 and 2 otherwise. The middle values are mantissa/10 and mantissa/1000, or mantissa/100. |
| DecodingProperties.OtherShapesHaveNoReadings | CapacitorValueMatcher.py:97-114 | A token with no `R` that is not 3 or 4 digits gives `[]`. |
| DecodingProperties.LeadingRExample | CapacitorValueMatcher.py:85-89 | `"R47"` reads as `[0.47]`. |
| DecodingProperties.InnerRExample | CapacitorValueMatcher.py:90-96 | `"4R7"` reads as `[4.7]`. |
| DecodingProperties.TrailingRExample | CapacitorValueMatcher.py:93-96 | `"4R"` reads as `[4.0]`. |
| DecodingProperties.BareRExample | CapacitorValueMatcher.py:85-87 | `"R"` reads as `[]`. |
| DecodingProperties.ExponentCodeExamples | CapacitorValueMatcher.py:97-113 | `"104"` reads as `[100000, 40]`. `"12"` and `"12345"` read as `[]`. |
| DecodingProperties.ExtractedTokensDecode | CapacitorValueMatcher.py:66-114 | No extracted token makes decoding raise. R tokens other than `"R"` give one candidate, and digit tokens give 2 to 4. |
| Numbers.DigitsValue | CapacitorValueMatcher.py:100-101 | `int()` of n digits is below 10^n. |
| Numbers.ParseFloat | CapacitorValueMatcher.py:137 | `float()` of a digits-and-points string is never negative. |
| Numbers.ParseFloatAcceptsLiterals | CapacitorValueMatcher.py:137 | `float()` of a digits-and-points run succeeds exactly on the literals with at most one point and at least one digit. |
| Numbers.ParseFloatOfPointed | CapacitorValueMatcher.py:95 | `float(whole + "." + frac)` is the decimal value whole.frac. |
| Numbers.ParseFloatOfFraction | CapacitorValueMatcher.py:88 | `float("0." + digits)` is the fraction those digits spell. |
| Text.Split | CapacitorValueMatcher.py:91 | `split` gives one more piece than there are separators, and no piece holds the separator. |
| Text.SplitAtOnlySeparator | CapacitorValueMatcher.py:91-92 | With exactly one separator, the two parts are the text before it and the text after it. |
| Text.SplitWithoutSeparator | CapacitorValueMatcher.py:91 | Without a separator, `split` gives the whole string. |
| Text.IndexOf | CapacitorValueMatcher.py:91 | The index of the first occurrence. |
| Text.PlacedOnce | CapacitorValueMatcher.py:91-92 | A character placed once between two pieces free of it occurs once, and is found where it was placed. |
| Text.TrimStartShape | CapacitorValueMatcher.py:133 | Stripping the front removes only white space, leaves a suffix, and that suffix does not start with white space. |
| Text.TrimEndShape | CapacitorValueMatcher.py:133 | Stripping the back removes only white space, leaves a prefix, and that prefix does not end with white space. |
| Text.IsDigitString | CapacitorValueMatcher.py:97 | `isdigit()` (here and at lines 72 and 76) holds for a non-empty run of ASCII digits, which contains no `R`, no point and no white space. |
| Text.Strip | CapacitorValueMatcher.py:133 | `strip()` (here and at line 119) leaves a slice of the string with only white space around it in the original, and neither starting nor ending with white space. |
| Text.Lower | CapacitorValueMatcher.py:119 | `lower()` keeps the length and lowers each character. |
| Text.LowerTwice | CapacitorValueMatcher.py:119 | Lowering twice is lowering once. |
| Text.LowerNoUpper | CapacitorValueMatcher.py:119-127 | A string without capitals is its own lower case. |
| Text.StripUnchanged | CapacitorValueMatcher.py:119 | A string with no white space at either end is its own strip. |
| UnitNormalization.Factor | CapacitorValueMatcher.py:120-128 | Every factor is at least 1, and an unknown key gets 1. |
| UnitNormalization.ConvertToPf | CapacitorValueMatcher.py:116-128 | A missing or zero value is 0 pF. Otherwise the value is multiplied by the table's factor for the lower-cased, stripped unit, or kept as it is when the table lacks that unit. |
| UnitNormalization.ConvertToPfSign | CapacitorValueMatcher.py:116-128 | The result is 0 exactly when the value is missing or 0, and otherwise has the value's sign. |
| UnitNormalization.SameKeySameValue | CapacitorValueMatcher.py:119-128 | Two unit spellings with the same lookup key convert alike. |
| UnitProperties.UnitTable | CapacitorValueMatcher.py:119-128 | A unit whose key is in the table multiplies the value by that key's factor. |
| UnitProperties.AnyCaseTableKey | CapacitorValueMatcher.py:119-127 | A table key written in any letter case is looked up as that key. |
| UnitProperties.TableKeysReadAsWritten | CapacitorValueMatcher.py:120-127 | Each table key is its own lookup key. |
| UnitProperties.SymbolKey | CapacitorValueMatcher.py:119 | A unit with no white space at its ends is looked up by its lower case. |
| UnitProperties.UnknownUnitKeepsValue | CapacitorValueMatcher.py:128 | An unknown unit leaves the value as it is. |
| UnitProperties.NanofaradExample | CapacitorValueMatcher.py:116-128 | 10 nF is 10000 pF. |
| UnitProperties.ZeroAndUnknownExamples | CapacitorValueMatcher.py:117-128 | 0 uF is 0 pF, and 5 of an unknown unit stays 5. |
| UnitProperties.CaseInsensitive | CapacitorValueMatcher.py:119 | The unit's letter case does not matter. |
| UnitProperties.SpaceInsensitive | CapacitorValueMatcher.py:119 | White space around the unit does not matter. |
| UnitProperties.LowerStrip | CapacitorValueMatcher.py:119 | Lowering and stripping commute. |
| UnitProperties.StripTwice | CapacitorValueMatcher.py:119 | Stripping twice is stripping once. |
| UnitProperties.LowerKeepsSpace | CapacitorValueMatcher.py:119 | Lowering neither makes nor removes white space. |
| ValueParsing.Search | CapacitorValueMatcher.py:134 | `re.search(cls+)` finds nothing exactly when no class character occurs. Otherwise it finds a non-empty run of class characters. |
| ValueParsing.SearchFindsFirstRun | CapacitorValueMatcher.py:134-138 | The search result is the leftmost maximal run. |
| ValueParsing.ParseValueColumn | CapacitorValueMatcher.py:130-138 | A missing field gives `(0, 'pf')`, and a parsed magnitude is never negative. |
| UnitProperties.SearchInSlice | CapacitorValueMatcher.py:133-134 | Characters outside a slice that are not in the class do not change what the search finds. |
| UnitProperties.SearchIgnoresStrip | CapacitorValueMatcher.py:133-138 | Stripping the field first changes neither search. |
| UnitProperties.ParseFailsOnMalformedNumber | CapacitorValueMatcher.py:133-137 | Parsing raises exactly when the first digits-and-points run is not a decimal literal (`.`, `1.2.3`). A field without such a run gives `(0, 'pf')`. |
| UnitProperties.ReadsFirstNumber | CapacitorValueMatcher.py:133-138 | A field whose first number reads as v gives v together with the field's first letter run. |
| UnitProperties.NumberThenLetters | CapacitorValueMatcher.py:134-138 | In a number followed by letters, the two searches find exactly those two runs. |
| UnitProperties.NumberThenUnit | CapacitorValueMatcher.py:130-138 | `whole.frac` followed by letters reads as whole.frac with those letters as the unit run. |
| UnitProperties.WholeNumberThenUnit | CapacitorValueMatcher.py:130-138 | Digits followed by letters read as that integer with those letters as the unit run. |
| UnitProperties.HundredNanofaradExample | CapacitorValueMatcher.py:130-138 | `"100nF"` gives 100 with the unit run `"nF"`. |
| Checkpointing.CapacitorValueMatcher.constructor | CapacitorValueMatcher.py:27-29 | A new matcher has processed nothing and has no results. |
| Checkpointing.CapacitorValueMatcher.SaveCheckpoint | CapacitorValueMatcher.py:52-64 | The three files hold the metadata (count and list lengths) and both lists. The matcher's fields are unchanged. |
| Checkpointing.CapacitorValueMatcher.LoadCheckpoint | CapacitorValueMatcher.py:33-50 | The result and the new fields are `Load` of the old fields and the files. |
| Checkpointing.ResumeAfterSave | CapacitorValueMatcher.py:33-64 | A matcher that loads a directory another one has just saved to succeeds and holds exactly the saved progress. |
| Checkpointing.LoadAfterSave | CapacitorValueMatcher.py:33-64 | After a save, a load returns true and restores the saved state exactly, whatever the state before. |
| Checkpointing.SavedCounts | CapacitorValueMatcher.py:52-57 | The saved counts are the list lengths, so lists that account for every processed row give counts that sum to `processed_rows`. |
| Checkpointing.LoadOutcome | CapacitorValueMatcher.py:33-50 | The load succeeds exactly when the metadata is readable and neither payload raises. The count comes from readable metadata, and a list changes only when its payload was read. |
| Checkpointing.LoadWithoutCheckpoint | CapacitorValueMatcher.py:33-50 | With no readable metadata, the load returns false and changes nothing. |
| Checkpointing.MissingPayloadKeepsList | CapacitorValueMatcher.py:40-46 | A payload file that does not exist leaves its list alone, and the load still succeeds. |
| Checkpointing.FailedLoadKeepsCount | CapacitorValueMatcher.py:38-49 | An unreadable matched payload makes the load return false with `processed_rows` already replaced. |
| Checkpointing.LoadTwice | CapacitorValueMatcher.py:33-50 | Loading the same files twice is loading them once. |
| Checkpointing.ReadPayload | CapacitorValueMatcher.py:40-46 | Reading a payload fails exactly when its file is unreadable. |
| RowScenario.ScenarioToken | CapacitorValueMatcher.py:70-73 | `"104"` is extracted from `CL10B104KB8NNNC`. |
| RowScenario.ScenarioValueField | CapacitorValueMatcher.py:130-138 | `"0.1uF"` gives 0.1 with the unit run `"uF"`. |
| RowScenario.ScenarioTarget | CapacitorValueMatcher.py:116-128 | 0.1 uF is 100000 pF. |
| RowScenario.ScenarioCandidateMeetsTarget | CapacitorValueMatcher.py:66-128 | The part number yields a candidate equal to the row's target in pF. |

## Left out

- The thread pool and the lock (lines 9 and 31) are concurrency and are
  not part of this model.
- `process_file` and the comparison of candidates against the target are
  not defined in CapacitorValueMatcher.py, which ends at line 139 in the
  middle of a statement (`unit = unit_match_`). The model stops at line
  138: it asserts no tolerance, no unit default and no lower-casing of the
  unit run. The scenario shows an exact equality only.
- Files, JSON and pickle are replaced by the slots of an abstract store.
  A slot is missing, unreadable (any exception from `open`, `json.load`,
  `pickle.load` or `.get`), or stored. `os.makedirs` (line 21) and the
  timestamp (line 55) are left out.
- SaveCheckpoint: write failures and crashes between the three writes are
  not modelled. Each write always succeeds.
- The `processed_rows` of a loaded record is a possibly absent integer.
  Other JSON types are not modelled.
- Floating point: `float()` and `10 ** -k` are exact reals, so rounding is
  not modelled.
- Numbers.ParseFloat: only strings of digits and points are modelled. Any
  other string is reported as a failure, including syntaxes that Python's
  `float()` accepts (signs, exponents, underscores, `inf`, surrounding
  blanks). Such strings never come out of the token patterns or the
  `[\d.]+` search.
- Text.IsDigit: `isdigit`, `int()` and `\d` are restricted to the ASCII
  digits `0`-`9`. Python also accepts other Unicode digits.
- Text.Lower: lowers the ASCII letters only. No other character lowers to a
  table key, so the lookup result is unaffected.
- `pd.isna` and the `isinstance(part_number, str)` test become the `None`
  case of an `Option`. `str()` of non-text values (line 119, line 133) is
  not modelled. Units and value fields are strings.
- Numbers.FractionValue: the bound `0 <= value < 1` is not stated.
