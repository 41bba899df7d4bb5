# imascraping: the name recogniser and the dictionary entry builder

`imascraping` scrapes character lists from web pages and writes an input
method (IME) user dictionary. This project models, in Dafny, the part of
`imascraping/imascraping.py` that is not scraping or file output:

- the class `FullName`, which reads a raw text such as
  `天海 春香（あまみ はるか）` into a surname, a given name, their readings and
  a foreign-name flag, or raises `NameError`. It has four parts:
  - the regular expressions `ja_pt`, `fgn_pt`, `all_kana_pt` and `kata_pt`;
  - the constructor with `_init_name`;
  - the reading normalisation `_kata_to_hira`;
  - the helpers `get_name`, `get_kana`, `is_all_kana_last` and `is_all_kana_first`.
- the loop of `make_dic` that turns the candidate texts into three lists of
  tab-separated entries (full names, surnames, given names), the
  order-preserving deduplication `list(dict.fromkeys(...))` of each list, and
  `formatting`, which ends every entry with CR LF.

Modules, one concern each:

- `CharClass` (char_class.dfy): the Unicode classes the patterns use, as
  code-point ranges: Hiragana, Script=Katakana, Script_extensions=Katakana,
  Han, `\s` and `\w`.
- `Kana` (kana.dfy): `_kata_to_hira`.
- `Names` (names.dfy): the `FullName` record and its helpers, the anchored
  patterns `fgn_pt` and `all_kana_pt`, the search of `ja_pt` and the
  constructor.
  - `ja_pt` is modelled as the backtracking search a regular-expression
    engine performs: leftmost start, greedy groups giving back one character
    at a time.
  - `NameProperties` (name_props.dfy) proves that search equal to a closed
    form: with a whitespace between two name runs, `last` and `first` are the
    two runs. Otherwise "（" must follow the run directly; `last` is the run
    without its final character and `first` is that character.
- `NameClassification` and `NameExamples` (name_props.dfy): how the
  constructor classifies a text, plus worked examples.
- `Dedup` (dedup.dfy): `dict.fromkeys`.
- `Output` (output.dfy): `formatting`, its reading back, and the column split
  of an entry.
- `Dictionary` (dictionary.dfy): the loop of `make_dic` is the method
  `MakeDic`, proved against the recursive function `Collect`. `FullName` is
  never changed after its constructor, so it is a datatype, and the
  constructor is the function `InitName` returning a `Result`.

Behaviour of the code worth knowing, each proved in the model:

- Without a space between the names, the greedy `last` keeps all but the
  final character of the name run: `天海春香（あまみ　はるか）` gives surname 天海春
  and given name 香 (`NameExamples.UnseparatedNameExample`).
- `_kata_to_hira` shifts every Script=Katakana character down by 0x60. The
  half-width katakana become the full-width ASCII forms (digits, letters and
  punctuation; ｨ, U+FF68, becomes "（", U+FF08) (`Kana.HalfWidthKatakanaShifted`).
- `_kata_to_hira` is not idempotent on all text: squared katakana words shift
  twice (`Kana.SquaredKatakanaShiftsTwice`).
- `fgn_pt` and `all_kana_pt` end in `$`, which also matches before a final
  newline (`Names.AnchoredRun`).

## Model

| member | source | states |
|---|---|---|
| CharClass.Hiragana | imascraping/imascraping.py:11-34 | `\p{Hiragana}`: the listed code-point ranges of Script=Hiragana |
| CharClass.Katakana | imascraping/imascraping.py:34-38 | `\p{Katakana}`: the listed code-point ranges of Script=Katakana |
| CharClass.KatakanaExt | imascraping/imascraping.py:11-29 | `\p{Script_extensions=Katakana}`: Script=Katakana together with the listed code-point ranges of the punctuation, brackets, voicing marks and prolonged sound mark it extends to |
| CharClass.Han | imascraping/imascraping.py:11-15 | `\p{Han}`: the listed code-point ranges of Script=Han |
| CharClass.Space | imascraping/imascraping.py:13-21 | `\s`: the listed code-point ranges of the White_Space property |
| CharClass.Word | imascraping/imascraping.py:19-23 | `\w`: the listed code-point ranges of letters, marks, decimal digits and connector punctuation |
| CharClass.NameChar | imascraping/imascraping.py:11-15 | the alternation of the `last` and `first` groups: Hiragana, Script_extensions=Katakana or Han |
| CharClass.ReadingChar | imascraping/imascraping.py:19-23 | the alternation of the `kana_last` and `kana_first` groups: Hiragana, Script_extensions=Katakana or `\w` |
| CharClass.KanaChar | imascraping/imascraping.py:34 | the alternation of `all_kana_pt`: Hiragana or Script=Katakana |
| CharClass.NameCharNotSpace | imascraping/imascraping.py:9-16 | a character of a name group (Hiragana, Script_extensions=Katakana or Han) is never whitespace, so `\s?` between the names cannot take a name character |
| CharClass.ReadingCharNotSpace | imascraping/imascraping.py:18-24 | a character of a reading group is never whitespace |
| CharClass.OpenParenInNoClass | imascraping/imascraping.py:17 | "（" is neither a name character, a reading character nor whitespace, so it ends every run before it |
| Kana.ToHira | imascraping/imascraping.py:79 | a character `kata_pt` matches moves down by 0x60, every other character is kept, and whitespace stays whitespace |
| Kana.KataToHira | imascraping/imascraping.py:77-79 | the result has the input's length, each character is the per-character shift of the input's, and no letter of the katakana row U+30A1..U+30FA is left |
| Kana.KataToHiraIdentity | imascraping/imascraping.py:77-79 | a text is returned unchanged exactly when it holds no Script=Katakana character |
| Kana.KatakanaRowToHiragana | imascraping/imascraping.py:79 | each katakana letter U+30A1..U+30F6 becomes a Hiragana letter 0x60 lower |
| Kana.ToHiraLeavesNoKatakana | imascraping/imascraping.py:79 | outside the squared katakana words, a shifted character is never Script=Katakana |
| Kana.KataToHiraIdempotent | imascraping/imascraping.py:77-79 | on text without squared katakana words, normalising twice equals normalising once |
| Kana.SquaredKatakanaShiftsTwice | imascraping/imascraping.py:37-39 | U+3330 becomes U+32D0, which is Script=Katakana again and becomes U+3270 on a second pass |
| Kana.HalfWidthKatakanaShifted | imascraping/imascraping.py:37-39 | half-width ｱ (U+FF71) is Script=Katakana and becomes full-width １ (U+FF11), and half-width ｨ (U+FF68) becomes "（" (U+FF08) |
| Kana.KataToHiraAppend | imascraping/imascraping.py:77-79 | normalisation distributes over concatenation |
| Kana.KataToHiraNoSpace | imascraping/imascraping.py:77-79 | normalisation neither adds nor removes whitespace |
| Names.FullName.GetName | imascraping/imascraping.py:65-66 | the written name is the surname followed by the given name: its length is their sum and they are its prefix and suffix |
| Names.FullName.GetKana | imascraping/imascraping.py:68-69 | the reading is the surname reading followed by the given-name reading |
| Names.FullName.IsAllKanaLast | imascraping/imascraping.py:71-72 | `all_kana_pt` matches the surname exactly when it is non-empty and all Hiragana or Script=Katakana, allowing one final newline |
| Names.FullName.IsAllKanaFirst | imascraping/imascraping.py:74-75 | the same for the given name |
| Names.AnchoredRun | imascraping/imascraping.py:27-35 | `^(p)+$` matches exactly a non-empty text of class `p`, optionally followed by one final newline, and its group is the text without that newline |
| Names.RunEnd | imascraping/imascraping.py:10-12 | a greedy run of class `p` reaches the first character outside `p`, or the end |
| Names.ParenReading | imascraping/imascraping.py:17-24 | the tail of `ja_pt` matches exactly when "（" is followed by a reading character; `kana_last` is then a non-empty reading run and `kana_first` a possibly empty one |
| Names.MatchFirst | imascraping/imascraping.py:13-17 | a match of `first` and the tail has a non-empty `first` of name characters and the reading groups of their classes |
| Names.MatchAfterLast | imascraping/imascraping.py:12-17 | after `last`, an optional whitespace and the rest of the pattern give groups of the pattern's classes |
| Names.MatchLast | imascraping/imascraping.py:9-12 | the greedy `last`, shortened one character at a time, gives groups whose `last` is non-empty and of name characters |
| Names.MatchAt | imascraping/imascraping.py:9-25 | a match of `ja_pt` at a fixed position has groups of the classes the pattern gives them |
| Names.SearchFrom | imascraping/imascraping.py:45 | the search succeeds exactly when some position from `i` on has a match, and returns the match at the leftmost such position |
| Names.Search | imascraping/imascraping.py:45 | a match found by `search` has groups of the pattern's classes |
| Names.AllNameNotSpace | imascraping/imascraping.py:9-16 | a text of name characters or Script_extensions=Katakana characters holds no whitespace |
| Names.AllReadingNotSpace | imascraping/imascraping.py:18-24 | a text of reading characters holds no whitespace |
| Names.InitName | imascraping/imascraping.py:41-63 | the constructor: every record has a non-empty surname, and a Japanese record also a non-empty given name and surname reading; its classification and fields are stated by `NameClassification.JapaneseFirst`, `ForeignIff`, `NotANameIff`, `JapaneseRecord` and `ForeignRecord` |
| Names.InitNameValid | imascraping/imascraping.py:44-63 | every record the constructor builds has a non-empty surname. A foreign record has an all-Script_extensions=Katakana surname, empty given-name fields and the normalised surname as reading. A Japanese record has non-empty names of name characters and a non-empty reading. No reading holds a letter of the katakana row, and no field holds whitespace |
| NameProperties.RunEndUnique | imascraping/imascraping.py:10-12 | a run ends at its first character outside the class, wherever inside it the scan begins |
| NameProperties.ClosedMatch | imascraping/imascraping.py:9-24 | the closed form of `ja_pt` at a position gives groups of the classes the pattern gives them (non-empty name runs, a non-empty reading) |
| NameProperties.FirstInsideRunFails | imascraping/imascraping.py:13-17 | ending `first` inside a name run never matches, since "（" cannot follow a name character |
| NameProperties.FirstAtRunEnd | imascraping/imascraping.py:13-17 | `first` tried from the end of its run matches only at that end, exactly when the reading tail follows |
| NameProperties.LastInsideRun | imascraping/imascraping.py:9-17 | once `last` gives back characters of its run, `first` is the rest of the run, so only the one-character `first` can match |
| NameProperties.AfterRunEnd | imascraping/imascraping.py:12-17 | at the end of a name run only the whitespace-separated split can follow |
| NameProperties.MatchAtClosed | imascraping/imascraping.py:9-25 | the backtracking match of `ja_pt` equals the closed form at every position |
| NameProperties.SpacedClosed | imascraping/imascraping.py:9-17 | when a whitespace and a second name run followed by the reading tail come after the run, the backtracking match keeps the whole run as `last` and agrees with the closed form |
| NameProperties.UnspacedClosed | imascraping/imascraping.py:9-17 | otherwise the backtracking match gives back exactly one character of the run as `first`, as the closed form says |
| NameProperties.UnspacedMatchLast | imascraping/imascraping.py:9-17 | without the whitespace split, the match of the run is `last` = all but its final character and `first` = that character, when the reading follows |
| NameProperties.LastGivesBack | imascraping/imascraping.py:9-12 | when nothing of the pattern matches after the full run, the greedy `last` backtracks one character |
| NameProperties.MatchNeedsParen | imascraping/imascraping.py:17 | a match requires "（" in the text |
| NameProperties.MatchExtendsLeft | imascraping/imascraping.py:9-25 | a match starting inside a name run implies one starting a character earlier |
| NameProperties.ClosedExtendsLeft | imascraping/imascraping.py:9-17 | the closed form that holds inside a name run also holds one character earlier |
| NameProperties.SearchStartsAtRun | imascraping/imascraping.py:45 | the match `search` returns starts where a name run starts |
| NameClassification.NoParenNoSearch | imascraping/imascraping.py:45 | a text without "（" has no match of `ja_pt` |
| NameClassification.JapaneseFirst | imascraping/imascraping.py:48-55 | the record is Japanese exactly when `ja_pt` matches somewhere in the text |
| NameClassification.ForeignIff | imascraping/imascraping.py:56-61 | the record is foreign exactly when `fgn_pt` matches the whole text |
| NameClassification.NotANameIff | imascraping/imascraping.py:62-63 | `NameError` exactly when neither `ja_pt` is found nor `fgn_pt` matches |
| NameClassification.ForeignRecord | imascraping/imascraping.py:56-61 | a foreign record's surname is the whole text (a final newline aside), all Script_extensions=Katakana; its given name and given-name reading are empty, and its reading is the normalised surname |
| NameClassification.JapaneseRecord | imascraping/imascraping.py:48-55 | a Japanese record holds the groups of the leftmost match, which starts where a name run starts, with both readings normalised |
| NameClassification.JapaneseGroups | imascraping/imascraping.py:45-55 | a Japanese record holds the groups `search` found, with both readings normalised |
| NameClassification.RunEndOfPiece | imascraping/imascraping.py:10-12 | a run of class `p` written at `i` and followed by a character outside `p` ends right after it |
| NameClassification.AllKanaIff | imascraping/imascraping.py:71-75 | for a record built from a text, `is_all_kana_last` holds exactly when the surname is all Hiragana or Script=Katakana, and `is_all_kana_first` exactly when the given name is non-empty and all such |
| NameClassification.ProlongedSoundMark | imascraping/imascraping.py:33-35 | ー (U+30FC) is a name and reading character but not a kana character of `all_kana_pt`, so `ルー` is not all kana |
| NameClassification.ReadingAt | imascraping/imascraping.py:17-24 | "（", a reading, one whitespace and a second reading, followed by a non-reading character, give exactly those two readings |
| NameClassification.ParenReadingSpaced | imascraping/imascraping.py:17-24 | after "（", a reading run, a whitespace and a second reading run are the two reading groups |
| NameClassification.ParenReadingUnspaced | imascraping/imascraping.py:17-24 | when no whitespace follows the first reading run, `kana_first` is empty and `kana_last` is that run |
| NameClassification.InitNameOfMatch | imascraping/imascraping.py:48-55 | a match at the start of the text is what the constructor records, readings normalised |
| NameClassification.ClosedSpaced | imascraping/imascraping.py:9-17 | two name runs separated by a whitespace and followed by the reading tail match as `last` and `first` |
| NameClassification.ParseSpaced | imascraping/imascraping.py:44-55 | a text written as surname, whitespace, given name, "（", readings parses back to that surname, given name and normalised readings |
| NameClassification.SpacedRuns | imascraping/imascraping.py:9-12 | in a name written with a whitespace, the two name runs end at the whitespace and at "（" |
| NameClassification.InitNameSpaced | imascraping/imascraping.py:44-55 | a text whose name runs are separated by a whitespace and followed by a reading gives the record of those runs and the normalised readings |
| NameClassification.ParseUnspaced | imascraping/imascraping.py:44-55 | a name written without a whitespace before "（" parses as all but its final character for `last` and that character for `first` |
| NameClassification.InitNameUnspaced | imascraping/imascraping.py:44-55 | a text whose one name run is followed directly by a reading gives all but the final character as surname and that character as given name |
| NameExamples.SeparatedNameExample | imascraping/imascraping.py:44-55 | `天海 春香（あまみ はるか）` gives 天海, 春香, あまみ, はるか, Japanese |
| NameExamples.UnseparatedNameExample | imascraping/imascraping.py:44-55 | `天海春香（あまみ　はるか）` gives 天海春, 香, あまみ, はるか |
| NameExamples.KatakanaReadingExample | imascraping/imascraping.py:44-55 | a katakana reading `フタミ アミ` is stored as ふたみ and あみ |
| NameExamples.ForeignNameExample | imascraping/imascraping.py:56-61 | `ロゼ` gives the foreign record ロゼ with reading ろぜ |
| NameExamples.NotANameExample | imascraping/imascraping.py:62-63 | `あいうえお` raises `NameError` |
| Dedup.FirstIndex | imascraping/imascraping.py:121-123 | the first occurrence of an element: it is there and not before |
| Dedup.FromKeys | imascraping/imascraping.py:121-123 | `list(dict.fromkeys(s))` has no duplicates and holds exactly the elements of `s` |
| Dedup.FromKeysOrder | imascraping/imascraping.py:121-123 | the kept elements are in the order of their first occurrences in the input |
| Output.Terminated | imascraping/imascraping.py:85-86 | a non-empty list of terminated lines ends in the terminator |
| Output.Formatting | imascraping/imascraping.py:85-86 | the formatting of a non-empty list ends in CR LF |
| Output.Translate | imascraping/imascraping.py:130-133 | a text without line feeds is stored unchanged |
| Output.IndexOf | imascraping/imascraping.py:85-86 | the position of the first occurrence of a character, or the length when absent |
| Output.IndexAfter | imascraping/imascraping.py:85-86 | in a line followed by its terminator, the first CR (or tab) is at the end of the line |
| Output.Unformat | imascraping/imascraping.py:85-86 | reading back cuts the text at CR LF: every line but the last is free of CR, and only the empty text gives no line |
| Output.Fields | imascraping/imascraping.py:108 | cutting an entry at its tabs gives at least one column, and no column holds a tab |
| Output.TerminatedAppend | imascraping/imascraping.py:130-133 | formatting the three lists one after the other is formatting their concatenation |
| Output.FormattingRoundTrip | imascraping/imascraping.py:85-86 | lines without CR are read back from their formatting unchanged |
| Output.UnformatLine | imascraping/imascraping.py:85-86 | a line without CR followed by CR LF is read back as that line, the rest being read on |
| Output.TranslateAppend | imascraping/imascraping.py:130-133 | the stored form of a concatenation is the concatenation of the stored forms |
| Output.TranslateTerminated | imascraping/imascraping.py:130-133 | lines without line feeds keep their text when stored, and only their terminators are translated |
| Output.StoredFormatting | imascraping/imascraping.py:130-133 | as written, formatted lines are stored ending in CR CR LF |
| Output.StoredLineFeeds | imascraping/imascraping.py:130-133 | lines ended by a line feed are stored as their CR LF formatting |
| Output.ThreeFields | imascraping/imascraping.py:108 | an entry of three tab-free columns splits back into exactly those columns |
| Output.FieldsSplit | imascraping/imascraping.py:108 | a tab-free column followed by a tab is split off as the first field |
| Output.FieldsNoTab | imascraping/imascraping.py:108 | a tab-free text is one field |
| Dictionary.Outcomes | imascraping/imascraping.py:104-106 | one constructor outcome per candidate text, and every record among them keeps the invariants of `FullName` |
| Dictionary.OutcomeAt | imascraping/imascraping.py:104-106 | the outcome for each text is the constructor applied to that text |
| Dictionary.MapAt | imascraping/imascraping.py:104-106 | mapping a function over the texts gives, at each position, the function applied to the text there |
| Dictionary.FullLine | imascraping/imascraping.py:108 | the full-name entry: the reading, the written name and 人名 joined by tabs; `FullLineFields` proves the columns split back |
| Dictionary.SurnameLine | imascraping/imascraping.py:114 | the surname entry: the surname reading, the surname and 姓 joined by tabs; `SurnameLineFields` proves the columns split back |
| Dictionary.GivenLine | imascraping/imascraping.py:117 | the given-name entry: the given-name reading, the given name and 名 joined by tabs; `GivenLineFields` proves the columns split back |
| Dictionary.HasSurnameLine | imascraping/imascraping.py:110-114 | the guard of the surname entry: the record is not foreign and its surname is not made only of Hiragana and Script=Katakana characters |
| Dictionary.HasGivenLine | imascraping/imascraping.py:110-117 | the guard of the given-name entry: the record is not foreign and its given name is not made only of Hiragana and Script=Katakana characters |
| Dictionary.EntryOf | imascraping/imascraping.py:106-117 | one text adds a full-name entry exactly when it gives a record, a surname entry exactly when that record is Japanese with a surname not all kana, and a given-name entry likewise |
| Dictionary.Collect | imascraping/imascraping.py:104-119 | the loop as a function: at most one full-name entry per text, and never more surname or given-name entries than full-name entries |
| Dictionary.Records | imascraping/imascraping.py:104-119 | the records the constructor builds from the texts, in order, with every text that raises `NameError` skipped |
| Dictionary.CollectStep | imascraping/imascraping.py:104-119 | one more text appends the entries of its outcome to the lists of the texts before it |
| Dictionary.AddEntries | imascraping/imascraping.py:108-117 | one pass of the loop appends a full-name entry for every record, and a surname or given-name entry only for a Japanese record whose part is not all kana; a `NameError` appends nothing |
| Dictionary.MakeDic | imascraping/imascraping.py:100-123 | the three lists are the deduplications of the entries of all texts, collected in order |
| Dictionary.NoBreaks | imascraping/imascraping.py:108 | text without whitespace holds no tab, CR or LF |
| Dictionary.RecordNoBreaks | imascraping/imascraping.py:108-117 | the four texts of a record hold no tab, CR or LF |
| Dictionary.FullLineFields | imascraping/imascraping.py:108 | the full-name entry splits into the reading, the written name and 人名, and is one line |
| Dictionary.SurnameLineFields | imascraping/imascraping.py:113-114 | the surname entry splits into the surname reading, the surname and 姓, and is one line |
| Dictionary.GivenLineFields | imascraping/imascraping.py:116-117 | the given-name entry splits into the given-name reading, the given name and 名, and is one line |
| Dictionary.CollectFull | imascraping/imascraping.py:104-108 | the full-name list holds exactly one entry per record, in order; texts raising `NameError` add none |
| Dictionary.RecordsIn | imascraping/imascraping.py:104-120 | the records are exactly the accepted outcomes |
| Dictionary.AcceptedTexts | imascraping/imascraping.py:104-120 | a record is among those built exactly when the constructor returns it for one of the texts |
| Dictionary.SurnameLinesIn | imascraping/imascraping.py:110-114 | an entry is in the surname list exactly when it is the surname entry of a Japanese record whose surname is not all kana; foreign records add none |
| Dictionary.GivenLinesIn | imascraping/imascraping.py:110-117 | an entry is in the given-name list exactly when it is the given-name entry of a Japanese record whose given name is not all kana |
| Dictionary.RecordsValid | imascraping/imascraping.py:104-120 | every record kept satisfies the invariants of `FullName` |
| Dictionary.SingleLinesAppend | imascraping/imascraping.py:130-133 | concatenated lists without line breaks have none |
| Dictionary.SingleLinesFromKeys | imascraping/imascraping.py:121-123 | deduplication adds no line break |
| Dictionary.FullSingleLines | imascraping/imascraping.py:108 | no full-name entry holds a line break |
| Dictionary.SurnameSingleLines | imascraping/imascraping.py:113-114 | no surname entry holds a line break |
| Dictionary.GivenSingleLines | imascraping/imascraping.py:116-117 | no given-name entry holds a line break |
| Dictionary.WrittenText | imascraping/imascraping.py:131-133 | the three `file.write` calls in order: the formatted full-name, surname and given-name lists |
| Dictionary.StoredFile | imascraping/imascraping.py:130-133 | as written: the written text with every LF stored as CR LF, as the file opened with `newline="\r\n"` does |
| Dictionary.IntendedFile | imascraping/imascraping.py:130-133 | corrected: each entry ended by LF, which the file stores as CR LF |
| Dictionary.StoredFileLineEnds | imascraping/imascraping.py:130-133 | as written, the stored dictionary is the entries of the three lists, each ending in CR CR LF |
| Dictionary.StoredFileExample | imascraping/imascraping.py:130-133 | a single entry `x` is stored as `x` CR CR LF |
| Dictionary.IntendedFileRoundTrip | imascraping/imascraping.py:130-133 | with entries ended by a line feed, the file stores the CR LF formatting of the three lists, which reads back as their entries |
| Dictionary.DictionaryFile | imascraping/imascraping.py:100-133 | for the lists `make_dic` builds, the stored file ends each entry in CR CR LF as written, and with the corrected line ends it reads back as the full-name, surname and given-name entries in that order |

## Left out

- Fetching the page, URL quoting and slicing the HTML tags between the two anchors (imascraping/imascraping.py:89-98): network access and a third-party HTML parser. The candidate texts are an input `seq<string>`.
- Creating the `dic/` directory and printing the counts (imascraping/imascraping.py:125-128, 135-139): I/O. Only the translation of line ends by the file opened with `newline="\r\n"` is modelled, for the finding below.
- `main` (imascraping/imascraping.py:142-171): hard-coded addresses and anchors only.
- `__str__` (imascraping/imascraping.py:81-82): a debug rendering with no contract.
- `__init__` (imascraping/imascraping.py:41-42): it only stores the five results of `_init_name`, which is `Names.InitName` building the record directly.
- CharClass: the Unicode property tables are reduced to listed code-point ranges. These cover the Japanese blocks, ASCII, Latin-1 and the full-width forms; a code point outside them belongs to no class, and `\w` outside them is not modelled.
- CharClass: a bare `\p{Hiragana}`, `\p{Katakana}` or `\p{Han}` is taken as the Script property.
- Names.InitName: the `fgn_pt` match is evaluated only when `ja_pt` fails. The source evaluates both and then chooses; neither evaluation has a side effect.

## Findings

| source | as written | input that shows it | evidently intended | confidence | as-written member | corrected member |
|---|---|---|---|---|---|---|
| imascraping/imascraping.py:130-133 | `formatting` ends each entry with CR LF, and the file is opened with `newline="\r\n"`, which turns every written LF into CR LF; so each stored entry ends in CR CR LF | `full_list == ["x"]` and empty surname and given-name lists: the file holds `x` CR CR LF | each stored entry ends in CR LF | high, not executed | Dictionary.StoredFileLineEnds | Dictionary.IntendedFileRoundTrip |
