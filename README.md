# Mood timeline: the text pipeline, modelled in Dafny

The back end of the mood timeline turns a video's transcript into a list of
time segments and gives each segment a mood. This project models the three
text-driven steps of `backend/utils.py` and proves what they promise:

- `parse_timestamp` reads a clock string such as `00:01:30`. It splits on
  `:`, converts every field with Python's `float()`, and combines the
  fields as hours, minutes and seconds (module `Timestamp`, file
  `timestamp.dfy`).
- `segment_from_transcript` cuts a transcript into `(t0, t1, text)`
  segments, either from `[timestamp] text` lines or, when there are none,
  by laying its sentences end to end (module `Segmenter`, file
  `segmenter.dfy`).
- `predict_moods` scores every segment from its keywords, exclamation
  marks, capitals and optional prosody and visual features, and classifies
  it as hype, calm or neutral with a confidence (module `Mood`, file
  `mood.dfy`).

Supporting modules:
- `Common` holds `Option` and `Result`.
- `Text` holds the Python string operations the code calls, written out
  over `seq<char>`: `isspace`, `strip`, `split`, `splitlines`, `split()`,
  `index`, `in`, `count`, `lower` and `isupper`.
- `Fixtures` holds concrete timestamps and the texts of the demo
  transcript.
- `Demo` proves what the segmenter gives on the demo transcript that the
  front end sends (`frontend/src/components/MoodTimeline.jsx`, lines
  11-16): exactly (0, 6), (6, 12), (12, 18) and (18, 21).

How the model is shaped:
- The pure parser is a set of functions.
- The three loops of the segmenter (lines 20, 26 and 49) and the loop of `predict_moods` are
  methods (`SegmentAnnotated`, `NextAnnotatedLine`, `LayOut`,
  `PredictMoods`). Each is proved equal to a specification function, and
  the properties the code promises are lemmas about those functions.
- Scores and times are exact reals.
- An exception is an `Err` value: the `ValueError` of `float()` becomes
  `MalformedTimestamp(field)`, and it ends the whole segmentation as it
  does in the code.

Three facts about the code that a reader might not expect:
- **Timestamp fields.** `parse_timestamp` combines one, two or three
  fields, and it also accepts 4 or more, as long as all of them are
  numbers: it then returns the first field (`FourOrMoreFields`).
- **Segment order.** The annotated branch neither sorts nor checks
  timestamps. A segment lasts the next annotated timestamp minus its own,
  so it can be empty or run backwards (`AnnotatedDuration`). `t0 < t1`
  holds for the last annotated segment, for every plain segment, and for
  every segment when the annotated timestamps strictly increase.
- **Whitespace around a field.** `float()` strips less than `str.strip`:
  it keeps the information separators U+001C to U+001F and then rejects
  them, so `[\x1f5] hi` fails (`ClockUnitSeparator`).

## Model

| member | source | states |
|---|---|---|
| Timestamp.ParseField | backend/utils.py:8 | `float()` of one field: a field it accepts is not blank once stripped, and a field holding any of U+001C to U+001F is rejected |
| Timestamp.Scan | backend/utils.py:8 | definition of the decimal literals `float()` accepts, `[+-](digits[.[digits]] \| .digits)[(e\|E)[+-]digits]`, read one character at a time (`ScanChars`, `ScanWhole`, `ScanFraction`, `ScanExponent`) |
| Timestamp.ValueOf | backend/utils.py:8 | definition of the number a literal denotes: sign, mantissa over ten to the power of the digits after the point, times ten to the power of the exponent (`DecimalField`, `ExponentField`) |
| Timestamp.ScanStep | backend/utils.py:8 | one scanner step for a digit, a point or an exponent mark in each phase that accepts it |
| Timestamp.ScanWholeThen | backend/utils.py:8 | integer digits followed by anything extend the mantissa, and the scan goes on with the rest |
| Timestamp.ScanFraction | backend/utils.py:8 | digits after the point extend the mantissa and raise the scale by their count |
| Timestamp.ScanExponent | backend/utils.py:8 | exponent digits build the exponent |
| Timestamp.AccumulateShift | backend/utils.py:8 | digits read after a number `x` give `x * 10**len + value of the digits` |
| Timestamp.ScanPoint | backend/utils.py:8 | `.b` scans to the mantissa `b` with scale `len(b)` |
| Timestamp.ScanWholePoint | backend/utils.py:8 | `a.b` with digits before the point scans to all its digits with scale `len(b)` |
| Timestamp.ScanDecimal | backend/utils.py:8 | any `a.b` with a digit on some side of the point scans to all its digits with scale `len(b)` |
| Timestamp.MantissaValue | backend/utils.py:8 | an unsigned literal without exponent denotes its mantissa over `10**scale` |
| Timestamp.DecimalValue | backend/utils.py:8 | a mantissa `x * p + y` over `p` is `x + y / p` |
| Timestamp.DecimalNumeral | backend/utils.py:8 | the digits of `x` followed by `.b` denote `x + b / 10**len(b)` |
| Timestamp.ScannedField | backend/utils.py:8 | a field without separators whose strip scans to a literal is the number that literal denotes |
| Timestamp.DecimalChars | backend/utils.py:8 | `a.b` is its own strip and holds no information separator |
| Timestamp.DecimalField | backend/utils.py:8 | `float('a.b')` of digit strings is `a + b / 10**len(b)`, including `a.` and `.b` |
| Timestamp.ExponentChars | backend/utils.py:8 | `aEe` is its own strip and holds no information separator |
| Timestamp.ExponentField | backend/utils.py:8 | `float('aEe')` of digit strings is `a * 10**e` |
| Timestamp.ParsedFieldIsNumeral | backend/utils.py:8 | a field `float()` accepts is not blank once stripped, and is made only of signs, digits, points and exponent marks |
| Timestamp.ScanChars | backend/utils.py:8 | the literal scanner accepts only numeral characters and ends only in a complete phase |
| Timestamp.ScanWhole | backend/utils.py:8 | digits read in the integer part extend the mantissa digit by digit |
| Timestamp.DigitsField | backend/utils.py:8 | a non-empty digit string holds no `:` and converts to the whole number it spells |
| Timestamp.DigitsHaveNoColon | backend/utils.py:7 | a digit string is a single field when split on `:` |
| Timestamp.ParseFields | backend/utils.py:8 | the list comprehension gives one value per field, or an error naming one of the fields |
| Timestamp.ParseFieldsOk | backend/utils.py:8 | the conversion succeeds exactly when `float()` accepts every field, and then value `j` is field `j`'s number |
| Timestamp.ParseFieldsValues | backend/utils.py:8 | when every field converts to a known value, the list is exactly those values in order |
| Timestamp.ParseFieldsErr | backend/utils.py:8 | the first field `float()` rejects is the error, whatever follows it |
| Timestamp.ParseTimestamp | backend/utils.py:6-14 | an error always names one of the colon-separated fields |
| Timestamp.ParseTimestampOk | backend/utils.py:6-8 | the parse succeeds exactly when every colon-separated field is a number |
| Timestamp.ParseTimestampErr | backend/utils.py:7-8 | a non-numeric field fails the whole parse with that field and never defaults to 0 |
| Timestamp.ParseSplit | backend/utils.py:7-14 | with known field values, the result is their combination by field count |
| Timestamp.Combine | backend/utils.py:9-14 | three fields are `h*3600 + m*60 + s`, two are `m*60 + s`, any other count gives the first; with non-negative fields the result is at least the first field and, up to three fields, at least the last |
| Timestamp.HoursMinutesSeconds | backend/utils.py:9-10 | three fields give `h*3600 + m*60 + s` |
| Timestamp.CombineThree | backend/utils.py:9-10 | three fields combine as `h*3600 + m*60 + s` |
| Timestamp.Clock | backend/utils.py:7-10 | a clock `h:m:s` of three numeric, colon-free fields gives `h*3600 + m*60 + s` |
| Timestamp.ThreeDigitFields | backend/utils.py:8 | three digit strings are three colon-free fields with their whole-number values |
| Timestamp.DigitClock | backend/utils.py:7-10 | a clock of three digit strings succeeds with `h*3600 + m*60 + s` of their values |
| Timestamp.MinutesSeconds | backend/utils.py:11-12 | two fields give `m*60 + s` |
| Timestamp.BareSeconds | backend/utils.py:13-14 | a timestamp without `:` gives the number of its one field |
| Timestamp.FourFields | backend/utils.py:13-14 | exactly four numeric fields give the first field alone |
| Timestamp.SplitFour | backend/utils.py:7 | four colon-free fields joined by `:` split back into those four |
| Timestamp.DigitFourFields | backend/utils.py:7-14 | a clock of four digit strings gives the first one's value |
| Timestamp.FourOrMoreFields | backend/utils.py:13-14 | with four or more fields, all must be numbers and the result is the first |
| Fixtures.ClockHoursMinutesSeconds | backend/utils.py:9-10 | `1:02:03` is 3723 seconds |
| Fixtures.ClockMinutesSeconds | backend/utils.py:11-12 | `02:03` is 123 seconds |
| Fixtures.ClockSeconds | backend/utils.py:13-14 | `45` is 45 seconds |
| Fixtures.ClockFourFields | backend/utils.py:13-14 | `1:2:3:4` is 1 second |
| Fixtures.ClockNotANumber | backend/utils.py:8 | `bad` fails with the field `bad` |
| Fixtures.ClockEmpty | backend/utils.py:8 | the empty timestamp of a line starting `[]` fails |
| Fixtures.FieldDecimal | backend/utils.py:8 | `float('1.5')` is 1.5 |
| Fixtures.ClockDecimal | backend/utils.py:8-14 | `1.5` is 1.5 seconds |
| Fixtures.ClockUnitSeparator | backend/utils.py:8 | `\x1f5` fails: `float()` does not strip the unit separator, although `strip()` would |
| Fixtures.DemoClock00 | frontend/src/components/MoodTimeline.jsx:12 | the demo clock `00:00:00` is 0 seconds |
| Fixtures.DemoClock06 | frontend/src/components/MoodTimeline.jsx:13 | the demo clock `00:00:06` is 6 seconds |
| Fixtures.DemoClock12 | frontend/src/components/MoodTimeline.jsx:14 | the demo clock `00:00:12` is 12 seconds |
| Fixtures.DemoClock18 | frontend/src/components/MoodTimeline.jsx:15 | the demo clock `00:00:18` is 18 seconds |
| Fixtures.PlainLine | frontend/src/components/MoodTimeline.jsx:12-15 | a line `[stamp] text` with stripped text is one stripped line with no line break |
| Fixtures.DemoBody3 | frontend/src/components/MoodTimeline.jsx:15 | the last demo text is stripped and has six words |
| Segmenter.NonBlank | backend/utils.py:17 | the kept lines are no more than the raw lines, none of them is empty, and each is trimmed: no whitespace at either end |
| Segmenter.Lines | backend/utils.py:17 | `[l.strip() for l in transcript.splitlines() if l.strip()]`: every line is non-empty and has no whitespace at either end, so `IsAnnotated` can look at its first character |
| Segmenter.CloseAt | backend/utils.py:22 | the first `]` of an annotated line is past the opening `[` and inside the line |
| Segmenter.IsAnnotated | backend/utils.py:19 | definition of `l.startswith('[') and ']' in l` |
| Segmenter.HasAnnotatedLine | backend/utils.py:19 | definition of the `any(...)` test: some line is annotated |
| Segmenter.StampOf | backend/utils.py:22 | definition of `l[1:l.index(']')]` |
| Segmenter.NoteOf | backend/utils.py:22-23 | definition of the pair `(ts, text)` an annotated line is cut into |
| Segmenter.Notes | backend/utils.py:20-23 | the notes of the annotated lines in line order, never more than the lines (`NotesCount`, `NotesAppend`, `NoteHere`) |
| Segmenter.BodyOf | backend/utils.py:23 | definition of `l[l.index(']')+1:].strip()` |
| Segmenter.Linger | backend/utils.py:33 | the last segment lasts `max(3, words/2)`: at least 3, at least half the words, and one of the two |
| Segmenter.Duration | backend/utils.py:50-51 | a sentence lasts `max(1.0, words/2.5)`: at least 1, at least words/2.5, and one of the two |
| Segmenter.Times | backend/utils.py:24 | there is one parse result per note |
| Segmenter.FirstFailure | backend/utils.py:24 | the index of the first failed parse: all before it parsed, and it failed unless it is past the end |
| Segmenter.SegmentAt | backend/utils.py:24-34 | definition of segment `k`: from its own timestamp to the next note's (lines 26-31), or lingering `max(3, words/2)` after its own when it is the last (lines 32-33) |
| Segmenter.Chain | backend/utils.py:20-34 | definition of the segments of notes whose timestamps all parsed: `SegmentAt` for every note, in order (`AnnotatedShape`, `AnnotatedContiguous`) |
| Segmenter.BracketClose | backend/utils.py:21-22 | in `[stamp]rest` with no `]` inside `stamp`, the line is annotated and its first `]` closes `stamp` |
| Segmenter.BracketedNote | backend/utils.py:21-23 | such a line has timestamp `stamp` and text `rest` stripped |
| Segmenter.NotesAppend | backend/utils.py:20-21 | the annotated lines of a concatenation keep their order |
| Segmenter.NotesCount | backend/utils.py:20-21 | there is one note per annotated line |
| Segmenter.NotesSplit | backend/utils.py:20-21 | the notes of `lines` are those before and after any cut |
| Segmenter.NoteHere | backend/utils.py:20-21 | an annotated line contributes its own note between those before and after it |
| Segmenter.NextNote | backend/utils.py:26-31 | the note of line `i` has index `AnnotatedCount(lines[..i])`, and the next annotated line gives the very next note |
| Segmenter.TimeAt | backend/utils.py:24 | parse result `k` is the parse of note `k`'s timestamp |
| Segmenter.FirstFailureAt | backend/utils.py:24 | the first failed parse is what `FirstFailure` finds |
| Segmenter.NextAnnotatedLine | backend/utils.py:26-31 | the inner search stops at the first annotated line at or after `from`, with no note skipped, or at the end |
| Segmenter.NoteSegment | backend/utils.py:22-34 | the segment of annotated line `i` is `SegmentAt` of its note index, or the error of its own timestamp or the next one |
| Segmenter.AnnotatedSegments | backend/utils.py:20-34 | the annotated branch as a function of the notes: on success one segment per annotated line (its partner lemmas are `AnnotatedShape`, `AnnotatedContiguous`, `AnnotatedLastLingers` and `AnnotatedFails`) |
| Segmenter.AnnotatedFailsAt | backend/utils.py:24-30 | the annotated branch fails with the first timestamp that does not parse |
| Segmenter.CollectedStep | backend/utils.py:34 | appending the next note's segment keeps the collected prefix correct |
| Segmenter.AnnotatedDone | backend/utils.py:20-34 | once every note has its segment, the annotated branch returns exactly them |
| Segmenter.SegmentAnnotated | backend/utils.py:19-34 | the loop over lines returns `AnnotatedSegments`: all segments, or the first timestamp error |
| Segmenter.ElapsedStep | backend/utils.py:53 | the clock after one more sentence has advanced by that sentence's duration |
| Segmenter.LayOutStep | backend/utils.py:49-53 | one loop pass appends the next sentence's segment at clock `t` and advances the clock to its end |
| Segmenter.LayOut | backend/utils.py:48-53 | the plain loop returns `PlainSegments`: segment `k` runs from the time of the sentences before it to the end of its own |
| Segmenter.Elapsed | backend/utils.py:48-53 | definition of the clock `t` after a run of sentences: the sum of their durations (`ElapsedAtLeast`, `PlainTimeline`) |
| Segmenter.PlainSegments | backend/utils.py:48-53 | the plain branch as a function of the sentences: one segment per sentence (`PlainTimeline`, `PlainDurations`) |
| Segmenter.Segmentation | backend/utils.py:16-54 | the whole operation as a function: only the annotated branch can fail |
| Segmenter.SegmentFromTranscript | backend/utils.py:16-54 | the whole operation returns `Segmentation`, with the sentence splitter as a parameter |
| Segmenter.HasAnnotatedLineNotes | backend/utils.py:19 | the annotated branch is taken exactly when there is at least one note |
| Segmenter.AnnotatedShape | backend/utils.py:20-34 | one segment per annotated line, in line order; segment `k` starts at note `k`'s timestamp and carries its text |
| Segmenter.AnnotatedContiguous | backend/utils.py:26-31 | each annotated segment ends where the next starts |
| Segmenter.AnnotatedLastLingers | backend/utils.py:32-33 | the last annotated segment lasts `max(3, words/2)`, so at least 3 seconds |
| Segmenter.AnnotatedFails | backend/utils.py:24-30 | the annotated branch fails exactly when some annotated timestamp does not parse, with the first such error |
| Segmenter.AnnotatedIncreasing | backend/utils.py:24-33 | with parsing, strictly increasing timestamps, every segment has `t0 < t1` |
| Segmenter.AnnotatedDuration | backend/utils.py:24-33 | a segment that is not last lasts the next timestamp minus its own: `t0 < t1` exactly when the timestamps increase there |
| Segmenter.UnannotatedLineIgnored | backend/utils.py:20-21 | inserting a line that is not annotated changes nothing in the annotated branch |
| Segmenter.ElapsedAtLeast | backend/utils.py:48-53 | sentences laid end to end take at least one second each |
| Segmenter.PlainTimeline | backend/utils.py:48-53 | one segment per sentence; the first starts at 0, each ends where the next starts, and the last ends at the total time |
| Segmenter.PlainDurations | backend/utils.py:49-52 | plain segment `k` carries sentence `k` and lasts its duration, at least 1 second |
| Segmenter.SegmentationFails | backend/utils.py:19-34 | for a splitter that always returns (NLTK's `LookupError` is left out), the operation fails exactly when an annotated timestamp does not parse |
| Segmenter.BlankLines | backend/utils.py:17 | pieces that are all whitespace leave no lines |
| Segmenter.SplitOfSpaces | backend/utils.py:17 | the pieces of a whitespace-only text are whitespace only |
| Segmenter.BlankTranscript | backend/utils.py:17-19 | a whitespace-only transcript has no lines and yields no segments when the splitter finds no sentence in empty text |
| Demo.FourLinesSplit | frontend/src/components/MoodTimeline.jsx:11-16 | the demo text splits at line breaks into an empty piece, its four lines and an empty piece |
| Demo.FourLinesKept | backend/utils.py:17 | the blank pieces are dropped and the four lines kept |
| Demo.AnnotatedLine | backend/utils.py:21-23 | a line `[stamp] text` is annotated with that timestamp and text |
| Demo.FourNotes | backend/utils.py:20-21 | four annotated lines give their four notes in order |
| Demo.FourTimes | backend/utils.py:24 | the timestamps of four notes are parsed in order |
| Demo.FourSegments | backend/utils.py:20-34 | four notes whose timestamps parse give four segments from stamp to stamp, the last lingering |
| Demo.DemoLines | frontend/src/components/MoodTimeline.jsx:11-16 | the demo transcript holds exactly its four lines |
| Demo.DemoNotes | frontend/src/components/MoodTimeline.jsx:12-15 | the four demo lines give their stamps and texts |
| Demo.DemoSegmentation | frontend/src/components/MoodTimeline.jsx:11-16 | the demo transcript gives (0, 6), (6, 12), (12, 18) and (18, 21), whatever the sentence splitter |
| Text.LeadingSpacesRun | backend/utils.py:17 | the leading whitespace count is exactly the whitespace run at the front |
| Text.IsSpace | backend/utils.py:17 | definition of Python's `str.isspace` for one character: the ASCII whitespace, U+001C to U+001F, and the Unicode spaces and line separators |
| Text.LineBreaksAreSpace | backend/utils.py:17 | every character at which `splitlines` breaks a line is whitespace, so a break never survives `strip()` at a line's end |
| Text.TrailingSpacesRun | backend/utils.py:17 | the trailing whitespace count is exactly the whitespace run at the back |
| Text.StripLeadingSpace | backend/utils.py:23 | leading whitespace does not survive `strip()` |
| Text.StripEmpty | backend/utils.py:17 | `strip()` gives the empty string exactly when the line is all whitespace |
| Text.StripNoOp | backend/utils.py:17 | a string without whitespace at either end is its own strip |
| Text.Strip | backend/utils.py:17 | `strip()` is never longer than its input (`StripIsInfix` and `StripEnds` together characterise it) |
| Text.StripIsInfix | backend/utils.py:17 | `s` is a run of whitespace, then `strip()`, then a run of whitespace: only the two end runs are removed, and with `StripEnds` they are the longest such runs |
| Text.StripSlice | backend/utils.py:17 | `strip()` is the slice of `s` right after the leading whitespace |
| Text.StripTail | backend/utils.py:17 | everything after `strip()` in `s` is whitespace |
| Text.StripEnds | backend/utils.py:17 | the result of `strip()` has no whitespace at either end |
| Text.HasAnyAt | backend/utils.py:21 | `']' in l` holds exactly when some position holds `]` |
| Text.HasAnyAppend | backend/utils.py:21 | a concatenation holds a character exactly when one of its halves does |
| Text.Find | backend/utils.py:22 | `l.index(']')` is a position holding `]` with none before it |
| Text.FindFirst | backend/utils.py:22 | `index` returns the first occurrence |
| Text.FindAfter | backend/utils.py:22 | past a prefix without the character, `index` continues into the rest |
| Text.Split | backend/utils.py:7 | `split(':')` gives at least one piece, and no piece holds the separator |
| Text.SplitCons | backend/utils.py:7 | splitting `a : b` gives `a` followed by the pieces of `b` |
| Text.SplitThree | backend/utils.py:7 | three colon-free fields joined by `:` split back into those three |
| Text.SplitJoin | backend/utils.py:7 | `split` undoes joining pieces that hold no separator |
| Text.Join | backend/utils.py:44 | definition of `sep.join(parts)`: the parts with `sep` between neighbours (`SplitJoin`, `JoinSplit`, `WordsJoin`) |
| Text.JoinSplit | backend/utils.py:7 | joining the pieces of `split` gives back the input: no character is lost |
| Text.WordLength | backend/utils.py:33 | the first word runs up to the first whitespace |
| Text.Words | backend/utils.py:33 | `split()` gives words only, and none exactly when the text is all whitespace |
| Text.WordCount | backend/utils.py:33 | `len(text.split())` is at most the length of the text (and equals the number of `Words`, `WordCountIsWords`) |
| Text.WordsJoin | backend/utils.py:33 | words joined by single spaces are split back unchanged |
| Text.WordCountIsWords | backend/utils.py:50 | the word count is the length of `split()` |
| Text.SpacedWords | backend/utils.py:33 | words joined by spaces form one stripped line with that many words |
| Text.Count | backend/utils.py:120 | `count('!')` is at most the length, and 0 exactly when there is no `!` |
| Text.Contains | backend/utils.py:117-118 | `k in t` exactly when `k` occurs at some index of `t` |
| Text.LowerChar | backend/utils.py:116 | `'A'..'Z'` become `'a'..'z'`, `Ÿ` becomes `ÿ`, no result is a capital, and every other character is unchanged |
| Text.Lower | backend/utils.py:116 | the lowered text has no capital left, and a text without capitals is its own lowered form |
| Text.LowerOccurs | backend/utils.py:116-117 | lowering keeps every occurrence: where `u` occurs in `t`, the lowered `u` occurs in the lowered `t` at the same index |
| Text.UpperCount | backend/utils.py:121 | the count of capitals is at most the length, and 0 exactly when there is none |
| Text.IsUpper | backend/utils.py:121 | definition of `c.isupper()` for the capitals the model knows: `A` to `Z` and `Ÿ` |
| Mood.KeywordHits | backend/utils.py:117-118 | each keyword counts at most once, whatever its number of occurrences |
| Mood.LexicalScore | backend/utils.py:116-122 | definition of the text part of the score: 0.6 per excited minus calm keyword hit in the lowered text, 0.2 per `!`, 0.5 when shouting (`BangsScore`) |
| Mood.Shouting | backend/utils.py:121 | definition of the test `sum(1 for c in text if c.isupper()) > max(5, 0.2*len(text))` |
| Mood.ProsodyTerm | backend/utils.py:123-125 | definition of `0.004 * (energy*1000) + 0.3*pitch_var`, a missing key read as 0 |
| Mood.VisualTerm | backend/utils.py:126-128 | definition of `0.002*brightness + 0.0005*edge_density`, a missing key read as 0 |
| Mood.Score | backend/utils.py:114-128 | definition of the whole score: the text part plus the prosody and visual terms of the features at the index (`PredictOne`) |
| Mood.Classify | backend/utils.py:129-137 | hype exactly above 1, calm exactly below -0.5, neutral between them inclusive; confidence in [0.5, 0.99] |
| Mood.Round2 | backend/utils.py:138 | `round(conf, 2)` gives a whole number of hundredths within half a hundredth |
| Mood.Predictions | backend/utils.py:113-138 | one result per segment |
| Mood.Predict | backend/utils.py:129-138 | definition of one result: the classified score and its rounded confidence (`PredictionShape`, `ShortListIsAbsent`) |
| Mood.PredictOne | backend/utils.py:114-138 | the score accumulated term by term and then classified is `Predict` of the segment at that index |
| Mood.PredictionsSnoc | backend/utils.py:138 | the results of one more segment extend the results before it |
| Mood.PredictMoods | backend/utils.py:109-139 | the loop returns `Predictions`: result `i` is `Predict` of segment `i` at index `i` |
| Mood.KeywordHitsExtremes | backend/utils.py:117-118 | no hit exactly when no keyword occurs; all hits exactly when all occur |
| Mood.KeywordHitsAppend | backend/utils.py:117-118 | hits of two keyword lists add up |
| Mood.KeywordHit | backend/utils.py:117 | a keyword that occurs is counted |
| Mood.KeywordAnyCase | backend/utils.py:116-117 | keyword matching ignores case: a text holding any spelling of a keyword whose lowered form is the keyword hits it |
| Mood.KeywordsAreLower | backend/utils.py:111-112 | every keyword but the spelled-out fire is already lower case, so matching against `text.lower()` ignores case for it; the fire keyword holds `Ÿ` and is changed by lowering |
| Mood.ShoutedWow | backend/utils.py:116-117 | a text holding `WOW` hits the excited keyword `wow` |
| Mood.FirstAbsent | backend/utils.py:117 | a keyword whose first character is absent does not occur |
| Mood.FireNeverHits | backend/utils.py:111 | the fire keyword, as spelled in the file, contains `Ÿ`; `lower()` turns that into `ÿ`, so the keyword never occurs in a lowered text |
| Mood.ExclamationIsExcited | backend/utils.py:111 | a text with `!` hits the excited keyword `!` |
| Mood.ClassifyBoundaries | backend/utils.py:129-137 | the thresholds are strict: scores 1 and -0.5 are neutral with 0.6 |
| Mood.ConfidenceCap | backend/utils.py:131-134 | confidence grows with the score's distance from the threshold and reaches 0.99 from 2.96 up, and from -1.96 down |
| Mood.RoundedConfidence | backend/utils.py:138 | rounding keeps a confidence in [0.5, 0.99] |
| Mood.RoundHundredths | backend/utils.py:138 | a whole number of hundredths rounds to itself |
| Mood.PredictionShape | backend/utils.py:129-138 | each result copies `t0` and `t1`, has the mood its score calls for, 0.6 when neutral, and confidence in [0.5, 0.99] |
| Mood.ShortListIsAbsent | backend/utils.py:123-128 | each feature list is used or skipped on its own: a prosody list, or a visual list, too short for the index gives the prediction of an absent one, whatever the other list is |
| Mood.PredictionsLocal | backend/utils.py:113-138 | each result depends only on its own segment and index |
| Mood.PredictionsPrefix | backend/utils.py:113-138 | the results for a prefix of the segments are a prefix of the results |
| Mood.CountBangs | backend/utils.py:120 | `n` exclamation marks count `n` times |
| Mood.MissBangs | backend/utils.py:117-118 | in a text of `!`, no keyword that starts with another character hits |
| Mood.BangsHits | backend/utils.py:111-118 | of all keywords, only `!` occurs in a text of exclamation marks |
| Mood.BangsScore | backend/utils.py:116-122 | `n` marks score 0.6 for the keyword plus 0.2 for each mark |
| Mood.BangsPrediction | backend/utils.py:114-138 | `n` marks are neutral for 1 or 2; from 3 they are hype with confidence `(40 + 5n)/100`, capped at 0.99 from 12 |

## Left out

- `analyze_prosody_from_audio` and `analyze_visuals_from_video` (backend/utils.py:56-107) are audio and video decoding through librosa and OpenCV. Their results enter the model only as the optional feature lists of `predict_moods`.
- NLTK's `sent_tokenize` and the import and download around it (backend/utils.py:37-45) are network access and code outside this repository. The splitter is a function parameter, applied to the lines joined by the two characters `\` and `n` (line 44 joins with that literal, not with a newline).
- `est_total_secs` (backend/utils.py:46-47) is computed but never used, so it is not modelled.
- backend/app.py, the HTTP endpoint around these functions, is not part of this model. Nor is the React front end, apart from its demo transcript.
- Timestamp.ParseField: covers the decimal literals `float()` accepts (sign, digits, point, exponent, surrounding whitespace). `inf`, `nan`, underscores between digits and non-ASCII digits are not accepted by the model.
- Text.LowerChar: lowers only `A` to `Z` and `Ÿ`, the one other capital in the keyword lists. Text.IsUpper counts only those as capitals, so accented Latin capitals and other scripts are not modelled: Python gives `ÉÉÉÉÉÉ` the shouting term of line 121, the model does not.
- Text.IsSpace and Text.LineBreaks follow Python's tables for `isspace` and `splitlines`. Lines are split at every break character. A `\r\n` pair and a final break only add empty pieces, and the blank-line filter drops those.
- Scores, times and `round(conf, 2)` are exact reals with round-half-even to hundredths. IEEE double rounding is not modelled.
- `seg.get('text', '')` and `pf.get('energy', 0)`: segments always carry a text; a missing feature key is `None` and reads as 0.
- Segmenter.SegmentAnnotated: takes the timestamp parser as a parameter, and `SegmentFromTranscript` passes `ParseTimestamp`. Its loop body is split into `NoteSegment` and `NextAnnotatedLine`.
- Mood.PredictMoods: the loop body is the method `PredictOne`.
- The fire keyword is kept exactly as the file spells it (`ð`, `Ÿ`, `”`, `¥`); whether the file once held the emoji itself is not modelled.
