# arvo_chords: a Dafny model of the chord engine

`arvo_chords` is a small command-line tool. It takes a comma-separated list
of seed notes and does two things:

- it reports whether the seeds form a known chord shape, with the first
  note as the root;
- for every seed note and each of the five template positions, it prints
  every catalogue chord that contains that note at that position.

This project models the engine behind both, in `arvo_chords/__main__.py`:

- **Notes**: the note table. Numbers 1..12 map to the names
  `Ab A Bb B C Db D Eb E F Gb G`, and the reverse table maps names back.
- **Catalogue**: the fifteen chord templates. Each has five slots of
  semitone offsets; numpy's `NaN` is modelled as `None` (`Slots`).
- **Normaliser**: `coerce_input`. It splits the input on commas, then
  strips, upper-cases and recases each token, and rejects the whole input
  unless every token is a name in the table (`Text` holds the string
  primitives).
- **Intervals**: the driver's `input_intervals`. Each is a note's number
  minus the root's number.
- **Matcher**: `print_detected_input`, modelled exactly as written
  (`Detect`), next to the evidently intended matcher
  (`DetectIntended`).
- **Generator**: `print_all_chords`. It transposes each template so that
  the chosen slot sounds the root note, folds the result back into 1..12,
  drops absent slots and spells the rest with the table. `Voicings` holds
  worked examples.
- **Consistency**: how the two fit together. Typed back in, every chord
  the generator prints is recognised by the intended matcher.

Printing is replaced by returned values:

- a list of `Detection(root, chordName)` pairs;
- five blocks of `Chord(root, chordName, notes)`, one block per slot
  position.

## Model

| member | source | states |
|---|---|---|
| Notes.NameOf | arvo_chords/__main__.py:15-17 | every note number 1..12 has a name of one or two characters that the reverse table knows |
| Notes.NumberOf | arvo_chords/__main__.py:19-20 | the reverse lookup succeeds exactly for table names, and the number it returns carries that name |
| Notes.Number | arvo_chords/__main__.py:19-20 | the number of a known name is the one whose forward name is that name |
| Notes.NameInTable | arvo_chords/__main__.py:19-20 | a string is a key of the reverse table exactly when some note number carries it |
| Notes.NamesDistinct | arvo_chords/__main__.py:15-17 | the table has twelve names, pairwise distinct, each one or two characters long |
| Notes.NumberOfNameOf | arvo_chords/__main__.py:15-20 | forward then reverse lookup gives back the number |
| Notes.NameOfNumberOf | arvo_chords/__main__.py:15-20 | reverse then forward lookup gives back the name |
| Notes.NumberIs | arvo_chords/__main__.py:19-20 | reading one entry of the reverse table: the name of `n` has number `n` |
| Notes.TableIsBijection | arvo_chords/__main__.py:15-20 | the forward table is injective, and its image is exactly the set of reverse-table keys |
| Notes.NameShape | arvo_chords/__main__.py:15-17 | every name is a letter A..G, optionally followed by a lower-case `b`, and contains no comma |
| Catalogue.CatalogueWellFormed | arvo_chords/__main__.py:23-40 | there are fifteen templates; each has five slots, slot 0 equal to 0, offsets in 0..11, and its present slots first |
| Catalogue.TemplateWellFormed | arvo_chords/__main__.py:23-40 | the same shape facts for one template, by index |
| Catalogue.PresentPrefixCount | arvo_chords/__main__.py:23-40 | when the present slots come first, slot `j` is present exactly when `j` is below the number of present slots |
| Catalogue.CatalogueNamesDistinct | arvo_chords/__main__.py:23-40 | no two templates share a name |
| Catalogue.FullTemplates | arvo_chords/__main__.py:24-38 | exactly the templates at indices 4, 5 and 9 use all five slots |
| Catalogue.FullTemplateNames | arvo_chords/__main__.py:28-33 | the full templates are Major69, Major9 and Minor9 |
| Catalogue.FullTemplateSeventh | arvo_chords/__main__.py:28-33 | slot 3 of every full template holds 9, 10 or 11 |
| Catalogue.Selected | arvo_chords/__main__.py:71 | the templates a test accepts, as indices in catalogue order: strictly increasing, each accepted, none left out. This is the order a loop over the dictionary meets them |
| Catalogue.SelectedAgree | arvo_chords/__main__.py:71 | two tests that agree on every template select the same indices |
| Catalogue.FullTemplateThirdOrSeventh | arvo_chords/__main__.py:28-33 | every full template other than Major69 holds a minor third (3) or a major seventh (11) |
| Slots.Gt | arvo_chords/__main__.py:93-96 | `a > b` holds only between two numbers: a NaN on either side makes it false |
| Slots.Le | arvo_chords/__main__.py:100 | `a <= b` holds exactly when both sides are numbers and `a > b` fails, so with a NaN both comparisons are false |
| Slots.Add | arvo_chords/__main__.py:95 | the sum is a number exactly when both sides are; subtracting `b` back from a numeric sum gives `a` |
| Slots.Sub | arvo_chords/__main__.py:94 | the difference is a number exactly when both sides are; adding `b` back to a numeric difference gives `a` |
| Slots.PresentCount | arvo_chords/__main__.py:102 | the number of non-NaN slots is at most the number of slots |
| Slots.PresentCountPattern | arvo_chords/__main__.py:102 | two slot lists with the same NaN pattern have the same number of present slots |
| Slots.StripAbsent | arvo_chords/__main__.py:102 | the NaN filter keeps one value per present slot, and its values are exactly the present ones |
| Slots.StripAbsentPrefix | arvo_chords/__main__.py:102 | when the first `n` slots are present and the rest are NaN, the filter returns those `n` values in slot order |
| Slots.StripAbsentHead | arvo_chords/__main__.py:106 | when slot 0 is present, the first filtered value is slot 0's value |
| Slots.PresentSet | arvo_chords/__main__.py:72 | the set of a template's present offsets contains `x` exactly when some slot holds `x` |
| Text.UpperChar | arvo_chords/__main__.py:54 | upper-casing raises a..z by 32 and leaves every other character, whitespace included, unchanged |
| Text.LowerChar | arvo_chords/__main__.py:55 | lower-casing lowers A..Z by 32 and leaves every other character unchanged |
| Text.LowerUpperChar | arvo_chords/__main__.py:54-55 | lowering after upper-casing equals lowering, and upper-casing after lowering equals upper-casing |
| Text.Upper | arvo_chords/__main__.py:54 | `str.upper` keeps the length and upper-cases each character in place |
| Text.UpperIdempotent | arvo_chords/__main__.py:54 | upper-casing twice is the same as upper-casing once |
| Text.TrimLeft | arvo_chords/__main__.py:54 | the result is a suffix of the input; everything dropped is whitespace; the result does not start with whitespace |
| Text.TrimRight | arvo_chords/__main__.py:54 | the result is a prefix of the input; everything dropped is whitespace; the result does not end with whitespace |
| Text.Strip | arvo_chords/__main__.py:54 | `str.strip` returns a slice of the input with only whitespace outside it, and the slice is not padded with whitespace |
| Text.TrimBothSlice | arvo_chords/__main__.py:54 | dropping a whitespace prefix and then a whitespace suffix leaves an unpadded slice with only whitespace around it |
| Text.StripFixed | arvo_chords/__main__.py:54 | a string that is not padded with whitespace is its own strip |
| Text.TrimLeftPadding | arvo_chords/__main__.py:54 | leading whitespace in front of a non-space character is exactly what the left trim removes |
| Text.TrimRightPadding | arvo_chords/__main__.py:54 | trailing whitespace after a non-space character is exactly what the right trim removes |
| Text.StripPadding | arvo_chords/__main__.py:54 | stripping whitespace padding off an unpadded core returns the core |
| Text.Split | arvo_chords/__main__.py:54 | `str.split` returns one more piece than there are separators, and no piece contains the separator |
| Text.JoinSplit | arvo_chords/__main__.py:54 | joining the pieces of a split gives back the input |
| Text.SplitJoin | arvo_chords/__main__.py:54 | splitting the join of separator-free pieces gives back the pieces |
| Text.SplitPiece | arvo_chords/__main__.py:54 | a string without the separator splits into itself alone |
| Text.SplitPrepend | arvo_chords/__main__.py:54 | splitting `p`, then a separator, then `t` puts `p` in front of the pieces of `t` |
| Normaliser.Recase | arvo_chords/__main__.py:55 | recasing keeps the length and changes only letter case, since the upper-cased result is unchanged |
| Normaliser.Canon | arvo_chords/__main__.py:54-55 | a token's canonical form is as long as the stripped token |
| Normaliser.CanonAll | arvo_chords/__main__.py:54-55 | every token is canonicalised in place, with order and count kept |
| Normaliser.CoerceInput | arvo_chords/__main__.py:53-59 | succeeds exactly when every canonical token is a table name. On success it returns one canonical token per comma-separated piece, in order; otherwise it gives the fixed usage error |
| Normaliser.CanonSpellsName | arvo_chords/__main__.py:54-56 | a token canonicalises to a table name exactly when the stripped token spells that name in any mix of cases |
| Normaliser.RecaseSpellsName | arvo_chords/__main__.py:54-56 | upper-casing and recasing a string gives a table name exactly when the string spells that name in any mix of cases |
| Normaliser.CanonFixesNames | arvo_chords/__main__.py:54-56 | table names are fixed points of the normaliser |
| Normaliser.CanonCaseVariants | arvo_chords/__main__.py:54-55 | `ab`, `AB` and `aB` all canonicalise to `Ab` |
| Normaliser.CanonIgnoresPadding | arvo_chords/__main__.py:54-55 | whitespace on either side of a non-empty token that has none of its own leaves the token's canonical form unchanged |
| Normaliser.CanonUnpadded | arvo_chords/__main__.py:54-55 | an unpadded token that spells a name in any case canonicalises to that name |
| Normaliser.CanonIdempotent | arvo_chords/__main__.py:54-55 | canonicalising twice is the same as canonicalising once |
| Normaliser.CanonIsUnpadded | arvo_chords/__main__.py:54-55 | a canonical token has no whitespace padding |
| Normaliser.LongOrEmptyTokenRejected | arvo_chords/__main__.py:55-58 | a token that is empty, or longer than two characters once stripped, never becomes a table name |
| Normaliser.CoerceNames | arvo_chords/__main__.py:53-59 | the comma-join of any non-empty list of table names normalises back to that list |
| Normaliser.AcceptedAs | arvo_chords/__main__.py:53-59 | an input whose pieces canonicalise one by one to table names is accepted as exactly those names |
| Normaliser.CoerceIdempotent | arvo_chords/__main__.py:53-59 | re-normalising the comma-joined output of a successful normalisation gives the same result |
| Normaliser.SplitsAs | arvo_chords/__main__.py:54 | an input built by joining comma-free pieces splits into those pieces |
| Normaliser.RejectsEmptyInput | arvo_chords/__main__.py:54-58 | the empty input is rejected with the usage error |
| Normaliser.RejectsEmptyToken | arvo_chords/__main__.py:54-58 | `C,,E` is rejected with the usage error |
| Normaliser.RejectsSharp | arvo_chords/__main__.py:54-58 | a sharp spelling, `F#`, is rejected with the usage error |
| Intervals.InputIntervals | arvo_chords/__main__.py:129-130 | one interval per note; the first is 0; each lies in -11..11 and, added to the root's number, gives that note's number |
| Intervals.Differences | arvo_chords/__main__.py:130 | one difference per note; each lies in -11..11 and, added to the base, gives the note's number |
| Intervals.IntervalsOfNumbers | arvo_chords/__main__.py:129-130 | given each note's number, the intervals are those numbers minus the first |
| Intervals.AbMajor69Intervals | arvo_chords/__main__.py:129-130 | `Ab, C, Eb, F, Bb` has intervals 0, 4, 7, 9, 2 |
| Matcher.IntervalSet | arvo_chords/__main__.py:72 | the set of the input intervals holds no NaN and holds exactly the interval values |
| Matcher.SlotSet | arvo_chords/__main__.py:72 | the set of a template's slots holds exactly its slots, NaN included |
| Matcher.Matches | arvo_chords/__main__.py:72 | the test as written holds exactly when every slot is a number met among the intervals and every interval is met among the slots |
| Matcher.SetsMeetEachOther | arvo_chords/__main__.py:72 | the interval set equals the slot set exactly when each side's elements are met on the other side |
| Matcher.Report | arvo_chords/__main__.py:71-74 | walking the templates reports, under the given root, each template the test accepts once, in template order, and nothing else. The report is empty exactly when no template passes |
| Matcher.ReportExtend | arvo_chords/__main__.py:71-74 | one loop step: the reports for all but the last template, followed by the last one's report when it is accepted, follow the whole selection in order |
| Matcher.ReportFacts | arvo_chords/__main__.py:71-74 | reports laid out along the selection name exactly the accepted templates, and are empty exactly when none is accepted |
| Matcher.Detect | arvo_chords/__main__.py:62-74 | as written: one report per template whose five-slot set equals the interval set, once each and in catalogue order, all under the first note. The result is empty exactly when none matches |
| Matcher.MatchRequiresFull | arvo_chords/__main__.py:72 | a template with a NaN slot is never matched |
| Matcher.MatchFullIff | arvo_chords/__main__.py:72 | for a full template, a match is exactly equality of the interval set with the template's offsets |
| Matcher.DetectsOnlyFullTemplates | arvo_chords/__main__.py:71-74 | only Major69, Major9 or Minor9 can ever be reported |
| Matcher.DetectedNotesNotBelowRoot | arvo_chords/__main__.py:71-74 | a detection implies that no input note is numbered below the first note |
| Matcher.MatchedIntervalsInOctave | arvo_chords/__main__.py:72 | every interval of a matched input lies in 0..11 |
| Matcher.SlotNotInIntervals | arvo_chords/__main__.py:72 | a template with a slot that is NaN, or holds a value missing from the intervals, is not matched |
| Matcher.NoMatchWithoutSixthOrSeventh | arvo_chords/__main__.py:71-72 | without 9, 10 or 11 among the intervals, no catalogue template matches |
| Matcher.DetectionNeedsSixthOrSeventh | arvo_chords/__main__.py:71-74 | intervals without 9, 10 or 11 produce no report |
| Matcher.NegativeIntervalDetectsNothing | arvo_chords/__main__.py:71-74 | one negative interval (a note numbered below the root) produces no report |
| Matcher.DefaultInputDetectsNothing | arvo_chords/__main__.py:121-132 | the default input `C, E, G` has intervals 0, 4, 7 and produces no report |
| Matcher.Major69Matches | arvo_chords/__main__.py:28 | template 4 is Major69, and intervals 0, 4, 7, 9, 2 match it |
| Matcher.DetectsMajor69 | arvo_chords/__main__.py:71-74 | intervals 0, 4, 7, 9, 2 are reported as Major69 on the first note, and as nothing else |
| Matcher.DetectsAbMajor69 | arvo_chords/__main__.py:125-132 | `Ab, C, Eb, F, Bb` is reported as Ab Major69, and as nothing else |
| Matcher.OnlyMajor69 | arvo_chords/__main__.py:71-74 | with neither 3 nor 11 among the intervals, only Major69 can match |
| Matcher.TransposedMajor69Missed | arvo_chords/__main__.py:127-132 | `G, B, D, E, A` has intervals 0, -8, -5, -3, -10 and produces no report |
| Matcher.IntervalClasses | arvo_chords/__main__.py:72 | the interval classes are exactly the intervals reduced modulo 12, all in 0..11 |
| Matcher.MatchesIntended | arvo_chords/__main__.py:72 | the intended test holds exactly when every interval modulo 12 is a present offset and every present offset is met by some interval |
| Matcher.ClassesMeetOffsets | arvo_chords/__main__.py:72 | the interval classes equal the present offsets exactly when each side's elements are met on the other side |
| Matcher.DetectIntended | arvo_chords/__main__.py:62-74 | as intended: one report per template whose present offsets equal the interval classes, once each and in catalogue order, all under the first note. The result is empty exactly when none matches |
| Matcher.MatchImpliesIntended | arvo_chords/__main__.py:72 | every match of the matcher as written is also a match of the intended test |
| Matcher.ClassesAre | arvo_chords/__main__.py:72 | the interval classes equal a set `s` when every interval falls in `s` and every element of `s` is met |
| Matcher.IntendedDetectsMajor | arvo_chords/__main__.py:62-74 | the intended matcher reports intervals 0, 4, 7 as Major on the first note |
| Matcher.IntendedDetectsTransposedMajor69 | arvo_chords/__main__.py:62-74 | the intended matcher reports intervals 0, -8, -5, -3, -10 as Major69 on the first note |
| Generator.WrapDown | arvo_chords/__main__.py:96 | the fold-down keeps NaN as NaN and numbers as numbers |
| Generator.WrapUp | arvo_chords/__main__.py:100 | the fold-up keeps NaN as NaN and numbers as numbers |
| Generator.ShiftSlot | arvo_chords/__main__.py:93-100 | a transposed slot is a number exactly when both the slot and the chosen slot are numbers |
| Generator.Transpose | arvo_chords/__main__.py:92-100 | transposition keeps the slot count; a slot stays present exactly when it and the chosen slot are present; every present value lands in 1..12 |
| Generator.ReferenceSlot | arvo_chords/__main__.py:93-100 | the modular reference for transposition lands in 1..12 |
| Generator.ShiftSlotReference | arvo_chords/__main__.py:93-100 | for offsets in 0..11, the branchy shift-and-fold equals `(x - c + r - 1) mod 12 + 1` |
| Generator.TransposeReference | arvo_chords/__main__.py:93-100 | slot by slot, transposition is the modular reference |
| Generator.TransposeAnchor | arvo_chords/__main__.py:93-100 | the chosen slot lands exactly on the root note |
| Generator.TransposeKeepsIntervals | arvo_chords/__main__.py:93-100 | measured from slot 0 modulo 12, every transposed slot keeps the template's offset |
| Generator.ChordFor | arvo_chords/__main__.py:93-107 | a chord is printed exactly when the chosen slot is present. It carries the template's name and one note per present slot, and its root is its first note |
| Generator.ChordNotes | arvo_chords/__main__.py:102-106 | note `k` is the name of transposed slot `k`, and the note at the chosen position is the root note |
| Generator.NoteInterval | arvo_chords/__main__.py:93-106 | each note is a table name lying its slot's offset above the chord's root, modulo 12 |
| Generator.ChordSpelling | arvo_chords/__main__.py:93-107 | the chord contains the given root note, and spells the template's offsets from its own root |
| Generator.Collect | arvo_chords/__main__.py:90-107 | one chord per template that yields one, in template order, each being that template's chord |
| Generator.ChordsAt | arvo_chords/__main__.py:90-107 | one block lists the chord of each template with slot `i` present, once each and in template order, and holds no other chord |
| Generator.MakeAtLayout | arvo_chords/__main__.py:90-107 | what the block's chord maker collects from well-formed templates is the chord of each template with slot `i` present, in template order |
| Generator.BlockFacts | arvo_chords/__main__.py:90-107 | a block laid out in template order holds a chord exactly when some template with slot `i` present gives it |
| Generator.Blocks | arvo_chords/__main__.py:88-107 | five blocks; block `i` lists the chords of the templates with slot `i` present, once each and in template order, and nothing else; every chord contains the root note |
| Generator.AllChords | arvo_chords/__main__.py:77-107 | `print_all_chords`: five blocks; block `i` lists the catalogue chords with the root at slot `i`, once each and in catalogue order; every chord contains the root note |
| Generator.AllChordsMembership | arvo_chords/__main__.py:77-107 | block `i` of `print_all_chords` holds a chord exactly when it is the chord of some catalogue template with slot `i` present |
| Generator.ChordsContainRoot | arvo_chords/__main__.py:88-107 | every chord of every block contains the note the blocks were built for |
| Voicings.MajorShape | arvo_chords/__main__.py:25 | template 1 is Major, with offsets 0, 4, 7 and two NaN slots |
| Voicings.ThreeNoteChord | arvo_chords/__main__.py:102-107 | a three-note template spells its three transposed slots, rooted on the first |
| Voicings.CAsMajorRoot | arvo_chords/__main__.py:93-107 | C at slot 0 of Major gives C Major: C, E, G |
| Voicings.CAsMajorThird | arvo_chords/__main__.py:93-107 | C at slot 1 of Major gives Ab Major: Ab, C, Eb |
| Voicings.CAsMajorFifth | arvo_chords/__main__.py:93-107 | C at slot 2 of Major folds up past 0 and gives F Major: F, A, C |
| Voicings.MajorHasNoFourth | arvo_chords/__main__.py:93-105 | Major yields no chord with the root at slot 3 |
| Consistency.OffsetClasses | arvo_chords/__main__.py:102-107 | intervals that meet a template's present prefix one by one have that template's offsets as classes |
| Consistency.SpelledIntervalClasses | arvo_chords/__main__.py:102-107 | notes spelled from a template have, as interval classes, exactly the template's present offsets |
| Consistency.GeneratedChordMatchesIntended | arvo_chords/__main__.py:77-107 | the notes of a generated chord are table names, and they pass the intended test for their template |
| Consistency.GeneratedChordDetectedIntended | arvo_chords/__main__.py:62-107 | typed back in, every generated catalogue chord is reported by the intended matcher under its printed root and name |

## Left out

- The command-line driver (`arvo_chords/__main__.py:118-136`) is not modelled beyond the interval list it computes (`Intervals.InputIntervals`). That covers argument parsing, the default input and the per-note headers. The default input appears only as an example (`Matcher.DefaultInputDetectsNothing`).
- Printing and its text layout (lines 74, 89, 107) are not modelled. The model returns `Detection` pairs and `Chord` blocks instead.
- The matcher reads `input_intervals` from a module-level variable; here it is an explicit parameter.
- `np.setdiff1d` is modelled as "every token is a table name". numpy also drops trailing NUL characters from strings, and that is not modelled.
- Normaliser.Canon: `str.strip` and `str.upper` are modelled on ASCII only. Whitespace is tab through carriage return, plus characters 28 to 32. Only a..z and A..Z change case.
- Normaliser.CoerceInput: only the assertion inside the `try` can fail, so the bare `except` is modelled as that one failure, with its message.
- Matcher.Detect: requires at least one note. The only caller passes the output of a successful normalisation, which always has one.
- Matcher.DetectIntended: requires at least one note, for the same reason.
- Generator.ChordFor: requires a well-formed template (five slots, offsets 0..11). Every catalogue template is one (`Catalogue.CatalogueWellFormed`).
- Generator.AllChords: requires a table name. The source raises `KeyError` at line 86 otherwise, but its only caller passes normalised names.
- Lines 111-115 are commented-out code and are not modelled.
- The usage message's own examples (`c, g, Ab` and `G, F, bb`) have no example lemma; they are covered by `Normaliser.CoerceNames` and `Normaliser.CanonSpellsName`. One example is written out per behaviour instead: `CanonCaseVariants` for case, `CanonIgnoresPadding` for padding.

## Findings

| source | as written | input that shows it | evidently intended | confidence | as-written member | corrected member |
|---|---|---|---|---|---|---|
| arvo_chords/__main__.py:72 | `set(chord_ints)` keeps NaN as an element, so no template with an empty slot can ever equal a set of integer intervals | the default input `C, E, G` (intervals 0, 4, 7): Major's set is {0, 4, 7, NaN} and nothing is reported | compare with the template's present offsets only, reporting C Major | not executed | Matcher.DefaultInputDetectsNothing | Matcher.IntendedDetectsMajor |
| arvo_chords/__main__.py:130 | intervals are raw differences of note numbers, not reduced modulo 12 | `G, B, D, E, A` (G Major69): intervals 0, -8, -5, -3, -10 and nothing is reported | reduce intervals modulo 12 before comparing, reporting G Major69 | not executed | Matcher.TransposedMajor69Missed | Matcher.IntendedDetectsTransposedMajor69 |

`Matcher.DetectIntended` is the corrected matcher. `Consistency.GeneratedChordDetectedIntended` proves that it recognises every chord the generator prints. `Matcher.MatchImpliesIntended` proves that it keeps every detection the matcher as written makes.
