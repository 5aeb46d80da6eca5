# MedScript prescription core in Dafny

This project models three pieces of MedScript, a web application in which a
doctor dictates or types a prescription. The application turns the text into
a list of medicines and prints the prescription as an HTML page.

- **The free-text parser** `parsePrescriptionText` and its helper
  `capitalizeFirst`, in `client/src/utils/prescription-parser.ts`. The parser
  does the following:
  - lower-cases and trims a transcript;
  - splits it into sentences at runs of `.`, `!` and `?`;
  - searches every sentence with three name patterns. Each match gives a
    record whose frequency, duration and instructions come from the text after
    the match;
  - runs a word scan that adds at most one more record per sentence. That
    record is filled from patterns searched over the whole sentence, with
    defaults.
- **The shared printable page** `renderPrescriptionHTML` and its `calculateAge`,
  in `shared/prescription/renderPrescriptionHTML.ts`.
- **The older server page** `generatePrescriptionHTML` and its 365-day
  `calculateAge`, in `server/utils/prescriptionTemplate.ts`.

Files:

- `text.dfy`: two modules.
  - `Wrappers` holds `Option`.
  - `Text` holds the host primitives the core relies on: `\s`, `\w`, `\d`;
    ASCII case mapping; `trim`; `split` on a character-class run; `parseInt` of
    a digit run; the printing of integers; and `join("")` of template pieces,
    with lemmas about where each piece lands.
- `patterns.dfy` (`Patterns`):
  - every regular expression of the parser, hand-coded as a matcher at one
    position;
  - the leftmost search `exec` from a `lastIndex`, and the run of searches
    that a `while (exec)` loop performs;
  - the three searches of the text after a name.
- `parser.dfy` (`PrescriptionParser`):
  - the specification function `Parse`;
  - the imperative procedure `ParsePrescriptionText` with its loops. The
    procedure carries the `lastIndex` of every global expression explicitly,
    and it is proved equal to `Parse`.
- `properties.dfy` (`ParserProperties`): what the parser promises about its
  output.
- `render.dfy` (`Render`): the shared page and its age rule.
- `template.dfy` (`ServerTemplate`): the server page and its age rule.

Both pages are defined over a record of their fixed text (`Markup`), so their
lemmas hold whatever that text is. `Render.ClientMarkup` and
`ServerTemplate.ServerMarkup` hold the source's own text. The public functions
are:

- `Render.RenderPrescriptionHTML`, which is `Render.Page(ClientMarkup, …)`;
- `ServerTemplate.GeneratePrescriptionHTML`, which is
  `ServerTemplate.Page(ServerMarkup, …)`.

The clock is a parameter:

- In the shared page, "today" is given as date components (year, month, day).
- In the server page, the current moment and the birth date are given as
  millisecond timestamps.

The parser is modelled as the code is written, including these behaviours:

- The loop body declares its own `medicineName` and `dosage` (lines 63-64), so
  the outer ones stay empty. As a result, the word scan (lines 87-147) runs for
  every sentence, even one the name patterns already matched, and its dosage
  search always runs.
- The `break` at line 82 tests the list of the whole call. So once any record
  exists, later sentences try only the first name pattern.
- For the `<form> of <word>` pattern, the record's name is the form and its
  dosage is the word.
- In the after-name duration `for\s+\d+\s+(day|days|week|weeks)` (line 70),
  `day` is tried before `days` and nothing follows the group. So "for 7 days"
  gives "for 7 day" (`ParserProperties.DurationEndsSingular`). A transcript
  such as "take amoxicillin 500mg twice daily for 7 days after meals" therefore
  yields a loop record whose duration is "for 7 day", not "for 7 days", and
  then a word-scan record whose duration is "7 days".

## Model

| member | source | states |
|---|---|---|
| Text.Lower | client/src/utils/prescription-parser.ts:11 | `toLowerCase` on ASCII: same length, and each character is its lower-case form |
| Text.LowerOfLowered | client/src/utils/prescription-parser.ts:11 | lower-casing a text without upper-case letters leaves it unchanged |
| Text.Trim | client/src/utils/prescription-parser.ts:11 | `trim`: the result neither starts nor ends with white space; it is empty exactly when the input is all white space; it only holds characters of the input |
| Text.TrimStripsWhite | client/src/utils/prescription-parser.ts:11 | `trim` removes exactly a white prefix and a white suffix: the result is the slice of the input between them |
| Text.SplitRuns | client/src/utils/prescription-parser.ts:47 | `split` at runs of separators: at least one piece, and no piece holds a separator |
| Text.SplitRunsRebuild | client/src/utils/prescription-parser.ts:47 | the pieces of `split`, joined again with the separator runs between them, give back the input, with one run fewer than pieces |
| Text.SeparatorRunsAreRuns | client/src/utils/prescription-parser.ts:47 | every separator run `split` cuts out is a non-empty run of separator characters |
| Text.NatToString | client/src/utils/prescription-parser.ts:120 | a number prints as a non-empty digit string without a leading zero |
| Text.NatToStringRoundTrip | client/src/utils/prescription-parser.ts:115-120 | `parseInt` of a printed number gives the number back |
| Patterns.LitAt | client/src/utils/prescription-parser.ts:15 | an alternation of literals ends within the string, after its start when no alternative is empty; it fails only when no alternative stands at the position |
| Patterns.LitAtFirst | client/src/utils/prescription-parser.ts:15 | the alternation takes the first alternative, in source order, that stands at the position, and ends right after it |
| Patterns.Alt | client/src/utils/prescription-parser.ts:28 | backtracking alternation: the alternative taken stands at the position, and the rest of the expression succeeds right after it with the result reported |
| Patterns.AltFirst | client/src/utils/prescription-parser.ts:28 | no alternative before the one taken is followed by a successful rest of the expression, and the alternation fails only when no alternative is |
| Patterns.LastLitEnd | client/src/utils/prescription-parser.ts:15 | a greedy word run followed by a literal ends after the last occurrence of the literal that starts within the run, and no occurrence starts later in it; without one, none starts in the run |
| Patterns.CillinEnd | client/src/utils/prescription-parser.ts:15 | `\w*cillin` ends after the last "cillin" within the word run, since the greedy `\w*` gives back characters from the end |
| Patterns.DoseEnd | client/src/utils/prescription-parser.ts:15 | the digits-and-unit dose expression ends after its start, within the string; what it takes is `CountUnitSound` and `CountUnitComplete` |
| Patterns.CountUnitEnd | client/src/utils/prescription-parser.ts:22 | `\d+\s*(unit alternation)` ends after its start, within the string; which unit it takes is `CountUnitSound` and `CountUnitUnique` |
| PatternLanguages.CountUnitSound | client/src/utils/prescription-parser.ts:22 | what the count-and-unit expression takes is a non-empty digit run, white space and the first unit, in source order, that stands there: "5 units" is read to the end of "units", never as "5 unit" |
| PatternLanguages.CountUnitRuns | client/src/utils/prescription-parser.ts:22 | in any such reading the digits and the white space are the maximal runs |
| PatternLanguages.CountUnitUnique | client/src/utils/prescription-parser.ts:22 | the regex's reading of a count and a unit has exactly one end, so "10 units", "7 days" and "2 weeks" keep their plural |
| PatternLanguages.CountUnitComplete | client/src/utils/prescription-parser.ts:22 | wherever a non-empty digit run, white space and one of the units stand, the expression matches |
| Patterns.DrugNameAt | client/src/utils/prescription-parser.ts:15 | the named-drug pattern at a position gives a well-formed match starting there; what it matches, and that it fails only where no such text stands, are stated by `DrugNameSound` and `DrugNameComplete` |
| PatternLanguages.DrugNameSound | client/src/utils/prescription-parser.ts:15 | group 1 is the `\w*cillin` reading, which ends after the last "cillin" of the word run, whenever the run holds a "cillin", and otherwise the first listed drug standing there; the white space after it is taken in full; group 2 is the dose that then ends the match, with its first unit in source order ("units" before "unit"), and it is absent only when no dose stands there |
| PatternLanguages.DrugNameUnique | client/src/utils/prescription-parser.ts:15 | the regex's reading of the name group has exactly one end: "aspirincillin" is read whole, never as "aspirin" |
| PatternLanguages.DrugNameComplete | client/src/utils/prescription-parser.ts:15 | wherever a listed drug or a word run up to a "cillin" stands (`DrugNameShape`), the pattern matches |
| Patterns.OfWord | client/src/utils/prescription-parser.ts:16 | the `(\w+)` group after `of` is a non-empty run of word characters after the form |
| PatternLanguages.OfWordSound | client/src/utils/prescription-parser.ts:16 | what `\s+of\s+(\w+)` takes is white space, "of", white space and a word taken to the end of its run |
| PatternLanguages.OfWordComplete | client/src/utils/prescription-parser.ts:16 | wherever white space, "of", white space and a word stand, `\s+of\s+(\w+)` matches |
| Patterns.FormOfAt | client/src/utils/prescription-parser.ts:16 | the `<form> of <word>` pattern gives a well-formed match starting at the position; what it matches, and that it fails only where no such text stands, are stated by `FormOfSound` and `FormOfComplete` |
| PatternLanguages.FormOfSound | client/src/utils/prescription-parser.ts:16 | group 1 is one of the forms at the position, and group 2 is the word after `of` that ends the match |
| PatternLanguages.FormOfComplete | client/src/utils/prescription-parser.ts:16 | wherever a form, white space, "of", white space and a word stand, the pattern matches |
| Patterns.WordDoseAt | client/src/utils/prescription-parser.ts:17 | the `<word> <dose>` pattern gives a well-formed match starting at the position; what it matches, and that it fails only where no such text stands, are stated by `WordDoseSound` and `WordDoseComplete` |
| PatternLanguages.WordDoseSound | client/src/utils/prescription-parser.ts:17 | group 1 is the whole word run at the position, then white space, then group 2, a dose that ends the match and takes the first unit in source order that stands there ("units" before "unit") |
| PatternLanguages.WordDoseComplete | client/src/utils/prescription-parser.ts:17 | wherever a word run, white space and a dose stand, the pattern matches |
| Patterns.DoseAt | client/src/utils/prescription-parser.ts:22 | `dosagePatterns[0]` gives a well-formed match starting at the position; what it matches, and that it fails only where no such text stands, are stated by `DoseSound` and `DoseComplete` |
| PatternLanguages.DoseSound | client/src/utils/prescription-parser.ts:22 | the match and its group are one span made of digits, white space and the first unit in source order that stands there, so "units" is taken over "unit" |
| PatternLanguages.DoseComplete | client/src/utils/prescription-parser.ts:22 | wherever digits, white space and a unit stand, `dosagePatterns[0]` matches |
| Patterns.DailyRest | client/src/utils/prescription-parser.ts:28 | the rest of the daily expression after its count word ends within the string; what it takes is `DailyRestSound` and `DailyRestComplete` |
| Patterns.DailyTail | client/src/utils/prescription-parser.ts:28 | the daily tail `\s*(?:daily|per day|a day)` ends within the string |
| PatternLanguages.DailyTailSound | client/src/utils/prescription-parser.ts:28 | what the daily tail takes is white space and one of "daily", "per day" and "a day" |
| PatternLanguages.DailyTailComplete | client/src/utils/prescription-parser.ts:28 | wherever white space and one of the three tails stand, the daily tail matches |
| PatternLanguages.DailyRestSound | client/src/utils/prescription-parser.ts:28 | what follows the count is white space, then "times", "time" or nothing, then a daily tail |
| PatternLanguages.DailyRestComplete | client/src/utils/prescription-parser.ts:28 | wherever white space, an optional "time" or "times" and a daily tail stand, the rest of the expression matches |
| Patterns.DailyAt | client/src/utils/prescription-parser.ts:28 | `frequencyPatterns[0]` gives a well-formed match starting at the position; what it matches, and that it fails only where no such text stands, are stated by `DailySound` and `DailyComplete` |
| PatternLanguages.DailySound | client/src/utils/prescription-parser.ts:28 | group 1 is one of the counts at the position, and the rest of the match is white space, an optional "time" or "times" and a daily tail |
| PatternLanguages.DailyComplete | client/src/utils/prescription-parser.ts:28 | wherever a count, white space, an optional "time" or "times" and a daily tail stand, `frequencyPatterns[0]` matches |
| Patterns.TimesCountAt | client/src/utils/prescription-parser.ts:113 | `(\d+)\s*times?` gives a well-formed match starting at the position; what it matches, and that it fails only where no such text stands, are stated by `TimesCountSound` and `TimesCountComplete` |
| PatternLanguages.TimesCountSound | client/src/utils/prescription-parser.ts:113 | group 1 is the whole digit run at the position, followed by white space and "time"; the optional "s" is taken whenever it follows |
| PatternLanguages.TimesCountComplete | client/src/utils/prescription-parser.ts:113 | wherever digits, white space and "time" stand, the expression matches |
| Patterns.DurationEnd | client/src/utils/prescription-parser.ts:36 | the digits-and-unit duration expression ends after its start, within the string; what it takes is `CountUnitSound` and `CountUnitComplete` |
| Patterns.DurationAt | client/src/utils/prescription-parser.ts:36 | `durationPatterns[0]` gives a well-formed match starting at the position; what it matches, and that it fails only where no such text stands, are stated by `DurationSound` and `DurationComplete` |
| PatternLanguages.DurationSound | client/src/utils/prescription-parser.ts:36 | the group is a count, white space and the first unit in source order that stands there ("days" before "day", "weeks" before "week"), ending the match; the match adds to it nothing or a leading `for` and white space |
| PatternLanguages.DurationComplete | client/src/utils/prescription-parser.ts:36 | wherever a count and a unit stand, with or without a leading `for` and white space, `durationPatterns[0]` matches |
| Patterns.MealRest | client/src/utils/prescription-parser.ts:42 | the meal word after a preposition ends after its start, within the string; what it takes is `MealRestSound` and `MealRestComplete` |
| PatternLanguages.MealRestSound | client/src/utils/prescription-parser.ts:42 | what `\s+(?:meals?|food|eating)` takes is non-empty white space and the first meal word in source order that stands there, so "meals" is taken over "meal" |
| PatternLanguages.MealSpanUnique | client/src/utils/prescription-parser.ts:42 | that reading has exactly one end: " meals" is never read as " meal" |
| PatternLanguages.MealRestComplete | client/src/utils/prescription-parser.ts:42 | wherever non-empty white space and a meal word stand, it matches |
| Patterns.PrepRest | client/src/utils/prescription-parser.ts:42 | the preposition and meal word after a verb end after their start, within the string; what they take is `PrepRestSound` and `PrepRestComplete` |
| PatternLanguages.PrepRestSound | client/src/utils/prescription-parser.ts:42 | what follows the verb is non-empty white space, one of the prepositions, then non-empty white space and the first meal word in source order that stands there ("meals" before "meal") |
| PatternLanguages.PrepRestComplete | client/src/utils/prescription-parser.ts:42 | wherever white space, a preposition, white space and a meal word stand, the rest of the expression matches, "without" included after the failed try of "with" |
| Patterns.InstructionAt | client/src/utils/prescription-parser.ts:42 | `instructionPatterns[0]` gives a well-formed match starting at the position; what it matches, and that it fails only where no such text stands, are stated by `InstructionSound` and `InstructionComplete` |
| PatternLanguages.InstructionSound | client/src/utils/prescription-parser.ts:42 | the match and its group are one span: a verb, then white space, a preposition, white space and the first meal word in source order that stands there, so "take after meals" is never cut to "take after meal" |
| PatternLanguages.InstructionComplete | client/src/utils/prescription-parser.ts:42 | wherever a verb, white space, a preposition, white space and a meal word stand, `instructionPatterns[0]` matches |
| Patterns.FollowingFrequencyAt | client/src/utils/prescription-parser.ts:69 | the after-name frequency expression gives a well-formed match starting at the position; what it matches is `FollowingFrequencyText`, and `FollowingFrequencyComplete` says where it cannot fail |
| PatternLanguages.FollowingFrequencyComplete | client/src/utils/prescription-parser.ts:69 | wherever one of the three phrases or `every <digits> hours` stands, the expression matches |
| Patterns.FollowingDurationAt | client/src/utils/prescription-parser.ts:70 | the after-name duration expression gives a well-formed match starting at the position; what it matches is `FollowingDurationSound` and `FollowingDurationText`, and `FollowingDurationComplete` says where it cannot fail |
| PatternLanguages.FollowingDurationSound | client/src/utils/prescription-parser.ts:70 | the match is `for`, white space, digits, white space and then the group, a unit that ends the match |
| PatternLanguages.FollowingDurationComplete | client/src/utils/prescription-parser.ts:70 | wherever `for`, white space, digits, white space and a unit stand, the expression matches |
| Patterns.FollowingInstructionsAt | client/src/utils/prescription-parser.ts:71 | the after-name instructions expression gives a well-formed match starting at the position; what it matches is `FollowingInstructionsText`, and `FollowingInstructionsComplete` says where it cannot fail |
| PatternLanguages.FollowingInstructionsComplete | client/src/utils/prescription-parser.ts:71 | wherever one of the five phrases stands, the expression matches |
| Patterns.DrugNameMatcher | client/src/utils/prescription-parser.ts:15 | `medicinePatterns[0]` over a sentence reports only well-formed matches at the position asked |
| Patterns.FormOfMatcher | client/src/utils/prescription-parser.ts:16 | the same for `medicinePatterns[1]` |
| Patterns.WordDoseMatcher | client/src/utils/prescription-parser.ts:17 | the same for `medicinePatterns[2]` |
| Patterns.DoseMatcher | client/src/utils/prescription-parser.ts:22 | the same for `dosagePatterns[0]` |
| Patterns.DailyMatcher | client/src/utils/prescription-parser.ts:28 | the same for `frequencyPatterns[0]` |
| Patterns.TimesCountMatcher | client/src/utils/prescription-parser.ts:113 | the same for the `N times` expression |
| Patterns.DurationMatcher | client/src/utils/prescription-parser.ts:36 | the same for `durationPatterns[0]` |
| Patterns.InstructionMatcher | client/src/utils/prescription-parser.ts:42 | the same for `instructionPatterns[0]` |
| Patterns.FollowingFrequencyMatcher | client/src/utils/prescription-parser.ts:69 | the same for the after-name frequency expression |
| Patterns.FollowingDurationMatcher | client/src/utils/prescription-parser.ts:70 | the same for the after-name duration expression |
| Patterns.FollowingInstructionsMatcher | client/src/utils/prescription-parser.ts:71 | the same for the after-name instructions expression |
| Patterns.Exec | client/src/utils/prescription-parser.ts:62 | `exec` from `lastIndex`: the match found is at the leftmost position at or after it where the expression matches; without a match, no position from there to the end matches |
| Patterns.ExecLeftmost | client/src/utils/prescription-parser.ts:62 | a search from 0 finds the leftmost match: the expression matches at the position found with that text, and at no position before it |
| Patterns.TryAt | client/src/utils/prescription-parser.ts:62 | one step of that search, with the same guarantee |
| Patterns.Execs | client/src/utils/prescription-parser.ts:62-80 | every match the `while (exec)` loop visits is a well-formed match of the expression at or after the start |
| Patterns.ExecsOrdered | client/src/utils/prescription-parser.ts:62-80 | the visited matches do not overlap and come in left-to-right order |
| Patterns.ExecsMissNothing | client/src/utils/prescription-parser.ts:62-80 | no match of the expression begins in a stretch a search skipped, or after the last match |
| Patterns.LitAtText | client/src/utils/prescription-parser.ts:69-71 | the text an alternation of literals matched is one of its alternatives |
| Patterns.FollowingFrequencyText | client/src/utils/prescription-parser.ts:69 | an after-name frequency is "once daily", "twice daily", "three times daily" or `every <digits> hours` |
| Patterns.FollowingDurationText | client/src/utils/prescription-parser.ts:70 | an after-name duration starts with "for", and its group is day, days, week or weeks; in fact always "day" or "week", since the singular is tried first and each plural starts with it |
| Patterns.PluralHasSingular | client/src/utils/prescription-parser.ts:70 | wherever "days" stands "day" stands, and wherever "weeks" stands "week" does |
| Patterns.FollowingInstructionsText | client/src/utils/prescription-parser.ts:71 | after-name instructions are one of the five phrases |
| Patterns.DrugNameText | client/src/utils/prescription-parser.ts:15 | the captured name is one of the listed drugs or a word ending in "cillin" |
| Patterns.FormOfName | client/src/utils/prescription-parser.ts:16 | the first group of `<form> of <word>` is one of the seven forms |
| Patterns.FormOfWord | client/src/utils/prescription-parser.ts:16 | the second group of `<form> of <word>` exists and is a non-empty word |
| Patterns.FrequencyAfter | client/src/utils/prescription-parser.ts:69-76 | the frequency is "As directed" exactly when the expression matches nowhere after the name; otherwise it is one of the phrases, occurs in that text, and is the text of the leftmost match |
| Patterns.FrequencyWhole | client/src/utils/prescription-parser.ts:69 | the text a frequency match covers is one of the phrases or `every <digits> hours`, occurs where it matched, and is never the default |
| Patterns.DurationWhole | client/src/utils/prescription-parser.ts:70 | the text an after-name duration match covers starts with "for", occurs where it matched, and so is never the default "As needed" |
| Patterns.DurationAfter | client/src/utils/prescription-parser.ts:70-77 | the duration is "As needed" exactly when the expression matches nowhere after the name; otherwise it starts with "for", occurs in that text, and is the text of the leftmost match |
| Patterns.InstructionsAfter | client/src/utils/prescription-parser.ts:71-78 | the instructions are empty exactly when the expression matches nowhere after the name; otherwise they are one of the five phrases, occur in that text, and are the text of the leftmost match |
| PrescriptionParser.CapitalizeFirst | client/src/utils/prescription-parser.ts:154-157 | same length; the first character is upper-cased and every later one lower-cased; "" stays "" |
| PrescriptionParser.CapitalizeFirstIdempotent | client/src/utils/prescription-parser.ts:154-157 | capitalising twice is capitalising once |
| PrescriptionParser.OrDefault | client/src/utils/prescription-parser.ts:63-64 | the logical or of JavaScript on strings keeps a non-empty `x` and gives the fallback exactly when `x` is empty; it is empty only when both are |
| PrescriptionParser.NonBlank | client/src/utils/prescription-parser.ts:47 | the filter keeps only pieces that are not blank once trimmed |
| ParserProperties.NonBlankSelects | client/src/utils/prescription-parser.ts:47 | the filter keeps every piece that is not blank once trimmed, in the order of the pieces: its result is the pieces at increasing positions, among them every non-blank one |
| PrescriptionParser.RecordsOf | client/src/utils/prescription-parser.ts:62-80 | one record per visited match |
| PrescriptionParser.PatternRecordsStep | client/src/utils/prescription-parser.ts:62-80 | the loop pushes the record of the leftmost match, then continues from that match's end; it pushes nothing when the search fails |
| PrescriptionParser.MedicinePatterns | client/src/utils/prescription-parser.ts:14-18 | the three name patterns, in source order, are all matchers over the sentence |
| PrescriptionParser.FirstDrugWord | client/src/utils/prescription-parser.ts:88-96 | no word is found exactly when no word passes the test; otherwise the word found passes it and no earlier word does |
| PrescriptionParser.OptionToSeq | client/src/utils/prescription-parser.ts:99 | a sentence adds at most one word-scan record |
| PrescriptionParser.BuildRecord | client/src/utils/prescription-parser.ts:63-79 | the loop body pushes the record `LoopRecord` describes |
| PrescriptionParser.RunPattern | client/src/utils/prescription-parser.ts:61-81 | the `while (exec)` loop appends the records of all visited matches, in order, and leaves `lastIndex` at 0 |
| PrescriptionParser.ScanWords | client/src/utils/prescription-parser.ts:88-96 | the word loop with `break` returns the first word that passes the test, or "" |
| PrescriptionParser.ExtractDosage | client/src/utils/prescription-parser.ts:101-105 | the dosage is the group of the leftmost match of `dosagePatterns[0]`, or ""; `lastIndex` is 0 afterwards |
| PrescriptionParser.ExtractFrequency | client/src/utils/prescription-parser.ts:108-123 | the frequency is the leftmost daily phrase, else the phrase of the first `N times`, else ""; `lastIndex` is 0 afterwards |
| PrescriptionParser.ExtractGroup | client/src/utils/prescription-parser.ts:126-133 | the duration or instructions are `ScanGroup`, the group of the leftmost match, or ""; `lastIndex` is 0 afterwards |
| PrescriptionParser.ExtractFallback | client/src/utils/prescription-parser.ts:99-146 | the word-scan record, with defaults and capitalisation, from searches that all start at 0 and leave every `lastIndex` at 0 |
| PrescriptionParser.RunMedicinePatterns | client/src/utils/prescription-parser.ts:60-83 | the pattern loop appends the records of the family loop (`FamilyLoop`), stopping once the list of the call is non-empty |
| PrescriptionParser.ParseSentence | client/src/utils/prescription-parser.ts:49-147 | one sentence appends exactly its `SentenceRecords`, and all `lastIndex` values are back at 0 |
| PrescriptionParser.ParsePrescriptionText | client/src/utils/prescription-parser.ts:9-152 | the procedure returns `Parse(text)` |
| ParserProperties.RecordsOfAt | client/src/utils/prescription-parser.ts:62-80 | record `k` belongs to visited match `k`, so records come in the order of their matches |
| ParserProperties.LoopName | client/src/utils/prescription-parser.ts:63-74 | a loop record's name is the capitalised first group, or the whole match when the group is empty; it is never empty |
| ParserProperties.LoopDosage | client/src/utils/prescription-parser.ts:64-75 | a loop record's dosage is the second group when present and non-empty, and "As prescribed" otherwise |
| ParserProperties.LoopFrequencyAfter | client/src/utils/prescription-parser.ts:67-76 | a found frequency occurs in the sentence at or after the end of the name match |
| ParserProperties.LoopDurationAfter | client/src/utils/prescription-parser.ts:67-77 | a found duration occurs in the sentence at or after the end of the name match |
| ParserProperties.LoopInstructionsAfter | client/src/utils/prescription-parser.ts:67-78 | found instructions occur in the sentence at or after the end of the name match |
| ParserProperties.LoopRecordComplete | client/src/utils/prescription-parser.ts:73-79 | `LoopRecord`, the record the loop body pushes: its name, dosage, frequency and duration are non-empty |
| ParserProperties.RecordsOfComplete | client/src/utils/prescription-parser.ts:62-80 | every record of a pattern loop is complete |
| ParserProperties.FamilyLoopComplete | client/src/utils/prescription-parser.ts:60-83 | `FamilyLoop`, the pattern loop with its `break`: every record it gives is complete |
| ParserProperties.FallbackComplete | client/src/utils/prescription-parser.ts:136-146 | `FallbackRecord`, the word-scan record: complete, thanks to its defaults |
| ParserProperties.SentenceRecordsComplete | client/src/utils/prescription-parser.ts:49-147 | every record one sentence adds is complete |
| ParserProperties.ForEachSentenceComplete | client/src/utils/prescription-parser.ts:49-148 | the sentence loop keeps a list of complete records complete |
| ParserProperties.ParseComplete | client/src/utils/prescription-parser.ts:9-152 | `Parse`, the specification of `parsePrescriptionText`: every returned record has a non-empty name, dosage, frequency and duration |
| ParserProperties.ForEachSentenceExtends | client/src/utils/prescription-parser.ts:49 | each sentence only appends, so records come in sentence order |
| ParserProperties.NonBlankOfBlanks | client/src/utils/prescription-parser.ts:47 | pieces of white space alone leave no sentences (`Sentences`, the split on terminator runs filtered by `NonBlank`) |
| ParserProperties.ParseBlank | client/src/utils/prescription-parser.ts:11-151 | a transcript of only white space and terminators, the empty one included, yields no medicines |
| ParserProperties.FirstSentenceFamily | client/src/utils/prescription-parser.ts:60-83 | with no records yet, a sentence keeps the records of the first of the three name patterns, in order, that gives any |
| ParserProperties.FamilyLoopAfterRecords | client/src/utils/prescription-parser.ts:60-82 | once the list is non-empty, only the first name pattern is tried |
| ParserProperties.LaterSentenceRecords | client/src/utils/prescription-parser.ts:49-147 | a sentence after one that gave records adds the named-drug records, then its word-scan record |
| ParserProperties.FallbackIffDrugWord | client/src/utils/prescription-parser.ts:87-99 | `FallbackRecord` gives a record exactly when some word passes the test `IsDrugWord` (more than three lower-case letters, and `Includes` of one of the infixes, JavaScript's `includes`); its name is that word capitalised; it comes last among the sentence's records |
| ParserProperties.FallbackCase | client/src/utils/prescription-parser.ts:140-146 | `FallbackFields`: the record's name, frequency and instructions are capitalised, while its dosage and duration are the found groups verbatim or their defaults |
| ParserProperties.FallbackGroups | client/src/utils/prescription-parser.ts:140-146 | the word-scan dosage and duration are the group `ScanGroup` finds whenever it is non-empty, and "As prescribed" or "As needed" only when it is empty |
| ParserProperties.NumberFrequencyReadBack | client/src/utils/prescription-parser.ts:115-120 | `NumberFrequency`: a count other than 1 to 4 gives its numeral followed by " times daily", and the numeral reads back as the count |
| ParserProperties.NumberFrequencyInjective | client/src/utils/prescription-parser.ts:115-120 | different counts give different frequencies |
| ParserProperties.ScanFrequencyCases | client/src/utils/prescription-parser.ts:108-123 | `ScanFrequency`: the frequency is empty exactly when neither the daily expression nor `N times` matches anywhere in the sentence; when the daily expression matches, it is the text of its leftmost match |
| ParserProperties.ScanFrequencyEmpty | client/src/utils/prescription-parser.ts:108-123 | the frequency is empty exactly when the search for the daily phrase and the search for `N times` both find nothing |
| ParserProperties.DurationEndsSingular | client/src/utils/prescription-parser.ts:70-77 | a duration found after a name always ends in "day" or "week", whatever follows in the text |
| ParserProperties.DurationMatchSingular | client/src/utils/prescription-parser.ts:70 | the text of each after-name duration match ends in "day" or "week" |
| Render.CalculateAge | shared/prescription/renderPrescriptionHTML.ts:4-16 | the `age--` procedure computes `Age` |
| Render.AgeIsCompletedYears | shared/prescription/renderPrescriptionHTML.ts:4-16 | `Age`, the rule of `calculateAge`: the age-th birthday has come by today and the next one has not |
| Render.AnniversaryMonotone | shared/prescription/renderPrescriptionHTML.ts:7-14 | if a later birthday has come, every earlier one has too |
| Render.AgeUnique | shared/prescription/renderPrescriptionHTML.ts:7-14 | no other count of years has that property |
| Render.AgeNonNegative | shared/prescription/renderPrescriptionHTML.ts:7-14 | the age is non-negative exactly when the birth date is not after today |
| Render.AgeBornToday | shared/prescription/renderPrescriptionHTML.ts:7-14 | someone born today is 0 |
| Render.AgeMonotone | shared/prescription/renderPrescriptionHTML.ts:7-14 | a later day never gives a smaller age |
| Render.Items | shared/prescription/renderPrescriptionHTML.ts:230-243 | one item per medicine, item `k` rendered with index `k` |
| Render.LabelInItem | shared/prescription/renderPrescriptionHTML.ts:235 | the heading `k+1. name dosage` stands inside the item |
| Render.MedicinesNumberedInOrder | shared/prescription/renderPrescriptionHTML.ts:230-244 | medicine `k` appears in the page as `k+1. name dosage`, and each heading ends before the next one starts |
| Render.InstructionsShown | shared/prescription/renderPrescriptionHTML.ts:240 | non-empty instructions appear in an `<em>` element of their item (`InstructionsElement`) |
| Render.InstructionsLength | shared/prescription/renderPrescriptionHTML.ts:240 | `InstructionsElement` adds the instructions and its tags when they are non-empty, and nothing when they are empty or absent |
| Render.NotesShown | shared/prescription/renderPrescriptionHTML.ts:247-251 | non-empty notes appear in the notes section (`NotesSection`); the section adds the notes and its tags, and nothing when the notes are empty |
| Render.SpecialtyShown | shared/prescription/renderPrescriptionHTML.ts:199 | `Specialty`, the `??` of the specialty paragraph, holds "MD" when no specialization is given, and the given one otherwise, even when empty |
| Render.AgeShown | shared/prescription/renderPrescriptionHTML.ts:212-215 | the page shows the age in completed years, followed by " years" |
| Render.HeaderNameFirst | shared/prescription/renderPrescriptionHTML.ts:197-255 | the header's naming of the doctor ends before the signature's begins |
| Render.DoctorNamedTwice | shared/prescription/renderPrescriptionHTML.ts:197-255 | `Dr. first last` appears in the header and again in the footer, in that order |
| Render.RenderedSpecialtyDefault | shared/prescription/renderPrescriptionHTML.ts:199 | `RenderPrescriptionHTML`, the page of the source text: without a specialization it contains `<p class="doctor-specialty">MD</p>` |
| ServerTemplate.Age365 | server/utils/prescriptionTemplate.ts:23-27 | the age `a` satisfies `a · 365 days ≤ now − birth < (a + 1) · 365 days` |
| ServerTemplate.Age365Unique | server/utils/prescriptionTemplate.ts:23-27 | no other count of 365-day years brackets the elapsed time |
| ServerTemplate.Age365NonNegative | server/utils/prescriptionTemplate.ts:23-27 | the age is non-negative exactly when the birth is not after now |
| ServerTemplate.Age365Monotone | server/utils/prescriptionTemplate.ts:23-27 | a later moment never gives a smaller age |
| ServerTemplate.Age365Step | server/utils/prescriptionTemplate.ts:23-27 | 365 days later the age is one more, with no leap-year adjustment |
| ServerTemplate.OrElse | server/utils/prescriptionTemplate.ts:61-62 | the logical or of JavaScript on an optional string is never empty when the fallback is not |
| ServerTemplate.OrElseChoice | server/utils/prescriptionTemplate.ts:61-62 | `OrElse` keeps a present non-empty value and gives the fallback exactly for a missing or empty one |
| ServerTemplate.Items | server/utils/prescriptionTemplate.ts:74-84 | one item per medicine, item `k` rendered with index `k` |
| ServerTemplate.LabelInItem | server/utils/prescriptionTemplate.ts:78 | the heading `k+1. name dosage` stands inside the item |
| ServerTemplate.MedicinesNumberedInOrder | server/utils/prescriptionTemplate.ts:74-84 | medicine `k` appears as `k+1. name dosage`, and each heading ends before the next one starts |
| ServerTemplate.InstructionsShown | server/utils/prescriptionTemplate.ts:80 | non-empty instructions appear in an `<em>` element of their item (`InstructionsElement`) |
| ServerTemplate.InstructionsLength | server/utils/prescriptionTemplate.ts:80 | the `<em>` element adds the instructions and its tags exactly when they are non-empty |
| ServerTemplate.DefaultsShown | server/utils/prescriptionTemplate.ts:61-62 | the page shows the specialization, or "MD" when it is missing or empty, then the license, or "N/A" when it is missing or empty |
| ServerTemplate.GeneratedDefaults | server/utils/prescriptionTemplate.ts:61-62 | `GeneratePrescriptionHTML`, the page of the source text: without a specialization and a license it shows "MD" and then "License: N/A" |
| ServerTemplate.AgeShown | server/utils/prescriptionTemplate.ts:67 | the page shows the 365-day age followed by " years" |
| ServerTemplate.HeaderNameFirst | server/utils/prescriptionTemplate.ts:59-89 | the heading's naming of the doctor ends before the signature's begins |
| ServerTemplate.DoctorNamedTwice | server/utils/prescriptionTemplate.ts:59-89 | `Dr. first last` appears in the heading and again in the signature, in that order |
| ServerTemplate.EmptySpecialtyDiffers | server/utils/prescriptionTemplate.ts:61 | an empty specialization gives "MD" here, while the shared page keeps it empty |

## Left out

- Case mapping is ASCII-only. `toLowerCase` and `toUpperCase` of other characters are left out; some of them change a string's length.
- Strings are sequences of characters, not of UTF-16 code units.
- The host regex engine is not modelled in general. Each expression of the parser is hand-coded, including its backtracking order.
- The `i` flag is not modelled, because every search runs on text that is already lower-cased.
- The unused pattern entries `dosagePatterns[1]`, `frequencyPatterns[1..3]`, `durationPatterns[1]` and `instructionPatterns[1]` are left out. Only entry 0 of each list is ever searched.
- Parsing date strings with `new Date(…)` is left out, and so are invalid dates (`NaN`). Both pages take the dates already broken down or as timestamps.
- Reading the clock is left out; the current day or moment is a parameter.
- ServerTemplate.Age365: uses exact integer division. The source divides floating-point numbers and then floors the result; that agrees with the integer division for every difference below 2^53 milliseconds.
- Text.DigitsValue: reads a digit run of any length exactly. `parseInt` loses precision above 2^53. JavaScript also prints numbers of 1e21 and above in exponent form, so the frequency text "N times daily" is modelled for such counts with all their digits.
- Text.NatToString: prints every number in full decimal. JavaScript prints numbers of 1e21 and above in exponent form, and integers above 2^53 are not exact; neither is modelled.
- Patterns.DrugNameAt: its own contract gives only the shape of the match (where it starts and ends, and its groups within it). What it matches, and that it fails only where no such text stands, are the lemmas `PatternLanguages.DrugNameSound` and `PatternLanguages.DrugNameComplete`; `PatternLanguages.DrugNameUnique` says the name group has only the one reading.
- Patterns.OfWord: its own contract gives only the shape of the match (where it starts and ends, and its groups within it). What it matches, and that it fails only where no such text stands, are the lemmas `PatternLanguages.OfWordSound` and `PatternLanguages.OfWordComplete`.
- Patterns.FormOfAt: its own contract gives only the shape of the match (where it starts and ends, and its groups within it). What it matches, and that it fails only where no such text stands, are the lemmas `PatternLanguages.FormOfSound` and `PatternLanguages.FormOfComplete`.
- Patterns.WordDoseAt: its own contract gives only the shape of the match (where it starts and ends, and its groups within it). What it matches, and that it fails only where no such text stands, are the lemmas `PatternLanguages.WordDoseSound` and `PatternLanguages.WordDoseComplete`.
- Patterns.CountUnitEnd: its own contract gives only the bounds of the match. What it matches, and that it fails only where no such text stands, are the lemmas `PatternLanguages.CountUnitSound` and `PatternLanguages.CountUnitComplete`; `PatternLanguages.CountUnitUnique` says the unit it takes is the only reading.
- Patterns.DoseEnd: its own contract gives only the shape of the match (where it starts and ends, and its groups within it). What it matches, and that it fails only where no such text stands, are the lemmas `PatternLanguages.CountUnitSound` and `PatternLanguages.CountUnitComplete`, with `PatternLanguages.CountUnitUnique` for the unit taken.
- Patterns.DoseAt: its own contract gives only the shape of the match (where it starts and ends, and its groups within it). What it matches, and that it fails only where no such text stands, are the lemmas `PatternLanguages.DoseSound` and `PatternLanguages.DoseComplete`.
- Patterns.DailyRest: its own contract gives only the shape of the match (where it starts and ends, and its groups within it). What it matches, and that it fails only where no such text stands, are the lemmas `PatternLanguages.DailyRestSound` and `PatternLanguages.DailyRestComplete`.
- Patterns.DailyAt: its own contract gives only the shape of the match (where it starts and ends, and its groups within it). What it matches, and that it fails only where no such text stands, are the lemmas `PatternLanguages.DailySound` and `PatternLanguages.DailyComplete`.
- Patterns.TimesCountAt: its own contract gives only the shape of the match (where it starts and ends, and its groups within it). What it matches, and that it fails only where no such text stands, are the lemmas `PatternLanguages.TimesCountSound` and `PatternLanguages.TimesCountComplete`.
- Patterns.DurationEnd: its own contract gives only the shape of the match (where it starts and ends, and its groups within it). What it matches, and that it fails only where no such text stands, are the lemmas `PatternLanguages.CountUnitSound` and `PatternLanguages.CountUnitComplete`, with `PatternLanguages.CountUnitUnique` for the unit taken.
- Patterns.DurationAt: its own contract gives only the shape of the match (where it starts and ends, and its groups within it). What it matches, and that it fails only where no such text stands, are the lemmas `PatternLanguages.DurationSound` and `PatternLanguages.DurationComplete`.
- Patterns.MealRest: its own contract gives only the shape of the match (where it starts and ends, and its groups within it). What it matches, and that it fails only where no such text stands, are the lemmas `PatternLanguages.MealRestSound` and `PatternLanguages.MealRestComplete`, with `PatternLanguages.MealSpanUnique` for the meal word taken.
- Patterns.PrepRest: its own contract gives only the shape of the match (where it starts and ends, and its groups within it). What it matches, and that it fails only where no such text stands, are the lemmas `PatternLanguages.PrepRestSound` and `PatternLanguages.PrepRestComplete`.
- Patterns.InstructionAt: its own contract gives only the shape of the match (where it starts and ends, and its groups within it). What it matches, and that it fails only where no such text stands, are the lemmas `PatternLanguages.InstructionSound` and `PatternLanguages.InstructionComplete`.
- Patterns.FollowingFrequencyAt: its own contract gives only the shape of the match (where it starts and ends, and its groups within it). What it matches, and that it fails only where no such text stands, are the lemmas `PatternLanguages.FollowingFrequencyComplete`, with `Patterns.FollowingFrequencyText` for what it matched.
- Patterns.FollowingDurationAt: its own contract gives only the shape of the match (where it starts and ends, and its groups within it). What it matches, and that it fails only where no such text stands, are the lemmas `PatternLanguages.FollowingDurationSound` and `PatternLanguages.FollowingDurationComplete`.
- Patterns.FollowingInstructionsAt: its own contract gives only the shape of the match (where it starts and ends, and its groups within it). What it matches, and that it fails only where no such text stands, are the lemmas `PatternLanguages.FollowingInstructionsComplete`, with `Patterns.FollowingInstructionsText` for what it matched.
- The rules of both style sheets (shared page lines 25-190, server page lines 34-55) are left out. Their text never depends on the data. The models keep the page's other fixed text as in the source.
- HTML escaping is absent from both pages because the source does none. Values are inserted verbatim.
- The React pages, the Express routes, storage, PDF and e-mail wrappers, and speech recognition are outside this model. `client/src/utils/pdf-generator.ts` is not part of this model; its `calculateAge` is the same rule as the shared page's.
- PrescriptionParser.RecordsOf: its contract gives only the length. Its per-record content is the lemma `ParserProperties.RecordsOfAt`.
