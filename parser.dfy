/**
 * `parsePrescriptionText` and `capitalizeFirst` of
 * client/src/utils/prescription-parser.ts: a transcript is lower-cased and
 * trimmed, split into sentences at runs of `.`, `!` and `?`, and every
 * sentence is searched with three name patterns (each match gives a record
 * whose other fields come from the text after the match) and then by a word
 * scan that gives at most one more record from whole-sentence patterns.
 *
 * The specification is the function `Parse`; the method
 * `ParsePrescriptionText` is the source's imperative procedure, proved equal
 * to it.
 */
module PrescriptionParser {
  import opened Wrappers
  import opened Text
  import opened Patterns

  /** One extracted medicine (the `ParsedMedicine` interface). */
  datatype ParsedMedicine = ParsedMedicine(
    name: string, dosage: string, frequency: string, duration: string, instructions: string)

  /** `capitalizeFirst`: first character upper-cased, the rest lower-cased. */
  function CapitalizeFirst(str: string): (r: string)
    ensures |r| == |str|
    ensures str != [] ==> r[0] == UpperChar(str[0])
    ensures forall k :: 1 <= k < |r| ==> r[k] == LowerChar(str[k])
  {
    if str == "" then "" else [UpperChar(str[0])] + Lower(str[1..])
  }

  lemma CapitalizeFirstIdempotent(str: string)
    ensures CapitalizeFirst(CapitalizeFirst(str)) == CapitalizeFirst(str)
  {
    var once := CapitalizeFirst(str);
    var twice := CapitalizeFirst(once);
    if str != "" {
      assert twice[0] == once[0] by {
        assert !IsLowerAlpha(once[0]);
      }
      forall k | 1 <= k < |str| ensures twice[k] == once[k] {
        assert !IsUpperAlpha(once[k]);
      }
    }
  }

  /** `x || fallback` on strings: a non-empty string is truthy and kept, the empty one is replaced. */
  function OrDefault(x: string, fallback: string): (r: string)
    ensures x != "" ==> r == x
    ensures x == "" ==> r == fallback
    ensures r == "" <==> x == "" && fallback == ""
  {
    if x == "" then fallback else x
  }

  predicate IsTerminator(c: char) {
    c == '.' || c == '!' || c == '?'
  }

  /** `.filter(s => s.trim().length > 0)` */
  function NonBlank(pieces: seq<string>): (r: seq<string>)
    ensures forall k :: 0 <= k < |r| ==> Trim(r[k]) != ""
    ensures |r| <= |pieces|
  {
    if pieces == [] then []
    else if Trim(pieces[0]) != "" then [pieces[0]] + NonBlank(pieces[1..])
    else NonBlank(pieces[1..])
  }

  /** The sentences of a normalised transcript (line 47). */
  function Sentences(cleanText: string): seq<string> {
    NonBlank(SplitRuns(cleanText, IsTerminator))
  }

  /** The record a name-pattern match pushes (lines 63-79): its fields come from the text after the match. */
  function LoopRecord(s: string, m: Match): ParsedMedicine
    requires WellFormed(s, m)
  {
    var name := OrDefault(First(s, m), Whole(s, m));
    var dosage := match Second(s, m) case None => "As prescribed" case Some(d) => OrDefault(d, "As prescribed");
    var after := s[m.end..];
    ParsedMedicine(CapitalizeFirst(name), dosage, FrequencyAfter(after), DurationAfter(after), InstructionsAfter(after))
  }

  function RecordsOf(s: string, ms: seq<Match>): (r: seq<ParsedMedicine>)
    requires forall k :: 0 <= k < |ms| ==> WellFormed(s, ms[k])
    ensures |r| == |ms|
  {
    if ms == [] then [] else [LoopRecord(s, ms[0])] + RecordsOf(s, ms[1..])
  }

  /** The records one `while (exec)` loop of a name pattern pushes, starting at `lastIndex == from`. */
  function PatternRecords(at: nat -> Option<Match>, s: string, from: nat): seq<ParsedMedicine>
    requires ValidMatcher(at, s)
  {
    RecordsOf(s, Execs(at, s, from))
  }

  /** A record for the leftmost match, then the records of the searches after it. */
  lemma PatternRecordsStep(at: nat -> Option<Match>, s: string, from: nat)
    requires ValidMatcher(at, s)
    ensures Exec(at, s, from).None? ==> PatternRecords(at, s, from) == []
    ensures Exec(at, s, from).Some? ==>
      PatternRecords(at, s, from) ==
        [LoopRecord(s, Exec(at, s, from).value)] + PatternRecords(at, s, Exec(at, s, from).value.end)
  {
    var ms := Execs(at, s, from);
    if Exec(at, s, from).Some? {
      assert ms[1..] == Execs(at, s, Exec(at, s, from).value.end);
    }
  }

  /** `medicinePatterns` over `s`, in the order they are tried. */
  function MedicinePatterns(s: string): (r: seq<nat -> Option<Match>>)
    ensures |r| == 3 && AllValid(r, s)
  {
    [DrugNameMatcher(s), FormOfMatcher(s), WordDoseMatcher(s)]
  }

  lemma AppendAssoc<T>(a: seq<T>, b: seq<T>, c: seq<T>)
    ensures (a + b) + c == a + (b + c)
  {
  }

  /** Every expression of `patterns` is a matcher over `s`. */
  predicate AllValid(patterns: seq<nat -> Option<Match>>, s: string) {
    forall k :: 0 <= k < |patterns| ==> ValidMatcher(patterns[k], s)
  }

  /**
   * The `for (const pattern of patterns)` loop from pattern `f` on, when
   * `before` records were pushed before it: the loop stops after a pattern
   * once the whole call's list is non-empty.
   */
  function FamilyLoop(patterns: seq<nat -> Option<Match>>, s: string, f: nat, before: nat): seq<ParsedMedicine>
    requires AllValid(patterns, s)
    decreases |patterns| - f
  {
    if f >= |patterns| then []
    else
      var r := PatternRecords(patterns[f], s, 0);
      if before + |r| > 0 then r else r + FamilyLoop(patterns, s, f + 1, before + |r|)
  }

  const Infixes: seq<string> := ["cillin", "phen", "stat", "zole", "pine", "pril"]

  /** `word.includes(sub)` */
  predicate Includes(word: string, sub: string) {
    exists p :: 0 <= p <= |word| - |sub| && StartsAt(word, p, sub)
  }

  /** The test of the word scan (lines 90-92). */
  predicate IsDrugWord(word: string) {
    |word| > 3 &&
    (forall k :: 0 <= k < |word| ==> IsLowerAlpha(word[k])) &&
    exists k :: 0 <= k < |Infixes| && Includes(word, Infixes[k])
  }

  /** The first word that passes the word scan's test. */
  function FirstDrugWord(words: seq<string>): (r: Option<string>)
    ensures r.None? <==> forall k :: 0 <= k < |words| ==> !IsDrugWord(words[k])
    ensures r.Some? ==> exists k :: 0 <= k < |words| && words[k] == r.value && IsDrugWord(r.value) &&
                               (forall j :: 0 <= j < k ==> !IsDrugWord(words[j]))
  {
    if words == [] then None
    else if IsDrugWord(words[0]) then Some(words[0])
    else
      var r := FirstDrugWord(words[1..]);
      assert forall k :: 1 <= k < |words| ==> words[k] == words[1..][k - 1];
      if r.Some? then
        var k :| 0 <= k < |words[1..]| && words[1..][k] == r.value && IsDrugWord(r.value) &&
                 (forall j :: 0 <= j < k ==> !IsDrugWord(words[1..][j]));
        assert words[k + 1] == r.value;
        r
      else r
  }

  /** The frequency the numeric fallback gives for `N times` (lines 115-120). */
  function NumberFrequency(num: nat): string {
    if num == 1 then "Once daily"
    else if num == 2 then "Twice daily"
    else if num == 3 then "Three times daily"
    else if num == 4 then "Four times daily"
    else NatToString(num) + " times daily"
  }

  /** The frequency text the word scan finds (lines 108-122), "" when none. */
  function ScanFrequency(s: string): string {
    match Exec(DailyMatcher(s), s, 0)
    case Some(m) => Whole(s, m)
    case None =>
      match Exec(TimesCountMatcher(s), s, 0)
      case None => ""
      case Some(n) => NumberFrequency(DigitsValue(First(s, n)))
  }

  /** The first group of the leftmost match of `at` in `s`, "" when none. */
  function ScanGroup(at: nat -> Option<Match>, s: string): string
    requires ValidMatcher(at, s)
  {
    match Exec(at, s, 0)
    case None => ""
    case Some(m) => First(s, m)
  }

  /** The record the word scan pushes for the drug word `name` (lines 99-146). */
  function FallbackFields(s: string, name: string): ParsedMedicine {
    ParsedMedicine(
      CapitalizeFirst(name),
      OrDefault(ScanGroup(DoseMatcher(s), s), "As prescribed"),
      CapitalizeFirst(OrDefault(ScanFrequency(s), "As directed")),
      OrDefault(ScanGroup(DurationMatcher(s), s), "As needed"),
      CapitalizeFirst(ScanGroup(InstructionMatcher(s), s)))
  }

  /** The word-scan record of a sentence (lines 87-147), if some word passes the test. */
  function FallbackRecord(s: string): Option<ParsedMedicine> {
    match FirstDrugWord(SplitRuns(s, IsWhite))
    case None => None
    case Some(name) => Some(FallbackFields(s, name))
  }

  function OptionToSeq<T>(o: Option<T>): (r: seq<T>)
    ensures |r| <= 1
  {
    match o
    case None => []
    case Some(x) => [x]
  }

  /** What one trimmed sentence adds when `before` records are already in the list. */
  function SentenceRecords(s: string, before: nat): seq<ParsedMedicine> {
    FamilyLoop(MedicinePatterns(s), s, 0, before) + OptionToSeq(FallbackRecord(s))
  }

  /**
   * `sentences.forEach` from sentence `k` on, when `acc` holds the records
   * of the sentences before it.
   */
  function ForEachSentence(sentences: seq<string>, k: nat, acc: seq<ParsedMedicine>): seq<ParsedMedicine>
    decreases |sentences| - k, 1
  {
    if k >= |sentences| then acc else SentenceStep(sentences, k, acc)
  }

  /** Sentence `k` adds its records, then the rest of the sentences are processed. */
  function SentenceStep(sentences: seq<string>, k: nat, acc: seq<ParsedMedicine>): seq<ParsedMedicine>
    requires k < |sentences|
    decreases |sentences| - k, 0
  {
    ForEachSentence(sentences, k + 1, acc + SentenceRecords(Trim(sentences[k]), |acc|))
  }

  /** `parsePrescriptionText(text)` */
  function Parse(text: string): seq<ParsedMedicine> {
    ForEachSentence(Sentences(Trim(Lower(text))), 0, [])
  }

  /**
   * The `lastIndex` of each global-flagged expression of one call: the three
   * name patterns and the first dosage, frequency, duration and instruction
   * patterns.
   */
  datatype LastIndexes = LastIndexes(
    medicine: seq<nat>, dosage: nat, frequency: nat, duration: nat, instruction: nat)
  {
    predicate AllReset() {
      medicine == [0, 0, 0] && dosage == 0 && frequency == 0 && duration == 0 && instruction == 0
    }
  }

  /** The body of the `while (exec)` loop for match `m` (lines 63-79): the record it pushes. */
  method BuildRecord(s: string, m: Match) returns (record: ParsedMedicine)
    requires WellFormed(s, m)
    ensures record == LoopRecord(s, m)
  {
    // these two are constants local to the loop body: the sentence's own
    // `medicineName` and `dosage` are not changed
    var medicineName := OrDefault(First(s, m), Whole(s, m));
    var dosage := match Second(s, m) case None => "As prescribed" case Some(d) => OrDefault(d, "As prescribed");
    var afterMedicineText := s[m.end..];
    var frequencyMatch := Exec(FollowingFrequencyMatcher(afterMedicineText), afterMedicineText, 0);
    var durationMatch := Exec(FollowingDurationMatcher(afterMedicineText), afterMedicineText, 0);
    var instructionsMatch := Exec(FollowingInstructionsMatcher(afterMedicineText), afterMedicineText, 0);
    record := ParsedMedicine(
      CapitalizeFirst(medicineName),
      dosage,
      if frequencyMatch.Some? then Whole(afterMedicineText, frequencyMatch.value) else "As directed",
      if durationMatch.Some? then Whole(afterMedicineText, durationMatch.value) else "As needed",
      if instructionsMatch.Some? then Whole(afterMedicineText, instructionsMatch.value) else "");
  }

  /**
   * One `while ((match = pattern.exec(s)) !== null)` loop (lines 61-81),
   * starting from the pattern's `lastIndex`; it leaves `lastIndex` at 0.
   */
  method RunPattern(pattern: nat -> Option<Match>, s: string, medicines: seq<ParsedMedicine>, lastIndex: nat)
    returns (pushed: seq<ParsedMedicine>, lastIndexAfter: nat)
    requires ValidMatcher(pattern, s)
    ensures pushed == medicines + PatternRecords(pattern, s, lastIndex)
    ensures lastIndexAfter == 0
  {
    pushed := medicines;
    var last := lastIndex;
    var done := false;
    while !done
      invariant done ==> last == 0
      invariant medicines + PatternRecords(pattern, s, lastIndex) ==
        pushed + (if done then [] else PatternRecords(pattern, s, last))
      decreases if done then 0 else 1, |s| + 1 - last
    {
      var match_ := Exec(pattern, s, last);
      if match_.None? {
        PatternRecordsStep(pattern, s, last);
        // a failing exec resets lastIndex
        last := 0;
        done := true;
      } else {
        var m := match_.value;
        var record := BuildRecord(s, m);
        PatternRecordsStep(pattern, s, last);
        AppendAssoc(pushed, [record], PatternRecords(pattern, s, m.end));
        pushed := pushed + [record];
        last := m.end;
      }
    }
    lastIndexAfter := 0;
  }

  /** The `for (const word of words)` scan with its `break` (lines 88-96). */
  method ScanWords(words: seq<string>) returns (medicineName: string)
    ensures medicineName == match FirstDrugWord(words) case None => "" case Some(w) => w
  {
    medicineName := "";
    for i := 0 to |words|
      invariant medicineName == ""
      invariant FirstDrugWord(words) == FirstDrugWord(words[i..])
    {
      assert words[i..][1..] == words[i + 1..];
      if IsDrugWord(words[i]) {
        medicineName := words[i];
        break;
      }
    }
  }

  /** `if (!dosage)` (lines 101-105): the dosage the first dosage pattern finds, "" when none. */
  method ExtractDosage(s: string, lastIndex: nat) returns (dosage: string, lastIndexAfter: nat)
    requires lastIndex == 0
    ensures dosage == ScanGroup(DoseMatcher(s), s)
    ensures lastIndexAfter == 0
  {
    dosage := "";
    lastIndexAfter := lastIndex;
    var dosageMatch := Exec(DoseMatcher(s), s, lastIndexAfter);
    if dosageMatch.Some? {
      dosage := First(s, dosageMatch.value);
      lastIndexAfter := dosageMatch.value.end;
    }
    lastIndexAfter := 0;
  }

  /** Lines 108-123: the frequency the first frequency pattern, or else an `N times`, gives; "" when none. */
  method ExtractFrequency(s: string, lastIndex: nat) returns (frequency: string, lastIndexAfter: nat)
    requires lastIndex == 0
    ensures frequency == ScanFrequency(s)
    ensures lastIndexAfter == 0
  {
    frequency := "";
    lastIndexAfter := lastIndex;
    var frequencyMatch := Exec(DailyMatcher(s), s, lastIndexAfter);
    if frequencyMatch.Some? {
      frequency := Whole(s, frequencyMatch.value);
      lastIndexAfter := frequencyMatch.value.end;
    } else {
      // a fresh expression each time, so its search starts at 0
      var numberMatch := Exec(TimesCountMatcher(s), s, 0);
      if numberMatch.Some? {
        var num := DigitsValue(First(s, numberMatch.value));
        if num == 1 {
          frequency := "Once daily";
        } else if num == 2 {
          frequency := "Twice daily";
        } else if num == 3 {
          frequency := "Three times daily";
        } else if num == 4 {
          frequency := "Four times daily";
        } else {
          frequency := NatToString(num) + " times daily";
        }
      }
    }
    lastIndexAfter := 0;
  }

  /** Lines 126-128 and 131-133: the first group of the leftmost match of a global expression, "" when none. */
  method ExtractGroup(pattern: nat -> Option<Match>, s: string, lastIndex: nat)
    returns (text: string, lastIndexAfter: nat)
    requires ValidMatcher(pattern, s) && lastIndex == 0
    ensures text == ScanGroup(pattern, s)
    ensures lastIndexAfter == 0
  {
    text := "";
    lastIndexAfter := lastIndex;
    var m := Exec(pattern, s, lastIndexAfter);
    if m.Some? {
      text := First(s, m.value);
      lastIndexAfter := m.value.end;
    }
    lastIndexAfter := 0;
  }

  /**
   * The extraction that follows a word-scan hit (lines 99-146), each
   * expression's `lastIndex` taken from `li` and reset after its search.
   */
  method ExtractFallback(s: string, medicineName: string, li: LastIndexes)
    returns (record: ParsedMedicine, li': LastIndexes)
    requires li.AllReset()
    ensures record == FallbackFields(s, medicineName)
    ensures li'.AllReset()
  {
    li' := li;
    // the loop's `dosage` was a constant of its own, so this one is still ""
    var dosage := "";
    if dosage == "" {
      var last;
      dosage, last := ExtractDosage(s, li'.dosage);
      li' := li'.(dosage := last);
    }
    var frequency, duration, instructions, last;
    frequency, last := ExtractFrequency(s, li'.frequency);
    li' := li'.(frequency := last);
    duration, last := ExtractGroup(DurationMatcher(s), s, li'.duration);
    li' := li'.(duration := last);
    instructions, last := ExtractGroup(InstructionMatcher(s), s, li'.instruction);
    li' := li'.(instruction := last);

    if frequency == "" { frequency := "As directed"; }
    if duration == "" { duration := "As needed"; }
    if dosage == "" { dosage := "As prescribed"; }

    record := ParsedMedicine(
      CapitalizeFirst(medicineName),
      dosage,
      CapitalizeFirst(frequency),
      duration,
      CapitalizeFirst(instructions));
  }

  /**
   * The `for (const pattern of medicinePatterns)` loop (lines 60-83) over the
   * trimmed sentence `s`, the `lastIndex` of pattern `k` being `li.medicine[k]`.
   */
  method RunMedicinePatterns(patterns: seq<nat -> Option<Match>>, s: string,
                             medicines: seq<ParsedMedicine>, li: LastIndexes)
    returns (medicines': seq<ParsedMedicine>, li': LastIndexes)
    requires AllValid(patterns, s)
    requires |li.medicine| == |patterns| && forall k :: 0 <= k < |patterns| ==> li.medicine[k] == 0
    ensures medicines' == medicines + FamilyLoop(patterns, s, 0, |medicines|)
    ensures li' == li
  {
    medicines' := medicines;
    li' := li;
    var f := 0;
    while f < |patterns|
      invariant f <= |patterns|
      invariant li' == li
      invariant medicines + FamilyLoop(patterns, s, 0, |medicines|) ==
        medicines' + FamilyLoop(patterns, s, f, |medicines'|)
    {
      ghost var before := medicines';
      var last;
      medicines', last := RunPattern(patterns[f], s, medicines', li'.medicine[f]);
      li' := li'.(medicine := li'.medicine[f := last]);
      if |medicines'| > 0 {
        break;
      }
      AppendAssoc(before, PatternRecords(patterns[f], s, 0), FamilyLoop(patterns, s, f + 1, |medicines'|));
      f := f + 1;
    }
  }

  /** The body of `sentences.forEach` (lines 50-147) for sentence `k`, trimmed. */
  method ParseSentence(sentences: seq<string>, k: nat, medicines: seq<ParsedMedicine>, li: LastIndexes)
    returns (medicines': seq<ParsedMedicine>, li': LastIndexes)
    requires k < |sentences| && li.AllReset()
    ensures medicines' == medicines + SentenceRecords(Trim(sentences[k]), |medicines|)
    ensures ForEachSentence(sentences, k + 1, medicines') == ForEachSentence(sentences, k, medicines)
    ensures li'.AllReset()
  {
    var s := Trim(sentences[k]);
    // the sentence's own `medicineName`; the loop above declares its own
    var medicineName := "";
    medicines', li' := RunMedicinePatterns(MedicinePatterns(s), s, medicines, li);
    if medicineName == "" {
      var words := SplitRuns(s, IsWhite);
      medicineName := ScanWords(words);
    }
    if medicineName != "" {
      var record;
      record, li' := ExtractFallback(s, medicineName, li');
      AppendAssoc(medicines, FamilyLoop(MedicinePatterns(s), s, 0, |medicines|), [record]);
      medicines' := medicines' + [record];
    }
    assert medicines' == medicines + SentenceRecords(s, |medicines|);
    assert ForEachSentence(sentences, k, medicines) == SentenceStep(sentences, k, medicines);
  }

  /**
   * `parsePrescriptionText`. The `lastIndex` of every expression is 0
   * whenever a search with it begins.
   */
  method ParsePrescriptionText(text: string) returns (medicines: seq<ParsedMedicine>)
    ensures medicines == Parse(text)
  {
    medicines := [];
    var cleanText := Trim(Lower(text));
    var li := LastIndexes([0, 0, 0], 0, 0, 0, 0);
    var sentences := Sentences(cleanText);
    var k := 0;
    while k < |sentences|
      invariant k <= |sentences|
      invariant ForEachSentence(sentences, k, medicines) == Parse(text)
      invariant li.AllReset()
    {
      medicines, li := ParseSentence(sentences, k, medicines, li);
      k := k + 1;
    }
  }
}
