/**
 * What `parsePrescriptionText` promises about the records it returns: the
 * shape of each field, that every record is complete, the order in which
 * the name patterns are tried, and what the numeric frequency fallback
 * produces.
 */
module ParserProperties {
  import opened Wrappers
  import opened Text
  import opened Patterns
  import opened PrescriptionParser
  import opened PatternLanguages

  /** Record `k` of the records of a run of matches is the record of match `k`. */
  lemma {:induction false} RecordsOfAt(s: string, ms: seq<Match>, k: nat)
    requires forall j :: 0 <= j < |ms| ==> WellFormed(s, ms[j])
    requires k < |ms|
    ensures RecordsOf(s, ms)[k] == LoopRecord(s, ms[k])
    decreases k
  {
    if k > 0 {
      assert forall j :: 0 <= j < |ms[1..]| ==> ms[1..][j] == ms[j + 1];
      RecordsOfAt(s, ms[1..], k - 1);
    }
  }

  // The fields of a record pushed for a name-pattern match (lines 63-79).

  /** The name is the first group, or the whole match when the group is empty; it is never empty. */
  lemma LoopName(s: string, m: Match)
    requires WellFormed(s, m)
    ensures var r := LoopRecord(s, m);
      r.name != "" &&
      (First(s, m) != "" ==> r.name == CapitalizeFirst(First(s, m))) &&
      (First(s, m) == "" ==> r.name == CapitalizeFirst(Whole(s, m)))
  {
    assert |Whole(s, m)| == m.end - m.start;
  }

  /** The dosage is the second group when it is present and non-empty, "As prescribed" otherwise. */
  lemma LoopDosage(s: string, m: Match)
    requires WellFormed(s, m)
    ensures var r := LoopRecord(s, m);
      (r.dosage == "As prescribed" && (Second(s, m).None? || Second(s, m) == Some(""))) ||
      (r.dosage != "" && Second(s, m) == Some(r.dosage))
  {
  }

  /** Text that occurs in the suffix of `s` from `e` occurs in `s` at or after `e`. */
  lemma OccursInSuffix(s: string, e: nat, x: string)
    requires e <= |s| && exists p :: OccursAt(s[e..], x, p)
    ensures exists p :: e <= p && OccursAt(s, x, p)
  {
    var p: nat :| OccursAt(s[e..], x, p);
    assert s[e..][p..p + |x|] == s[e + p..e + p + |x|];
    assert OccursAt(s, x, e + p);
  }

  // The frequency, duration and instructions of a loop record are their
  // defaults or text found in the sentence after the match.

  lemma LoopFrequencyAfter(s: string, m: Match)
    requires WellFormed(s, m)
    ensures var f := LoopRecord(s, m).frequency;
      f != "As directed" ==> exists p :: m.end <= p && OccursAt(s, f, p)
  {
    var f := LoopRecord(s, m).frequency;
    if f != "As directed" {
      OccursInSuffix(s, m.end, f);
    }
  }

  lemma LoopDurationAfter(s: string, m: Match)
    requires WellFormed(s, m)
    ensures var d := LoopRecord(s, m).duration;
      d != "As needed" ==> exists p :: m.end <= p && OccursAt(s, d, p)
  {
    var d := LoopRecord(s, m).duration;
    if d != "As needed" {
      OccursInSuffix(s, m.end, d);
    }
  }

  lemma LoopInstructionsAfter(s: string, m: Match)
    requires WellFormed(s, m)
    ensures var t := LoopRecord(s, m).instructions;
      t != "" ==> exists p :: m.end <= p && OccursAt(s, t, p)
  {
    var t := LoopRecord(s, m).instructions;
    if t != "" {
      OccursInSuffix(s, m.end, t);
    }
  }

  // Every record the parser returns is complete.

  /** Name, dosage, frequency and duration are all present (only instructions may be empty). */
  predicate Complete(r: ParsedMedicine) {
    r.name != "" && r.dosage != "" && r.frequency != "" && r.duration != ""
  }

  predicate AllComplete(rs: seq<ParsedMedicine>) {
    forall k :: 0 <= k < |rs| ==> Complete(rs[k])
  }

  lemma LoopRecordComplete(s: string, m: Match)
    requires WellFormed(s, m)
    ensures Complete(LoopRecord(s, m))
  {
    LoopName(s, m);
  }

  lemma RecordsOfComplete(s: string, ms: seq<Match>)
    requires forall j :: 0 <= j < |ms| ==> WellFormed(s, ms[j])
    ensures AllComplete(RecordsOf(s, ms))
  {
    forall k | 0 <= k < |RecordsOf(s, ms)| ensures Complete(RecordsOf(s, ms)[k]) {
      RecordsOfAt(s, ms, k);
      LoopRecordComplete(s, ms[k]);
    }
  }

  lemma {:induction false} FamilyLoopComplete(patterns: seq<nat -> Option<Match>>, s: string, f: nat, before: nat)
    requires AllValid(patterns, s)
    ensures AllComplete(FamilyLoop(patterns, s, f, before))
    decreases |patterns| - f
  {
    if f < |patterns| {
      var r := PatternRecords(patterns[f], s, 0);
      RecordsOfComplete(s, Execs(patterns[f], s, 0));
      if before + |r| == 0 {
        FamilyLoopComplete(patterns, s, f + 1, before + |r|);
      }
    }
  }

  /** A word-scan record has the drug word as its name and defaults for the fields it does not find. */
  lemma FallbackComplete(s: string)
    ensures FallbackRecord(s).Some? ==> Complete(FallbackRecord(s).value)
  {
    match FirstDrugWord(SplitRuns(s, IsWhite))
    case None =>
    case Some(name) =>
      assert |name| > 3;
      assert |CapitalizeFirst(OrDefault(ScanFrequency(s), "As directed"))| > 0;
  }

  lemma SentenceRecordsComplete(s: string, before: nat)
    ensures AllComplete(SentenceRecords(s, before))
  {
    FamilyLoopComplete(MedicinePatterns(s), s, 0, before);
    FallbackComplete(s);
  }

  lemma {:induction false} ForEachSentenceComplete(sentences: seq<string>, k: nat, acc: seq<ParsedMedicine>)
    requires AllComplete(acc)
    ensures AllComplete(ForEachSentence(sentences, k, acc))
    decreases |sentences| - k
  {
    if k < |sentences| {
      var s := Trim(sentences[k]);
      SentenceRecordsComplete(s, |acc|);
      ForEachSentenceComplete(sentences, k + 1, acc + SentenceRecords(s, |acc|));
    }
  }

  /** Every medicine `parsePrescriptionText` returns has a name, a dosage, a frequency and a duration. */
  lemma ParseComplete(text: string)
    ensures AllComplete(Parse(text))
  {
    ForEachSentenceComplete(Sentences(Trim(Lower(text))), 0, []);
  }

  // The order of the list.

  /** Each sentence only appends to the records of the sentences before it. */
  lemma {:induction false} ForEachSentenceExtends(sentences: seq<string>, k: nat, acc: seq<ParsedMedicine>)
    ensures acc <= ForEachSentence(sentences, k, acc)
    decreases |sentences| - k
  {
    if k < |sentences| {
      var acc' := acc + SentenceRecords(Trim(sentences[k]), |acc|);
      ForEachSentenceExtends(sentences, k + 1, acc');
      assert acc <= acc';
    }
  }

  /** Pieces made of white space alone are all dropped as blank. */
  lemma {:induction false} NonBlankOfBlanks(pieces: seq<string>)
    requires forall k, c :: 0 <= k < |pieces| && c in pieces[k] ==> IsWhite(c)
    ensures NonBlank(pieces) == []
  {
    if pieces != [] {
      var p := pieces[0];
      assert forall k :: 0 <= k < |p| ==> IsWhite(p[k]) by {
        forall k | 0 <= k < |p| ensures IsWhite(p[k]) {
          assert p[k] in pieces[0];
        }
      }
      assert forall k, c :: 0 <= k < |pieces[1..]| && c in pieces[1..][k] ==> IsWhite(c) by {
        forall k, c | 0 <= k < |pieces[1..]| && c in pieces[1..][k] ensures IsWhite(c) {
          assert pieces[1..][k] == pieces[k + 1];
        }
      }
      NonBlankOfBlanks(pieces[1..]);
    }
  }

  /** `kept` is `items` at the positions `idx`. */
  ghost predicate PicksAt(kept: seq<string>, items: seq<string>, idx: seq<nat>) {
    |idx| == |kept| && forall k :: 0 <= k < |idx| ==> idx[k] < |items| && kept[k] == items[idx[k]]
  }

  ghost predicate Increasing(idx: seq<nat>) {
    forall k, l :: 0 <= k < l < |idx| ==> idx[k] < idx[l]
  }

  /** Every item that `keep` accepts is at one of the positions `idx`. */
  ghost predicate Covers(items: seq<string>, idx: seq<nat>, keep: string -> bool) {
    forall j :: 0 <= j < |items| && keep(items[j]) ==> j in idx
  }

  /** `kept` is `items` at increasing positions, among them every item `keep` accepts. */
  ghost predicate Selects(kept: seq<string>, items: seq<string>, idx: seq<nat>, keep: string -> bool) {
    PicksAt(kept, items, idx) && Increasing(idx) && Covers(items, idx, keep)
  }

  /** Shifting every position of a selection from `items` selects the same from `[x] + items`. */
  lemma ShiftSelection(x: string, items: seq<string>, kept: seq<string>, idx: seq<nat>, keep: string -> bool)
    requires Selects(kept, items, idx, keep)
    ensures PicksAt(kept, [x] + items, ShiftedUp(idx)) && Increasing(ShiftedUp(idx))
    ensures forall j :: 1 <= j < |items| + 1 && keep(([x] + items)[j]) ==> j in ShiftedUp(idx)
  {
    var all := [x] + items;
    var up := ShiftedUp(idx);
    forall k | 0 <= k < |up| ensures up[k] < |all| && kept[k] == all[up[k]] {
      assert all[idx[k] + 1] == items[idx[k]];
    }
    forall k, l | 0 <= k < l < |up| ensures up[k] < up[l] {
      assert idx[k] < idx[l];
    }
    forall j | 1 <= j < |all| && keep(all[j]) ensures j in up {
      assert all[j] == items[j - 1];
      var k :| 0 <= k < |idx| && idx[k] == j - 1;
      assert up[k] == j;
    }
  }

  /** Adding position 0 in front of a selection from `[x] + items` that leaves 0 out also takes `x`. */
  lemma TakeFirst(x: string, all: seq<string>, kept: seq<string>, up: seq<nat>)
    requires all != [] && all[0] == x
    requires PicksAt(kept, all, up) && Increasing(up)
    requires forall k :: 0 <= k < |up| ==> up[k] > 0
    ensures PicksAt([x] + kept, all, [0] + up) && Increasing([0] + up)
    ensures forall j :: 0 <= j < |up| ==> ([0] + up)[j + 1] == up[j]
  {
    var with := [0] + up;
    var keptWith := [x] + kept;
    forall k | 0 <= k < |with| ensures with[k] < |all| && keptWith[k] == all[with[k]] {
      if k > 0 {
        assert with[k] == up[k - 1] && keptWith[k] == kept[k - 1];
      }
    }
    forall k, l | 0 <= k < l < |with| ensures with[k] < with[l] {
      assert with[l] == up[l - 1];
      if k > 0 {
        assert with[k] == up[k - 1];
      }
    }
  }

  /** An accepted `x` is taken, at position 0. */
  lemma SelectsTake(x: string, items: seq<string>, kept: seq<string>, idx: seq<nat>, keep: string -> bool)
    requires Selects(kept, items, idx, keep) && keep(x)
    ensures Selects([x] + kept, [x] + items, [0] + ShiftedUp(idx), keep)
  {
    var all := [x] + items;
    var up := ShiftedUp(idx);
    ShiftSelection(x, items, kept, idx, keep);
    TakeFirst(x, all, kept, up);
    var with := [0] + up;
    forall j | 0 <= j < |all| && keep(all[j]) ensures j in with {
      if j == 0 {
        assert with[0] == 0;
      } else {
        var k :| 0 <= k < |up| && up[k] == j;
        assert with[k + 1] == j;
      }
    }
  }

  /** A refused `x` is left out, and the other positions move up by one. */
  lemma SelectsSkip(x: string, items: seq<string>, kept: seq<string>, idx: seq<nat>, keep: string -> bool)
    requires Selects(kept, items, idx, keep) && !keep(x)
    ensures Selects(kept, [x] + items, ShiftedUp(idx), keep)
  {
    var all := [x] + items;
    ShiftSelection(x, items, kept, idx, keep);
    assert all[0] == x;
  }

  /** Every position one further on. */
  function ShiftedUp(idx: seq<nat>): (r: seq<nat>)
    ensures |r| == |idx| && forall k :: 0 <= k < |r| ==> r[k] == idx[k] + 1
  {
    seq(|idx|, k requires 0 <= k < |idx| => idx[k] + 1)
  }

  /** The test of the sentence filter (line 47). */
  predicate IsNonBlankPiece(p: string) {
    Trim(p) != ""
  }

  /**
   * `filter` keeps every non-blank piece, in order: with NonBlank's own
   * contract (all it keeps is non-blank), it keeps exactly the non-blank
   * pieces, in their order (line 47).
   */
  lemma NonBlankSelects(pieces: seq<string>)
    ensures exists idx :: Selects(NonBlank(pieces), pieces, idx, IsNonBlankPiece)
  {
    NonBlankSelectsAt(pieces);
  }

  /** The positions of the pieces that are not blank, in order. */
  function NonBlankPositions(pieces: seq<string>): seq<nat> {
    if pieces == [] then []
    else
      var up := ShiftedUp(NonBlankPositions(pieces[1..]));
      if IsNonBlankPiece(pieces[0]) then [0] + up else up
  }

  lemma {:induction false} NonBlankSelectsAt(pieces: seq<string>)
    ensures Selects(NonBlank(pieces), pieces, NonBlankPositions(pieces), IsNonBlankPiece)
  {
    if pieces == [] {
      assert Selects(NonBlank(pieces), pieces, [], IsNonBlankPiece);
    } else {
      var x, tail := pieces[0], pieces[1..];
      var kept, idx := NonBlank(tail), NonBlankPositions(tail);
      NonBlankSelectsAt(tail);
      assert [x] + tail == pieces;
      if IsNonBlankPiece(x) {
        SelectsTake(x, tail, kept, idx, IsNonBlankPiece);
        assert NonBlank(pieces) == [x] + kept && NonBlankPositions(pieces) == [0] + ShiftedUp(idx);
      } else {
        SelectsSkip(x, tail, kept, idx, IsNonBlankPiece);
        assert NonBlank(pieces) == kept && NonBlankPositions(pieces) == ShiftedUp(idx);
      }
    }
  }

  /**
   * A transcript of white space and sentence terminators alone (the empty
   * one among them) gives no medicines.
   */
  lemma ParseBlank(text: string)
    requires forall k :: 0 <= k < |text| ==> IsWhite(text[k]) || IsTerminator(text[k])
    ensures Parse(text) == []
  {
    var lowered := Lower(text);
    assert forall k :: 0 <= k < |lowered| ==> IsWhite(lowered[k]) || IsTerminator(lowered[k]) by {
      forall k | 0 <= k < |lowered| ensures IsWhite(lowered[k]) || IsTerminator(lowered[k]) {
        assert lowered[k] == LowerChar(text[k]);
      }
    }
    var clean := Trim(lowered);
    assert forall c :: c in clean ==> IsWhite(c) || IsTerminator(c) by {
      forall c | c in clean ensures IsWhite(c) || IsTerminator(c) {
        assert c in lowered;
        var k :| 0 <= k < |lowered| && lowered[k] == c;
      }
    }
    NonBlankOfBlanks(SplitRuns(clean, IsTerminator));
  }

  // Which name patterns a sentence tries (lines 60-83). `medicines.length`
  // counts the records of earlier sentences too.

  /**
   * With no records yet, a sentence keeps the records of the first name
   * pattern that gives any: named drugs, then `<form> of <word>`, then
   * `<word> <dose>`.
   */
  lemma FirstSentenceFamily(s: string)
    ensures var drug := PatternRecords(DrugNameMatcher(s), s, 0);
      var form := PatternRecords(FormOfMatcher(s), s, 0);
      var dose := PatternRecords(WordDoseMatcher(s), s, 0);
      FamilyLoop(MedicinePatterns(s), s, 0, 0) ==
        if drug != [] then drug else if form != [] then form else dose
  {
    var ps := MedicinePatterns(s);
    var drug := PatternRecords(ps[0], s, 0);
    var form := PatternRecords(ps[1], s, 0);
    if drug == [] {
      assert FamilyLoop(ps, s, 0, 0) == FamilyLoop(ps, s, 1, 0);
      if form == [] {
        assert FamilyLoop(ps, s, 1, 0) == FamilyLoop(ps, s, 2, 0);
        assert FamilyLoop(ps, s, 2, 0) == PatternRecords(ps[2], s, 0) + FamilyLoop(ps, s, 3, 0);
      }
    }
  }

  /** Once any record exists, a sentence tries only the first name pattern. */
  lemma FamilyLoopAfterRecords(patterns: seq<nat -> Option<Match>>, s: string, before: nat)
    requires AllValid(patterns, s) && |patterns| > 0 && before > 0
    ensures FamilyLoop(patterns, s, 0, before) == PatternRecords(patterns[0], s, 0)
  {
  }

  /**
   * A sentence after one that gave records: the matches of the named-drug
   * pattern, then the word-scan record.
   */
  lemma LaterSentenceRecords(s: string, before: nat)
    requires before > 0
    ensures SentenceRecords(s, before) ==
      PatternRecords(DrugNameMatcher(s), s, 0) + OptionToSeq(FallbackRecord(s))
  {
    FamilyLoopAfterRecords(MedicinePatterns(s), s, before);
  }

  /**
   * The word scan runs whatever the name patterns found: a sentence whose
   * words include a drug word always adds a record of its own at the end.
   */
  lemma FallbackIffDrugWord(s: string)
    ensures var words := SplitRuns(s, IsWhite);
      FallbackRecord(s).Some? <==> exists k :: 0 <= k < |words| && IsDrugWord(words[k])
    ensures var words := SplitRuns(s, IsWhite);
      FallbackRecord(s).Some? ==>
        exists k :: 0 <= k < |words| && IsDrugWord(words[k]) && FallbackRecord(s).value.name == CapitalizeFirst(words[k])
    ensures forall before: nat :: FallbackRecord(s).Some? ==>
      SentenceRecords(s, before)[|SentenceRecords(s, before)| - 1] == FallbackRecord(s).value
  {
  }

  /**
   * A word-scan record has its name, frequency and instructions capitalised
   * (capitalising them again changes nothing), while its dosage and duration
   * are the first groups found in the sentence, lower-case as found, or
   * their defaults (lines 140-146).
   */
  lemma FallbackCase(s: string)
    requires FallbackRecord(s).Some?
    ensures var r := FallbackRecord(s).value;
      CapitalizeFirst(r.name) == r.name && CapitalizeFirst(r.frequency) == r.frequency &&
      CapitalizeFirst(r.instructions) == r.instructions
    ensures var r := FallbackRecord(s).value;
      r.dosage == OrDefault(ScanGroup(DoseMatcher(s), s), "As prescribed") &&
      r.duration == OrDefault(ScanGroup(DurationMatcher(s), s), "As needed")
  {
    var name := FirstDrugWord(SplitRuns(s, IsWhite)).value;
    CapitalizeFirstIdempotent(name);
    CapitalizeFirstIdempotent(OrDefault(ScanFrequency(s), "As directed"));
    CapitalizeFirstIdempotent(ScanGroup(InstructionMatcher(s), s));
  }

  /**
   * The word-scan dosage and duration are the groups found whenever one is
   * found, and the defaults only when none is.
   */
  lemma FallbackGroups(s: string)
    requires FallbackRecord(s).Some?
    ensures var r := FallbackRecord(s).value; var g := ScanGroup(DoseMatcher(s), s);
      (g != "" ==> r.dosage == g) && (g == "" ==> r.dosage == "As prescribed")
    ensures var r := FallbackRecord(s).value; var g := ScanGroup(DurationMatcher(s), s);
      (g != "" ==> r.duration == g) && (g == "" ==> r.duration == "As needed")
  {
    FallbackCase(s);
  }

  // The numeric frequency fallback (lines 113-121).

  /** For a count other than 1 to 4 the phrase is the count's numeral followed by " times daily". */
  lemma NumberFrequencyReadBack(n: nat)
    requires n == 0 || n >= 5
    ensures var f := NumberFrequency(n);
      |f| > 12 && f[|f| - 12..] == " times daily" && DigitsValue(f[..|f| - 12]) == n
  {
    var f := NumberFrequency(n);
    assert f[..|f| - 12] == NatToString(n);
    NatToStringRoundTrip(n);
  }

  /** Different counts give different frequencies. */
  lemma NumberFrequencyInjective(a: nat, b: nat)
    requires NumberFrequency(a) == NumberFrequency(b)
    ensures a == b
  {
    if (a == 0 || a >= 5) && (b == 0 || b >= 5) {
      NumberFrequencyReadBack(a);
      NumberFrequencyReadBack(b);
    }
  }

  /**
   * The frequency the word scan finds is empty exactly when neither the daily
   * expression nor `N times` matches anywhere in the sentence; when the daily
   * expression matches, the frequency is the text of its leftmost match.
   */
  lemma ScanFrequencyCases(s: string)
    ensures ScanFrequency(s) == "" <==>
      (forall j :: 0 <= j <= |s| ==> DailyMatcher(s)(j).None?) &&
      (forall j :: 0 <= j <= |s| ==> TimesCountMatcher(s)(j).None?)
    ensures (exists j :: 0 <= j <= |s| && DailyMatcher(s)(j).Some?) ==>
      LeftmostText(DailyMatcher(s), s, ScanFrequency(s))
  {
    ScanFrequencyEmpty(s);
    if Exec(DailyMatcher(s), s, 0).Some? {
      ExecLeftmost(DailyMatcher(s), s);
    }
  }

  /** The frequency is empty exactly when neither search finds anything. */
  lemma ScanFrequencyEmpty(s: string)
    ensures ScanFrequency(s) == "" <==> Exec(DailyMatcher(s), s, 0).None? && Exec(TimesCountMatcher(s), s, 0).None?
  {
    match Exec(DailyMatcher(s), s, 0)
    case Some(m) =>
      assert |Whole(s, m)| > 0;
    case None =>
      match Exec(TimesCountMatcher(s), s, 0)
      case None =>
      case Some(n) =>
        var v := DigitsValue(First(s, n));
        if v == 0 || v >= 5 {
          NumberFrequencyReadBack(v);
        }
  }

  /** A slice ending where another ends is a suffix of it. */
  lemma SliceSuffix(s: string, a: nat, c: nat, b: nat)
    requires a <= c <= b <= |s|
    ensures s[a..b][|s[a..b]| - |s[c..b]|..] == s[c..b]
  {
  }

  /**
   * In `(day|days|week|weeks)` the shorter word is tried first and nothing
   * follows the group, so a duration found after a name always ends in the
   * singular "day" or "week", whatever follows in the text.
   */
  lemma DurationEndsSingular(after: string)
    ensures var d := DurationAfter(after);
      d != "As needed" ==> EndsSingular(d)
  {
    if Exec(FollowingDurationMatcher(after), after, 0).Some? {
      var x := Exec(FollowingDurationMatcher(after), after, 0).value;
      DurationAfterFound(after);
      assert FollowingDurationAt(after, x.start) == Some(x);
      DurationMatchSingular(after, x.start);
    }
  }

  predicate EndsSingular(d: string) {
    (|d| >= 3 && d[|d| - 3..] == "day") || (|d| >= 4 && d[|d| - 4..] == "week")
  }

  /** The text of one after-name duration match ends in "day" or "week". */
  lemma DurationMatchSingular(s: string, i: nat)
    requires i <= |s| && FollowingDurationAt(s, i).Some?
    ensures EndsSingular(Whole(s, FollowingDurationAt(s, i).value))
  {
    var m := FollowingDurationAt(s, i).value;
    FollowingDurationText(s, i);
    FollowingDurationSound(s, i);
    SliceSuffix(s, m.start, m.g1.lo, m.end);
    var d := Whole(s, m);
    var u := First(s, m);
    assert d[|d| - |u|..] == u;
  }

  /** The duration is the text of the match the search from 0 finds. */
  lemma DurationAfterFound(after: string)
    ensures var x := Exec(FollowingDurationMatcher(after), after, 0);
      x.Some? ==> DurationAfter(after) == Whole(after, x.value)
  {
  }
}
