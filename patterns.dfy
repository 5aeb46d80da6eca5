/**
 * The regular expressions of client/src/utils/prescription-parser.ts, each
 * hand-coded as a matcher that decides whether the expression matches at one
 * position of a string, and the leftmost search that `RegExp.prototype.exec`
 * performs from a `lastIndex`.
 *
 * Each matcher follows the backtracking order of the host engine: the
 * alternatives of an alternation are tried in source order, and a failing
 * continuation makes the next alternative be tried (`Alt`). Greedy runs of
 * `\s`, `\d` and `\w` are taken at their longest because, in every one of
 * these expressions, what follows a run can never start with a character of
 * that run's class, so giving characters back never produces a match.
 */
module Patterns {
  import opened Wrappers
  import opened Text

  /** A capture group's span `[lo, hi)` in the searched string. */
  datatype Group = Group(lo: nat, hi: nat)

  /** A successful match: `match.index`, the end of `match[0]`, and the spans of groups 1 and 2. */
  datatype Match = Match(start: nat, end: nat, g1: Group, g2: Option<Group>)

  predicate GroupWithin(g: Group, lo: nat, hi: nat) {
    lo <= g.lo <= g.hi <= hi
  }

  /** The match is non-empty, lies in `s`, and its groups lie within it. */
  predicate WellFormed(s: string, m: Match) {
    m.start < m.end <= |s| &&
    GroupWithin(m.g1, m.start, m.end) &&
    (m.g2.Some? ==> GroupWithin(m.g2.value, m.start, m.end))
  }

  /** `match[0]` */
  function Whole(s: string, m: Match): string
    requires WellFormed(s, m)
  {
    s[m.start..m.end]
  }

  /** `match[1]` */
  function First(s: string, m: Match): string
    requires WellFormed(s, m)
  {
    s[m.g1.lo..m.g1.hi]
  }

  /** `match[2]`, `None` standing for `undefined` */
  function Second(s: string, m: Match): Option<string>
    requires WellFormed(s, m)
  {
    match m.g2
    case None => None
    case Some(g) => Some(s[g.lo..g.hi])
  }

  // The literals of the expressions, in source order.

  /** The named drugs of the first name pattern, after its `\w*cillin` alternative. */
  const DrugNames: seq<string> := [
    "ibuprofen", "acetaminophen", "aspirin", "metformin", "lisinopril", "amlodipine",
    "atorvastatin", "omeprazole", "levothyroxine", "paracetamol", "diclofenac", "naproxen",
    "warfarin", "insulin", "furosemide", "doxycycline", "tramadol", "codeine", "morphine",
    "gabapentin", "sertraline", "fluoxetine", "lorazepam", "diazepam"]
  /** `(?:mg|mcg|g|ml|units?)` */
  const Units: seq<string> := ["mg", "mcg", "g", "ml", "units", "unit"]
  const Forms: seq<string> := ["tablet", "capsule", "syrup", "injection", "cream", "ointment", "drops"]
  /** `(once|twice|three times?|four times?|1|2|3|4)` */
  const DailyLeads: seq<string> := [
    "once", "twice", "three times", "three time", "four times", "four time", "1", "2", "3", "4"]
  /** `(?:times?\s*)?`: "times", "time", or the group skipped */
  const TimesWords: seq<string> := ["times", "time", ""]
  /** `(?:daily|per day|a day)` */
  const DailyTails: seq<string> := ["daily", "per day", "a day"]
  /** `(?:days?|weeks?|months?)` */
  const DurationUnits: seq<string> := ["days", "day", "weeks", "week", "months", "month"]
  const Verbs: seq<string> := ["take", "apply", "use"]
  const Preps: seq<string> := ["after", "before", "with", "without"]
  /** `(?:meals?|food|eating)` */
  const Meals: seq<string> := ["meals", "meal", "food", "eating"]
  const FollowingFrequencies: seq<string> := ["once daily", "twice daily", "three times daily"]
  /** `(day|days|week|weeks)`: the shorter word comes first and therefore always wins. */
  const FollowingDurationUnits: seq<string> := ["day", "days", "week", "weeks"]
  const FollowingInstructions: seq<string> := [
    "after meals", "before meals", "with water", "with milk", "before bedtime"]

  predicate NonEmptyLits(lits: seq<string>) {
    forall k :: 0 <= k < |lits| ==> |lits[k]| > 0
  }

  lemma LiteralsNonEmpty()
    ensures NonEmptyLits(DrugNames) && NonEmptyLits(Units) && NonEmptyLits(Forms)
    ensures NonEmptyLits(DailyLeads) && NonEmptyLits(DailyTails) && NonEmptyLits(DurationUnits)
    ensures NonEmptyLits(Meals) && NonEmptyLits(FollowingFrequencies)
    ensures NonEmptyLits(FollowingDurationUnits) && NonEmptyLits(FollowingInstructions)
  {
  }

  /** An alternation of literal alternatives standing at `i`: the end of the literal that matched. */
  function LitAt(s: string, i: nat, lits: seq<string>): (r: Option<nat>)
    ensures r.Some? ==> r.value <= |s|
    ensures r.Some? && NonEmptyLits(lits) ==> i < r.value
    ensures r.None? ==> forall k :: 0 <= k < |lits| ==> !StartsAt(s, i, lits[k])
  {
    FirstLitOrder(s, i, lits);
    match FirstLit(s, i, lits)
    case None => None
    case Some(k) => Some(i + |lits[k]|)
  }

  /** The alternation ends after the first literal, in source order, that stands at `i`. */
  lemma LitAtFirst(s: string, i: nat, lits: seq<string>)
    requires LitAt(s, i, lits).Some?
    ensures exists k :: 0 <= k < |lits| && StartsAt(s, i, lits[k]) && LitAt(s, i, lits).value == i + |lits[k]| &&
                        (forall j :: 0 <= j < k ==> !StartsAt(s, i, lits[j]))
  {
    FirstLitOrder(s, i, lits);
    var k := FirstLit(s, i, lits).value;
    assert StartsAt(s, i, lits[k]) && LitAt(s, i, lits).value == i + |lits[k]|;
  }

  /**
   * A backtracking alternation `(l0|l1|...)K`: the first alternative, from
   * index `k` on, that stands at `i` and after which the continuation `cont`
   * succeeds; the result is the alternative's index and where `cont` ends.
   */
  function Alt<R>(s: string, i: nat, lits: seq<string>, k: nat, cont: nat -> Option<R>): (r: Option<(nat, R)>)
    requires k <= |lits|
    ensures r.Some? ==> k <= r.value.0 < |lits| && StartsAt(s, i, lits[r.value.0])
    ensures r.Some? ==> cont(i + |lits[r.value.0]|) == Some(r.value.1)
    decreases |lits| - k
  {
    if k == |lits| then None
    else if StartsAt(s, i, lits[k]) && cont(i + |lits[k]|).Some? then Some((k, cont(i + |lits[k]|).value))
    else Alt(s, i, lits, k + 1, cont)
  }

  /**
   * The alternative `Alt` takes is the first, from `k` on, after which the
   * continuation succeeds, and it finds none only when there is none.
   */
  lemma {:induction false} AltFirst<R>(s: string, i: nat, lits: seq<string>, k: nat, cont: nat -> Option<R>)
    requires k <= |lits|
    ensures var r := Alt(s, i, lits, k, cont);
      r.Some? ==> forall j :: k <= j < r.value.0 ==> !(StartsAt(s, i, lits[j]) && cont(i + |lits[j]|).Some?)
    ensures Alt(s, i, lits, k, cont).None? ==>
      forall j :: k <= j < |lits| ==> !(StartsAt(s, i, lits[j]) && cont(i + |lits[j]|).Some?)
    decreases |lits| - k
  {
    if k < |lits| && !(StartsAt(s, i, lits[k]) && cont(i + |lits[k]|).Some?) {
      AltFirst(s, i, lits, k + 1, cont);
    }
  }

  /** `\d+\s*(?:u0|u1|...)` at `i`, for the unit alternation `units`: where it ends. */
  function CountUnitEnd(s: string, i: nat, units: seq<string>): (r: Option<nat>)
    requires i <= |s|
    ensures r.Some? ==> i < r.value <= |s|
  {
    var d := SkipDigits(s, i);
    if d == i then None else LitAt(s, SkipWhite(s, d), units)
  }

  /** `\d+\s*(?:mg|mcg|g|ml|units?)` at `i`: where it ends. */
  function DoseEnd(s: string, i: nat): (r: Option<nat>)
    requires i <= |s|
    ensures r.Some? ==> i < r.value <= |s|
  {
    CountUnitEnd(s, i, Units)
  }

  /**
   * `\w*lit` at `i`: the greedy `\w*` gives characters back from the end of
   * the word run until `lit` follows, so the match ends after the LAST
   * occurrence of `lit` that starts in `[i, j]`.
   */
  function LastLitEnd(s: string, i: nat, j: nat, lit: string): (r: Option<nat>)
    requires i <= j
    ensures r.Some? ==> i + |lit| <= r.value <= |s| && r.value - |lit| <= j && StartsAt(s, r.value - |lit|, lit)
    ensures r.Some? ==> forall k :: r.value - |lit| < k <= j ==> !StartsAt(s, k, lit)
    ensures r.None? ==> forall k :: i <= k <= j ==> !StartsAt(s, k, lit)
    decreases j
  {
    if StartsAt(s, j, lit) then Some(j + |lit|)
    else if j == i then None
    else LastLitEnd(s, i, j - 1, lit)
  }

  /** `\w*cillin` at `i`, searched up to the end `j` of the word run. */
  function CillinEnd(s: string, i: nat, j: nat): (r: Option<nat>)
    requires i <= j
    ensures r.Some? ==> i + 6 <= r.value <= |s| && r.value - 6 <= j && StartsAt(s, r.value - 6, "cillin")
    ensures r.Some? ==> forall k :: r.value - 6 < k <= j ==> !StartsAt(s, k, "cillin")
    ensures r.None? ==> forall k :: i <= k <= j ==> !StartsAt(s, k, "cillin")
  {
    LastLitEnd(s, i, j, "cillin")
  }

  /** `(\w*cillin|ibuprofen|...|diazepam)\s*(\d+\s*(?:mg|mcg|g|ml|units?))?` at `i` (line 15). */
  function DrugNameAt(s: string, i: nat): (r: Option<Match>)
    requires i <= |s|
    ensures r.Some? ==> r.value.start == i && WellFormed(s, r.value)
  {
    var name := match CillinEnd(s, i, SkipWord(s, i))
      case Some(e) => Some(e)
      case None => LitAt(s, i, DrugNames);
    LiteralsNonEmpty();
    match name
    case None => None
    case Some(n) =>
      var w := SkipWhite(s, n);
      match DoseEnd(s, w)
      case None => Some(Match(i, w, Group(i, n), None))
      case Some(d) => Some(Match(i, d, Group(i, n), Some(Group(w, d))))
  }

  /** `\s+of\s+(\w+)` after a form word: the span of `(\w+)`. */
  function OfWord(s: string, p: nat): (r: Option<Group>)
    ensures r.Some? ==> p < r.value.lo < r.value.hi <= |s|
    ensures r.Some? ==> forall k :: r.value.lo <= k < r.value.hi ==> IsWordChar(s[k])
  {
    if p > |s| then None
    else
      var q := SkipWhite(s, p);
      if q == p || !StartsAt(s, q, "of") then None
      else
        var w := SkipWhite(s, q + 2);
        if w == q + 2 || SkipWord(s, w) == w then None else Some(Group(w, SkipWord(s, w)))
  }

  /** `OfWord` as the continuation of the form alternation. */
  function OfWordFrom(s: string): nat -> Option<Group> {
    (p: nat) => OfWord(s, p)
  }

  /** `(tablet|capsule|...|drops)\s+of\s+(\w+)` at `i` (line 16). */
  function FormOfAt(s: string, i: nat): (r: Option<Match>)
    requires i <= |s|
    ensures r.Some? ==> r.value.start == i && WellFormed(s, r.value)
  {
    match Alt(s, i, Forms, 0, OfWordFrom(s))
    case None => None
    case Some((k, g)) => Some(Match(i, g.hi, Group(i, i + |Forms[k]|), Some(g)))
  }

  /** `(\w+)\s+(\d+\s*(?:mg|mcg|g|ml|units?))` at `i` (line 17). */
  function WordDoseAt(s: string, i: nat): (r: Option<Match>)
    requires i <= |s|
    ensures r.Some? ==> r.value.start == i && WellFormed(s, r.value)
  {
    var e := SkipWord(s, i);
    var w := SkipWhite(s, e);
    if e == i || w == e then None
    else
      match DoseEnd(s, w)
      case None => None
      case Some(d) => Some(Match(i, d, Group(i, e), Some(Group(w, d))))
  }

  /** `(\d+\s*(?:mg|mcg|g|ml|units?))` at `i` (line 22). */
  function DoseAt(s: string, i: nat): (r: Option<Match>)
    requires i <= |s|
    ensures r.Some? ==> r.value.start == i && WellFormed(s, r.value)
  {
    match DoseEnd(s, i)
    case None => None
    case Some(d) => Some(Match(i, d, Group(i, d), None))
  }

  /** `\s*(?:daily|per day|a day)` from `t`: where it ends. */
  function DailyTail(s: string, t: nat): (r: Option<nat>)
    ensures r.Some? ==> r.value <= |s|
  {
    if t <= |s| then LitAt(s, SkipWhite(s, t), DailyTails) else None
  }

  /** `DailyTail` as the continuation of the `times?` alternation. */
  function DailyTailFrom(s: string): nat -> Option<nat> {
    (t: nat) => DailyTail(s, t)
  }

  /** `\s*(?:times?\s*)?(?:daily|per day|a day)` from `p`: where it ends. */
  function DailyRest(s: string, p: nat): (r: Option<nat>)
    ensures r.Some? ==> p <= r.value <= |s|
  {
    if p > |s| then None
    else
      var q := SkipWhite(s, p);
      match Alt(s, q, TimesWords, 0, DailyTailFrom(s))
      case None => None
      case Some((_, e)) => Some(e)
  }

  /** `DailyRest` as the continuation of the count alternation. */
  function DailyRestFrom(s: string): nat -> Option<nat> {
    (p: nat) => DailyRest(s, p)
  }

  /** `(once|twice|three times?|four times?|1|2|3|4)\s*(?:times?\s*)?(?:daily|per day|a day)` at `i` (line 28). */
  function DailyAt(s: string, i: nat): (r: Option<Match>)
    requires i <= |s|
    ensures r.Some? ==> r.value.start == i && WellFormed(s, r.value)
  {
    assert NonEmptyLits(DailyLeads);
    match Alt(s, i, DailyLeads, 0, DailyRestFrom(s))
    case None => None
    case Some((k, e)) => Some(Match(i, e, Group(i, i + |DailyLeads[k]|), None))
  }

  /** `(\d+)\s*times?` at `i` (line 113). */
  function TimesCountAt(s: string, i: nat): (r: Option<Match>)
    requires i <= |s|
    ensures r.Some? ==> r.value.start == i && WellFormed(s, r.value)
  {
    var d := SkipDigits(s, i);
    var w := SkipWhite(s, d);
    if d == i || !StartsAt(s, w, "time") then None
    else
      var e := if w + 4 < |s| && s[w + 4] == 's' then w + 5 else w + 4;
      Some(Match(i, e, Group(i, d), None))
  }

  /** `(\d+\s*(?:days?|weeks?|months?))` at `p`: where it ends. */
  function DurationEnd(s: string, p: nat): (r: Option<nat>)
    requires p <= |s|
    ensures r.Some? ==> p < r.value <= |s|
  {
    CountUnitEnd(s, p, DurationUnits)
  }

  /** `(?:for\s+)?(\d+\s*(?:days?|weeks?|months?))` at `i` (line 36). */
  function DurationAt(s: string, i: nat): (r: Option<Match>)
    requires i <= |s|
    ensures r.Some? ==> r.value.start == i && WellFormed(s, r.value)
  {
    var p := if StartsAt(s, i, "for") then SkipWhite(s, i + 3) else i;
    var withFor := if StartsAt(s, i, "for") && p > i + 3 then DurationEnd(s, p) else None;
    match withFor
    case Some(e) => Some(Match(i, e, Group(p, e), None))
    case None =>
      match DurationEnd(s, i)
      case None => None
      case Some(e) => Some(Match(i, e, Group(i, e), None))
  }

  /** `\s+(?:meals?|food|eating)` from `p`: where it ends. */
  function MealRest(s: string, p: nat): (r: Option<nat>)
    ensures r.Some? ==> p < r.value <= |s|
  {
    if p > |s| then None
    else
      var q := SkipWhite(s, p);
      if q == p then None else LitAt(s, q, Meals)
  }

  /** `MealRest` as the continuation of the preposition alternation. */
  function MealRestFrom(s: string): nat -> Option<nat> {
    (t: nat) => MealRest(s, t)
  }

  /** `\s+(?:after|before|with|without)\s+(?:meals?|food|eating)` from `p`: where it ends. */
  function PrepRest(s: string, p: nat): (r: Option<nat>)
    ensures r.Some? ==> p < r.value <= |s|
  {
    if p > |s| then None
    else
      var q := SkipWhite(s, p);
      if q == p then None
      else
        match Alt(s, q, Preps, 0, MealRestFrom(s))
        case None => None
        case Some((_, e)) => Some(e)
  }

  /** `PrepRest` as the continuation of the verb alternation. */
  function PrepRestFrom(s: string): nat -> Option<nat> {
    (p: nat) => PrepRest(s, p)
  }

  /** `((?:take|apply|use)\s+(?:after|before|with|without)\s+(?:meals?|food|eating))` at `i` (line 42). */
  function InstructionAt(s: string, i: nat): (r: Option<Match>)
    requires i <= |s|
    ensures r.Some? ==> r.value.start == i && WellFormed(s, r.value)
  {
    match Alt(s, i, Verbs, 0, PrepRestFrom(s))
    case None => None
    case Some((_, e)) => Some(Match(i, e, Group(i, e), None))
  }

  /** `once daily|twice daily|three times daily|every \d+ hours` at `i` (line 69). */
  function FollowingFrequencyAt(s: string, i: nat): (r: Option<Match>)
    requires i <= |s|
    ensures r.Some? ==> r.value.start == i && WellFormed(s, r.value)
  {
    match LitAt(s, i, FollowingFrequencies)
    case Some(e) => Some(Match(i, e, Group(i, e), None))
    case None =>
      if !StartsAt(s, i, "every ") then None
      else
        var d := SkipDigits(s, i + 6);
        if d == i + 6 || !StartsAt(s, d, " hours") then None
        else Some(Match(i, d + 6, Group(i, d + 6), None))
  }

  /** `for\s+\d+\s+(day|days|week|weeks)` at `i` (line 70). */
  function FollowingDurationAt(s: string, i: nat): (r: Option<Match>)
    requires i <= |s|
    ensures r.Some? ==> r.value.start == i && WellFormed(s, r.value)
  {
    if !StartsAt(s, i, "for") then None
    else
      var p := SkipWhite(s, i + 3);
      var d := SkipDigits(s, p);
      var w := SkipWhite(s, d);
      if p == i + 3 || d == p || w == d then None
      else
        match LitAt(s, w, FollowingDurationUnits)
        case None => None
        case Some(e) => Some(Match(i, e, Group(w, e), None))
  }

  /** `(after meals|before meals|with water|with milk|before bedtime)` at `i` (line 71). */
  function FollowingInstructionsAt(s: string, i: nat): (r: Option<Match>)
    requires i <= |s|
    ensures r.Some? ==> r.value.start == i && WellFormed(s, r.value)
  {
    match LitAt(s, i, FollowingInstructions)
    case None => None
    case Some(e) => Some(Match(i, e, Group(i, e), None))
  }

  /** Every match `at` reports at a position `j` of `s` starts at `j` and is well formed in `s`. */
  predicate ValidMatcher(at: nat -> Option<Match>, s: string) {
    forall j: nat :: j <= |s| && at(j).Some? ==> at(j).value.start == j && WellFormed(s, at(j).value)
  }

  // Each expression as a function of the position in the searched string.

  /** `medicinePatterns[0]` over `s` */
  function DrugNameMatcher(s: string): (r: nat -> Option<Match>)
    ensures ValidMatcher(r, s)
  {
    (i: nat) => if i <= |s| then DrugNameAt(s, i) else None
  }

  /** `medicinePatterns[1]` over `s` */
  function FormOfMatcher(s: string): (r: nat -> Option<Match>)
    ensures ValidMatcher(r, s)
  {
    (i: nat) => if i <= |s| then FormOfAt(s, i) else None
  }

  /** `medicinePatterns[2]` over `s` */
  function WordDoseMatcher(s: string): (r: nat -> Option<Match>)
    ensures ValidMatcher(r, s)
  {
    (i: nat) => if i <= |s| then WordDoseAt(s, i) else None
  }

  /** `dosagePatterns[0]` over `s` */
  function DoseMatcher(s: string): (r: nat -> Option<Match>)
    ensures ValidMatcher(r, s)
  {
    (i: nat) => if i <= |s| then DoseAt(s, i) else None
  }

  /** `frequencyPatterns[0]` over `s` */
  function DailyMatcher(s: string): (r: nat -> Option<Match>)
    ensures ValidMatcher(r, s)
  {
    (i: nat) => if i <= |s| then DailyAt(s, i) else None
  }

  /** The `N times` expression of the frequency fallback over `s` */
  function TimesCountMatcher(s: string): (r: nat -> Option<Match>)
    ensures ValidMatcher(r, s)
  {
    (i: nat) => if i <= |s| then TimesCountAt(s, i) else None
  }

  /** `durationPatterns[0]` over `s` */
  function DurationMatcher(s: string): (r: nat -> Option<Match>)
    ensures ValidMatcher(r, s)
  {
    (i: nat) => if i <= |s| then DurationAt(s, i) else None
  }

  /** `instructionPatterns[0]` over `s` */
  function InstructionMatcher(s: string): (r: nat -> Option<Match>)
    ensures ValidMatcher(r, s)
  {
    (i: nat) => if i <= |s| then InstructionAt(s, i) else None
  }

  /** The frequency looked for after a name, over `s` */
  function FollowingFrequencyMatcher(s: string): (r: nat -> Option<Match>)
    ensures ValidMatcher(r, s)
  {
    (i: nat) => if i <= |s| then FollowingFrequencyAt(s, i) else None
  }

  /** The duration looked for after a name, over `s` */
  function FollowingDurationMatcher(s: string): (r: nat -> Option<Match>)
    ensures ValidMatcher(r, s)
  {
    (i: nat) => if i <= |s| then FollowingDurationAt(s, i) else None
  }

  /** The instructions looked for after a name, over `s` */
  function FollowingInstructionsMatcher(s: string): (r: nat -> Option<Match>)
    ensures ValidMatcher(r, s)
  {
    (i: nat) => if i <= |s| then FollowingInstructionsAt(s, i) else None
  }

  /**
   * `exec` from `lastIndex == from`: the match at the leftmost position at or
   * after `from` where `at` reports one, or none (also when `from` is past
   * the end of `s`).
   */
  function Exec(at: nat -> Option<Match>, s: string, from: nat): (r: Option<Match>)
    requires ValidMatcher(at, s)
    ensures r.Some? ==> from <= r.value.start && at(r.value.start) == r && WellFormed(s, r.value)
    ensures r.Some? ==> forall j :: from <= j < r.value.start ==> at(j).None?
    ensures r.None? ==> forall j :: from <= j <= |s| ==> at(j).None?
    decreases |s| + 1 - from, 1
  {
    if from > |s| then None else TryAt(at, s, from)
  }

  /**
   * `w` is `match[0]` of the leftmost match of `at` in `s`: `at` reports a
   * match at some position `p` whose text is `w`, and at no position before.
   */
  ghost predicate LeftmostText(at: nat -> Option<Match>, s: string, w: string) {
    exists p: nat :: p <= |s| && at(p).Some? && WellFormed(s, at(p).value) && Whole(s, at(p).value) == w &&
      forall q: nat :: q < p ==> at(q).None?
  }

  /** A search from 0 finds the leftmost match. */
  lemma ExecLeftmost(at: nat -> Option<Match>, s: string)
    requires ValidMatcher(at, s) && Exec(at, s, 0).Some?
    ensures LeftmostText(at, s, Whole(s, Exec(at, s, 0).value))
  {
    var m := Exec(at, s, 0).value;
    assert at(m.start) == Some(m);
  }

  /** One step of the search: the match at `from` if there is one, else the search from `from + 1`. */
  function TryAt(at: nat -> Option<Match>, s: string, from: nat): (r: Option<Match>)
    requires ValidMatcher(at, s) && from <= |s|
    ensures r.Some? ==> from <= r.value.start && at(r.value.start) == r && WellFormed(s, r.value)
    ensures r.Some? ==> forall j :: from <= j < r.value.start ==> at(j).None?
    ensures r.None? ==> forall j :: from <= j <= |s| ==> at(j).None?
    decreases |s| + 1 - from, 0
  {
    match at(from)
    case Some(m) => Some(m)
    case None => Exec(at, s, from + 1)
  }

  /**
   * The matches a `while ((match = pattern.exec(s)) !== null)` loop visits
   * when it starts with `lastIndex == from`: each search resumes where the
   * previous match ended.
   */
  function Execs(at: nat -> Option<Match>, s: string, from: nat): (r: seq<Match>)
    requires ValidMatcher(at, s)
    ensures forall k :: 0 <= k < |r| ==>
      from <= r[k].start && WellFormed(s, r[k]) && at(r[k].start) == Some(r[k])
    decreases |s| + 1 - from
  {
    match Exec(at, s, from)
    case None => []
    case Some(m) => [m] + Execs(at, s, m.end)
  }

  /** Each match ends before the next one starts. */
  predicate InOrder(ms: seq<Match>) {
    forall k, j :: 0 <= k < j < |ms| ==> ms[k].end <= ms[j].start
  }

  /** The visited matches do not overlap and come in the order of the string. */
  lemma {:induction false} ExecsOrdered(at: nat -> Option<Match>, s: string, from: nat)
    requires ValidMatcher(at, s)
    ensures InOrder(Execs(at, s, from))
    decreases |s| + 1 - from
  {
    var ms := Execs(at, s, from);
    match Exec(at, s, from)
    case None =>
    case Some(m) =>
      var rest := Execs(at, s, m.end);
      assert ms == [m] + rest;
      ExecsOrdered(at, s, m.end);
      forall k, j | 0 <= k < j < |ms| ensures ms[k].end <= ms[j].start {
        assert ms[j] == rest[j - 1];
        if k > 0 {
          assert ms[k] == rest[k - 1];
          assert rest[k - 1].end <= rest[j - 1].start;
        } else {
          assert ms[k] == m;
          assert m.end <= rest[j - 1].start;
        }
      }
  }

  /** Where the search for match `k` of a run of searches from `from` began. */
  function GapStart(ms: seq<Match>, from: nat, k: nat): nat
    requires k <= |ms|
  {
    if k == 0 then from else ms[k - 1].end
  }

  /**
   * The visited matches are exactly the leftmost non-overlapping matches: no
   * match starts in a stretch that a search skipped over, nor after the last one.
   */
  lemma {:induction false} ExecsMissNothing(at: nat -> Option<Match>, s: string, from: nat)
    requires ValidMatcher(at, s)
    ensures var ms := Execs(at, s, from);
      forall k, j :: 0 <= k < |ms| && GapStart(ms, from, k) <= j < ms[k].start ==> at(j).None?
    ensures var ms := Execs(at, s, from);
      forall j :: GapStart(ms, from, |ms|) <= j <= |s| ==> at(j).None?
    decreases |s| + 1 - from
  {
    var ms := Execs(at, s, from);
    match Exec(at, s, from)
    case None =>
    case Some(m) =>
      var rest := Execs(at, s, m.end);
      assert ms == [m] + rest;
      ExecsMissNothing(at, s, m.end);
      forall k, j | 0 <= k < |ms| && GapStart(ms, from, k) <= j < ms[k].start
        ensures at(j).None?
      {
        if k > 0 {
          assert ms[k] == rest[k - 1];
          assert GapStart(ms, from, k) == GapStart(rest, m.end, k - 1);
        }
      }
      assert GapStart(ms, from, |ms|) == GapStart(rest, m.end, |rest|);
  }
  // What the text of a match can be, expression by expression.

  /** The literal `LitAt` reports is one of the alternatives, and the span it ends is that literal. */
  lemma LitAtText(s: string, i: nat, lits: seq<string>)
    requires LitAt(s, i, lits).Some?
    ensures i <= LitAt(s, i, lits).value && s[i..LitAt(s, i, lits).value] in lits
  {
    var k := FirstLit(s, i, lits).value;
    assert s[i..i + |lits[k]|] == lits[k];
  }

  /** `every \d+ hours` */
  predicate IsEveryHours(w: string) {
    |w| > 12 && w[..6] == "every " && w[|w| - 6..] == " hours" &&
    forall k :: 6 <= k < |w| - 6 ==> IsDigit(w[k])
  }

  /** A frequency found after a name is one of the three phrases, or `every N hours`. */
  lemma FollowingFrequencyText(s: string, i: nat)
    requires i <= |s| && FollowingFrequencyAt(s, i).Some?
    ensures var w := Whole(s, FollowingFrequencyAt(s, i).value);
      w in FollowingFrequencies || IsEveryHours(w)
  {
    var m := FollowingFrequencyAt(s, i).value;
    if LitAt(s, i, FollowingFrequencies).Some? {
      LitAtText(s, i, FollowingFrequencies);
    } else {
      var d := SkipDigits(s, i + 6);
      var w := Whole(s, m);
      assert s[i..i + 6] == "every " && s[d..d + 6] == " hours";
      assert w[..6] == s[i..i + 6];
      assert w[|w| - 6..] == s[d..d + 6];
      forall k | 6 <= k < |w| - 6 ensures IsDigit(w[k]) {
        assert w[k] == s[i + k];
      }
    }
  }

  /**
   * A duration found after a name starts with `for` and names a unit, and
   * the unit is always singular: "day" is tried before "days" and "week"
   * before "weeks", and each plural starts with its singular.
   */
  lemma FollowingDurationText(s: string, i: nat)
    requires i <= |s| && FollowingDurationAt(s, i).Some?
    ensures var m := FollowingDurationAt(s, i).value;
      StartsAt(Whole(s, m), 0, "for") && First(s, m) in FollowingDurationUnits
    ensures var m := FollowingDurationAt(s, i).value;
      First(s, m) == "day" || First(s, m) == "week"
  {
    var m := FollowingDurationAt(s, i).value;
    var w := SkipWhite(s, SkipDigits(s, SkipWhite(s, i + 3)));
    LitAtText(s, w, FollowingDurationUnits);
    assert Whole(s, m)[0..3] == s[i..i + 3];
    PluralHasSingular(s, w);
  }

  /** Where "days" stands, "day" stands; where "weeks" stands, "week" does. */
  lemma PluralHasSingular(s: string, w: nat)
    ensures StartsAt(s, w, "days") ==> StartsAt(s, w, "day")
    ensures StartsAt(s, w, "weeks") ==> StartsAt(s, w, "week")
  {
    if StartsAt(s, w, "days") {
      assert s[w..w + 3] == s[w..w + 4][..3];
    }
    if StartsAt(s, w, "weeks") {
      assert s[w..w + 4] == s[w..w + 5][..4];
    }
  }

  /** Instructions found after a name are one of the five phrases. */
  lemma FollowingInstructionsText(s: string, i: nat)
    requires i <= |s| && FollowingInstructionsAt(s, i).Some?
    ensures Whole(s, FollowingInstructionsAt(s, i).value) in FollowingInstructions
  {
    LitAtText(s, i, FollowingInstructions);
  }

  predicate IsWord(w: string) {
    w != [] && forall k :: 0 <= k < |w| ==> IsWordChar(w[k])
  }

  /** The name the first name pattern captures is a listed drug or a word ending in "cillin". */
  lemma DrugNameText(s: string, i: nat)
    requires i <= |s| && DrugNameAt(s, i).Some?
    ensures var name := First(s, DrugNameAt(s, i).value);
      name in DrugNames || (|name| >= 6 && name[|name| - 6..] == "cillin")
  {
    var m := DrugNameAt(s, i).value;
    match CillinEnd(s, i, SkipWord(s, i))
    case Some(e) =>
      assert m.g1 == Group(i, e);
      assert s[i..e][e - i - 6..] == s[e - 6..e];
    case None =>
      LitAtText(s, i, DrugNames);
  }

  /** The form that `of` follows is one of the listed forms. */
  lemma FormOfName(s: string, i: nat)
    requires i <= |s| && FormOfAt(s, i).Some?
    ensures First(s, FormOfAt(s, i).value) in Forms
  {
    var r := Alt(s, i, Forms, 0, OfWordFrom(s)).value;
    assert First(s, FormOfAt(s, i).value) == s[i..i + |Forms[r.0]|] == Forms[r.0];
  }

  /** The `of (\w+)` group is a non-empty word. */
  lemma FormOfWord(s: string, i: nat)
    requires i <= |s| && FormOfAt(s, i).Some?
    ensures FormOfAt(s, i).value.g2.Some?
    ensures var g := FormOfAt(s, i).value.g2.value; IsWord(s[g.lo..g.hi])
  {
    var g := Alt(s, i, Forms, 0, OfWordFrom(s)).value.1;
    assert forall j :: 0 <= j < g.hi - g.lo ==> s[g.lo..g.hi][j] == s[g.lo + j];
  }

  // The searches of the text after a name match (lines 69-78).

  /** The text a frequency match covers occurs where it matched and is never the default. */
  lemma FrequencyWhole(s: string, i: nat)
    requires i <= |s| && FollowingFrequencyAt(s, i).Some?
    ensures var w := Whole(s, FollowingFrequencyAt(s, i).value);
      (w in FollowingFrequencies || IsEveryHours(w)) && OccursAt(s, w, i) && w != "As directed"
  {
    FollowingFrequencyText(s, i);
  }

  /**
   * `/once daily|twice daily|three times daily|every \d+ hours/i.exec(after)`
   * (line 69), `match[0]` or "As directed" (line 76): a phrase that occurs in
   * `after`, and the default exactly when none does.
   */
  function FrequencyAfter(after: string): (f: string)
    ensures f == "As directed" <==> forall j :: 0 <= j <= |after| ==> FollowingFrequencyMatcher(after)(j).None?
    ensures f != "As directed" ==>
      (f in FollowingFrequencies || IsEveryHours(f)) && exists p :: OccursAt(after, f, p)
    ensures f != "As directed" ==> LeftmostText(FollowingFrequencyMatcher(after), after, f)
  {
    match Exec(FollowingFrequencyMatcher(after), after, 0)
    case None => "As directed"
    case Some(x) =>
      assert FollowingFrequencyAt(after, x.start) == Some(x);
      FrequencyWhole(after, x.start);
      ExecLeftmost(FollowingFrequencyMatcher(after), after);
      Whole(after, x)
  }

  /** The text a duration match covers starts with "for", so it is never the default. */
  lemma DurationWhole(s: string, i: nat)
    requires i <= |s| && FollowingDurationAt(s, i).Some?
    ensures var w := Whole(s, FollowingDurationAt(s, i).value);
      StartsAt(w, 0, "for") && OccursAt(s, w, i) && w != "As needed"
  {
    FollowingDurationText(s, i);
    var w := Whole(s, FollowingDurationAt(s, i).value);
    assert w[..3] == "for";
    assert w[0] != "As needed"[0];
  }

  /**
   * `/for\s+\d+\s+(day|days|week|weeks)/i.exec(after)` (line 70), `match[0]`
   * or "As needed" (line 77).
   */
  function DurationAfter(after: string): (d: string)
    ensures d == "As needed" <==> forall j :: 0 <= j <= |after| ==> FollowingDurationMatcher(after)(j).None?
    ensures d != "As needed" ==> StartsAt(d, 0, "for") && exists p :: OccursAt(after, d, p)
    ensures d != "As needed" ==> LeftmostText(FollowingDurationMatcher(after), after, d)
  {
    match Exec(FollowingDurationMatcher(after), after, 0)
    case None => "As needed"
    case Some(x) =>
      var w := Whole(after, x);
      ExecLeftmost(FollowingDurationMatcher(after), after);
      assert FollowingDurationAt(after, x.start) == Some(x);
      DurationWhole(after, x.start);
      w
  }

  /**
   * `/(after meals|before meals|with water|with milk|before bedtime)/i.exec(after)`
   * (line 71), `match[0]` or "" (line 78).
   */
  function InstructionsAfter(after: string): (t: string)
    ensures t == "" <==> forall j :: 0 <= j <= |after| ==> FollowingInstructionsMatcher(after)(j).None?
    ensures t != "" ==> t in FollowingInstructions && exists p :: OccursAt(after, t, p)
    ensures t != "" ==> LeftmostText(FollowingInstructionsMatcher(after), after, t)
  {
    match Exec(FollowingInstructionsMatcher(after), after, 0)
    case None => ""
    case Some(x) =>
      var w := Whole(after, x);
      ExecLeftmost(FollowingInstructionsMatcher(after), after);
      assert w != "" && OccursAt(after, w, x.start) by {
        assert FollowingInstructionsAt(after, x.start) == Some(x);
      }
      assert w in FollowingInstructions by {
        assert FollowingInstructionsAt(after, x.start) == Some(x);
        FollowingInstructionsText(after, x.start);
      }
      w
  }
}
