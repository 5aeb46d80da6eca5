/**
 * What each expression of client/src/utils/prescription-parser.ts denotes,
 * written out independently of the matchers of `Patterns`: runs of `\s`,
 * `\d` and `\w` and literal alternatives, with the split points between them
 * named. For each matcher, a soundness lemma says that the span it reports,
 * and each group in it, has that shape, and a completeness lemma says that
 * wherever text of that shape stands the matcher reports a match.
 */
module PatternLanguages {
  import opened Wrappers
  import opened Text
  import opened Patterns

  /** Every alternative starts with a lower-case letter, which no run of `\s` or `\d` can take. */
  predicate LetterLits(lits: seq<string>) {
    forall k :: 0 <= k < |lits| ==> lits[k] != [] && IsLowerAlpha(lits[k][0])
  }

  lemma LiteralsStartWithLetters()
    ensures LetterLits(Units) && LetterLits(DurationUnits) && LetterLits(DailyTails)
    ensures LetterLits(Preps) && LetterLits(Meals) && LetterLits(FollowingDurationUnits)
  {
  }

  /** An alternation matches wherever one of its alternatives stands and its continuation then succeeds. */
  lemma AltTakes<R>(s: string, i: nat, lits: seq<string>, cont: nat -> Option<R>, j: nat)
    requires j < |lits| && StartsAt(s, i, lits[j]) && cont(i + |lits[j]|).Some?
    ensures Alt(s, i, lits, 0, cont).Some?
  {
    AltFirst(s, i, lits, 0, cont);
  }

  /** `g` spans, from `i`, one of the alternatives `lits`. */
  ghost predicate LitGroup(s: string, i: nat, lits: seq<string>, g: Group) {
    exists k: nat :: k < |lits| && StartsAt(s, i, lits[k]) && g == Group(i, i + |lits[k]|)
  }

  // `\d+\s*(?:u0|u1|...)`, the dose and the duration.

  /** `s[i..e]` is digits up to `d`, white space up to `w`, then the unit `units[k]`. */
  predicate CountUnitParts(s: string, i: nat, d: nat, w: nat, k: nat, e: nat, units: seq<string>) {
    i < d && AllDigits(s, i, d) && AllWhite(s, d, w) &&
    k < |units| && StartsAt(s, w, units[k]) && e == w + |units[k]|
  }

  /** `lits[k]` stands at `w` and no alternative before it in source order does. */
  predicate FirstLitAt(s: string, w: nat, k: nat, lits: seq<string>) {
    k < |lits| && StartsAt(s, w, lits[k]) && forall j :: 0 <= j < k ==> !StartsAt(s, w, lits[j])
  }

  /**
   * The regex's reading of `s[i..e]` as a count and a unit: of two units that
   * both stand there ("units" and "unit"), the one listed first is taken.
   */
  ghost predicate CountUnit(s: string, i: nat, e: nat, units: seq<string>) {
    exists d: nat, w: nat, k: nat :: CountUnitParts(s, i, d, w, k, e, units) && FirstLitAt(s, w, k, units)
  }

  /** What `CountUnitEnd` takes is a count, optional white space and the first unit that stands there. */
  lemma CountUnitSound(s: string, i: nat, units: seq<string>)
    requires i <= |s| && CountUnitEnd(s, i, units).Some?
    ensures CountUnit(s, i, CountUnitEnd(s, i, units).value, units)
  {
    var d := SkipDigits(s, i);
    var w := SkipWhite(s, d);
    LitAtFirst(s, w, units);
    var k :| 0 <= k < |units| && StartsAt(s, w, units[k]) && LitAt(s, w, units).value == w + |units[k]| &&
      (forall j :: 0 <= j < k ==> !StartsAt(s, w, units[j]));
    assert CountUnitParts(s, i, d, w, k, CountUnitEnd(s, i, units).value, units) && FirstLitAt(s, w, k, units);
  }

  /** Wherever a count, optional white space and a unit stand, `CountUnitEnd` matches. */
  lemma CountUnitComplete(s: string, i: nat, d: nat, w: nat, k: nat, e: nat, units: seq<string>)
    requires LetterLits(units) && CountUnitParts(s, i, d, w, k, e, units)
    ensures CountUnitEnd(s, i, units).Some?
  {
    LetterAt(s, w, units[k]);
    SkipDigitsAt(s, i, d);
    SkipWhiteAt(s, d, w);
  }

  /** The digits and the white space before a unit are the maximal runs. */
  lemma CountUnitRuns(s: string, i: nat, d: nat, w: nat, k: nat, e: nat, units: seq<string>)
    requires LetterLits(units) && CountUnitParts(s, i, d, w, k, e, units)
    ensures d == SkipDigits(s, i) && w == SkipWhite(s, d)
  {
    LetterAt(s, w, units[k]);
    if d < w {
      assert IsWhite(s[d]);
    }
    SkipDigitsAt(s, i, d);
    SkipWhiteAt(s, d, w);
  }

  /** The reading is unambiguous: "5 units" ends after "units" and never after "unit". */
  lemma CountUnitUnique(s: string, i: nat, e1: nat, e2: nat, units: seq<string>)
    requires LetterLits(units) && CountUnit(s, i, e1, units) && CountUnit(s, i, e2, units)
    ensures e1 == e2
  {
    var d1: nat, w1: nat, k1: nat :| CountUnitParts(s, i, d1, w1, k1, e1, units) && FirstLitAt(s, w1, k1, units);
    var d2: nat, w2: nat, k2: nat :| CountUnitParts(s, i, d2, w2, k2, e2, units) && FirstLitAt(s, w2, k2, units);
    CountUnitRuns(s, i, d1, w1, k1, e1, units);
    CountUnitRuns(s, i, d2, w2, k2, e2, units);
  }

  /** `(\d+\s*(?:mg|mcg|g|ml|units?))`: the match and its group are a count and a unit. */
  lemma DoseSound(s: string, i: nat)
    requires i <= |s| && DoseAt(s, i).Some?
    ensures var m := DoseAt(s, i).value;
      m.g1 == Group(i, m.end) && m.g2.None? && CountUnit(s, i, m.end, Units)
  {
    CountUnitSound(s, i, Units);
  }

  lemma DoseComplete(s: string, i: nat, d: nat, w: nat, k: nat, e: nat)
    requires CountUnitParts(s, i, d, w, k, e, Units)
    ensures DoseAt(s, i).Some?
  {
    LiteralsStartWithLetters();
    CountUnitComplete(s, i, d, w, k, e, Units);
  }

  /** `for` and white space from `i` up to `p`. */
  predicate ForLead(s: string, i: nat, p: nat) {
    StartsAt(s, i, "for") && i + 3 < p && AllWhite(s, i + 3, p)
  }

  /**
   * `(?:for\s+)?(\d+\s*(?:days?|weeks?|months?))`: the group is a count and a
   * unit, and the match adds to it either nothing or a leading `for\s+`.
   */
  lemma DurationSound(s: string, i: nat)
    requires i <= |s| && DurationAt(s, i).Some?
    ensures var m := DurationAt(s, i).value;
      m.g1.hi == m.end && CountUnit(s, m.g1.lo, m.end, DurationUnits) &&
      (m.g1.lo == i || ForLead(s, i, m.g1.lo))
  {
    var m := DurationAt(s, i).value;
    CountUnitSound(s, m.g1.lo, DurationUnits);
  }

  lemma DurationComplete(s: string, i: nat, p: nat, d: nat, w: nat, k: nat, e: nat)
    requires i <= |s| && (p == i || ForLead(s, i, p)) && CountUnitParts(s, p, d, w, k, e, DurationUnits)
    ensures DurationAt(s, i).Some?
  {
    LiteralsStartWithLetters();
    CountUnitComplete(s, p, d, w, k, e, DurationUnits);
    if p != i {
      SkipWhiteAt(s, i + 3, p);
    }
  }

  // The drug name, `(\w*cillin|ibuprofen|...|diazepam)\s*(\d+\s*(?:mg|mcg|g|ml|units?))?`.

  /** `s[i..n]` is word characters up to `c`, then "cillin". */
  predicate CillinParts(s: string, i: nat, c: nat, n: nat) {
    AllWord(s, i, c) && StartsAt(s, c, "cillin") && n == c + 6
  }

  /** `s[i..n]` is the listed drug `DrugNames[k]`. */
  predicate ListedDrug(s: string, i: nat, k: nat, n: nat) {
    k < |DrugNames| && StartsAt(s, i, DrugNames[k]) && n == i + |DrugNames[k]|
  }

  /** `s[i..n]` has the shape of one of the alternatives of the name group. */
  ghost predicate DrugNameShape(s: string, i: nat, n: nat) {
    (exists c: nat :: CillinParts(s, i, c, n)) || (exists k: nat :: ListedDrug(s, i, k, n))
  }

  /** No "cillin" starts after `c` inside the word run from `i`. */
  ghost predicate NoCillinAfter(s: string, i: nat, c: nat) {
    forall k: nat :: c < k && AllWord(s, i, k) ==> !StartsAt(s, k, "cillin")
  }

  /** No "cillin" starts inside the word run from `i`. */
  ghost predicate NoCillin(s: string, i: nat) {
    forall c: nat :: AllWord(s, i, c) ==> !StartsAt(s, c, "cillin")
  }

  /**
   * The regex's reading of the name group: `\w*cillin` is tried first and,
   * its `\w*` being greedy, ends after the last "cillin" of the word run;
   * only when the run holds no "cillin" is the first listed drug standing
   * at `i` taken.
   */
  ghost predicate DrugName(s: string, i: nat, n: nat) {
    (exists c: nat :: CillinParts(s, i, c, n) && NoCillinAfter(s, i, c)) ||
    (NoCillin(s, i) && exists k: nat :: ListedDrug(s, i, k, n) && FirstLitAt(s, i, k, DrugNames))
  }

  /** No dose `\d+\s*(?:mg|...)` starts at `p`. */
  ghost predicate NoDoseAt(s: string, p: nat) {
    forall d: nat, w: nat, k: nat, e: nat :: !CountUnitParts(s, p, d, w, k, e, Units)
  }

  /** When the word run from `i` holds a "cillin", the name ends after the last one. */
  lemma CillinReading(s: string, i: nat, e: nat)
    requires i <= |s| && CillinEnd(s, i, SkipWord(s, i)) == Some(e)
    ensures CillinParts(s, i, e - 6, e) && NoCillinAfter(s, i, e - 6)
  {
    forall k: nat | e - 6 < k && AllWord(s, i, k) ensures !StartsAt(s, k, "cillin") {
      SkipWordCovers(s, i, k);
    }
  }

  /** When it holds none, the name is the first listed drug standing at `i`, if any. */
  lemma ListedReading(s: string, i: nat, n: nat)
    requires i <= |s| && CillinEnd(s, i, SkipWord(s, i)).None? && LitAt(s, i, DrugNames) == Some(n)
    ensures NoCillin(s, i) && exists k: nat :: ListedDrug(s, i, k, n) && FirstLitAt(s, i, k, DrugNames)
  {
    forall c: nat | AllWord(s, i, c) ensures !StartsAt(s, c, "cillin") {
      SkipWordCovers(s, i, c);
    }
    LitAtFirst(s, i, DrugNames);
    var k :| 0 <= k < |DrugNames| && StartsAt(s, i, DrugNames[k]) && n == i + |DrugNames[k]| &&
      (forall j :: 0 <= j < k ==> !StartsAt(s, i, DrugNames[j]));
    assert ListedDrug(s, i, k, n) && FirstLitAt(s, i, k, DrugNames);
  }

  /** Group 1 of the first name pattern is a drug name starting where the match does. */
  lemma DrugNameGroupSound(s: string, i: nat)
    requires i <= |s| && DrugNameAt(s, i).Some?
    ensures var m := DrugNameAt(s, i).value;
      m.g1.lo == i && DrugName(s, i, m.g1.hi)
  {
    match CillinEnd(s, i, SkipWord(s, i))
    case Some(e) =>
      CillinReading(s, i, e);
    case None =>
      ListedReading(s, i, DrugNameAt(s, i).value.g1.hi);
  }

  /**
   * Group 1 is a drug name; the white space after it is taken in full; group
   * 2, when present, is the dose that follows and ends the match, and it is
   * absent only when no dose stands there.
   */
  lemma DrugNameSound(s: string, i: nat)
    requires i <= |s| && DrugNameAt(s, i).Some?
    ensures var m := DrugNameAt(s, i).value;
      m.g1.lo == i && DrugName(s, i, m.g1.hi)
    ensures var m := DrugNameAt(s, i).value;
      var w := if m.g2.Some? then m.g2.value.lo else m.end;
      AllWhite(s, m.g1.hi, w) && (w == |s| || !IsWhite(s[w]))
    ensures var m := DrugNameAt(s, i).value;
      m.g2.Some? ==> m.g2.value.hi == m.end && CountUnit(s, m.g2.value.lo, m.end, Units)
    ensures var m := DrugNameAt(s, i).value;
      m.g2.None? ==> NoDoseAt(s, m.end)
  {
    DrugNameGroupSound(s, i);
    var m := DrugNameAt(s, i).value;
    var w := SkipWhite(s, m.g1.hi);
    if m.g2.Some? {
      CountUnitSound(s, w, Units);
    } else {
      forall d: nat, w': nat, k: nat, e: nat ensures !CountUnitParts(s, w, d, w', k, e, Units) {
        if CountUnitParts(s, w, d, w', k, e, Units) {
          DoseComplete(s, w, d, w', k, e);
        }
      }
    }
  }

  /** "cillin" is made of word characters. */
  lemma CillinIsWord(s: string, i: nat, c: nat)
    requires AllWord(s, i, c) && StartsAt(s, c, "cillin")
    ensures AllWord(s, i, c + 6)
  {
    forall k | c <= k < c + 6 ensures IsWordChar(s[k]) {
      assert s[k] == s[c..c + 6][k - c];
    }
  }

  /** Wherever a drug name stands, the first name pattern matches. */
  lemma DrugNameComplete(s: string, i: nat, n: nat)
    requires i <= |s| && DrugNameShape(s, i, n)
    ensures DrugNameAt(s, i).Some?
  {
    if exists c: nat :: CillinParts(s, i, c, n) {
      var c: nat :| CillinParts(s, i, c, n);
      CillinIsWord(s, i, c);
      SkipWordCovers(s, i, c + 6);
    }
  }

  /** The reading is unambiguous: "aspirincillin" is read to its last "cillin", never as "aspirin". */
  lemma DrugNameUnique(s: string, i: nat, n1: nat, n2: nat)
    requires DrugName(s, i, n1) && DrugName(s, i, n2)
    ensures n1 == n2
  {
    if exists c: nat :: CillinParts(s, i, c, n1) && NoCillinAfter(s, i, c) {
      var c1: nat :| CillinParts(s, i, c1, n1) && NoCillinAfter(s, i, c1);
      assert !NoCillin(s, i);
      var c2: nat :| CillinParts(s, i, c2, n2) && NoCillinAfter(s, i, c2);
    } else {
      var k1: nat :| ListedDrug(s, i, k1, n1) && FirstLitAt(s, i, k1, DrugNames);
      var k2: nat :| ListedDrug(s, i, k2, n2) && FirstLitAt(s, i, k2, DrugNames);
    }
  }

  // The form, `(tablet|...|drops)\s+of\s+(\w+)`.

  /** `\s+of\s+` from `p` up to `w`, with "of" at `q`, then word characters up to `e`. */
  predicate OfWordParts(s: string, p: nat, q: nat, w: nat, e: nat) {
    p < q && AllWhite(s, p, q) && StartsAt(s, q, "of") &&
    q + 2 < w && AllWhite(s, q + 2, w) && w < e && AllWord(s, w, e)
  }

  ghost predicate OfWordSpan(s: string, p: nat, w: nat, e: nat) {
    exists q: nat :: OfWordParts(s, p, q, w, e)
  }

  /** The span `g` of `(\w+)` is such a word, taken to the end of its run. */
  ghost predicate OfWordMatch(s: string, p: nat, g: Group) {
    OfWordSpan(s, p, g.lo, g.hi) && g.hi <= |s| && (g.hi == |s| || !IsWordChar(s[g.hi]))
  }

  lemma OfWordSound(s: string, p: nat)
    requires OfWord(s, p).Some?
    ensures OfWordMatch(s, p, OfWord(s, p).value)
  {
    var g := OfWord(s, p).value;
    assert OfWordParts(s, p, SkipWhite(s, p), g.lo, g.hi);
  }

  lemma OfWordComplete(s: string, p: nat, q: nat, w: nat, e: nat)
    requires OfWordParts(s, p, q, w, e)
    ensures OfWord(s, p).Some?
  {
    LetterAt(s, q, "of");
    SkipWhiteAt(s, p, q);
    SkipWhiteAt(s, q + 2, w);
    SkipWordCovers(s, w, e);
  }

  // What the continuation of an alternation guarantees, stated of any
  // continuation so that the alternation lemmas never unfold a lambda.

  ghost predicate OfWordCont(s: string, cont: nat -> Option<Group>) {
    forall p: nat :: cont(p).Some? ==> OfWordMatch(s, p, cont(p).value)
  }

  ghost predicate OfWordContComplete(s: string, cont: nat -> Option<Group>) {
    forall p: nat, q: nat, w: nat, e: nat :: OfWordParts(s, p, q, w, e) ==> cont(p).Some?
  }

  lemma OfWordFromCont(s: string)
    ensures OfWordCont(s, OfWordFrom(s)) && OfWordContComplete(s, OfWordFrom(s))
  {
    forall p: nat | OfWordFrom(s)(p).Some? ensures OfWordMatch(s, p, OfWordFrom(s)(p).value) {
      OfWordSound(s, p);
    }
    forall p: nat, q: nat, w: nat, e: nat | OfWordParts(s, p, q, w, e) ensures OfWordFrom(s)(p).Some? {
      OfWordComplete(s, p, q, w, e);
    }
  }

  /** The form alternation over any list of forms: the alternative taken, then `\s+of\s+(\w+)`. */
  lemma FormAltSound(s: string, i: nat, lits: seq<string>, cont: nat -> Option<Group>)
    requires OfWordCont(s, cont) && Alt(s, i, lits, 0, cont).Some?
    ensures var r := Alt(s, i, lits, 0, cont).value;
      r.0 < |lits| && LitGroup(s, i, lits, Group(i, i + |lits[r.0]|)) && OfWordMatch(s, i + |lits[r.0]|, r.1)
  {
    var r := Alt(s, i, lits, 0, cont).value;
    assert StartsAt(s, i, lits[r.0]);
  }

  lemma FormAltComplete(s: string, i: nat, lits: seq<string>, cont: nat -> Option<Group>, k: nat, q: nat, w: nat, e: nat)
    requires OfWordContComplete(s, cont) && k < |lits| && StartsAt(s, i, lits[k])
    requires OfWordParts(s, i + |lits[k]|, q, w, e)
    ensures Alt(s, i, lits, 0, cont).Some?
  {
    AltTakes(s, i, lits, cont, k);
  }

  /** Group 1 is a listed form, group 2 the word after `of`, and the match ends with that word. */
  lemma FormOfSound(s: string, i: nat)
    requires i <= |s| && FormOfAt(s, i).Some?
    ensures var m := FormOfAt(s, i).value;
      LitGroup(s, i, Forms, m.g1) && m.g2.Some? && m.g2.value.hi == m.end && OfWordMatch(s, m.g1.hi, m.g2.value)
  {
    var r := Alt(s, i, Forms, 0, OfWordFrom(s)).value;
    assert StartsAt(s, i, Forms[r.0]);
    OfWordSound(s, FormOfAt(s, i).value.g1.hi);
  }

  lemma FormOfComplete(s: string, i: nat, k: nat, q: nat, w: nat, e: nat)
    requires i <= |s| && k < |Forms| && StartsAt(s, i, Forms[k]) && OfWordParts(s, i + |Forms[k]|, q, w, e)
    ensures FormOfAt(s, i).Some?
  {
    OfWordFromCont(s);
    FormAltComplete(s, i, Forms, OfWordFrom(s), k, q, w, e);
  }

  // `(\w+)\s+(\d+\s*(?:mg|mcg|g|ml|units?))`.

  /** A word up to `e`, white space up to `w`, then a dose ending at `d`. */
  ghost predicate WordDoseParts(s: string, i: nat, e: nat, w: nat, d: nat) {
    i < e && AllWord(s, i, e) && e < w && AllWhite(s, e, w) && CountUnit(s, w, d, Units)
  }

  /** Group 1 is the whole word run at `i`, group 2 the dose after the white space, ending the match. */
  lemma WordDoseSound(s: string, i: nat)
    requires i <= |s| && WordDoseAt(s, i).Some?
    ensures var m := WordDoseAt(s, i).value;
      m.g1.lo == i && m.g2.Some? && m.g2.value.hi == m.end &&
      WordDoseParts(s, i, m.g1.hi, m.g2.value.lo, m.end) &&
      (m.g1.hi == |s| || !IsWordChar(s[m.g1.hi]))
  {
    CountUnitSound(s, SkipWhite(s, SkipWord(s, i)), Units);
  }

  lemma WordDoseComplete(s: string, i: nat, e: nat, w: nat, d: nat, w': nat, k: nat, f: nat)
    requires i < e && AllWord(s, i, e) && e < w && AllWhite(s, e, w) && CountUnitParts(s, w, d, w', k, f, Units)
    ensures WordDoseAt(s, i).Some?
  {
    SkipWordAt(s, i, e);
    SkipWhiteAt(s, e, w);
    DoseComplete(s, w, d, w', k, f);
  }

  // `(once|...|4)\s*(?:times?\s*)?(?:daily|per day|a day)`.

  /** `\s*(?:daily|per day|a day)`: white space up to `u`, then the tail `DailyTails[k]`. */
  predicate DailyTailParts(s: string, t: nat, u: nat, k: nat, e: nat) {
    AllWhite(s, t, u) && k < |DailyTails| && StartsAt(s, u, DailyTails[k]) && e == u + |DailyTails[k]|
  }

  ghost predicate DailyTailSpan(s: string, t: nat, e: nat) {
    exists u: nat, k: nat :: DailyTailParts(s, t, u, k, e)
  }

  /**
   * From `p`: white space up to `q`, the word `words[j]` (the empty word when
   * the optional group is skipped), then the daily tail from after it to `e`.
   */
  predicate TimesParts(s: string, p: nat, q: nat, j: nat, u: nat, k: nat, e: nat, words: seq<string>) {
    AllWhite(s, p, q) && j < |words| && StartsAt(s, q, words[j]) && DailyTailParts(s, q + |words[j]|, u, k, e)
  }

  /** `\s*(?:times?\s*)?(?:daily|per day|a day)` from `p` to `e`. */
  ghost predicate DailyRestSpan(s: string, p: nat, e: nat) {
    exists q: nat, j: nat, u: nat, k: nat :: TimesParts(s, p, q, j, u, k, e, TimesWords)
  }

  lemma DailyTailSound(s: string, t: nat)
    requires DailyTail(s, t).Some?
    ensures DailyTailSpan(s, t, DailyTail(s, t).value)
  {
    var u := SkipWhite(s, t);
    LitAtFirst(s, u, DailyTails);
    var k :| 0 <= k < |DailyTails| && StartsAt(s, u, DailyTails[k]) && LitAt(s, u, DailyTails).value == u + |DailyTails[k]|;
    assert DailyTailParts(s, t, u, k, DailyTail(s, t).value);
  }

  lemma DailyTailComplete(s: string, t: nat, u: nat, k: nat, e: nat)
    requires DailyTailParts(s, t, u, k, e)
    ensures DailyTail(s, t).Some?
  {
    LiteralsStartWithLetters();
    LetterAt(s, u, DailyTails[k]);
    SkipWhiteAt(s, t, u);
  }

  ghost predicate DailyTailCont(s: string, cont: nat -> Option<nat>) {
    forall t: nat :: cont(t).Some? ==> DailyTailSpan(s, t, cont(t).value)
  }

  ghost predicate DailyTailContComplete(s: string, cont: nat -> Option<nat>) {
    forall t: nat, u: nat, k: nat, e: nat :: DailyTailParts(s, t, u, k, e) ==> cont(t).Some?
  }

  lemma DailyTailFromCont(s: string)
    ensures DailyTailCont(s, DailyTailFrom(s)) && DailyTailContComplete(s, DailyTailFrom(s))
  {
    forall t: nat | DailyTailFrom(s)(t).Some? ensures DailyTailSpan(s, t, DailyTailFrom(s)(t).value) {
      DailyTailSound(s, t);
    }
    forall t: nat, u: nat, k: nat, e: nat | DailyTailParts(s, t, u, k, e) ensures DailyTailFrom(s)(t).Some? {
      DailyTailComplete(s, t, u, k, e);
    }
  }

  /** The optional-word alternation after white space, over any list of words. */
  lemma TimesRestSound(s: string, p: nat, words: seq<string>, cont: nat -> Option<nat>)
    requires p <= |s| && DailyTailCont(s, cont) && Alt(s, SkipWhite(s, p), words, 0, cont).Some?
    ensures exists q: nat, j: nat, u: nat, k: nat ::
      TimesParts(s, p, q, j, u, k, Alt(s, SkipWhite(s, p), words, 0, cont).value.1, words)
  {
    var q := SkipWhite(s, p);
    var r := Alt(s, q, words, 0, cont).value;
    assert DailyTailSpan(s, q + |words[r.0]|, r.1);
    var u: nat, k: nat :| DailyTailParts(s, q + |words[r.0]|, u, k, r.1);
    assert TimesParts(s, p, q, r.0, u, k, r.1, words);
  }

  lemma TimesRestComplete(s: string, p: nat, q: nat, j: nat, u: nat, k: nat, e: nat, words: seq<string>, cont: nat -> Option<nat>)
    requires DailyTailContComplete(s, cont) && TimesParts(s, p, q, j, u, k, e, words)
    requires words[j] != [] ==> IsLowerAlpha(words[j][0])
    ensures Alt(s, SkipWhite(s, p), words, 0, cont).Some?
  {
    if words[j] != [] {
      LetterAt(s, q, words[j]);
      SkipWhiteAt(s, p, q);
      assert cont(q + |words[j]|).Some?;
      AltTakes(s, q, words, cont, j);
    } else {
      LiteralsStartWithLetters();
      LetterAt(s, u, DailyTails[k]);
      SkipWhiteAt(s, p, u);
      assert DailyTailParts(s, u, u, k, e);
      assert StartsAt(s, u, words[j]);
      AltTakes(s, u, words, cont, j);
    }
  }

  lemma DailyRestSound(s: string, p: nat)
    requires DailyRest(s, p).Some?
    ensures DailyRestSpan(s, p, DailyRest(s, p).value)
  {
    DailyTailFromCont(s);
    TimesRestSound(s, p, TimesWords, DailyTailFrom(s));
  }

  lemma DailyRestComplete(s: string, p: nat, q: nat, j: nat, u: nat, k: nat, e: nat)
    requires TimesParts(s, p, q, j, u, k, e, TimesWords)
    ensures DailyRest(s, p).Some?
  {
    DailyTailFromCont(s);
    TimesRestComplete(s, p, q, j, u, k, e, TimesWords, DailyTailFrom(s));
  }

  ghost predicate DailyRestCont(s: string, cont: nat -> Option<nat>) {
    forall p: nat :: cont(p).Some? ==> DailyRestSpan(s, p, cont(p).value)
  }

  ghost predicate DailyRestContComplete(s: string, cont: nat -> Option<nat>) {
    forall p: nat, q: nat, j: nat, u: nat, k: nat, e: nat ::
      TimesParts(s, p, q, j, u, k, e, TimesWords) ==> cont(p).Some?
  }

  lemma DailyRestFromSound(s: string)
    ensures DailyRestCont(s, DailyRestFrom(s))
  {
    forall p: nat | DailyRestFrom(s)(p).Some? ensures DailyRestSpan(s, p, DailyRestFrom(s)(p).value) {
      DailyRestSound(s, p);
    }
  }

  lemma DailyRestFromComplete(s: string)
    ensures DailyRestContComplete(s, DailyRestFrom(s))
  {
    forall p: nat, q: nat, j: nat, u: nat, k: nat, e: nat | TimesParts(s, p, q, j, u, k, e, TimesWords)
      ensures DailyRestFrom(s)(p).Some?
    {
      DailyRestComplete(s, p, q, j, u, k, e);
    }
  }

  /** The count alternation over any list of counts: the count taken, then the daily phrase. */
  lemma LeadAltSound(s: string, i: nat, lits: seq<string>, cont: nat -> Option<nat>, m: Match)
    requires DailyRestCont(s, cont) && Alt(s, i, lits, 0, cont).Some?
    requires var r := Alt(s, i, lits, 0, cont).value;
      r.0 < |lits| && m == Match(i, r.1, Group(i, i + |lits[r.0]|), None)
    ensures LitGroup(s, i, lits, m.g1) && m.g2.None? && DailyRestSpan(s, m.g1.hi, m.end)
  {
    var r := Alt(s, i, lits, 0, cont).value;
    assert StartsAt(s, i, lits[r.0]);
  }

  lemma LeadAltComplete(s: string, i: nat, lits: seq<string>, cont: nat -> Option<nat>,
                        c: nat, q: nat, j: nat, u: nat, k: nat, e: nat)
    requires DailyRestContComplete(s, cont) && c < |lits| && StartsAt(s, i, lits[c])
    requires TimesParts(s, i + |lits[c]|, q, j, u, k, e, TimesWords)
    ensures Alt(s, i, lits, 0, cont).Some?
  {
    AltTakes(s, i, lits, cont, c);
  }

  /** `DailyAt` reports what its count alternation found. */
  lemma DailyAtAlt(s: string, i: nat)
    requires i <= |s| && DailyAt(s, i).Some?
    ensures Alt(s, i, DailyLeads, 0, DailyRestFrom(s)).Some?
    ensures var r := Alt(s, i, DailyLeads, 0, DailyRestFrom(s)).value;
      r.0 < |DailyLeads| && DailyAt(s, i).value == Match(i, r.1, Group(i, i + |DailyLeads[r.0]|), None)
  {
  }

  /** Group 1 is one of the listed counts, and the rest of the match is the daily phrase. */
  lemma DailySound(s: string, i: nat)
    requires i <= |s| && DailyAt(s, i).Some?
    ensures var m := DailyAt(s, i).value;
      LitGroup(s, i, DailyLeads, m.g1) && m.g2.None? && DailyRestSpan(s, m.g1.hi, m.end)
  {
    DailyAtAlt(s, i);
    DailyRestFromSound(s);
    LeadAltSound(s, i, DailyLeads, DailyRestFrom(s), DailyAt(s, i).value);
  }

  lemma DailyComplete(s: string, i: nat, c: nat, q: nat, j: nat, u: nat, k: nat, e: nat)
    requires i <= |s| && c < |DailyLeads| && StartsAt(s, i, DailyLeads[c])
    requires TimesParts(s, i + |DailyLeads[c]|, q, j, u, k, e, TimesWords)
    ensures DailyAt(s, i).Some?
  {
    DailyRestFromComplete(s);
    LeadAltComplete(s, i, DailyLeads, DailyRestFrom(s), c, q, j, u, k, e);
  }

  // `(\d+)\s*times?`.

  /** Digits from `i` up to `d`, white space up to `w`, "time", and the match ending at `e` after an optional "s". */
  predicate TimesCountParts(s: string, i: nat, d: nat, w: nat, e: nat) {
    i < d && AllDigits(s, i, d) && AllWhite(s, d, w) && StartsAt(s, w, "time") &&
    (e == w + 4 || (e == w + 5 && w + 4 < |s| && s[w + 4] == 's'))
  }

  ghost predicate TimesCountSpan(s: string, i: nat, d: nat, e: nat) {
    exists w: nat :: TimesCountParts(s, i, d, w, e)
  }

  /**
   * Group 1 is the whole digit run at `i`, the match goes on to "time", and
   * the optional "s" is taken whenever it follows.
   */
  lemma TimesCountSound(s: string, i: nat)
    requires i <= |s| && TimesCountAt(s, i).Some?
    ensures var m := TimesCountAt(s, i).value;
      m.g1.lo == i && m.g2.None? && TimesCountSpan(s, i, m.g1.hi, m.end) &&
      (m.g1.hi == |s| || !IsDigit(s[m.g1.hi])) &&
      (m.end < |s| && s[m.end - 1] == 'e' ==> s[m.end] != 's')
  {
    var m := TimesCountAt(s, i).value;
    var w := SkipWhite(s, m.g1.hi);
    assert TimesCountParts(s, i, m.g1.hi, w, m.end);
    assert s[w + 3] == s[w..w + 4][3];
  }

  lemma TimesCountComplete(s: string, i: nat, d: nat, w: nat, e: nat)
    requires TimesCountParts(s, i, d, w, e)
    ensures TimesCountAt(s, i).Some?
  {
    LetterAt(s, w, "time");
    SkipDigitsAt(s, i, d);
    SkipWhiteAt(s, d, w);
  }

  // `((?:take|apply|use)\s+(?:after|before|with|without)\s+(?:meals?|food|eating))`.

  /** `\s+(?:meals?|food|eating)` from `p`: white space up to `q`, then the meal word `Meals[k]`, ending at `e`. */
  predicate MealParts(s: string, p: nat, q: nat, k: nat, e: nat) {
    p < q && AllWhite(s, p, q) && k < |Meals| && StartsAt(s, q, Meals[k]) && e == q + |Meals[k]|
  }

  /** The regex's reading of `\s+(?:meals?|food|eating)`: where "meals" stands, "meals" and not "meal" is taken. */
  ghost predicate MealSpan(s: string, p: nat, e: nat) {
    exists q: nat, k: nat :: MealParts(s, p, q, k, e) && FirstLitAt(s, q, k, Meals)
  }

  /** From `p`: white space up to `q`, the preposition `lits[j]`, then a meal word from after it to `e`. */
  predicate PrepParts(s: string, p: nat, q: nat, j: nat, r: nat, k: nat, e: nat, lits: seq<string>) {
    p < q && AllWhite(s, p, q) && j < |lits| && StartsAt(s, q, lits[j]) && MealParts(s, q + |lits[j]|, r, k, e)
  }

  /** `\s+(?:after|before|with|without)\s+(?:meals?|food|eating)` from `p` to `e`. */
  ghost predicate PrepSpan(s: string, p: nat, e: nat) {
    exists q: nat, j: nat, r: nat, k: nat :: PrepParts(s, p, q, j, r, k, e, Preps) && FirstLitAt(s, r, k, Meals)
  }

  /** One of the verbs `verbs` at `i`, then the rest of the instruction up to `e`. */
  ghost predicate InstructionSpan(s: string, i: nat, e: nat, verbs: seq<string>) {
    exists v: nat :: v < |verbs| && StartsAt(s, i, verbs[v]) && PrepSpan(s, i + |verbs[v]|, e)
  }

  lemma MealRestSound(s: string, p: nat)
    requires MealRest(s, p).Some?
    ensures MealSpan(s, p, MealRest(s, p).value)
  {
    var q := SkipWhite(s, p);
    LitAtFirst(s, q, Meals);
    var k :| 0 <= k < |Meals| && StartsAt(s, q, Meals[k]) && LitAt(s, q, Meals).value == q + |Meals[k]| &&
      (forall j :: 0 <= j < k ==> !StartsAt(s, q, Meals[j]));
    assert MealParts(s, p, q, k, MealRest(s, p).value) && FirstLitAt(s, q, k, Meals);
  }

  lemma MealRestComplete(s: string, p: nat, q: nat, k: nat, e: nat)
    requires MealParts(s, p, q, k, e)
    ensures MealRest(s, p).Some?
  {
    LiteralsStartWithLetters();
    LetterAt(s, q, Meals[k]);
    SkipWhiteAt(s, p, q);
  }

  /** The white space before a literal that starts with a letter is the maximal run, and the literal is the first that stands. */
  lemma WhiteLitUnique(s: string, p: nat, q1: nat, k1: nat, q2: nat, k2: nat, lits: seq<string>)
    requires LetterLits(lits) && AllWhite(s, p, q1) && AllWhite(s, p, q2)
    requires FirstLitAt(s, q1, k1, lits) && FirstLitAt(s, q2, k2, lits)
    ensures q1 == q2 && k1 == k2
  {
    LetterAt(s, q1, lits[k1]);
    LetterAt(s, q2, lits[k2]);
    SkipWhiteAt(s, p, q1);
    SkipWhiteAt(s, p, q2);
  }

  /** The reading is unambiguous: " meals" ends after "meals" and never after "meal". */
  lemma MealSpanUnique(s: string, p: nat, e1: nat, e2: nat)
    requires MealSpan(s, p, e1) && MealSpan(s, p, e2)
    ensures e1 == e2
  {
    var q1: nat, k1: nat :| MealParts(s, p, q1, k1, e1) && FirstLitAt(s, q1, k1, Meals);
    var q2: nat, k2: nat :| MealParts(s, p, q2, k2, e2) && FirstLitAt(s, q2, k2, Meals);
    LiteralsStartWithLetters();
    WhiteLitUnique(s, p, q1, k1, q2, k2, Meals);
  }

  ghost predicate MealCont(s: string, cont: nat -> Option<nat>) {
    forall p: nat :: cont(p).Some? ==> MealSpan(s, p, cont(p).value)
  }

  ghost predicate MealContComplete(s: string, cont: nat -> Option<nat>) {
    forall p: nat, q: nat, k: nat, e: nat :: MealParts(s, p, q, k, e) ==> cont(p).Some?
  }

  lemma MealRestFromSound(s: string)
    ensures MealCont(s, MealRestFrom(s))
  {
    forall p: nat | MealRestFrom(s)(p).Some? ensures MealSpan(s, p, MealRestFrom(s)(p).value) {
      MealRestSound(s, p);
    }
  }

  lemma MealRestFromComplete(s: string)
    ensures MealContComplete(s, MealRestFrom(s))
  {
    forall p: nat, q: nat, k: nat, e: nat | MealParts(s, p, q, k, e) ensures MealRestFrom(s)(p).Some? {
      MealRestComplete(s, p, q, k, e);
    }
  }

  /** The preposition alternation after white space, over any list of prepositions. */
  lemma PrepAltSound(s: string, p: nat, lits: seq<string>, cont: nat -> Option<nat>)
    requires p <= |s| && SkipWhite(s, p) > p && MealCont(s, cont) && Alt(s, SkipWhite(s, p), lits, 0, cont).Some?
    ensures exists q: nat, j: nat, r: nat, k: nat ::
      PrepParts(s, p, q, j, r, k, Alt(s, SkipWhite(s, p), lits, 0, cont).value.1, lits) && FirstLitAt(s, r, k, Meals)
  {
    var q := SkipWhite(s, p);
    var a := Alt(s, q, lits, 0, cont).value;
    assert MealSpan(s, q + |lits[a.0]|, a.1);
    var r: nat, k: nat :| MealParts(s, q + |lits[a.0]|, r, k, a.1) && FirstLitAt(s, r, k, Meals);
    assert PrepParts(s, p, q, a.0, r, k, a.1, lits);
  }

  lemma PrepAltComplete(s: string, p: nat, q: nat, j: nat, r: nat, k: nat, e: nat, lits: seq<string>, cont: nat -> Option<nat>)
    requires MealContComplete(s, cont) && LetterLits(lits) && PrepParts(s, p, q, j, r, k, e, lits)
    ensures SkipWhite(s, p) > p && Alt(s, SkipWhite(s, p), lits, 0, cont).Some?
  {
    LetterAt(s, q, lits[j]);
    SkipWhiteAt(s, p, q);
    assert cont(q + |lits[j]|).Some?;
    AltTakes(s, q, lits, cont, j);
  }

  lemma PrepRestSound(s: string, p: nat)
    requires PrepRest(s, p).Some?
    ensures PrepSpan(s, p, PrepRest(s, p).value)
  {
    MealRestFromSound(s);
    PrepAltSound(s, p, Preps, MealRestFrom(s));
  }

  lemma PrepRestComplete(s: string, p: nat, q: nat, j: nat, r: nat, k: nat, e: nat)
    requires PrepParts(s, p, q, j, r, k, e, Preps)
    ensures PrepRest(s, p).Some?
  {
    LiteralsStartWithLetters();
    MealRestFromComplete(s);
    PrepAltComplete(s, p, q, j, r, k, e, Preps, MealRestFrom(s));
  }

  ghost predicate PrepCont(s: string, cont: nat -> Option<nat>) {
    forall p: nat :: cont(p).Some? ==> PrepSpan(s, p, cont(p).value)
  }

  ghost predicate PrepContComplete(s: string, cont: nat -> Option<nat>) {
    forall p: nat, q: nat, j: nat, r: nat, k: nat, e: nat :: PrepParts(s, p, q, j, r, k, e, Preps) ==> cont(p).Some?
  }

  lemma PrepRestFromSound(s: string)
    ensures PrepCont(s, PrepRestFrom(s))
  {
    forall p: nat | PrepRestFrom(s)(p).Some? ensures PrepSpan(s, p, PrepRestFrom(s)(p).value) {
      PrepRestSound(s, p);
    }
  }

  lemma PrepRestFromComplete(s: string)
    ensures PrepContComplete(s, PrepRestFrom(s))
  {
    forall p: nat, q: nat, j: nat, r: nat, k: nat, e: nat | PrepParts(s, p, q, j, r, k, e, Preps)
      ensures PrepRestFrom(s)(p).Some?
    {
      PrepRestComplete(s, p, q, j, r, k, e);
    }
  }

  /** The verb alternation over any list of verbs: a verb, then the rest of the instruction. */
  lemma VerbAltSound(s: string, i: nat, lits: seq<string>, cont: nat -> Option<nat>, m: Match)
    requires PrepCont(s, cont) && Alt(s, i, lits, 0, cont).Some?
    requires var a := Alt(s, i, lits, 0, cont).value; m == Match(i, a.1, Group(i, a.1), None)
    ensures m.g1 == Group(i, m.end) && m.g2.None? && InstructionSpan(s, i, m.end, lits)
  {
    var a := Alt(s, i, lits, 0, cont).value;
    assert StartsAt(s, i, lits[a.0]);
  }

  lemma VerbAltComplete(s: string, i: nat, lits: seq<string>, cont: nat -> Option<nat>,
                        v: nat, q: nat, j: nat, r: nat, k: nat, e: nat)
    requires PrepContComplete(s, cont) && v < |lits| && StartsAt(s, i, lits[v])
    requires PrepParts(s, i + |lits[v]|, q, j, r, k, e, Preps)
    ensures Alt(s, i, lits, 0, cont).Some?
  {
    AltTakes(s, i, lits, cont, v);
  }

  /** `InstructionAt` reports what its verb alternation found. */
  lemma InstructionAtAlt(s: string, i: nat)
    requires i <= |s| && InstructionAt(s, i).Some?
    ensures Alt(s, i, Verbs, 0, PrepRestFrom(s)).Some?
    ensures var a := Alt(s, i, Verbs, 0, PrepRestFrom(s)).value;
      InstructionAt(s, i).value == Match(i, a.1, Group(i, a.1), None)
  {
  }

  /** The match, and its group, is a verb, a preposition and a meal word, each after white space. */
  lemma InstructionSound(s: string, i: nat)
    requires i <= |s| && InstructionAt(s, i).Some?
    ensures var m := InstructionAt(s, i).value;
      m.g1 == Group(i, m.end) && m.g2.None? && InstructionSpan(s, i, m.end, Verbs)
  {
    InstructionAtAlt(s, i);
    PrepRestFromSound(s);
    VerbAltSound(s, i, Verbs, PrepRestFrom(s), InstructionAt(s, i).value);
  }

  lemma InstructionComplete(s: string, i: nat, v: nat, q: nat, j: nat, r: nat, k: nat, e: nat)
    requires i <= |s| && v < |Verbs| && StartsAt(s, i, Verbs[v])
    requires PrepParts(s, i + |Verbs[v]|, q, j, r, k, e, Preps)
    ensures InstructionAt(s, i).Some?
  {
    PrepRestFromComplete(s);
    VerbAltComplete(s, i, Verbs, PrepRestFrom(s), v, q, j, r, k, e);
  }

  // The searches of the text after a name.

  /** Wherever one of the three phrases or `every N hours` stands, a frequency is found there. */
  lemma FollowingFrequencyComplete(s: string, i: nat, w: string)
    requires i <= |s| && OccursAt(s, w, i) && (w in FollowingFrequencies || IsEveryHours(w))
    ensures FollowingFrequencyAt(s, i).Some?
  {
    if w in FollowingFrequencies {
      var k :| 0 <= k < |FollowingFrequencies| && FollowingFrequencies[k] == w;
      assert StartsAt(s, i, FollowingFrequencies[k]);
    } else {
      var d := i + |w| - 6;
      assert s[i..i + 6] == s[i..i + |w|][..6];
      assert s[d..d + 6] == s[i..i + |w|][|w| - 6..];
      forall k | i + 6 <= k < d ensures IsDigit(s[k]) {
        assert s[k] == w[k - i];
      }
      assert s[d] == s[d..d + 6][0];
      SkipDigitsAt(s, i + 6, d);
    }
  }

  /** `for\s+\d+\s+(day|days|week|weeks)` at `i`, with the unit `FollowingDurationUnits[k]` at `w`, ending at `e`. */
  predicate FollowingDurationParts(s: string, i: nat, p: nat, d: nat, w: nat, k: nat, e: nat) {
    ForLead(s, i, p) && p < d && AllDigits(s, p, d) && d < w && AllWhite(s, d, w) &&
    k < |FollowingDurationUnits| && StartsAt(s, w, FollowingDurationUnits[k]) && e == w + |FollowingDurationUnits[k]|
  }

  ghost predicate FollowingDurationSpan(s: string, i: nat, w: nat, e: nat) {
    exists p: nat, d: nat, k: nat :: FollowingDurationParts(s, i, p, d, w, k, e)
  }

  /** The match is `for`, a count and a unit; the group is the unit, and it ends the match. */
  lemma FollowingDurationSound(s: string, i: nat)
    requires i <= |s| && FollowingDurationAt(s, i).Some?
    ensures var m := FollowingDurationAt(s, i).value;
      m.g1.hi == m.end && m.g2.None? && FollowingDurationSpan(s, i, m.g1.lo, m.end)
  {
    var p := SkipWhite(s, i + 3);
    var d := SkipDigits(s, p);
    var w := SkipWhite(s, d);
    LitAtFirst(s, w, FollowingDurationUnits);
    var k :| 0 <= k < |FollowingDurationUnits| && StartsAt(s, w, FollowingDurationUnits[k]) &&
      LitAt(s, w, FollowingDurationUnits).value == w + |FollowingDurationUnits[k]|;
    assert FollowingDurationParts(s, i, p, d, w, k, FollowingDurationAt(s, i).value.end);
  }

  lemma FollowingDurationComplete(s: string, i: nat, p: nat, d: nat, w: nat, k: nat, e: nat)
    requires i <= |s| && FollowingDurationParts(s, i, p, d, w, k, e)
    ensures FollowingDurationAt(s, i).Some?
  {
    LiteralsStartWithLetters();
    LetterAt(s, w, FollowingDurationUnits[k]);
    SkipWhiteAt(s, i + 3, p);
    SkipDigitsAt(s, p, d);
    SkipWhiteAt(s, d, w);
  }

  /** Wherever one of the five phrases stands, instructions are found there. */
  lemma FollowingInstructionsComplete(s: string, i: nat, w: string)
    requires i <= |s| && OccursAt(s, w, i) && w in FollowingInstructions
    ensures FollowingInstructionsAt(s, i).Some?
  {
    var k :| 0 <= k < |FollowingInstructions| && FollowingInstructions[k] == w;
    assert StartsAt(s, i, FollowingInstructions[k]);
  }
}
