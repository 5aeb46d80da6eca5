/** The Option type used for the host language's `undefined` / "no match". */
module Wrappers {
  datatype Option<+T> = None | Some(value: T)
}

/**
 * Character classes and string primitives of the JavaScript host that the
 * parser and the two HTML templates rely on: `\s`, `\w`, `\d`, ASCII case
 * mapping, `String.prototype.trim`, `split` on a character-class run,
 * `parseInt` of a digit run and the decimal printing of integers.
 */
module Text {
  import opened Wrappers

  /** `\s` of a JavaScript regular expression, which is also the set that `trim` removes. */
  predicate IsWhite(c: char) {
    var n := c as int;
    n == 0x09 || n == 0x0A || n == 0x0B || n == 0x0C || n == 0x0D || n == 0x20 ||
    n == 0xA0 || n == 0x1680 || (0x2000 <= n <= 0x200A) || n == 0x2028 || n == 0x2029 ||
    n == 0x202F || n == 0x205F || n == 0x3000 || n == 0xFEFF
  }

  /** `\d` */
  predicate IsDigit(c: char) {
    '0' <= c <= '9'
  }

  predicate IsLowerAlpha(c: char) {
    'a' <= c <= 'z'
  }

  predicate IsUpperAlpha(c: char) {
    'A' <= c <= 'Z'
  }

  /** `\w` (without the `u` flag): ASCII letters, digits and underscore. */
  predicate IsWordChar(c: char) {
    IsLowerAlpha(c) || IsUpperAlpha(c) || IsDigit(c) || c == '_'
  }

  function LowerChar(c: char): (r: char)
    ensures !IsUpperAlpha(r)
    ensures IsUpperAlpha(c) || r == c
  {
    if IsUpperAlpha(c) then (c as int + 32) as char else c
  }

  function UpperChar(c: char): (r: char)
    ensures !IsLowerAlpha(r)
    ensures IsLowerAlpha(c) || r == c
  {
    if IsLowerAlpha(c) then (c as int - 32) as char else c
  }

  /** `toLowerCase`, restricted to ASCII letters. */
  function Lower(s: string): (r: string)
    ensures |r| == |s|
    ensures forall k :: 0 <= k < |s| ==> r[k] == LowerChar(s[k])
  {
    if s == [] then [] else [LowerChar(s[0])] + Lower(s[1..])
  }

  /** No upper-case ASCII letter occurs in `s`. */
  predicate IsLowered(s: string) {
    forall k :: 0 <= k < |s| ==> !IsUpperAlpha(s[k])
  }

  lemma LowerOfLowered(s: string)
    requires IsLowered(s)
    ensures Lower(s) == s
  {
  }

  /** The end of the longest run of characters satisfying `P` that starts at `i`. */
  function Span(s: string, i: nat, P: char -> bool): (r: nat)
    requires i <= |s|
    ensures i <= r <= |s|
    ensures forall k :: i <= k < r ==> P(s[k])
    ensures r == |s| || !P(s[r])
    decreases |s| - i
  {
    if i < |s| && P(s[i]) then Span(s, i + 1, P) else i
  }

  /** The end of the longest run of characters not satisfying `P` that starts at `i`. */
  function SpanNot(s: string, i: nat, P: char -> bool): (r: nat)
    requires i <= |s|
    ensures i <= r <= |s|
    ensures forall k :: i <= k < r ==> !P(s[k])
    ensures r == |s| || P(s[r])
    decreases |s| - i
  {
    if i < |s| && !P(s[i]) then SpanNot(s, i + 1, P) else i
  }

  function SkipWhite(s: string, i: nat): (r: nat)
    requires i <= |s|
    ensures i <= r <= |s|
    ensures forall k :: i <= k < r ==> IsWhite(s[k])
    ensures r == |s| || !IsWhite(s[r])
    decreases |s| - i
  {
    if i < |s| && IsWhite(s[i]) then SkipWhite(s, i + 1) else i
  }

  function SkipDigits(s: string, i: nat): (r: nat)
    requires i <= |s|
    ensures i <= r <= |s|
    ensures forall k :: i <= k < r ==> IsDigit(s[k])
    ensures r == |s| || !IsDigit(s[r])
    decreases |s| - i
  {
    if i < |s| && IsDigit(s[i]) then SkipDigits(s, i + 1) else i
  }

  function SkipWord(s: string, i: nat): (r: nat)
    requires i <= |s|
    ensures i <= r <= |s|
    ensures forall k :: i <= k < r ==> IsWordChar(s[k])
    ensures r == |s| || !IsWordChar(s[r])
    decreases |s| - i
  {
    if i < |s| && IsWordChar(s[i]) then SkipWord(s, i + 1) else i
  }

  // Runs of one character class, and why the greedy skips above find the
  // only run that can be followed by a character outside the class.

  /** `s[lo..hi]` is a run of `\s` */
  predicate AllWhite(s: string, lo: nat, hi: nat) {
    lo <= hi <= |s| && forall k :: lo <= k < hi ==> IsWhite(s[k])
  }

  /** `s[lo..hi]` is a run of `\d` */
  predicate AllDigits(s: string, lo: nat, hi: nat) {
    lo <= hi <= |s| && forall k :: lo <= k < hi ==> IsDigit(s[k])
  }

  /** `s[lo..hi]` is a run of `\w` */
  predicate AllWord(s: string, lo: nat, hi: nat) {
    lo <= hi <= |s| && forall k :: lo <= k < hi ==> IsWordChar(s[k])
  }

  /** A white run that ends before a non-white character is the one `SkipWhite` finds. */
  lemma {:induction false} SkipWhiteAt(s: string, i: nat, e: nat)
    requires AllWhite(s, i, e) && (e == |s| || !IsWhite(s[e]))
    ensures SkipWhite(s, i) == e
    decreases e - i
  {
    if i < e {
      SkipWhiteAt(s, i + 1, e);
    }
  }

  /** A digit run that ends before a non-digit is the one `SkipDigits` finds. */
  lemma {:induction false} SkipDigitsAt(s: string, i: nat, e: nat)
    requires AllDigits(s, i, e) && (e == |s| || !IsDigit(s[e]))
    ensures SkipDigits(s, i) == e
    decreases e - i
  {
    if i < e {
      SkipDigitsAt(s, i + 1, e);
    }
  }

  /** A word run that ends before a non-word character is the one `SkipWord` finds. */
  lemma {:induction false} SkipWordAt(s: string, i: nat, e: nat)
    requires AllWord(s, i, e) && (e == |s| || !IsWordChar(s[e]))
    ensures SkipWord(s, i) == e
    decreases e - i
  {
    if i < e {
      SkipWordAt(s, i + 1, e);
    }
  }

  /** `SkipWord` goes at least as far as any word run from the same start. */
  lemma {:induction false} SkipWordCovers(s: string, i: nat, e: nat)
    requires AllWord(s, i, e)
    ensures e <= SkipWord(s, i)
    decreases e - i
  {
    if i < e {
      SkipWordCovers(s, i + 1, e);
    }
  }

  /** A literal that starts with a lower-case letter puts that letter at its position. */
  lemma LetterAt(s: string, i: nat, lit: string)
    requires StartsAt(s, i, lit) && lit != [] && IsLowerAlpha(lit[0])
    ensures i < |s| && IsLowerAlpha(s[i]) && !IsWhite(s[i]) && !IsDigit(s[i]) && IsWordChar(s[i])
  {
    assert s[i..i + |lit|][0] == s[i];
  }

  /** The literal `lit` occurs in `s` at position `i`. */
  predicate StartsAt(s: string, i: nat, lit: string) {
    i + |lit| <= |s| && s[i..i + |lit|] == lit
  }

  /**
   * The index of the first literal of `lits`, from index `j` on, that occurs
   * at position `i`: an alternation of literals tried in source order.
   */
  function FirstLitFrom(s: string, i: nat, lits: seq<string>, j: nat): (r: Option<nat>)
    requires j <= |lits|
    ensures r.Some? ==> j <= r.value < |lits| && StartsAt(s, i, lits[r.value])
    decreases |lits| - j
  {
    if j == |lits| then None
    else if StartsAt(s, i, lits[j]) then Some(j)
    else FirstLitFrom(s, i, lits, j + 1)
  }

  /** No literal before the one `FirstLitFrom` finds stands at `i`, and it finds none only when none does. */
  lemma {:induction false} FirstLitFromOrder(s: string, i: nat, lits: seq<string>, j: nat)
    requires j <= |lits|
    ensures var r := FirstLitFrom(s, i, lits, j);
      r.Some? ==> forall k :: j <= k < r.value ==> !StartsAt(s, i, lits[k])
    ensures FirstLitFrom(s, i, lits, j).None? ==> forall k :: j <= k < |lits| ==> !StartsAt(s, i, lits[k])
    decreases |lits| - j
  {
    if j < |lits| && !StartsAt(s, i, lits[j]) {
      FirstLitFromOrder(s, i, lits, j + 1);
    }
  }

  function FirstLit(s: string, i: nat, lits: seq<string>): (r: Option<nat>)
    ensures r.Some? ==> r.value < |lits| && StartsAt(s, i, lits[r.value])
  {
    FirstLitFrom(s, i, lits, 0)
  }

  /** `FirstLit` finds the first literal, in the order of `lits`, that stands at `i`. */
  lemma FirstLitOrder(s: string, i: nat, lits: seq<string>)
    ensures var r := FirstLit(s, i, lits);
      r.Some? ==> forall k :: 0 <= k < r.value ==> !StartsAt(s, i, lits[k])
    ensures FirstLit(s, i, lits).None? ==> forall k :: 0 <= k < |lits| ==> !StartsAt(s, i, lits[k])
  {
    FirstLitFromOrder(s, i, lits, 0);
  }

  /** The end just after the first literal of `lits` found at `i`, if any. */
  function LitEnd(s: string, i: nat, lits: seq<string>): (r: Option<nat>)
    ensures r.Some? ==> i <= r.value <= |s|
    ensures r.Some? <==> exists k :: 0 <= k < |lits| && StartsAt(s, i, lits[k])
  {
    FirstLitOrder(s, i, lits);
    match FirstLit(s, i, lits)
    case None => None
    case Some(k) => Some(i + |lits[k]|)
  }

  /** Position of the first character of a trimmed string. */
  function TrimLo(s: string): (r: nat)
    ensures r <= |s|
    ensures forall k :: 0 <= k < r ==> IsWhite(s[k])
    ensures r == |s| || !IsWhite(s[r])
  {
    SkipWhite(s, 0)
  }

  /** Position just after the last non-white character at or after `lo`. */
  function TrimHi(s: string, lo: nat, hi: nat): (r: nat)
    requires lo <= hi <= |s|
    ensures lo <= r <= hi
    ensures forall k :: r <= k < hi ==> IsWhite(s[k])
    ensures r == lo || !IsWhite(s[r - 1])
    decreases hi
  {
    if hi > lo && IsWhite(s[hi - 1]) then TrimHi(s, lo, hi - 1) else hi
  }

  /** `trim`: remove leading and trailing white space. */
  function Trim(s: string): (r: string)
    ensures |r| <= |s|
    ensures r != [] ==> !IsWhite(r[0]) && !IsWhite(r[|r| - 1])
    ensures (forall k :: 0 <= k < |s| ==> IsWhite(s[k])) <==> r == []
    ensures forall c :: c in r ==> c in s
  {
    var lo := TrimLo(s);
    var hi := TrimHi(s, lo, |s|);
    assert forall k :: lo <= k < hi ==> s[lo..hi][k - lo] == s[k];
    if hi == lo then
      assert forall k :: 0 <= k < |s| ==> IsWhite(s[k]) by {
        forall k | 0 <= k < |s| ensures IsWhite(s[k]) {
        }
      }
      s[lo..hi]
    else
      assert !IsWhite(s[lo]);
      s[lo..hi]
  }

  /**
   * `s.split(/[P]+/)`: the pieces between maximal runs of separators, with an
   * empty first (last) piece when `s` starts (ends) with a separator.
   */
  function SplitRuns(s: string, P: char -> bool): (r: seq<string>)
    ensures |r| >= 1
    ensures forall k, c :: 0 <= k < |r| && c in r[k] ==> c in s && !P(c)
    decreases |s|
  {
    var i := SpanNot(s, 0, P);
    if i == |s| then
      [s]
    else
      var j := Span(s, i, P);
      var rest := SplitRuns(s[j..], P);
      assert forall c :: c in s[..i] ==> c in s && !P(c) by {
        forall c | c in s[..i] ensures c in s && !P(c) {
          var k :| 0 <= k < i && s[k] == c;
        }
      }
      assert forall c :: c in s[j..] ==> c in s;
      [s[..i]] + rest
  }

  /**
   * `trim` removes exactly a white prefix and a white suffix: the result is
   * a slice of `s` with only white space outside it. With the ends of the
   * result not white (Trim's own contract), that slice is the only one.
   */
  lemma TrimStripsWhite(s: string)
    ensures exists lo, hi :: 0 <= lo <= hi <= |s| && Trim(s) == s[lo..hi] &&
                            (forall k :: 0 <= k < lo ==> IsWhite(s[k])) &&
                            (forall k :: hi <= k < |s| ==> IsWhite(s[k]))
  {
    var lo := TrimLo(s);
    var hi := TrimHi(s, lo, |s|);
    assert Trim(s) == s[lo..hi];
  }

  /** A separator run of `split(/[P]+/)`: a non-empty run of separator characters. */
  ghost predicate IsSeparatorRun(sep: string, P: char -> bool) {
    sep != [] && forall k :: 0 <= k < |sep| ==> P(sep[k])
  }

  /** `pieces[0] + seps[0] + pieces[1] + ... + pieces[n]`: the inverse of a split. */
  function Interleave(pieces: seq<string>, seps: seq<string>): string
    requires |pieces| == |seps| + 1
    decreases |seps|
  {
    if seps == [] then pieces[0] else pieces[0] + seps[0] + Interleave(pieces[1..], seps[1..])
  }

  lemma SliceJoin(s: string, i: nat, j: nat)
    requires i <= j <= |s|
    ensures s[..i] + s[i..j] + s[j..] == s
  {
  }

  lemma InterleaveCons(p: string, pieces: seq<string>, sep: string, seps: seq<string>)
    requires |pieces| == |seps| + 1
    ensures Interleave([p] + pieces, [sep] + seps) == p + sep + Interleave(pieces, seps)
  {
    assert ([p] + pieces)[1..] == pieces;
    assert ([sep] + seps)[1..] == seps;
  }

  /** The separator runs `s.split(/[P]+/)` cuts out, in order. */
  function SeparatorRuns(s: string, P: char -> bool): seq<string>
    decreases |s|
  {
    var i := SpanNot(s, 0, P);
    if i == |s| then [] else [s[i..Span(s, i, P)]] + SeparatorRuns(s[Span(s, i, P)..], P)
  }

  /**
   * The pieces of `split`, joined again with the separator runs between
   * them, give back `s`. As no piece holds a separator character and every
   * run is a non-empty run of separators (SeparatorRunsAreRuns), the runs
   * are maximal and this is the only split of `s` of that form.
   */
  lemma {:induction false} SplitRunsRebuild(s: string, P: char -> bool)
    ensures |SeparatorRuns(s, P)| + 1 == |SplitRuns(s, P)|
    ensures Interleave(SplitRuns(s, P), SeparatorRuns(s, P)) == s
    decreases |s|
  {
    var i := SpanNot(s, 0, P);
    if i < |s| {
      var j := Span(s, i, P);
      SplitRunsRebuild(s[j..], P);
      InterleaveCons(s[..i], SplitRuns(s[j..], P), s[i..j], SeparatorRuns(s[j..], P));
      SliceJoin(s, i, j);
    }
  }

  lemma {:induction false} SeparatorRunsAreRuns(s: string, P: char -> bool)
    ensures forall k :: 0 <= k < |SeparatorRuns(s, P)| ==> IsSeparatorRun(SeparatorRuns(s, P)[k], P)
    decreases |s|
  {
    var i := SpanNot(s, 0, P);
    if i < |s| {
      var j := Span(s, i, P);
      assert j > i;
      SeparatorRunsAreRuns(s[j..], P);
      var seps := SeparatorRuns(s, P);
      var more := SeparatorRuns(s[j..], P);
      assert seps == [s[i..j]] + more;
      forall k | 0 <= k < |seps| ensures IsSeparatorRun(seps[k], P) {
        if k > 0 {
          assert seps[k] == more[k - 1];
        }
      }
    }
  }

  function DigitValue(c: char): nat {
    if IsDigit(c) then (c as int - '0' as int) else 0
  }

  function DigitChar(d: nat): (c: char)
    requires d < 10
    ensures IsDigit(c) && DigitValue(c) == d
  {
    ('0' as int + d) as char
  }

  /** `parseInt` of a run of decimal digits. */
  function DigitsValue(ds: string): nat
    decreases |ds|
  {
    if ds == [] then 0 else 10 * DigitsValue(ds[..|ds| - 1]) + DigitValue(ds[|ds| - 1])
  }

  /** The decimal numeral of `n`, without leading zeros, as JavaScript prints a number below 1e21. */
  function NatToString(n: nat): (r: string)
    ensures r != []
    ensures forall k :: 0 <= k < |r| ==> IsDigit(r[k])
    ensures |r| > 1 ==> r[0] != '0'
    decreases n
  {
    if n < 10 then [DigitChar(n)] else NatToString(n / 10) + [DigitChar(n % 10)]
  }

  /** Reading back a printed numeral gives the number: the partner of NatToString. */
  lemma {:induction false} NatToStringRoundTrip(n: nat)
    ensures DigitsValue(NatToString(n)) == n
    decreases n
  {
    if n >= 10 {
      var r := NatToString(n);
      assert r[..|r| - 1] == NatToString(n / 10);
      NatToStringRoundTrip(n / 10);
    }
  }

  /** Printing of an integer-valued JavaScript number. */
  function IntToString(i: int): (r: string)
    ensures r != []
    ensures i >= 0 ==> r == NatToString(i)
    ensures i < 0 ==> r[0] == '-' && r[1..] == NatToString(-i)
  {
    if i < 0 then "-" + NatToString(-i) else NatToString(i)
  }

  /** `x` occurs in `s` at position `p`. */
  predicate OccursAt(s: string, x: string, p: nat) {
    p + |x| <= |s| && s[p..p + |x|] == x
  }

  ghost predicate Contains(s: string, x: string) {
    exists p: nat :: OccursAt(s, x, p)
  }

  lemma OccursInMiddle(a: string, x: string, b: string)
    ensures OccursAt(a + x + b, x, |a|)
  {
    assert (a + x + b)[|a|..|a| + |x|] == x;
  }

  /** An occurrence of `x` in `y` is an occurrence in any string that holds `y` at `q`. */
  lemma OccursTrans(s: string, y: string, q: nat, x: string, p: nat)
    requires OccursAt(s, y, q)
    requires OccursAt(y, x, p)
    ensures OccursAt(s, x, q + p)
  {
    assert forall k :: 0 <= k < |y| ==> s[q + k] == y[k] by {
      forall k | 0 <= k < |y| ensures s[q + k] == y[k] {
        assert s[q..q + |y|][k] == y[k];
      }
    }
    assert forall k :: 0 <= k < |x| ==> s[q + p + k] == x[k] by {
      forall k | 0 <= k < |x| ensures s[q + p + k] == x[k] {
        assert y[p..p + |x|][k] == x[k];
      }
    }
  }

  // Template literals: a template is the concatenation of its fixed pieces
  // and its substitutions, in order.

  /** `pieces.join("")` */
  function Concat(pieces: seq<string>): (r: string)
    ensures |pieces| == 0 ==> r == []
  {
    if pieces == [] then [] else pieces[0] + Concat(pieces[1..])
  }

  /** Joining is associative: the pieces before `k` and those from `k` on join to the whole. */
  lemma {:induction false} ConcatSplit(pieces: seq<string>, k: nat)
    requires k <= |pieces|
    ensures Concat(pieces) == Concat(pieces[..k]) + Concat(pieces[k..])
    decreases k
  {
    if k > 0 {
      ConcatSplit(pieces[1..], k - 1);
      assert pieces[1..][..k - 1] == pieces[1..k];
      assert pieces[1..][k - 1..] == pieces[k..];
      assert pieces[..k] == [pieces[0]] + pieces[1..k];
      assert Concat(pieces[..k]) == pieces[0] + Concat(pieces[1..k]);
    }
  }

  /** Where piece `k` starts in the joined text. */
  function Offset(pieces: seq<string>, k: nat): nat
    requires k <= |pieces|
  {
    |Concat(pieces[..k])|
  }

  /** The pieces `j` to `k` appear, joined, at the offset of piece `j`. */
  lemma ConcatRangeOccurs(pieces: seq<string>, j: nat, k: nat)
    requires j <= k <= |pieces|
    ensures OccursAt(Concat(pieces), Concat(pieces[j..k]), Offset(pieces, j))
    ensures Offset(pieces, k) == Offset(pieces, j) + |Concat(pieces[j..k])|
  {
    ConcatSplit(pieces, j);
    ConcatSplit(pieces[j..], k - j);
    assert pieces[j..][..k - j] == pieces[j..k];
    assert pieces[j..][k - j..] == pieces[k..];
    OccursInMiddle(Concat(pieces[..j]), Concat(pieces[j..k]), Concat(pieces[k..]));
    ConcatSplit(pieces[..k], j);
    assert pieces[..k][..j] == pieces[..j];
    assert pieces[..k][j..] == pieces[j..k];
  }

  /** Piece `k` appears at its offset. */
  lemma ConcatPieceOccurs(pieces: seq<string>, k: nat)
    requires k < |pieces|
    ensures OccursAt(Concat(pieces), pieces[k], Offset(pieces, k))
    ensures Offset(pieces, k + 1) == Offset(pieces, k) + |pieces[k]|
  {
    ConcatRangeOccurs(pieces, k, k + 1);
    var single := pieces[k..k + 1];
    assert single[0] == pieces[k] && single[1..] == [];
    assert Concat(single) == pieces[k];
  }

  /** Later pieces start no earlier than earlier ones end. */
  lemma OffsetMonotone(pieces: seq<string>, j: nat, k: nat)
    requires j <= k <= |pieces|
    ensures Offset(pieces, j) <= Offset(pieces, k)
  {
    ConcatRangeOccurs(pieces, j, k);
  }

  /** The whole text ends where the offset past the last piece says. */
  lemma OffsetEnd(pieces: seq<string>)
    ensures Offset(pieces, |pieces|) == |Concat(pieces)|
  {
    assert pieces[..|pieces|] == pieces;
  }

  lemma Concat3(a: string, b: string, c: string)
    ensures Concat([a, b, c]) == a + b + c
  {
    assert [a, b, c][1..] == [b, c];
    assert [b, c][1..] == [c];
    assert [c][1..] == [];
    assert Concat([c]) == c;
    assert Concat([b, c]) == b + c;
    assert a + (b + c) == a + b + c;
  }

  lemma Concat4(a: string, b: string, c: string, d: string)
    ensures Concat([a, b, c, d]) == a + b + c + d
  {
    assert [a, b, c, d][1..] == [b, c, d];
    Concat3(b, c, d);
  }

  lemma Concat5(a: string, b: string, c: string, d: string, e: string)
    ensures Concat([a, b, c, d, e]) == a + b + c + d + e
  {
    assert [a, b, c, d, e][1..] == [b, c, d, e];
    Concat4(b, c, d, e);
  }

  /**
   * Two joins that differ in one piece differ in length by exactly the
   * difference of that piece's lengths.
   */
  lemma {:induction false} ConcatReplaceLength(ps: seq<string>, qs: seq<string>, k: nat)
    requires |ps| == |qs| && k < |ps|
    requires forall j :: 0 <= j < |ps| && j != k ==> ps[j] == qs[j]
    ensures |Concat(ps)| + |qs[k]| == |Concat(qs)| + |ps[k]|
    decreases |ps|
  {
    if k > 0 {
      ConcatReplaceLength(ps[1..], qs[1..], k - 1);
    } else {
      assert ps[1..] == qs[1..];
    }
  }

  // Runs of consecutive pieces.

  lemma ConcatRun2(ps: seq<string>, j: nat)
    requires j + 2 <= |ps|
    ensures OccursAt(Concat(ps), ps[j] + ps[j + 1], Offset(ps, j))
  {
    ConcatRangeOccurs(ps, j, j + 2);
    var a, b := ps[j], ps[j + 1];
    assert ps[j..j + 2] == [a, b];
    assert [a, b][1..] == [b];
    assert [b][1..] == [];
    assert Concat([b]) == b;
  }

  lemma ConcatRun3(ps: seq<string>, j: nat)
    requires j + 3 <= |ps|
    ensures OccursAt(Concat(ps), ps[j] + ps[j + 1] + ps[j + 2], Offset(ps, j))
    ensures Offset(ps, j + 3) == Offset(ps, j) + |ps[j] + ps[j + 1] + ps[j + 2]|
  {
    ConcatRangeOccurs(ps, j, j + 3);
    assert ps[j..j + 3] == [ps[j], ps[j + 1], ps[j + 2]];
    Concat3(ps[j], ps[j + 1], ps[j + 2]);
  }

  lemma ConcatRun4(ps: seq<string>, j: nat)
    requires j + 4 <= |ps|
    ensures OccursAt(Concat(ps), ps[j] + ps[j + 1] + ps[j + 2] + ps[j + 3], Offset(ps, j))
    ensures Offset(ps, j + 4) == Offset(ps, j) + |ps[j] + ps[j + 1] + ps[j + 2] + ps[j + 3]|
  {
    ConcatRangeOccurs(ps, j, j + 4);
    assert ps[j..j + 4] == [ps[j], ps[j + 1], ps[j + 2], ps[j + 3]];
    Concat4(ps[j], ps[j + 1], ps[j + 2], ps[j + 3]);
  }

  lemma ConcatRun5(ps: seq<string>, j: nat)
    requires j + 5 <= |ps|
    ensures OccursAt(Concat(ps), ps[j] + ps[j + 1] + ps[j + 2] + ps[j + 3] + ps[j + 4], Offset(ps, j))
    ensures Offset(ps, j + 5) == Offset(ps, j) + |ps[j] + ps[j + 1] + ps[j + 2] + ps[j + 3] + ps[j + 4]|
  {
    ConcatRangeOccurs(ps, j, j + 5);
    assert ps[j..j + 5] == [ps[j], ps[j + 1], ps[j + 2], ps[j + 3], ps[j + 4]];
    Concat5(ps[j], ps[j + 1], ps[j + 2], ps[j + 3], ps[j + 4]);
  }
}
