/** The e-mail and phone checks of the lead form (src/app/leads/page.tsx,
    lines 40 and 46), each as an explicit character-level predicate, proved
    equal to the language of its regular expression. */
module FieldPatterns {
  import opened Wrappers
  import opened Text
  import opened Pattern

  // ---------------------------------------------------------------- e-mail

  /** `\S+@\S+\.\S+` */
  const EmailAtoms: seq<Atom> := [
    Atom(NonSpace, 1, None), Atom(Lit('@'), 1, Some(1)), Atom(NonSpace, 1, None),
    Atom(Lit('.'), 1, Some(1)), Atom(NonSpace, 1, None)]

  /** An `@` at `a` and a `.` at `d`, with a non-space character just before
      the `@`, only non-space characters (at least one) between them, and a
      non-space character just after the `.`. */
  predicate EmailAt(s: string, a: int, d: int) {
    && 0 < a && a + 1 < d && d + 1 < |s|
    && s[a] == '@' && s[d] == '.'
    && !IsSpace(s[a - 1]) && !IsSpace(s[d + 1]) && NoSpaceIn(s, a + 1, d)
  }

  /** The e-mail check: the search is unanchored, so anything may surround
      the `@` and the `.`. */
  predicate EmailLike(s: string) {
    exists a, d | 0 <= a < |s| && 0 <= d < |s| :: EmailAt(s, a, d)
  }

  /** s[lo..hi] holds no white space. */
  predicate NoSpaceIn(s: string, lo: int, hi: int)
    requires 0 <= lo <= hi <= |s|
  {
    forall m | lo <= m < hi :: !IsSpace(s[m])
  }

  lemma EmailLikeIfTest(s: string)
    requires Test(EmailAtoms, s)
    ensures EmailLike(s)
  {
    var i, j :| 0 <= i <= j <= |s| && MatchSpan(EmailAtoms, s, i, j);
    var k1 := Unfold(EmailAtoms, s, i, j);
    var r1 := EmailAtoms[1..];
    var k2 := Unfold(r1, s, k1, j);
    var r2 := r1[1..];
    var k3 := Unfold(r2, s, k2, j);
    var r3 := r2[1..];
    var k4 := Unfold(r3, s, k3, j);
    var r4 := r3[1..];
    var k5 := Unfold(r4, s, k4, j);
    assert r1[0].cls == Lit('@') && r2[0].cls == NonSpace && r3[0].cls == Lit('.') && r4[0].cls == NonSpace;
    var a, d := k1, k3;
    assert k2 == k1 + 1 && k4 == k3 + 1;
    assert InClass(s[a], Lit('@'));
    assert InClass(s[d], Lit('.'));
    assert InClass(s[a - 1], NonSpace);
    assert InClass(s[d + 1], NonSpace);
    assert NoSpaceIn(s, a + 1, d) by {
      forall m | a < m < d
        ensures !IsSpace(s[m])
      {
        assert InClass(s[m], NonSpace);
      }
    }
    assert EmailAt(s, a, d);
  }

  lemma TestIfEmailLike(s: string)
    requires EmailLike(s)
    ensures Test(EmailAtoms, s)
  {
    var a, d :| 0 <= a < |s| && 0 <= d < |s| && EmailAt(s, a, d);
    var i, j := a - 1, d + 2;
    var r1 := EmailAtoms[1..];
    var r2 := r1[1..];
    var r3 := r2[1..];
    var r4 := r3[1..];
    assert r4[1..] == [];
    assert MatchSpan(r4[1..], s, j, j);
    assert ClassRange(s, d + 1, j, NonSpace);
    Fold(r4, s, d + 1, j, j);
    assert ClassRange(s, d, d + 1, Lit('.'));
    Fold(r3, s, d, d + 1, j);
    assert ClassRange(s, a + 1, d, NonSpace);
    Fold(r2, s, a + 1, d, j);
    assert ClassRange(s, a, a + 1, Lit('@'));
    Fold(r1, s, a, a + 1, j);
    assert ClassRange(s, i, a, NonSpace);
    Fold(EmailAtoms, s, i, a, j);
  }

  /** The explicit predicate is exactly the regular expression's `test`. */
  lemma EmailLikeIffTest(s: string)
    ensures EmailLike(s) <==> Test(EmailAtoms, s)
  {
    if Test(EmailAtoms, s) {
      EmailLikeIfTest(s);
    }
    if EmailLike(s) {
      TestIfEmailLike(s);
    }
  }

  // ----------------------------------------------------------------- phone

  /** `[-\s\.]` */
  const Separator: CharClass := Either(Lit('-'), Either(Space, Lit('.')))

  /** `[\+]?[(]?[0-9]{3}[)]?[-\s\.]?[0-9]{3}[-\s\.]?[0-9]{4,6}`; the `i` flag
      changes nothing, as the pattern has no letters. */
  const PhoneAtoms: seq<Atom> := [
    Atom(Lit('+'), 0, Some(1)), Atom(Lit('('), 0, Some(1)), Atom(Digit, 3, Some(3)),
    Atom(Lit(')'), 0, Some(1)), Atom(Separator, 0, Some(1)), Atom(Digit, 3, Some(3)),
    Atom(Separator, 0, Some(1)), Atom(Digit, 4, Some(6))]

  predicate IsSeparator(c: char) {
    c == '-' || IsSpace(c) || c == '.'
  }

  /** The position after an optional `c` at `p` (reading s[..j]). */
  function SkipChar(s: string, p: int, j: int, c: char): (q: int)
    requires 0 <= p <= j <= |s|
    ensures p <= q <= j && q <= p + 1
    ensures q == p + 1 <==> p < j && s[p] == c
  {
    if p < j && s[p] == c then p + 1 else p
  }

  /** The position after an optional separator at `p` (reading s[..j]). */
  function SkipSeparator(s: string, p: int, j: int): (q: int)
    requires 0 <= p <= j <= |s|
    ensures p <= q <= j && q <= p + 1
    ensures q == p + 1 <==> p < j && IsSeparator(s[p])
  {
    if p < j && IsSeparator(s[p]) then p + 1 else p
  }

  /** s[lo..hi] is all digits. */
  predicate DigitsIn(s: string, lo: int, hi: int)
    requires 0 <= lo <= hi <= |s|
  {
    forall m | lo <= m < hi :: IsDigit(s[m])
  }

  /** s[i..j] read left to right: an optional `+`, an optional `(`, three
      digits, an optional `)`, an optional separator, three digits, an
      optional separator, then four to six digits and nothing else. */
  predicate PhoneSpan(s: string, i: int, j: int)
    requires 0 <= i <= j <= |s|
  {
    var p1 := SkipChar(s, i, j, '+');
    var p2 := SkipChar(s, p1, j, '(');
    p2 + 3 <= j && DigitsIn(s, p2, p2 + 3) &&
    var p3 := SkipChar(s, p2 + 3, j, ')');
    var p4 := SkipSeparator(s, p3, j);
    p4 + 3 <= j && DigitsIn(s, p4, p4 + 3) &&
    var p5 := SkipSeparator(s, p4 + 3, j);
    4 <= j - p5 <= 6 && DigitsIn(s, p5, j)
  }

  /** The phone check: with the `m` flag, `^` and `$` match at line
      boundaries, so some span from a line start to a line end must be a
      phone number. A separator may itself be a line terminator. */
  predicate PhoneValid(s: string) {
    exists i, j | 0 <= i <= j <= |s| :: AtLineStart(s, i) && AtLineEnd(s, j) && PhoneSpan(s, i, j)
  }

  /** A phone number cut at the ends of its optional pieces: s[i..k1] is the
      optional `+`, s[k1..k2] the optional `(`, s[k2..k2 + 3] the area code,
      s[k2 + 3..k4] the optional `)`, s[k4..k5] the first optional separator,
      s[k5..k5 + 3] the exchange, s[k5 + 3..k7] the second optional
      separator and s[k7..j] the subscriber number. */
  predicate PhoneParts(s: string, i: int, k1: int, k2: int, k4: int, k5: int, k7: int, j: int) {
    && 0 <= i <= k1 <= k2 && k2 + 3 <= k4 <= k5 && k5 + 3 <= k7 <= j <= |s|
    && k1 <= i + 1 && k2 <= k1 + 1 && k4 <= k2 + 4 && k5 <= k4 + 1 && k7 <= k5 + 4
    && (k1 == i + 1 ==> s[i] == '+')
    && (k2 == k1 + 1 ==> s[k1] == '(')
    && DigitsIn(s, k2, k2 + 3)
    && (k4 == k2 + 4 ==> s[k2 + 3] == ')')
    && (k5 == k4 + 1 ==> IsSeparator(s[k4]))
    && DigitsIn(s, k5, k5 + 3)
    && (k7 == k5 + 4 ==> IsSeparator(s[k5 + 3]))
    && 4 <= j - k7 <= 6 && DigitsIn(s, k7, j)
  }

  lemma DigitsFromClass(s: string, lo: int, hi: int)
    requires 0 <= lo <= hi <= |s| && ClassRange(s, lo, hi, Digit)
    ensures DigitsIn(s, lo, hi)
  {
    forall m | lo <= m < hi
      ensures IsDigit(s[m])
    {
      assert InClass(s[m], Digit);
    }
  }

  lemma ClassFromDigits(s: string, lo: int, hi: int)
    requires 0 <= lo <= hi <= |s| && DigitsIn(s, lo, hi)
    ensures ClassRange(s, lo, hi, Digit)
  {
  }

  lemma SeparatorClass(c: char)
    ensures InClass(c, Separator) <==> IsSeparator(c)
  {
    assert InClass(c, Either(Space, Lit('.'))) <==> IsSpace(c) || c == '.';
  }

  /** The first three atoms of a match: sign, parenthesis, area code. */
  lemma HeadOfMatch(s: string, i: int, j: int) returns (k1: int, k2: int)
    requires 0 <= i <= j <= |s| && MatchSpan(PhoneAtoms, s, i, j)
    ensures i <= k1 <= i + 1 && k1 <= k2 <= k1 + 1 && k2 + 3 <= j
    ensures k1 == i + 1 ==> s[i] == '+'
    ensures k2 == k1 + 1 ==> s[k1] == '('
    ensures DigitsIn(s, k2, k2 + 3)
    ensures MatchSpan(PhoneAtoms[3..], s, k2 + 3, j)
  {
    var r1 := PhoneAtoms[1..];
    var r2 := r1[1..];
    assert r2[1..] == PhoneAtoms[3..];
    k1 := Unfold(PhoneAtoms, s, i, j);
    assert k1 == i + 1 ==> InClass(s[i], Lit('+'));
    k2 := Unfold(r1, s, k1, j);
    assert k2 == k1 + 1 ==> InClass(s[k1], Lit('('));
    var k3 := Unfold(r2, s, k2, j);
    DigitsFromClass(s, k2, k3);
  }

  /** The remaining five atoms: parenthesis, separator, exchange, separator,
      subscriber number. */
  lemma TailOfMatch(s: string, k3: int, j: int) returns (k4: int, k5: int, k7: int)
    requires 0 <= k3 <= j <= |s| && MatchSpan(PhoneAtoms[3..], s, k3, j)
    ensures k3 <= k4 <= k3 + 1 && k4 <= k5 <= k4 + 1 && k5 + 3 <= k7 <= k5 + 4 && 4 <= j - k7 <= 6
    ensures k4 == k3 + 1 ==> s[k3] == ')'
    ensures k5 == k4 + 1 ==> IsSeparator(s[k4])
    ensures DigitsIn(s, k5, k5 + 3)
    ensures k7 == k5 + 4 ==> IsSeparator(s[k5 + 3])
    ensures DigitsIn(s, k7, j)
  {
    var r3 := PhoneAtoms[3..];
    var r4 := r3[1..];
    var r5 := r4[1..];
    var r6 := r5[1..];
    var r7 := r6[1..];
    assert r7[1..] == [];
    k4 := Unfold(r3, s, k3, j);
    assert k4 == k3 + 1 ==> InClass(s[k3], Lit(')'));
    k5 := Unfold(r4, s, k4, j);
    if k5 == k4 + 1 {
      assert InClass(s[k4], Separator);
      SeparatorClass(s[k4]);
    }
    var k6 := Unfold(r5, s, k5, j);
    DigitsFromClass(s, k5, k6);
    k7 := Unfold(r6, s, k6, j);
    if k7 == k6 + 1 {
      assert InClass(s[k6], Separator);
      SeparatorClass(s[k6]);
    }
    var k8 := Unfold(r7, s, k7, j);
    DigitsFromClass(s, k7, k8);
  }

  /** The atoms of a match of the phone pattern give its parts. */
  lemma PartsOfMatch(s: string, i: int, j: int) returns (k1: int, k2: int, k4: int, k5: int, k7: int)
    requires 0 <= i <= j <= |s| && MatchSpan(PhoneAtoms, s, i, j)
    ensures PhoneParts(s, i, k1, k2, k4, k5, k7, j)
  {
    k1, k2 := HeadOfMatch(s, i, j);
    k4, k5, k7 := TailOfMatch(s, k2 + 3, j);
  }

  /** The last five atoms put together. */
  lemma MatchOfTail(s: string, k3: int, k4: int, k5: int, k7: int, j: int)
    requires 0 <= k3 <= k4 <= k3 + 1 && k4 <= k5 <= k4 + 1 && k5 + 3 <= k7 <= k5 + 4
    requires 4 <= j - k7 <= 6 && j <= |s|
    requires k4 == k3 + 1 ==> s[k3] == ')'
    requires k5 == k4 + 1 ==> IsSeparator(s[k4])
    requires DigitsIn(s, k5, k5 + 3)
    requires k7 == k5 + 4 ==> IsSeparator(s[k5 + 3])
    requires DigitsIn(s, k7, j)
    ensures MatchSpan(PhoneAtoms[3..], s, k3, j)
  {
    var r3 := PhoneAtoms[3..];
    var r4 := r3[1..];
    var r5 := r4[1..];
    var r6 := r5[1..];
    var r7 := r6[1..];
    assert r7[1..] == [];
    assert MatchSpan(r7[1..], s, j, j);
    ClassFromDigits(s, k7, j);
    Fold(r7, s, k7, j, j);
    if k7 == k5 + 4 {
      SeparatorClass(s[k5 + 3]);
    }
    assert ClassRange(s, k5 + 3, k7, Separator);
    Fold(r6, s, k5 + 3, k7, j);
    ClassFromDigits(s, k5, k5 + 3);
    Fold(r5, s, k5, k5 + 3, j);
    if k5 == k4 + 1 {
      SeparatorClass(s[k4]);
    }
    assert ClassRange(s, k4, k5, Separator);
    Fold(r4, s, k4, k5, j);
    assert ClassRange(s, k3, k4, Lit(')'));
    Fold(r3, s, k3, k4, j);
  }

  /** Parts put together are a match of the phone pattern. */
  lemma MatchOfParts(s: string, i: int, k1: int, k2: int, k4: int, k5: int, k7: int, j: int)
    requires PhoneParts(s, i, k1, k2, k4, k5, k7, j)
    ensures MatchSpan(PhoneAtoms, s, i, j)
  {
    MatchOfTail(s, k2 + 3, k4, k5, k7, j);
    var r1 := PhoneAtoms[1..];
    var r2 := r1[1..];
    assert r2[1..] == PhoneAtoms[3..];
    ClassFromDigits(s, k2, k2 + 3);
    Fold(r2, s, k2, k2 + 3, j);
    assert ClassRange(s, k1, k2, Lit('('));
    Fold(r1, s, k1, k2, j);
    assert ClassRange(s, i, k1, Lit('+'));
    Fold(PhoneAtoms, s, i, k1, j);
  }

  /** The parts are where the left-to-right reading puts them: every optional
      character is followed by a character it cannot be confused with. */
  lemma SpanOfParts(s: string, i: int, k1: int, k2: int, k4: int, k5: int, k7: int, j: int)
    requires PhoneParts(s, i, k1, k2, k4, k5, k7, j)
    ensures PhoneSpan(s, i, j)
  {
    assert IsDigit(s[k2]) && IsDigit(s[k5]) && IsDigit(s[k7]);
    assert SkipChar(s, i, j, '+') == k1;
    assert SkipChar(s, k1, j, '(') == k2;
    assert SkipChar(s, k2 + 3, j, ')') == k4 by {
      if k4 == k2 + 3 && k5 == k4 + 1 {
        assert IsSeparator(s[k4]);
      }
    }
    assert SkipSeparator(s, k4, j) == k5;
    assert SkipSeparator(s, k5 + 3, j) == k7;
  }

  /** The left-to-right reading yields the parts. */
  lemma PartsOfSpan(s: string, i: int, j: int) returns (k1: int, k2: int, k4: int, k5: int, k7: int)
    requires 0 <= i <= j <= |s| && PhoneSpan(s, i, j)
    ensures PhoneParts(s, i, k1, k2, k4, k5, k7, j)
  {
    k1 := SkipChar(s, i, j, '+');
    k2 := SkipChar(s, k1, j, '(');
    k4 := SkipChar(s, k2 + 3, j, ')');
    k5 := SkipSeparator(s, k4, j);
    k7 := SkipSeparator(s, k5 + 3, j);
  }

  /** The explicit reading is exactly the language of the phone pattern. */
  lemma PhoneSpanIffMatch(s: string, i: int, j: int)
    requires 0 <= i <= j <= |s|
    ensures PhoneSpan(s, i, j) <==> MatchSpan(PhoneAtoms, s, i, j)
  {
    if MatchSpan(PhoneAtoms, s, i, j) {
      var k1, k2, k4, k5, k7 := PartsOfMatch(s, i, j);
      SpanOfParts(s, i, k1, k2, k4, k5, k7, j);
    }
    if PhoneSpan(s, i, j) {
      var k1, k2, k4, k5, k7 := PartsOfSpan(s, i, j);
      MatchOfParts(s, i, k1, k2, k4, k5, k7, j);
    }
  }

  /** `m`-flag `test` of the phone pattern is exactly the explicit check. */
  lemma PhoneValidIffTestLines(s: string)
    ensures PhoneValid(s) <==> TestLines(PhoneAtoms, s)
  {
    if PhoneValid(s) {
      var i, j :| 0 <= i <= j <= |s| && AtLineStart(s, i) && AtLineEnd(s, j) && PhoneSpan(s, i, j);
      PhoneSpanIffMatch(s, i, j);
    }
    if TestLines(PhoneAtoms, s) {
      var i, j :| 0 <= i <= j <= |s| && AtLineStart(s, i) && AtLineEnd(s, j) && MatchSpan(PhoneAtoms, s, i, j);
      PhoneSpanIffMatch(s, i, j);
    }
  }

  /** For a single-line value (an `<input type="tel">` holds no line breaks)
      the check is a match of the whole value. */
  lemma PhoneSingleLine(s: string)
    requires forall m :: 0 <= m < |s| ==> !IsLineTerminator(s[m])
    ensures PhoneValid(s) <==> PhoneSpan(s, 0, |s|)
  {
    if PhoneValid(s) {
      var i, j :| 0 <= i <= j <= |s| && AtLineStart(s, i) && AtLineEnd(s, j) && PhoneSpan(s, i, j);
      assert i == 0 && j == |s|;
    }
    if PhoneSpan(s, 0, |s|) {
      assert AtLineStart(s, 0) && AtLineEnd(s, |s|);
    }
  }

  /** Number of digits in s[lo..hi]. */
  function DigitCount(s: string, lo: int, hi: int): nat
    requires 0 <= lo <= hi <= |s|
    decreases hi - lo
  {
    if lo == hi then 0 else DigitCount(s, lo, hi - 1) + (if IsDigit(s[hi - 1]) then 1 else 0)
  }

  lemma {:induction false} DigitCountSplit(s: string, lo: int, mid: int, hi: int)
    requires 0 <= lo <= mid <= hi <= |s|
    ensures DigitCount(s, lo, hi) == DigitCount(s, lo, mid) + DigitCount(s, mid, hi)
    decreases hi - mid
  {
    if mid < hi {
      DigitCountSplit(s, lo, mid, hi - 1);
    }
  }

  lemma {:induction false} DigitCountAll(s: string, lo: int, hi: int)
    requires 0 <= lo <= hi <= |s| && DigitsIn(s, lo, hi)
    ensures DigitCount(s, lo, hi) == hi - lo
    decreases hi - lo
  {
    if lo < hi {
      DigitCountAll(s, lo, hi - 1);
    }
  }

  /** An optional non-digit piece holds no digit. */
  lemma NoDigitPiece(s: string, lo: int, hi: int)
    requires 0 <= lo <= hi <= lo + 1 && hi <= |s|
    requires hi == lo + 1 ==> !IsDigit(s[lo])
    ensures DigitCount(s, lo, hi) == 0
  {
  }

  /** Two optional non-digit pieces in a row hold no digit. */
  lemma NoDigitPieces(s: string, lo: int, mid: int, hi: int)
    requires 0 <= lo <= mid <= lo + 1 && mid <= hi <= mid + 1 && hi <= |s|
    requires mid == lo + 1 ==> !IsDigit(s[lo])
    requires hi == mid + 1 ==> !IsDigit(s[mid])
    ensures DigitCount(s, lo, hi) == 0
  {
    DigitCountSplit(s, lo, mid, hi);
    NoDigitPiece(s, lo, mid);
    NoDigitPiece(s, mid, hi);
  }

  /** Three digits followed by a stretch: three more digits than the stretch. */
  lemma ThreeDigitsThen(s: string, lo: int, hi: int)
    requires 0 <= lo && lo + 3 <= hi <= |s| && DigitsIn(s, lo, lo + 3)
    ensures DigitCount(s, lo, hi) == 3 + DigitCount(s, lo + 3, hi)
  {
    DigitCountSplit(s, lo, lo + 3, hi);
    DigitCountAll(s, lo, lo + 3);
  }

  /** The parts hold six digits plus the subscriber number's. */
  lemma PartsDigitCount(s: string, i: int, k1: int, k2: int, k4: int, k5: int, k7: int, j: int)
    requires PhoneParts(s, i, k1, k2, k4, k5, k7, j)
    ensures DigitCount(s, i, j) == 6 + (j - k7)
  {
    DigitCountSplit(s, i, k2, j);
    NoDigitPieces(s, i, k1, k2);
    ThreeDigitsThen(s, k2, j);
    DigitCountSplit(s, k2 + 3, k5, j);
    NoDigitPieces(s, k2 + 3, k4, k5);
    ThreeDigitsThen(s, k5, j);
    DigitCountSplit(s, k5 + 3, k7, j);
    NoDigitPiece(s, k5 + 3, k7);
    DigitCountAll(s, k7, j);
  }

  /** An accepted phone number is 10 to 17 characters long and holds 10 to 12
      digits. */
  lemma PhoneSpanBounds(s: string, i: int, j: int)
    requires 0 <= i <= j <= |s| && PhoneSpan(s, i, j)
    ensures 10 <= j - i <= 17
    ensures 10 <= DigitCount(s, i, j) <= 12
  {
    var k1, k2, k4, k5, k7 := PartsOfSpan(s, i, j);
    PartsDigitCount(s, i, k1, k2, k4, k5, k7, j);
  }

  /** The first digit of an accepted phone number's area code. */
  lemma PhoneSpanDigit(s: string, i: int, j: int) returns (m: int)
    requires 0 <= i <= j <= |s|
    ensures PhoneSpan(s, i, j) ==> i <= m < j && IsDigit(s[m])
  {
    m := SkipChar(s, SkipChar(s, i, j, '+'), j, '(');
  }

  /** A value of white space only is never a phone number, whatever its lines. */
  lemma BlankPhoneInvalid(s: string)
    requires AllSpace(s)
    ensures !PhoneValid(s)
  {
    forall i, j | 0 <= i <= j <= |s|
      ensures !PhoneSpan(s, i, j)
    {
      var m := PhoneSpanDigit(s, i, j);
    }
  }

  /** A value of white space only is never an e-mail address. */
  lemma BlankEmailInvalid(s: string)
    requires AllSpace(s)
    ensures !EmailLike(s)
  {
    forall a, d | 0 <= a < |s| && 0 <= d < |s|
      ensures !EmailAt(s, a, d)
    {
      assert IsSpace(s[a]);
    }
  }

  /** Parentheses need not balance: an opening one alone, or a closing one
      alone, is accepted. */
  lemma UnbalancedParenthesesAccepted()
    ensures PhoneSpan("(555123-4567", 0, 12)
    ensures PhoneSpan("555)123-4567", 0, 12)
  {
    var p := "(555123-4567";
    assert SkipChar(p, 0, 12, '+') == 0;
    assert SkipChar(p, 0, 12, '(') == 1;
    assert SkipChar(p, 4, 12, ')') == 4;
    assert SkipSeparator(p, 4, 12) == 4;
    assert SkipSeparator(p, 7, 12) == 8;
    var q := "555)123-4567";
    assert SkipChar(q, 0, 12, '+') == 0;
    assert SkipChar(q, 0, 12, '(') == 0;
    assert SkipChar(q, 3, 12, ')') == 4;
    assert SkipSeparator(q, 4, 12) == 4;
    assert SkipSeparator(q, 7, 12) == 8;
  }

  /** A country code after the `+` is not accepted: the `+` must be followed
      by the area code. */
  lemma CountryCodeRejected()
    ensures !PhoneValid("+1 555 123 4567")
  {
    var p := "+1 555 123 4567";
    assert SkipChar(p, 0, |p|, '+') == 1;
    assert SkipChar(p, 1, |p|, '(') == 1;
    assert !IsDigit(p[2]);
    assert !PhoneSpan(p, 0, |p|);
    PhoneSingleLine(p);
  }

  /** The separator class contains the line terminators, so a match may run
      across a line break: `555` newline `123-4567` is accepted although
      neither of its two lines is a phone number on its own. */
  lemma LineBreakSeparator()
    ensures PhoneValid("555\n123-4567")
    ensures !PhoneSpan("555\n123-4567", 0, 3) && !PhoneSpan("555\n123-4567", 4, 12)
  {
    var p := "555\n123-4567";
    assert SkipChar(p, 0, 12, '+') == 0;
    assert SkipChar(p, 0, 12, '(') == 0;
    assert SkipChar(p, 3, 12, ')') == 3;
    assert SkipSeparator(p, 3, 12) == 4;
    assert SkipSeparator(p, 7, 12) == 8;
    assert PhoneSpan(p, 0, 12);
    assert AtLineStart(p, 0) && AtLineEnd(p, 12);
    assert SkipChar(p, 4, 12, '+') == 4;
    assert SkipChar(p, 4, 12, '(') == 4;
    assert SkipChar(p, 7, 12, ')') == 7;
    assert SkipSeparator(p, 7, 12) == 8;
    assert SkipSeparator(p, 11, 12) == 11;
  }
}
