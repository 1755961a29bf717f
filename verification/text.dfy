/** The JavaScript string built-ins the lead pages rely on: the `\s` / `\S`
    character classes, `String.prototype.trim`, `toLowerCase` and
    `replace(/x/g, '')`. Strings are sequences of Unicode scalar values. */
module Text {

  /** ECMAScript LineTerminator: where `^` and `$` match under the `m` flag. */
  predicate IsLineTerminator(c: char) {
    c == '\n' || c == '\r' || c == '\U{2028}' || c == '\U{2029}'
  }

  /** ECMAScript WhiteSpace or LineTerminator (space separators as of Unicode 15):
      exactly the characters `\s` matches and `trim` strips. */
  predicate IsSpace(c: char) {
    || IsLineTerminator(c)
    || c == '\t' || c == '\U{000B}' || c == '\U{000C}' || c == ' '
    || c == '\U{00A0}' || c == '\U{1680}' || '\U{2000}' <= c <= '\U{200A}'
    || c == '\U{202F}' || c == '\U{205F}' || c == '\U{3000}' || c == '\U{FEFF}'
  }

  /** `[0-9]` */
  predicate IsDigit(c: char) {
    '0' <= c <= '9'
  }

  predicate IsUpper(c: char) {
    'A' <= c <= 'Z'
  }

  predicate AllSpace(s: string) {
    forall i :: 0 <= i < |s| ==> IsSpace(s[i])
  }

  lemma AllSpaceSplit(s: string, k: int)
    requires 0 <= k <= |s|
    ensures AllSpace(s) <==> AllSpace(s[..k]) && AllSpace(s[k..])
  {
    if AllSpace(s[..k]) && AllSpace(s[k..]) {
      forall i | 0 <= i < |s|
        ensures IsSpace(s[i])
      {
        if i < k {
          assert s[i] == s[..k][i];
        } else {
          assert s[i] == s[k..][i - k];
        }
      }
    }
  }

  /** Leading white space removed: the longest suffix of `s` that does not
      start with white space. */
  function TrimStart(s: string): (r: string)
    ensures |r| <= |s| && r == s[|s| - |r|..]
    ensures AllSpace(s[..|s| - |r|])
    ensures r == [] || !IsSpace(r[0])
  {
    if |s| > 0 && IsSpace(s[0]) then
      var r := TrimStart(s[1..]);
      assert s[..|s| - |r|] == [s[0]] + s[1..][..|s| - 1 - |r|];
      r
    else
      s
  }

  /** Trailing white space removed: the longest prefix of `s` that does not
      end with white space. */
  function TrimEnd(s: string): (r: string)
    ensures |r| <= |s| && r == s[..|r|]
    ensures AllSpace(s[|r|..])
    ensures r == [] || !IsSpace(r[|r| - 1])
  {
    if |s| > 0 && IsSpace(s[|s| - 1]) then
      var r := TrimEnd(s[..|s| - 1]);
      assert s[|r|..] == s[..|s| - 1][|r|..] + [s[|s| - 1]];
      r
    else
      s
  }

  /** `String.prototype.trim`: the slice of `s` between its leading and its
      trailing white space; empty exactly when `s` is all white space. */
  function Trim(s: string): (r: string)
    ensures |r| <= |s|
    ensures r == [] <==> AllSpace(s)
    ensures r == [] || (!IsSpace(r[0]) && !IsSpace(r[|r| - 1]))
  {
    TrimBothEmpty(s);
    var r := TrimEnd(TrimStart(s));
    assert r != [] ==> r[0] == TrimStart(s)[0];
    r
  }

  /** Leading white space is all of it exactly when the string is all white space. */
  lemma TrimStartEmpty(s: string)
    ensures TrimStart(s) == [] <==> AllSpace(s)
  {
    var t := TrimStart(s);
    if t == [] {
      assert s[..|s| - |t|] == s;
    } else {
      assert s[|s| - |t|] == t[0];
    }
  }

  lemma TrimBothEmpty(s: string)
    ensures TrimEnd(TrimStart(s)) == [] <==> AllSpace(s)
  {
    var t := TrimStart(s);
    var r := TrimEnd(t);
    var i := |s| - |t|;
    TrimStartEmpty(s);
    if r == [] {
      assert t[|r|..] == t;
      AllSpaceSplit(s, i);
      assert s[i..] == t;
    }
  }

  /** What `trim` removes is white space at either end and nothing else:
      the result is the slice s[i..i + |Trim(s)|] with only white space around it. */
  lemma TrimIsSlice(s: string) returns (i: int)
    ensures 0 <= i <= i + |Trim(s)| <= |s|
    ensures Trim(s) == s[i..i + |Trim(s)|]
    ensures AllSpace(s[..i]) && AllSpace(s[i + |Trim(s)|..])
  {
    var t := TrimStart(s);
    var r := TrimEnd(t);
    i := |s| - |t|;
    assert Trim(s) == r;
    assert t == s[i..];
    assert s[i..i + |r|] == t[..|r|];
    assert s[i + |r|..] == t[|r|..];
  }

  /** Trimming twice is trimming once. */
  lemma TrimIdempotent(s: string)
    ensures Trim(Trim(s)) == Trim(s)
  {
    var r := Trim(s);
    assert TrimStart(r) == r;
    assert TrimEnd(r) == r;
  }

  /** `r` sits in `s` at `i` with only white space before and after it. */
  predicate TrimmedAt(r: string, s: string, i: int)
    requires 0 <= i <= i + |r| <= |s|
  {
    r == s[i..i + |r|] && AllSpace(s[..i]) && AllSpace(s[i + |r|..])
  }

  /** `r` is what trimming leaves of `s`, described without computing it: a
      contiguous slice of `s` with only white space around it, which itself
      neither starts nor ends with white space. */
  predicate TrimmedOf(r: string, s: string) {
    (r == [] || (!IsSpace(r[0]) && !IsSpace(r[|r| - 1]))) &&
    exists i | 0 <= i <= |s| - |r| :: TrimmedAt(r, s, i)
  }

  lemma PrefixSpace(s: string, k: int)
    requires 0 <= k <= |s| && AllSpace(s[..k])
    ensures forall m | 0 <= m < k :: IsSpace(s[m])
  {
    forall m | 0 <= m < k
      ensures IsSpace(s[m])
    {
      assert s[..k][m] == s[m];
    }
  }

  lemma SuffixSpace(s: string, k: int)
    requires 0 <= k <= |s| && AllSpace(s[k..])
    ensures forall m | k <= m < |s| :: IsSpace(s[m])
  {
    forall m | k <= m < |s|
      ensures IsSpace(s[m])
    {
      assert s[k..][m - k] == s[m];
    }
  }

  /** `Trim` meets the description. */
  lemma TrimTrimmedOf(s: string)
    ensures TrimmedOf(Trim(s), s)
  {
    var i := TrimIsSlice(s);
    assert TrimmedAt(Trim(s), s, i);
  }

  /** The description fixes the result: whatever meets it is `Trim(s)`. */
  lemma TrimmedOfUnique(r: string, s: string)
    requires TrimmedOf(r, s)
    ensures r == Trim(s)
  {
    var i :| 0 <= i <= |s| - |r| && TrimmedAt(r, s, i);
    var t := Trim(s);
    var i' := TrimIsSlice(s);
    var e, e' := i + |r|, i' + |t|;
    PrefixSpace(s, i);
    PrefixSpace(s, i');
    SuffixSpace(s, e);
    SuffixSpace(s, e');
    if r == [] {
      assert AllSpace(s);
    } else {
      assert s[i] == r[0] && s[e - 1] == r[|r| - 1];
      assert !AllSpace(s);
      assert s[i'] == t[0] && s[e' - 1] == t[|t| - 1];
      assert i == i' && e == e';
    }
  }

  /** `toLowerCase` on one character, restricted to ASCII letters. */
  function LowerChar(c: char): char {
    if IsUpper(c) then (c as int + 32) as char else c
  }

  /** `String.prototype.toLowerCase` (ASCII letters only): every upper-case
      letter is replaced by its lower-case partner, everything else is kept. */
  function ToLower(s: string): (r: string)
    ensures |r| == |s|
    ensures forall i :: 0 <= i < |r| ==> !IsUpper(r[i])
    ensures forall i :: 0 <= i < |s| && !IsUpper(s[i]) ==> r[i] == s[i]
    ensures forall i :: 0 <= i < |s| && IsUpper(s[i]) ==> r[i] as int == s[i] as int + 32
  {
    if s == [] then [] else [LowerChar(s[0])] + ToLower(s[1..])
  }

  lemma {:induction false} ToLowerConcat(a: string, b: string)
    ensures ToLower(a + b) == ToLower(a) + ToLower(b)
  {
    if a != [] {
      assert (a + b)[0] == a[0];
      assert (a + b)[1..] == a[1..] + b;
      ToLowerConcat(a[1..], b);
      calc {
        ToLower(a + b);
        [LowerChar(a[0])] + ToLower(a[1..] + b);
        [LowerChar(a[0])] + (ToLower(a[1..]) + ToLower(b));
        ([LowerChar(a[0])] + ToLower(a[1..])) + ToLower(b);
      }
    } else {
      assert a + b == b;
    }
  }

  /** `s.replace(/x/g, '')`: every `x` deleted, every other character kept
      with its multiplicity. */
  function Remove(s: string, x: char): (r: string)
    ensures multiset(r) == multiset(s)[x := 0]
    ensures |r| == |s| - multiset(s)[x]
    ensures forall i :: 0 <= i < |r| ==> r[i] != x
  {
    if s == [] then []
    else
      assert s == [s[0]] + s[1..];
      (if s[0] == x then [] else [s[0]]) + Remove(s[1..], x)
  }

  /** Removal works character by character and keeps the order: it distributes
      over concatenation. */
  lemma {:induction false} RemoveConcat(a: string, b: string, x: char)
    ensures Remove(a + b, x) == Remove(a, x) + Remove(b, x)
  {
    if a != [] {
      assert (a + b)[0] == a[0];
      assert (a + b)[1..] == a[1..] + b;
      RemoveConcat(a[1..], b, x);
      var h: string := if a[0] == x then [] else [a[0]];
      calc {
        Remove(a + b, x);
        h + Remove(a[1..] + b, x);
        h + (Remove(a[1..], x) + Remove(b, x));
        (h + Remove(a[1..], x)) + Remove(b, x);
      }
    } else {
      assert a + b == b;
    }
  }

  /** A string of nothing but `x` is removed entirely. */
  lemma {:induction false} RemoveOnly(s: string, x: char)
    requires forall i :: 0 <= i < |s| ==> s[i] == x
    ensures Remove(s, x) == []
  {
    if s != [] {
      RemoveOnly(s[1..], x);
    }
  }

  /** A string without `x` is left as it is. */
  lemma {:induction false} RemoveAbsent(s: string, x: char)
    requires forall i :: 0 <= i < |s| ==> s[i] != x
    ensures Remove(s, x) == s
  {
    if s != [] {
      RemoveAbsent(s[1..], x);
    }
  }
}
