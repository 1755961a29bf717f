/** The meaning of the two regular expressions the lead form uses. Both are
    concatenations of quantified character classes (`\S+`, `[0-9]{3}`,
    `[\+]?`, ...), so a pattern is a list of atoms, and a span of a string is
    in the pattern's language when it splits into consecutive pieces, one per
    atom, each of an allowed length and made only of that atom's class.
    `RegExp.prototype.test` only asks whether some span matches, so
    backtracking order and greediness play no part. */
module Pattern {
  import opened Wrappers
  import opened Text

  datatype CharClass =
    | Lit(c: char)                                // a single character, `@`, `[(]`
    | Digit                                       // `[0-9]`
    | Space                                       // `\s`
    | NonSpace                                    // `\S`
    | Either(left: CharClass, right: CharClass)   // union inside `[...]`

  predicate InClass(c: char, k: CharClass) {
    match k
    case Lit(x) => c == x
    case Digit => IsDigit(c)
    case Space => IsSpace(c)
    case NonSpace => !IsSpace(c)
    case Either(l, r) => InClass(c, l) || InClass(c, r)
  }

  /** `cls{min,max}`; `max == None` is an unbounded repetition such as `+`. */
  datatype Atom = Atom(cls: CharClass, min: nat, max: Option<nat>)

  predicate Allows(a: Atom, n: int) {
    a.min <= n && (a.max.None? || n <= a.max.value)
  }

  /** Every character of s[lo..hi] belongs to `k`. */
  predicate ClassRange(s: string, lo: int, hi: int, k: CharClass)
    requires 0 <= lo <= hi <= |s|
  {
    forall m :: lo <= m < hi ==> InClass(s[m], k)
  }

  /** s[i..j] is in the language of the concatenation of `atoms`. */
  predicate MatchSpan(atoms: seq<Atom>, s: string, i: int, j: int)
    requires 0 <= i <= j <= |s|
    decreases |atoms|
  {
    if atoms == [] then i == j
    else
      exists k | i <= k <= j ::
        Allows(atoms[0], k - i) && ClassRange(s, i, k, atoms[0].cls) && MatchSpan(atoms[1..], s, k, j)
  }

  /** `^` under the `m` flag. */
  predicate AtLineStart(s: string, i: int)
    requires 0 <= i <= |s|
  {
    i == 0 || IsLineTerminator(s[i - 1])
  }

  /** `$` under the `m` flag. */
  predicate AtLineEnd(s: string, j: int)
    requires 0 <= j <= |s|
  {
    j == |s| || IsLineTerminator(s[j])
  }

  /** `test` of an unanchored pattern: some substring is in the language. */
  predicate Test(atoms: seq<Atom>, s: string) {
    exists i, j | 0 <= i <= j <= |s| :: MatchSpan(atoms, s, i, j)
  }

  /** `test` of `^atoms$` with the `m` flag: some substring that starts at a
      line start and ends at a line end is in the language. */
  predicate TestLines(atoms: seq<Atom>, s: string) {
    exists i, j | 0 <= i <= j <= |s| :: AtLineStart(s, i) && AtLineEnd(s, j) && MatchSpan(atoms, s, i, j)
  }

  /** The split point of the first atom of a match. */
  lemma Unfold(atoms: seq<Atom>, s: string, i: int, j: int) returns (k: int)
    requires 0 <= i <= j <= |s| && atoms != [] && MatchSpan(atoms, s, i, j)
    ensures i <= k <= j && Allows(atoms[0], k - i) && ClassRange(s, i, k, atoms[0].cls)
    ensures MatchSpan(atoms[1..], s, k, j)
  {
    k :| i <= k <= j && Allows(atoms[0], k - i) && ClassRange(s, i, k, atoms[0].cls) && MatchSpan(atoms[1..], s, k, j);
  }

  /** A match of the first atom followed by a match of the rest is a match. */
  lemma Fold(atoms: seq<Atom>, s: string, i: int, k: int, j: int)
    requires 0 <= i <= k <= j <= |s| && atoms != []
    requires Allows(atoms[0], k - i) && ClassRange(s, i, k, atoms[0].cls)
    requires MatchSpan(atoms[1..], s, k, j)
    ensures MatchSpan(atoms, s, i, j)
  {
  }
}
