/**
 * A small regular-expression language and its matching semantics, enough to
 * state the two patterns the bot uses.  `Matches(r, s, i, j)` holds when `r`
 * can match the slice `s[i..j]` of the whole subject `s`; the subject is kept
 * so that the zero-width `\b` can look at its neighbours.  This is the set of
 * matches a backtracking engine explores, not the one it picks first.
 */
module Regex {
  import opened Chars

  datatype CharClass = Digit | Word | Space | Letter | OneOf(chars: seq<char>)

  predicate InClass(cls: CharClass, c: char) {
    match cls
    case Digit => IsDigit(c)
    case Word => IsWordChar(c)
    case Space => IsSpace(c)
    case Letter => IsLetter(c)
    case OneOf(cs) => c in cs
  }

  datatype Re =
    | Class(cls: CharClass)       // one character of the class
    | Cat(first: Re, second: Re)  // concatenation
    | Alt(left: Re, right: Re)    // alternation `|`
    | Opt(body: Re)               // `?`
    | Plus(body: Re)              // `+`
    | WordBoundary                // `\b`

  /** A literal character */
  function Lit(c: char): Re {
    Class(OneOf([c]))
  }

  /** `r*` */
  function Star(r: Re): Re {
    Opt(Plus(r))
  }

  /** Is there a word character at position `i` (false outside the subject)? */
  predicate WordAt(s: string, i: int) {
    0 <= i < |s| && IsWordChar(s[i])
  }

  ghost predicate Matches(r: Re, s: string, i: nat, j: nat)
    requires i <= j <= |s|
    decreases r, j - i
  {
    match r
    case Class(cls) => j == i + 1 && InClass(cls, s[i])
    case Cat(a, b) => exists m: nat :: i <= m <= j && Matches(a, s, i, m) && Matches(b, s, m, j)
    case Alt(a, b) => Matches(a, s, i, j) || Matches(b, s, i, j)
    case Opt(a) => i == j || Matches(a, s, i, j)
    case Plus(a) =>
      // one repetition, or a non-empty first repetition followed by more
      Matches(a, s, i, j) || exists m: nat :: i < m < j && Matches(a, s, i, m) && Matches(Plus(a), s, m, j)
    case WordBoundary => i == j && WordAt(s, i - 1) != WordAt(s, i)
  }

  /** What `re.match(r, s)` tests: some match of `r` starts at position 0. */
  ghost predicate MatchesAtStart(r: Re, s: string) {
    exists j: nat :: j <= |s| && Matches(r, s, 0, j)
  }

  /** A witness for the split point of a concatenation. */
  lemma CatSplit(a: Re, b: Re, s: string, i: nat, j: nat) returns (m: nat)
    requires i <= j <= |s|
    requires Matches(Cat(a, b), s, i, j)
    ensures i <= m <= j && Matches(a, s, i, m) && Matches(b, s, m, j)
  {
    m :| i <= m <= j && Matches(a, s, i, m) && Matches(b, s, m, j);
  }

  /** A witness for the end of the first repetition of a `+` that repeats more than once. */
  lemma PlusSplit(a: Re, s: string, i: nat, j: nat) returns (m: nat)
    requires i <= j <= |s|
    requires Matches(Plus(a), s, i, j)
    requires !Matches(a, s, i, j)
    ensures i < m < j && Matches(a, s, i, m) && Matches(Plus(a), s, m, j)
  {
    m :| i < m < j && Matches(a, s, i, m) && Matches(Plus(a), s, m, j);
  }

  /** The end of the longest run of `cls` characters starting at `i`. */
  function RunEnd(s: string, i: nat, cls: CharClass): (e: nat)
    requires i <= |s|
    ensures i <= e <= |s|
    ensures forall k :: i <= k < e ==> InClass(cls, s[k])
    ensures e == |s| || !InClass(cls, s[e])
    decreases |s| - i
  {
    if i < |s| && InClass(cls, s[i]) then RunEnd(s, i + 1, cls) else i
  }

  /** A run that stops where the class stops is the longest run. */
  lemma {:induction false} RunEndExact(s: string, i: nat, e: nat, cls: CharClass)
    requires i <= e <= |s|
    requires forall k :: i <= k < e ==> InClass(cls, s[k])
    requires e == |s| || !InClass(cls, s[e])
    ensures RunEnd(s, i, cls) == e
    decreases e - i
  {
    if i < e {
      RunEndExact(s, i + 1, e, cls);
    }
  }

  /** Every run of `cls` characters from `i` ends no later than the longest one. */
  lemma {:induction false} RunEndBound(s: string, i: nat, e: nat, cls: CharClass)
    requires i <= e <= |s|
    requires forall k :: i <= k < e ==> InClass(cls, s[k])
    ensures e <= RunEnd(s, i, cls)
    decreases e - i
  {
    if i < e {
      RunEndBound(s, i + 1, e, cls);
    }
  }

  /** `cls+` matches exactly the non-empty runs of the class. */
  lemma {:induction false} PlusClass(cls: CharClass, s: string, i: nat, j: nat)
    requires i <= j <= |s|
    ensures Matches(Plus(Class(cls)), s, i, j) <==> i < j && forall k :: i <= k < j ==> InClass(cls, s[k])
    decreases j - i
  {
    if i < j {
      PlusClass(cls, s, i + 1, j);
      if Matches(Plus(Class(cls)), s, i, j) && !Matches(Class(cls), s, i, j) {
        var m := PlusSplit(Class(cls), s, i, j);
        assert m == i + 1;
      }
      if i + 1 < j && (forall k :: i <= k < j ==> InClass(cls, s[k])) {
        assert Matches(Class(cls), s, i, i + 1);
      }
    }
  }

  /** `cls*` matches exactly the runs of the class, the empty one included. */
  lemma StarClass(cls: CharClass, s: string, i: nat, j: nat)
    requires i <= j <= |s|
    ensures Matches(Star(Class(cls)), s, i, j) <==> forall k :: i <= k < j ==> InClass(cls, s[k])
  {
    PlusClass(cls, s, i, j);
  }

  /** The scan that finds `RunEnd`. */
  method ScanRun(s: string, i: nat, cls: CharClass) returns (e: nat)
    requires i <= |s|
    ensures e == RunEnd(s, i, cls)
  {
    e := i;
    while e < |s| && InClass(cls, s[e])
      invariant i <= e <= |s|
      invariant RunEnd(s, e, cls) == RunEnd(s, i, cls)
      decreases |s| - e
    {
      e := e + 1;
    }
  }
}
