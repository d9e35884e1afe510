/**
 * The "simple roll" pattern of the `r` command and the test
 * `re.match(patterns["simple roll"], roll)` that guards the random roller.
 *
 *   sign        = [\+\-]
 *   dice        = \d+d(\d+~)?\d+(:\w+)?
 *   mod         = \d+
 *   single roll = sign? \s* (dice|mod) \b
 *   simple roll = (single roll)+
 *
 * `re.match` anchors only the start, so the test holds as soon as one single
 * roll matches at position 0.  `Accepts` is that condition worked out on the
 * longest runs of spaces and digits; `MatchesSimpleRoll` is the scan.
 */
module RollPattern {
  import opened Chars
  import opened Regex

  const SignRe: Re := Class(OneOf("+-"))
  const DigitsRe: Re := Plus(Class(Digit))
  /** the group `(\d+~)` between the `d` and the last digits */
  const TildeGroupRe: Re := Cat(DigitsRe, Lit('~'))
  /** the group `(:\w+)` */
  const TagRe: Re := Cat(Lit(':'), Plus(Class(Word)))
  /** everything after the `d`: `(\d+~)?\d+(:\w+)?` */
  const SidesRe: Re := Cat(Opt(TildeGroupRe), Cat(DigitsRe, Opt(TagRe)))
  const DiceRe: Re := Cat(DigitsRe, Cat(Lit('d'), SidesRe))
  const ModRe: Re := DigitsRe
  const BodyRe: Re := Alt(DiceRe, ModRe)
  const TailRe: Re := Cat(BodyRe, WordBoundary)
  const AfterSignRe: Re := Cat(Star(Class(Space)), TailRe)
  const SingleRollRe: Re := Cat(Opt(SignRe), AfterSignRe)
  const SimpleRollRe: Re := Plus(SingleRollRe)

  /** The length of the optional leading sign. */
  function SignLen(s: string): (n: nat)
    ensures n <= |s|
    ensures n == 1 <==> |s| > 0 && (s[0] == '+' || s[0] == '-')
  {
    if |s| > 0 && InClass(OneOf("+-"), s[0]) then 1 else 0
  }

  /**
   * A die group or a modifier that ends the token starts at `j`: a run of
   * digits that either ends the token (a modifier) or is followed by `d` and
   * a second, non-empty run of digits that ends the token (a die group;
   * whatever `~` or `:` follows there is a non-word character).
   */
  predicate BodyAt(s: string, j: nat)
    requires j <= |s|
  {
    var e1 := RunEnd(s, j, Digit);
    j < e1 &&
    (!WordAt(s, e1) ||
     (s[e1] == 'd' && var e2 := RunEnd(s, e1 + 1, Digit); e1 + 1 < e2 && !WordAt(s, e2)))
  }

  /** The leading single roll exists: after the sign and the spaces comes a body that ends the token. */
  predicate Accepts(s: string) {
    BodyAt(s, RunEnd(s, SignLen(s), Space))
  }

  /** `(single roll)+` matches at the start exactly when one single roll does. */
  lemma {:induction false} LeadingSingleRoll(s: string)
    ensures MatchesAtStart(SimpleRollRe, s) <==> MatchesAtStart(SingleRollRe, s)
  {
    if MatchesAtStart(SimpleRollRe, s) {
      var j: nat :| j <= |s| && Matches(SimpleRollRe, s, 0, j);
      if !Matches(SingleRollRe, s, 0, j) {
        var m := PlusSplit(SingleRollRe, s, 0, j);
      }
    }
    if MatchesAtStart(SingleRollRe, s) {
      var j: nat :| j <= |s| && Matches(SingleRollRe, s, 0, j);
      assert Matches(SimpleRollRe, s, 0, j);
    }
  }

  /** Whatever the pattern's body matches starts with a digit. */
  lemma BodyStartsWithDigit(s: string, i: nat, j: nat)
    requires i <= j <= |s|
    requires Matches(BodyRe, s, i, j)
    ensures i < j && IsDigit(s[i])
  {
    if Matches(DiceRe, s, i, j) {
      var a := CatSplit(DigitsRe, Cat(Lit('d'), SidesRe), s, i, j);
      PlusClass(Digit, s, i, a);
    } else {
      PlusClass(Digit, s, i, j);
    }
  }

  /** If `Accepts` holds, the regex has a single roll at position 0. */
  lemma AcceptsSound(s: string)
    requires Accepts(s)
    ensures MatchesAtStart(SingleRollRe, s)
  {
    var p := SignLen(s);
    var j := RunEnd(s, p, Space);
    var e1 := RunEnd(s, j, Digit);
    assert Matches(Opt(SignRe), s, 0, p);
    StarClass(Space, s, p, j);
    PlusClass(Digit, s, j, e1);
    var k: nat;
    if !WordAt(s, e1) {
      k := e1;
      assert Matches(BodyRe, s, j, k);
    } else {
      var e2 := RunEnd(s, e1 + 1, Digit);
      PlusClass(Digit, s, e1 + 1, e2);
      assert Matches(Opt(TildeGroupRe), s, e1 + 1, e1 + 1);
      assert Matches(Opt(TagRe), s, e2, e2);
      assert Matches(Cat(DigitsRe, Opt(TagRe)), s, e1 + 1, e2);
      assert Matches(SidesRe, s, e1 + 1, e2);
      assert Matches(Lit('d'), s, e1, e1 + 1);
      assert Matches(Cat(Lit('d'), SidesRe), s, e1, e2);
      assert Matches(DiceRe, s, j, e2);
      k := e2;
      assert Matches(BodyRe, s, j, k);
    }
    assert WordAt(s, k - 1);
    assert Matches(WordBoundary, s, k, k);
    assert Matches(TailRe, s, j, k);
    assert Matches(AfterSignRe, s, p, k);
    assert Matches(SingleRollRe, s, 0, k);
  }

  /** The digit run of a die group after the `d` ends the token, whatever follows it in the match. */
  lemma SidesComplete(s: string, i: nat, k: nat)
    requires i <= k <= |s|
    requires Matches(SidesRe, s, i, k) && Matches(WordBoundary, s, k, k)
    ensures var e2 := RunEnd(s, i, Digit); i < e2 && !WordAt(s, e2)
  {
    var e2 := RunEnd(s, i, Digit);
    var b := CatSplit(Opt(TildeGroupRe), Cat(DigitsRe, Opt(TagRe)), s, i, k);
    var c := CatSplit(DigitsRe, Opt(TagRe), s, b, k);
    if b == i {
      PlusClass(Digit, s, b, c);
      if c == k {
        // no tag: the boundary comes right after the digits
        assert WordAt(s, c - 1);
        RunEndExact(s, i, c, Digit);
      } else {
        // a tag `:\w+` follows the digits
        var t := CatSplit(Lit(':'), Plus(Class(Word)), s, c, k);
        RunEndExact(s, i, c, Digit);
      }
    } else {
      // the group `\d+~` comes first; its `~` ends the first digit run
      var t := CatSplit(DigitsRe, Lit('~'), s, i, b);
      PlusClass(Digit, s, i, t);
      RunEndExact(s, i, t, Digit);
    }
  }

  /** The body of a single roll, followed by `\b`, is what `BodyAt` describes. */
  lemma BodyComplete(s: string, j: nat, k: nat)
    requires j <= k <= |s|
    requires Matches(BodyRe, s, j, k) && Matches(WordBoundary, s, k, k)
    ensures BodyAt(s, j)
  {
    if Matches(DiceRe, s, j, k) {
      var a := CatSplit(DigitsRe, Cat(Lit('d'), SidesRe), s, j, k);
      var a1 := CatSplit(Lit('d'), SidesRe, s, a, k);
      PlusClass(Digit, s, j, a);
      RunEndExact(s, j, a, Digit);
      SidesComplete(s, a1, k);
    } else {
      PlusClass(Digit, s, j, k);
      RunEndExact(s, j, k, Digit);
    }
  }

  /** The regex's sign and spaces end where the longest run of spaces after `SignLen` ends. */
  lemma PrefixComplete(s: string, m1: nat, m2: nat)
    requires m1 <= m2 < |s|
    requires Matches(Opt(SignRe), s, 0, m1) && Matches(Star(Class(Space)), s, m1, m2)
    requires IsDigit(s[m2])
    ensures m2 == RunEnd(s, SignLen(s), Space)
  {
    StarClass(Space, s, m1, m2);
    if m1 == 0 && SignLen(s) == 1 {
      // a sign the regex skipped would have to be a space or a digit
      assert false;
    }
    RunEndExact(s, m1, m2, Space);
  }

  /** If the regex has a single roll at position 0, `Accepts` holds. */
  lemma AcceptsComplete(s: string)
    requires MatchesAtStart(SingleRollRe, s)
    ensures Accepts(s)
  {
    var k: nat :| k <= |s| && Matches(SingleRollRe, s, 0, k);
    var m1 := CatSplit(Opt(SignRe), AfterSignRe, s, 0, k);
    var m2 := CatSplit(Star(Class(Space)), TailRe, s, m1, k);
    var m3 := CatSplit(BodyRe, WordBoundary, s, m2, k);
    BodyStartsWithDigit(s, m2, m3);
    PrefixComplete(s, m1, m2);
    BodyComplete(s, m2, m3);
  }

  /** `Accepts` is exactly what `re.match(patterns["simple roll"], s)` tests. */
  lemma AcceptsIffMatch(s: string)
    ensures Accepts(s) <==> MatchesAtStart(SimpleRollRe, s)
  {
    LeadingSingleRoll(s);
    if Accepts(s) {
      AcceptsSound(s);
    }
    if MatchesAtStart(SingleRollRe, s) {
      AcceptsComplete(s);
    }
  }

  /** The scan behind `re.match(patterns["simple roll"], s)`. */
  method MatchesSimpleRoll(s: string) returns (ok: bool)
    ensures ok == Accepts(s)
    ensures ok <==> MatchesAtStart(SimpleRollRe, s)
  {
    var start := if |s| > 0 && (s[0] == '+' || s[0] == '-') then 1 else 0;
    var j := ScanRun(s, start, Space);
    var e1 := ScanRun(s, j, Digit);
    if j == e1 {
      ok := false;
    } else if e1 == |s| || !IsWordChar(s[e1]) {
      ok := true;
    } else if s[e1] != 'd' {
      ok := false;
    } else {
      var e2 := ScanRun(s, e1 + 1, Digit);
      ok := e1 + 1 < e2 && (e2 == |s| || !IsWordChar(s[e2]));
    }
    AcceptsIffMatch(s);
  }

  /** Every non-empty run of digits is a roll (a lone modifier). */
  lemma DigitsAccepted(s: string)
    requires |s| > 0 && forall k :: 0 <= k < |s| ==> IsDigit(s[k])
    ensures Accepts(s) && MatchesAtStart(SimpleRollRe, s)
  {
    RunEndExact(s, 0, 0, Space);
    RunEndExact(s, 0, |s|, Digit);
    AcceptsIffMatch(s);
  }

  /** Every `NdS` with non-empty digit strings `N` and `S` is a roll. */
  lemma DiceAccepted(n: string, m: string)
    requires |n| > 0 && forall k :: 0 <= k < |n| ==> IsDigit(n[k])
    requires |m| > 0 && forall k :: 0 <= k < |m| ==> IsDigit(m[k])
    ensures Accepts(n + "d" + m) && MatchesAtStart(SimpleRollRe, n + "d" + m)
  {
    var s := n + "d" + m;
    assert s[|n|] == 'd';
    assert forall k :: 0 <= k < |n| ==> s[k] == n[k];
    assert forall k :: |n| + 1 <= k < |s| ==> s[k] == m[k - |n| - 1];
    RunEndExact(s, 0, 0, Space);
    RunEndExact(s, 0, |n|, Digit);
    RunEndExact(s, |n| + 1, |s|, Digit);
    AcceptsIffMatch(s);
  }

  /** Appending text that does not start with a word character keeps a roll a roll. */
  lemma RunEndAppend(s: string, t: string, i: nat, cls: CharClass)
    requires i <= |s|
    requires RunEnd(s, i, cls) < |s| || t == [] || !InClass(cls, t[0])
    ensures RunEnd(s + t, i, cls) == RunEnd(s, i, cls)
  {
    var e := RunEnd(s, i, cls);
    assert forall k :: 0 <= k < |s| ==> (s + t)[k] == s[k];
    RunEndExact(s + t, i, e, cls);
  }

  /** Acceptance looks at the leading single roll only: what follows a non-word character does not matter. */
  lemma AcceptsExtend(s: string, t: string)
    requires Accepts(s)
    requires t == [] || !IsWordChar(t[0])
    ensures Accepts(s + t) && MatchesAtStart(SimpleRollRe, s + t)
  {
    var u := s + t;
    assert forall k :: 0 <= k < |s| ==> u[k] == s[k];
    assert SignLen(u) == SignLen(s);
    var j := RunEnd(s, SignLen(s), Space);
    var e1 := RunEnd(s, j, Digit);
    RunEndAppend(s, t, SignLen(s), Space);
    RunEndAppend(s, t, j, Digit);
    if WordAt(s, e1) {
      RunEndAppend(s, t, e1 + 1, Digit);
    }
    AcceptsIffMatch(u);
  }

  /** A die group `NdS` followed by text that starts with a non-word character is a roll. */
  lemma DiceThenPunctuation(n: string, m: string, tail: string)
    requires |n| > 0 && forall k :: 0 <= k < |n| ==> IsDigit(n[k])
    requires |m| > 0 && forall k :: 0 <= k < |m| ==> IsDigit(m[k])
    requires |tail| > 0 && !IsWordChar(tail[0])
    ensures MatchesAtStart(SimpleRollRe, n + "d" + m + tail)
  {
    DiceAccepted(n, m);
    AcceptsExtend(n + "d" + m, tail);
  }

  /** `"2d6!!"`, `"2d3~"` (the `\d+~` group dropped) and `"2d6:"` (the `:\w+` group dropped). */
  lemma AcceptedExamples()
    ensures MatchesAtStart(SimpleRollRe, "2d6!!")
    ensures MatchesAtStart(SimpleRollRe, "2d3~")
    ensures MatchesAtStart(SimpleRollRe, "2d6:")
  {
    DiceThenPunctuation("2", "6", "!!");
    DiceThenPunctuation("2", "3", "~");
    DiceThenPunctuation("2", "6", ":");
    assert "2" + "d" + "6" + "!!" == "2d6!!";
    assert "2" + "d" + "3" + "~" == "2d3~";
    assert "2" + "d" + "6" + ":" == "2d6:";
  }

  /** A sign may stand apart from its modifier. */
  lemma SignSpaceExample()
    ensures MatchesAtStart(SimpleRollRe, "+ 3")
  {
    AcceptsIffMatch("+ 3");
  }

  /** No digits, a die group without sides, and a die group run on into a letter. */
  lemma RejectedExamples()
    ensures !MatchesAtStart(SimpleRollRe, "")
    ensures !MatchesAtStart(SimpleRollRe, "2d")
    ensures !MatchesAtStart(SimpleRollRe, "d6")
    ensures !MatchesAtStart(SimpleRollRe, "2d6x")
    ensures !MatchesAtStart(SimpleRollRe, "x1")
  {
    AcceptsIffMatch("");
    AcceptsIffMatch("2d");
    AcceptsIffMatch("d6");
    AcceptsIffMatch("2d6x");
    AcceptsIffMatch("x1");
  }
}
