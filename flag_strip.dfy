/**
 * The removal of roll flags from the roll text before it reaches a roller:
 * `re.sub(r"\s*\-{1,2}[^\W\d]+\s*", "", roll)`.
 *
 * `re.sub` scans left to right; at each position it tries the pattern, and
 * when the pattern matches it deletes the match and resumes at its end,
 * otherwise it keeps the character and moves on.  Every quantifier of this
 * pattern is greedy and adjacent pieces use disjoint character classes;
 * falling back from two hyphens to one leaves a hyphen, not a letter, next.
 * So the match the backtracking engine reports first is the longest one;
 * `FlagMatchAt` computes it, and `FlagMatchAtIsLongest` proves it longest.
 */
module FlagStrip {
  import opened Wrappers
  import opened Chars
  import opened Regex

  /** `\-{1,2}` */
  const HyphensRe: Re := Cat(Lit('-'), Opt(Lit('-')))
  /** `[^\W\d]+` */
  const FlagNameRe: Re := Plus(Class(Letter))
  const FlagRe: Re := Cat(Star(Class(Space)), Cat(HyphensRe, Cat(FlagNameRe, Star(Class(Space)))))

  /** Where `\-{1,2}` ends when it starts at the hyphen `s[w]`: it takes a second hyphen if there is one. */
  function HyphensEnd(s: string, w: nat): nat
    requires w < |s|
  {
    if w + 1 < |s| && s[w + 1] == '-' then w + 2 else w + 1
  }

  /** The end of the match of the flag pattern at `p`, if there is one. */
  function FlagMatchAt(s: string, p: nat): (r: Option<nat>)
    requires p <= |s|
    ensures r.Some? ==> p < r.value <= |s|
  {
    var w := RunEnd(s, p, Space);
    if w < |s| && s[w] == '-' then
      var h := HyphensEnd(s, w);
      var l := RunEnd(s, h, Letter);
      if h < l then Some(RunEnd(s, l, Space)) else None
    else
      None
  }

  /** What `FlagMatchAt` finds is a match of the pattern. */
  lemma FlagMatchAtSound(s: string, p: nat)
    requires p <= |s| && FlagMatchAt(s, p).Some?
    ensures Matches(FlagRe, s, p, FlagMatchAt(s, p).value)
  {
    var w := RunEnd(s, p, Space);
    var h := HyphensEnd(s, w);
    var l := RunEnd(s, h, Letter);
    var e := RunEnd(s, l, Space);
    StarClass(Space, s, p, w);
    StarClass(Space, s, l, e);
    PlusClass(Letter, s, h, l);
    assert Matches(Lit('-'), s, w, w + 1);
    if h == w + 2 {
      assert Matches(Lit('-'), s, w + 1, w + 2);
    }
    assert Matches(Opt(Lit('-')), s, w + 1, h);
    assert Matches(HyphensRe, s, w, h);
    assert Matches(Cat(FlagNameRe, Star(Class(Space))), s, h, e);
    assert Matches(Cat(HyphensRe, Cat(FlagNameRe, Star(Class(Space)))), s, w, e);
  }

  /** A match of `\-{1,2}` that a letter follows ends at `HyphensEnd`. */
  lemma HyphensComplete(s: string, w: nat, h: nat)
    requires w <= h < |s|
    requires Matches(HyphensRe, s, w, h) && IsLetter(s[h])
    ensures s[w] == '-' && h == HyphensEnd(s, w)
  {
    var h1 := CatSplit(Lit('-'), Opt(Lit('-')), s, w, h);
  }

  /** Every match of the pattern at `p` ends no later than the one `FlagMatchAt` finds. */
  lemma FlagMatchAtComplete(s: string, p: nat, e: nat)
    requires p <= e <= |s| && Matches(FlagRe, s, p, e)
    ensures FlagMatchAt(s, p).Some? && e <= FlagMatchAt(s, p).value
  {
    var m1 := CatSplit(Star(Class(Space)), Cat(HyphensRe, Cat(FlagNameRe, Star(Class(Space)))), s, p, e);
    var m2 := CatSplit(HyphensRe, Cat(FlagNameRe, Star(Class(Space))), s, m1, e);
    var m3 := CatSplit(FlagNameRe, Star(Class(Space)), s, m2, e);
    StarClass(Space, s, p, m1);
    PlusClass(Letter, s, m2, m3);
    StarClass(Space, s, m3, e);
    RunEndExact(s, p, m1, Space);
    HyphensComplete(s, m1, m2);
    var h := m2;
    var l := RunEnd(s, h, Letter);
    RunEndBound(s, h, m3, Letter);
    if m3 < l {
      // the trailing spaces cannot start inside the run of letters
      assert IsLetter(s[m3]);
    } else {
      RunEndBound(s, l, e, Space);
    }
  }

  /** `FlagMatchAt` is the longest match of the pattern at `p`, and `None` when there is none. */
  lemma FlagMatchAtIsLongest(s: string, p: nat)
    requires p <= |s|
    ensures FlagMatchAt(s, p).Some? ==> Matches(FlagRe, s, p, FlagMatchAt(s, p).value)
    ensures forall e: nat :: p <= e <= |s| && Matches(FlagRe, s, p, e) ==>
              FlagMatchAt(s, p).Some? && e <= FlagMatchAt(s, p).value
  {
    if FlagMatchAt(s, p).Some? {
      FlagMatchAtSound(s, p);
    }
    forall e: nat | p <= e <= |s| && Matches(FlagRe, s, p, e)
      ensures FlagMatchAt(s, p).Some? && e <= FlagMatchAt(s, p).value
    {
      FlagMatchAtComplete(s, p, e);
    }
  }

  /** Every character of a match is a space, a hyphen or a letter, and a hyphen in it is followed by a hyphen or a letter. */
  lemma FlagMatchChars(s: string, p: nat, k: nat)
    requires p <= |s| && FlagMatchAt(s, p).Some?
    requires p <= k < FlagMatchAt(s, p).value
    ensures IsSpace(s[k]) || s[k] == '-' || IsLetter(s[k])
    ensures s[k] == '-' ==> k + 1 < FlagMatchAt(s, p).value && (s[k + 1] == '-' || IsLetter(s[k + 1]))
  {
  }

  /** `re.sub` of the flag pattern by `""` on `s[pos..]`. */
  function StripFrom(s: string, pos: nat): string
    requires pos <= |s|
    decreases |s| - pos
  {
    if pos == |s| then []
    else match FlagMatchAt(s, pos)
      case Some(e) => StripFrom(s, e)
      case None => [s[pos]] + StripFrom(s, pos + 1)
  }

  function StripFlags(s: string): string {
    StripFrom(s, 0)
  }

  /** The positions of `s[pos..]` that `StripFrom` keeps, in order. */
  ghost function KeptFrom(s: string, pos: nat): seq<nat>
    requires pos <= |s|
    decreases |s| - pos
  {
    if pos == |s| then []
    else match FlagMatchAt(s, pos)
      case Some(e) => KeptFrom(s, e)
      case None => [pos] + KeptFrom(s, pos + 1)
  }

  /** Stripping only deletes: the result is `s` read at a strictly increasing list of positions. */
  lemma {:induction false} StripKeepsOrder(s: string, pos: nat)
    requires pos <= |s|
    ensures var kept := KeptFrom(s, pos);
      |StripFrom(s, pos)| == |kept| &&
      (forall k :: 0 <= k < |kept| ==> pos <= kept[k] < |s| && StripFrom(s, pos)[k] == s[kept[k]]) &&
      (forall k, k' :: 0 <= k < k' < |kept| ==> kept[k] < kept[k'])
    decreases |s| - pos
  {
    if pos < |s| {
      match FlagMatchAt(s, pos)
      case Some(e) => StripKeepsOrder(s, e);
      case None => StripKeepsOrder(s, pos + 1);
    }
  }

  /** Stripping never lengthens the text. */
  lemma StripNotLonger(s: string)
    ensures |StripFlags(s)| <= |s|
  {
    StripKeepsOrder(s, 0);
    var kept := KeptFrom(s, 0);
    // kept is a strictly increasing list of positions below |s|
    StrictlyIncreasingBound(kept, |s|);
  }

  lemma {:induction false} StrictlyIncreasingBound(kept: seq<nat>, n: nat)
    requires forall k :: 0 <= k < |kept| ==> kept[k] < n
    requires forall k, k' :: 0 <= k < k' < |kept| ==> kept[k] < kept[k']
    ensures |kept| <= n
  {
    if |kept| > 0 {
      var last := kept[|kept| - 1];
      StrictlyIncreasingBound(kept[..|kept| - 1], last);
    }
  }

  /**
   * A character that is not a space, a hyphen or a letter is never deleted,
   * and neither is a hyphen followed by a digit.
   */
  lemma {:induction false} StripKeeps(s: string, pos: nat, i: nat)
    requires pos <= i < |s|
    requires !(IsSpace(s[i]) || s[i] == '-' || IsLetter(s[i])) ||
             (s[i] == '-' && i + 1 < |s| && IsDigit(s[i + 1]))
    ensures i in KeptFrom(s, pos)
    decreases |s| - pos
  {
    match FlagMatchAt(s, pos)
    case Some(e) =>
      if i < e {
        FlagMatchChars(s, pos, i);
        assert false;
      }
      StripKeeps(s, e, i);
    case None =>
      if pos < i {
        StripKeeps(s, pos + 1, i);
      }
  }

  /** Where no hyphen is followed by a letter, the pattern does not match. */
  lemma NoFlagAt(s: string, p: nat)
    requires p <= |s|
    requires forall k :: p <= k < |s| - 1 && s[k] == '-' ==> !IsLetter(s[k + 1])
    ensures FlagMatchAt(s, p).None?
  {
    var w := RunEnd(s, p, Space);
    if w < |s| && s[w] == '-' {
      var h := HyphensEnd(s, w);
      if h < |s| {
        assert s[h - 1] == '-';
        assert !IsLetter(s[h]);
      }
    }
  }

  /** Text in which no hyphen is followed by a letter has no flag to strip. */
  lemma {:induction false} StripNoFlag(s: string, pos: nat)
    requires pos <= |s|
    requires forall k :: pos <= k < |s| - 1 && s[k] == '-' ==> !IsLetter(s[k + 1])
    ensures StripFrom(s, pos) == s[pos..]
    decreases |s| - pos
  {
    if pos < |s| {
      NoFlagAt(s, pos);
      StripNoFlag(s, pos + 1);
    }
  }

  /** A string with no hyphen is unchanged. */
  lemma StripNoHyphen(s: string)
    requires forall k :: 0 <= k < |s| ==> s[k] != '-'
    ensures StripFlags(s) == s
  {
    StripNoFlag(s, 0);
  }

  /** A hyphen before a digit is kept. */
  lemma StripExampleMinus()
    ensures StripFlags("2d6-3") == "2d6-3"
  {
    var s := "2d6-3";
    assert s[3] == '-' && s[4] == '3';
    StripNoFlag(s, 0);
  }

  /** A flag after the roll goes, with the space before it. */
  lemma StripExampleTrailing()
    ensures StripFlags("1d20 -max") == "1d20"
  {
    var s := "1d20 -max";
    assert s[4] == ' ' && s[5] == '-' && s[6] == 'm' && s[7] == 'a' && s[8] == 'x';
    RunEndExact(s, 4, 5, Space);
    RunEndExact(s, 6, 9, Letter);
    RunEndExact(s, 9, 9, Space);
    assert FlagMatchAt(s, 4) == Some(9);
    assert StripFrom(s, 4) == [];
    assert s[0] == '1' && s[1] == 'd' && s[2] == '2' && s[3] == '0';
    assert StripFrom(s, 3) == "0";
    assert StripFrom(s, 2) == "20";
    assert StripFrom(s, 1) == "d20";
  }

  /** A flag before the roll goes, with the space after it. */
  lemma StripExampleLeading()
    ensures StripFlags("-max 2d6") == "2d6"
  {
    var s := "-max 2d6";
    assert s[0] == '-' && s[1] == 'm' && s[2] == 'a' && s[3] == 'x' && s[4] == ' ' && s[5] == '2';
    RunEndExact(s, 0, 0, Space);
    RunEndExact(s, 1, 4, Letter);
    RunEndExact(s, 4, 5, Space);
    assert FlagMatchAt(s, 0) == Some(5);
    StripNoFlag(s, 5);
    assert s[5..] == "2d6";
  }

  /** The scan `re.sub` performs. */
  method RemoveFlags(s: string) returns (r: string)
    ensures r == StripFlags(s)
  {
    var pos := 0;
    r := [];
    while pos < |s|
      invariant pos <= |s|
      invariant r + StripFrom(s, pos) == StripFlags(s)
      decreases |s| - pos
    {
      var m := FlagMatchAt(s, pos);
      if m.Some? {
        pos := m.value;
      } else {
        r := r + [s[pos]];
        pos := pos + 1;
      }
    }
  }
}
