/**
 * The decisions of the `r` (roll) command and the text it sends.  The dice
 * rollers of `dice_tools` and the flag parser are outside the model: the
 * flags argparse finds arrive as `Flags`, the draw of `random.choice` as
 * `draw`, and what a roller produced (or the error it raised) as
 * `RollerOutcome`.
 */
module RollCommand {
  import opened Wrappers
  import opened Chars
  import opened Regex
  import opened RollPattern
  import opened FlagStrip
  import opened Maintenance

  /** The flags argparse recognised in the roll text. */
  datatype Flags = Flags(brief: bool, max: bool, min: bool, avg: bool)

  /** What the command does with a roll. */
  datatype Action =
    | Rigged(total: nat)                    // the `1d6` short-circuit
    | MaxOf(roll: string)                   // MaxRoller(roll)
    | MinOf(roll: string)                   // MinRoller(roll)
    | AvgOf(roll: string)                   // AvgRoller(roll)
    | RollDice(roll: string, detail: bool)  // DiceRoller(roll), then construct_message
    | NoMatch                               // the "did not match" reply

  /** What a roller built by the command produced: its result and detail strings, or a `DiceToolsError` message. */
  datatype RollerOutcome = Rolled(result: string, details: seq<string>) | Failed(message: string)

  /**
   * The short-circuit at the top of the command: an allow-listed user who
   * rolls exactly `1d6` in mode A, B or C gets a chosen total.
   * `draw` is what `random.choice(['1','2','3','4'])` picked.
   */
  function RiggedTotal(roll: string, author: int, mode: Mode, draw: nat): (r: Option<nat>)
    requires 1 <= draw <= 4
    ensures r.Some? <==> roll == "1d6" && Allowed(author) && mode != D
    ensures r.Some? ==> 1 <= r.value <= 6
    ensures r.Some? && mode == A ==> r.value == draw
    ensures r.Some? && mode == B ==> r.value == 5
    ensures r.Some? && mode == C ==> r.value == 6
  {
    if roll in ["1d6"] && author in AllowList then
      match mode
      case A => Some(draw)
      case B => Some(5)
      case C => Some(6)
      case D => None
    else
      None
  }

  /** The dispatch on the stripped roll text: max, then min, then avg, then the pattern, then the mismatch reply. */
  function Dispatch(roll: string, flags: Flags): (a: Action)
    ensures flags.max ==> a == MaxOf(roll)
    ensures !flags.max && flags.min ==> a == MinOf(roll)
    ensures !flags.max && !flags.min && flags.avg ==> a == AvgOf(roll)
    ensures a.RollDice? <==> !flags.max && !flags.min && !flags.avg && MatchesAtStart(SimpleRollRe, roll)
    ensures a.RollDice? ==> a == RollDice(roll, !flags.brief)
    ensures a == NoMatch <==> !flags.max && !flags.min && !flags.avg && !MatchesAtStart(SimpleRollRe, roll)
  {
    AcceptsIffMatch(roll);
    if flags.max then MaxOf(roll)
    else if flags.min then MinOf(roll)
    else if flags.avg then AvgOf(roll)
    else if Accepts(roll) then RollDice(roll, !flags.brief)
    else NoMatch
  }

  /** The whole decision of the command for the raw roll text. */
  function Decide(roll: string, author: int, mode: Mode, flags: Flags, draw: nat): (a: Action)
    requires 1 <= draw <= 4
    ensures a.Rigged? <==> roll == "1d6" && Allowed(author) && mode != D
    ensures a.Rigged? ==> a.total == RiggedTotal(roll, author, mode, draw).value
    ensures !a.Rigged? ==> a == Dispatch(StripFlags(roll), flags)
  {
    match RiggedTotal(roll, author, mode, draw)
    case Some(n) => Rigged(n)
    case None => Dispatch(StripFlags(roll), flags)
  }

  /** The random roller runs only without a stat flag and only on stripped text that matches the pattern. */
  lemma RandomRollerGuard(roll: string, author: int, mode: Mode, flags: Flags, draw: nat)
    requires 1 <= draw <= 4
    ensures var a := Decide(roll, author, mode, flags, draw);
      a.RollDice? <==>
        !(roll == "1d6" && Allowed(author) && mode != D) &&
        !flags.max && !flags.min && !flags.avg && MatchesAtStart(SimpleRollRe, StripFlags(roll))
    ensures var a := Decide(roll, author, mode, flags, draw);
      a.RollDice? ==> a.roll == StripFlags(roll) && a.detail == !flags.brief
  {
  }

  /** The stat rollers are chosen whatever the pattern says about the text. */
  lemma StatFlagsIgnorePattern(roll: string, flags: Flags)
    requires flags.max || flags.min || flags.avg
    ensures Dispatch(roll, flags) in {MaxOf(roll), MinOf(roll), AvgOf(roll)}
  {
  }

  /** In mode D an allow-listed `1d6` is an ordinary roll. */
  lemma ModeDIsFair(author: int, brief: bool, draw: nat)
    requires 1 <= draw <= 4
    ensures Decide("1d6", author, D, Flags(brief, false, false, false), draw) == RollDice("1d6", !brief)
  {
    StripNoHyphen("1d6");
    DiceAccepted("1", "6");
    assert "1" + "d" + "6" == "1d6";
    AcceptsIffMatch("1d6");
  }

  /** After an allow-listed user switches to mode B or C, their next `1d6` shows 5 or 6. */
  lemma SwitchRigsNextRoll(mode: Mode, admin: int, x: Mode, flags: Flags, draw: nat)
    requires Allowed(admin) && (x == B || x == C) && 1 <= draw <= 4
    ensures var next := Transition(mode, admin, Name(x)).0;
      Decide("1d6", admin, next, flags, draw) == Rigged(if x == B then 5 else 6)
  {
  }

  /** `sep.join(parts)` */
  function Join(parts: seq<string>, sep: string): string {
    if |parts| == 0 then ""
    else if |parts| == 1 then parts[0]
    else parts[0] + sep + Join(parts[1..], sep)
  }

  predicate OccursAt(sub: string, s: string, i: nat) {
    i + |sub| <= |s| && s[i..i + |sub|] == sub
  }

  /** Every part appears in the joined text. */
  lemma {:induction false} JoinHasPart(parts: seq<string>, sep: string, k: nat) returns (i: nat)
    requires k < |parts|
    ensures OccursAt(parts[k], Join(parts, sep), i)
  {
    if |parts| == 1 {
      i := 0;
    } else if k == 0 {
      i := 0;
      assert Join(parts, sep)[..|parts[0]|] == parts[0];
    } else {
      var j := JoinHasPart(parts[1..], sep, k - 1);
      var prefix := parts[0] + sep;
      i := |prefix| + j;
      assert Join(parts, sep) == prefix + Join(parts[1..], sep);
      assert Join(parts, sep)[i..i + |parts[k]|] == Join(parts[1..], sep)[j..j + |parts[k]|];
    }
  }

  /**
   * `construct_message(roller, author, detail)`: both forms open with the
   * mention and then the total; the detailed one also shows the detail
   * strings joined with `"; "`.
   */
  function ConstructMessage(mention: string, result: string, details: seq<string>, detail: bool): (msg: string)
    ensures OccursAt(mention, msg, 0) && OccursAt(result, msg, |mention| + 20)
    ensures detail ==> OccursAt(Join(details, "; "), msg, |mention| + |result| + 28)
    ensures !detail ==> |msg| == |mention| + |result| + 22
  {
    var head := mention + " rolled a total of `" + result;
    assert head[..|mention|] == mention;
    assert head[|mention| + 20..] == result;
    if !detail then
      head + "`."
    else
      var lead := head + "` from `";
      var j := Join(details, "; ");
      assert (lead + j + "`.")[|lead|..|lead| + |j|] == j;
      lead + j + "`."
  }

  /** Without details the message is the same whatever the detail strings are. */
  lemma BriefIgnoresDetails(mention: string, result: string, d1: seq<string>, d2: seq<string>)
    ensures ConstructMessage(mention, result, d1, false) == ConstructMessage(mention, result, d2, false)
  {
  }

  /** The decimal digits of a number. */
  function Decimal(n: nat): (r: string)
    ensures |r| > 0 && forall k :: 0 <= k < |r| ==> IsDigit(r[k])
  {
    var d := [(('0' as int) + n % 10) as char];
    if n < 10 then d else Decimal(n / 10) + d
  }

  /** The reply for a `DiceToolsError`: the mention, then the error's message. */
  function ErrorText(mention: string, message: string): (msg: string)
    ensures OccursAt(mention, msg, 0) && OccursAt(message, msg, |mention| + 64)
  {
    var head := mention + ", your roll has produced an error with the following message:\n**";
    var msg := head + message + "**\nPlease fix your roll and try again.";
    assert |head| == |mention| + 64;
    assert msg[..|mention|] == mention;
    assert msg[|head|..|head| + |message|] == message;
    msg
  }

  /** The reply to a rigged `1d6`: the mention, then the chosen face as the total. */
  function RiggedText(mention: string, n: nat): (msg: string)
    ensures OccursAt(mention, msg, 0) && OccursAt(Decimal(n), msg, |mention| + 20)
  {
    var face := Decimal(n);
    var head := mention + " rolled a total of `" + face;
    var msg := head + "` from `(" + face + ")`.";
    assert msg[..|mention|] == mention;
    assert msg[|mention| + 20..|head|] == face;
    msg
  }

  /** The reply when the roll matches no pattern: the mention, then a fixed sentence. */
  function NoMatchText(mention: string): (msg: string)
    ensures OccursAt(mention, msg, 0)
    ensures |msg| > |mention|
  {
    var msg := mention + ", the specification you provided did not match any of the roll patterns. Please try again.";
    assert msg[..|mention|] == mention;
    msg
  }

  /** The reply of a stat roller: the mention, the roller's result, then the stripped roll at the end. */
  function StatText(mention: string, result: string, phrase: string, roll: string): (msg: string)
    ensures OccursAt(mention, msg, 0) && OccursAt(result, msg, |mention| + 3)
    ensures |msg| >= |roll| + 2 && OccursAt(roll, msg, |msg| - |roll| - 2)
  {
    var head := mention + ", `" + result;
    var msg := head + "` " + phrase + " `" + roll + "`.";
    assert msg[..|mention|] == mention;
    assert msg[|mention| + 3..|mention| + 3 + |result|] == result;
    assert msg[|msg| - |roll| - 2..|msg| - 2] == roll;
    msg
  }

  /**
   * The text the command sends in the channel.  Every reply opens with the
   * author's mention; a roller that raised gives the error reply; the stat
   * replies show the roller's result and the stripped roll; the random roll
   * is `construct_message` with the action's `detail`.
   */
  function Message(mention: string, action: Action, outcome: RollerOutcome): (msg: string)
    ensures OccursAt(mention, msg, 0)
    ensures !action.Rigged? && !action.NoMatch? && outcome.Failed? ==> msg == ErrorText(mention, outcome.message)
    ensures (action.MaxOf? || action.MinOf? || action.AvgOf?) && outcome.Rolled? ==>
              OccursAt(outcome.result, msg, |mention| + 3) &&
              |msg| >= |action.roll| + 2 && OccursAt(action.roll, msg, |msg| - |action.roll| - 2)
    ensures action.RollDice? && outcome.Rolled? ==>
              msg == ConstructMessage(mention, outcome.result, outcome.details, action.detail)
  {
    match action
    case Rigged(n) => RiggedText(mention, n)
    case MaxOf(roll) =>
      if outcome.Failed? then ErrorText(mention, outcome.message)
      else StatText(mention, outcome.result, "is the maximum possible result of", roll)
    case MinOf(roll) =>
      if outcome.Failed? then ErrorText(mention, outcome.message)
      else StatText(mention, outcome.result, "is the minimum possible result of", roll)
    case AvgOf(roll) =>
      if outcome.Failed? then ErrorText(mention, outcome.message)
      else StatText(mention, outcome.result, "is (close to) the average result of", roll)
    case RollDice(roll, detail) =>
      if outcome.Failed? then ErrorText(mention, outcome.message)
      else ConstructMessage(mention, outcome.result, outcome.details, detail)
    case NoMatch => NoMatchText(mention)
  }

  /** A rigged roll reads exactly like a genuine detailed roll of one die that showed the total. */
  lemma RiggedLooksGenuine(mention: string, n: nat, outcome: RollerOutcome)
    ensures var face := Decimal(n);
      Message(mention, Rigged(n), outcome) == ConstructMessage(mention, face, ["(" + face + ")"], true)
  {
    var face := Decimal(n);
    assert Join(["(" + face + ")"], "; ") == "(" + face + ")";
  }
}
