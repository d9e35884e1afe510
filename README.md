# Dice bot roll command: a Dafny model

This project models the logic that `test.py` wraps around its dice library. The bot answers a
`!r <roll>` chat command. Before any roller runs, the command decides what to do with the text:

- **Roll-pattern recogniser.** `re.match(patterns["simple roll"], roll)` decides whether the
  random roller gets the text. The patterns are `sign = [\+\-]`,
  `dice = \d+d(\d+~)?\d+(:\w+)?`, `mod = \d+`, `single roll = sign? \s* (dice|mod) \b` and
  `simple roll = (single roll)+`.
- **Flag stripper.** `re.sub(r"\s*\-{1,2}[^\W\d]+\s*", "", roll)` removes the `-max`, `-min`,
  `-avg` and `-b`/`--brief` flags from the roll text.
- **Maintenance switch.** A global `mode` in {A, B, C, D} starts at D. The `maintenance` admin
  command sets it for three allow-listed user ids.
- **Command decisions.** These are the rigged `1d6` short-circuit for allow-listed users in modes
  A, B and C, the dispatch between the stat rollers, the pattern check and the mismatch reply,
  and the reply texts, `construct_message` among them.

Modules:

- `Chars` gives the character classes.
- `Regex` gives a small regular-expression language. `Matches(r, s, i, j)` holds when `r` can
  match `s[i..j]` inside `s`, so `\b` can look at both neighbours. `MatchesAtStart` is what
  `re.match` tests: some match starts at position 0.
- `RollPattern` holds the roll patterns written in that language. It also holds `Accepts`, the
  same test worked out on the longest runs of spaces and digits, proved equal to the regex
  semantics. `MatchesSimpleRoll` is the scan, proved equal to both.
- `FlagStrip` holds the flag pattern and `FlagMatchAt`, the match `re.sub` finds at a position.
  `StripFlags` is the left-to-right substitution and `RemoveFlags` is its loop.
- `Maintenance` holds `Transition` and the class `ModeSwitch`, whose `mode` field the
  `Evaluate` method updates.
- `RollCommand` holds `RiggedTotal`, `Dispatch`, `Decide`, `ConstructMessage` and `Message`
  (the text sent for each action).

Character classes are ASCII. Here `\d` is `0-9` and `\w` is `[A-Za-z0-9_]`. `\s` is tab,
newline, vertical tab, form feed, carriage return, space and the separators 0x1C..0x1F, which
Python's `str` patterns count as whitespace. `[^\W\d]` is the ASCII letters and `_`. A
non-ASCII character is treated as neither a digit, a word character nor whitespace.

Two facts about the code shape the roll pattern:

- `re.match` anchors only the start of the string, so `"2d6!!"` and `"2d6 x"` are accepted:
  only the leading single roll counts (`LeadingSingleRoll`, `AcceptsExtend`).
- The group `\d+~` sits between the `d` and the last digits (test.py:57), so a cap is written
  `NdC~S`; the model keeps the regex's shape.

How `re.sub` picks its match: at each position the engine takes the first match its
backtracking finds. Every quantifier of the flag pattern is greedy, and adjacent pieces
(spaces, hyphens, letters, spaces) use disjoint character classes. When the engine falls back
from two hyphens to one, the next character is a hyphen, not a letter, so the fallback fails.
So that first match is the longest one. `FlagMatchAtIsLongest` proves that `FlagMatchAt` is the longest match, and that
it is `None` when the pattern has no match at that position.

## Model

| member | source | states |
|---|---|---|
| RollPattern.AcceptsIffMatch | test.py:56-61 | `Accepts(s)` holds iff the regex's `simple roll` (sign, spaces, dice or modifier, word boundary, repeated) has a match starting at position 0 of `s`, which is what `re.match` tests |
| RollPattern.LeadingSingleRoll | test.py:60-61 | `(single roll)+` matches at the start iff one `single roll` does: acceptance depends only on the leading single roll |
| RollPattern.AcceptsSound | test.py:56-60 | when `Accepts` holds, the regex has a single roll at position 0 (sign, spaces, body, `\b` with explicit split points) |
| RollPattern.AcceptsComplete | test.py:56-60 | any regex match of a single roll at position 0 implies `Accepts`, whichever alternative and optional groups the match used |
| RollPattern.MatchesSimpleRoll | test.py:201 | the scan returns true iff `Accepts(s)`, iff `re.match(patterns["simple roll"], s)` succeeds |
| RollPattern.DigitsAccepted | test.py:58-60 | every non-empty string of digits is accepted (a lone modifier) |
| RollPattern.DiceAccepted | test.py:57-60 | every `N d S` with non-empty digit strings `N` and `S` is accepted |
| RollPattern.AcceptsExtend | test.py:60-61 | appending text that starts with a non-word character to an accepted roll keeps it accepted |
| RollPattern.DiceThenPunctuation | test.py:57-60 | a die group `NdS` (any non-empty digit strings) followed by text starting with a non-word character is accepted |
| RollPattern.AcceptedExamples | test.py:57-61 | `"2d6!!"`, `"2d3~"` (the `\d+~` group dropped) and `"2d6:"` (the `:\w+` group dropped) are accepted |
| RollPattern.SignSpaceExample | test.py:56-61 | `"+ 3"` is accepted: a sign may be separated from its modifier by spaces |
| RollPattern.RejectedExamples | test.py:56-61 | `""`, `"2d"`, `"d6"`, `"2d6x"` and `"x1"` are rejected |
| FlagStrip.FlagMatchAtIsLongest | test.py:190 | `FlagMatchAt(s, p)` is a match of `\s*\-{1,2}[^\W\d]+\s*` at `p`, no match at `p` is longer, and it is `None` exactly when no match starts at `p` |
| FlagStrip.FlagMatchChars | test.py:190 | every character of a flag match is a space, a hyphen or a letter, and a hyphen inside it is followed by a hyphen or a letter |
| FlagStrip.StripKeepsOrder | test.py:190 | the stripped text is the input read at a strictly increasing list of positions: stripping only deletes characters |
| FlagStrip.StripNotLonger | test.py:190 | the stripped text is never longer than the input |
| FlagStrip.StripKeeps | test.py:190 | a character that is not a space, a hyphen or a letter is never deleted, and neither is a hyphen followed by a digit |
| FlagStrip.StripNoFlag | test.py:190 | text in which no hyphen is followed by a letter is unchanged |
| FlagStrip.StripNoHyphen | test.py:190 | a string with no hyphen is unchanged |
| FlagStrip.StripExampleMinus | test.py:190 | `"2d6-3"` is unchanged |
| FlagStrip.StripExampleTrailing | test.py:190 | `"1d20 -max"` becomes `"1d20"` |
| FlagStrip.StripExampleLeading | test.py:190 | `"-max 2d6"` becomes `"2d6"` |
| FlagStrip.RemoveFlags | test.py:190 | the left-to-right substitution loop returns `StripFlags(s)` |
| Maintenance.ParseChoice | test.py:110-116 | a choice selects the mode whose name it is, and any other string selects none |
| Maintenance.Transition | test.py:117-151 | outside the allow-list: mode unchanged, only the permission-denied reply; allow-listed with a choice outside A-D: nothing changes and nothing is sent; allow-listed with choice X: the new mode is X, the reply is "already turned on" iff the mode was X before and "Successfully turned on" otherwise |
| Maintenance.DeniedIffNotAllowed | test.py:118-151 | the permission-denied reply is sent iff the user is not on the allow-list |
| Maintenance.TransitionIdempotent | test.py:120-146 | applying the same choice twice leaves the state of applying it once, and the second answered call says "already turned on" |
| Maintenance.ReplyTextInjective | test.py:122-151 | the reply messages of different replies are different strings |
| Maintenance.ModeSwitch.constructor | test.py:51 | the mode starts at D |
| Maintenance.ModeSwitch.Evaluate | test.py:117-151 | the new `mode` and the reply sent are those of `Transition` from the old mode |
| RollCommand.RiggedTotal | test.py:174-186 | the short-circuit fires iff the raw text is exactly `1d6`, the author is allow-listed and the mode is A, B or C; mode A reports the draw from {1,2,3,4}, mode B reports 5, mode C reports 6 |
| RollCommand.Dispatch | test.py:192-207 | priority max, then min, then avg on the stripped text; otherwise the random roller with `detail = not brief` iff the pattern matches, else the mismatch reply |
| RollCommand.Decide | test.py:173-207 | the rigged total iff the short-circuit fires; otherwise the dispatch of the flag-stripped text |
| RollCommand.RandomRollerGuard | test.py:174-205 | the random roller is reached iff the short-circuit does not fire, no stat flag is set and the stripped text matches the pattern; it gets the stripped text and `detail = not brief` |
| RollCommand.StatFlagsIgnorePattern | test.py:192-200 | with a stat flag set, a stat roller is chosen whether or not the text matches the pattern |
| RollCommand.ModeDIsFair | test.py:174-205 | in mode D an allow-listed `1d6` without stat flags goes to the random roller unchanged |
| RollCommand.SwitchRigsNextRoll | test.py:120-146 | after an allow-listed switch to mode B (or C), that user's next `1d6` reports 5 (or 6) |
| RollCommand.JoinHasPart | test.py:105 | every detail string occurs in `'; '.join(...)` |
| RollCommand.BriefIgnoresDetails | test.py:102-103 | with `detail == False` the message does not depend on the detail strings |
| RollCommand.ConstructMessage | test.py:95-107 | both forms of `construct_message` open with the mention and then the total; the detailed form contains the detail strings joined with `"; "`; the brief form is the mention, the total and fixed text only |
| RollCommand.RiggedText | test.py:175-186 | the rigged reply opens with the mention and shows the chosen face where a genuine roll shows its total |
| RollCommand.NoMatchText | test.py:206-207 | the no-match reply opens with the mention |
| RollCommand.ErrorText | test.py:208-209 | the `DiceToolsError` reply opens with the mention and contains the error's message |
| RollCommand.StatText | test.py:192-200 | a stat reply opens with the mention, shows the roller's result, and ends with the stripped roll |
| RollCommand.Message | test.py:174-209 | every reply opens with the author's mention; a roller that raised gives the error reply; the max, min and average replies contain the roller's result and the stripped roll; the random roll's reply is `construct_message` with the action's detail setting |
| RollCommand.RiggedLooksGenuine | test.py:177-185 | a rigged reply is exactly the detailed `construct_message` of a roll whose total is the face and whose only detail is `(face)` |

## Left out

- The `dice_tools` rollers and `DiceToolsError` (test.py:10-13) are a library whose code is not
  part of this model. What a roller produced, or the error message it raised, is the input
  `RollerOutcome`; the model does not compute maxima, minima, averages or random totals.
- `argparse` flag parsing (test.py:64-69, 189) is foreign, including the error exit for two stat
  flags at once. The flags it found are the input `Flags`.
- `random.choice` (test.py:176) is the input `draw`, any of 1 to 4.
- The Discord glue is asynchronous I/O and is not modelled: bot construction, `on_ready`,
  `on_message`, `send_message`/`channel.send`, the `sync` command and `bot.run`
  (test.py:72-93, 220-246). `Message` and `ReplyText` give the text that would be sent.
- Config file creation and loading, `quit()` and `os.chdir` (test.py:18-41) are file-system I/O.
- Unicode behaviour of `\d`, `\w` and `\s` is not modelled; the classes are ASCII only.
- The generic-exception path (test.py:210-213) sends the exception text and re-raises. It is
  error plumbing around foreign code.
- Regex.Matches: describes which matches exist, not the order in which the backtracking engine
  tries them. For the flag pattern the chosen match is proved to be the longest (see above);
  for the roll pattern only existence matters.
- Maintenance.ModeSwitch.Evaluate: the source sends the reply before it assigns `mode`, so a
  failed send would leave the mode unchanged; the model treats sending as always succeeding.
  Commands are also modelled as running one at a time: the source reads `mode` (test.py:121),
  awaits the send (test.py:124) and only then assigns (test.py:125), so two overlapping
  `evaluate('A')` calls from mode D would both reply "Successfully turned on"; the model does
  not interleave at that `await`.
