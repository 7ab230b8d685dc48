# Riftbound: Dominion remote play — score synchronisation model

Two players each open the remote-play page in a browser, connect peer to
peer, and keep a score panel in step. Each page holds two scores:
`player1` is the local user ("You") and `player2` is the opponent. It also
holds a win threshold ("First to 8", or 9 with the Aspirant's Climb
option), a "winner" highlight per score and a winner modal. The only thing
sent between the pages is `{type: 'score', score: player1}`. A page sends it
when its data channel opens, after every local score change and after a
reset. A page that receives it validates it and writes it into its own
`player2` without sending anything back. This is the echo-suppression
rule.

The model is in six modules:

- `Wrappers`: `Option`. `None` stands for NaN, for "no winner" and for a closed modal.
- `JsText`: the JavaScript built-ins the protocol depends on. `parseInt`
  without a radix is modelled as ECMAScript section 19.2.5 describes it:
  leading white space is skipped, then one sign is read, a "0x" prefix
  switches to base 16, and the longest run of digits is read.
  `String.prototype.trim` and `String(n)` for integers are also modelled.
  The lemmas prove that `parseInt(String(n)) == n`, that trailing text is
  ignored and that non-numeric text gives NaN.
- `Scoring`: the read-only decisions and the wire codec. These are the
  clamp, the threshold choice, `checkWinner`'s decision and the
  validation of inbound messages.
- `ScoreSync`: the class `ScoreBoard`. It has the module-level state of
  the page and one method per handler that changes it. It also has a
  two-board scenario.
- `Rooms`: the range of `generateRoomCode` and `joinRoom`'s length check.
- `VideoFlip`: the class `FlipStates`, the per-video mirroring flags of
  `toggleFlip`.

The event handlers for the data channel's open, close and data events are
methods that the environment calls. `connOpen` stands for
`connection && connection.open`. `outbox` records every `connection.send`,
in order.

`ScoreBoard.Valid()` keeps both scores in [0, 99] and the threshold in
{8, 9}. It does not tie each highlight to the current threshold, because
`toggleAspirantsClimb` re-runs `checkWinner` but does not refresh the
highlights. What holds is weaker: a lit highlight means a score of at
least 8, and a score of at least 9 is always lit.
`Scoring.StaleHighlightOnlyAtEight` proves that a highlight can disagree
with the current threshold only on a score of exactly 8.

The page does not have some behaviour a two-player score panel might be
expected to have. It has no ownership rule that rejects local edits of the
opponent's score. It does not synchronise the threshold, it has no reset
message, and it does not check for a winner after an inbound score. The
model reproduces what the page does:

- `adjustScore(2, d)` changes `player2` locally and then sends the
  unchanged `player1`.
- The threshold and resets are never sent.
- An inbound score updates the highlight but never opens the winner modal.
  `ScoreSync.HostReachesEight` shows this with two boards: the host sees
  "You" win, while the guest shows 8 highlighted with no modal.

## Model

| member | source | states |
|---|---|---|
| `Scoring.ClampScore` | script.js:323 | the adjusted score is always in [0, 99]; an in-range sum is kept, below 0 gives 0, above 99 gives 99 (so a delta of -1000 gives 0 and +1000 gives 99 from any start) |
| `Scoring.ThresholdFor` | script.js:69 | the threshold is always 8 or 9, and it is 9 exactly when the box is checked |
| `Scoring.Winner` | script.js:345-351 | "You" exactly when player 1 reaches the threshold; "Opponent" exactly when player 1 does not but player 2 does; no winner exactly when neither does |
| `Scoring.StaleHighlightOnlyAtEight` | script.js:334-338 | under the board invariant, a highlight that disagrees with the current threshold sits on a score of exactly 8: lit with threshold 9, or unlit with threshold 8 |
| `Scoring.Encode` | script.js:271-274 | for a score below 10^21 in magnitude (every score sent is in [0, 99]), a sent message arrives with kind 'score', and `parseInt` of its score field gives back exactly the sent score |
| `Scoring.DecodeScore` | script.js:251-254 | a message is accepted only when its kind is 'score' and its field parses to an integer in [0, 99], and then the value is that integer; every such message is accepted; any other kind is ignored |
| `Scoring.WireRoundTrip` | script.js:269-274 | the receiver accepts the sender's score unchanged exactly when it is in [0, 99] (for any integer below 10^21 in magnitude) |
| `Scoring.MalformedScoreDropped` | script.js:253-258 | a score field that starts with anything but white space, a sign or a digit (such as "abc") is dropped |
| `Scoring.TrailingTextIgnored` | script.js:253-255 | a score followed by a non-digit suffix ("7.9", "7x", "7 points") is accepted as its leading integer; only after a lone "0" does an "x" start a hexadecimal number instead |
| `JsText.ParseInt` | script.js:253 | `parseInt(s)` without a radix; a number is found only when the first non-space character is a digit or a sign, and a negative result needs a leading '-'; what it yields is stated by `ParseNumberText`, `ParseIgnoresSuffix` and `ParseRejectsNonNumeric` |
| `JsText.ParseNumberText` | script.js:253 | `parseInt` of the text form of any integer below 10^21 in magnitude gives that integer back |
| `JsText.ParseIgnoresSuffix` | script.js:253 | `parseInt` stops at the first non-digit after a decimal number below 10^21 (for 0, a following "x" or "X" would be a hex prefix and is excluded) |
| `JsText.ParseRejectsNonNumeric` | script.js:253-254 | text that starts with anything but white space, a sign or a digit parses to NaN |
| `JsText.TrimStart` | script.js:192 | the result is a suffix of the input with only white space removed in front, and it does not start with white space |
| `JsText.TrimEnd` | script.js:192 | the result is a prefix of the input with only white space removed at the end, and it does not end with white space |
| `JsText.DigitRun` | script.js:253 | the length of the longest prefix of digits: every character before it is a digit, and the one at it is not |
| `JsText.Trim` | script.js:192 | `.trim()`: the result is no longer than the input, starts and ends with a non-space character, and an input that already does so is returned unchanged |
| `JsText.TrimRemovesOnlySpace` | script.js:192 | `.trim()` yields the input with a run of leading and a run of trailing white space removed, and nothing else |
| `JsText.Utf16Length` | script.js:193 | `.length` counts UTF-16 code units: between one and two per character, and exactly one per character when none is above U+FFFF |
| `JsText.Utf16LengthChar` | script.js:193 | one character counts one code unit up to U+FFFF and two above |
| `JsText.Utf16LengthConcat` | script.js:193 | the length of a concatenation is the sum of the lengths; with `Utf16LengthChar` this fixes `.length` of any string |
| `JsText.DecimalString` | script.js:273 | the text form of a number below 10^21 is non-empty and made of decimal digits, with no leading zero except for 0 itself |
| `JsText.NumberText` | script.js:271-274 | `String(n)` of the sent score, for magnitudes below 10^21: it starts with '-' exactly when n is negative and is otherwise digits; `ParseNumberText` proves `parseInt` reads it back |
| `ScoreSync.ScoreBoard.constructor` | script.js:54-58 | both scores start at 0 and the threshold at 8; there is no connection, nothing has been sent, nothing is highlighted and no winner is shown |
| `ScoreSync.ScoreBoard.SendScoreUpdate` | script.js:269-276 | one message with player 1's score is appended when the connection is open, and none when it is closed |
| `ScoreSync.ScoreBoard.UpdateScoreDisplay` | script.js:328-343 | the displayed player's highlight becomes "score >= threshold"; the other highlight is unchanged; a message with player 1's score is sent only when `broadcast` is set and the connection is open |
| `ScoreSync.ScoreBoard.ShowWinner` | script.js:353-358 | the modal shows the given name |
| `ScoreSync.ScoreBoard.CheckWinner` | script.js:345-351 | the modal shows the winner when there is one and is left as it was otherwise; the result depends only on the two scores and the threshold, so a repeated call changes nothing |
| `ScoreSync.ScoreBoard.AdjustScore` | script.js:321-326 | the adjusted score is the clamp of old score plus delta; the other score, its highlight, the threshold and the connection are unchanged; exactly one message, carrying player 1's score, is sent when the connection is open, even when player 2 was adjusted; the winner is then re-checked; the invariant is kept |
| `ScoreSync.ScoreBoard.ToggleAspirantsClimb` | script.js:67-76 | the threshold becomes 9 when checked and 8 otherwise; scores, highlights and the outbox are unchanged; the winner is re-checked under the new threshold |
| `ScoreSync.ScoreBoard.ResetScores` | script.js:364-370 | both scores become 0 and both highlights go off; at most one message, with score 0, is sent and only over an open connection; the opponent's zero is not sent; the modal is untouched |
| `ScoreSync.ScoreBoard.OnChannelOpen` | script.js:244-247 | the channel is open and player 1's current score is sent exactly once; no other state changes |
| `ScoreSync.ScoreBoard.OnChannelClose` | script.js:263-266 | the channel is closed, and scores, highlights, threshold, modal and outbox are kept |
| `ScoreSync.ScoreBoard.OnData` | script.js:249-261 | an accepted score becomes player 2's score and its highlight is refreshed; any other message leaves all state unchanged; in every case nothing is sent, player 1's score and highlight, the threshold and the modal are unchanged |
| `ScoreSync.Deliver` | script.js:249-261 | a board whose data handler receives in-range scores in order ends with the last one as player 2's score and its highlight refreshed; it sends nothing, and its player 1 score, threshold and modal are unchanged |
| `ScoreSync.HostReachesEight` | script.js:249-256 | a host at 8 shows "You" as winner; a guest that receives the host's messages shows 8 as the opponent score, highlighted, and no winner modal |
| `Rooms.GenerateRoomCode` | script.js:132-134 | for any `Math.random()` value in [0, 1) the code is an integer in [100000, 999999] |
| `Rooms.RoomCodeText` | script.js:133 | the `.toString()` of a generated code is always six decimal digits |
| `Rooms.JoinCodeAccepted` | script.js:192-196 | the join check on the trimmed input, counting UTF-16 code units; an accepted code has between three and six characters, and when no character is above U+FFFF it is accepted exactly when it has six |
| `Rooms.GeneratedCodeAccepted` | script.js:192-196 | every generated code prints as six characters and passes the join check |
| `Rooms.PaddedCodeAccepted` | script.js:192-193 | a code of six UTF-16 code units, surrounded by white space, passes the join check |
| `Rooms.AstralCodeRejected` | script.js:193 | six characters that start with one above U+FFFF (an emoji and five digits) have length 7 and are rejected |
| `VideoFlip.Toggled` | script.js:82 | a toggle inverts exactly the chosen flag and keeps the other |
| `VideoFlip.Scale` | script.js:85-86 | the scale is -1 exactly when the flag is set, and 1 otherwise |
| `VideoFlip.FlipStates.constructor` | script.js:61-64 | both videos start with neither flag set |
| `VideoFlip.FlipStates.ToggleFlip` | script.js:78-89 | only the chosen video's entry changes, by one toggle; the returned scales reflect both of that video's flags |

## Left out

- Room creation, joining, media calls and connection wiring through the
  PeerJS library (script.js:136-241). The model keeps only the open flag
  and the outbox. A second incoming connection that replaces `connection`
  is not modelled.
- Camera capture and video elements (script.js:278-297), panel dragging,
  panel and modal open/close, status text, the clipboard, and the
  displayed score text (script.js:10-51, 299-318, 360-362). These are
  browser UI. Only the modal's name is kept, as `shownWinner`.
- Notes persistence in `localStorage` (script.js:101-128), console logging,
  and the `isHost` flag, which nothing reads.
- `adjustScore` with a `player` other than 1 or 2 fails at the DOM lookup
  in the source. The model's `Player` has only the two valid values.
- Deltas are integers. JavaScript's floating-point numbers, including
  non-integer deltas and precision loss, are not modelled.
- `Rooms.GenerateRoomCode` uses exact real arithmetic. Floating-point
  rounding of `Math.random() * 900000` is not modelled.
- `ToString` of a non-string `score` field is not modelled. The model
  starts from the text `parseInt` sees. A number of 1e21 or more prints in
  exponent form, so `parseInt` reads only its leading digit. Data that is
  `null` or `undefined` throws at `data.type` in the source. Any other
  non-object (a string, number or boolean) is boxed, reads `type` as
  `undefined` and is ignored, as the model ignores every kind other than
  'score'.
- Strings are sequences of Unicode code points, so a lone UTF-16
  surrogate cannot be written. Only the join check depends on how long a
  string is, and it counts UTF-16 code units through `JsText.Utf16Length`.
- `String(n)` and `parseInt` round trips are stated only below 10^21 in
  magnitude, where `String` stops printing plain digits.
- `JsText.ParseInt` returns 0 where JavaScript returns -0 (for "-0").
  -0 compares and prints like 0.
- The closing of the winner modal (script.js:360-362) is a button action
  and is not modelled.
