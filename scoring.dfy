/** The read-only decisions of the score panel and the shape of the one
    message the two browsers exchange. */
module Scoring {
  import opened Wrappers
  import opened JsText

  /** Scores are clamped to [MinScore, MaxScore]. */
  const MinScore := 0
  const MaxScore := 99
  /** "First to 8 wins", or 9 with the Aspirant's Climb option. */
  const StandardWin := 8
  const ExtendedWin := 9

  /** The `player` argument of adjustScore: 1 is this browser's user,
      2 the opponent. */
  datatype Player = Player1 | Player2

  /** The names the winner modal shows. */
  datatype Name = You | Opponent

  predicate InScoreRange(x: int) {
    MinScore <= x <= MaxScore
  }

  predicate IsThreshold(t: int) {
    t == StandardWin || t == ExtendedWin
  }

  /** `Math.max(0, Math.min(99, x))`. */
  function ClampScore(x: int): (r: int)
    ensures InScoreRange(r)
    ensures InScoreRange(x) ==> r == x
    ensures x < MinScore ==> r == MinScore
    ensures x > MaxScore ==> r == MaxScore
  {
    if x > MaxScore then MaxScore else if x < MinScore then MinScore else x
  }

  /** The threshold chosen by the Aspirant's Climb checkbox. */
  function ThresholdFor(extended: bool): (r: int)
    ensures IsThreshold(r)
    ensures r == ExtendedWin <==> extended
  {
    if extended then ExtendedWin else StandardWin
  }

  /** checkWinner's decision: "You" takes precedence over "Opponent", and
      no winner leaves the modal as it was. */
  function Winner(p1: int, p2: int, threshold: int): (r: Option<Name>)
    ensures r == Some(You) <==> p1 >= threshold
    ensures r == Some(Opponent) <==> p1 < threshold <= p2
    ensures r == None <==> p1 < threshold && p2 < threshold
  {
    if p1 >= threshold then Some(You)
    else if p2 >= threshold then Some(Opponent)
    else None
  }

  /** What a player's "winner" highlight can be, given that it was last
      set from `score >= t` for some threshold t in {8, 9} and the score has
      not moved since: the threshold toggle does not refresh highlights. */
  predicate HighlightAgrees(score: int, flag: bool) {
    (flag ==> score >= StandardWin) && (score >= ExtendedWin ==> flag)
  }

  /** A highlight that disagrees with the current threshold can only be on
      a score of exactly 8: lit while the threshold is 9, or unlit while it
      is 8. */
  lemma StaleHighlightOnlyAtEight(score: int, flag: bool, t: int)
    requires HighlightAgrees(score, flag) && IsThreshold(t)
    requires flag != (score >= t)
    ensures score == StandardWin && (flag <==> t == ExtendedWin)
  {
  }

  /** `{type: 'score', score: n}`, the only message either side sends. */
  datatype ScoreMsg = ScoreMsg(score: int)

  /** An inbound message as the data handler reads it: its `type` field
      (any value other than the string 'score' is represented by another
      string) and its `score` field converted to text, which is what
      `parseInt` works on (a missing field reads "undefined"). */
  datatype Payload = Payload(kind: string, scoreText: string)

  const ScoreKind := "score"

  /** How a sent message arrives: the kind, and the score as the text that
      `parseInt` will see on the other side. */
  function Encode(m: ScoreMsg): (p: Payload)
    requires -ExponentFormFrom < m.score < ExponentFormFrom
    ensures p.kind == ScoreKind
    ensures ParseInt(p.scoreText) == Some(m.score)
  {
    ParseNumberText(m.score);
    Payload(ScoreKind, NumberText(m.score))
  }

  /** The data handler's validation: only a 'score' message whose field
      parses to an integer in [0, 99] is accepted. */
  function DecodeScore(p: Payload): (r: Option<int>)
    ensures p.kind != ScoreKind ==> r == None
    ensures r.Some? ==> InScoreRange(r.value) && ParseInt(p.scoreText) == r
    ensures (p.kind == ScoreKind && ParseInt(p.scoreText).Some? && InScoreRange(ParseInt(p.scoreText).value))
            ==> r.Some?
  {
    if p.kind != ScoreKind then None
    else match ParseInt(p.scoreText)
      case None => None
      case Some(n) => if 0 <= n && n <= 99 then Some(n) else None
  }

  /** What one side sends, the other side accepts as the same score exactly
      when that score is in range. */
  lemma WireRoundTrip(n: int)
    requires -ExponentFormFrom < n < ExponentFormFrom
    ensures DecodeScore(Encode(ScoreMsg(n))) == (if InScoreRange(n) then Some(n) else None)
  {
  }

  /** `{type: 'score', score: "abc"}` and the like are dropped. */
  lemma MalformedScoreDropped(text: string)
    requires text != [] && !IsJsSpace(text[0]) && !IsDigit(text[0], 10)
    requires text[0] != '+' && text[0] != '-'
    ensures DecodeScore(Payload(ScoreKind, text)) == None
  {
  }

  /** A fractional or suffixed number is truncated to its leading digits:
      "7.9", "7x" and "7 points" are accepted as 7 (only "0x" starts a
      hexadecimal number). */
  lemma TrailingTextIgnored(n: int, suffix: string)
    requires InScoreRange(n)
    requires suffix == [] || !IsDigit(suffix[0], 10)
    requires n == 0 ==> suffix == [] || (suffix[0] != 'x' && suffix[0] != 'X')
    ensures DecodeScore(Payload(ScoreKind, DecimalString(n) + suffix)) == Some(n)
  {
    ParseIgnoresSuffix(n, suffix);
  }
}
