/** The score panel's mutable state and the event handlers that change it:
    local button presses, the threshold checkbox, reset, and the data
    channel's open, close and message events. */
module ScoreSync {
  import opened Wrappers
  import opened JsText
  import opened Scoring

  class ScoreBoard {
    /** `scores.player1` (you) and `scores.player2` (the opponent). */
    var p1: int
    var p2: int
    var winningScore: int
    /** Whether a data connection exists and is open. */
    var connOpen: bool
    /** Every message handed to `connection.send`, oldest first. */
    var outbox: seq<ScoreMsg>
    /** The "winner" highlight on each player's score. */
    var p1Winner: bool
    var p2Winner: bool
    /** The name in the winner modal, once it has been shown. */
    var shownWinner: Option<Name>

    ghost predicate Valid()
      reads this
    {
      InScoreRange(p1) && InScoreRange(p2) && IsThreshold(winningScore) &&
      HighlightAgrees(p1, p1Winner) && HighlightAgrees(p2, p2Winner)
    }

    function Score(who: Player): int
      reads this
    {
      if who == Player1 then p1 else p2
    }

    function Highlight(who: Player): bool
      reads this
    {
      if who == Player1 then p1Winner else p2Winner
    }

    /** The page's initial state: both scores 0, first to 8, no connection. */
    constructor ()
      ensures Valid()
      ensures p1 == 0 && p2 == 0 && winningScore == StandardWin
      ensures !connOpen && outbox == []
      ensures !p1Winner && !p2Winner && shownWinner == None
    {
      p1, p2 := 0, 0;
      winningScore := StandardWin;
      connOpen := false;
      outbox := [];
      p1Winner, p2Winner := false, false;
      shownWinner := None;
    }

    /** sendScoreUpdate: player 1's score goes out, and only over an open
        connection. */
    method SendScoreUpdate()
      modifies this`outbox
      ensures outbox == old(outbox) + (if connOpen then [ScoreMsg(p1)] else [])
    {
      if connOpen {
        outbox := outbox + [ScoreMsg(p1)];
      }
    }

    /** updateScoreDisplay: refresh one player's highlight from the current
        threshold, then send player 1's score when `broadcast` is set,
        whichever player was displayed. */
    method UpdateScoreDisplay(who: Player, broadcast: bool)
      modifies this`outbox, this`p1Winner, this`p2Winner
      ensures Highlight(who) == (Score(who) >= winningScore)
      ensures who == Player1 ==> p2Winner == old(p2Winner)
      ensures who == Player2 ==> p1Winner == old(p1Winner)
      ensures outbox == old(outbox) + (if broadcast && connOpen then [ScoreMsg(p1)] else [])
    {
      if who == Player1 {
        p1Winner := p1 >= winningScore;
      } else {
        p2Winner := p2 >= winningScore;
      }
      if broadcast {
        SendScoreUpdate();
      }
    }

    /** showWinner: open the modal with the given name. */
    method ShowWinner(name: Name)
      modifies this`shownWinner
      ensures shownWinner == Some(name)
    {
      shownWinner := Some(name);
    }

    /** checkWinner: show the winner if there is one; otherwise leave the
        modal alone (it is never closed here). */
    method CheckWinner()
      modifies this`shownWinner
      ensures Winner(p1, p2, winningScore).Some? ==> shownWinner == Winner(p1, p2, winningScore)
      ensures Winner(p1, p2, winningScore).None? ==> shownWinner == old(shownWinner)
    {
      if p1 >= winningScore {
        ShowWinner(You);
      } else if p2 >= winningScore {
        ShowWinner(Opponent);
      }
    }

    /** adjustScore: a local button press. The chosen score moves by `delta`
        and is clamped to [0, 99]; nothing else but that player's highlight,
        the outbox and the modal changes. The message sent always carries
        player 1's score, even when player 2 was adjusted. */
    method AdjustScore(who: Player, delta: int)
      requires Valid()
      modifies this
      ensures Valid()
      ensures Score(who) == ClampScore(old(Score(who)) + delta)
      ensures who == Player1 ==> p2 == old(p2) && p2Winner == old(p2Winner)
      ensures who == Player2 ==> p1 == old(p1) && p1Winner == old(p1Winner)
      ensures winningScore == old(winningScore) && connOpen == old(connOpen)
      ensures Highlight(who) == (Score(who) >= winningScore)
      ensures outbox == old(outbox) + (if connOpen then [ScoreMsg(p1)] else [])
      ensures Winner(p1, p2, winningScore).Some? ==> shownWinner == Winner(p1, p2, winningScore)
      ensures Winner(p1, p2, winningScore).None? ==> shownWinner == old(shownWinner)
    {
      if who == Player1 {
        p1 := ClampScore(p1 + delta);
      } else {
        p2 := ClampScore(p2 + delta);
      }
      UpdateScoreDisplay(who, true);
      CheckWinner();
    }

    /** toggleAspirantsClimb: the threshold becomes 9 when the box is
        checked and 8 otherwise, then the winner is re-checked. Scores,
        highlights and the outbox are untouched: the setting is not sent. */
    method ToggleAspirantsClimb(checked: bool)
      requires Valid()
      modifies this
      ensures Valid()
      ensures winningScore == ThresholdFor(checked)
      ensures p1 == old(p1) && p2 == old(p2)
      ensures p1Winner == old(p1Winner) && p2Winner == old(p2Winner)
      ensures outbox == old(outbox) && connOpen == old(connOpen)
      ensures Winner(p1, p2, winningScore).Some? ==> shownWinner == Winner(p1, p2, winningScore)
      ensures Winner(p1, p2, winningScore).None? ==> shownWinner == old(shownWinner)
    {
      winningScore := if checked then 9 else 8;
      CheckWinner();
    }

    /** resetScores: both scores to 0 and both highlights off; only player
        1's zero is sent. The modal is left as it was. */
    method ResetScores()
      requires Valid()
      modifies this
      ensures Valid()
      ensures p1 == 0 && p2 == 0 && !p1Winner && !p2Winner
      ensures outbox == old(outbox) + (if connOpen then [ScoreMsg(0)] else [])
      ensures winningScore == old(winningScore) && connOpen == old(connOpen)
      ensures shownWinner == old(shownWinner)
    {
      p1 := 0;
      p2 := 0;
      UpdateScoreDisplay(Player1, true);
      UpdateScoreDisplay(Player2, false);
      p1Winner, p2Winner := false, false;
    }

    /** The data channel's 'open' event: player 1's score is sent once. */
    method OnChannelOpen()
      requires Valid()
      modifies this
      ensures Valid()
      ensures connOpen
      ensures outbox == old(outbox) + [ScoreMsg(p1)]
      ensures p1 == old(p1) && p2 == old(p2) && winningScore == old(winningScore)
      ensures p1Winner == old(p1Winner) && p2Winner == old(p2Winner)
      ensures shownWinner == old(shownWinner)
    {
      connOpen := true;
      SendScoreUpdate();
    }

    /** The data channel's 'close' event: later sends are skipped; the
        scores are kept. */
    method OnChannelClose()
      requires Valid()
      modifies this
      ensures Valid()
      ensures !connOpen
      ensures outbox == old(outbox)
      ensures p1 == old(p1) && p2 == old(p2) && winningScore == old(winningScore)
      ensures p1Winner == old(p1Winner) && p2Winner == old(p2Winner)
      ensures shownWinner == old(shownWinner)
    {
      connOpen := false;
    }

    /** The data channel's 'data' event. A valid score message overwrites
        player 2's score and refreshes its highlight; anything else changes
        nothing. It never sends (echo suppression), never touches player 1's
        score and never opens the winner modal. */
    method OnData(msg: Payload)
      requires Valid()
      modifies this
      ensures Valid()
      ensures outbox == old(outbox)
      ensures p1 == old(p1) && p1Winner == old(p1Winner)
      ensures winningScore == old(winningScore) && connOpen == old(connOpen)
      ensures shownWinner == old(shownWinner)
      ensures DecodeScore(msg).Some? ==> p2 == DecodeScore(msg).value && p2Winner == (p2 >= winningScore)
      ensures DecodeScore(msg).None? ==> p2 == old(p2) && p2Winner == old(p2Winner)
    {
      if msg.kind == ScoreKind {
        var parsed := ParseInt(msg.scoreText);
        if parsed.Some? && parsed.value >= 0 && parsed.value <= 99 {
          p2 := parsed.value;
          UpdateScoreDisplay(Player2, false);
        }
      }
    }
  }

  /** An ordered, reliable channel hands every message `sent` by the other
      side to `receiver`'s data handler, in order. With in-range scores the
      last one wins; the receiver still sends nothing and its own score,
      threshold and modal stay as they were. */
  method Deliver(sent: seq<ScoreMsg>, receiver: ScoreBoard)
    requires receiver.Valid()
    requires forall k :: 0 <= k < |sent| ==> InScoreRange(sent[k].score)
    modifies receiver
    ensures receiver.Valid()
    ensures sent != [] ==> receiver.p2 == sent[|sent| - 1].score
    ensures sent != [] ==> receiver.p2Winner == (receiver.p2 >= receiver.winningScore)
    ensures sent == [] ==> receiver.p2 == old(receiver.p2) && receiver.p2Winner == old(receiver.p2Winner)
    ensures receiver.outbox == old(receiver.outbox)
    ensures receiver.p1 == old(receiver.p1) && receiver.p1Winner == old(receiver.p1Winner)
    ensures receiver.winningScore == old(receiver.winningScore) && receiver.connOpen == old(receiver.connOpen)
    ensures receiver.shownWinner == old(receiver.shownWinner)
  {
    var j := 0;
    while j < |sent|
      invariant 0 <= j <= |sent|
      invariant receiver.Valid()
      invariant j > 0 ==> receiver.p2 == sent[j - 1].score && receiver.p2Winner == (receiver.p2 >= receiver.winningScore)
      invariant j == 0 ==> receiver.p2 == old(receiver.p2) && receiver.p2Winner == old(receiver.p2Winner)
      invariant receiver.outbox == old(receiver.outbox)
      invariant receiver.p1 == old(receiver.p1) && receiver.p1Winner == old(receiver.p1Winner)
      invariant receiver.winningScore == old(receiver.winningScore) && receiver.connOpen == old(receiver.connOpen)
      invariant receiver.shownWinner == old(receiver.shownWinner)
    {
      WireRoundTrip(sent[j].score);
      receiver.OnData(Encode(sent[j]));
      j := j + 1;
    }
  }

  /** Two browsers, host and guest, each with its own board. The host's
      channel opens, the host presses +1 eight times and the guest receives
      every message the host sent. The guest then shows the host's 8 as its
      opponent score with the highlight lit, but its winner modal stays
      closed: receiving a score does not run checkWinner. */
  method HostReachesEight() returns (hostModal: Option<Name>, guestP2: int, guestHighlight: bool, guestModal: Option<Name>)
    ensures hostModal == Some(You)
    ensures guestP2 == 8 && guestHighlight
    ensures guestModal == None
  {
    var host := new ScoreBoard();
    var guest := new ScoreBoard();
    host.OnChannelOpen();
    guest.OnChannelOpen();
    var i := 0;
    while i < 8
      modifies host
      invariant 0 <= i <= 8
      invariant host.Valid() && host.connOpen && host.p1 == i && host.p2 == 0
      invariant host.winningScore == StandardWin
      invariant host.shownWinner == if i < 8 then None else Some(You)
      invariant |host.outbox| == i + 1
      invariant forall k :: 0 <= k <= i ==> host.outbox[k] == ScoreMsg(k)
    {
      host.AdjustScore(Player1, 1);
      i := i + 1;
    }
    Deliver(host.outbox, guest);
    hostModal, guestP2, guestHighlight, guestModal := host.shownWinner, guest.p2, guest.p2Winner, guest.shownWinner;
  }
}
