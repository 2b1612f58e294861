/** The game's top level: the mode chosen on the menu, the names the match is
    played under, one match, and the line the game-over screen appends to
    the results file. */
module Session {
  import opened Options
  import NameEntry
  import Match
  import opened GameLog

  /** The name the human plays under against the AI when none was entered. */
  const DefaultPlayerName: string := "Player 1"

  /** The names handed to the match: against the AI, player 1's name (or the
      default when it is empty) and "AI"; in multiplayer, the two entered
      names as they are. */
  function MatchNames(vsAI: bool, player1: string, player2: string): (names: (string, string))
    ensures vsAI ==> names.1 == AiName && |names.0| > 0
    ensures vsAI && |player1| > 0 ==> names.0 == player1
    ensures vsAI && |player1| == 0 ==> names.0 == DefaultPlayerName
    ensures !vsAI ==> names == (player1, player2)
  {
    if vsAI then (if |player1| == 0 then DefaultPlayerName else player1, AiName)
    else (player1, player2)
  }

  /** Under the names a match is played with, the winner the game-over screen
      names is always the name of the side that won. */
  lemma WinnerIsWinningSide(playerWon: bool, vsAI: bool, player1: string, player2: string)
    ensures var names := MatchNames(vsAI, player1, player2);
      WinnerName(playerWon, vsAI, names.0, names.1) == if playerWon then names.0 else names.1
  {
  }

  /** Game-over logging as the game does it: the verdict is read off the
      hearts after the match loop, however that loop ended. */
  function FinishAsWritten(e: Match.MatchEnd, vsAI: bool, names: (string, string), time: DateTime): (r: Option<string>)
    requires ValidDateTime(time)
    ensures r.Some? <==> |WinnerName(Match.PlayerWon(e.final), vsAI, names.0, names.1)| > 0
    ensures r.Some? ==> ParseLogLine(r.value)
                          == Some(LogEntry(vsAI, time, WinnerName(Match.PlayerWon(e.final), vsAI, names.0, names.1)))
  {
    var w := WinnerName(Match.PlayerWon(e.final), vsAI, names.0, names.1);
    var r := GameOverLog(Match.PlayerWon(e.final), vsAI, names.0, names.1, FormatTimestamp(time));
    if |w| == 0 then r else LogLineRoundTrip(vsAI, time, w); r
  }

  /** Closing the window during a match against the AI before any side
      could have lost its fifth heart (fewer frames than hearts) still
      appends a line, crediting "Player 1" with a win. */
  lemma AbandonedMatchLoggedAsWin(frames: seq<Match.FrameInput>, time: DateTime)
    requires ValidDateTime(time) && |frames| < Match.MaxHearts
    ensures Match.RunMatch(true, frames).Abandoned?
    ensures FinishAsWritten(Match.RunMatch(true, frames), true, MatchNames(true, "", ""), time).Some?
    ensures ParseLogLine(FinishAsWritten(Match.RunMatch(true, frames), true, MatchNames(true, "", ""), time).value)
              == Some(LogEntry(true, time, DefaultPlayerName))
  {
    Match.ShortMatchAbandoned(Match.Initial(), frames, true);
  }

  /** Game-over logging for a match that was decided: nothing is appended
      for an abandoned match or an empty winner's name, and otherwise the
      line records the mode, the time and the winner. */
  function MatchLog(e: Match.MatchEnd, vsAI: bool, names: (string, string), time: DateTime): (r: Option<string>)
    requires ValidDateTime(time)
    ensures e.Abandoned? ==> r.None?
    ensures e.Decided? ==> r == FinishAsWritten(e, vsAI, names, time)
    ensures r.Some? <==> e.Decided? && |WinnerName(Match.PlayerWon(e.final), vsAI, names.0, names.1)| > 0
    ensures r.Some? ==> ParseLogLine(r.value)
                          == Some(LogEntry(vsAI, time, WinnerName(Match.PlayerWon(e.final), vsAI, names.0, names.1)))
  {
    if e.Abandoned? then None else FinishAsWritten(e, vsAI, names, time)
  }

  /** What one round from the menu is given: the mode picked, the frames of
      the two name-entry screens (used in multiplayer only), the frames of
      the match, and the local time at the end. */
  datatype Round = Round(
    vsAI: bool,
    nameFrames1: seq<NameEntry.Frame>, nameFrames2: seq<NameEntry.Frame>,
    matchFrames: seq<Match.FrameInput>,
    time: DateTime)

  /** The names a round's match was played under and how it ended. */
  datatype Played = Played(names: (string, string), end: Match.MatchEnd)

  datatype RoundResult = RoundResult(names: (string, string), end: Match.MatchEnd, log: Option<string>)

  /** The name of the side the game-over screen is told has won. */
  function WinningName(p: Played): string {
    if Match.PlayerWon(p.end.final) then p.names.0 else p.names.1
  }

  /** Everything in a round up to the game-over screen. Against the AI no
      name is asked for; in multiplayer both names are entered first, and a
      window closed during name entry leaves the match no frames. */
  function PlayMatchOfRound(round: Round): (p: Played)
    ensures round.vsAI ==> p.names == (DefaultPlayerName, AiName)
    ensures round.vsAI ==> p.end == Match.RunMatch(true, round.matchFrames)
    ensures !round.vsAI ==> |p.names.0| <= NameEntry.MaxNameLength && |p.names.1| <= NameEntry.MaxNameLength
    // a multiplayer match is only decided after both names were confirmed
    ensures !round.vsAI && p.end.Decided? ==> |p.names.0| > 0 && |p.names.1| > 0
    ensures WinnerName(Match.PlayerWon(p.end.final), round.vsAI, p.names.0, p.names.1) == WinningName(p)
    // in multiplayer, player 1's name is what the first entry screen left;
    // player 2's is what the second left, or empty when the window closed
    // during the first
    ensures !round.vsAI ==> p.names.0 == NameEntry.CaptureName(round.nameFrames1).Text()
    ensures !round.vsAI && NameEntry.CaptureName(round.nameFrames1).Confirmed? ==>
              p.names.1 == NameEntry.CaptureName(round.nameFrames2).Text()
    ensures !round.vsAI && NameEntry.CaptureName(round.nameFrames1).Closed? ==> p.names.1 == ""
    // the match runs on the round's frames once both names are confirmed, and
    // is abandoned in its initial state when the window closed during entry
    ensures !round.vsAI && NameEntry.CaptureName(round.nameFrames1).Confirmed?
              && NameEntry.CaptureName(round.nameFrames2).Confirmed? ==>
              p.end == Match.RunMatch(false, round.matchFrames)
    ensures !round.vsAI && (NameEntry.CaptureName(round.nameFrames1).Closed?
                            || NameEntry.CaptureName(round.nameFrames2).Closed?) ==>
              p.end == Match.Abandoned(Match.Initial())
  {
    var first := if round.vsAI then NameEntry.Closed([]) else NameEntry.CaptureName(round.nameFrames1);
    var second := if round.vsAI || first.Closed? then NameEntry.Closed([])
                  else NameEntry.CaptureName(round.nameFrames2);
    var names := MatchNames(round.vsAI, first.Text(), second.Text());
    var frames := if !round.vsAI && second.Closed? then [] else round.matchFrames;
    var e := Match.RunMatch(round.vsAI, frames);
    WinnerIsWinningSide(Match.PlayerWon(e.final), round.vsAI, first.Text(), second.Text());
    Played(names, e)
  }

  /** One round as the game plays it: the game-over screen runs after the
      match however the match ended, and logs whenever the winner it is
      told of has a name. */
  function PlayRound(round: Round): (r: RoundResult)
    requires ValidDateTime(round.time)
    ensures r.names == PlayMatchOfRound(round).names && r.end == PlayMatchOfRound(round).end
    // a line is appended exactly when the winner's name is non-empty
    ensures r.log.Some? <==> |WinningName(Played(r.names, r.end))| > 0
    // and it names the side the hearts say has won
    ensures r.log.Some? ==>
              ParseLogLine(r.log.value) == Some(LogEntry(round.vsAI, round.time, WinningName(Played(r.names, r.end))))
    // so every round against the AI logs, decided or not, and so does every decided match
    ensures round.vsAI ==> r.log.Some?
    ensures r.end.Decided? ==> r.log.Some?
  {
    var p := PlayMatchOfRound(round);
    RoundResult(p.names, p.end, FinishAsWritten(p.end, round.vsAI, p.names, round.time))
  }

  /** The round with the corrected game-over logging: only a decided match
      is logged. */
  function PlayRoundCorrected(round: Round): (r: RoundResult)
    requires ValidDateTime(round.time)
    ensures r.names == PlayRound(round).names && r.end == PlayRound(round).end
    // a line is appended exactly when the match was decided
    ensures r.log.Some? <==> r.end.Decided?
    // and it is then the line the game itself writes, naming the side with hearts left
    ensures r.log.Some? ==> r.log == PlayRound(round).log
    ensures r.log.Some? ==>
              ParseLogLine(r.log.value) == Some(LogEntry(round.vsAI, round.time, WinningName(Played(r.names, r.end))))
  {
    var p := PlayMatchOfRound(round);
    RoundResult(p.names, p.end, MatchLog(p.end, round.vsAI, p.names, round.time))
  }

  /** An AI round whose window closes after fewer frames than a side has
      hearts (one frame, say): the game logs a win for "Player 1", the
      corrected round logs nothing. */
  lemma AbandonedAiRoundLogged(frames: seq<Match.FrameInput>, time: DateTime)
    requires ValidDateTime(time) && |frames| < Match.MaxHearts
    ensures PlayRound(Round(true, [], [], frames, time)).end.Abandoned?
    ensures PlayRound(Round(true, [], [], frames, time)).log.Some?
    ensures ParseLogLine(PlayRound(Round(true, [], [], frames, time)).log.value)
              == Some(LogEntry(true, time, DefaultPlayerName))
    ensures PlayRoundCorrected(Round(true, [], [], frames, time)).log.None?
  {
    Match.ShortMatchAbandoned(Match.Initial(), frames, true);
  }

  /** A multiplayer round whose window closes while player 1 is typing, after
      "B": the game logs a win for "B", the corrected round logs nothing. */
  lemma ClosedNameEntryLogged(time: DateTime)
    requires ValidDateTime(time)
    ensures PlayRound(Round(false, [NameEntry.KeyFrame('B')], [], [], time)).names == ("B", "")
    ensures PlayRound(Round(false, [NameEntry.KeyFrame('B')], [], [], time)).log.Some?
    ensures ParseLogLine(PlayRound(Round(false, [NameEntry.KeyFrame('B')], [], [], time)).log.value)
              == Some(LogEntry(false, time, "B"))
    ensures PlayRoundCorrected(Round(false, [NameEntry.KeyFrame('B')], [], [], time)).log.None?
  {
    NameEntry.KeyFrameBuffer([], 'B');
    assert NameEntry.CaptureName([NameEntry.KeyFrame('B')]) == NameEntry.Closed("B");
  }
}
