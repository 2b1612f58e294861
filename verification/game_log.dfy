/** The game-over bookkeeping: who won, the name of the mode, and the line
    appended to the results file, with the "%Y-%m-%d %H:%M:%S" timestamp the
    line carries. Reading a line back is the inverse of writing it. */
module GameLog {
  import opened Options

  const AiModeName: string := "AI vs Player"
  const MultiplayerModeName: string := "Multiplayer"

  /** The name the AI plays under. */
  const AiName: string := "AI"

  /** The mode as the results file names it. */
  function ModeName(vsAI: bool): (m: string)
    ensures m == AiModeName <==> vsAI
    ensures m == MultiplayerModeName <==> !vsAI
  {
    if vsAI then AiModeName else MultiplayerModeName
  }

  /** The winner's name: player 1 when the player won, otherwise the AI or
      player 2 depending on the mode. */
  function WinnerName(playerWon: bool, vsAI: bool, player1: string, player2: string): (w: string)
    ensures playerWon ==> w == player1
    ensures !playerWon && vsAI ==> w == AiName
    ensures !playerWon && !vsAI ==> w == player2
    // the winner is empty only when the name of the side that won is empty
    ensures |w| == 0 <==> (playerWon && |player1| == 0) || (!playerWon && !vsAI && |player2| == 0)
  {
    if playerWon then player1 else if vsAI then AiName else player2
  }

  /** A local date and time, as the C library breaks it down. */
  datatype DateTime = DateTime(year: int, month: int, day: int, hour: int, minute: int, second: int)

  /** The broken-down times the format handles: four-digit years and fields
      in their calendar ranges (60 is a leap second). */
  predicate ValidDateTime(t: DateTime) {
    && 1000 <= t.year <= 9999
    && 1 <= t.month <= 12
    && 1 <= t.day <= 31
    && 0 <= t.hour <= 23
    && 0 <= t.minute <= 59
    && 0 <= t.second <= 60
  }

  function Pow10(n: nat): (p: nat)
    ensures p >= 1
  {
    if n == 0 then 1 else 10 * Pow10(n - 1)
  }

  predicate IsDigit(c: char) {
    '0' <= c <= '9'
  }

  function DigitChar(d: int): (c: char)
    requires 0 <= d <= 9
    ensures IsDigit(c) && c as int - '0' as int == d
  {
    ('0' as int + d) as char
  }

  function DigitValue(c: char): (d: nat)
    requires IsDigit(c)
    ensures d <= 9 && DigitChar(d) == c
  {
    c as int - '0' as int
  }

  /** Every character is a decimal digit. */
  predicate AllDigits(s: string) {
    forall i :: 0 <= i < |s| ==> IsDigit(s[i])
  }

  /** `n` written in decimal with exactly `width` digits, zero-padded. */
  function Digits(n: nat, width: nat): (r: string)
    requires n < Pow10(width)
    ensures |r| == width
    ensures AllDigits(r)
    decreases width
  {
    if width == 0 then ""
    else
      assert n / 10 < Pow10(width - 1);
      Digits(n / 10, width - 1) + [DigitChar(n % 10)]
  }

  /** The number a string of decimal digits denotes. */
  function DigitsValue(s: string): (n: nat)
    requires AllDigits(s)
    ensures n < Pow10(|s|)
    decreases |s|
  {
    if |s| == 0 then 0
    else 10 * DigitsValue(s[..|s| - 1]) + DigitValue(s[|s| - 1])
  }

  lemma {:induction false} DigitsValueOfDigits(n: nat, width: nat)
    requires n < Pow10(width)
    ensures DigitsValue(Digits(n, width)) == n
    decreases width
  {
    if width > 0 {
      var r := Digits(n, width);
      assert r[..width - 1] == Digits(n / 10, width - 1);
      DigitsValueOfDigits(n / 10, width - 1);
    }
  }

  lemma {:induction false} DigitsOfDigitsValue(s: string)
    requires AllDigits(s)
    ensures Digits(DigitsValue(s), |s|) == s
    decreases |s|
  {
    if |s| > 0 {
      var init := s[..|s| - 1];
      var v := DigitsValue(init);
      var d := DigitValue(s[|s| - 1]);
      assert (10 * v + d) / 10 == v;
      assert (10 * v + d) % 10 == d;
      DigitsOfDigitsValue(init);
      assert s == init + [s[|s| - 1]];
    }
  }

  /** The layout of "%Y-%m-%d %H:%M:%S": nineteen characters, six groups of
      digits and five separators. */
  predicate TimestampShape(s: string) {
    && |s| == 19
    && AllDigits(s[0..4]) && s[4] == '-' && AllDigits(s[5..7]) && s[7] == '-'
    && AllDigits(s[8..10]) && s[10] == ' ' && AllDigits(s[11..13]) && s[13] == ':'
    && AllDigits(s[14..16]) && s[16] == ':' && AllDigits(s[17..19])
  }

  /** Six digit groups laid out with the timestamp separators. */
  function Layout(y: string, mo: string, d: string, h: string, mi: string, sec: string): string {
    y + ("-" + (mo + ("-" + (d + (" " + (h + (":" + (mi + (":" + sec)))))))))
  }

  lemma Peel(a: string, b: string)
    ensures (a + b)[..|a|] == a && (a + b)[|a|..] == b
  {
  }

  /** The two-digit group and separator at the front of a layout tail. */
  lemma PeelGroup(g: string, sep: char, rest: string)
    requires |g| == 2
    ensures var r := g + ([sep] + rest);
      r[0..2] == g && r[2] == sep && r[3..] == rest
  {
    Peel(g, [sep] + rest);
    Peel([sep], rest);
    assert (g + ([sep] + rest))[3..] == ([sep] + rest)[1..];
  }

  lemma LayoutPieces(y: string, mo: string, d: string, h: string, mi: string, sec: string)
    requires |y| == 4 && |mo| == 2 && |d| == 2 && |h| == 2 && |mi| == 2 && |sec| == 2
    ensures var r := Layout(y, mo, d, h, mi, sec);
      && |r| == 19
      && r[0..4] == y && r[4] == '-' && r[5..7] == mo && r[7] == '-' && r[8..10] == d
      && r[10] == ' ' && r[11..13] == h && r[13] == ':' && r[14..16] == mi
      && r[16] == ':' && r[17..19] == sec
  {
    var r4 := mi + (":" + sec);
    var r3 := h + (":" + r4);
    var r2 := d + (" " + r3);
    var r1 := mo + ("-" + r2);
    var r := y + ("-" + r1);
    PeelGroup(mi, ':', sec);
    PeelGroup(h, ':', r4);
    PeelGroup(d, ' ', r3);
    PeelGroup(mo, '-', r2);
    Peel(y, "-" + r1);
    Peel("-", r1);
    assert r[5..] == r1;
    assert r[8..] == r2 by { assert r[8..] == r1[3..]; }
    assert r[11..] == r3 by { assert r[11..] == r2[3..]; }
    assert r[14..] == r4 by { assert r[14..] == r3[3..]; }
    assert r[5..7] == r1[0..2] && r[8..10] == r2[0..2];
    assert r[11..13] == r3[0..2] && r[14..16] == r4[0..2] && r[17..19] == r4[3..];
  }

  lemma {:induction false} ShapeIsLayout(s: string)
    requires TimestampShape(s)
    ensures s == Layout(s[0..4], s[5..7], s[8..10], s[11..13], s[14..16], s[17..19])
  {
    LayoutPieces(s[0..4], s[5..7], s[8..10], s[11..13], s[14..16], s[17..19]);
    var r := Layout(s[0..4], s[5..7], s[8..10], s[11..13], s[14..16], s[17..19]);
    assert forall i :: 0 <= i < 19 ==> r[i] == s[i] by {
      forall i | 0 <= i < 19
        ensures r[i] == s[i]
      {
        if i < 4 { assert r[i] == r[0..4][i]; }
        else if 5 <= i < 7 { assert r[i] == r[5..7][i - 5]; }
        else if 8 <= i < 10 { assert r[i] == r[8..10][i - 8]; }
        else if 11 <= i < 13 { assert r[i] == r[11..13][i - 11]; }
        else if 14 <= i < 16 { assert r[i] == r[14..16][i - 14]; }
        else if 17 <= i { assert r[i] == r[17..19][i - 17]; }
      }
    }
  }

  /** The timestamp written into the results file. */
  function FormatTimestamp(t: DateTime): (r: string)
    requires ValidDateTime(t)
    ensures TimestampShape(r)
  {
    assert Pow10(4) == 10000 && Pow10(2) == 100;
    var y, mo, d := Digits(t.year, 4), Digits(t.month, 2), Digits(t.day, 2);
    var h, mi, sec := Digits(t.hour, 2), Digits(t.minute, 2), Digits(t.second, 2);
    LayoutPieces(y, mo, d, h, mi, sec);
    Layout(y, mo, d, h, mi, sec)
  }

  /** Reads a timestamp back; absent unless it has the layout and its fields
      are in range. */
  function ParseTimestamp(s: string): (r: Option<DateTime>)
    ensures r.Some? ==> ValidDateTime(r.value) && TimestampShape(s)
  {
    if !TimestampShape(s) then None
    else
      var t := DateTime(DigitsValue(s[0..4]), DigitsValue(s[5..7]), DigitsValue(s[8..10]),
                        DigitsValue(s[11..13]), DigitsValue(s[14..16]), DigitsValue(s[17..19]));
      if ValidDateTime(t) then Some(t) else None
  }

  lemma TimestampRoundTrip(t: DateTime)
    requires ValidDateTime(t)
    ensures ParseTimestamp(FormatTimestamp(t)) == Some(t)
  {
    assert Pow10(4) == 10000 && Pow10(2) == 100;
    var y, mo, d := Digits(t.year, 4), Digits(t.month, 2), Digits(t.day, 2);
    var h, mi, sec := Digits(t.hour, 2), Digits(t.minute, 2), Digits(t.second, 2);
    LayoutPieces(y, mo, d, h, mi, sec);
    DigitsValueOfDigits(t.year, 4);
    DigitsValueOfDigits(t.month, 2);
    DigitsValueOfDigits(t.day, 2);
    DigitsValueOfDigits(t.hour, 2);
    DigitsValueOfDigits(t.minute, 2);
    DigitsValueOfDigits(t.second, 2);
  }

  /** Formatting the values of six digit groups lays the groups out again. */
  lemma FormatOfGroups(y: string, mo: string, d: string, h: string, mi: string, sec: string)
    requires |y| == 4 && |mo| == 2 && |d| == 2 && |h| == 2 && |mi| == 2 && |sec| == 2
    requires AllDigits(y) && AllDigits(mo) && AllDigits(d) && AllDigits(h) && AllDigits(mi) && AllDigits(sec)
    requires ValidDateTime(DateTime(DigitsValue(y), DigitsValue(mo), DigitsValue(d),
                                    DigitsValue(h), DigitsValue(mi), DigitsValue(sec)))
    ensures FormatTimestamp(DateTime(DigitsValue(y), DigitsValue(mo), DigitsValue(d),
                                     DigitsValue(h), DigitsValue(mi), DigitsValue(sec)))
              == Layout(y, mo, d, h, mi, sec)
  {
    DigitsOfDigitsValue(y);
    DigitsOfDigitsValue(mo);
    DigitsOfDigitsValue(d);
    DigitsOfDigitsValue(h);
    DigitsOfDigitsValue(mi);
    DigitsOfDigitsValue(sec);
  }

  lemma ParsedTimestampFormats(s: string)
    requires ParseTimestamp(s).Some?
    ensures FormatTimestamp(ParseTimestamp(s).value) == s
  {
    FormatOfGroups(s[0..4], s[5..7], s[8..10], s[11..13], s[14..16], s[17..19]);
    ShapeIsLayout(s);
  }

  /** The line appended to the results file, or nothing when the winner's
      name is empty. */
  function LogText(mode: string, timestamp: string, winner: string): (r: Option<string>)
    ensures r.None? <==> |winner| == 0
    ensures r.Some? ==> |r.value| == 34 + |mode| + |timestamp| + |winner|
    ensures r.Some? ==> r.value[|r.value| - 1 - |winner|..] == winner + "\n"
  {
    if |winner| == 0 then None
    else
      var tail := " | Winner: " + (winner + "\n");
      var line := "Mode: " + (mode + (" | Date & Time: " + (timestamp + tail)));
      assert line[|line| - |tail|..] == tail;
      assert tail[11..] == winner + "\n";
      Some(line)
  }

  /** What the game-over screen logs for a finished match. */
  function GameOverLog(playerWon: bool, vsAI: bool, player1: string, player2: string, timestamp: string): (r: Option<string>)
    // nothing is logged exactly when the name of the side that won is empty
    ensures r.None? <==> (playerWon && |player1| == 0) || (!playerWon && !vsAI && |player2| == 0)
    // a logged line, stamped with a well-formed time, reads back as the mode,
    // that time and the winner
    ensures r.Some? && ParseTimestamp(timestamp).Some? ==>
              ParseLogLine(r.value)
                == Some(LogEntry(vsAI, ParseTimestamp(timestamp).value, WinnerName(playerWon, vsAI, player1, player2)))
  {
    var w := WinnerName(playerWon, vsAI, player1, player2);
    var r := LogText(ModeName(vsAI), timestamp, w);
    if |w| > 0 && ParseTimestamp(timestamp).Some? then
      ParsedTimestampFormats(timestamp);
      LogLineRoundTrip(vsAI, ParseTimestamp(timestamp).value, w);
      r
    else r
  }

  /** What one line of the results file records. */
  datatype LogEntry = LogEntry(vsAI: bool, time: DateTime, winner: string)

  function StripPrefix(s: string, p: string): (r: Option<string>)
    ensures r.Some? <==> |p| <= |s| && s[..|p|] == p
    ensures r.Some? ==> s == p + r.value
  {
    if |p| <= |s| && s[..|p|] == p then Some(s[|p|..]) else None
  }

  lemma StripPrefixOf(p: string, rest: string)
    ensures StripPrefix(p + rest, p) == Some(rest)
  {
    assert (p + rest)[..|p|] == p;
    assert (p + rest)[|p|..] == rest;
  }

  function ParseMode(s: string): (r: Option<(bool, string)>)
    ensures r.Some? ==> s == ModeName(r.value.0) + r.value.1
  {
    if StripPrefix(s, AiModeName).Some? then Some((true, StripPrefix(s, AiModeName).value))
    else if StripPrefix(s, MultiplayerModeName).Some? then Some((false, StripPrefix(s, MultiplayerModeName).value))
    else None
  }

  lemma ParseModeOf(vsAI: bool, rest: string)
    ensures ParseMode(ModeName(vsAI) + rest) == Some((vsAI, rest))
  {
    StripPrefixOf(ModeName(vsAI), rest);
    if !vsAI {
      var s := ModeName(vsAI) + rest;
      assert s[0] == 'M';
      assert StripPrefix(s, AiModeName).None?;
    }
  }

  /** Splits what follows the mode: the time label, the nineteen timestamp
      characters, the winner label, the winner, the final newline. */
  function SplitAfterMode(s: string): (r: Option<(string, string)>)
    ensures r.Some? ==> |r.value.0| == 19 && |r.value.1| > 0
    ensures r.Some? ==> s == " | Date & Time: " + (r.value.0 + (" | Winner: " + (r.value.1 + "\n")))
  {
    var afterTimeLabel :- StripPrefix(s, " | Date & Time: ");
    if |afterTimeLabel| < 19 then None
    else
      var afterWinnerLabel :- StripPrefix(afterTimeLabel[19..], " | Winner: ");
      if |afterWinnerLabel| < 2 || afterWinnerLabel[|afterWinnerLabel| - 1] != '\n' then None
      else
        var winner := afterWinnerLabel[..|afterWinnerLabel| - 1];
        assert afterWinnerLabel == winner + "\n";
        assert afterTimeLabel == afterTimeLabel[..19] + afterTimeLabel[19..];
        Some((afterTimeLabel[..19], winner))
  }

  lemma SplitAfterModeOf(ts: string, winner: string)
    requires |ts| == 19 && |winner| > 0
    ensures SplitAfterMode(" | Date & Time: " + (ts + (" | Winner: " + (winner + "\n")))) == Some((ts, winner))
  {
    var tail := " | Winner: " + (winner + "\n");
    StripPrefixOf(" | Date & Time: ", ts + tail);
    Peel(ts, tail);
    StripPrefixOf(" | Winner: ", winner + "\n");
    Peel(winner, "\n");
  }

  /** What follows the mode, with the timestamp read back. */
  function ParseAfterMode(s: string): (r: Option<(DateTime, string)>)
  {
    var parts :- SplitAfterMode(s);
    var time :- ParseTimestamp(parts.0);
    Some((time, parts.1))
  }

  /** Reads one line of the results file back. */
  function ParseLogLine(line: string): (r: Option<LogEntry>)
    ensures r.Some? ==> ValidDateTime(r.value.time) && |r.value.winner| > 0
  {
    var afterLabel :- StripPrefix(line, "Mode: ");
    var mode :- ParseMode(afterLabel);
    var rest :- ParseAfterMode(mode.1);
    Some(LogEntry(mode.0, rest.0, rest.1))
  }

  lemma ParseAfterModeOf(t: DateTime, winner: string)
    requires ValidDateTime(t) && |winner| > 0
    ensures ParseAfterMode(" | Date & Time: " + (FormatTimestamp(t) + (" | Winner: " + (winner + "\n"))))
              == Some((t, winner))
  {
    SplitAfterModeOf(FormatTimestamp(t), winner);
    TimestampRoundTrip(t);
  }

  /** A written line reads back as the mode, time and winner it was written
      from. */
  lemma LogLineRoundTrip(vsAI: bool, t: DateTime, winner: string)
    requires ValidDateTime(t) && |winner| > 0
    ensures LogText(ModeName(vsAI), FormatTimestamp(t), winner).Some?
    ensures ParseLogLine(LogText(ModeName(vsAI), FormatTimestamp(t), winner).value)
              == Some(LogEntry(vsAI, t, winner))
  {
    var ts := FormatTimestamp(t);
    var afterMode := " | Date & Time: " + (ts + (" | Winner: " + (winner + "\n")));
    StripPrefixOf("Mode: ", ModeName(vsAI) + afterMode);
    ParseModeOf(vsAI, afterMode);
    ParseAfterModeOf(t, winner);
  }

  lemma ParsedAfterMode(s: string)
    requires ParseAfterMode(s).Some?
    ensures |ParseAfterMode(s).value.1| > 0
    ensures s == " | Date & Time: " + (FormatTimestamp(ParseAfterMode(s).value.0)
                   + (" | Winner: " + (ParseAfterMode(s).value.1 + "\n")))
  {
    ParsedTimestampFormats(SplitAfterMode(s).value.0);
  }

  /** A line that reads back is exactly the line written from what it
      records: the results format has one spelling per entry. */
  lemma ParsedLogLineIsWritten(line: string)
    requires ParseLogLine(line).Some?
    ensures LogText(ModeName(ParseLogLine(line).value.vsAI),
                    FormatTimestamp(ParseLogLine(line).value.time),
                    ParseLogLine(line).value.winner) == Some(line)
  {
    var e := ParseLogLine(line).value;
    var afterLabel := StripPrefix(line, "Mode: ").value;
    var mode := ParseMode(afterLabel).value;
    ParsedAfterMode(mode.1);
  }
}
