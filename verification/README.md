# Pong game rules in Dafny

A model of the rule-driven parts of a raylib Pong game (one human against
the AI, or two humans), proved in Dafny 4.11. The game itself is almost all
drawing and input polling. This project takes the logic that sits inside
that loop and writes it as pure functions over immutable values:

- **Name entry** (`NameEntry`, `CapturePlayerName`). The buffer starts empty.
  Each frame first handles Backspace (only if the buffer is not empty), then
  every pressed key code from 32 to 122 in ascending order (each appended as
  the character with that code, while the buffer is shorter than 49), then
  Enter (which confirms only a non-empty buffer). A model frame is one pass
  of the entry loop's body, with the keys that pass reads. Backspace and the
  printable keys come from the input polled before the pass. Enter is read
  after the pass's own `EndDrawing` has polled again, so it belongs to the
  next polled frame. A printable key and Enter pressed in the same polled
  frame therefore fall in two model frames, Enter first, so that Enter is
  judged on the buffer without the key. On a non-empty buffer it confirms
  the name without the key. On an empty buffer it does nothing, and the key
  is typed in the next pass, so a later Enter confirms a name that holds it.
  Key codes are taken as given. raylib's letter
  keys have the codes of the capital letters (65-90), so typed letters are
  capitals. The frame loop is a method with loop invariants,
  shown equal to folding single key events in the same order.
- **Match** (`Match`, the loop of `StartGame`). The state holds paddle top
  edges, ball position and velocity, scores and hearts. One `Step` per frame
  does the following in order:
  - the W/S paddle moves;
  - the other paddle moves by Up/Down keys, or by the AI rule;
  - the ball moves and bounces off the top and bottom walls;
  - the paddle bounces reverse the horizontal speed;
  - a ball at x <= 0 gives the player a point and takes a heart from the
    opponent, and a ball at x >= 792 does the reverse. Either way the ball
    goes back to (396, 267) with its horizontal speed reversed.

  The loop stops at the first state where a side has <= 0 hearts. The
  player won exactly when they still have hearts. Hearts start at 5 and
  scores at 0. Throughout, "points scored + hearts the other side has left =
  5" holds, so the loser ends with exactly 0 hearts and the winner has
  scored exactly 5 points.
- **AI paddle** (`Match.AiDecision`, `Match.AiPaddle`). The AI moves up when
  the ball is above the paddle's top edge and that edge's y is greater
  than 0. It moves down when the ball is below the paddle's bottom edge and
  that edge's y is less than 534 (screen y grows downwards). The game applies the up rule first and then judges the down
  rule on the moved paddle. In frames of up to 0.3 s this is exactly the
  three-way decision. In longer frames both rules can fire in one frame.
- **Game-over log** (`GameLog`, `ShowGameOverScreen` and `LogGameResult`).
  The winner is player 1 if the player won, otherwise "AI" or player 2. The
  mode is "AI vs Player" or "Multiplayer". The line is
  `Mode: <mode> | Date & Time: <YYYY-MM-DD HH:MM:SS> | Winner: <winner>`
  plus a newline, and nothing is written when the winner is empty. The
  timestamp layout ("%Y-%m-%d %H:%M:%S") and a reader for log lines are
  modelled. Writing and then reading a line is proved to be the identity in
  both directions.
- **A round** (`Session`, `main`). Against the AI, no name is asked for and
  the human plays as "Player 1". In multiplayer, both names are entered
  first. The game-over screen runs after the match however the match ended,
  so `Session.PlayRound` logs whenever the winner it is told of has a name:
  every AI round logs, even one abandoned before any heart is lost. The
  corrected round (`Session.PlayRoundCorrected`) logs decided matches only;
  see Findings.

Float values (positions, speeds, frame time) are Dafny `real`s. The frame
time, held keys and the result of raylib's ball/paddle overlap test are
inputs of each frame. A window that closes is modelled as an input sequence
that runs out.

The AI compares the ball with the paddle's top edge (up rule) and bottom
edge (down rule), not with the paddle's centre.

## Model

| member | source | states |
|---|---|---|
| NameEntry.ApplyKey | Parallel_Bounce/src/main.cpp:201-211 | Backspace is a no-op on an empty buffer and otherwise removes exactly the last character, keeping the prefix; a code in 32..122 below length 49 appends the character with that code; other codes, and any code at length 49, change nothing; buffers stay within 49 printable characters |
| NameEntry.ProcessCodes | Parallel_Bounce/src/main.cpp:206-212 | the loop over codes 32..122 leaves the buffer that applying each pressed code as one key event, in ascending order, would leave; a bounded buffer of printable characters stays one |
| NameEntry.ProcessFrame | Parallel_Bounce/src/main.cpp:199-229 | one frame (Backspace, then codes 32..122 ascending, then Enter) equals applying those key events one by one; it confirms exactly when Enter is down and the resulting buffer is non-empty; the buffer bound is kept |
| NameEntry.CaptureFrom | Parallel_Bounce/src/main.cpp:199-230 | the entry loop never leaves a buffer over 49 characters or with a non-printable character, and a confirmed name is never empty |
| NameEntry.CaptureName | Parallel_Bounce/src/main.cpp:197-230 | entry starts from the empty buffer; a confirmed name has 1 to 49 characters; no frames leaves the empty buffer |
| NameEntry.BufferTrace | Parallel_Bounce/src/main.cpp:197-226 | the buffers of the entry loop run without stopping: the start, then each frame applied to the one before |
| NameEntry.StopsAtFirstConfirm | Parallel_Bounce/src/main.cpp:227-228 | entry ends at the first frame where Enter meets a non-empty buffer and returns the buffer that frame left |
| NameEntry.ClosedWhenNeverConfirmed | Parallel_Bounce/src/main.cpp:199-230 | when no frame confirms, entry ends with the window closed and the buffer the last frame left |
| NameEntry.TypeThenErase | Parallel_Bounce/src/main.cpp:201-209 | typing a printable character below the cap and then Backspace gives back the original buffer |
| NameEntry.TypedNameConfirmed | Parallel_Bounce/src/main.cpp:197-229 | typing a non-empty printable string one key per frame and then pressing Enter confirms its first 49 characters |
| NameEntry.EnterOnEmptyThenKey | Parallel_Bounce/src/main.cpp:206-228 | Enter on an empty buffer confirms nothing; a key that arrives with it is typed in the next pass, and a later Enter confirms "A" |
| Match.Initial | Parallel_Bounce/src/main.cpp:239-249 | a match starts with 5 hearts and 0 points on each side, both paddles' top edges at y = 207, the ball at (396, 267) with velocity (-350, 350), in a consistent, not-over state |
| Match.MoveUp | Parallel_Bounce/src/main.cpp:254 | a paddle moves up by 400 dt only when asked and its top edge's y is greater than 0, otherwise it stays |
| Match.MoveDown | Parallel_Bounce/src/main.cpp:255 | a paddle moves down by 400 dt only when asked and its bottom edge's y is less than 534, otherwise it stays |
| Match.MovePaddle | Parallel_Bounce/src/main.cpp:254-259 | a key-driven paddle: no key leaves it in place; one key moves it by that key's rule; both keys held on a paddle free to move both ways cancel out |
| Match.PaddleStopsAtEdges | Parallel_Bounce/src/main.cpp:254-259 | a paddle at the top goes no higher with only up held; one at the bottom goes no lower with only down held |
| Match.AiDecision | Parallel_Bounce/src/main.cpp:262-263 | the AI moves up iff the ball is above the top edge and the top edge's y is greater than 0; down iff the ball is below the bottom edge and that edge's y is less than 534; otherwise it stays; the two guards never both hold |
| Match.AiPaddle | Parallel_Bounce/src/main.cpp:262-263 | the AI paddle as the frame moves it (down guard judged on the moved y): when the frame moves it no more than its height, it does exactly what the three-way decision says; it always moves one step either way or not at all; a ball level with the paddle leaves it in place |
| Match.AiPaddleLongFrame | Parallel_Bounce/src/main.cpp:262-263 | in a 0.5 s frame with the ball above the paddle, both rules fire and the paddle ends where it started |
| Match.ScoreExits | Parallel_Bounce/src/main.cpp:273-285 | a left exit adds a point to the player and takes a heart from the opponent; a right exit does the reverse; nothing else about scores or hearts changes; after a point the ball is at (396, 267) with horizontal speed negated; no exit changes nothing |
| Match.AtMostOneHeartPerFrame | Parallel_Bounce/src/main.cpp:273-285 | because the centre lies inside the screen, one frame takes at most one heart in total and no heart is gained |
| Match.MovePaddles | Parallel_Bounce/src/main.cpp:254-263 | the paddle part of a frame: the player's paddle by W/S, the other by the arrow keys or, against the AI, by the AI rule on the ball's height before it moves; nothing else changes |
| Match.MoveBall | Parallel_Bounce/src/main.cpp:265-271 | the ball advances by its velocity times the frame time; each velocity component keeps or flips its sign; nothing else changes |
| Match.Step | Parallel_Bounce/src/main.cpp:253-285 | one frame keeps the match consistent, never raises hearts, takes at most one heart, turns every lost heart into a point for the other side, and moves the paddles by their keys or the AI rule; a ball whose moved x is <= 0 gives the player a point and takes an opponent heart, one at x >= 792 does the reverse, both putting the ball back at (396, 267); a ball still inside scores nothing and is where it moved to |
| Match.StillFrame | Parallel_Bounce/src/main.cpp:254-285 | a zero-length frame with the ball inside the screen and no paddle contact changes nothing |
| Match.PlayFrom | Parallel_Bounce/src/main.cpp:253-289 | the loop keeps the state consistent and hearts non-increasing; a decided match has exactly one side at 0 hearts and the other positive; an abandoned one has both positive |
| Match.RunMatch | Parallel_Bounce/src/main.cpp:239-314 | from the initial state, a decided match is won by the player iff the opponent has 0 hearts; the winner has scored exactly 5 points |
| Match.Trace | Parallel_Bounce/src/main.cpp:253-285 | the states after each frame of a loop run without stopping: each is one frame applied to the one before |
| Match.StopsAtFirstOver | Parallel_Bounce/src/main.cpp:287-289 | the loop ends at the first frame whose state has a side at <= 0 hearts and returns exactly that state |
| Match.AbandonedWhenNeverOver | Parallel_Bounce/src/main.cpp:253-289 | if no frame leaves a side without hearts, the match ends abandoned in the state after the last frame |
| Match.ShortMatchAbandoned | Parallel_Bounce/src/main.cpp:253-289 | fewer frames than either side has hearts cannot decide a match: it ends abandoned, having lost no more hearts in all than it had frames |
| GameLog.ModeName | Parallel_Bounce/src/main.cpp:157 | the mode is "AI vs Player" iff playing the AI, and "Multiplayer" iff not |
| GameLog.WinnerName | Parallel_Bounce/src/main.cpp:156 | the winner is player 1 if the player won, else "AI" against the AI, else player 2; it is empty exactly when the chosen name is empty |
| GameLog.GameOverLog | Parallel_Bounce/src/main.cpp:156-160 | the game-over screen logs nothing exactly when the name of the side that won is empty; a logged line with a well-formed timestamp reads back as the mode, that time and the winner |
| GameLog.FormatTimestamp | Parallel_Bounce/src/main.cpp:36-37 | the timestamp has the 19-character "YYYY-MM-DD HH:MM:SS" layout |
| GameLog.TimestampRoundTrip | Parallel_Bounce/src/main.cpp:37 | reading back a formatted timestamp gives the original date and time |
| GameLog.ParsedTimestampFormats | Parallel_Bounce/src/main.cpp:37 | every text that reads back as a timestamp is exactly the formatting of what it read |
| GameLog.LogText | Parallel_Bounce/src/main.cpp:27-40 | no line is written iff the winner is empty; otherwise the line has the fixed labels' length plus its fields and ends with the winner and a newline |
| GameLog.ParseLogLine | Parallel_Bounce/src/main.cpp:40 | a line that reads back holds a valid time and a non-empty winner |
| GameLog.LogLineRoundTrip | Parallel_Bounce/src/main.cpp:40 | a written line reads back as the mode, time and winner it was written from |
| GameLog.ParsedLogLineIsWritten | Parallel_Bounce/src/main.cpp:40 | every line that reads back is exactly the line written from its fields, so the format has one spelling per entry |
| Session.MatchNames | Parallel_Bounce/src/main.cpp:331-337 | against the AI, the names are player 1 (or "Player 1" when empty) and "AI"; in multiplayer, the entered names unchanged |
| Session.WinnerIsWinningSide | Parallel_Bounce/src/main.cpp:156 | under the names a match is played with, the logged winner is always the name of the side that won |
| Session.FinishAsWritten | Parallel_Bounce/src/main.cpp:314 | the game's own game-over logging reads the verdict off the hearts however the loop ended; it writes a line iff the winner is non-empty, and that line records mode, time and winner |
| Session.AbandonedMatchLoggedAsWin | Parallel_Bounce/src/main.cpp:287-314 | closing the window during an AI match after fewer than 5 frames (one frame, say), when no side can be out of hearts, still logs a win for "Player 1" |
| Session.MatchLog | Parallel_Bounce/src/main.cpp:156-160 | corrected logging: nothing for an abandoned match; for a decided one, a line iff the winner is non-empty, recording mode, time and winner |
| Session.PlayMatchOfRound | Parallel_Bounce/src/main.cpp:327-337 | against the AI, the match is played as "Player 1" against "AI" with no name entry; in multiplayer player 1's name is what the first entry left, player 2's what the second left (empty when the window closed during the first), both have at most 49 characters; the match runs on the round's frames once both names are confirmed and is abandoned in its initial state when either entry was closed, so a decided match has two non-empty names |
| Session.PlayRound | Parallel_Bounce/src/main.cpp:327-338 | a round as the game plays it: a line is appended exactly when the name of the side the hearts say has won is non-empty, and it records that name; every AI round and every decided match logs |
| Session.PlayRoundCorrected | Parallel_Bounce/src/main.cpp:327-338 | corrected round: same names and match, a line exactly when the match was decided, and then the same line the game writes |
| Session.AbandonedAiRoundLogged | Parallel_Bounce/src/main.cpp:314 | an AI round closed after fewer than 5 frames (one frame, say) logs a win for "Player 1" as written, and nothing when corrected |
| Session.ClosedNameEntryLogged | Parallel_Bounce/src/main.cpp:335-337 | a multiplayer round closed after player 1 typed "B" is played as ("B", "") and logs a win for "B" as written, and nothing when corrected |

## Left out

- Drawing, textures, fonts, window creation and closing, and the 60 FPS cap: these are raylib calls with no rules in them.
- Keyboard and mouse polling: pressed and held keys are per-frame inputs, and a closed window is an input sequence that runs out.
- The menu buttons and their hover/click handling (main.cpp:98-143): this is UI only, so the chosen mode is an input of a round.
- The missing-image error screen (main.cpp:79-96): it is UI flow with no effect on the game rules.
- `CheckCollisionCircleRec` (main.cpp:270-271): raylib's overlap test is not part of this model, so its two results are per-frame inputs.
- Float rounding: positions, speeds and frame time are exact reals, not 32-bit floats.
- `GetFrameTime`, `time` and `localtime_s`: the frame time and the broken-down local time are inputs.
- Opening and appending the results file, and the error message when it cannot be opened: the log line is returned as an optional value.
- Closing the window: a close request is taken to stay visible to every later `WindowShouldClose()` call. So a close during player 1's name entry also ends player 2's entry, and the match gets no frames. raylib versions that clear the request when `WindowShouldClose` reads it would run player 2's entry and the match normally; that reading is not modelled.
- The game-over screen's "Main Menu" wait and the repetition of rounds in `main`: one round is modelled.
- GameLog.FormatTimestamp: only four-digit years (1000-9999) are handled, and days are checked against 1-31 rather than the length of each month. These are the times this model reads back.

## Findings

| source | as written | input that shows it | evidently intended | confidence | as-written member | corrected member |
|---|---|---|---|---|---|---|
| Parallel_Bounce/src/main.cpp:314 | the game-over screen is called after the match loop however it ended, with `playerHearts > 0` as the verdict, so it logs a winner | close the window (raylib also treats Escape as a close request by default) after the first frame of an AI match, before any side is out of hearts: a line "Winner: Player 1" is appended; close it in multiplayer after player 1 typed "B": "Winner: B" is appended | only a decided match is logged, as in `Parallel Bounce/Ball_game/Ball_game.cpp:292-293`, where the game-over screen is called inside the hearts check | medium, not executed | Session.AbandonedAiRoundLogged | Session.PlayRoundCorrected |
