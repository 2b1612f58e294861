/** One match: the per-frame update of paddles, ball, scores and hearts, and
    the loop that runs it until one side has no hearts left or the window
    closes. Positions and speeds are real numbers; frame time, held keys and
    the ball/paddle overlap tests are inputs of each frame. */
module Match {

  const ScreenWidth: int := 792
  const ScreenHeight: int := 534
  const PaddleSpeed: real := 400.0
  const BallSpeed: real := 350.0
  const PaddleHeight: real := 120.0
  const MaxHearts: int := 5

  /** Where the ball starts and where it is put back after every point: the
      screen size halved by integer division, (396, 267). */
  const CenterX: int := ScreenWidth / 2
  const CenterY: int := ScreenHeight / 2

  /** Both paddles start vertically centred: their top edge at 267 - 60. */
  const PaddleStartY: int := ScreenHeight / 2 - 60

  /** The state of a match. `playerY` and `opponentY` are the top edges of the
      right (W/S) and left (Up/Down or AI) paddles; `vx`, `vy` the ball
      velocity in units per second. */
  datatype MatchState = MatchState(
    playerY: real, opponentY: real,
    ballX: real, ballY: real,
    vx: real, vy: real,
    playerScore: int, opponentScore: int,
    playerHearts: int, opponentHearts: int)

  /** The movement keys held in a frame. */
  datatype Controls = Controls(w: bool, s: bool, up: bool, down: bool)

  /** What one frame supplies: its duration, the held keys, and whether the
      ball (at its moved position) overlaps the player or opponent paddle. */
  datatype FrameInput = FrameInput(dt: real, keys: Controls, hitsPlayer: bool, hitsOpponent: bool)

  /** The three things the AI can decide about its paddle. */
  datatype Move = Up | Down | Stay

  predicate IsOver(s: MatchState) {
    s.playerHearts <= 0 || s.opponentHearts <= 0
  }

  /** The states a match passes through: the ball moves at full speed on both
      axes, hearts stay in range, and every point one side scored is a heart
      the other side lost. */
  predicate Consistent(s: MatchState) {
    && (s.vx == BallSpeed || s.vx == -BallSpeed)
    && (s.vy == BallSpeed || s.vy == -BallSpeed)
    && 0 <= s.playerHearts <= MaxHearts
    && 0 <= s.opponentHearts <= MaxHearts
    && s.playerScore + s.opponentHearts == MaxHearts
    && s.opponentScore + s.playerHearts == MaxHearts
  }

  /** The state a match starts in. */
  function Initial(): (s: MatchState)
    ensures Consistent(s) && !IsOver(s)
    ensures s.playerHearts == MaxHearts && s.opponentHearts == MaxHearts
    ensures s.playerScore == 0 && s.opponentScore == 0
    ensures s.ballX == CenterX as real && s.ballY == CenterY as real
    // both paddles vertically centred, the ball heading left and down at full speed
    ensures s.playerY == 207.0 && s.opponentY == 207.0
    ensures s.vx == -350.0 && s.vy == 350.0
  {
    MatchState(PaddleStartY as real, PaddleStartY as real,
               CenterX as real, CenterY as real,
               -BallSpeed, BallSpeed,
               0, 0, MaxHearts, MaxHearts)
  }

  /** A paddle asked to move up does so only while its top edge is below the
      top of the screen. */
  function MoveUp(y: real, wanted: bool, dt: real): (r: real)
    ensures !wanted || y <= 0.0 ==> r == y
    ensures wanted && y > 0.0 ==> r + PaddleSpeed * dt == y
  {
    if wanted && y > 0.0 then y - PaddleSpeed * dt else y
  }

  /** A paddle asked to move down does so only while its bottom edge is above
      the bottom of the screen. */
  function MoveDown(y: real, wanted: bool, dt: real): (r: real)
    ensures !wanted || y + PaddleHeight >= ScreenHeight as real ==> r == y
    ensures wanted && y + PaddleHeight < ScreenHeight as real ==> r - PaddleSpeed * dt == y
  {
    if wanted && y + PaddleHeight < ScreenHeight as real then y + PaddleSpeed * dt else y
  }

  /** A key-driven paddle: the up key is handled first, and the down key's
      bound is checked against the position the up key left. */
  function MovePaddle(y: real, up: bool, down: bool, dt: real): (r: real)
    ensures !up && !down ==> r == y
    ensures up && !down ==> r == (if y > 0.0 then y - PaddleSpeed * dt else y)
    ensures down && !up ==> r == (if y + PaddleHeight < ScreenHeight as real then y + PaddleSpeed * dt else y)
    // both keys held on a paddle that may move both ways: the two moves cancel
    ensures up && down && y > 0.0 && y - PaddleSpeed * dt + PaddleHeight < ScreenHeight as real ==> r == y
  {
    MoveDown(MoveUp(y, up, dt), down, dt)
  }

  /** A paddle at or above the top edge goes no higher when only the up key
      is held; one at or below the bottom edge goes no lower when only the
      down key is held. */
  lemma PaddleStopsAtEdges(y: real, dt: real)
    ensures y <= 0.0 ==> MovePaddle(y, true, false, dt) == y
    ensures y + PaddleHeight >= ScreenHeight as real ==> MovePaddle(y, false, true, dt) == y
  {
  }

  /** The AI rule, judged on one paddle position: go up when the ball is above
      the paddle's top edge and that edge is below the top of the screen; go
      down when the ball is below the paddle's bottom edge and that edge is
      above the bottom of the screen. */
  function AiDecision(ballY: real, y: real): (m: Move)
    ensures m == Up <==> ballY < y && y > 0.0
    ensures m == Down <==> ballY > y + PaddleHeight && y + PaddleHeight < ScreenHeight as real
    ensures m == Stay <==> (!(ballY < y && y > 0.0)
                            && !(ballY > y + PaddleHeight && y + PaddleHeight < ScreenHeight as real))
  {
    if ballY < y && y > 0.0 then Up
    else if ballY > y + PaddleHeight && y + PaddleHeight < ScreenHeight as real then Down
    else Stay
  }

  /** The AI paddle as the frame moves it: the up rule first, then the down
      rule judged on the position the up rule left. */
  function AiPaddle(ballY: real, y: real, dt: real): (r: real)
    // in a frame short enough that the paddle moves at most its own height,
    // the paddle does exactly what the three-way decision says
    ensures 0.0 <= dt && PaddleSpeed * dt <= PaddleHeight ==>
              r == match AiDecision(ballY, y)
                   case Up => y - PaddleSpeed * dt
                   case Down => y + PaddleSpeed * dt
                   case Stay => y
    // in any frame it moves by one step either way or not at all
    ensures r == y || r == y - PaddleSpeed * dt || r == y + PaddleSpeed * dt
    // a ball level with the paddle leaves it where it is
    ensures y <= ballY <= y + PaddleHeight ==> r == y
  {
    var y1 := MoveUp(y, ballY < y, dt);
    MoveDown(y1, ballY > y1 + PaddleHeight, dt)
  }

  /** In a long frame (half a second) both rules fire in turn: the paddle
      overshoots upwards past the ball, the down rule brings it back, and it
      ends where it started although the ball is above it. */
  lemma AiPaddleLongFrame()
    ensures AiDecision(50.0, 100.0) == Up
    ensures AiPaddle(50.0, 100.0, 0.5) == 100.0
  {
  }

  /** The scoring part of a frame, applied to the ball after it moved: a ball
      at or past the left edge scores for the player and costs the opponent a
      heart; then a ball at or past the right edge scores for the opponent and
      costs the player a heart. Either way the ball goes back to the centre
      with its horizontal direction reversed. */
  function ScoreExits(s: MatchState): (r: MatchState)
    // a left exit: one point to the player, one heart off the opponent
    ensures s.ballX <= 0.0 ==>
              && r.playerScore == s.playerScore + 1 && r.opponentHearts == s.opponentHearts - 1
              && r.opponentScore == s.opponentScore && r.playerHearts == s.playerHearts
    // a right exit: one point to the opponent, one heart off the player
    ensures s.ballX >= ScreenWidth as real ==>
              && r.opponentScore == s.opponentScore + 1 && r.playerHearts == s.playerHearts - 1
              && r.playerScore == s.playerScore && r.opponentHearts == s.opponentHearts
    // after a point the ball is at the centre, heading back the other way
    ensures s.ballX <= 0.0 || s.ballX >= ScreenWidth as real ==>
              r.ballX == CenterX as real && r.ballY == CenterY as real && r.vx == -s.vx
    // no exit, no change
    ensures 0.0 < s.ballX < ScreenWidth as real ==> r == s
    // paddles and vertical speed are never touched
    ensures r.playerY == s.playerY && r.opponentY == s.opponentY && r.vy == s.vy
  {
    var s1 := if s.ballX <= 0.0 then
        s.(playerScore := s.playerScore + 1, opponentHearts := s.opponentHearts - 1,
           ballX := CenterX as real, ballY := CenterY as real, vx := -s.vx)
      else s;
    if s1.ballX >= ScreenWidth as real then
      s1.(opponentScore := s1.opponentScore + 1, playerHearts := s1.playerHearts - 1,
          ballX := CenterX as real, ballY := CenterY as real, vx := -s1.vx)
    else s1
  }

  /** Because the centre lies strictly inside the screen, a ball put back
      after a left exit cannot also count as a right exit: one frame costs at
      most one heart in total. */
  lemma AtMostOneHeartPerFrame(s: MatchState)
    ensures var r := ScoreExits(s);
      && r.playerHearts <= s.playerHearts && r.opponentHearts <= s.opponentHearts
      && (s.playerHearts - r.playerHearts) + (s.opponentHearts - r.opponentHearts) <= 1
  {
  }

  /** One frame of a match: paddles, ball motion, wall bounce, paddle
      bounces, scoring. */
  function Step(s: MatchState, inp: FrameInput, vsAI: bool): (r: MatchState)
    ensures Consistent(s) && !IsOver(s) ==> Consistent(r)
    // hearts never grow, and one frame takes at most one heart in all
    ensures r.playerHearts <= s.playerHearts && r.opponentHearts <= s.opponentHearts
    ensures (s.playerHearts - r.playerHearts) + (s.opponentHearts - r.opponentHearts) <= 1
    // each heart lost is a point won by the other side, and nothing else moves the scores
    ensures r.playerScore - s.playerScore == s.opponentHearts - r.opponentHearts
    ensures r.opponentScore - s.opponentScore == s.playerHearts - r.playerHearts
    // the player's paddle answers to W/S only; in AI mode the left paddle to the ball only
    ensures r.playerY == MovePaddle(s.playerY, inp.keys.w, inp.keys.s, inp.dt)
    ensures vsAI ==> r.opponentY == AiPaddle(s.ballY, s.opponentY, inp.dt)
    ensures !vsAI ==> r.opponentY == MovePaddle(s.opponentY, inp.keys.up, inp.keys.down, inp.dt)
    // the ball moved past the left edge: a point to the player, a heart off
    // the opponent, the ball back at the centre
    ensures var x := s.ballX + s.vx * inp.dt;
      x <= 0.0 ==>
        && r.playerScore == s.playerScore + 1 && r.opponentHearts == s.opponentHearts - 1
        && r.opponentScore == s.opponentScore && r.playerHearts == s.playerHearts
        && r.ballX == CenterX as real && r.ballY == CenterY as real
    // past the right edge: the reverse
    ensures var x := s.ballX + s.vx * inp.dt;
      x >= ScreenWidth as real ==>
        && r.opponentScore == s.opponentScore + 1 && r.playerHearts == s.playerHearts - 1
        && r.playerScore == s.playerScore && r.opponentHearts == s.opponentHearts
        && r.ballX == CenterX as real && r.ballY == CenterY as real
    // still inside: no score, no heart lost, and the ball is where it moved to
    ensures var x := s.ballX + s.vx * inp.dt;
      0.0 < x < ScreenWidth as real ==>
        && r.playerScore == s.playerScore && r.opponentScore == s.opponentScore
        && r.playerHearts == s.playerHearts && r.opponentHearts == s.opponentHearts
        && r.ballX == x && r.ballY == s.ballY + s.vy * inp.dt
  {
    var m := MoveBall(MovePaddles(s, inp, vsAI), inp);
    AtMostOneHeartPerFrame(m);
    ScoreExits(m)
  }

  /** The paddle part of a frame: the player's paddle by W/S, the other by
      the arrow keys or the AI rule; nothing else changes. */
  function MovePaddles(s: MatchState, inp: FrameInput, vsAI: bool): (m: MatchState)
    ensures m.playerY == MovePaddle(s.playerY, inp.keys.w, inp.keys.s, inp.dt)
    ensures vsAI ==> m.opponentY == AiPaddle(s.ballY, s.opponentY, inp.dt)
    ensures !vsAI ==> m.opponentY == MovePaddle(s.opponentY, inp.keys.up, inp.keys.down, inp.dt)
    ensures m.(playerY := s.playerY, opponentY := s.opponentY) == s
  {
    var opponentY := if vsAI then AiPaddle(s.ballY, s.opponentY, inp.dt)
                     else MovePaddle(s.opponentY, inp.keys.up, inp.keys.down, inp.dt);
    s.(playerY := MovePaddle(s.playerY, inp.keys.w, inp.keys.s, inp.dt), opponentY := opponentY)
  }

  /** The ball part of a frame before scoring: the ball advances by its
      velocity, then bounces off the top and bottom walls and off each paddle
      it touches; nothing else changes. */
  function MoveBall(s: MatchState, inp: FrameInput): (m: MatchState)
    ensures m.ballX == s.ballX + s.vx * inp.dt && m.ballY == s.ballY + s.vy * inp.dt
    ensures m.vx == s.vx || m.vx == -s.vx
    ensures m.vy == s.vy || m.vy == -s.vy
    ensures m.(ballX := s.ballX, ballY := s.ballY, vx := s.vx, vy := s.vy) == s
  {
    var ballX := s.ballX + s.vx * inp.dt;
    var ballY := s.ballY + s.vy * inp.dt;
    var vy := if ballY <= 0.0 || ballY >= ScreenHeight as real then -s.vy else s.vy;
    var vx1 := if inp.hitsPlayer then -s.vx else s.vx;
    var vx2 := if inp.hitsOpponent then -vx1 else vx1;
    s.(ballX := ballX, ballY := ballY, vx := vx2, vy := vy)
  }

  /** A frame of zero duration with the ball inside the screen moves nothing
      and scores nothing. */
  lemma StillFrame(s: MatchState, keys: Controls, vsAI: bool)
    requires 0.0 < s.ballX < ScreenWidth as real && 0.0 < s.ballY < ScreenHeight as real
    ensures var r := Step(s, FrameInput(0.0, keys, false, false), vsAI);
      r == s
  {
  }

  /** How a match ends: decided when a side has run out of hearts, or
      abandoned when the window closed first (the frames ran out). */
  datatype MatchEnd = Decided(final: MatchState) | Abandoned(final: MatchState)

  /** The match loop continued from `s` over the remaining frames: each frame
      is applied, and the loop stops at the first state in which a side has
      no hearts. */
  function PlayFrom(s: MatchState, frames: seq<FrameInput>, vsAI: bool): (e: MatchEnd)
    requires Consistent(s) && !IsOver(s)
    ensures Consistent(e.final)
    ensures e.final.playerHearts <= s.playerHearts && e.final.opponentHearts <= s.opponentHearts
    // a decided match: exactly one side has run out, with exactly zero hearts
    ensures e.Decided? ==> ((e.final.playerHearts == 0 && e.final.opponentHearts > 0)
                            || (e.final.opponentHearts == 0 && e.final.playerHearts > 0))
    ensures e.Abandoned? ==> !IsOver(e.final)
    decreases |frames|
  {
    if |frames| == 0 then Abandoned(s)
    else
      var next := Step(s, frames[0], vsAI);
      if IsOver(next) then Decided(next) else PlayFrom(next, frames[1..], vsAI)
  }

  /** The match as the game runs it, from the initial state. */
  function RunMatch(vsAI: bool, frames: seq<FrameInput>): (e: MatchEnd)
    ensures Consistent(e.final)
    // the player wins exactly when the opponent is the side out of hearts,
    // and the winner has scored exactly one point per starting heart
    ensures e.Decided? ==> (PlayerWon(e.final) <==> e.final.opponentHearts == 0)
    ensures e.Decided? && PlayerWon(e.final) ==> e.final.playerScore == MaxHearts
    ensures e.Decided? && !PlayerWon(e.final) ==> e.final.opponentScore == MaxHearts
    ensures e.Abandoned? ==> e.final.playerHearts > 0 && e.final.opponentHearts > 0
  {
    PlayFrom(Initial(), frames, vsAI)
  }

  /** The verdict handed to the game-over screen: the player won when they
      still have hearts. */
  predicate PlayerWon(final: MatchState) {
    final.playerHearts > 0
  }

  /** The states after each frame, without stopping. */
  function Trace(s: MatchState, frames: seq<FrameInput>, vsAI: bool): (t: seq<MatchState>)
    ensures |t| == |frames|
    ensures |frames| > 0 ==> t[0] == Step(s, frames[0], vsAI)
    ensures forall j :: 0 < j < |t| ==> t[j] == Step(t[j - 1], frames[j], vsAI)
    decreases |frames|
  {
    if |frames| == 0 then []
    else [Step(s, frames[0], vsAI)] + Trace(Step(s, frames[0], vsAI), frames[1..], vsAI)
  }

  /** The loop stops at the first frame whose state is over, and returns
      exactly that state. */
  lemma {:induction false} StopsAtFirstOver(s: MatchState, frames: seq<FrameInput>, vsAI: bool, k: nat)
    requires Consistent(s) && !IsOver(s)
    requires k < |frames|
    requires IsOver(Trace(s, frames, vsAI)[k])
    requires forall j :: 0 <= j < k ==> !IsOver(Trace(s, frames, vsAI)[j])
    ensures PlayFrom(s, frames, vsAI) == Decided(Trace(s, frames, vsAI)[k])
    decreases k
  {
    var next := Step(s, frames[0], vsAI);
    var t := Trace(s, frames, vsAI);
    assert t[0] == next;
    if k > 0 {
      assert !IsOver(next);
      var t1 := Trace(next, frames[1..], vsAI);
      assert forall j :: 0 <= j < |t1| ==> t1[j] == t[j + 1];
      StopsAtFirstOver(next, frames[1..], vsAI, k - 1);
    }
  }

  /** When no frame leaves a side without hearts, the match is abandoned in
      the state after the last frame. */
  lemma {:induction false} AbandonedWhenNeverOver(s: MatchState, frames: seq<FrameInput>, vsAI: bool)
    requires Consistent(s) && !IsOver(s)
    requires forall j :: 0 <= j < |frames| ==> !IsOver(Trace(s, frames, vsAI)[j])
    ensures PlayFrom(s, frames, vsAI)
              == Abandoned(if |frames| == 0 then s else Trace(s, frames, vsAI)[|frames| - 1])
    decreases |frames|
  {
    if |frames| > 0 {
      var next := Step(s, frames[0], vsAI);
      var t := Trace(s, frames, vsAI);
      assert t[0] == next;
      var t1 := Trace(next, frames[1..], vsAI);
      forall j | 0 <= j < |t1|
        ensures !IsOver(t1[j])
      {
        assert t1[j] == t[j + 1];
      }
      AbandonedWhenNeverOver(next, frames[1..], vsAI);
      assert |t1| > 0 ==> t1[|t1| - 1] == t[|frames| - 1];
    }
  }

  /** Fewer frames than either side has hearts cannot decide a match: each
      frame takes at most one heart, so the match is abandoned when the
      window closes, having lost no more hearts in all than it had frames. */
  lemma {:induction false} ShortMatchAbandoned(s: MatchState, frames: seq<FrameInput>, vsAI: bool)
    requires Consistent(s) && !IsOver(s)
    requires |frames| < s.playerHearts && |frames| < s.opponentHearts
    ensures PlayFrom(s, frames, vsAI).Abandoned?
    ensures var f := PlayFrom(s, frames, vsAI).final;
      (s.playerHearts - f.playerHearts) + (s.opponentHearts - f.opponentHearts) <= |frames|
    decreases |frames|
  {
    if |frames| > 0 {
      var next := Step(s, frames[0], vsAI);
      assert !IsOver(next);
      ShortMatchAbandoned(next, frames[1..], vsAI);
    }
  }
}
