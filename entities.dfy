/** The two kinds of entity, the paddles and the ball: their state, how they
    draw themselves, and how they move each frame. Coordinates are integers
    (see README.md); colours are left out. */
module Entities {
  import opened Screen
  import opened Raster

  // ---------------------------------------------------------------------------
  // Paddle controllers
  // ---------------------------------------------------------------------------

  /** Pixels a paddle moves per frame while a key is held. */
  const PaddleSpeed: int := 10

  /** A paddle of height `height` centred at `y` reaches past the top or past
      the bottom of the screen: `y - height/2 < 0 || y + height/2 > winHeight`,
      with the halves compared exactly. */
  predicate OffScreen(y: int, height: nat)
  {
    2 * y - height < 0 || 2 * y + height > 2 * WinHeight
  }

  /** The y of the player's paddle after one frame of keyboard control: up
      moves it by -10, down by +10, and a paddle that then sticks out of the
      screen at either edge is put back at `winHeight - 50`. */
  function ControlledY(y: int, height: nat, up: bool, down: bool): int
  {
    var moved := y - (if up then PaddleSpeed else 0) + (if down then PaddleSpeed else 0);
    if OffScreen(moved, height) then SnapY else moved
  }

  /** Without a snap the paddle moves by exactly one step per key, and the two
      keys together cancel out; otherwise it lands at `winHeight - 50`. */
  lemma ControlledYMoves(y: int, height: nat, up: bool, down: bool)
    ensures var r := ControlledY(y, height, up, down);
            var step := if up && !down then -PaddleSpeed else if down && !up then PaddleSpeed else 0;
            (r == y + step && !OffScreen(r, height)) || (r == SnapY && OffScreen(y + step, height))
  {
  }

  /** A paddle no taller than the paddle height ends every frame on screen,
      whatever its y before; the standard paddle's centre stays in [50, 750]. */
  lemma ControlledYOnScreen(y: int, height: nat, up: bool, down: bool)
    requires height <= PadHeight
    ensures !OffScreen(ControlledY(y, height, up, down), height)
    ensures height == PadHeight ==> 50 <= ControlledY(y, height, up, down) <= 750
  {
  }

  /** The recovery is a snap, not a clamp: a paddle pushed past the TOP edge
      also lands near the bottom, at `winHeight - 50`. */
  lemma ControlledYSnapsToBottom(y: int, height: nat, up: bool, down: bool)
    requires height == PadHeight
    requires y - (if up then PaddleSpeed else 0) + (if down then PaddleSpeed else 0) < height / 2
    ensures ControlledY(y, height, up, down) == WinHeight - 50
    ensures ControlledY(y, height, up, down) > WinHeight / 2
  {
  }

  /** An on-screen paddle with no key held does not move. */
  lemma ControlledYIdle(y: int, height: nat)
    requires !OffScreen(y, height)
    ensures ControlledY(y, height, false, false) == y
    ensures ControlledY(y, height, true, true) == y
  {
  }

  /** A paddle: its centre, its full width and height. Both paddles of the game
      are created with the paddle constants; only y ever changes. */
  class Paddle {
    var x: int
    var y: int
    var width: nat
    var height: nat

    constructor (x: int, y: int, width: nat, height: nat)
      ensures this.x == x && this.y == y && this.width == width && this.height == height
    {
      this.x, this.y, this.width, this.height := x, y, width, height;
    }

    /** The pixels `draw` emits at the paddle's current position: the
        rectangle whose top-left pixel is `(int32(x - width/2), int32(y - height/2))`. */
    function Pixels(): seq<Point>
      reads this
    {
      Rect(Corner(x, width), Corner(y, height), width, height)
    }

    /** Emits the filled rectangle row by row, each row left to right. */
    method Draw(r: Renderer)
      modifies r
      ensures r.points == old(r.points) + Pixels()
    {
      var startX, startY := Corner(x, width), Corner(y, height);
      var row := 0;
      while row < height
        invariant 0 <= row <= height
        invariant r.points == old(r.points) + Rect(startX, startY, width, row)
      {
        var col := 0;
        while col < width
          invariant 0 <= col <= width
          invariant r.points == old(r.points) + Rect(startX, startY, width, row) + Row(startX, startY + row, col)
        {
          r.DrawPoint(startX + col, startY + row);
          col := col + 1;
        }
        row := row + 1;
      }
    }

    /** The player's controller: applies the keys, snaps an off-screen paddle
        to `winHeight - 50`, then draws the paddle at its new position. */
    method Update(up: bool, down: bool, r: Renderer)
      modifies this`y, r
      ensures y == ControlledY(old(y), height, up, down)
      ensures r.points == old(r.points) + Pixels()
    {
      if up {
        y := y - PaddleSpeed;
      }
      if down {
        y := y + PaddleSpeed;
      }
      if OffScreen(y, height) {
        y := SnapY;
      }
      Draw(r);
    }

    /** The opponent's controller: follows the ball's y exactly. */
    method AiUpdate(b: Ball)
      modifies this`y
      ensures y == b.y
    {
      y := b.y;
    }
  }

  // ---------------------------------------------------------------------------
  // Ball physics
  // ---------------------------------------------------------------------------

  /** The ball's state as a value: centre, radius and velocity. */
  datatype BallState = BallState(x: int, y: int, radius: int, xv: int, yv: int)

  /** The ball touches or passes the left or right edge: a point is scored. */
  predicate Scores(x: int, r: int)
  {
    x - r <= 0 || x + r >= WinWidth
  }

  /** The ball sticks out past the top or the bottom edge. */
  predicate HitsTopOrBottom(y: int, r: int)
  {
    y - r < 0 || y + r > WinHeight
  }

  /** The ball sticks out past the left or the right edge. */
  predicate HitsSide(x: int, r: int)
  {
    x - r < 0 || x + r > WinWidth
  }

  /** The left paddle's test: the ball's left edge is left of the paddle's
      right edge, and the ball's BOTTOM edge `y + r` lies strictly inside the
      paddle's vertical extent (the only vertical test the game makes). */
  predicate HitsLeftPaddle(x: int, y: int, r: int, pad: Position)
  {
    x - r < pad.x + PadWidth / 2 && pad.y - PadHeight / 2 < y + r < pad.y + PadHeight / 2
  }

  /** The right paddle's test, mirrored: the ball's right edge is right of
      the paddle's left edge, with the same single-edge vertical test. */
  predicate HitsRightPaddle(x: int, y: int, r: int, pad: Position)
  {
    x + r > pad.x - PadWidth / 2 && pad.y - PadHeight / 2 < y + r < pad.y + PadHeight / 2
  }

  /** One physics step of the ball against the two paddles' positions. */
  function BallStep(b: BallState, pad1: Position, pad2: Position): BallState
  {
    var x, y := b.x + b.xv, b.y + b.yv;
    if Scores(x, b.radius) then
      BallState(WinWidth / 2, y, b.radius, b.xv, b.yv)
    else
      var yv := if HitsTopOrBottom(y, b.radius) then -b.yv else b.yv;
      var xv1 := if HitsSide(x, b.radius) then -b.xv else b.xv;
      var xv2 := if HitsLeftPaddle(x, y, b.radius, pad1) then -xv1 else xv1;
      var xv3 := if HitsRightPaddle(x, y, b.radius, pad2) then -xv2 else xv2;
      BallState(x, y, b.radius, xv3, yv)
  }

  /** How many of the three horizontal bounce tests hold after integration. */
  function Flips(b: BallState, pad1: Position, pad2: Position): nat
  {
    var x, y := b.x + b.xv, b.y + b.yv;
    (if HitsSide(x, b.radius) then 1 else 0)
    + (if HitsLeftPaddle(x, y, b.radius, pad1) then 1 else 0)
    + (if HitsRightPaddle(x, y, b.radius, pad2) then 1 else 0)
  }

  /** (-1) to the power k. */
  function NegOnePow(k: nat): (s: int)
    ensures s == 1 || s == -1
  {
    if k == 0 then 1 else -NegOnePow(k - 1)
  }

  /** Scoring: a ball that reaches the left or right edge is put back at the
      horizontal centre; y keeps its integration, the velocity is untouched,
      and no bounce test runs. */
  lemma BallScoring(b: BallState, pad1: Position, pad2: Position)
    requires Scores(b.x + b.xv, b.radius)
    ensures BallStep(b, pad1, pad2) == BallState(400, b.y + b.yv, b.radius, b.xv, b.yv)
  {
  }

  /** Without a score the ball moves by its old velocity, and yv is negated
      exactly when the moved ball sticks out at the top or the bottom. */
  lemma BallWallBounce(b: BallState, pad1: Position, pad2: Position)
    requires !Scores(b.x + b.xv, b.radius)
    ensures var n := BallStep(b, pad1, pad2);
            n.x == b.x + b.xv && n.y == b.y + b.yv && n.radius == b.radius
            && n.yv == (if HitsTopOrBottom(b.y + b.yv, b.radius) then -b.yv else b.yv)
  {
  }

  /** Without a score the final xv is the old one negated once per true
      bounce test: xv * (-1)^k. */
  lemma {:induction false} BallHorizontalBounces(b: BallState, pad1: Position, pad2: Position)
    requires !Scores(b.x + b.xv, b.radius)
    ensures BallStep(b, pad1, pad2).xv == b.xv * NegOnePow(Flips(b, pad1, pad2))
  {
    var k := Flips(b, pad1, pad2);
    assert k <= 3;
    assert NegOnePow(1) == -1 && NegOnePow(2) == 1 && NegOnePow(3) == -1;
  }

  /** The side-wall test is dead: once no point is scored the ball cannot
      stick out at the left or right edge, so only the paddles flip xv. */
  lemma SideWallNeverFlips(b: BallState, pad1: Position, pad2: Position)
    requires !Scores(b.x + b.xv, b.radius)
    ensures !HitsSide(b.x + b.xv, b.radius)
    ensures Flips(b, pad1, pad2)
            == (if HitsLeftPaddle(b.x + b.xv, b.y + b.yv, b.radius, pad1) then 1 else 0)
             + (if HitsRightPaddle(b.x + b.xv, b.y + b.yv, b.radius, pad2) then 1 else 0)
  {
  }

  /** Bounces only change direction: the speed along each axis is kept. */
  lemma BallSpeedKept(b: BallState, pad1: Position, pad2: Position)
    ensures var n := BallStep(b, pad1, pad2);
            (n.xv == b.xv || n.xv == -b.xv) && (n.yv == b.yv || n.yv == -b.yv) && n.radius == b.radius
  {
  }

  /** After any step a ball narrower than the screen is strictly between the
      left and right edges. */
  lemma BallStaysBetweenSides(b: BallState, pad1: Position, pad2: Position)
    requires 0 <= b.radius < WinWidth / 2
    ensures var n := BallStep(b, pad1, pad2);
            0 < n.x - n.radius && n.x + n.radius < WinWidth
  {
  }

  /** The ball: centre, radius and velocity. */
  class Ball {
    var x: int
    var y: int
    var radius: int
    var xv: int
    var yv: int

    constructor (x: int, y: int, radius: int, xv: int, yv: int)
      ensures State() == BallState(x, y, radius, xv, yv)
    {
      this.x, this.y, this.radius, this.xv, this.yv := x, y, radius, xv, yv;
    }

    function State(): BallState
      reads this
    {
      BallState(x, y, radius, xv, yv)
    }

    /** The pixels `draw` emits: the disc of the ball's radius around its centre. */
    function Pixels(): seq<Point>
      reads this
    {
      Disc(x, y, radius)
    }

    /** Emits every pixel of the bounding box [-r, r) x [-r, r) around the
        centre that passes the disc test, row by row. */
    method Draw(r: Renderer)
      modifies r
      ensures r.points == old(r.points) + Pixels()
    {
      var cx, cy, rad := x, y, radius;
      var dy := -rad;
      while dy < rad
        invariant dy == -rad || -rad <= dy <= rad
        invariant r.points == old(r.points) + DiscRows(cx, cy, rad, dy)
      {
        var dx := -rad;
        ghost var done := r.points;
        while dx < rad
          invariant -rad <= dx <= rad
          invariant r.points == done + DiscRow(cx, cy, rad, dy, dx)
        {
          DiscRowExtend(done, cx, cy, rad, dy, dx);
          if InDisc(dx, dy, rad) {
            r.DrawPoint(cx + dx, cy + dy);
          }
          dx := dx + 1;
        }
        DiscRowsExtend(old(r.points), cx, cy, rad, dy);
        dy := dy + 1;
      }
      if rad < 0 {
        assert DiscRows(cx, cy, rad, dy) == [] == DiscRows(cx, cy, rad, rad);
      }
    }

    /** One physics step: integrate, score, bounce off the walls and the
        paddles. The paddles are only read. */
    method Update(pad1: Paddle, pad2: Paddle)
      modifies this`x, this`y, this`xv, this`yv
      ensures State() == BallStep(old(State()), Position(pad1.x, pad1.y), Position(pad2.x, pad2.y))
    {
      x := x + xv;
      y := y + yv;

      if x - radius <= 0 || x + radius >= WinWidth {
        x := WinWidth / 2;
        return;
      }

      if y - radius < 0 || y + radius > WinHeight {
        yv := -yv;
      }
      // Never true once the scoring test above has failed.
      var sideHit := x - radius < 0 || x + radius > WinWidth;
      xv := if sideHit then -xv else xv;

      if x - radius < pad1.x + PadWidth / 2 && pad1.y - PadHeight / 2 < y + radius < pad1.y + PadHeight / 2 {
        xv := -xv;
      }
      if x + radius > pad2.x - PadWidth / 2 && pad2.y - PadHeight / 2 < y + radius < pad2.y + PadHeight / 2 {
        xv := -xv;
      }
    }
  }
}
