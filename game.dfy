/** The game loop: the objects `main` creates and the fixed order in which one
    frame samples the clock, reads input, draws, and updates the entities. */
module GameLoop {
  import opened Screen
  import opened Raster
  import opened Entities
  import opened Timing

  /** What one frame reads from the platform: whether a quit event was
      among the polled events, the keyboard snapshot (up, down, escape), and
      the two tick readings (in daemon and in beginRender). */
  datatype FrameInput = FrameInput(
    quit: bool, up: bool, down: bool, escape: bool,
    daemonTicks: u64, renderTicks: u64)

  /** The frame ends the loop: a quit event or the escape key. */
  predicate Stops(input: FrameInput)
  {
    input.quit || input.escape
  }

  /** How many frames the loop runs on a finite script of inputs: up to and
      including the first frame that stops it, or the whole script. */
  function FramesPlayed(script: seq<FrameInput>): (n: nat)
    ensures n <= |script|
    ensures script != [] ==> 0 < n
    ensures forall i :: 0 <= i < |script| && i + 1 < n ==> !Stops(script[i])
    ensures n < |script| ==> Stops(script[n - 1])
    ensures n == |script| && n > 0 && !Stops(script[n - 1]) ==> forall i :: 0 <= i < |script| ==> !Stops(script[i])
  {
    if script == [] then 0
    else if Stops(script[0]) then 1
    else 1 + FramesPlayed(script[1..])
  }

  /** A frame that stops the loop after a run of frames that did not is the
      last frame played. */
  lemma {:induction false} FramesPlayedStop(script: seq<FrameInput>, k: nat)
    requires 0 < k <= |script| && Stops(script[k - 1])
    requires forall i :: 0 <= i < k - 1 ==> !Stops(script[i])
    ensures FramesPlayed(script) == k
  {
    if k > 1 {
      FramesPlayedStop(script[1..], k - 1);
    }
  }

  /** A script in which no frame stops the loop is played to its end. */
  lemma {:induction false} FramesPlayedAll(script: seq<FrameInput>)
    requires forall i :: 0 <= i < |script| ==> !Stops(script[i])
    ensures FramesPlayed(script) == |script|
  {
    if script != [] {
      FramesPlayedAll(script[1..]);
    }
  }

  /** Everything `main` owns: the two paddles, the ball, the renderer, the
      frame counters and the `running` flag. */
  class Game {
    var pad1: Paddle
    var pad2: Paddle
    var ball: Ball
    var renderer: Renderer
    var clock: FrameClock
    var running: bool

    ghost predicate Valid()
      reads this
    {
      pad1 != pad2
    }

    /** The start position: the paddles at the left and right edges, centred
        vertically; the ball at (300, 300) with radius 20 and velocity (7, 10);
        `running` set once the window is up. */
    constructor ()
      ensures Valid() && running
      ensures pad1.x == PadWidth && pad1.y == WinHeight / 2
      ensures pad2.x == WinWidth - PadWidth && pad2.y == WinHeight / 2
      ensures pad1.width == pad2.width == PadWidth && pad1.height == pad2.height == PadHeight
      ensures ball.State() == BallState(300, 300, 20, 7, 10)
      ensures fresh(pad1) && fresh(pad2) && fresh(ball) && fresh(renderer) && fresh(clock)
      ensures renderer.points == []
      ensures clock.lastFrame == 0 && clock.lastTime == 0 && clock.frameCount == 0
      ensures clock.timerFPS == 0 && clock.fps == 0
    {
      pad1 := new Paddle(PadWidth, WinHeight / 2, PadWidth, PadHeight);
      pad2 := new Paddle(WinWidth - PadWidth, WinHeight / 2, PadWidth, PadHeight);
      ball := new Ball(300, 300, 20, 7, 10);
      renderer := new Renderer();
      clock := new FrameClock();
      running := true;
    }

    /** The draw phase: both paddles, then the ball, each at its current
        position. */
    method DrawScene()
      modifies renderer
      ensures renderer.points == old(renderer.points) + pad1.Pixels() + pad2.Pixels() + ball.Pixels()
    {
      pad1.Draw(renderer);
      pad2.Draw(renderer);
      ball.Draw(renderer);
    }

    /** The update phase: ball physics against the paddles as they were, the
        player's paddle (which draws itself again), and the AI paddle
        following the ball's new y. */
    method UpdateScene(up: bool, down: bool)
      requires Valid()
      modifies pad1`y, pad2`y, ball`x, ball`y, ball`xv, ball`yv, renderer
      ensures ball.State() == BallStep(old(ball.State()), Position(pad1.x, old(pad1.y)), Position(pad2.x, old(pad2.y)))
      ensures pad1.y == ControlledY(old(pad1.y), pad1.height, up, down)
      ensures pad2.y == ball.y
      ensures renderer.points == old(renderer.points) + pad1.Pixels()
    {
      ball.Update(pad1, pad2);
      pad1.Update(up, down, renderer);
      pad2.AiUpdate(ball);
    }

    /** One pass of the main loop body: daemon (FPS sample, input), begin
        render (frame count, throttle), the draw phase, present, the escape
        check, then the update phase. Returns the requested delay. */
    method Frame(input: FrameInput) returns (delay: Option<nat>)
      requires Valid()
      modifies this`running, pad1`y, pad2`y, ball`x, ball`y, ball`xv, ball`yv, renderer, clock
      ensures Valid()
      ensures running == (old(running) && !Stops(input))
      ensures renderer.points
              == old(renderer.points) + old(pad1.Pixels()) + old(pad2.Pixels()) + old(ball.Pixels()) + pad1.Pixels()
      ensures ball.State() == BallStep(old(ball.State()), Position(pad1.x, old(pad1.y)), Position(pad2.x, old(pad2.y)))
      ensures pad1.y == ControlledY(old(pad1.y), pad1.height, input.up, input.down)
      ensures pad2.y == ball.y
      ensures clock.lastFrame == input.daemonTicks
      ensures SampleDue(input.daemonTicks, old(clock.lastTime)) ==>
                clock.lastTime == input.daemonTicks && clock.fps == old(clock.frameCount)
      ensures !SampleDue(input.daemonTicks, old(clock.lastTime)) ==>
                clock.lastTime == old(clock.lastTime) && clock.fps == old(clock.fps)
      ensures clock.frameCount
              == Add(if SampleDue(input.daemonTicks, old(clock.lastTime)) then 0 else old(clock.frameCount), 1)
      ensures clock.timerFPS == Sub(input.renderTicks, input.daemonTicks)
      ensures delay == FrameDelay(clock.timerFPS)
    {
      ghost var scene := renderer.points + pad1.Pixels() + pad2.Pixels() + ball.Pixels();
      // daemon: the FPS sample, then input polling
      clock.Daemon(input.daemonTicks);
      if input.quit {
        running := false;
      }
      // beginRender: count the frame and throttle
      delay := clock.BeginRender(input.renderTicks);
      // endRender's present is left out
      DrawScene();
      assert renderer.points == scene;
      if input.escape {
        running := false;
      }
      UpdateScene(input.up, input.down);
    }

    /** The main loop, fed a finite script of frame inputs: it runs frames
        while `running` holds, so it stops right after the first frame with a
        quit event or the escape key, that frame being played in full. */
    method Play(script: seq<FrameInput>) returns (frames: nat)
      requires Valid()
      modifies this`running, pad1`y, pad2`y, ball`x, ball`y, ball`xv, ball`yv, renderer, clock
      ensures Valid()
      ensures frames == if old(running) then FramesPlayed(script) else 0
      ensures running == (old(running) && forall i :: 0 <= i < |script| ==> !Stops(script[i]))
    {
      frames := 0;
      ghost var wasRunning := running;
      while running && frames < |script|
        invariant Valid()
        invariant pad1 == old(pad1) && pad2 == old(pad2) && ball == old(ball)
        invariant renderer == old(renderer) && clock == old(clock)
        invariant frames <= |script|
        invariant !wasRunning ==> frames == 0 && !running
        invariant wasRunning ==> (running <==> forall i :: 0 <= i < frames ==> !Stops(script[i]))
        invariant wasRunning && !running ==> 0 < frames && forall i :: 0 <= i < frames - 1 ==> !Stops(script[i])
      {
        var _ := Frame(script[frames]);
        frames := frames + 1;
      }
      if wasRunning {
        if running {
          FramesPlayedAll(script);
        } else {
          FramesPlayedStop(script, frames);
        }
      }
    }
  }
}
