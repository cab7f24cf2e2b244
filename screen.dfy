/** The process-wide constants of the game: the window size and the paddle size. */
module Screen {
  /** Window width and height in pixels (`winWidth`, `winHeight`). */
  const WinWidth: int := 800
  const WinHeight: int := 800

  /** Paddle width and height (`padWidth`, `padHeight`). The ball's paddle
      tests use these globals, not the paddle's own fields. */
  const PadWidth: nat := 20
  const PadHeight: nat := 100

  /** The y a paddle snaps to when it leaves the screen (`winHeight - 50`). */
  const SnapY: int := WinHeight - 50

  /** A position, the anchor of an entity: a paddle's centre, the ball's centre. */
  datatype Position = Position(x: int, y: int)
}
