/** The step logic of the Breakout game (breakout.c): the block grid, the
    paddle and the ball, the paddle's key handling, one game update, and the
    status loop that drives them. Drawing, the terminal, the clock and the
    random source are not part of it: the clock's verdicts and the keys read
    arrive as ticks, and the random bit as a parameter. */
module Breakout {
  import opened Wrappers

  /** Rows of blocks (breakout.c:22). */
  const NUM_ROWS := 5
  /** Screen row of the top row of blocks (breakout.c:24). */
  const TOP_ROW_Y := 4
  /** Characters in the paddle (breakout.c:167). */
  const PADDLE_LENGTH := 7

  datatype GameStatus = Active | Won | Lost

  /** The colour each row is drawn in, from the top (breakout.c:21). */
  datatype Colour = Red | Yellow | Green | Blue | Magenta

  const ROW_COLOURS: seq<Colour> := [Red, Yellow, Green, Blue, Magenta]

  /** A block: its colour, position, and status, 1 while standing and 0 once destroyed. */
  datatype Block = Block(colour: Colour, x: int, y: int, status: int)

  // ---------------------------------------------------------------------------
  // The block grid

  /** Block i of a grid `numCols` wide, as init_blocks lays it out
      (breakout.c:149-156): rows fill left to right from column 1, from the
      top row down. */
  function BlockAt(i: nat, numCols: nat): Block
    requires 0 < numCols && i < NUM_ROWS * numCols
  {
    DivBelow(i, numCols);
    Block(ROW_COLOURS[i / numCols], i % numCols + 1, TOP_ROW_Y + i / numCols, 1)
  }

  lemma DivBelow(i: nat, n: nat)
    requires 0 < n && i < NUM_ROWS * n
    ensures i / n < NUM_ROWS
  {
    assert n * (i / n) <= i;
    MulBelow(n, i / n);
  }

  lemma MulBelow(n: nat, q: nat)
    requires 0 < n && n * q < NUM_ROWS * n
    ensures q < NUM_ROWS
  {
  }

  /** Every block of the grid starts standing, inside columns 1..numCols of
      the five rows below the top, coloured by its row; and no two blocks
      share a position. */
  lemma BlockGrid(numCols: nat, i: nat, j: nat)
    requires 0 < numCols && i < NUM_ROWS * numCols && j < NUM_ROWS * numCols
    ensures var b := BlockAt(i, numCols);
      && b.status == 1
      && 1 <= b.x <= numCols
      && TOP_ROW_Y <= b.y < TOP_ROW_Y + NUM_ROWS
      && b.colour == ROW_COLOURS[b.y - TOP_ROW_Y]
    ensures i != j ==> (BlockAt(i, numCols).x, BlockAt(i, numCols).y) != (BlockAt(j, numCols).x, BlockAt(j, numCols).y)
  {
    DivBelow(i, numCols);
    assert i == numCols * (i / numCols) + i % numCols;
    assert j == numCols * (j / numCols) + j % numCols;
  }

  /** init_blocks (breakout.c:142-161): with num_cols = num_blocks / 5, fill
      the array block by block. `numBlocks` must be a multiple of 5, or a
      row index would run past the five colours (or num_cols be 0). */
  method InitBlocks(numBlocks: nat) returns (blocks: array<Block>, numCols: nat)
    requires numBlocks % NUM_ROWS == 0
    ensures fresh(blocks) && blocks.Length == numBlocks && numCols == numBlocks / NUM_ROWS
    ensures forall i :: 0 <= i < numBlocks ==> blocks[i] == BlockAt(i, numCols)
  {
    blocks := new Block[numBlocks];
    numCols := numBlocks / NUM_ROWS;
    assert numBlocks == NUM_ROWS * numCols;
    for i := 0 to numBlocks
      invariant forall k :: 0 <= k < i ==> blocks[k] == BlockAt(k, numCols)
    {
      DivBelow(i, numCols);
      var x, y := i % numCols + 1, TOP_ROW_Y + i / numCols;
      blocks[i] := Block(ROW_COLOURS[i / numCols], x, y, 1);
    }
  }

  // ---------------------------------------------------------------------------
  // The paddle

  /** Where the paddle's leftmost character moves for a key read, or for no
      key at all (breakout.c:216-237): `a` moves left unless at column 0, `d`
      moves right unless the right end touches num_cols. */
  function Shift(x: int, length: nat, key: Option<char>, numCols: int): (nx: int)
    ensures -1 <= nx - x <= 1
    ensures key != Some('a') && key != Some('d') ==> nx == x
    ensures 0 <= x <= numCols - length ==> 0 <= nx <= numCols - length
  {
    if key == Some('a') then (if x == 0 then x else x - 1)
    else if key == Some('d') then (if x + length == numCols then x else x + 1)
    else x
  }


  class Paddle {
    const length: nat
    const y: int
    var x: int

    /** init_paddle (breakout.c:163-178): length 7, four rows above the
        bottom, centred so that x = cols / 2 - 3. */
    constructor (rows: nat, cols: nat)
      ensures length == PADDLE_LENGTH && y == rows - 4 && x == cols / 2 - 3
    {
      length := PADDLE_LENGTH;
      y := rows - 4;
      x := cols / 2 - 3;
    }

    /** move_paddle's key handling (breakout.c:214-237) for the key read, if any. */
    method Move(key: Option<char>, numCols: int)
      modifies this
      ensures x == Shift(old(x), length, key, numCols)
    {
      match key
      case Some('a') =>
        if x != 0 {
          x := x - 1;
        }
      case Some('d') =>
        if x + length != numCols {
          x := x + 1;
        }
      case _ =>
    }
  }

  /** A starting paddle fits the screen once it is at least seven columns wide. */
  lemma StartInBounds(cols: nat)
    requires cols >= PADDLE_LENGTH
    ensures 0 <= cols / 2 - 3 <= cols - PADDLE_LENGTH
  {
  }

  // ---------------------------------------------------------------------------
  // The ball

  /** The ball's position and velocity, one value. */
  datatype BallState = BallState(x: int, y: int, xv: int, yv: int)

  class Ball {
    var x: int
    var y: int
    var xv: int
    var yv: int

    /** init_ball (breakout.c:180-194): just above the paddle's middle,
        moving up, sideways one way or the other as the random bit says. */
    constructor (paddle: Paddle, coin: bool)
      ensures x == paddle.x + paddle.length / 2 && y == paddle.y - 1
      ensures xv == (if coin then 1 else -1) && yv == -1
    {
      x := paddle.x + paddle.length / 2;
      y := paddle.y - 1;
      xv := if coin then 1 else -1;
      yv := -1;
    }

    function State(): BallState
      reads this
    {
      BallState(x, y, xv, yv)
    }

    /** Move back to where the ball came from and turn vertically
        (breakout.c:297-299, 313-316). */
    method StepBack()
      modifies this
      ensures State() == Rebound(old(State()))
    {
      y := y - yv;
      x := x - xv;
      yv := -yv;
    }
  }

  /** The first part of an update (breakout.c:265-283): move by the velocity,
      then reflect off the top, the left and the right border, in that order. */
  function Advance(b: BallState, numCols: int): (r: BallState)
    ensures r.y >= 0
    ensures numCols >= 0 ==> 0 <= r.x <= numCols
    ensures r.yv == b.yv || r.yv == -b.yv
    ensures 0 < b.y + b.yv ==> r.y == b.y + b.yv && r.yv == b.yv
    ensures b.y + b.yv <= 0 ==> r.y == 0 && r.yv == -b.yv
    ensures 0 < b.x + b.xv < numCols ==> r.x == b.x + b.xv && r.xv == b.xv
    ensures numCols > 0 && b.x + b.xv <= 0 ==> r.x == 0 && r.xv == -b.xv
    ensures numCols > 0 && b.x + b.xv >= numCols ==> r.x == numCols && r.xv == -b.xv
  {
    var moved := BallState(b.x + b.xv, b.y + b.yv, b.xv, b.yv);
    var top := if moved.y <= 0 then moved.(y := 0, yv := -moved.yv) else moved;
    var left := if top.x <= 0 then top.(x := 0, xv := -top.xv) else top;
    if left.x >= numCols then left.(x := numCols, xv := -left.xv) else left
  }

  /** The ball steps back to where it came from and turns vertically
      (breakout.c:297-299, 313-316). */
  function Rebound(b: BallState): BallState
  {
    BallState(b.x - b.xv, b.y - b.yv, b.xv, -b.yv)
  }

  /** A bounce off the paddle: rebound, then take the horizontal velocity
      from the stepped-back x relative to the paddle's middle (breakout.c:313-318). */
  function Deflect(b: BallState, middle: int): (r: BallState)
    ensures r.x + b.xv == b.x && r.y + b.yv == b.y && r.yv == -b.yv
    ensures r.xv > 0 <==> r.x > middle
    ensures r.xv < 0 <==> r.x < middle
  {
    var back := Rebound(b);
    back.(xv := -(middle - back.x))
  }

  // ---------------------------------------------------------------------------
  // The block sweep (breakout.c:288-303)

  /** Where the sweep over the blocks has got to: the blocks seen so far,
      the ball, and the all_destroyed flag. */
  datatype Sweep = Sweep(blocks: seq<Block>, ball: BallState, allDestroyed: bool)

  predicate Hits(blk: Block, b: BallState)
  {
    blk.status == 1 && blk.x == b.x && blk.y == b.y
  }

  /** One iteration of the sweep: a standing block at the ball's position is
      destroyed and the ball rebounds; a block still standing afterwards
      clears the flag. */
  function SweepStep(s: Sweep, blk: Block): (r: Sweep)
    ensures |r.blocks| == |s.blocks| + 1
    ensures forall k :: 0 <= k < |s.blocks| ==> r.blocks[k] == s.blocks[k]
    ensures r.blocks[|s.blocks|] == blk || (blk.status == 1 && r.blocks[|s.blocks|] == blk.(status := 0))
    ensures r.allDestroyed <==> s.allDestroyed && r.blocks[|s.blocks|].status != 1
    ensures r.ball == s.ball || r.ball == Rebound(s.ball)
  {
    if Hits(blk, s.ball) then Sweep(s.blocks + [blk.(status := 0)], Rebound(s.ball), s.allDestroyed)
    else Sweep(s.blocks + [blk], s.ball, s.allDestroyed && blk.status != 1)
  }

  /** The sweep over the blocks `bs`, from the ball `b`. */
  function SweepOf(bs: seq<Block>, b: BallState): Sweep
  {
    if bs == [] then Sweep([], b, true)
    else SweepStep(SweepOf(bs[..|bs| - 1], b), bs[|bs| - 1])
  }

  /** `after` is `before` with some standing blocks destroyed and nothing
      else changed. */
  predicate OnlyDestroys(before: seq<Block>, after: seq<Block>)
  {
    && |after| == |before|
    && (forall i :: 0 <= i < |before| ==>
          after[i] == before[i] || (before[i].status == 1 && after[i] == before[i].(status := 0)))
  }

  /** The sweep only destroys blocks. */
  lemma {:induction false} SweepDestroys(bs: seq<Block>, b: BallState)
    ensures OnlyDestroys(bs, SweepOf(bs, b).blocks)
  {
    if bs != [] {
      var init := bs[..|bs| - 1];
      SweepDestroys(init, b);
      var s := SweepOf(init, b);
      var s' := SweepOf(bs, b);
      assert s'.blocks[..|init|] == s.blocks;
    }
  }

  /** The sweep's flag says whether no block is left standing at the end. */
  lemma {:induction false} SweepFlag(bs: seq<Block>, b: BallState)
    ensures var s := SweepOf(bs, b);
      |s.blocks| == |bs| && (s.allDestroyed <==> forall i :: 0 <= i < |s.blocks| ==> s.blocks[i].status != 1)
  {
    if bs != [] {
      var init := bs[..|bs| - 1];
      SweepFlag(init, b);
      var s := SweepOf(init, b);
      var s' := SweepOf(bs, b);
      var last := s'.blocks[|init|];
      assert s'.blocks == s.blocks + [last];
      assert s'.allDestroyed == (s.allDestroyed && last.status != 1);
      assert forall i :: 0 <= i < |s.blocks| ==> s'.blocks[i] == s.blocks[i];
      assert (forall i :: 0 <= i < |s'.blocks| ==> s'.blocks[i].status != 1)
        <==> (forall i :: 0 <= i < |s.blocks| ==> s.blocks[i].status != 1) && last.status != 1;
    }
  }

  /** The sweep only ever negates the ball's vertical speed. */
  lemma {:induction false} SweepSpeed(bs: seq<Block>, b: BallState)
    ensures SweepOf(bs, b).ball.yv == b.yv || SweepOf(bs, b).ball.yv == -b.yv
  {
    if bs != [] {
      SweepSpeed(bs[..|bs| - 1], b);
    }
  }

  /** The sweep only destroys blocks; its flag says whether any block is
      left standing at the end; the ball's vertical speed keeps its size. */
  lemma {:induction false} SweepShape(bs: seq<Block>, b: BallState)
    ensures var s := SweepOf(bs, b);
      && OnlyDestroys(bs, s.blocks)
      && (s.allDestroyed <==> forall i :: 0 <= i < |s.blocks| ==> s.blocks[i].status != 1)
      && (s.ball.yv == b.yv || s.ball.yv == -b.yv)
  {
    SweepDestroys(bs, b);
    SweepFlag(bs, b);
    SweepSpeed(bs, b);
  }

  // ---------------------------------------------------------------------------
  // The paddle check (breakout.c:309-320)

  /** The ball after the first i iterations of the paddle check. */
  function PaddleCheck(b: BallState, px: int, py: int, len: nat, i: nat): (c: BallState)
    ensures c.yv == b.yv || c.yv == -b.yv
    ensures c.yv == b.yv ==> c.y == b.y
    ensures c.yv != b.yv ==> c.y == b.y - b.yv
  {
    if i == 0 then b
    else
      var c := PaddleCheck(b, px, py, len, i - 1);
      if c.x == px + (i - 1) && c.y == py then Deflect(c, px + len / 2) else c
  }

  /** With a moving ball the paddle check bounces the ball at most once:
      exactly when it sits on the paddle's row within its first i columns. */
  lemma {:induction false} PaddleCheckOnce(b: BallState, px: int, py: int, len: nat, i: nat)
    requires b.yv != 0
    ensures PaddleCheck(b, px, py, len, i) ==
      if b.y == py && px <= b.x < px + i then Deflect(b, px + len / 2) else b
  {
    if i > 0 {
      PaddleCheckOnce(b, px, py, len, i - 1);
    }
  }

  // ---------------------------------------------------------------------------
  // One update

  /** The result of update_game: the status it returns, the blocks and the ball. */
  datatype Outcome = Outcome(status: GameStatus, blocks: seq<Block>, ball: BallState)

  /** update_game after its cooldown check (breakout.c:262-324), on values. */
  function Update(blocks: seq<Block>, px: int, py: int, len: nat, ball: BallState, numCols: int): (u: Outcome)
    ensures |u.blocks| == |blocks|
    ensures u.status == Won ==> forall i :: 0 <= i < |u.blocks| ==> u.blocks[i].status != 1
  {
    var moved := Advance(ball, numCols);
    if moved.y >= py + 3 then Outcome(Lost, blocks, moved)
    else
      var s := SweepOf(blocks, moved);
      SweepFlag(blocks, moved);
      if s.allDestroyed then Outcome(Won, s.blocks, s.ball)
      else Outcome(Active, s.blocks, PaddleCheck(s.ball, px, py, len, len))
  }

  /** The game is lost exactly when the moved ball is three or more rows
      below the paddle, and then no block changes. */
  lemma UpdateLost(blocks: seq<Block>, px: int, py: int, len: nat, ball: BallState, numCols: int)
    ensures var u := Update(blocks, px, py, len, ball, numCols);
      && (u.status == Lost <==> Advance(ball, numCols).y >= py + 3)
      && (u.status == Lost ==> u.blocks == blocks && u.ball == Advance(ball, numCols))
  {
  }

  /** An update only destroys blocks, and the game is won exactly when it is
      not lost and no block is left standing. */
  lemma UpdateBlocks(blocks: seq<Block>, px: int, py: int, len: nat, ball: BallState, numCols: int)
    ensures var u := Update(blocks, px, py, len, ball, numCols);
      && OnlyDestroys(blocks, u.blocks)
      && (u.status == Won <==>
            Advance(ball, numCols).y < py + 3 && forall i :: 0 <= i < |u.blocks| ==> u.blocks[i].status != 1)
  {
    SweepShape(blocks, Advance(ball, numCols));
  }

  /** The ball's vertical speed never changes size: each step only negates
      it. Starting from -1, it stays 1 or -1. */
  lemma UpdateSpeed(blocks: seq<Block>, px: int, py: int, len: nat, ball: BallState, numCols: int)
    ensures var v := Update(blocks, px, py, len, ball, numCols).ball.yv;
      v == ball.yv || v == -ball.yv
  {
    var moved := Advance(ball, numCols);
    SweepShape(blocks, moved);
    var s := SweepOf(blocks, moved);
  }

  /** While the game goes on, a ball on the paddle's row within its length
      after the sweep bounces off the paddle: it steps back, turns
      vertically, and its horizontal velocity becomes its offset from the
      paddle's middle. Anywhere else it moves on unchanged. */
  lemma UpdatePaddle(blocks: seq<Block>, px: int, py: int, len: nat, ball: BallState, numCols: int)
    requires ball.yv == 1 || ball.yv == -1
    ensures var u := Update(blocks, px, py, len, ball, numCols);
      var b := SweepOf(blocks, Advance(ball, numCols)).ball;
      u.status == Active ==>
        u.ball == if b.y == py && px <= b.x < px + len then Deflect(b, px + len / 2) else b
  {
    var moved := Advance(ball, numCols);
    SweepShape(blocks, moved);
    PaddleCheckOnce(SweepOf(blocks, moved).ball, px, py, len, len);
  }

  /** The game state the loop keeps: the grid's blocks in their places,
      each standing or destroyed, and a ball moving one row per update. */
  ghost predicate Playing(blocks: seq<Block>, numCols: nat, ball: BallState)
  {
    && |blocks| == NUM_ROWS * numCols
    && (forall i :: 0 <= i < |blocks| ==>
          blocks[i] == BlockAt(i, numCols) || blocks[i] == BlockAt(i, numCols).(status := 0))
    && (ball.yv == 1 || ball.yv == -1)
  }

  /** An update keeps the game state. */
  lemma UpdatePlaying(blocks: seq<Block>, px: int, py: int, len: nat, ball: BallState, numCols: nat)
    requires Playing(blocks, numCols, ball)
    ensures var u := Update(blocks, px, py, len, ball, numCols);
      Playing(u.blocks, numCols, u.ball)
  {
    UpdateBlocks(blocks, px, py, len, ball, numCols);
    UpdateSpeed(blocks, px, py, len, ball, numCols);
  }

  /** The border handling of update_game (breakout.c:265-283), on the ball. */
  method MoveBall(ball: Ball, numCols: int)
    modifies ball
    ensures ball.State() == Advance(old(ball.State()), numCols)
  {
    ball.y := ball.y + ball.yv;
    ball.x := ball.x + ball.xv;
    if ball.y <= 0 {
      ball.yv := -ball.yv;
      ball.y := 0;
    }
    if ball.x <= 0 {
      ball.xv := -ball.xv;
      ball.x := 0;
    }
    if ball.x >= numCols {
      ball.xv := -ball.xv;
      ball.x := numCols;
    }
  }

  lemma SweepNext(bs: seq<Block>, b: BallState, i: nat)
    requires i < |bs|
    ensures SweepOf(bs[..i + 1], b) == SweepStep(SweepOf(bs[..i], b), bs[i])
  {
    assert bs[..i + 1][..i] == bs[..i];
  }

  /** The block sweep of update_game (breakout.c:288-303): destroys, in
      place, the blocks the ball runs into, and reports whether none is left. */
  method SweepBlocks(blocks: array<Block>, ball: Ball, numBlocks: nat) returns (allDestroyed: bool)
    requires numBlocks == blocks.Length
    modifies blocks, ball
    ensures SweepOf(old(blocks[..]), old(ball.State())) == Sweep(blocks[..], ball.State(), allDestroyed)
  {
    ghost var start := blocks[..];
    ghost var sweep := SweepOf(start[..0], ball.State());
    ghost var moved := ball.State();
    allDestroyed := true;
    for i := 0 to numBlocks
      invariant sweep == SweepOf(start[..i], moved)
      invariant sweep.ball == ball.State() && sweep.allDestroyed == allDestroyed
      invariant |sweep.blocks| == i && forall k :: 0 <= k < i ==> blocks[k] == sweep.blocks[k]
      invariant forall k :: i <= k < numBlocks ==> blocks[k] == start[k]
    {
      SweepNext(start, moved, i);
      sweep := SweepStep(sweep, blocks[i]);
      if blocks[i].status == 1 && blocks[i].x == ball.x && blocks[i].y == ball.y {
        blocks[i] := blocks[i].(status := 0);
        ball.StepBack();
      }
      if blocks[i].status == 1 {
        allDestroyed := false;
      }
    }
    assert start[..numBlocks] == start && blocks[..] == sweep.blocks;
  }

  /** The paddle check of update_game (breakout.c:309-320). */
  method CheckPaddle(paddle: Paddle, ball: Ball)
    modifies ball
    ensures ball.State() == PaddleCheck(old(ball.State()), paddle.x, paddle.y, paddle.length, paddle.length)
  {
    ghost var swept := ball.State();
    for i := 0 to paddle.length
      invariant ball.State() == PaddleCheck(swept, paddle.x, paddle.y, paddle.length, i)
    {
      if ball.x == paddle.x + i && ball.y == paddle.y {
        ball.StepBack();
        var middle := paddle.x + paddle.length / 2;
        ball.xv := -(middle - ball.x);
      }
    }
  }

  /** update_game after its cooldown check (breakout.c:262-324): moves the
      ball, destroys blocks in place, and reports the status. */
  method UpdateGame(blocks: array<Block>, paddle: Paddle, ball: Ball, numBlocks: nat, numCols: int)
    returns (status: GameStatus)
    requires numBlocks == blocks.Length
    modifies blocks, ball
    ensures var u := Update(old(blocks[..]), paddle.x, paddle.y, paddle.length, old(ball.State()), numCols);
      status == u.status && blocks[..] == u.blocks && ball.State() == u.ball
  {
    MoveBall(ball, numCols);
    if ball.y >= paddle.y + 3 {
      return Lost;
    }
    var allDestroyed := SweepBlocks(blocks, ball, numBlocks);
    if allDestroyed {
      return Won;
    }
    CheckPaddle(paddle, ball);
    return Active;
  }

  // ---------------------------------------------------------------------------
  // The status loop

  /** One pass of the game loop as the outside world decides it: Escape
      pressed, or a frame in which the key read (if any) and whether the two
      cooldowns have expired are given. */
  datatype Tick = Escape | Frame(key: Option<char>, paddleDue: bool, updateDue: bool)

  /** The body of the main loop while the game is active (breakout.c:113-114):
      move_paddle acts on the key only once its cooldown has expired, and
      update_game updates only once its own has, reporting ACTIVE before. */
  method PlayFrame(key: Option<char>, paddleDue: bool, updateDue: bool,
                   blocks: array<Block>, paddle: Paddle, ball: Ball, cols: nat)
    returns (status: GameStatus)
    modifies blocks, paddle, ball
    ensures paddle.x == if paddleDue then Shift(old(paddle.x), paddle.length, key, cols) else old(paddle.x)
    ensures !updateDue ==> status == Active && blocks[..] == old(blocks[..]) && ball.State() == old(ball.State())
    ensures updateDue ==>
      var u := Update(old(blocks[..]), paddle.x, paddle.y, paddle.length, old(ball.State()), cols);
      status == u.status && blocks[..] == u.blocks && ball.State() == u.ball
  {
    if paddleDue {
      paddle.Move(key, cols);
    }
    status := Active;
    if updateDue {
      status := UpdateGame(blocks, paddle, ball, blocks.Length, cols);
    }
  }

  /** breakout_run's set-up and main loop (breakout.c:96-126): lay out the
      grid for a screen `cols` wide, place the paddle and the ball, then
      until Escape: while the game is active move the paddle and update;
      once it is won or lost, leave the loop (where the closing message is
      shown). The game state is kept throughout, the paddle stays on screen
      if it started there, a win leaves no block standing and a loss leaves
      the ball below the paddle. */
  method Run(rows: nat, cols: nat, coin: bool, ticks: seq<Tick>)
    returns (status: GameStatus, blocks: array<Block>, paddle: Paddle, ball: Ball)
    ensures Playing(blocks[..], cols, ball.State())
    ensures cols >= PADDLE_LENGTH ==> 0 <= paddle.x <= cols - paddle.length
    ensures status == Won ==> forall i :: 0 <= i < blocks.Length ==> blocks[i].status == 0
    ensures status == Lost ==> ball.y >= paddle.y + 3
  {
    status := Active;
    var numBlocks := NUM_ROWS * cols;
    var numCols;
    blocks, numCols := InitBlocks(numBlocks);
    paddle := new Paddle(rows, cols);
    ball := new Ball(paddle, coin);
    assert numCols == cols;
    if cols >= PADDLE_LENGTH {
      StartInBounds(cols);
    }

    var t := 0;
    while t < |ticks| && ticks[t] != Escape
      invariant 0 <= t <= |ticks|
      invariant paddle.length == PADDLE_LENGTH && blocks.Length == numBlocks
      invariant Playing(blocks[..], cols, ball.State())
      invariant cols >= PADDLE_LENGTH ==> 0 <= paddle.x <= cols - paddle.length
      invariant status == Won ==> forall i :: 0 <= i < blocks.Length ==> blocks[i].status == 0
      invariant status == Lost ==> ball.y >= paddle.y + 3
      decreases |ticks| - t
    {
      if status != Active {
        break;
      }
      var tick := ticks[t];
      ghost var px := if tick.paddleDue then Shift(paddle.x, paddle.length, tick.key, cols) else paddle.x;
      UpdatePlaying(blocks[..], px, paddle.y, paddle.length, ball.State(), cols);
      UpdateLost(blocks[..], px, paddle.y, paddle.length, ball.State(), cols);
      UpdateBlocks(blocks[..], px, paddle.y, paddle.length, ball.State(), cols);
      status := PlayFrame(tick.key, tick.paddleDue, tick.updateDue, blocks, paddle, ball, cols);
      t := t + 1;
    }
  }
}
