/** The per-frame engine of Flappy Ado (app/flappyado/page.tsx, `gameLoop`, `flap`,
    `initGame`). The pipe list is kept in spawn order; pipes 2k and 2k+1 are the top and
    bottom pipe of one pair. The functions below describe one step each; the class `Game`
    holds the mutable state and runs them in the order the frame callback applies them. */
module FlappyEngine {
  import opened FlappyRules

  datatype Player = Player(x: real, y: real, velocity: real, rotation: real)

  datatype Pipe = Pipe(x: real, y: real, width: real, height: real, passed: bool, scored: bool)

  // ---------------------------------------------------------------------------
  // Player physics

  /** One gravity step: velocity grows by GRAVITY, y moves by the new velocity, and the
      nose tilts down by two degrees up to 90. */
  function Fall(p: Player): Player {
    var velocity := p.velocity + GRAVITY;
    var rotation := if p.rotation + ROTATION_STEP < MAX_ROTATION then p.rotation + ROTATION_STEP else MAX_ROTATION;
    Player(p.x, p.y + velocity, velocity, rotation)
  }

  /** The player's box reaches into the ground strip. */
  predicate HitsGround(p: Player, height: int) {
    p.y + PLAYER_SIZE > (height - GROUND_HEIGHT) as real
  }

  /** Without flaps the player keeps accelerating downwards: after `n` gravity steps the
      velocity has grown by `0.6 * n` and the rotation never exceeds 90. */
  function FallSteps(p: Player, n: nat): Player
    decreases n
  {
    if n == 0 then p else FallSteps(Fall(p), n - 1)
  }

  lemma {:induction false} FallStepsVelocity(p: Player, n: nat)
    requires p.rotation <= MAX_ROTATION
    ensures FallSteps(p, n).velocity == p.velocity + GRAVITY * n as real
    ensures FallSteps(p, n).x == p.x
    ensures FallSteps(p, n).rotation <= MAX_ROTATION
    decreases n
  {
    if n > 0 {
      FallStepsVelocity(Fall(p), n - 1);
    }
  }

  /** Once the velocity is at least 0.6, every further gravity step drops the player by at
      least `0.6 * (steps taken + 1)`; in particular `n` steps drop it by at least `0.6 * n`. */
  lemma {:induction false} FallStepsDescend(p: Player, n: nat)
    requires p.velocity >= 0.0
    ensures FallSteps(p, n).y >= p.y + GRAVITY * n as real
    ensures FallSteps(p, n).velocity >= p.velocity
    decreases n
  {
    if n > 0 {
      FallStepsDescend(Fall(p), n - 1);
    }
  }

  /** `n + 1` gravity steps are `n` steps followed by one more. */
  lemma {:induction false} FallStepsLast(p: Player, n: nat)
    ensures FallSteps(p, n + 1) == Fall(FallSteps(p, n))
    decreases n
  {
    if n > 0 {
      FallStepsLast(Fall(p), n - 1);
    }
  }

  /** How many gravity steps suffice to bring a player with non-negative velocity to the
      ground: the distance to the ground strip divided by the least drop per step. */
  function GroundBound(p: Player, height: int): (n: nat)
    ensures n >= 1
    ensures GRAVITY * n as real > (height - GROUND_HEIGHT) as real - PLAYER_SIZE - p.y
  {
    var distance := (height - GROUND_HEIGHT) as real - PLAYER_SIZE - p.y;
    if distance < 0.0 then 1 else (distance / GRAVITY).Floor + 1
  }

  /** The gravity step of frame `i + 1` of a player who never flaps reaches the ground. */
  predicate GroundedAt(p: Player, height: int, i: nat) {
    HitsGround(Fall(FallSteps(p, i)), height)
  }

  /** A player who never flaps ends the round: starting from a non-negative velocity there is
      a frame `k + 1`, at most `GroundBound` frames away, whose gravity step reaches the
      ground while none of the `k` frames before it did. By the contract of
      `Game.ApplyGravity`, those `k` frames each move the player one `Fall` further, and
      frame `k + 1` reports `grounded`, sets `gameOver` and clears `isPlaying`. */
  lemma NoFlapReachesGround(p: Player, height: int)
    requires p.velocity >= 0.0
    ensures exists k :: 0 <= k < GroundBound(p, height) && GroundedAt(p, height, k)
              && forall i :: 0 <= i < k ==> !GroundedAt(p, height, i)
  {
    var n := GroundBound(p, height);
    assert HitsGround(FallSteps(p, n), height) by {
      FallStepsDescend(p, n);
    }
    FallStepsLast(p, n - 1);
    assert GroundedAt(p, height, n - 1);
    FirstGroundHit(p, height, 0, n - 1);
  }

  /** Searching upwards from `j` for the first gravity step that reaches the ground, knowing
      that step `n + 1` does. */
  lemma {:induction false} FirstGroundHit(p: Player, height: int, j: nat, n: nat)
    requires j <= n && GroundedAt(p, height, n)
    requires forall i :: 0 <= i < j ==> !GroundedAt(p, height, i)
    ensures exists k :: j <= k <= n && GroundedAt(p, height, k)
              && forall i :: 0 <= i < k ==> !GroundedAt(p, height, i)
    decreases n - j
  {
    if !GroundedAt(p, height, j) {
      FirstGroundHit(p, height, j + 1, n);
    }
  }

  // ---------------------------------------------------------------------------
  // Pipe movement, culling and spawning

  function Shift(p: Pipe): Pipe {
    p.(x := p.x - PIPE_SPEED as real)
  }

  /** A pipe stays while its right edge, `x + PIPE_WIDTH`, is right of 0. */
  predicate OnScreen(p: Pipe) {
    p.x + PIPE_WIDTH > 0.0
  }

  /** `prev.map(move left).filter(on screen)`: survivors keep their order. */
  function Scroll(ps: seq<Pipe>): (r: seq<Pipe>)
    ensures |r| <= |ps|
  {
    if ps == [] then []
    else (if OnScreen(Shift(ps[0])) then [Shift(ps[0])] else []) + Scroll(ps[1..])
  }

  /** Every pipe that survives the move is on screen. */
  lemma {:induction false} ScrollOnScreen(ps: seq<Pipe>)
    ensures forall i :: 0 <= i < |Scroll(ps)| ==> OnScreen(Scroll(ps)[i])
  {
    if ps != [] {
      ScrollOnScreen(ps[1..]);
      var head := if OnScreen(Shift(ps[0])) then [Shift(ps[0])] else [];
      var tail := Scroll(ps[1..]);
      assert Scroll(ps) == head + tail;
      forall i | 0 <= i < |head + tail|
        ensures OnScreen((head + tail)[i])
      {
        if i >= |head| {
          assert (head + tail)[i] == tail[i - |head|];
        }
      }
    }
  }

  /** `Math.max(...pipes.map(p => p.x))` on a non-empty list. */
  function MaxX(ps: seq<Pipe>): (m: real)
    requires |ps| > 0
    ensures forall i :: 0 <= i < |ps| ==> ps[i].x <= m
  {
    if |ps| == 1 then ps[0].x
    else
      var rest := MaxX(ps[1..]);
      assert forall i :: 1 <= i < |ps| ==> ps[i] == ps[1..][i - 1];
      if ps[0].x >= rest then ps[0].x else rest
  }

  /** The maximum is the x of some pipe. */
  lemma {:induction false} MaxXAttained(ps: seq<Pipe>)
    requires |ps| > 0
    ensures exists i :: 0 <= i < |ps| && ps[i].x == MaxX(ps)
  {
    if |ps| == 1 {
      assert ps[0].x == MaxX(ps);
    } else {
      MaxXAttained(ps[1..]);
      var j :| 0 <= j < |ps[1..]| && ps[1..][j].x == MaxX(ps[1..]);
      if ps[0].x < MaxX(ps[1..]) {
        assert ps[j + 1] == ps[1..][j];
      } else {
        assert ps[0].x == MaxX(ps);
      }
    }
  }

  /** x of the rightmost pipe, or 0 when there is none. */
  function LastPipeX(ps: seq<Pipe>): real {
    if |ps| > 0 then MaxX(ps) else 0.0
  }

  /** A pair spawns when more than PIPE_SPAWN_RATE ms passed since the last spawn and the
      rightmost pipe is at least MIN_PIPE_DISTANCE left of the window's right edge. */
  predicate ShouldSpawn(now: real, lastPipeSpawn: real, width: nat, ps: seq<Pipe>) {
    now - lastPipeSpawn > PIPE_SPAWN_RATE && width as real - LastPipeX(ps) >= MIN_PIPE_DISTANCE
  }

  /** The two pipes spawned at the right edge for raw score `score` and random draw `r`. */
  function SpawnPair(width: nat, height: nat, score: nat, r: real): (pair: seq<Pipe>)
    ensures |pair| == 2 && Paired(pair, height)
    ensures pair[0].x == width as real && pair[1].x == width as real
    ensures pair[0].y == 0.0 && pair[1].y == pair[0].height + PipeGap(score) as real
    ensures pair[0].height + PipeGap(score) as real + pair[1].height == (height - GROUND_HEIGHT) as real
    ensures !pair[0].passed && !pair[1].passed && !pair[0].scored && !pair[1].scored
  {
    var gap := PipeGap(score);
    var top := TopPipeHeight(height, gap, r);
    var pair := [Pipe(width as real, 0.0, PIPE_WIDTH, top, false, false),
                 Pipe(width as real, top + gap as real, PIPE_WIDTH, BottomPipeHeight(height, gap, top), false, false)];
    assert pair[2..] == [];
    pair
  }

  /** With a draw in [0,1) and a window tall enough, a new top pipe is at least 50 and less
      than `height - gap - 150` high. */
  lemma SpawnPairHeights(width: nat, height: nat, score: nat, r: real)
    requires 0.0 <= r < 1.0
    requires SpawnSpan(height, PipeGap(score)) > 0
    ensures 50.0 <= SpawnPair(width, height, score, r)[0].height < (height - PipeGap(score) - 150) as real
  {
    TopPipeHeightBounds(height, PipeGap(score), r);
  }

  /** The pipe list after this frame's move/cull and optional spawn. */
  function Advanced(ps: seq<Pipe>, spawn: bool, width: nat, height: nat, score: nat, r: real): seq<Pipe> {
    Scroll(ps) + (if spawn then SpawnPair(width, height, score, r) else [])
  }

  /** The scrolling ground offset moves with the pipes and wraps every GROUND_PERIOD pixels. */
  function GroundStep(g: int): (next: int)
    requires 0 <= g < GROUND_PERIOD
    ensures next == (g + PIPE_SPEED) % GROUND_PERIOD
    ensures 0 <= next < GROUND_PERIOD
  {
    if g + PIPE_SPEED < GROUND_PERIOD then g + PIPE_SPEED else g + PIPE_SPEED - GROUND_PERIOD
  }

  // ---------------------------------------------------------------------------
  // Collision and scoring

  /** Strict axis-aligned overlap of the player's box with a pipe. */
  predicate Overlaps(pl: Player, p: Pipe) {
    pl.x < p.x + p.width && pl.x + PLAYER_SIZE > p.x &&
    pl.y < p.y + p.height && pl.y + PLAYER_SIZE > p.y
  }

  /** How many pipes the player's box overlaps: `handleGameOver` runs once for each. */
  function CountOverlaps(ps: seq<Pipe>, pl: Player): (n: nat)
    ensures n <= |ps|
  {
    if ps == [] then 0 else (if Overlaps(pl, ps[0]) then 1 else 0) + CountOverlaps(ps[1..], pl)
  }

  /** The game-over handler runs at least once for the pipes exactly when some pipe overlaps
      the player. */
  lemma {:induction false} CountOverlapsPositive(ps: seq<Pipe>, pl: Player)
    ensures CountOverlaps(ps, pl) > 0 <==> exists i :: 0 <= i < |ps| && Overlaps(pl, ps[i])
  {
    if ps != [] {
      CountOverlapsPositive(ps[1..], pl);
      assert forall i :: 1 <= i < |ps| ==> ps[i] == ps[1..][i - 1];
    }
  }

  /** `passed` becomes true once the pipe's right edge is left of the player's x. */
  function PassCheck(p: Pipe, playerX: real): Pipe {
    if !p.passed && p.x + p.width < playerX then p.(passed := true) else p
  }

  function MarkPassed(ps: seq<Pipe>, playerX: real): (r: seq<Pipe>)
    ensures |r| == |ps|
  {
    if ps == [] then [] else [PassCheck(ps[0], playerX)] + MarkPassed(ps[1..], playerX)
  }

  /** The passed pass sets `passed` on exactly the pipes whose right edge is left of the
      player, keeps it where it was set, and changes nothing else. */
  lemma {:induction false} MarkPassedAt(ps: seq<Pipe>, playerX: real)
    ensures forall i :: 0 <= i < |ps| ==>
              MarkPassed(ps, playerX)[i] == ps[i].(passed := ps[i].passed || ps[i].x + ps[i].width < playerX)
  {
    if ps != [] {
      MarkPassedAt(ps[1..], playerX);
      assert forall i :: 1 <= i < |ps| ==> ps[i] == ps[1..][i - 1];
    }
  }

  /** A pair scores when both pipes are passed and neither has scored yet. */
  predicate Eligible(top: Pipe, bottom: Pipe) {
    top.passed && bottom.passed && !top.scored && !bottom.scored
  }

  function ScorePair(top: Pipe, bottom: Pipe): seq<Pipe> {
    if Eligible(top, bottom) then [top.(scored := true), bottom.(scored := true)] else [top, bottom]
  }

  /** The pipe list after the pair-scoring pass: every eligible pair is marked scored. A
      trailing unpaired pipe (never present, see `Paired`) would be left alone. */
  function ScorePairs(ps: seq<Pipe>): seq<Pipe>
    decreases |ps|
  {
    if |ps| < 2 then ps else ScorePair(ps[0], ps[1]) + ScorePairs(ps[2..])
  }

  /** The number of pairs the scoring pass awards a point to. */
  function Eligibles(ps: seq<Pipe>): nat
    decreases |ps|
  {
    if |ps| < 2 then 0 else (if Eligible(ps[0], ps[1]) then 1 else 0) + Eligibles(ps[2..])
  }

  // ---------------------------------------------------------------------------
  // The pair invariant

  /** The shape of a live pair: shared x and width, top pipe hanging from y = 0, bottom pipe
      standing on the ground, a gap between MIN_PIPE_GAP and BASE_PIPE_GAP, and flags that
      change together. */
  predicate PairOk(top: Pipe, bottom: Pipe, height: int) {
    && top.x == bottom.x && top.width == PIPE_WIDTH && bottom.width == PIPE_WIDTH
    && top.y == 0.0
    && bottom.y + bottom.height == (height - GROUND_HEIGHT) as real
    && MIN_PIPE_GAP as real <= bottom.y - top.height <= BASE_PIPE_GAP as real
    && top.passed == bottom.passed && top.scored == bottom.scored
    && (top.scored ==> top.passed)
  }

  /** The list is a sequence of well-formed pairs. */
  predicate Paired(ps: seq<Pipe>, height: int)
    decreases |ps|
  {
    if |ps| == 0 then true else |ps| >= 2 && PairOk(ps[0], ps[1], height) && Paired(ps[2..], height)
  }

  /** Index view of `Paired`: an even-length list whose pipes 2k, 2k+1 form a pair, so that
      top height + gap + bottom height is the playfield height. */
  lemma {:induction false} PairedAt(ps: seq<Pipe>, height: int, k: nat)
    requires Paired(ps, height)
    requires 2 * k < |ps|
    ensures |ps| % 2 == 0 && 2 * k + 1 < |ps|
    ensures PairOk(ps[2 * k], ps[2 * k + 1], height)
    ensures ps[2 * k].height + (ps[2 * k + 1].y - ps[2 * k].height) + ps[2 * k + 1].height
            == (height - GROUND_HEIGHT) as real
    decreases |ps|
  {
    if k > 0 {
      PairedAt(ps[2..], height, k - 1);
    } else {
      PairedEven(ps, height);
    }
  }

  lemma {:induction false} PairedEven(ps: seq<Pipe>, height: int)
    requires Paired(ps, height)
    ensures |ps| % 2 == 0
    decreases |ps|
  {
    if |ps| > 0 {
      PairedEven(ps[2..], height);
    }
  }

  lemma {:induction false} PairedAppend(a: seq<Pipe>, b: seq<Pipe>, height: int)
    requires Paired(a, height) && Paired(b, height)
    ensures Paired(a + b, height)
    decreases |a|
  {
    if |a| > 0 {
      PairedAppend(a[2..], b, height);
      assert (a + b)[2..] == a[2..] + b;
    } else {
      assert a + b == b;
    }
  }

  /** Both pipes of a pair share x, so moving and culling keeps or drops them together and the
      surviving list is still made of whole pairs. */
  lemma {:induction false} ScrollKeepsPairs(ps: seq<Pipe>, height: int)
    requires Paired(ps, height)
    ensures Paired(Scroll(ps), height)
    decreases |ps|
  {
    if |ps| > 0 {
      ScrollKeepsPairs(ps[2..], height);
      assert ps[1..][1..] == ps[2..];
      var a, b := Shift(ps[0]), Shift(ps[1]);
      assert Scroll(ps) == (if OnScreen(a) then [a] else []) + ((if OnScreen(b) then [b] else []) + Scroll(ps[2..]));
      if OnScreen(a) {
        assert Scroll(ps) == [a, b] + Scroll(ps[2..]);
        assert Scroll(ps)[2..] == Scroll(ps[2..]);
      } else {
        assert Scroll(ps) == Scroll(ps[2..]);
      }
    }
  }

  lemma {:induction false} MarkPassedKeepsPairs(ps: seq<Pipe>, height: int, playerX: real)
    requires Paired(ps, height)
    ensures Paired(MarkPassed(ps, playerX), height)
    decreases |ps|
  {
    if |ps| > 0 {
      MarkPassedKeepsPairs(ps[2..], height, playerX);
      assert ps[1..][1..] == ps[2..];
      var r := MarkPassed(ps, playerX);
      assert MarkPassed(ps[1..], playerX) == [PassCheck(ps[1], playerX)] + MarkPassed(ps[2..], playerX);
      assert r == [PassCheck(ps[0], playerX)] + ([PassCheck(ps[1], playerX)] + MarkPassed(ps[2..], playerX));
      assert r[2..] == MarkPassed(ps[2..], playerX);
    }
  }

  lemma {:induction false} ScorePairsKeepsPairs(ps: seq<Pipe>, height: int)
    requires Paired(ps, height)
    ensures Paired(ScorePairs(ps), height)
    decreases |ps|
  {
    if |ps| > 0 {
      ScorePairsKeepsPairs(ps[2..], height);
      assert ScorePairs(ps)[2..] == ScorePairs(ps[2..]);
    }
  }

  /** The move, cull and spawn of one frame keep the list made of well-formed pairs. */
  lemma AdvancedKeepsPairs(ps: seq<Pipe>, spawn: bool, width: nat, height: nat, score: nat, r: real)
    requires Paired(ps, height)
    ensures Paired(Advanced(ps, spawn, width, height, score, r), height)
  {
    ScrollKeepsPairs(ps, height);
    if spawn {
      PairedAppend(Scroll(ps), SpawnPair(width, height, score, r), height);
    } else {
      assert Advanced(ps, spawn, width, height, score, r) == Scroll(ps);
    }
  }

  // ---------------------------------------------------------------------------
  // Properties of the scoring pass

  /** Scoring a prefix of whole pairs and then the rest is scoring the whole list. */
  lemma {:induction false} ScorePairsAppend(a: seq<Pipe>, b: seq<Pipe>)
    requires |a| % 2 == 0
    ensures ScorePairs(a + b) == ScorePairs(a) + ScorePairs(b)
    ensures Eligibles(a + b) == Eligibles(a) + Eligibles(b)
    decreases |a|
  {
    if |a| == 0 {
      assert a + b == b;
    } else {
      var ab := a + b;
      assert ab[0] == a[0] && ab[1] == a[1] && ab[2..] == a[2..] + b;
      ScorePairsAppend(a[2..], b);
      calc {
        ScorePairs(ab);
        ScorePair(a[0], a[1]) + ScorePairs(a[2..] + b);
        ScorePair(a[0], a[1]) + (ScorePairs(a[2..]) + ScorePairs(b));
        (ScorePair(a[0], a[1]) + ScorePairs(a[2..])) + ScorePairs(b);
        ScorePairs(a) + ScorePairs(b);
      }
      var point := if Eligible(a[0], a[1]) then 1 else 0;
      calc {
        Eligibles(ab);
        point + Eligibles(a[2..] + b);
        point + Eligibles(a[2..]) + Eligibles(b);
        Eligibles(a) + Eligibles(b);
      }
    }
  }

  /** One step of the scoring pass over the pair at `i`, when the pairs before it are
      scored and the rest of the list is as it was. */
  lemma AwardStep(start: seq<Pipe>, k: nat, ps: seq<Pipe>)
    requires 2 * k + 2 <= |start|
    requires ps == ScorePairs(start[..2 * k]) + start[2 * k..]
    ensures var i := 2 * k;
            && |ps| == |start| && ps[i] == start[i] && ps[i + 1] == start[i + 1]
            && (Eligible(start[i], start[i + 1]) ==>
                  ps[i := start[i].(scored := true)][i + 1 := start[i + 1].(scored := true)]
                  == ScorePairs(start[..i + 2]) + start[i + 2..])
            && (!Eligible(start[i], start[i + 1]) ==> ps == ScorePairs(start[..i + 2]) + start[i + 2..])
            && Eligibles(start[..i + 2]) == Eligibles(start[..i]) + (if Eligible(start[i], start[i + 1]) then 1 else 0)
  {
    var i := 2 * k;
    var done := ScorePairs(start[..i]);
    var tail := start[i + 2..];
    assert ps == done + [start[i], start[i + 1]] + tail by {
      assert start[i..] == [start[i], start[i + 1]] + tail;
    }
    var top, bottom := start[i].(scored := true), start[i + 1].(scored := true);
    ReplacePair(done, start[i], start[i + 1], top, bottom, tail);
    ScorePairsStep(start, i);
  }

  /** Overwriting the two pipes after `done`. */
  lemma ReplacePair(done: seq<Pipe>, a: Pipe, b: Pipe, x: Pipe, y: Pipe, tail: seq<Pipe>)
    ensures var s := done + [a, b] + tail;
            && s[|done|] == a && s[|done| + 1] == b
            && s[|done| := x][|done| + 1 := y] == done + [x, y] + tail
  {
    var s := done + [a, b] + tail;
    var t := s[|done| := x][|done| + 1 := y];
    var u := done + [x, y] + tail;
    assert |t| == |u|;
    forall j | 0 <= j < |t|
      ensures t[j] == u[j]
    {
      if j < |done| {
        assert t[j] == s[j] == done[j] == u[j];
      } else if j >= |done| + 2 {
        assert t[j] == s[j] == tail[j - |done| - 2] == u[j];
      }
    }
  }

  /** Extending a scored prefix of whole pairs by the next pair. */
  lemma ScorePairsStep(ps: seq<Pipe>, i: nat)
    requires i % 2 == 0 && i + 2 <= |ps|
    ensures ScorePairs(ps[..i + 2]) == ScorePairs(ps[..i]) + ScorePair(ps[i], ps[i + 1])
    ensures Eligibles(ps[..i + 2]) == Eligibles(ps[..i]) + (if Eligible(ps[i], ps[i + 1]) then 1 else 0)
    ensures |ScorePairs(ps[..i])| == i
  {
    var pair := ps[i..i + 2];
    ScorePairsAppend(ps[..i], pair);
    assert ps[..i + 2] == ps[..i] + pair;
    assert pair[2..] == [];
    ScorePairsOnlyMarks(ps[..i]);
  }

  /** The pass keeps every pipe's position, size and `passed` flag, and only ever sets
      `scored`. */
  lemma {:induction false} ScorePairsOnlyMarks(ps: seq<Pipe>)
    ensures |ScorePairs(ps)| == |ps|
    ensures forall i :: 0 <= i < |ps| ==>
              ScorePairs(ps)[i] == ps[i].(scored := ScorePairs(ps)[i].scored)
              && (ps[i].scored ==> ScorePairs(ps)[i].scored)
    decreases |ps|
  {
    if |ps| >= 2 {
      ScorePairsOnlyMarks(ps[2..]);
      var r := ScorePairs(ps);
      assert r[2..] == ScorePairs(ps[2..]);
      forall i | 2 <= i < |ps| ensures r[i] == ps[i].(scored := r[i].scored) && (ps[i].scored ==> r[i].scored) {
        assert r[i] == ScorePairs(ps[2..])[i - 2] && ps[i] == ps[2..][i - 2];
      }
    }
  }

  /** After the pass no pair is eligible any more, so running it again awards nothing and
      changes nothing: a pair never scores twice. */
  lemma {:induction false} ScorePairsExhausts(ps: seq<Pipe>)
    ensures Eligibles(ScorePairs(ps)) == 0
    ensures ScorePairs(ScorePairs(ps)) == ScorePairs(ps)
    decreases |ps|
  {
    if |ps| >= 2 {
      ScorePairsExhausts(ps[2..]);
      var head := ScorePair(ps[0], ps[1]);
      assert ScorePairs(ps) == head + ScorePairs(ps[2..]);
      ScorePairsAppend(head, ScorePairs(ps[2..]));
      assert ScorePairs(head) == head && Eligibles(head) == 0 by {
        assert head[2..] == [];
      }
    }
  }

  /** At most one point per pair, never one per pipe. */
  lemma {:induction false} EligiblesAtMostOnePerPair(ps: seq<Pipe>)
    ensures Eligibles(ps) <= |ps| / 2
    decreases |ps|
  {
    if |ps| >= 2 {
      EligiblesAtMostOnePerPair(ps[2..]);
    }
  }

  /** Both pipes of a fresh pair passed in the same frame: the raw score grows by exactly 1. */
  lemma PassedPairScoresOne(top: Pipe, bottom: Pipe)
    requires top.passed && bottom.passed && !top.scored && !bottom.scored
    ensures Eligibles([top, bottom]) == 1
    ensures ScorePairs([top, bottom]) == [top.(scored := true), bottom.(scored := true)]
  {
    assert [top, bottom][2..] == [];
  }

  /** `passed` never reverts, and a pair's pipes become passed together. */
  lemma PassedIsSticky(ps: seq<Pipe>, height: int, playerX: real, k: nat)
    requires Paired(ps, height) && 2 * k + 1 < |ps|
    ensures ps[2 * k].passed ==> MarkPassed(ps, playerX)[2 * k].passed
    ensures MarkPassed(ps, playerX)[2 * k].passed == MarkPassed(ps, playerX)[2 * k + 1].passed
  {
    PairedAt(ps, height, k);
    MarkPassedAt(ps, playerX);
  }

  // ---------------------------------------------------------------------------
  // The game

  /** Starting position of the player: a third of the window across, half-way down. */
  function StartPlayer(width: nat, height: nat): Player {
    Player(width as real / 3.0, height as real / 2.0, 0.0, 0.0)
  }

  class Game {
    /** `window.innerWidth` and `window.innerHeight`. */
    const width: nat
    const height: nat

    var player: Player
    var pipes: seq<Pipe>
    var ground: int
    var lastPipeSpawn: real
    /** Raw score: one per passed pair. */
    var score: nat
    var highScore: int
    var isPlaying: bool
    var gameOver: bool
    /** Flaps per second at the last flap, and the time of that flap. */
    var clickSpeed: real
    var lastClickTime: int

    ghost predicate Valid()
      reads this
    {
      && Paired(pipes, height)
      && player.x == width as real / 3.0
      && 0 <= ground < GROUND_PERIOD
      && !(isPlaying && gameOver)
    }

    /** The page after mounting: player placed from the window size, no round running. */
    constructor (innerWidth: nat, innerHeight: nat)
      ensures Valid()
      ensures width == innerWidth && height == innerHeight
      ensures player == StartPlayer(innerWidth, innerHeight)
      ensures pipes == [] && ground == 0 && lastPipeSpawn == INITIAL_LAST_SPAWN
      ensures score == 0 && highScore == 0 && !isPlaying && !gameOver
      ensures clickSpeed == 0.0 && lastClickTime == 0
    {
      width, height := innerWidth, innerHeight;
      player := StartPlayer(innerWidth, innerHeight);
      pipes := [];
      ground := 0;
      lastPipeSpawn := INITIAL_LAST_SPAWN;
      score, highScore := 0, 0;
      isPlaying, gameOver := false, false;
      clickSpeed, lastClickTime := 0.0, 0;
    }

    /** `initGame`: a fresh round; the high score survives. */
    method InitGame()
      requires Valid()
      modifies this
      ensures Valid()
      ensures player == StartPlayer(width, height)
      ensures pipes == [] && ground == 0 && lastPipeSpawn == INITIAL_LAST_SPAWN
      ensures score == 0 && isPlaying && !gameOver
      ensures highScore == old(highScore)
      ensures clickSpeed == old(clickSpeed) && lastClickTime == old(lastClickTime)
    {
      player := StartPlayer(width, height);
      pipes := [];
      ground := 0;
      lastPipeSpawn := INITIAL_LAST_SPAWN;
      isPlaying, score, gameOver := true, 0, false;
    }

    /** `flap` at time `now` (ms): outside a running round nothing happens; otherwise the
        velocity is set to FLAP_FORCE, the nose tilts up, and the flap cadence is measured. */
    method Flap(now: int)
      requires Valid()
      modifies this
      ensures Valid()
      ensures !old(isPlaying && !gameOver) ==> unchanged(this)
      ensures old(isPlaying && !gameOver) ==>
                && player == old(player).(velocity := FLAP_FORCE, rotation := FLAP_ROTATION)
                && clickSpeed == (if now - old(lastClickTime) > 0
                                  then ClicksPerSecond(now - old(lastClickTime)) else old(clickSpeed))
                && lastClickTime == now
      ensures pipes == old(pipes) && score == old(score) && ground == old(ground)
      ensures lastPipeSpawn == old(lastPipeSpawn) && highScore == old(highScore)
      ensures isPlaying == old(isPlaying) && gameOver == old(gameOver)
    {
      if !isPlaying || gameOver {
        return;
      }
      player := player.(velocity := FLAP_FORCE, rotation := FLAP_ROTATION);
      var timeDiff := now - lastClickTime;
      if timeDiff > 0 {
        clickSpeed := ClicksPerSecond(timeDiff);
      }
      lastClickTime := now;
    }

    /** The pair-scoring pass: walk the list two pipes at a time and, for each pair whose
        pipes are both passed and not yet scored, mark both scored and add one point. */
    method AwardPairs()
      requires |pipes| % 2 == 0
      modifies this`pipes, this`score
      ensures pipes == ScorePairs(old(pipes))
      ensures score == old(score) + Eligibles(old(pipes))
    {
      ghost var start, pairs := pipes, |pipes| / 2;
      ghost var k := 0;
      var i := 0;
      while i < |pipes|
        invariant 0 <= k <= pairs && i == 2 * k && |pipes| == |start| == 2 * pairs
        invariant pipes == ScorePairs(start[..i]) + start[i..]
        invariant score == old(score) + Eligibles(start[..i])
      {
        AwardStep(start, k, pipes);
        if i + 1 < |pipes| {
          var top, bottom := pipes[i], pipes[i + 1];
          if top.passed && bottom.passed && !top.scored && !bottom.scored {
            pipes := pipes[i := top.(scored := true)][i + 1 := bottom.(scored := true)];
            score := score + 1;
          }
        }
        i, k := i + 2, k + 1;
      }
      assert start[..i] == start;
    }

    /** The player update of a frame: gravity, and on reaching the ground the round ends and
        the player stays where it was. */
    method ApplyGravity() returns (grounded: bool)
      requires Valid() && isPlaying && !gameOver
      modifies this`player, this`gameOver, this`isPlaying
      ensures Valid()
      ensures grounded == HitsGround(Fall(old(player)), height)
      ensures player == (if grounded then old(player) else Fall(old(player)))
      ensures gameOver == grounded && isPlaying == !grounded
    {
      var fallen := Fall(player);
      grounded := HitsGround(fallen, height);
      if grounded {
        gameOver, isPlaying := true, false;
      } else {
        player := fallen;
      }
    }

    /** The pipe move/cull of a frame and, when due, the spawn of a pair decided on the list
        and raw score from before the move. */
    method AdvancePipes(now: real, r: real)
      requires Valid()
      modifies this`pipes, this`lastPipeSpawn
      ensures Valid()
      ensures var spawn := ShouldSpawn(now, old(lastPipeSpawn), width, old(pipes));
              && pipes == Advanced(old(pipes), spawn, width, height, score, r)
              && lastPipeSpawn == (if spawn then now else old(lastPipeSpawn))
    {
      var spawn := now - lastPipeSpawn > PIPE_SPAWN_RATE
                   && width as real - LastPipeX(pipes) >= MIN_PIPE_DISTANCE;
      AdvancedKeepsPairs(pipes, spawn, width, height, score, r);
      pipes := Advanced(pipes, spawn, width, height, score, r);
      if spawn {
        lastPipeSpawn := now;
      }
    }

    /** The collision and passed test of a frame against the player `before` this frame's
        gravity step. Returns the number of overlapping pipes. */
    method CheckPipes(before: Player) returns (hits: nat)
      requires Valid() && before.x == player.x
      modifies this`pipes, this`gameOver, this`isPlaying
      ensures Valid()
      ensures hits == CountOverlaps(old(pipes), before)
      ensures pipes == MarkPassed(old(pipes), before.x)
      ensures gameOver == (old(gameOver) || hits > 0)
      ensures isPlaying == (old(isPlaying) && hits == 0)
    {
      hits := CountOverlaps(pipes, before);
      if hits > 0 {
        gameOver, isPlaying := true, false;
      }
      MarkPassedKeepsPairs(pipes, height, before.x);
      pipes := MarkPassed(pipes, before.x);
    }

    /** The running-round part of a frame. */
    method Frame(now: real, r: real) returns (gameOverCalls: nat)
      requires Valid() && isPlaying && !gameOver
      modifies this`player, this`pipes, this`lastPipeSpawn, this`score, this`gameOver, this`isPlaying, this`ground
      ensures Valid()
      ensures var grounded := HitsGround(Fall(old(player)), height);
              var spawn := ShouldSpawn(now, old(lastPipeSpawn), width, old(pipes));
              var live := Advanced(old(pipes), spawn, width, height, old(score), r);
              var hits := CountOverlaps(live, old(player));
              && player == (if grounded then old(player) else Fall(old(player)))
              && lastPipeSpawn == (if spawn then now else old(lastPipeSpawn))
              && pipes == ScorePairs(MarkPassed(live, old(player).x))
              && score == old(score) + Eligibles(MarkPassed(live, old(player).x))
              && gameOver == (grounded || hits > 0)
              && isPlaying == !gameOver
              && gameOverCalls == (if grounded then 1 else 0) + hits
              && ground == (old(ground) + PIPE_SPEED) % GROUND_PERIOD
    {
      var before := player;
      var grounded := ApplyGravity();
      AdvancePipes(now, r);
      var hits := CheckPipes(before);
      PairedEven(pipes, height);
      ScorePairsKeepsPairs(pipes, height);
      AwardPairs();
      ground := GroundStep(ground);
      gameOverCalls := (if grounded then 1 else 0) + hits;
    }

    /** One animation frame at time `now` with random draw `r`. Returns how many times the
        frame invoked the game-over handler: once for hitting the ground and once per
        overlapping pipe, so possibly more than once.
        As in the frame callback, the spawn decision looks at the pipes and score from before
        this frame, and the collision and passed tests use the player from before this
        frame's gravity step; a pair spawned in this frame is already tested. */
    method Tick(now: real, r: real) returns (gameOverCalls: nat)
      requires Valid()
      modifies this`player, this`pipes, this`lastPipeSpawn, this`score, this`gameOver, this`isPlaying, this`ground
      ensures Valid()
      ensures !old(isPlaying && !gameOver) ==> unchanged(this) && gameOverCalls == 0
      ensures old(isPlaying && !gameOver) ==>
                var grounded := HitsGround(Fall(old(player)), height);
                var spawn := ShouldSpawn(now, old(lastPipeSpawn), width, old(pipes));
                var live := Advanced(old(pipes), spawn, width, height, old(score), r);
                var hits := CountOverlaps(live, old(player));
                && player == (if grounded then old(player) else Fall(old(player)))
                && lastPipeSpawn == (if spawn then now else old(lastPipeSpawn))
                && pipes == ScorePairs(MarkPassed(live, old(player).x))
                && score == old(score) + Eligibles(MarkPassed(live, old(player).x))
                && gameOver == (grounded || hits > 0)
                && isPlaying == !gameOver
                && gameOverCalls == (if grounded then 1 else 0) + hits
                && ground == (old(ground) + PIPE_SPEED) % GROUND_PERIOD
      ensures highScore == old(highScore)
      ensures clickSpeed == old(clickSpeed) && lastClickTime == old(lastClickTime)
    {
      if !isPlaying || gameOver {
        return 0;
      }
      gameOverCalls := Frame(now, r);
    }

    /** The effect that lifts the high score to the running raw score. */
    method SyncHighScore()
      requires Valid()
      modifies this`highScore
      ensures Valid()
      ensures highScore == if score > old(highScore) then score else old(highScore)
    {
      if score > highScore {
        highScore := score;
      }
    }

    /** Loading the leaderboard: the best listed raw score becomes the high score. */
    method AdoptGlobalHighScore(topScores: seq<int>)
      requires Valid()
      modifies this`highScore
      ensures Valid()
      ensures highScore == if |topScores| > 0 then topScores[0] else old(highScore)
    {
      if |topScores| > 0 {
        highScore := topScores[0];
      }
    }
  }
}
