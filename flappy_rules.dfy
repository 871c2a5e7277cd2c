/** Pure rules of the Flappy Ado game (app/flappyado/page.tsx): the game constants, the
    difficulty ramp of the pipe gap, the height of a freshly spawned pipe pair, the mapping
    from flap cadence to music pitch and volume, the leaderboard rank shown to a returning
    player, and the split between the raw score (stored) and the halved score (shown). */
module FlappyRules {
  import opened Strings

  const GRAVITY: real := 0.6
  const FLAP_FORCE: real := -8.0
  const FLAP_ROTATION: real := -20.0
  const MAX_ROTATION: real := 90.0
  const ROTATION_STEP: real := 2.0
  const PIPE_SPEED: int := 2
  const PIPE_SPAWN_RATE: real := 100.0
  const BASE_PIPE_GAP: int := 280
  const GAP_SHRINK_RATE: int := 3
  const GROUND_HEIGHT: int := 100
  const PLAYER_SIZE: real := 80.0
  const PIPE_WIDTH: real := 60.0
  const MIN_PIPE_GAP: int := 220
  const MIN_PIPE_DISTANCE: real := 200.0
  /** lastPipeSpawn right after a (re)start. */
  const INITIAL_LAST_SPAWN: real := -5000.0
  /** The ground pattern wraps every 50 pixels. */
  const GROUND_PERIOD: int := 50

  // ---------------------------------------------------------------------------
  // Difficulty ramp

  /** `Math.max(MIN_PIPE_GAP, BASE_PIPE_GAP - score * 3)` for the raw score. */
  function PipeGap(score: nat): (gap: int)
    ensures MIN_PIPE_GAP <= gap <= BASE_PIPE_GAP
    ensures gap == BASE_PIPE_GAP <==> score == 0
  {
    if BASE_PIPE_GAP - score * GAP_SHRINK_RATE < MIN_PIPE_GAP then MIN_PIPE_GAP
    else BASE_PIPE_GAP - score * GAP_SHRINK_RATE
  }

  /** A higher score never widens the gap. */
  lemma PipeGapNonIncreasing(s1: nat, s2: nat)
    requires s1 <= s2
    ensures PipeGap(s2) <= PipeGap(s1)
  {
  }

  /** Below the floor every scored pair narrows the gap by exactly three pixels; from a raw
      score of 20 on, the gap stays at its minimum. */
  lemma PipeGapRamp(score: nat)
    ensures score < 20 ==> PipeGap(score + 1) == PipeGap(score) - 3
    ensures score >= 20 ==> PipeGap(score) == MIN_PIPE_GAP
  {
  }

  // ---------------------------------------------------------------------------
  // Pipe pair geometry

  /** Vertical room left for the random part of the top pipe's height. */
  function SpawnSpan(height: int, gap: int): int {
    height - GROUND_HEIGHT - gap - 100
  }

  /** `Math.random() * (innerHeight - GROUND_HEIGHT - gap - 100) + 50`, with `r` the random draw. */
  function TopPipeHeight(height: int, gap: int, r: real): real {
    r * SpawnSpan(height, gap) as real + 50.0
  }

  /** The bottom pipe fills the rest of the playfield below the gap. */
  function BottomPipeHeight(height: int, gap: int, top: real): real {
    height as real - GROUND_HEIGHT as real - top - gap as real
  }

  /** For a draw in [0,1) on a window tall enough for a positive span, the top pipe is at
      least 50 high and ends more than `gap + 150` above the bottom of the window, so the
      bottom pipe is more than 50 high. On a shorter window the span is negative and the
      top height falls in (span + 50, 50]. */
  lemma TopPipeHeightBounds(height: int, gap: int, r: real)
    requires 0.0 <= r < 1.0
    ensures SpawnSpan(height, gap) > 0 ==>
              50.0 <= TopPipeHeight(height, gap, r) < (height - gap - 150) as real
              && BottomPipeHeight(height, gap, TopPipeHeight(height, gap, r)) > 50.0
    ensures SpawnSpan(height, gap) <= 0 ==>
              (SpawnSpan(height, gap) + 50) as real < TopPipeHeight(height, gap, r) <= 50.0
                || (SpawnSpan(height, gap) == 0 && TopPipeHeight(height, gap, r) == 50.0)
  {
    var span := SpawnSpan(height, gap) as real;
    var top := TopPipeHeight(height, gap, r);
    assert top == r * span + 50.0;
    if span > 0.0 {
      ScaledDrawBelow(r, span);
    } else if span < 0.0 {
      ScaledDrawAbove(r, span);
    } else {
      assert r * span == 0.0;
    }
  }

  lemma ScaledDrawBelow(r: real, span: real)
    requires 0.0 <= r < 1.0 && span > 0.0
    ensures 0.0 <= r * span < span
  {
    assert span - r * span == (1.0 - r) * span;
  }

  lemma ScaledDrawAbove(r: real, span: real)
    requires 0.0 <= r < 1.0 && span < 0.0
    ensures span < r * span <= 0.0
  {
    assert r * span - span == (1.0 - r) * (-span);
    assert r * span == -(r * (-span));
  }

  /** Whatever the draw, the two heights and the gap fill the playfield above the ground. */
  lemma PairFillsPlayfield(height: int, gap: int, r: real)
    ensures TopPipeHeight(height, gap, r) + gap as real
              + BottomPipeHeight(height, gap, TopPipeHeight(height, gap, r))
            == (height - GROUND_HEIGHT) as real
  {
  }

  // ---------------------------------------------------------------------------
  // Audio reactivity

  /** `1000 / timeDiff`: flaps per second, computed only for a positive interval. */
  function ClicksPerSecond(timeDiff: int): (speed: real)
    requires timeDiff > 0
    ensures 0.0 < speed <= 1000.0
    ensures timeDiff as real * speed == 1000.0
  {
    1000.0 / timeDiff as real
  }

  /** The six-band step function from flap cadence to pitch multiplier. */
  function SpeedFactor(speed: real): (factor: real)
    ensures 0.3 <= factor <= 2.0
    ensures factor == 0.3 <==> speed <= 0.5
    ensures factor == 2.0 <==> speed > 4.0
  {
    if speed <= 0.5 then 0.3
    else if speed <= 1.0 then 0.5
    else if speed <= 2.0 then 0.8
    else if speed <= 3.0 then 1.2
    else if speed <= 4.0 then 1.6
    else 2.0
  }

  /** Faster flapping never lowers the pitch. */
  lemma SpeedFactorMonotone(a: real, b: real)
    requires a <= b
    ensures SpeedFactor(a) <= SpeedFactor(b)
  {
  }

  /** `Math.max(0.1, 1.0 - speed / 8)`. */
  function VolumeFactor(speed: real): (v: real)
    ensures v >= 0.1
    ensures speed >= 0.0 ==> v <= 1.0
    ensures speed >= 7.2 <==> v == 0.1
  {
    if 1.0 - speed / 8.0 < 0.1 then 0.1 else 1.0 - speed / 8.0
  }

  /** Faster flapping never raises the volume. */
  lemma VolumeFactorNonIncreasing(a: real, b: real)
    requires a <= b
    ensures VolumeFactor(b) <= VolumeFactor(a)
  {
  }

  /** Cut-off frequency of the low-pass filter: `2000 * basePitch * speedFactor`. */
  function FilterCutoff(speed: real): (hz: real)
    ensures 600.0 <= hz <= 4000.0
  {
    2000.0 * 1.0 * SpeedFactor(speed)
  }

  /** Gain of the music: `0.4 * volumeFactor`. */
  function MusicGain(speed: real): (g: real)
    ensures g >= 0.04
    ensures speed >= 0.0 ==> g <= 0.4
  {
    0.4 * VolumeFactor(speed)
  }

  /** Flap cadence in milliseconds: two flaps less than 250 ms apart (more than four per
      second) reach the top pitch band, and at most 138 ms apart (at least 7.2 per second)
      put the volume at its floor; slower flapping reaches neither. */
  lemma FastFlapping(timeDiff: int)
    requires timeDiff > 0
    ensures SpeedFactor(ClicksPerSecond(timeDiff)) == 2.0 <==> timeDiff < 250
    ensures VolumeFactor(ClicksPerSecond(timeDiff)) == 0.1 <==> timeDiff <= 138
  {
    var t := timeDiff as real;
    var speed := ClicksPerSecond(timeDiff);
    CadenceThreshold(t, speed, 4.0);
    CadenceThreshold(t, speed, 7.2);
  }

  /** With `t * speed == 1000` for a positive interval `t`, the rate passes a threshold `c`
      exactly when `c * t` stays below 1000. */
  lemma CadenceThreshold(t: real, speed: real, c: real)
    requires t > 0.0 && t * speed == 1000.0
    ensures speed > c <==> c * t < 1000.0
    ensures speed >= c <==> c * t <= 1000.0
  {
    var x := speed - c;
    assert t * x == 1000.0 - c * t;
    if x > 0.0 {
      assert t * x > 0.0;
    } else if x < 0.0 {
      assert t * x < 0.0;
    }
  }

  // ---------------------------------------------------------------------------
  // Leaderboard rank and the raw/display split

  /** `scores.findIndex(s => s <= best)`: the first position whose score does not exceed
      `best`, or -1. */
  function FindIndexAtMost(scores: seq<int>, best: int): (i: int)
    ensures -1 <= i < |scores|
    ensures i == -1 <==> forall j :: 0 <= j < |scores| ==> scores[j] > best
    ensures i >= 0 ==> scores[i] <= best && forall j :: 0 <= j < i ==> scores[j] > best
  {
    if |scores| == 0 then -1
    else if scores[0] <= best then 0
    else
      var k := FindIndexAtMost(scores[1..], best);
      if k == -1 then -1 else k + 1
  }

  /** `calculatePlayerRank`: 0 for a new player or an empty personal best; otherwise the
      1-based position the personal best would take among the listed top scores. */
  function PlayerRank(hasPlayedBefore: bool, personalBest: int, topScores: seq<int>): (rank: int)
    ensures !hasPlayedBefore || personalBest == 0 ==> rank == 0
    ensures hasPlayedBefore && personalBest != 0 ==>
              1 <= rank <= |topScores| + 1
              && (forall j :: 0 <= j < rank - 1 ==> topScores[j] > personalBest)
              && (rank <= |topScores| ==> topScores[rank - 1] <= personalBest)
  {
    if !hasPlayedBefore || personalBest == 0 then 0
    else
      var rank := FindIndexAtMost(topScores, personalBest) + 1;
      if rank > 0 then rank else |topScores| + 1
  }

  /** How many of the listed scores are strictly better than `best`. */
  function CountAbove(scores: seq<int>, best: int): nat {
    if |scores| == 0 then 0
    else (if scores[0] > best then 1 else 0) + CountAbove(scores[1..], best)
  }

  /** On a list sorted by descending score, the rank is one more than the number of listed
      scores that beat the personal best. */
  lemma {:induction false} PlayerRankCountsBetterScores(personalBest: int, topScores: seq<int>)
    requires personalBest != 0
    requires forall i, j :: 0 <= i < j < |topScores| ==> topScores[i] >= topScores[j]
    ensures PlayerRank(true, personalBest, topScores) == CountAbove(topScores, personalBest) + 1
  {
    if |topScores| > 0 && topScores[0] > personalBest {
      PlayerRankCountsBetterScores(personalBest, topScores[1..]);
    } else if |topScores| > 0 {
      NoneAboveAfter(personalBest, topScores);
    }
  }

  lemma {:induction false} NoneAboveAfter(best: int, scores: seq<int>)
    requires forall i, j :: 0 <= i < j < |scores| ==> scores[i] >= scores[j]
    requires |scores| > 0 && scores[0] <= best
    ensures CountAbove(scores, best) == 0
  {
    if |scores| > 1 {
      NoneAboveAfter(best, scores[1..]);
    }
  }

  /** `Math.floor(raw / 2)`: the score the player sees. */
  function DisplayScore(raw: nat): (shown: nat)
    ensures 2 * shown <= raw < 2 * shown + 2
  {
    raw / 2
  }

  /** Every two raw points show as one, and more raw points never show as fewer. */
  lemma DisplayScoreMonotone(a: nat, b: nat)
    requires a <= b
    ensures DisplayScore(a) <= DisplayScore(b)
    ensures DisplayScore(a + 2) == DisplayScore(a) + 1
  {
  }

  /** What `saveHighScore` posts: the trimmed name, the RAW score and the caller's IP. */
  datatype Submission = Submission(name: string, score: int, userIP: string)

  /** `saveHighScore(name, score)`: nothing is posted without an IP or with a blank name. */
  function SaveRequest(userIP: string, name: string, rawScore: int): (req: Option<Submission>)
    ensures req.Some? <==> userIP != "" && Trim(name) != ""
    ensures req.Some? ==> req.value.score == rawScore && req.value.userIP == userIP
                          && req.value.name == Trim(name) && !IsSpace(req.value.name[0])
  {
    if userIP == "" || name == "" || Trim(name) == "" then None
    else Some(Submission(Trim(name), rawScore, userIP))
  }

  /** What `handleGameOver` does once the round has ended. */
  datatype GameOverAction = AutoSave(request: Option<Submission>) | AskForName

  /** A returning player's raw score is auto-submitted under the stored name; a new player is
      asked for a name. */
  function OnGameOver(hasPlayedBefore: bool, existingName: string, userIP: string, rawScore: int)
    : (a: GameOverAction)
    ensures hasPlayedBefore <==> a.AutoSave?
    ensures a.AutoSave? && a.request.Some? ==> a.request.value.score == rawScore
  {
    if hasPlayedBefore then AutoSave(SaveRequest(userIP, existingName, rawScore)) else AskForName
  }

  /** The name dialog's Save button: a blank name is refused before anything is posted. */
  function SaveFromDialog(playerName: string, userIP: string, rawScore: int): (req: Option<Submission>)
    ensures req.Some? ==> Trim(playerName) != "" && req.value.score == rawScore
    ensures Trim(playerName) != "" && userIP != "" ==> req.Some?
  {
    if Trim(playerName) == "" then None else SaveRequest(userIP, Trim(playerName), rawScore)
  }
}
