/**
 * Points, the tick interval and the record. Each fruit is one point; every
 * fifth point shortens the tick interval by 10 ms until it reaches 50 ms;
 * every tenth point is an achievement; the record is the best final score.
 */
module Scoring {

  /** Tick interval, in milliseconds, at the start of every game. */
  const InitialSpeed := 150
  /** The interval only shrinks while it is above this value. */
  const SpeedFloor := 50
  const SpeedStep := 10
  /** Points between two speed-ups. */
  const SpeedUpEvery := 5
  /** Points between two achievements. */
  const AchievementEvery := 10

  /** Score and interval after one point, and whether the timer was restarted. */
  datatype ScoreStep = ScoreStep(score: nat, speed: int, rescheduled: bool)

  /** incrementScore: one more point and, on every fifth one above the floor, a faster tick. */
  function Increment(score: nat, speed: int): (r: ScoreStep)
    ensures r.score == score + 1
    ensures r.rescheduled <==> r.speed != speed
    ensures r.speed == speed || r.speed == speed - SpeedStep
    ensures r.speed < speed ==> speed > SpeedFloor && r.score % SpeedUpEvery == 0
    ensures speed > SpeedFloor && r.score % SpeedUpEvery == 0 ==> r.speed == speed - SpeedStep
  {
    var s := score + 1;
    if s % SpeedUpEvery == 0 && speed > SpeedFloor then ScoreStep(s, speed - SpeedStep, true)
    else ScoreStep(s, speed, false)
  }

  /** The interval a game has after `score` points, as a closed form. */
  function SpeedFor(score: nat): (s: int)
    ensures SpeedFloor <= s <= InitialSpeed && s % SpeedStep == 0
  {
    var d := InitialSpeed - SpeedStep * (score / SpeedUpEvery);
    if d < SpeedFloor then SpeedFloor else d
  }

  /** A game's interval follows the closed form: incrementing keeps it in step. */
  lemma {:induction false} IncrementFollowsSchedule(score: nat, speed: int)
    requires speed == SpeedFor(score)
    ensures Increment(score, speed).speed == SpeedFor(score + 1)
    ensures Increment(score, speed).rescheduled <==> SpeedFor(score + 1) < SpeedFor(score)
  {
  }

  /** More points never mean a slower tick. */
  lemma {:induction false} SpeedForNeverIncreases(a: nat, b: nat)
    requires a <= b
    ensures SpeedFor(b) <= SpeedFor(a)
  {
  }

  /** The achievement sound plays for a positive multiple of ten. */
  predicate Achieves(score: int)
  {
    score > 0 && score % AchievementEvery == 0
  }

  /** saveHighScore: the record after a game that ended with `score` points. */
  function SavedHigh(score: nat, high: nat): (r: nat)
    ensures r >= score && r >= high
    ensures r == score || r == high
  {
    if score > high then score else high
  }

  /** The record after a session of games with the given final scores. */
  function AfterGames(high: nat, finals: seq<nat>): (r: nat)
    ensures r >= high
    ensures forall i :: 0 <= i < |finals| ==> r >= finals[i]
    ensures r == high || exists i :: 0 <= i < |finals| && r == finals[i]
    decreases |finals|
  {
    if finals == [] then high
    else AfterGames(SavedHigh(finals[0], high), finals[1..])
  }
}
