# Click the Target — a Dafny model of the game state machine

The program is a one-window reflex game. A red disc of radius 25 sits on a
600 × 400 field; the player clicks it to score, every hit moves it and makes the
forced moves come faster, and the game ends when the clock, which starts at 30,
reaches zero. All of the logic lives in class `ClickGame` of `thisis_practise.py`;
stripped of drawing it is a small integer state (`score`, `time_left`,
`interval`, `running`, `target_pos`) changed by seven handlers.

`click_target.dfy` (module `ClickTarget`) models it in two layers:

- **Transition functions** on a `GameState` value — `Started`, `Initial` (the
  state after reset and at start-up), `Clicked`, `MoveTicked` (the move timer
  `tick`), `TimerTicked` (`_timer_tick`), `Ended`, `Spawned` — whose contracts say
  what each handler promises, plus `IsHit` (the integer hit test) and
  `NextInterval` (the speed-up with its 100 ms floor). `Inv` is the invariant of
  every reachable state: score ≥ 0, 0 ≤ time ≤ 30, running ⇒ time ≥ 1, the target
  centre in its rectangle, and the move delay equal to `IntervalAfter(score)`, the
  delay reached by applying the speed-up once per point.
- **Class `ClickGame`** with the same five fields, updated in place by methods
  named after the handlers (`SpawnTarget`, `OnClick`, `Tick`, `StartGame`,
  `TimerTick`, `EndGame`, `ResetGame`). Each method keeps `Valid()` (the invariant
  on its fields) and ensures that its new state is exactly the transition
  function applied to its old state. The methods call each other as `ClickGame`
  in thisis_practise.py does (`Tick` calls `EndGame` or `SpawnTarget`, `OnClick` calls `SpawnTarget`).

`Event` and `Run` replay a sequence of external events (button clicks, field
clicks, firings of either timer); lemmas over `Run` state the properties of whole
games: the invariant holds throughout, the score never falls and the delay never
rises within a game, stale timers after a reset do nothing until the next start, both timers take time
off the same clock, and so an untouched game times out with score 0 after 30 timer
firings of either kind, in any order (about 15 of each at the start-up delay of
1000 ms).

Randomness: `random.randint` is replaced by a position passed in by the caller,
required to lie in `[25, 575] × [45, 375]`. Timers: each timer callback is a method
the environment may call at any time; which callbacks are pending is not modelled.

The speed-up `int(interval * 0.9)` is modelled as `9 * interval / 10` truncated
toward zero. From 1000 ms the delays are 1000, 900, 810, 729, 656, 590, 531, 477,
429, 386, 347, 312, 280, 252, 226, 203, 182, 163, 146, 131, 117, 105 and then 100
from the 22nd hit on (`IntervalSchedule`). The code truncates at every step, so after
531 comes 477 and then 429; rounding instead of truncating would give 478, 430, ….

## Model

| member | source | states |
|---|---|---|
| ClickTarget.IsHit | thisis_practise.py:56 | a hit lies within RADIUS of the centre on each axis; a click on the centre is a hit |
| ClickTarget.HitBoundaryInclusive | thisis_practise.py:56 | points exactly on the circle (25,0), (0,−25), (15,20) are hits; (26,0) and (18,18) are not |
| ClickTarget.NextInterval | thisis_practise.py:59 | the new delay is floor(0.9 × old) unless that is below 100, then 100; never below 100 and strictly smaller than any delay above 100 |
| ClickTarget.IntervalAfter | thisis_practise.py:57-59 | after any number of hits the delay lies in [100, 1000] |
| ClickTarget.IntervalSchedule | thisis_practise.py:57-59 | the exact delays after 0 to 22 hits, starting 1000, 900, 810 and ending at 100 |
| ClickTarget.IntervalShrinks | thisis_practise.py:57-59 | each of the first 22 hits strictly shortens the delay |
| ClickTarget.IntervalAtFloor | thisis_practise.py:57-59 | from the 22nd hit on the delay is 100 |
| ClickTarget.InBounds | thisis_practise.py:44-45 | a centre drawn from the randint rectangle puts every point of the target disc inside the field and below the display strip |
| ClickTarget.Inv | thisis_practise.py:51-110 | the invariant every reachable state keeps; it implies the delay is in [100, 1000] and the time left is never negative |
| ClickTarget.Spawned | thisis_practise.py:43-49 | the single target is replaced by one at the given centre; score, time, delay and running are unchanged; an in-bounds centre keeps the invariant |
| ClickTarget.Initial | thisis_practise.py:100-109 | reset yields not running, score 0, time 30, delay 1000, the new target, whatever the prior state; it satisfies the invariant |
| ClickTarget.Clicked | thisis_practise.py:51-60 | no change unless running; the score rises by one exactly on a running hit, which also applies the speed-up and moves the target; a miss changes nothing; time and running never change; the delay never rises |
| ClickTarget.Ended | thisis_practise.py:95-98 | running becomes false; score, time, delay and target unchanged |
| ClickTarget.MoveTicked | thisis_practise.py:62-71 | no change unless running; otherwise one second less, still running exactly when time is left, and the target moves only if the game goes on; score and delay unchanged |
| ClickTarget.TimerTicked | thisis_practise.py:85-93 | no change unless running; otherwise one second less and still running exactly when time is left; nothing else changes |
| ClickTarget.Started | thisis_practise.py:73-83 | no change if already running; otherwise running with score 0, time 30, delay 1000 and the target left where it was |
| ClickTarget.Step | thisis_practise.py:32-93 | each button, the canvas click and each timer go to their handler; while not running only Start and Reset change anything; only Start sets running; the invariant is kept |
| ClickTarget.Run | thisis_practise.py:116-119 | replaying events in order, a game can be running at the end only if it was running or Start was pressed |
| ClickTarget.StartIdempotent | thisis_practise.py:74-75 | starting twice is the same as starting once |
| ClickTarget.InvariantBoundsInterval | thisis_practise.py:57-59 | in every reachable state the delay is in [100, 1000], and 100 once 22 points are scored |
| ClickTarget.RunKeepsInvariant | thisis_practise.py:51-110 | any sequence of events keeps score ≥ 0, 0 ≤ time ≤ 30, running ⇒ time ≥ 1, delay = IntervalAfter(score) and the target in bounds |
| ClickTarget.ScoreUpIntervalDown | thisis_practise.py:51-93 | between a start and the next start or reset the score never decreases and the delay never increases nor drops below 100 |
| ClickTarget.IdleIgnoresEvents | thisis_practise.py:51-93 | while not running, clicks and both timer callbacks change nothing |
| ClickTarget.ResetThenStaleTimers | thisis_practise.py:100-110 | after a reset, stale timers and clicks leave the reset state exactly as it was |
| ClickTarget.CountdownRun | thisis_practise.py:85-93 | k countdown ticks take k seconds off a running game; the tick that reaches 0 ends it with score, delay and target kept |
| ClickTarget.TimerRun | thisis_practise.py:62-93 | k firings of either timer, in any order, take k seconds off a running game, which stops exactly when the k-th reaches 0; score and delay kept |
| ClickTarget.UntouchedGameTimesOut | thisis_practise.py:73-93 | a started game with no clicks is over after any 30 firings of the two timers, with score 0, time 0 and delay 1000 |
| ClickTarget.UntouchedCountdownOnly | thisis_practise.py:85-93 | if only the countdown timer fires, 30 ticks after a start give exactly score 0, time 0, delay 1000, target unchanged |
| ClickTarget.BothTimersCountDown | thisis_practise.py:62-93 | a move tick and a countdown tick each take a second off the same clock, including the pair whose second tick ends the game |
| ClickTarget.StaleTimerAfterRestart | thisis_practise.py:62-93 | after reset and start, a timer callback (stale or new) takes a second off the new game like any other: one move and one countdown tick leave 28 s |
| ClickTarget.FirstHit | thisis_practise.py:51-83 | start, then a click on the target centre, gives score 1, delay 900, the new target, still running with 30 s |
| ClickTarget.ClickGame.constructor | thisis_practise.py:12-41 | a new game object is in the reset state with the first target, and valid |
| ClickTarget.ClickGame.SpawnTarget | thisis_practise.py:43-49 | only the target field changes, to the given centre |
| ClickTarget.ClickGame.OnClick | thisis_practise.py:51-60 | the fields change exactly as Clicked says, keeping the invariant |
| ClickTarget.ClickGame.Tick | thisis_practise.py:62-71 | the fields change exactly as MoveTicked says, keeping the invariant |
| ClickTarget.ClickGame.StartGame | thisis_practise.py:73-83 | the fields change exactly as Started says, keeping the invariant |
| ClickTarget.ClickGame.TimerTick | thisis_practise.py:85-93 | the fields change exactly as TimerTicked says, keeping the invariant |
| ClickTarget.ClickGame.EndGame | thisis_practise.py:95-98 | the fields change exactly as Ended says |
| ClickTarget.ClickGame.ResetGame | thisis_practise.py:100-110 | whatever the prior state, the fields become Initial with the new target, and valid |

## Left out

- Drawing: the window, canvas, buttons, text items, `update_ui`, the "Time's up" message and `canvas.delete` (thisis_practise.py:13-16, 23-24, 30-40, 47-49, 98, 105-108, 112-114). They change no game state; the canvas item id `self.target` is not modelled, and "one target at a time" holds because the state has a single target field.
- Scheduling with `master.after` and the Tk event loop (thisis_practise.py:71, 82-83, 93, 116-119): timer callbacks are methods (and `Event`s) that may fire at any moment; which timers are pending, and when, is not modelled. The guard on `running` makes a callback left over from a reset or a finished game harmless only until the next start (`ResetThenStaleTimers`); a callback still pending when a new game starts sees `running` true, decrements `time_left` and reschedules itself beside the new game's own timer chains, so the new clock can fall faster. The model cannot tell such a stale callback from a new one and treats it as one more timer event (`StaleTimerAfterRestart`); it does not capture how many timer chains are live.
- `random.randint` (thisis_practise.py:44-45): the new centre is a parameter, required to lie in the rectangle randint draws from.
- Floating point: `SPEED_INCREASE = 0.9` (thisis_practise.py:9, 59) is replaced by exact integer arithmetic, 9/10 truncated toward zero; the double nearest 0.9 lies just above it, and for the delays that occur (100 to 1000 ms) the rounding error of the product is far below the 0.1 step of the exact value, so truncating the float product gives the same integer.
- The unused `time` import (thisis_practise.py:4).
