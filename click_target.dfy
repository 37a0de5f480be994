/** A model of the click-the-target reflex game (class ClickGame in thisis_practise.py).
 *
 *  The game state is five values: the score, the seconds left, the delay between
 *  forced target moves, whether a game is running, and the centre of the single
 *  target. Every event handler is a guarded update of that state. The module gives
 *  each handler twice: as a pure transition function on a GameState value (whose
 *  contract says what the handler promises), and as a method of class ClickGame that
 *  updates the fields in place, as ClickGame in thisis_practise.py does, and is proved to perform
 *  exactly that transition. Rendering, timer scheduling and the random number
 *  generator are not modelled: each new target centre is a parameter.
 */
module ClickTarget {

  // ---------------------------------------------------------------- constants

  const WIDTH: int := 600
  const HEIGHT: int := 400
  const RADIUS: int := 25
  /** Rows kept free at the top of the field for the score and time display. */
  const UI_MARGIN: int := 20
  /** Length of a game, in seconds. */
  const START_TIME: int := 30
  /** Delay between forced target moves at the start of a game, in milliseconds. */
  const INITIAL_INTERVAL: int := 1000
  /** The move delay never shrinks below this many milliseconds. */
  const MIN_INTERVAL: int := 100

  // ---------------------------------------------------------------- data model

  datatype Pos = Pos(x: int, y: int)

  datatype GameState = GameState(
    score: int,
    timeLeft: int,
    interval: int,
    running: bool,
    target: Pos)

  /** The external events the game reacts to. A spawn position stands for the value
      the random number generator would pick when the handler places a new target. */
  datatype Event =
    | StartClicked
    | ResetClicked(spawn: Pos)
    | FieldClicked(x: int, y: int, spawn: Pos)
    | MoveTimer(spawn: Pos)
    | CountdownTimer

  /** The rectangle a target centre is drawn from: the whole disc lies inside the
      field and clear of the display strip at the top. */
  function InBounds(p: Pos): (ok: bool)
    ensures ok ==> forall x, y :: IsHit(x, y, p) ==> 0 <= x <= WIDTH && UI_MARGIN <= y <= HEIGHT
  {
    RADIUS <= p.x <= WIDTH - RADIUS &&
    RADIUS + UI_MARGIN <= p.y <= HEIGHT - RADIUS
  }

  predicate SpawnsInBounds(e: Event)
  {
    match e
    case StartClicked => true
    case CountdownTimer => true
    case ResetClicked(p) => InBounds(p)
    case FieldClicked(_, _, p) => InBounds(p)
    case MoveTimer(p) => InBounds(p)
  }

  /** The invariant every reachable state keeps. In particular the move delay is
      always the one reached by applying the speed-up once per point scored. */
  ghost function Inv(s: GameState): (ok: bool)
    ensures ok ==> MIN_INTERVAL <= s.interval <= INITIAL_INTERVAL && s.timeLeft >= 0
  {
    0 <= s.score &&
    0 <= s.timeLeft <= START_TIME &&
    (s.running ==> s.timeLeft >= 1) &&
    s.interval == IntervalAfter(s.score) &&
    InBounds(s.target)
  }

  // ---------------------------------------------------------------- hit test and speed-up

  lemma SquareBound(d: int)
    ensures d * d <= RADIUS * RADIUS ==> -RADIUS <= d <= RADIUS
  {
    if d > RADIUS {
      assert d * d > RADIUS * d >= RADIUS * RADIUS;
    } else if d < -RADIUS {
      assert d * d > -RADIUS * d >= RADIUS * RADIUS;
    }
  }

  /** Integer hit test: the click lies in the closed disc of radius RADIUS around
      the target centre. */
  function IsHit(x: int, y: int, target: Pos): (hit: bool)
    ensures hit ==> target.x - RADIUS <= x <= target.x + RADIUS
    ensures hit ==> target.y - RADIUS <= y <= target.y + RADIUS
    ensures (x == target.x && y == target.y) ==> hit
  {
    var dx, dy := x - target.x, y - target.y;
    if dx * dx + dy * dy <= RADIUS * RADIUS then
      assert dx * dx <= RADIUS * RADIUS && dy * dy <= RADIUS * RADIUS;
      SquareBound(dx);
      SquareBound(dy);
      true
    else
      false
  }

  /** The boundary of the disc counts as a hit; one pixel further out does not. */
  lemma HitBoundaryInclusive(t: Pos)
    ensures IsHit(t.x + RADIUS, t.y, t) && IsHit(t.x, t.y - RADIUS, t)
    ensures IsHit(t.x + 15, t.y + 20, t)
    ensures !IsHit(t.x + RADIUS + 1, t.y, t) && !IsHit(t.x + 18, t.y + 18, t)
  {
  }

  /** The move delay after one hit: ninety per cent of the old delay, truncated
      toward zero as Python's int() does, but never less than MIN_INTERVAL. */
  function NextInterval(interval: int): (r: int)
    ensures r >= MIN_INTERVAL
    ensures 9 * interval >= 10 * MIN_INTERVAL ==> 10 * r <= 9 * interval < 10 * r + 10
    ensures 9 * interval < 10 * (MIN_INTERVAL + 1) ==> r == MIN_INTERVAL
    ensures interval > MIN_INTERVAL ==> r < interval
  {
    var p := interval * 9;
    var scaled := if p >= 0 then p / 10 else -((-p) / 10);
    if scaled > MIN_INTERVAL then scaled else MIN_INTERVAL
  }

  /** The move delay after a given number of hits since the game was started. */
  function IntervalAfter(hits: nat): (r: int)
    ensures MIN_INTERVAL <= r <= INITIAL_INTERVAL
  {
    if hits == 0 then INITIAL_INTERVAL else NextInterval(IntervalAfter(hits - 1))
  }

  /** The delays, in milliseconds, after 0, 1, 2, ... hits. */
  const SpeedUpSchedule: seq<int> :=
    [1000, 900, 810, 729, 656, 590, 531, 477, 429, 386, 347, 312,
     280, 252, 226, 203, 182, 163, 146, 131, 117, 105, 100]

  lemma IntervalSchedule()
    ensures |SpeedUpSchedule| == 23
    ensures forall k :: 0 <= k < |SpeedUpSchedule| ==> IntervalAfter(k) == SpeedUpSchedule[k]
  {
    assert IntervalAfter(1) == 900;
    assert IntervalAfter(2) == 810;
    assert IntervalAfter(3) == 729;
    assert IntervalAfter(4) == 656;
    assert IntervalAfter(5) == 590;
    assert IntervalAfter(6) == 531;
    assert IntervalAfter(7) == 477;
    assert IntervalAfter(8) == 429;
    assert IntervalAfter(9) == 386;
    assert IntervalAfter(10) == 347;
    assert IntervalAfter(11) == 312;
    assert IntervalAfter(12) == 280;
    assert IntervalAfter(13) == 252;
    assert IntervalAfter(14) == 226;
    assert IntervalAfter(15) == 203;
    assert IntervalAfter(16) == 182;
    assert IntervalAfter(17) == 163;
    assert IntervalAfter(18) == 146;
    assert IntervalAfter(19) == 131;
    assert IntervalAfter(20) == 117;
    assert IntervalAfter(21) == 105;
    assert IntervalAfter(22) == 100;
  }

  /** Each of the first 22 hits strictly shortens the delay. */
  lemma IntervalShrinks(hits: nat)
    requires hits < 22
    ensures IntervalAfter(hits + 1) < IntervalAfter(hits)
  {
    IntervalSchedule();
    assert IntervalAfter(hits) == SpeedUpSchedule[hits];
    assert IntervalAfter(hits + 1) == SpeedUpSchedule[hits + 1];
  }

  /** From the 22nd hit on the delay stays at the floor. */
  lemma {:induction false} IntervalAtFloor(hits: nat)
    requires hits >= 22
    ensures IntervalAfter(hits) == MIN_INTERVAL
  {
    if hits == 22 {
      IntervalSchedule();
      assert IntervalAfter(22) == SpeedUpSchedule[22];
    } else {
      IntervalAtFloor(hits - 1);
    }
  }

  // ---------------------------------------------------------------- transitions

  /** spawn_target: the one target is replaced by a target at p. */
  function Spawned(s: GameState, p: Pos): (t: GameState)
    ensures t.target == p
    ensures t.score == s.score && t.timeLeft == s.timeLeft
    ensures t.interval == s.interval && t.running == s.running
    ensures Inv(s) && InBounds(p) ==> Inv(t)
  {
    s.(target := p)
  }

  /** The state of a fresh game and of a game after reset_game. */
  function Initial(p: Pos): (t: GameState)
    ensures !t.running && t.score == 0 && t.timeLeft == START_TIME
    ensures t.interval == INITIAL_INTERVAL && t.target == p
    ensures InBounds(p) ==> Inv(t)
  {
    GameState(0, START_TIME, INITIAL_INTERVAL, false, p)
  }

  /** on_click: ignored unless running; a hit scores one point, speeds the game up
      and moves the target; a miss changes nothing. */
  function Clicked(s: GameState, x: int, y: int, p: Pos): (t: GameState)
    ensures !s.running ==> t == s
    ensures t.running == s.running && t.timeLeft == s.timeLeft
    ensures (t.score == s.score + 1) <==> (s.running && IsHit(x, y, s.target))
    ensures t.score != s.score + 1 ==> t == s
    ensures t.score == s.score + 1 ==>
              t.interval == NextInterval(s.interval) && t.target == p
    ensures s.interval >= MIN_INTERVAL ==> MIN_INTERVAL <= t.interval <= s.interval
    ensures Inv(s) && InBounds(p) ==> Inv(t)
  {
    if !s.running then s
    else if IsHit(x, y, s.target) then
      Spawned(s.(score := s.score + 1, interval := NextInterval(s.interval)), p)
    else s
  }

  /** end_game: the game stops; the score and the time left are kept. */
  function Ended(s: GameState): (t: GameState)
    ensures !t.running
    ensures t.score == s.score && t.timeLeft == s.timeLeft
    ensures t.interval == s.interval && t.target == s.target
    ensures Inv(s) ==> Inv(t)
  {
    s.(running := false)
  }

  /** tick, the move timer: ignored unless running; takes a second off the clock,
      ends the game when the clock reaches zero, and otherwise moves the target. */
  function MoveTicked(s: GameState, p: Pos): (t: GameState)
    ensures !s.running ==> t == s
    ensures s.running ==> t.timeLeft == s.timeLeft - 1
    ensures s.running ==> (t.running <==> t.timeLeft > 0)
    ensures t.score == s.score && t.interval == s.interval
    ensures t.target == (if t.running then p else s.target)
    ensures Inv(s) && InBounds(p) ==> Inv(t)
  {
    if !s.running then s
    else
      var d := s.(timeLeft := s.timeLeft - 1);
      if d.timeLeft <= 0 then Ended(d) else Spawned(d, p)
  }

  /** _timer_tick, the one-second countdown: ignored unless running; takes a second
      off the clock and ends the game when the clock reaches zero. */
  function TimerTicked(s: GameState): (t: GameState)
    ensures !s.running ==> t == s
    ensures s.running ==> t.timeLeft == s.timeLeft - 1
    ensures s.running ==> (t.running <==> t.timeLeft > 0)
    ensures t.score == s.score && t.interval == s.interval && t.target == s.target
    ensures Inv(s) ==> Inv(t)
  {
    if !s.running then s
    else
      var d := s.(timeLeft := s.timeLeft - 1);
      if d.timeLeft <= 0 then Ended(d) else d
  }

  /** start_game: ignored while a game runs; otherwise starts a game with fresh
      counters, the target left where it is. */
  function Started(s: GameState): (t: GameState)
    ensures t.running
    ensures s.running ==> t == s
    ensures !s.running ==> t.score == 0 && t.timeLeft == START_TIME &&
                           t.interval == INITIAL_INTERVAL
    ensures t.target == s.target
    ensures Inv(s) ==> Inv(t)
  {
    if s.running then s
    else s.(running := true, score := 0, timeLeft := START_TIME, interval := INITIAL_INTERVAL)
  }

  /** Routes an event to its handler: the Start and Reset buttons, the canvas click
      binding and the two timer callbacks. */
  function Step(s: GameState, e: Event): (t: GameState)
    ensures !s.running && !e.StartClicked? && !e.ResetClicked? ==> t == s
    ensures t.running && !s.running ==> e.StartClicked?
    ensures Inv(s) && SpawnsInBounds(e) ==> Inv(t)
  {
    match e
    case StartClicked => Started(s)
    case ResetClicked(p) => Initial(p)
    case FieldClicked(x, y, p) => Clicked(s, x, y, p)
    case MoveTimer(p) => MoveTicked(s, p)
    case CountdownTimer => TimerTicked(s)
  }

  /** The state after the events, in order. A game is running at the end only if
      it was running at the start or the Start button was pressed. */
  function Run(s: GameState, events: seq<Event>): (r: GameState)
    ensures r.running && !s.running ==>
              exists i :: 0 <= i < |events| && events[i].StartClicked?
    decreases |events|
  {
    if events == [] then s
    else
      var t := Step(s, events[0]);
      var r := Run(t, events[1..]);
      assert r.running && !t.running ==>
               exists i :: 0 <= i < |events[1..]| && events[1..][i].StartClicked?;
      assert r.running && !t.running ==>
               exists i :: 0 <= i < |events| && events[i].StartClicked? by {
        if r.running && !t.running {
          var i :| 0 <= i < |events[1..]| && events[1..][i].StartClicked?;
          assert events[i + 1].StartClicked?;
        }
      }
      assert t.running && !s.running ==> events[0].StartClicked?;
      r
  }

  function Countdown(n: nat): (es: seq<Event>)
    ensures |es| == n && forall i :: 0 <= i < n ==> es[i] == CountdownTimer
  {
    seq(n, _ => CountdownTimer)
  }

  // ---------------------------------------------------------------- properties of runs

  lemma RunCons(s: GameState, e: Event, events: seq<Event>)
    ensures Run(s, [e] + events) == Run(Step(s, e), events)
  {
    assert ([e] + events)[1..] == events;
  }

  /** Every reachable state satisfies the invariant: starting from a state that does,
      any sequence of events whose spawn positions lie in the field keeps it. */
  lemma {:induction false} RunKeepsInvariant(s: GameState, events: seq<Event>)
    requires Inv(s)
    requires forall i :: 0 <= i < |events| ==> SpawnsInBounds(events[i])
    ensures Inv(Run(s, events))
    decreases |events|
  {
    if events != [] {
      var t := Step(s, events[0]);
      assert SpawnsInBounds(events[0]);
      assert Inv(t);
      RunKeepsInvariant(t, events[1..]);
    }
  }

  /** Consequences of the invariant for the move delay. */
  lemma InvariantBoundsInterval(s: GameState)
    requires Inv(s)
    ensures MIN_INTERVAL <= s.interval <= INITIAL_INTERVAL
    ensures s.score >= 22 ==> s.interval == MIN_INTERVAL
  {
    if s.score >= 22 {
      IntervalAtFloor(s.score);
    }
  }

  predicate NoRestart(events: seq<Event>)
  {
    forall i :: 0 <= i < |events| ==> !events[i].StartClicked? && !events[i].ResetClicked?
  }

  /** Within one game (no start or reset in between) the score never decreases and
      the move delay never increases nor drops below the floor. */
  lemma {:induction false} ScoreUpIntervalDown(s: GameState, events: seq<Event>)
    requires s.interval >= MIN_INTERVAL
    requires NoRestart(events)
    ensures Run(s, events).score >= s.score
    ensures MIN_INTERVAL <= Run(s, events).interval <= s.interval
    decreases |events|
  {
    if events != [] {
      var t := Step(s, events[0]);
      assert !events[0].StartClicked? && !events[0].ResetClicked?;
      assert t.score >= s.score && MIN_INTERVAL <= t.interval <= s.interval;
      ScoreUpIntervalDown(t, events[1..]);
    }
  }

  /** While no game runs, clicks and timer callbacks, including stale timers left
      over from a game that was reset, change nothing. */
  lemma {:induction false} IdleIgnoresEvents(s: GameState, events: seq<Event>)
    requires !s.running
    requires NoRestart(events)
    ensures Run(s, events) == s
    decreases |events|
  {
    if events != [] {
      assert !events[0].StartClicked? && !events[0].ResetClicked?;
      assert Step(s, events[0]) == s;
      IdleIgnoresEvents(s, events[1..]);
    }
  }

  /** Reset gives the same state whatever the game was doing, and stale timers that
      fire after it have no effect. */
  lemma ResetThenStaleTimers(s: GameState, p: Pos, events: seq<Event>)
    requires NoRestart(events)
    ensures Run(s, [ResetClicked(p)] + events) == Initial(p)
  {
    RunCons(s, ResetClicked(p), events);
    IdleIgnoresEvents(Initial(p), events);
  }

  /** A timer callback carries no record of the game that scheduled it: once a new
      game has started, a callback left pending from before the reset counts like
      the new game's own, so with both timers also running the clock falls faster. */
  lemma StaleTimerAfterRestart(s: GameState, p: Pos, q: Pos)
    ensures Run(s, [ResetClicked(p), StartClicked, MoveTimer(q), CountdownTimer]).timeLeft ==
              START_TIME - 2
  {
    RunCons(s, ResetClicked(p), [StartClicked, MoveTimer(q), CountdownTimer]);
    RunCons(Initial(p), StartClicked, [MoveTimer(q), CountdownTimer]);
    BothTimersCountDown(Started(Initial(p)), q);
  }

  /** Starting a game that is already running changes nothing. */
  lemma StartIdempotent(s: GameState)
    ensures Started(Started(s)) == Started(s)
  {
  }

  /** k countdown ticks in a running game take k seconds off the clock; the tick that
      reaches zero ends the game, keeping score, delay and target. */
  lemma {:induction false} CountdownRun(s: GameState, k: nat)
    requires s.running && 1 <= s.timeLeft && k <= s.timeLeft
    ensures Run(s, Countdown(k)) ==
              if k < s.timeLeft then s.(timeLeft := s.timeLeft - k)
              else s.(timeLeft := 0, running := false)
    decreases k
  {
    if k == 0 {
      assert Countdown(0) == [];
    } else {
      assert Countdown(k) == [CountdownTimer] + Countdown(k - 1);
      RunCons(s, CountdownTimer, Countdown(k - 1));
      var t := TimerTicked(s);
      if s.timeLeft > 1 {
        assert t == s.(timeLeft := s.timeLeft - 1);
        CountdownRun(t, k - 1);
      } else {
        assert k == 1 && Countdown(k - 1) == [];
        assert t == s.(timeLeft := 0, running := false);
      }
    }
  }

  predicate TimersOnly(events: seq<Event>)
  {
    forall i :: 0 <= i < |events| ==> events[i].MoveTimer? || events[i].CountdownTimer?
  }

  /** Any k firings of either timer, in any order, take k seconds off a running
      game; it stops exactly when the k-th firing reaches zero. Score and delay are
      kept. */
  lemma {:induction false} TimerRun(s: GameState, events: seq<Event>)
    requires s.running && 1 <= s.timeLeft && |events| <= s.timeLeft
    requires TimersOnly(events)
    ensures Run(s, events).timeLeft == s.timeLeft - |events|
    ensures Run(s, events).running <==> |events| < s.timeLeft
    ensures Run(s, events).score == s.score && Run(s, events).interval == s.interval
    decreases |events|
  {
    if events != [] {
      var t := Step(s, events[0]);
      assert events[0].MoveTimer? || events[0].CountdownTimer?;
      assert t.timeLeft == s.timeLeft - 1 && t.score == s.score && t.interval == s.interval;
      if s.timeLeft > 1 {
        assert TimersOnly(events[1..]) by {
          forall i | 0 <= i < |events[1..]|
            ensures events[1..][i].MoveTimer? || events[1..][i].CountdownTimer?
          {
            assert events[1..][i] == events[i + 1];
          }
        }
        TimerRun(t, events[1..]);
      } else {
        assert |events| == 1 && events[1..] == [];
      }
    }
  }

  /** A game started and left alone ends after START_TIME timer firings, whatever
      the mix of move ticks and countdown ticks (both timers run once a game has
      started), with a score of zero and the initial delay. */
  lemma UntouchedGameTimesOut(s: GameState, events: seq<Event>)
    requires !s.running
    requires TimersOnly(events) && |events| == START_TIME
    ensures var r := Run(s, [StartClicked] + events);
            !r.running && r.score == 0 && r.timeLeft == 0 && r.interval == INITIAL_INTERVAL
  {
    RunCons(s, StartClicked, events);
    TimerRun(Started(s), events);
  }

  /** With the countdown timer alone the final state is exact: START_TIME countdown
      ticks after a start leave the target where it was. */
  lemma UntouchedCountdownOnly(s: GameState)
    requires !s.running
    ensures Run(s, [StartClicked] + Countdown(START_TIME)) ==
              GameState(0, 0, INITIAL_INTERVAL, false, s.target)
  {
    RunCons(s, StartClicked, Countdown(START_TIME));
    CountdownRun(Started(s), START_TIME);
  }

  /** Both timers take a second off the same clock: one move tick and one countdown
      tick together take two seconds. */
  lemma BothTimersCountDown(s: GameState, p: Pos)
    requires s.running && s.timeLeft >= 2
    ensures Run(s, [MoveTimer(p), CountdownTimer]).timeLeft == s.timeLeft - 2
  {
    RunCons(s, MoveTimer(p), [CountdownTimer]);
    RunCons(MoveTicked(s, p), CountdownTimer, []);
  }

  /** Starting a game and clicking the centre of the target scores one point, cuts
      the move delay to 900 ms and moves the target. */
  lemma FirstHit(s: GameState, p: Pos)
    requires !s.running
    ensures Run(s, [StartClicked, FieldClicked(s.target.x, s.target.y, p)]) ==
              GameState(1, START_TIME, 900, true, p)
  {
    RunCons(s, StartClicked, [FieldClicked(s.target.x, s.target.y, p)]);
    RunCons(Started(s), FieldClicked(s.target.x, s.target.y, p), []);
  }

  // ---------------------------------------------------------------- the game object

  /** The game controller. Its fields are updated in place by the event handlers;
      State() reads them as a GameState value. */
  class ClickGame {
    var score: int
    var timeLeft: int
    var interval: int
    var running: bool
    var targetPos: Pos

    ghost function State(): GameState
      reads this
    {
      GameState(score, timeLeft, interval, running, targetPos)
    }

    ghost predicate Valid()
      reads this
    {
      Inv(State())
    }

    /** The window opens with no game running, full time, the initial delay, and one
        target at the first random position. */
    constructor (spawnAt: Pos)
      requires InBounds(spawnAt)
      ensures Valid() && State() == Initial(spawnAt)
    {
      score := 0;
      timeLeft := START_TIME;
      interval := INITIAL_INTERVAL;
      running := false;
      targetPos := Pos(WIDTH / 2, HEIGHT / 2);
      new;
      SpawnTarget(spawnAt);
    }

    method SpawnTarget(p: Pos)
      requires InBounds(p)
      modifies this
      ensures State() == Spawned(old(State()), p)
    {
      targetPos := p;
    }

    method OnClick(x: int, y: int, respawnAt: Pos)
      requires Valid() && InBounds(respawnAt)
      modifies this
      ensures Valid()
      ensures State() == Clicked(old(State()), x, y, respawnAt)
    {
      if !running {
        return;
      }
      if IsHit(x, y, targetPos) {
        score := score + 1;
        interval := NextInterval(interval);
        SpawnTarget(respawnAt);
      }
    }

    method Tick(respawnAt: Pos)
      requires Valid() && InBounds(respawnAt)
      modifies this
      ensures Valid()
      ensures State() == MoveTicked(old(State()), respawnAt)
    {
      if !running {
        return;
      }
      timeLeft := timeLeft - 1;
      if timeLeft <= 0 {
        EndGame();
        return;
      }
      SpawnTarget(respawnAt);
    }

    method StartGame()
      requires Valid()
      modifies this
      ensures Valid()
      ensures State() == Started(old(State()))
    {
      if running {
        return;
      }
      running := true;
      score := 0;
      timeLeft := START_TIME;
      interval := INITIAL_INTERVAL;
    }

    method TimerTick()
      requires Valid()
      modifies this
      ensures Valid()
      ensures State() == TimerTicked(old(State()))
    {
      if !running {
        return;
      }
      timeLeft := timeLeft - 1;
      if timeLeft <= 0 {
        EndGame();
        return;
      }
    }

    method EndGame()
      modifies this
      ensures State() == Ended(old(State()))
    {
      running := false;
    }

    method ResetGame(respawnAt: Pos)
      requires InBounds(respawnAt)
      modifies this
      ensures Valid()
      ensures State() == Initial(respawnAt)
    {
      running := false;
      score := 0;
      timeLeft := START_TIME;
      interval := INITIAL_INTERVAL;
      SpawnTarget(respawnAt);
    }
  }
}
