/** The game loop of `main`: the loop state that the body updates in place,
    one iteration of the body (clock sample, fixed-step drain with event
    polling, interpolation fraction, frame cap) and the outer loop that runs
    iterations while the game is running. Clock samples, queued events and
    the refresh rate come in as the fields of a `Frame`; the delay the loop
    would sleep for is returned instead of slept. */
module MainLoop {
  import opened Events
  import opened FixedStep
  import opened FrameCap

  /** The window is created full screen. */
  const StartFullscreen: bool := true

  /** What the environment supplies to one iteration of the loop: the clock
      read at the start of the iteration (kept as an `int`), read again for
      the elapsed-time computation, and read after the frame was presented;
      the events that arrived in the queue since the previous iteration; and
      the refresh rate the window reports. Clock readings are milliseconds
      and may have a fraction. */
  datatype Frame = Frame(startClock: real, newTime: real, endClock: real, arrived: seq<Event>, refreshRate: int)

  /** The frame duration as the loop computes it: the start reading is
      stored in an `int`, the end reading minus it is stored in an `int`
      again. */
  function FrameTicks(f: Frame): int
  {
    TruncToInt(f.endClock - TruncToInt(f.startClock) as real)
  }

  /** For readings in whole milliseconds the frame duration is their
      difference: the conversions to `int` lose nothing. */
  lemma FrameTicksWhole(f: Frame, start: int, end: int)
    requires f.startClock == start as real && f.endClock == end as real
    ensures FrameTicks(f) == end - start
  {
    TruncWhole(start);
    assert f.endClock - start as real == (end - start) as real;
    TruncWhole(end - start);
  }

  /** The clock reading of the last of `frames`, or `t0` if there is none. */
  function LastTime(t0: real, frames: seq<Frame>): real
  {
    if frames == [] then t0 else frames[|frames| - 1].newTime
  }

  /** The elapsed time each of `frames` adds to the accumulator, when the
      clock read `t0` before the first of them. */
  function FrameTimes(t0: real, frames: seq<Frame>): (ts: seq<real>)
    ensures |ts| == |frames|
  {
    if frames == [] then []
    else
      var init := frames[..|frames| - 1];
      FrameTimes(t0, init) + [frames[|frames| - 1].newTime - LastTime(t0, init)]
  }

  /** All events that arrive with `frames`, in order. */
  function Arrived(frames: seq<Frame>): seq<Event>
  {
    if frames == [] then [] else Arrived(frames[..|frames| - 1]) + frames[|frames| - 1].arrived
  }

  /** The part of the loop state that fixed steps and polling change: the
      clock reading of the previous iteration, the accumulator, every event
      polled so far, the events still queued, and the steps run so far. */
  datatype State = State(time: real, acc: real, polled: seq<Event>, queue: seq<Event>, steps: nat)

  /** One iteration for `f`: the time since the previous reading is added
      to the accumulator, the steps it pays for are run, the queue (with
      the events that arrived) is polled exactly when at least one step
      runs, and the leftover is kept. */
  function StepFrame(s: State, f: Frame): (r: State)
    ensures r.time == f.newTime
    ensures r.steps as real * TimeStep + r.acc == s.steps as real * TimeStep + s.acc + (f.newTime - s.time)
    ensures r.polled + r.queue == s.polled + s.queue + f.arrived
    ensures s.polled <= r.polled
    ensures r.steps > s.steps <==> s.acc + (f.newTime - s.time) >= TimeStep
    ensures r.steps > s.steps ==> r.queue == []
    ensures r.steps == s.steps ==> r.polled == s.polled
  {
    var t := f.newTime - s.time;
    var n := StepsDue(s.acc + t);
    if n > 0 then State(f.newTime, Leftover(s.acc, t), s.polled + s.queue + f.arrived, [], s.steps + n)
    else State(f.newTime, Leftover(s.acc, t), s.polled, s.queue + f.arrived, s.steps)
  }

  /** A state that agrees with `StepFrame` field by field is its result. */
  lemma StepFrameFrom(s: State, f: Frame, r: State)
    requires r.time == f.newTime
    requires r.acc == Leftover(s.acc, f.newTime - s.time)
    requires r.steps == s.steps + StepsDue(s.acc + (f.newTime - s.time))
    requires r.steps > s.steps ==> r.queue == [] && r.polled == s.polled + s.queue + f.arrived
    requires r.steps == s.steps ==> r.queue == s.queue + f.arrived && r.polled == s.polled
    ensures r == StepFrame(s, f)
  {
  }

  /** The iterations for `frames`, in order, starting from `s`. */
  function RunFrames(s: State, frames: seq<Frame>): State
  {
    if frames == [] then s else StepFrame(RunFrames(s, frames[..|frames| - 1]), frames[|frames| - 1])
  }

  /** Over any number of iterations the clock, the steps run and the
      accumulator are what the fixed-step arithmetic predicts from the frame
      times alone: the last reading, `TotalSteps` and `FinalLeftover`. */
  lemma {:induction false} RunFramesSteps(s: State, frames: seq<Frame>)
    ensures RunFrames(s, frames).time == LastTime(s.time, frames)
    ensures RunFrames(s, frames).steps == s.steps + TotalSteps(s.acc, FrameTimes(s.time, frames))
    ensures RunFrames(s, frames).acc == FinalLeftover(s.acc, FrameTimes(s.time, frames))
  {
    if frames != [] {
      var init := frames[..|frames| - 1];
      var f := frames[|frames| - 1];
      RunFramesSteps(s, init);
      var mid := RunFrames(s, init);
      var ts := FrameTimes(s.time, init);
      TotalStepsSnoc(s.acc, ts, f.newTime - mid.time);
    }
  }

  /** Over any number of iterations every event that arrived is either
      polled or still queued, in order, and nothing polled is taken back. */
  lemma {:induction false} RunFramesEvents(s: State, frames: seq<Frame>)
    ensures RunFrames(s, frames).polled + RunFrames(s, frames).queue == s.polled + s.queue + Arrived(frames)
    ensures s.polled <= RunFrames(s, frames).polled
  {
    if frames != [] {
      RunFramesEvents(s, frames[..|frames| - 1]);
    }
  }

  /** The clock never goes back: from `t` through every frame's sample. */
  predicate MonotoneClock(t: real, frames: seq<Frame>)
  {
    (forall i :: 0 <= i < |frames| ==> t <= frames[i].newTime) &&
    (forall i, j :: 0 <= i < j < |frames| ==> frames[i].newTime <= frames[j].newTime)
  }

  /** With a clock that never goes back, the accumulator stays in
      `[0, TimeStep)` however many iterations run. */
  lemma {:induction false} RunFramesBounded(s: State, frames: seq<Frame>)
    requires 0.0 <= s.acc < TimeStep && MonotoneClock(s.time, frames)
    ensures 0.0 <= RunFrames(s, frames).acc < TimeStep
  {
    if frames != [] {
      var init := frames[..|frames| - 1];
      var f := frames[|frames| - 1];
      RunFramesBounded(s, init);
      RunFramesSteps(s, init);
      var mid := RunFrames(s, init);
      assert f.newTime >= mid.time by {
        if init != [] {
          assert init[|init| - 1] == frames[|frames| - 2];
        }
      }
      LeftoverBound(mid.acc, f.newTime - mid.time);
    }
  }

  /** The delays the frame cap issues after each of the first `n` of
      `frames`. */
  function Delays(frames: seq<Frame>, n: nat): (ds: seq<Option<int>>)
    requires n <= |frames|
    requires forall i :: 0 <= i < |frames| ==> frames[i].refreshRate != 0
    ensures |ds| == n
    ensures forall i :: 0 <= i < n ==> ds[i] == FrameDelay(FrameTicks(frames[i]), frames[i].refreshRate)
  {
    if n == 0 then []
    else Delays(frames, n - 1) + [FrameDelay(FrameTicks(frames[n - 1]), frames[n - 1].refreshRate)]
  }

  /** The events polled only grow from one iteration to the next: what
      had been polled after the first `j` frames is a prefix of what has
      been polled after the first `k`. */
  lemma {:induction false} RunFramesPolledGrows(s: State, frames: seq<Frame>, j: nat, k: nat)
    requires j <= k <= |frames|
    ensures RunFrames(s, frames[..j]).polled <= RunFrames(s, frames[..k]).polled
    decreases k - j
  {
    if j < k {
      RunFramesPolledGrows(s, frames, j, k - 1);
      assert frames[..k][..k - 1] == frames[..k - 1];
    }
  }

  /** If no quit had been polled by the end of frame `n - 1`, none had been
      polled by the end of any earlier frame either: a quit request, once
      polled, stays polled. */
  lemma QuitBeforeLast(s: State, frames: seq<Frame>, n: nat, k: nat)
    requires 0 < k < n <= |frames|
    requires Quit !in RunFrames(s, frames[..n - 1]).polled
    ensures Quit !in RunFrames(s, frames[..k]).polled
  {
    RunFramesPolledGrows(s, frames, k, n - 1);
  }

  /** The settings before any event has been polled: running, full screen,
      and the font sized for full screen. */
  function Initial(): (f: Flags)
    ensures f == Flags(true, StartFullscreen, FontSizeFor(StartFullscreen))
  {
    StartupMatchesToggleRule(StartFullscreen);
    Flags(true, StartFullscreen, StartupFontSize(StartFullscreen))
  }

  class GameLoop {
    /** Elapsed time not yet consumed by fixed steps, in milliseconds. */
    var accumulator: real
    /** The clock reading of the previous iteration. */
    var currentTime: real
    var gameRunning: bool
    /** The window's full-screen flag. */
    var fullscreen: bool
    var fontSize: real
    /** Events queued and not yet polled, oldest first. */
    var queue: seq<Event>

    /** The first clock reading, taken before the loop starts. */
    ghost var startTime: real
    /** Fixed steps run so far. */
    ghost var totalSteps: nat
    /** Every event polled so far, in order. */
    ghost var polled: seq<Event>

    /** The settings that events change, as one value. */
    function Settings(): Flags
      reads this
    {
      Flags(gameRunning, fullscreen, fontSize)
    }

    /** The clock, accumulator, polled events, queue and step count, as one
        value. */
    ghost function Snapshot(): State
      reads this
    {
      State(currentTime, accumulator, polled, queue, totalSteps)
    }

    /** The loop invariant: less than one step is left over; the steps run
        and the leftover together account for all time elapsed since the
        first clock reading; the settings are what the events polled so far
        made of the initial ones. */
    ghost predicate Valid()
      reads this
    {
      accumulator < TimeStep &&
      totalSteps as real * TimeStep + accumulator == currentTime - startTime &&
      Settings() == AfterEvents(Initial(), polled)
    }

    /** The state just before the loop: the clock read once, nothing
        accumulated, the game running, the window full screen and the font
        sized for it. */
    constructor (now: real)
      ensures Valid()
      ensures currentTime == now && accumulator == 0.0
      ensures gameRunning && fullscreen == StartFullscreen
      ensures fontSize == FontSizeFor(StartFullscreen)
      ensures queue == [] && polled == [] && totalSteps == 0
    {
      accumulator := 0.0;
      currentTime := now;
      gameRunning := true;
      fullscreen := StartFullscreen;
      fontSize := StartupFontSize(StartFullscreen);
      queue := [];
      startTime := now;
      totalSteps := 0;
      polled := [];
      StartupMatchesToggleRule(StartFullscreen);
    }

    /** The `while (SDL_PollEvent(&event))` loop: takes every queued event
        in order and applies it to the settings. */
    method PollEvents()
      modifies this`gameRunning, this`fullscreen, this`fontSize, this`queue, this`polled
      ensures Settings() == AfterEvents(old(Settings()), old(queue))
      ensures queue == [] && polled == old(polled) + old(queue)
    {
      ghost var f0, q0, p0 := Settings(), queue, polled;
      ghost var n: nat := 0;
      while queue != []
        invariant n <= |q0| && queue == q0[n..]
        invariant Settings() == AfterEvents(f0, q0[..n])
        invariant polled == p0 + q0[..n]
        decreases |queue|
      {
        ghost var before := Settings();
        var event := queue[0];
        queue := queue[1..];
        if event == Quit {
          gameRunning := false;
        }
        if event.KeyUp? {
          if event.sym == ToggleKey {
            fullscreen := !fullscreen;
            fontSize := FontSizeFor(fullscreen);
          }
        }
        assert Settings() == AfterEvent(before, event);
        assert q0[..n + 1] == q0[..n] + [event];
        assert p0 + q0[..n + 1] == polled + [event];
        polled := polled + [event];
        n := n + 1;
      }
      assert q0[..n] == q0;
    }

    /** The `while (accumulator >= timeStep)` loop: runs one step per whole
        `TimeStep` in the accumulator, polling the queue at every step, so
        that the queued events are polled exactly when a step is run. */
    method Drain() returns (steps: nat)
      modifies this`accumulator, this`gameRunning, this`fullscreen, this`fontSize,
        this`queue, this`polled, this`totalSteps
      ensures steps == StepsDue(old(accumulator))
      ensures accumulator == old(accumulator) - steps as real * TimeStep
      ensures totalSteps == old(totalSteps) + steps
      ensures steps > 0 ==>
        (Settings() == AfterEvents(old(Settings()), old(queue)) &&
         queue == [] && polled == old(polled) + old(queue))
      ensures steps == 0 ==>
        (Settings() == old(Settings()) && queue == old(queue) && polled == old(polled))
      ensures totalSteps as real * TimeStep + accumulator == old(totalSteps) as real * TimeStep + old(accumulator)
      ensures old(Settings()) == AfterEvents(Initial(), old(polled)) ==> Settings() == AfterEvents(Initial(), polled)
    {
      ghost var a0, f0, q0, p0 := accumulator, Settings(), queue, polled;
      steps := 0;
      while accumulator >= TimeStep
        invariant accumulator == a0 - steps as real * TimeStep
        invariant steps > 0 ==> accumulator >= 0.0
        invariant steps <= StepsDue(a0)
        invariant totalSteps == old(totalSteps) + steps
        invariant steps > 0 ==> Settings() == AfterEvents(f0, q0) && queue == [] && polled == p0 + q0
        invariant steps == 0 ==> Settings() == f0 && queue == q0 && polled == p0
        decreases StepsDue(a0) - steps
      {
        StepsDueAtLeast(a0, steps + 1);
        PollEvents();
        accumulator := accumulator - TimeStep;
        steps := steps + 1;
        totalSteps := totalSteps + 1;
      }
      if steps > 0 {
        StepsDueUnique(a0, steps);
        AfterEventsAppend(Initial(), p0, q0);
      }
    }

    /** One iteration of the loop body. The iteration runs to its end even
        when a quit request is polled: the remaining steps, the frame and
        the frame cap still happen. */
    method Iterate(frame: Frame) returns (steps: nat, alpha: real, delay: Option<int>)
      requires Valid()
      requires frame.refreshRate != 0
      modifies this
      ensures Valid() && startTime == old(startTime)
      ensures Snapshot() == StepFrame(old(Snapshot()), frame)
      ensures steps == StepsDue(old(accumulator) + (frame.newTime - old(currentTime)))
      ensures alpha == Alpha(accumulator)
      ensures old(accumulator) >= 0.0 && frame.newTime >= old(currentTime) ==>
        0.0 <= accumulator < TimeStep && 0.0 <= alpha < 1.0
      ensures frame.newTime == old(currentTime) ==> steps == 0 && accumulator == old(accumulator)
      ensures steps > 0 ==> Settings() == AfterEvents(old(Settings()), old(queue) + frame.arrived)
      ensures steps == 0 ==> Settings() == old(Settings())
      ensures delay == FrameDelay(FrameTicks(frame), frame.refreshRate)
    {
      var startTicks := TruncToInt(frame.startClock);
      steps := Simulate(frame);
      alpha := Alpha(accumulator);
      var frameTicks := TruncToInt(frame.endClock - startTicks as real);
      delay := FrameDelay(frameTicks, frame.refreshRate);
    }

    /** The simulation part of an iteration: the clock is read, the events
        that arrived join the queue, the elapsed time is added to the
        accumulator and drained. */
    method Simulate(frame: Frame) returns (steps: nat)
      requires Valid()
      modifies this
      ensures Valid() && startTime == old(startTime)
      ensures Snapshot() == StepFrame(old(Snapshot()), frame)
      ensures steps == StepsDue(old(accumulator) + (frame.newTime - old(currentTime)))
      ensures steps > 0 ==> Settings() == AfterEvents(old(Settings()), old(queue) + frame.arrived)
      ensures steps == 0 ==> Settings() == old(Settings())
    {
      var newTime := frame.newTime;
      var frameTime := newTime - currentTime;
      currentTime := newTime;
      queue := queue + frame.arrived;
      accumulator := accumulator + frameTime;
      steps := Drain();
      assert old(polled) + (old(queue) + frame.arrived) == old(polled) + old(queue) + frame.arrived;
      StepFrameFrom(old(Snapshot()), frame, Snapshot());
    }

    /** One turn of the outer loop, while the game is running: the
        iteration for `frames[n]` after the first `n` have run from `s0`. */
    method Advance(frames: seq<Frame>, n: nat, ghost s0: State) returns (delay: Option<int>)
      requires n < |frames| && frames[n].refreshRate != 0
      requires Valid() && gameRunning
      requires Snapshot() == RunFrames(s0, frames[..n])
      modifies this
      ensures Valid() && startTime == old(startTime)
      ensures Snapshot() == RunFrames(s0, frames[..n + 1])
      ensures Quit !in RunFrames(s0, frames[..n]).polled
      ensures delay == FrameDelay(FrameTicks(frames[n]), frames[n].refreshRate)
    {
      SettingsFromHistory(this);
      assert frames[..n + 1][..n] == frames[..n];
      var steps, alpha;
      steps, alpha, delay := Iterate(frames[n]);
    }

    /** The outer `while (gameRunning)` loop over the given frames. It runs
        iterations while the game is running and frames remain, so it stops
        right after the iteration that polled a quit request. It returns how
        many iterations ran and the delay each one issued. */
    method Run(frames: seq<Frame>) returns (ran: nat, delays: seq<Option<int>>)
      requires Valid()
      requires forall i :: 0 <= i < |frames| ==> frames[i].refreshRate != 0
      modifies this
      ensures Valid() && startTime == old(startTime)
      ensures ran <= |frames| && |delays| == ran
      ensures Snapshot() == RunFrames(old(Snapshot()), frames[..ran])
      ensures ran < |frames| ==> !gameRunning
      ensures !old(gameRunning) ==> ran == 0
      ensures ran > 0 ==> Quit !in RunFrames(old(Snapshot()), frames[..ran - 1]).polled
      ensures delays == Delays(frames, ran)
      ensures old(polled) <= polled
      ensures Settings() == AfterEvents(old(Settings()), polled[|old(polled)|..])
    {
      ran, delays := 0, [];
      assert frames[..0] == [];
      ghost var s0, p0 := Snapshot(), polled;
      while ran < |frames| && gameRunning
        invariant Valid() && startTime == old(startTime)
        invariant ran <= |frames| && |delays| == ran
        invariant Snapshot() == RunFrames(s0, frames[..ran])
        invariant !old(gameRunning) ==> ran == 0 && !gameRunning
        invariant ran > 0 ==> Quit !in RunFrames(s0, frames[..ran - 1]).polled
        invariant delays == Delays(frames, ran)
      {
        var delay := Advance(frames, ran, s0);
        delays := delays + [delay];
        ran := ran + 1;
      }
      RunFramesEvents(s0, frames[..ran]);
      AfterEventsPrefix(Initial(), p0, polled);
    }
  }

  /** Together with the invariant: the game is running exactly while no
      quit request has been polled, and the window is full screen exactly
      when the toggle key has been released an even number of times. */
  lemma SettingsFromHistory(g: GameLoop)
    requires g.Valid()
    ensures g.gameRunning <==> Quit !in g.polled
    ensures g.fullscreen <==> ToggleCount(g.polled) % 2 == 0
    ensures g.fontSize == FontSizeFor(g.fullscreen)
  {
    AfterEventsRunning(Initial(), g.polled);
    AfterEventsFullscreen(Initial(), g.polled);
    AfterEventsFontConsistent(Initial(), g.polled);
  }

  /** With a clock that never went back, the steps run so far are the whole
      steps in the time elapsed since the first clock reading. */
  lemma ElapsedSteps(g: GameLoop)
    requires g.Valid() && g.accumulator >= 0.0
    ensures g.totalSteps == StepsDue(g.currentTime - g.startTime)
  {
    StepsDueUnique(g.currentTime - g.startTime, g.totalSteps);
  }

  /** A client of the loop: a 25 ms frame at 60 Hz that took 10 ms runs two
      steps, leaves 5 ms over and waits 6 ms; a later frame that brings a
      toggle and a quit request runs one step, leaves the window windowed
      with the windowed font, and stops the game. */
  method Scenario()
  {
    var g := new GameLoop(0.0);
    StepsDueUnique(25.0, 2);
    var steps, alpha, delay := g.Iterate(Frame(0.0, 25.0, 10.0, [], 60));
    assert steps == 2 && g.accumulator == 5.0 && alpha == 0.5;
    FrameCap.SixtyHertz();
    assert delay == Some(6);
    StepsDueUnique(15.0, 1);
    steps, alpha, delay := g.Iterate(Frame(25.0, 35.0, 45.0, [KeyUp(ToggleKey), Quit], 60));
    assert steps == 1 && g.accumulator == 5.0;
    assert [KeyUp(ToggleKey), Quit][..1] == [KeyUp(ToggleKey)];
    assert [KeyUp(ToggleKey)][..0] == [];
    assert !g.gameRunning && !g.fullscreen && g.fontSize == 25.0;
    assert delay == None;
  }
}
