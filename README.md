# Game loop of a minimal SDL game engine, modelled in Dafny

The program's `main` (src/main.cpp) sets up SDL, a window, a font and
music, and then runs a fixed-timestep game loop. This project models that
loop and proves its guarantees:

- **Fixed-step drain.** Each iteration reads the clock, adds the elapsed
  time to an accumulator and drains it in 10 ms steps.
- **Event handling.** Each drain step polls the event queue. A quit request
  clears `gameRunning`. A release of the `f` key toggles full screen and
  resizes the font: 25 when windowed, 25 × 1.5 when full screen.
- **Interpolation fraction.** After the drain, `alpha = accumulator / timeStep`.
- **Frame cap.** A frame that took `frameTicks` ms is followed by a delay of
  `1000 / refreshRate - frameTicks` ms, but only when that is positive.

Files, one module each:

- `events.dfy` (`Events`): the events, the settings they change, the
  font-size rule, and the effect of a polled sequence of events.
- `fixed_step.dfy` (`FixedStep`): the 10 ms step arithmetic. It covers the
  step count of one drain, the leftover, alpha, and what happens across any
  number of iterations.
- `frame_cap.dfy` (`FrameCap`): the frame budget with C++'s truncating
  integer division, and the delay.
- `game_loop.dfy` (`MainLoop`): the class `GameLoop` holding the loop state
  that `main` updates in place. Its methods are the event poll loop, the
  drain loop, one iteration of the body, and the outer `while (gameRunning)`
  loop. Each method is proved against the functions of the other modules.
  The pure function `StepFrame` is one iteration on the loop state (clock,
  accumulator, polled events, queue, step count), and `RunFrames` is any
  number of them; `Iterate` and `Run` are proved to follow them exactly.
  `Valid()` is the invariant the loop keeps: less than one step is left
  over; the steps run plus the leftover equal the time elapsed since the
  first clock reading; the settings are what the polled events made of the
  initial ones.

The environment enters as data. A `Frame` holds one iteration's three clock
readings (milliseconds, possibly with a fraction), the events that arrived
since the previous iteration, and the refresh rate the window reports. The
start reading is stored in an `int` and the frame duration is computed in
`int`, with C++'s truncation toward zero (`FrameTicks`). The delay is
returned, not slept.

Three behaviours of the code that the model keeps:

- When a frame uses up its budget, the code issues no delay call at all
  rather than a delay of 0. `FrameDelay` returns `None` for that case.
- After a quit request, the code still finishes the current iteration. The
  remaining drain steps run, and so do the render and the delay. The outer
  loop then exits.
- The code divides by the refresh rate without checking it. A rate of 0
  divides by zero, which C++ leaves undefined. The model therefore requires
  a nonzero rate wherever the division happens (`Budget`, `FrameDelay`,
  `Iterate`, `Run`). A negative rate is allowed and follows C++'s
  truncation toward zero.

## Model

| member | source | states |
|---|---|---|
| Events.FontSizeFor | src/main.cpp:17 | the toggle's font size is at least the windowed size 25, above it exactly when full screen, and then 1.5 times it |
| Events.StartupFontSize | src/main.cpp:42 | the font size chosen at start-up, `25 * (fullscreen * 0.5 + 1)` with the flag promoted to 0 or 1 |
| Events.StartupMatchesToggleRule | src/main.cpp:42 | the start-up size `25 * (fullscreen * 0.5 + 1)` equals the toggle rule's size, for both settings |
| Events.AfterEvent | src/main.cpp:67-75 | one event: the game keeps running iff it was running and the event is not a quit; only a release of `f` flips full screen and resizes the font to match; any other event changes nothing |
| Events.AfterEvents | src/main.cpp:66-76 | the poll loop as a fold: the running flag, full-screen flag and font size after applying `AfterEvent` to each event in order |
| Events.AfterEventsAppend | src/main.cpp:66-76 | polling `a` and then `b` has the effect of polling `a + b` |
| Events.AfterEventsPrefix | src/main.cpp:66-76 | if `a` is a prefix of `es`, polling `es` has the effect of polling `a` and then the rest of `es`; `Run` uses it to state its settings as the effect of the newly polled events on the old settings |
| Events.AfterEventsRunning | src/main.cpp:66-69 | after a sequence of events the game is running iff it was before and no quit was polled; nothing sets it true again |
| Events.AfterEventsFullscreen | src/main.cpp:70-74 | after a sequence of events the window is full screen iff it was before XOR an odd number of `f` releases was polled |
| Events.AfterEventsFontConsistent | src/main.cpp:70-74 | polling keeps the font size equal to the rule's size for the current full-screen flag |
| Events.ToggleTwice | src/main.cpp:70-74 | two `f` releases restore both full screen and font size |
| FixedStep.StepsDue | src/main.cpp:65-78 | the drain's step count is 0 iff less than one step is accumulated; it leaves less than one step over, and never a negative amount once it ran |
| FixedStep.StepsDueUnique | src/main.cpp:65-78 | any count that leaves between 0 and less than one step over is the drain's step count (it is `floor(acc / timeStep)`) |
| FixedStep.StepsDueAtLeast | src/main.cpp:65-78 | if `n` whole steps fit in the accumulator, the drain runs at least `n` |
| FixedStep.Alpha | src/main.cpp:79 | alpha times the step gives back the accumulator, and alpha lies in `[0, 1)` when the accumulator lies in `[0, timeStep)` |
| FixedStep.Leftover | src/main.cpp:64-78 | the accumulator after one iteration: the old accumulator plus the frame time, less `StepsDue` of that sum times the step |
| FixedStep.LeftoverBound | src/main.cpp:64-78 | an iteration that starts with the accumulator in `[0, timeStep)` and whose clock did not go back ends with it in that range again |
| FixedStep.ZeroFrameTime | src/main.cpp:61-65 | an iteration with zero elapsed time runs no step and leaves the accumulator unchanged |
| FixedStep.TotalSteps | src/main.cpp:58-78 | the steps run over a sequence of iterations, one frame time each: each iteration's `StepsDue`, starting from the previous iteration's `Leftover` |
| FixedStep.FinalLeftover | src/main.cpp:58-78 | the accumulator after a sequence of iterations: `Leftover` applied frame time by frame time |
| FixedStep.Conservation | src/main.cpp:57-78 | over any sequence of iterations, steps run × timeStep + final accumulator = initial accumulator + total elapsed time |
| FixedStep.FinalLeftoverBound | src/main.cpp:58-78 | with a non-decreasing clock the accumulator stays in `[0, timeStep)` across any number of iterations |
| FixedStep.TotalStepsSnoc | src/main.cpp:58-78 | one more iteration after a sequence adds the steps due on the leftover so far plus its frame time, and leaves their leftover |
| FixedStep.TotalStepsFromZero | src/main.cpp:55-78 | starting from accumulator 0, the total steps equal `floor(total elapsed / timeStep)`, however the time is split into frames |
| FrameCap.TruncDiv | src/main.cpp:99 | C++ `int` division, for a non-negative dividend (the dividend here is 1000): the quotient times a positive divisor is at most the dividend, and one more would exceed it; the mirror bound holds for a negative divisor |
| FrameCap.TruncToInt | src/main.cpp:59 | a floating value stored in an `int` loses its fraction toward zero: the result is within one of the value, below it for a non-negative value and above it for a negative one |
| FrameCap.TruncWhole | src/main.cpp:59 | a whole number of milliseconds is stored in an `int` unchanged |
| FrameCap.Budget | src/main.cpp:99 | for a positive refresh rate the budget `1000 / refreshRate` is the largest whole number of ms of which `refreshRate` fit into 1000; it lies in `[0, 1000]`; a negative rate gives a budget of at most 0 |
| FrameCap.FrameDelay | src/main.cpp:98-101 | a delay is issued iff `frameTicks < budget`; it is positive and `frameTicks + delay == budget`; it is at most the budget when `frameTicks >= 0` |
| FrameCap.SixtyHertz | src/main.cpp:98-101 | at 60 Hz the budget is 16 ms; a 10 ms frame waits 6 ms, and a 20 ms frame does not wait |
| FrameCap.CappedFrameFitsPeriod | src/main.cpp:99-100 | for a positive rate, a frame plus its delay lasts at most `1000 / refreshRate` ms, so `refreshRate` such frames fit into a second |
| MainLoop.Initial | src/main.cpp:35-42 | before any event the game is running, the window is full screen and the font has the full-screen size |
| MainLoop.FrameTicks | src/main.cpp:59-98 | the frame duration the cap compares: the start reading stored in an `int`, then the end reading minus it stored in an `int` again |
| MainLoop.FrameTicksWhole | src/main.cpp:59-98 | for readings in whole milliseconds the frame duration computed through the two `int` conversions is the plain difference of the end and start readings |
| MainLoop.GameLoop.constructor | src/main.cpp:35-57 | the loop starts with the clock read once, an empty accumulator, the game running, the window full screen and the font sized for full screen, and `Valid()` holds |
| MainLoop.GameLoop.PollEvents | src/main.cpp:66-76 | it polls every queued event in order, leaves the queue empty, and sets the settings to the effect of those events |
| MainLoop.GameLoop.Drain | src/main.cpp:65-78 | it runs `StepsDue(acc)` steps and takes exactly that many steps off the accumulator, so steps run × timeStep + accumulator is unchanged; the queued events are polled iff at least one step runs, and otherwise nothing changes; settings that were the effect of the polled events stay so |
| MainLoop.GameLoop.Simulate | src/main.cpp:60-78 | the clock, queue, accumulator and drain part of an iteration: it keeps `Valid()`; the new clock, accumulator, polled events, queue and step count are `StepFrame` of the old ones; it runs `StepsDue(acc + frameTime)` steps; when a step runs, the settings are the effect of the old queue plus the frame's events, and otherwise they are unchanged |
| MainLoop.GameLoop.Iterate | src/main.cpp:59-101 | it keeps `Valid()`; the new clock, accumulator, polled events, queue and step count are `StepFrame` of the old ones; it runs `StepsDue(acc + frameTime)` steps; alpha is `Alpha(accumulator)` and lies in `[0, 1)` on a non-decreasing clock; zero elapsed time runs no step and keeps the accumulator; when a step runs, the settings are the effect of the old queue plus the frame's events, and otherwise they are unchanged; the delay is `FrameDelay(FrameTicks(frame), refreshRate)` |
| MainLoop.StepFrame | src/main.cpp:59-78 | one iteration on the loop state: the clock becomes the new reading; steps × timeStep + accumulator grow by exactly the elapsed time; steps run iff the accumulator plus the elapsed time reaches one step; then the whole queue, with the frame's arrivals, is polled and the queue is empty; otherwise nothing is polled; polled events plus queue grow by exactly the arrivals, and nothing polled is taken back |
| MainLoop.RunFrames | src/main.cpp:58-78 | the outer loop as a fold: `StepFrame` applied to each frame in order |
| MainLoop.RunFramesSteps | src/main.cpp:58-78 | over any number of iterations the clock is the last reading, and the steps run and the accumulator are `TotalSteps` and `FinalLeftover` of the frame times alone |
| MainLoop.RunFramesEvents | src/main.cpp:58-76 | over any number of iterations the polled events plus the queue are the old ones plus every frame's arrivals in order, and the old polled events stay a prefix |
| MainLoop.RunFramesBounded | src/main.cpp:58-78 | with a clock that never goes back, the accumulator stays in `[0, timeStep)` over any number of iterations |
| MainLoop.RunFramesPolledGrows | src/main.cpp:58-76 | the events polled only grow from iteration to iteration: what was polled after `j` frames is a prefix of what was polled after `k >= j` |
| MainLoop.QuitBeforeLast | src/main.cpp:58-69 | if no quit had been polled by the end of the next-to-last iteration, none had been polled by the end of any earlier one |
| MainLoop.Delays | src/main.cpp:98-101 | one delay for each of the first `n` frames, each that frame's `FrameDelay` |
| MainLoop.GameLoop.Advance | src/main.cpp:58-101 | one turn of the outer loop while the game runs: the state after the first `n` frames is `RunFrames` over them, and after the turn it is `RunFrames` over `n + 1`; no quit had been polled before the turn; the delay is frame `n`'s `FrameDelay` |
| MainLoop.GameLoop.Run | src/main.cpp:58-102 | it keeps `Valid()`; the new clock, accumulator, polled events, queue and step count are `RunFrames` of the old ones over the frames that ran, so every iteration polled exactly what `StepFrame` says; it runs none if the game had already stopped; it stops before the frames run out only when the game has stopped; no quit had been polled by the end of the next-to-last iteration, so it exits right after the iteration that polled one; the delays are `Delays` of the frames that ran; the old polled events stay a prefix, and the settings are the effect of the newly polled events on the old settings |
| MainLoop.SettingsFromHistory | src/main.cpp:66-74 | in any valid state the game is running iff no quit was ever polled; the window is full screen iff the number of `f` releases is even; the font matches the window |
| MainLoop.ElapsedSteps | src/main.cpp:57-78 | with a non-negative accumulator, the steps run so far equal `floor((currentTime - startTime) / timeStep)` |

## Left out

- SDL, SDL_image, SDL_ttf and SDL_mixer initialisation, error logging and `Mix_OpenAudio` (src/main.cpp:20-32). These are foreign library calls.
- Window creation, font and music loading, playback (src/main.cpp:36-49), and teardown (src/main.cpp:103-106). These are resource handling in headers that are not part of this model.
- Rendering (src/main.cpp:81-97): `clear`, the visit over the texture list (always empty), `renderText` and `display`. They only call the renderer. Alpha is computed and returned but the code never uses it.
- `utils::totalTimeMS`, `SDL_PollEvent` and `SDL_Delay` are not called. Clock readings are fields of a `Frame`. Queued events are a sequence. The delay is a returned value. `utils/Utils.hpp` is not part of this model, so the return type of `utils::totalTimeMS` is unknown. The model takes readings as real milliseconds and applies the code's conversions to `int`; for whole-millisecond readings these are exact (`FrameTicksWhole`).
- Events arriving while the drain runs: the model appends each iteration's new events to the queue before that iteration's drain. The first step polls all of them and later steps poll an empty queue.
- MainLoop.FrameTicks: the two conversions to `int` (src/main.cpp:59 and 98) are modelled without the 32-bit range of `int`. Readings are taken to stay below 2^31 ms (about 24.8 days of uptime); beyond that the C++ conversion is undefined.
- Floating point: `accumulator`, `currentTime`, `frameTime` and `alpha` are `float` in the code. The model uses exact reals. Rounding is not modelled.
- Events.FontSizeFor: the size is a real (37.5 when full screen). `render/Font.hpp` is not part of this model, so whether the `Font` constructor at start-up (src/main.cpp:42) or `resize` (src/main.cpp:73) truncates 37.5 to an integer is not captured.
- `toggleFullScreen` and `getIsFullScreen` (`render/RenderWindow.hpp`, not part of this model) are modelled as flipping and reading one boolean.
- The refresh rate is read twice (src/main.cpp:99-100). The model reads it once per iteration.
- The unused `idkSomethingIg`, `argc` and `argv`.
- MainLoop.GameLoop.Run: the source loop runs until quit. The model runs over a finite sequence of frames, so it also stops when the frames run out.
