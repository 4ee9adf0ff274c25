# tone-sequencer: AudioController in Dafny

A model of the `AudioController` class of a 16-step drum sequencer, with proofs
about it. The controller holds 16 step flags and a transport flag, and it owns
16 repeating loops. Each loop's callback closes over a step index and plays a
note on every tick when that step is on. `toggleStep` flips one flag.
`startStopLoop` flips the transport flag, then starts or stops all loops and the
shared transport clock.

The model is in two modules:

- `SequencerState` (SequencerState.dfy) describes the whole observable state as a
  value, `ControllerState`. This value holds the steps, `isPlaying`, the loops
  (each a step index plus `Stopped` or `Started(offset)`) and the transport clock.
  It defines the operations as functions (`Initial`, `Toggle`, `StartStop`). It
  defines a tick of the transport clock as the list of step indices whose notes
  fire (`Fired`, `Tick`); nothing fires while the transport is stopped. The lemmas
  state what follows from these.
- `Controller` (AudioController.dfy) holds the class `AudioController`. Its
  fields are `steps: array<bool>` (updated in place), `loops`, `isPlaying` and a
  ghost `transportRunning` for the library's global transport. Each method is
  proved to move `Model()` exactly as the matching function does. Each method
  also keeps `Valid()`: every loop and the transport are running exactly when
  `isPlaying` is set.

The audio library (synth voices, `triggerAttackRelease`, `Tone.Loop`,
`Tone.Transport`) is not modelled as code. A loop is its captured step index
plus a run state, and the transport clock is a boolean.

All 16 loops repeat every quarter note ("4n") and are started at offset 0
(src/ts/AudioController.ts:17 and :30). So on every tick, every step that is on
sounds at the same moment. The model keeps this behaviour:
`StepsZeroAndFourScenario` fires steps 0 and 4 on the same tick.

## Model

| member | source | states |
|---|---|---|
| `SequencerState.Initial` | src/ts/AudioController.ts:9-19 | after construction there are 16 steps, all off; the loop at position k closes over index k and is not started; `isPlaying` and the transport are off; the state satisfies `Valid` |
| `Controller.AudioController.constructor` | src/ts/AudioController.ts:9-19 | a new controller has a fresh 16-flag array, satisfies `Valid()`, and its state is `Initial()` |
| `SequencerState.Toggle` | src/ts/AudioController.ts:22-24 | step i becomes the negation of its old value; every other step, the length, `isPlaying`, the loops and the transport are unchanged; `Valid` is preserved |
| `Controller.AudioController.ToggleStep` | src/ts/AudioController.ts:22-24 | only the step array changes, in place, and the new state is `Toggle(old state, stepIndex)`; `Valid()` is kept |
| `SequencerState.ToggleTwice` | src/ts/AudioController.ts:23 | toggling the same step twice restores the original state |
| `SequencerState.ToggleCommutes` | src/ts/AudioController.ts:23 | toggling steps i then j gives the same state as toggling j then i |
| `SequencerState.StartStop` | src/ts/AudioController.ts:26-35 | `isPlaying` is negated and the steps are unchanged; when now playing every loop is `Started(0)` and the transport runs, otherwise every loop is `Stopped` and the transport is stopped; each loop keeps its step index; `Valid` is preserved |
| `Controller.AudioController.StartStopLoop` | src/ts/AudioController.ts:26-35 | the step array is untouched and the new state is `StartStop(old state)`; both per-loop passes are proved by loop invariants; `Valid()` is kept |
| `SequencerState.StartStopTwice` | src/ts/AudioController.ts:26-35 | from a valid state, two presses of start/stop restore the whole state, loops and transport included |
| `SequencerState.StartStopParity` | src/ts/AudioController.ts:27 | after n presses the state is the original one when n is even and one press when n is odd; so `isPlaying` is flipped exactly when n is odd and the steps never change |
| `SequencerState.ToggleStartStopCommute` | src/ts/AudioController.ts:22-35 | toggling a step and pressing start/stop commute |
| `SequencerState.ShouldTrigger` | src/ts/AudioController.ts:14 | the callback's decision for index i is the flag `steps[i]` read when the tick happens; what is proved about it is stated by `Controller.AudioController.LoopCallback` and `SequencerState.TickReadsOnlyItsStep` |
| `SequencerState.Tick` | src/ts/AudioController.ts:11-17 | one tick runs the callback of every started loop; nothing fires while the transport is stopped, and only steps that are on fire; what is proved about it is stated by `SequencerState.TickFiresOnSteps` |
| `SequencerState.TickReadsOnlyItsStep` | src/ts/AudioController.ts:13-14 | two valid states that agree on `isPlaying` and on step i agree on whether i fires on a tick; loop i reads no other step |
| `SequencerState.Fired` | src/ts/AudioController.ts:11-17 | a tick fires at most one note per loop, and only for indices whose step is on |
| `SequencerState.FiredMembers` | src/ts/AudioController.ts:11-16 | index x fires on a tick exactly when some started loop closes over x and step x is on (both directions) |
| `SequencerState.FiredIncreasing` | src/ts/AudioController.ts:11-16 | when loops are numbered consecutively from a base, the fired indices are strictly increasing (each fires at most once) and lie in the loops' range |
| `SequencerState.FiredAllStopped` | src/ts/AudioController.ts:13-16 | loops that are all stopped fire nothing |
| `SequencerState.TickFiresOnSteps` | src/ts/AudioController.ts:11-17 | in a valid state, step i fires on a tick exactly when the controller is playing and step i is on; each index appears at most once, in step order in the model's list |
| `SequencerState.StoppedIsSilent` | src/ts/AudioController.ts:32-35 | in a valid stopped state the controller's loops fire nothing, even if the transport were running, and a tick fires nothing |
| `SequencerState.StepsZeroAndFourScenario` | src/ts/AudioController.ts:9-35 | from construction, turning on steps 0 and 4 and pressing start/stop gives a playing state whose tick fires exactly [0, 4]; a second press stops the loops and the transport, and a tick then fires nothing |
| `Controller.AudioController.LoopCallback` | src/ts/AudioController.ts:13-16 | loop k's callback decides to fire exactly when `steps[k]` is on, and index k is in the tick's notes exactly when the callback fires and the controller is playing |

## Left out

- The audio library itself (`new Tone.Synth().toDestination()`, `triggerAttackRelease("C2", "8n", time)`, the `Tone.Loop` objects, `Tone.Transport.start/stop`): it is a foreign library outside the core, so its code is not modelled. A loop is a step index plus a run state, and the transport is a ghost boolean.
- SequencerState.Initial: it assumes the transport is stopped when the controller is built. The source constructor (src/ts/AudioController.ts:9-20) does not touch `Tone.Transport`.
- Controller.AudioController.constructor: it assumes this controller is the only user of `Tone.Transport`. The transport is one global object of the library. The model keeps it beside each controller's state, so code that starts or stops it from elsewhere is not captured. With two controllers, stopping one would silence the other while its `isPlaying` stays true.
- Audio timing: the `time` argument of the callback, the "4n" loop interval and the "8n" note length. A tick is one invocation of every started loop's callback, and its result is the list of step indices that fire.
- SequencerState.TickFiresOnSteps: the order of the notes within one tick is only the order of the model's list. All notes of a tick carry the same `time`, and the library decides in which order simultaneous callbacks run.
- Controller.AudioController.ToggleStep: it requires `stepIndex < 16`. The source does not check the bound, and JavaScript would add a new entry to the array for an index out of range.
- Controller.AudioController.StartStopLoop: the `Tone.Loop` objects are values in a sequence, so aliasing between them and the library is not captured.
- Interleaving of UI calls with scheduler callbacks: the event loop runs them one at a time, and each callback's decision is modelled at the moment it runs.
- vite.config.ts: build configuration with no logic.
