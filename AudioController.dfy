/**
 * The controller object: 16 step flags updated in place, the transport flag,
 * and the 16 scheduled loops. Each method is proved to move the abstract
 * Model() exactly as the matching function of SequencerState does.
 */
module Controller {
  import opened SequencerState

  class AudioController {
    /** One flag per beat slot; flipped in place by ToggleStep. */
    var steps: array<bool>
    /** One loop per step, each closing over its step index. */
    var loops: seq<StepLoop>
    var isPlaying: bool
    /** The shared transport clock of the audio library; not a field of the source object. */
    ghost var transportRunning: bool

    ghost function Model(): ControllerState
      reads this, steps
    {
      ControllerState(steps[..], isPlaying, loops, transportRunning)
    }

    ghost predicate Valid()
      reads this, steps
    {
      steps.Length == StepCount && SequencerState.Valid(Model())
    }

    /** All steps off, one stopped loop per step index, transport stopped. */
    constructor ()
      ensures Valid() && fresh(steps)
      ensures Model() == Initial()
    {
      steps := new bool[StepCount](_ => false);
      loops := seq(StepCount, i requires 0 <= i < StepCount => StepLoop(i, Stopped));
      isPlaying := false;
      transportRunning := false;
      new;
      assert steps[..] == Initial().steps;
    }

    /** Flip the flag of step `stepIndex`; nothing else changes. */
    method ToggleStep(stepIndex: nat)
      requires Valid() && stepIndex < StepCount
      modifies steps
      ensures Valid()
      ensures Model() == Toggle(old(Model()), stepIndex)
    {
      steps[stepIndex] := !steps[stepIndex];
    }

    /**
     * Flip isPlaying; when now playing start every loop at offset 0 and then
     * the transport, otherwise stop every loop and then the transport.
     */
    method StartStopLoop()
      requires Valid()
      modifies this
      ensures Valid() && steps == old(steps)
      ensures Model() == StartStop(old(Model()))
    {
      isPlaying := !isPlaying;

      if isPlaying {
        var j := 0;
        while j < |loops|
          modifies this`loops
          invariant 0 <= j <= |loops| == StepCount
          invariant forall k :: 0 <= k < j ==> loops[k] == StepLoop(old(loops)[k].stepIndex, Started(0))
          invariant forall k :: j <= k < |loops| ==> loops[k] == old(loops)[k]
        {
          loops := loops[j := loops[j].(state := Started(0))];
          j := j + 1;
        }
        transportRunning := true;
      } else {
        var j := 0;
        while j < |loops|
          modifies this`loops
          invariant 0 <= j <= |loops| == StepCount
          invariant forall k :: 0 <= k < j ==> loops[k] == StepLoop(old(loops)[k].stepIndex, Stopped)
          invariant forall k :: j <= k < |loops| ==> loops[k] == old(loops)[k]
        {
          loops := loops[j := loops[j].(state := Stopped)];
          j := j + 1;
        }
        transportRunning := false;
      }
      assert loops == SetAll(old(loops), LoopStateFor(isPlaying));
    }

    /**
     * The callback of loop `k`, run by the transport on each tick while the
     * loops are started: it fires exactly when step `k` is on, and the note
     * it fires is one of those in Tick(Model()).
     */
    method LoopCallback(k: nat) returns (fire: bool)
      requires Valid() && k < |loops|
      ensures fire == steps[k]
      ensures fire && isPlaying <==> k in Tick(Model())
    {
      fire := ShouldTrigger(steps[..], loops[k].stepIndex);
      TickFiresOnSteps(Model());
    }
  }

  /**
   * A client: turn on steps 0 and 4 and start; a tick fires exactly those two
   * steps. Stop again and a tick fires nothing.
   */
  method StepsZeroAndFourClient() {
    var c := new AudioController();
    c.ToggleStep(0);
    c.ToggleStep(4);
    c.StartStopLoop();
    StepsZeroAndFourScenario();
    assert c.isPlaying && Tick(c.Model()) == [0, 4];
    var fire := c.LoopCallback(4);
    assert fire;
    fire := c.LoopCallback(5);
    assert !fire;
    c.StartStopLoop();
    assert !c.isPlaying && Tick(c.Model()) == [];
  }
}
