/**
 * The state of the 16-step sequencer as a value, and the operations of the
 * controller as functions on that value. The class in AudioController.dfy is
 * proved to follow these functions; the lemmas here are what follows for the
 * pattern, the transport and the notes fired on a tick.
 */
module SequencerState {

  /** Number of beat slots in the pattern (and of scheduled loops). */
  const StepCount: nat := 16

  /** What the audio library knows about one repeating loop. */
  datatype LoopState = Stopped | Started(offset: int)

  /** One scheduled loop: the step index its callback closes over, and its run state. */
  datatype StepLoop = StepLoop(stepIndex: nat, state: LoopState)

  /**
   * The whole observable state: the step flags, the transport flag of the
   * controller, the 16 loops and the shared transport clock of the library.
   */
  datatype ControllerState = ControllerState(
    steps: seq<bool>,
    isPlaying: bool,
    loops: seq<StepLoop>,
    transportRunning: bool)

  /** The state every loop is in while the controller is (not) playing. */
  function LoopStateFor(playing: bool): LoopState {
    if playing then Started(0) else Stopped
  }

  /**
   * The invariant the controller keeps: 16 steps, one loop per step index in
   * order, and every loop as well as the transport running exactly when
   * isPlaying is set.
   */
  ghost predicate Valid(s: ControllerState) {
    && |s.steps| == StepCount
    && |s.loops| == StepCount
    && (forall k :: 0 <= k < |s.loops| ==> s.loops[k].stepIndex == k)
    && (forall k :: 0 <= k < |s.loops| ==> s.loops[k].state == LoopStateFor(s.isPlaying))
    && s.transportRunning == s.isPlaying
  }

  /** The decision a loop's callback makes on each tick: fire when its step is on. */
  predicate ShouldTrigger(steps: seq<bool>, i: nat)
    requires i < |steps|
  {
    steps[i]
  }

  /** The state right after construction. */
  function Initial(): (s: ControllerState)
    ensures Valid(s)
    ensures |s.steps| == StepCount && forall k :: 0 <= k < |s.steps| ==> !s.steps[k]
    ensures !s.isPlaying && !s.transportRunning
    ensures forall k :: 0 <= k < |s.loops| ==> s.loops[k] == StepLoop(k, Stopped)
  {
    ControllerState(
      seq(StepCount, _ => false),
      false,
      seq(StepCount, i requires 0 <= i < StepCount => StepLoop(i, Stopped)),
      false)
  }

  /** Flip the flag of one step; nothing else changes. */
  function Toggle(s: ControllerState, i: nat): (t: ControllerState)
    requires i < |s.steps|
    ensures |t.steps| == |s.steps| && t.steps[i] == !s.steps[i]
    ensures forall k :: 0 <= k < |s.steps| && k != i ==> t.steps[k] == s.steps[k]
    ensures t.isPlaying == s.isPlaying && t.loops == s.loops
    ensures t.transportRunning == s.transportRunning
    ensures Valid(s) ==> Valid(t)
  {
    s.(steps := s.steps[i := !s.steps[i]])
  }

  /** Every loop of `loops` put into state `st`, each keeping its step index. */
  function SetAll(loops: seq<StepLoop>, st: LoopState): (r: seq<StepLoop>)
    ensures |r| == |loops|
    ensures forall k :: 0 <= k < |r| ==> r[k] == StepLoop(loops[k].stepIndex, st)
  {
    seq(|loops|, k requires 0 <= k < |loops| => loops[k].(state := st))
  }

  /**
   * Flip the transport flag, then start every loop at offset 0 and the
   * transport when now playing, or stop every loop and the transport when not.
   */
  function StartStop(s: ControllerState): (t: ControllerState)
    ensures t.isPlaying == !s.isPlaying
    ensures t.steps == s.steps
    ensures |t.loops| == |s.loops|
    ensures forall k :: 0 <= k < |t.loops| ==>
              t.loops[k].stepIndex == s.loops[k].stepIndex &&
              (t.isPlaying ==> t.loops[k].state == Started(0)) &&
              (!t.isPlaying ==> t.loops[k].state == Stopped)
    ensures t.transportRunning == t.isPlaying
    ensures Valid(s) ==> Valid(t)
  {
    var playing := !s.isPlaying;
    s.(isPlaying := playing,
       loops := SetAll(s.loops, LoopStateFor(playing)),
       transportRunning := playing)
  }

  /** `n` calls of the start/stop toggle in a row. */
  function StartStopTimes(s: ControllerState, n: nat): ControllerState
  {
    if n == 0 then s else StartStop(StartStopTimes(s, n - 1))
  }

  /**
   * The step indices whose notes fire on one tick of the transport: each
   * started loop, in order, whose callback finds its step on.
   */
  function Fired(steps: seq<bool>, loops: seq<StepLoop>): (r: seq<nat>)
    ensures |r| <= |loops|
    ensures forall x :: x in r ==> x < |steps| && steps[x]
  {
    if loops == [] then []
    else
      var head := loops[0];
      var now :=
        if head.state.Started? && head.stepIndex < |steps| && ShouldTrigger(steps, head.stepIndex)
        then [head.stepIndex] else [];
      now + Fired(steps, loops[1..])
  }

  /**
   * The notes fired by one tick in state `s`: the transport clock drives the
   * loops, so while it is stopped nothing fires.
   */
  function Tick(s: ControllerState): (r: seq<nat>)
    ensures !s.transportRunning ==> r == []
    ensures forall x :: x in r ==> s.transportRunning && x < |s.steps| && s.steps[x]
  {
    if s.transportRunning then Fired(s.steps, s.loops) else []
  }

  predicate StrictlyIncreasing(r: seq<nat>) {
    forall a, b :: 0 <= a < b < |r| ==> r[a] < r[b]
  }

  // ---------------------------------------------------------------------------
  // Steps

  /** Toggling the same step twice restores the whole state. */
  lemma ToggleTwice(s: ControllerState, i: nat)
    requires i < |s.steps|
    ensures Toggle(Toggle(s, i), i) == s
  {
  }

  /** The order in which two steps are toggled does not matter. */
  lemma ToggleCommutes(s: ControllerState, i: nat, j: nat)
    requires i < |s.steps| && j < |s.steps|
    ensures Toggle(Toggle(s, i), j) == Toggle(Toggle(s, j), i)
  {
  }

  // ---------------------------------------------------------------------------
  // Transport

  /** In a valid state, pressing start/stop twice restores the whole state. */
  lemma StartStopTwice(s: ControllerState)
    requires Valid(s)
    ensures StartStop(StartStop(s)) == s
  {
  }

  /**
   * n presses of start/stop from a valid state: an even number leaves the
   * state as it was, an odd number is one press; the steps never change.
   */
  lemma {:induction false} StartStopParity(s: ControllerState, n: nat)
    requires Valid(s)
    ensures StartStopTimes(s, n) == if n % 2 == 0 then s else StartStop(s)
    ensures StartStopTimes(s, n).isPlaying == (if n % 2 == 0 then s.isPlaying else !s.isPlaying)
    ensures StartStopTimes(s, n).steps == s.steps
  {
    if n > 0 {
      StartStopParity(s, n - 1);
      if (n - 1) % 2 == 1 {
        StartStopTwice(s);
      }
    }
  }

  /** Toggling a step and pressing start/stop are independent of each other. */
  lemma ToggleStartStopCommute(s: ControllerState, i: nat)
    requires i < |s.steps|
    ensures StartStop(Toggle(s, i)) == Toggle(StartStop(s), i)
  {
  }

  // ---------------------------------------------------------------------------
  // Ticks

  /** A step index fires exactly when some started loop closes over it and its step is on. */
  lemma {:induction false} FiredMembers(steps: seq<bool>, loops: seq<StepLoop>, x: nat)
    ensures x in Fired(steps, loops) <==>
              exists j :: 0 <= j < |loops| && loops[j].stepIndex == x &&
                          loops[j].state.Started? && x < |steps| && steps[x]
  {
    if loops != [] {
      FiredMembers(steps, loops[1..], x);
      if x in Fired(steps, loops[1..]) {
        var j :| 0 <= j < |loops[1..]| && loops[1..][j].stepIndex == x &&
                 loops[1..][j].state.Started? && x < |steps| && steps[x];
        assert loops[j + 1] == loops[1..][j];
      }
      if exists j :: 0 <= j < |loops| && loops[j].stepIndex == x &&
                     loops[j].state.Started? && x < |steps| && steps[x] {
        var j :| 0 <= j < |loops| && loops[j].stepIndex == x &&
                 loops[j].state.Started? && x < |steps| && steps[x];
        if j > 0 {
          assert loops[1..][j - 1] == loops[j];
        }
      }
    }
  }

  /** Loops numbered consecutively from `base` fire in increasing order, each index at most once. */
  lemma {:induction false} FiredIncreasing(steps: seq<bool>, loops: seq<StepLoop>, base: nat)
    requires forall k :: 0 <= k < |loops| ==> loops[k].stepIndex == base + k
    ensures StrictlyIncreasing(Fired(steps, loops))
    ensures forall x :: x in Fired(steps, loops) ==> base <= x < base + |loops|
  {
    if loops != [] {
      var tail := loops[1..];
      forall k | 0 <= k < |tail| ensures tail[k].stepIndex == (base + 1) + k {
        assert tail[k] == loops[k + 1];
      }
      FiredIncreasing(steps, tail, base + 1);
      var rest := Fired(steps, tail);
      var head := loops[0];
      var now :=
        if head.state.Started? && head.stepIndex < |steps| && ShouldTrigger(steps, head.stepIndex)
        then [head.stepIndex] else [];
      var r := now + rest;
      assert Fired(steps, loops) == r;
      forall a, b | 0 <= a < b < |r| ensures r[a] < r[b] {
        if a < |now| {
          assert r[a] == base;
          assert r[b] == rest[b - |now|] && rest[b - |now|] in rest;
        } else {
          assert r[a] == rest[a - |now|] && r[b] == rest[b - |now|];
        }
      }
      forall x | x in r ensures base <= x < base + |loops| {
        if x !in now {
          assert x in rest;
        }
      }
    }
  }

  /** A strictly increasing sequence whose elements are exactly `a` and `b`, a < b, is [a, b]. */
  lemma IncreasingPair(r: seq<nat>, a: nat, b: nat)
    requires StrictlyIncreasing(r) && a < b
    requires forall x: nat :: x in r <==> x == a || x == b
    ensures r == [a, b]
  {
    assert a in r && b in r;
    var ia :| 0 <= ia < |r| && r[ia] == a;
    var ib :| 0 <= ib < |r| && r[ib] == b;
    assert r[0] in r && r[|r| - 1] in r;
    assert ia == 0 && ib == |r| - 1;
    assert r[1] in r;
    assert ib == 1;
  }

  /**
   * On a tick of a valid state, step `i` fires exactly when the controller is
   * playing and step `i` is on; the notes come in step order, each once.
   */
  lemma TickFiresOnSteps(s: ControllerState)
    requires Valid(s)
    ensures forall i: nat :: i in Tick(s) <==> s.isPlaying && i < |s.steps| && s.steps[i]
    ensures StrictlyIncreasing(Tick(s))
  {
    FiredIncreasing(s.steps, s.loops, 0);
    forall i: nat ensures i in Tick(s) <==> s.isPlaying && i < |s.steps| && s.steps[i] {
      FiredMembers(s.steps, s.loops, i);
      if s.isPlaying && i < |s.steps| && s.steps[i] {
        assert s.loops[i].stepIndex == i && s.loops[i].state.Started?;
      }
    }
  }

  /** Loops that are all stopped fire nothing. */
  lemma {:induction false} FiredAllStopped(steps: seq<bool>, loops: seq<StepLoop>)
    requires forall k :: 0 <= k < |loops| ==> loops[k].state == Stopped
    ensures Fired(steps, loops) == []
  {
    if loops != [] {
      assert loops[0].state == Stopped;
      FiredAllStopped(steps, loops[1..]);
    }
  }

  /**
   * Whether loop `i` fires on a tick depends on step `i` alone: two valid
   * states that agree on the transport flag and on step `i` agree on it.
   */
  lemma TickReadsOnlyItsStep(s: ControllerState, s': ControllerState, i: nat)
    requires Valid(s) && Valid(s') && s.isPlaying == s'.isPlaying
    requires i < StepCount && s.steps[i] == s'.steps[i]
    ensures (i in Tick(s)) == (i in Tick(s'))
  {
    TickFiresOnSteps(s);
    TickFiresOnSteps(s');
  }

  /**
   * While stopped, the controller's loops fire nothing, whatever the
   * transport clock does; and a tick fires nothing.
   */
  lemma StoppedIsSilent(s: ControllerState)
    requires Valid(s) && !s.isPlaying
    ensures Fired(s.steps, s.loops) == [] && Tick(s) == []
  {
    FiredAllStopped(s.steps, s.loops);
  }

  /**
   * From the initial state: turn on steps 0 and 4 and press start/stop; a
   * tick fires exactly steps 0 and 4. Pressing start/stop again stops
   * everything and a tick fires nothing.
   */
  lemma StepsZeroAndFourScenario()
    ensures var s := StartStop(Toggle(Toggle(Initial(), 0), 4));
            s.isPlaying && s.transportRunning && Tick(s) == [0, 4] &&
            var t := StartStop(s);
            !t.isPlaying && !t.transportRunning && Tick(t) == []
  {
    var s := StartStop(Toggle(Toggle(Initial(), 0), 4));
    assert forall i :: 0 <= i < |s.steps| ==> (s.steps[i] <==> i == 0 || i == 4);
    TickFiresOnSteps(s);
    IncreasingPair(Tick(s), 0, 4);
    StoppedIsSilent(StartStop(s));
  }
}
