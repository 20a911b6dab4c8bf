/** The breathing-exercise animation: a four-phase countdown (inhale, hold,
    exhale, rest) advanced by a once-per-second tick while it is active. */
module Breathing {

  datatype Phase = Inhale | Hold | Exhale | Rest

  /** Seconds spent in each phase. */
  function Duration(p: Phase): int
  {
    match p
    case Inhale => 4
    case Hold => 4
    case Exhale => 6
    case Rest => 2
  }

  /** The fixed cycle inhale, hold, exhale, rest, inhale, ... */
  function Next(p: Phase): Phase
  {
    match p
    case Inhale => Hold
    case Hold => Exhale
    case Exhale => Rest
    case Rest => Inhale
  }

  /** The component's three state variables as one value. */
  datatype TimerState = TimerState(phase: Phase, counter: int, active: bool)

  /** What the component shows before the first start. */
  const Initial := TimerState(Inhale, 4, false)

  /** The counter never shows 0 and never exceeds the phase's length. */
  predicate Valid(s: TimerState)
  {
    1 <= s.counter <= Duration(s.phase)
  }

  /** One elapsed second: count down, or at 1 move to the next phase and load
      its duration. While inactive no interval runs, so nothing changes. */
  function Advance(s: TimerState): (r: TimerState)
    ensures r.active == s.active
    ensures Valid(s) ==> Valid(r)
    ensures !s.active ==> r == s
    ensures s.active && s.counter != 1 ==> r.phase == s.phase && r.counter == s.counter - 1
    ensures s.active && s.counter == 1 ==>
      r.phase == Next(s.phase) && r.counter == Duration(Next(s.phase)) && r.counter >= 2
  {
    if !s.active then s
    else if s.counter == 1 then TimerState(Next(s.phase), Duration(Next(s.phase)), true)
    else s.(counter := s.counter - 1)
  }

  /** The start/stop button: starting always restarts at (inhale, 4);
      stopping freezes phase and counter. */
  function Toggled(s: TimerState): (r: TimerState)
    ensures r.active == !s.active
    ensures Valid(s) ==> Valid(r)
    ensures !s.active ==> r == Initial.(active := true)
    ensures s.active ==> r.phase == s.phase && r.counter == s.counter
  {
    if s.active then s.(active := false) else TimerState(Inhale, 4, true)
  }

  /** `n` consecutive ticks. */
  function Ticks(s: TimerState, n: nat): TimerState
    decreases n
  {
    if n == 0 then s else Ticks(Advance(s), n - 1)
  }

  /** Running `m` ticks and then `n` more is running `m + n` ticks. */
  lemma {:induction false} TicksAdd(s: TimerState, m: nat, n: nat)
    ensures Ticks(s, m + n) == Ticks(Ticks(s, m), n)
    decreases m
  {
    if m > 0 {
      TicksAdd(Advance(s), m - 1, n);
    }
  }

  /** Inside a phase the counter goes down by one per tick and the phase stays. */
  lemma {:induction false} CountdownWithinPhase(p: Phase, c: int, j: nat)
    requires j < c
    ensures Ticks(TimerState(p, c, true), j) == TimerState(p, c - j, true)
    decreases j
  {
    if j > 0 {
      CountdownWithinPhase(p, c, j - 1);
      TicksAdd(TimerState(p, c, true), j - 1, 1);
    }
  }

  /** A counter of `c` reaches the next phase, fully loaded, after exactly `c` ticks. */
  lemma CountdownToNextPhase(p: Phase, c: int)
    requires 1 <= c
    ensures Ticks(TimerState(p, c, true), c) == TimerState(Next(p), Duration(Next(p)), true)
  {
    CountdownWithinPhase(p, c, c - 1);
    TicksAdd(TimerState(p, c, true), c - 1, 1);
  }

  /** Where a running exercise started at (inhale, 4) is after `k` seconds of one cycle. */
  function Schedule(k: int): TimerState
  {
    if k < 4 then TimerState(Inhale, 4 - k, true)
    else if k < 8 then TimerState(Hold, 8 - k, true)
    else if k < 14 then TimerState(Exhale, 14 - k, true)
    else TimerState(Rest, 16 - k, true)
  }

  /** One cycle visits inhale, hold, exhale and rest once each, in that order,
      for 4, 4, 6 and 2 seconds, and after exactly 16 ticks is back at (inhale, 4). */
  lemma FullCycle(k: nat)
    requires k <= 16
    ensures k < 16 ==> Ticks(Initial.(active := true), k) == Schedule(k)
    ensures Ticks(Initial.(active := true), 16) == Initial.(active := true)
    ensures 0 < k < 16 ==> Ticks(Initial.(active := true), k) != Initial.(active := true)
  {
    var s0 := Initial.(active := true);
    CountdownToNextPhase(Inhale, 4);
    CountdownToNextPhase(Hold, 4);
    CountdownToNextPhase(Exhale, 6);
    CountdownToNextPhase(Rest, 2);
    TicksAdd(s0, 4, 4);
    TicksAdd(s0, 8, 6);
    TicksAdd(s0, 14, 2);
    if k < 4 {
      CountdownWithinPhase(Inhale, 4, k);
    } else if k < 8 {
      CountdownWithinPhase(Hold, 4, k - 4);
      TicksAdd(s0, 4, k - 4);
    } else if k < 14 {
      CountdownWithinPhase(Exhale, 6, k - 8);
      TicksAdd(s0, 8, k - 8);
    } else if k < 16 {
      CountdownWithinPhase(Rest, 2, k - 14);
      TicksAdd(s0, 14, k - 14);
    }
  }

  /** No number of ticks changes a stopped exercise. */
  lemma {:induction false} StoppedIsFrozen(s: TimerState, n: nat)
    requires !s.active
    ensures Ticks(s, n) == s
    decreases n
  {
    if n > 0 {
      StoppedIsFrozen(Advance(s), n - 1);
    }
  }

  /** Any run of ticks from a valid state keeps the counter in range. */
  lemma {:induction false} TicksKeepValid(s: TimerState, n: nat)
    requires Valid(s)
    ensures Valid(Ticks(s, n))
    decreases n
  {
    if n > 0 {
      TicksKeepValid(Advance(s), n - 1);
    }
  }

  /** Start, 4 ticks, 4 ticks, stop, start: (inhale, 4), (hold, 4), (exhale, 6),
      stopped at (exhale, 6) and fresh again at (inhale, 4). */
  lemma StartStopScenario()
    ensures var s1 := Toggled(Initial);
            var s2 := Ticks(s1, 4);
            var s3 := Ticks(s2, 4);
            var s4 := Toggled(s3);
            && s1 == TimerState(Inhale, 4, true)
            && s2 == TimerState(Hold, 4, true)
            && s3 == TimerState(Exhale, 6, true)
            && s4 == TimerState(Exhale, 6, false)
            && Toggled(s4) == TimerState(Inhale, 4, true)
  {
    CountdownToNextPhase(Inhale, 4);
    CountdownToNextPhase(Hold, 4);
  }

  /** The instruction line under the circle. */
  function Instruction(p: Phase): (r: string)
    ensures r != []
  {
    match p
    case Inhale => "Inhale slowly..."
    case Hold => "Hold your breath..."
    case Exhale => "Exhale gently..."
    case Rest => "Rest..."
  }

  /** Each phase has its own instruction line. */
  lemma InstructionsDistinct(p: Phase, q: Phase)
    requires p != q
    ensures Instruction(p) != Instruction(q)
  {
    match p
    case Inhale => assert Instruction(p)[0] == 'I';
    case Hold => assert Instruction(p)[0] == 'H';
    case Exhale => assert Instruction(p)[1] == 'x';
    case Rest => assert Instruction(p)[0] == 'R';
  }

  /** No other phase shares the instruction line of `p`. */
  lemma InstructionsDiffer(p: Phase)
    ensures forall q :: q != p ==> Instruction(q) != Instruction(p)
  {
    forall q | q != p
      ensures Instruction(q) != Instruction(p)
    {
      InstructionsDistinct(q, p);
    }
  }

  /** The button caption. */
  function ButtonLabel(active: bool): (r: string)
    ensures r == "Stop" <==> active
  {
    if active then "Stop" else "Start Breathing Exercise"
  }

  /** The component with its `breathPhase`, `counter` and `isActive` state. */
  class BreathingAnimation {
    var breathPhase: Phase
    var counter: int
    var isActive: bool

    function State(): TimerState
      reads this
    {
      TimerState(breathPhase, counter, isActive)
    }

    constructor ()
      ensures State() == Initial && Valid(State())
    {
      breathPhase := Inhale;
      counter := 4;
      isActive := false;
    }

    /** The interval callback: the phase chain as the component writes it, one
        literal duration per branch. */
    method Tick()
      modifies this
      ensures State() == Advance(old(State()))
      ensures Valid(old(State())) ==> Valid(State())
    {
      if !isActive {
        return;
      }
      if counter == 1 {
        if breathPhase == Inhale {
          breathPhase := Hold;
          counter := 4;
        } else if breathPhase == Hold {
          breathPhase := Exhale;
          counter := 6;
        } else if breathPhase == Exhale {
          breathPhase := Rest;
          counter := 2;
        } else {
          breathPhase := Inhale;
          counter := 4;
        }
      } else {
        counter := counter - 1;
      }
    }

    /** `handleToggle`: flip `isActive`; on starting, reset to (inhale, 4). */
    method HandleToggle()
      modifies this
      ensures State() == Toggled(old(State()))
      ensures Valid(old(State())) ==> Valid(State())
    {
      var wasActive := isActive;
      isActive := !wasActive;
      if !wasActive {
        breathPhase := Inhale;
        counter := 4;
      }
    }

    /** `getInstructions`: the current phase's own, non-empty line, which is
        the line of no other phase. */
    function Instructions(): (r: string)
      reads this
      ensures r != []
      ensures forall p :: r == Instruction(p) <==> p == breathPhase
    {
      InstructionsDiffer(breathPhase);
      Instruction(breathPhase)
    }

    /** The caption of the start/stop button: "Stop" exactly while running. */
    function Label(): (r: string)
      reads this
      ensures r == "Stop" <==> isActive
    {
      ButtonLabel(isActive)
    }
  }
}
