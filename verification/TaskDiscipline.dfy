/** The hidden task reminder of task_discipline.py: turn counters per session and task list. */
module TaskDiscipline {
  import opened Text

  datatype DisciplineState = DisciplineState(turnCounter: nat, lastTouchTurn: nat, lastReminderTurn: nat)

  const NEW_STATE := DisciplineState(0, 0, 0)

  /** `reminder_turn_threshold` as the policy resolves it. */
  function Threshold(configured: Option<int>): (threshold: nat)
    ensures threshold >= 1 && (configured.None? ==> threshold == 3)
    ensures configured.Some? ==> threshold >= configured.value && threshold in {1, configured.value}
  {
    if configured.None? then 3 else if configured.value < 1 then 1 else configured.value
  }

  function Touched(s: DisciplineState): DisciplineState {
    s.(lastTouchTurn := if s.lastTouchTurn >= s.turnCounter then s.lastTouchTurn else s.turnCounter)
  }

  /** A turn counts; a due one reminds. `eligible` says that the policy is on, a task tool is available and some
      task is unresolved. */
  predicate Due(s: DisciplineState, eligible: bool, threshold: nat) {
    && eligible
    && s.turnCounter + 1 - s.lastTouchTurn >= threshold
    && (s.lastReminderTurn == 0 || s.turnCounter + 1 - s.lastReminderTurn >= threshold)
  }

  function Turned(s: DisciplineState, eligible: bool, threshold: nat): DisciplineState {
    DisciplineState(s.turnCounter + 1, s.lastTouchTurn,
                    if Due(s, eligible, threshold) then s.turnCounter + 1 else s.lastReminderTurn)
  }

  type Key = (string, string)

  function StateAt(states: map<Key, DisciplineState>, key: Key): DisciplineState {
    if key in states then states[key] else NEW_STATE
  }

  class TaskDisciplineSidecar {
    var states: map<Key, DisciplineState>

    constructor ()
      ensures states == map[]
    {
      states := map[];
    }

    method StateFor(key: Key) returns (state: DisciplineState)
      modifies this
      ensures states == old(states)[key := StateAt(old(states), key)] && state == states[key]
    {
      if key !in states {
        states := states[key := DisciplineState(0, 0, 0)];
      }
      state := states[key];
    }

    method RecordTaskTouch(sessionId: string, taskListId: string)
      modifies this
      ensures states == old(states)[(sessionId, taskListId) := Touched(StateAt(old(states), (sessionId, taskListId)))]
    {
      var key := (sessionId, taskListId);
      var state := StateFor(key);
      if state.turnCounter > state.lastTouchTurn {
        states := states[key := state.(lastTouchTurn := state.turnCounter)];
      }
    }

    /** The reminder, if one is due, with the number of turns since the last touch. */
    method Collect(sessionId: string, taskListId: string, enabled: bool, toolsAvailable: bool, unresolved: bool,
                   configuredThreshold: Option<int>)
      returns (reminder: Option<nat>)
      modifies this
      ensures var key := (sessionId, taskListId);
              var before, threshold := StateAt(old(states), key), Threshold(configuredThreshold);
              var eligible := enabled && toolsAvailable && unresolved;
              && states == old(states)[key := Turned(before, eligible, threshold)]
              && (reminder.Some? <==> Due(before, eligible, threshold))
              && (reminder.Some? ==> reminder.value == before.turnCounter + 1 - before.lastTouchTurn)
    {
      var key := (sessionId, taskListId);
      var state := StateFor(key);
      state := state.(turnCounter := state.turnCounter + 1);
      states := states[key := state];
      reminder := None;
      if !enabled || !toolsAvailable {
        return;
      }
      if !unresolved {
        return;
      }
      var threshold := Threshold(configuredThreshold);
      var sinceTouch := if state.turnCounter >= state.lastTouchTurn then state.turnCounter - state.lastTouchTurn else 0;
      if sinceTouch < threshold {
        return;
      }
      if state.lastReminderTurn != 0 && state.turnCounter - state.lastReminderTurn < threshold {
        return;
      }
      state := state.(lastReminderTurn := state.turnCounter);
      states := states[key := state];
      reminder := Some(sinceTouch);
    }
  }

  // ---- whole runs ----------------------------------------------------------------------------------

  datatype Event = Touch | Turn(eligible: bool)

  /** What a run leaves: a touch or a reminder, and the turn it happened in. */
  datatype Mark = TouchAt(turn: nat) | ReminderAt(turn: nat)

  function After(events: seq<Event>, threshold: nat): (s: DisciplineState)
    ensures s.lastTouchTurn <= s.turnCounter && s.lastReminderTurn <= s.turnCounter
  {
    if events == [] then NEW_STATE
    else
      var before := After(events[..|events| - 1], threshold);
      match events[|events| - 1]
      case Touch => Touched(before)
      case Turn(eligible) => Turned(before, eligible, threshold)
  }

  function Marks(events: seq<Event>, threshold: nat): seq<Mark> {
    if events == [] then []
    else
      var front := events[..|events| - 1];
      var before := After(front, threshold);
      Marks(front, threshold) +
      match events[|events| - 1]
      case Touch => [TouchAt(before.turnCounter)]
      case Turn(eligible) => if Due(before, eligible, threshold) then [ReminderAt(before.turnCounter + 1)] else []
  }

  function Turns(events: seq<Event>): nat {
    if events == [] then 0
    else Turns(events[..|events| - 1]) + if events[|events| - 1].Turn? then 1 else 0
  }

  function Reminders(marks: seq<Mark>): nat {
    if marks == [] then 0
    else Reminders(marks[..|marks| - 1]) + if marks[|marks| - 1].ReminderAt? then 1 else 0
  }

  /** Every reminder comes at least a threshold of turns after the start and after every earlier touch and reminder. */
  ghost predicate Spaced(marks: seq<Mark>, threshold: nat) {
    && (forall k | 0 <= k < |marks| :: marks[k].ReminderAt? ==> marks[k].turn >= threshold)
    && (forall j, k | 0 <= j < k < |marks| :: marks[k].ReminderAt? ==> marks[k].turn >= marks[j].turn + threshold)
  }

  lemma {:induction false} RemindersAreSpaced(events: seq<Event>, threshold: nat)
    requires threshold >= 1
    ensures Spaced(Marks(events, threshold), threshold)
    ensures After(events, threshold).turnCounter == Turns(events)
    ensures forall k | 0 <= k < |Marks(events, threshold)| ::
              var mark, s := Marks(events, threshold)[k], After(events, threshold);
              if mark.TouchAt? then mark.turn <= s.lastTouchTurn else 0 < mark.turn <= s.lastReminderTurn
  {
    if events == [] {
    } else {
      RemindersAreSpaced(events[..|events| - 1], threshold);
    }
  }

  lemma {:induction false} RemindersFit(marks: seq<Mark>, threshold: nat, turns: nat)
    requires threshold >= 1 && Spaced(marks, threshold)
    requires forall k | 0 <= k < |marks| :: marks[k].turn <= turns
    ensures Reminders(marks) * threshold <= turns
    decreases |marks|
  {
    hide Spaced;
    if marks == [] {
    } else {
      var last := |marks| - 1;
      LastSpaced(marks, threshold);
      var bound: nat := if marks[last].ReminderAt? then marks[last].turn - threshold else turns;
      SpacedFront(marks, threshold, bound);
      RemindersFit(marks[..last], threshold, bound);
      AddOne(Reminders(marks[..last]), threshold);
    }
  }

  lemma SpacedFront(marks: seq<Mark>, threshold: nat, bound: nat)
    requires marks != [] && Spaced(marks, threshold)
    requires if marks[|marks| - 1].ReminderAt? then bound == marks[|marks| - 1].turn - threshold
             else forall k | 0 <= k < |marks| :: marks[k].turn <= bound
    ensures var front := marks[..|marks| - 1];
            Spaced(front, threshold) && forall k | 0 <= k < |front| :: front[k].turn <= bound
  {
  }

  lemma LastSpaced(marks: seq<Mark>, threshold: nat)
    requires marks != [] && Spaced(marks, threshold)
    ensures marks[|marks| - 1].ReminderAt? ==> marks[|marks| - 1].turn >= threshold
  {
  }

  lemma AddOne(count: nat, threshold: nat)
    ensures (count + 1) * threshold == count * threshold + threshold
  {
  }

  /** In `n` turns at most `n / threshold` reminders fire, whatever happens in between. */
  lemma ReminderBudget(events: seq<Event>, threshold: nat)
    requires threshold >= 1
    ensures Reminders(Marks(events, threshold)) * threshold <= Turns(events)
  {
    RemindersAreSpaced(events, threshold);
    RemindersFit(Marks(events, threshold), threshold, Turns(events));
  }

  function EligibleTurns(n: nat): seq<Event> {
    seq(n, _ => Turn(true))
  }

  lemma NextRemainder(n: nat, threshold: nat)
    requires threshold >= 1
    ensures (n + 1) % threshold == if n % threshold == threshold - 1 then 0 else n % threshold + 1
  {
    var q, r := n / threshold, n % threshold;
    assert n + 1 == q * threshold + (r + 1);
    if r == threshold - 1 {
      assert n + 1 == (q + 1) * threshold;
      Remainder(n + 1, q + 1, 0, threshold);
    } else {
      Remainder(n + 1, q, r + 1, threshold);
    }
  }

  lemma LargeMultiple(k: int, d: int)
    requires k != 0 && d >= 0
    ensures k * d >= d || k * d <= -d
  {
    if k > 0 {
      assert (k - 1) * d >= 0;
      assert k * d == (k - 1) * d + d;
    } else {
      assert (-k - 1) * d >= 0;
      assert -(k * d) == (-k - 1) * d + d;
    }
  }

  lemma Remainder(n: nat, q: nat, r: nat, d: nat)
    requires d >= 1 && r < d && n == q * d + r
    ensures n % d == r
  {
    var k := n / d - q;
    assert n == (n / d) * d + n % d;
    assert k * d == (n / d) * d - q * d;
    if k != 0 {
      LargeMultiple(k, d);
    }
  }

  lemma {:induction false} SteadyState(n: nat, threshold: nat)
    requires threshold >= 1
    ensures After(EligibleTurns(n), threshold) == DisciplineState(n, 0, n - n % threshold)
  {
    if n == 0 {
    } else {
      SteadyState(n - 1, threshold);
      NextRemainder(n - 1, threshold);
      assert EligibleTurns(n)[..n - 1] == EligibleTurns(n - 1);
    }
  }

  /** The counters `n` eligible turns after a touch in turn `turn`; `reminded` is the last reminder before it. */
  function Alone(turn: nat, reminded: nat, n: nat, threshold: nat): DisciplineState
    requires threshold >= 1
  {
    DisciplineState(turn + n, turn, if n < threshold then reminded else turn + (n - n % threshold))
  }

  lemma NextAlone(turn: nat, reminded: nat, n: nat, threshold: nat)
    requires threshold >= 1 && reminded <= turn
    ensures Turned(Alone(turn, reminded, n, threshold), true, threshold) == Alone(turn, reminded, n + 1, threshold)
    ensures Due(Alone(turn, reminded, n, threshold), true, threshold) <==> (n + 1) % threshold == 0
  {
    NextRemainder(n, threshold);
    if n < threshold {
      Remainder(n, 0, n, threshold);
    }
  }

  lemma {:induction false} StateAfterTouch(events: seq<Event>, n: nat, threshold: nat)
    requires threshold >= 1
    ensures var touched := After(events + [Touch], threshold);
            && touched.lastTouchTurn == touched.turnCounter
            && After(events + [Touch] + EligibleTurns(n), threshold) ==
               Alone(touched.turnCounter, touched.lastReminderTurn, n, threshold)
  {
    hide Turned;
    var start := events + [Touch];
    assert start[..|events|] == events;
    if n == 0 {
      assert start + EligibleTurns(0) == start;
    } else {
      var all := start + EligibleTurns(n);
      assert all[..|all| - 1] == start + EligibleTurns(n - 1) && all[|all| - 1] == Turn(true);
      StateAfterTouch(events, n - 1, threshold);
      var touched := After(start, threshold);
      NextAlone(touched.turnCounter, touched.lastReminderTurn, n - 1, threshold);
      hide Alone;
    }
  }

  /** Left alone after a touch, whatever came before it, the reminder fires in exactly the turns that are a multiple of
      the threshold later. */
  lemma RemindersAfterTouch(events: seq<Event>, n: nat, threshold: nat)
    requires threshold >= 1
    ensures Due(After(events + [Touch] + EligibleTurns(n), threshold), true, threshold) <==> (n + 1) % threshold == 0
  {
    hide Due, Alone;
    StateAfterTouch(events, n, threshold);
    var touched := After(events + [Touch], threshold);
    NextAlone(touched.turnCounter, touched.lastReminderTurn, n, threshold);
  }

  /** Left alone with unresolved tasks, the reminder fires in exactly the turns that are multiples of the threshold. */
  lemma SteadyReminders(n: nat, threshold: nat)
    requires threshold >= 1
    ensures Due(After(EligibleTurns(n), threshold), true, threshold) <==> (n + 1) % threshold == 0
  {
    SteadyState(n, threshold);
    NextRemainder(n, threshold);
    if n < threshold {
      Remainder(n, 0, n, threshold);
    }
  }
}
