/**
 * securitybot/state_machine.py: a small "eager" state machine.
 *
 * Conditions and hooks are opaque values of the type parameters `C` and `H`.
 * A step is given the truth value of every condition (`holds`) and reports
 * the hooks it runs, in order, instead of calling them; the machine also
 * keeps the sequence of all hooks it has run in `trace`.
 */
module StateMachine {
  import opened Wrappers

  /** A declared transition: `condition` None fires on any step, `action` None does nothing. */
  datatype Transition<C, H> = Transition(source: string, dest: string, condition: Option<C>, action: Option<H>)

  /** A state with its optional `during`, `on_enter` and `on_exit` hooks. */
  datatype State<H> = State(name: string, during: Option<H>, onEnter: Option<H>, onExit: Option<H>)

  /** The `StateMachineException`s construction raises. */
  datatype MachineError =
    | DuplicateStates
    | InvalidInitial(initial: string)
    | InvalidSource(source: string)
    | InvalidDest(dest: string)

  predicate Distinct(names: seq<string>)
  {
    forall i, j :: 0 <= i < j < |names| ==> names[i] != names[j]
  }

  /** The error one transition raises, if any: its source is checked before its dest. */
  function TransitionError<C, H>(names: seq<string>, t: Transition<C, H>): Option<MachineError>
  {
    if t.source !in names then Some(InvalidSource(t.source))
    else if t.dest !in names then Some(InvalidDest(t.dest))
    else None
  }

  /** The error of the first transition, in declaration order, that names an undeclared state. */
  function FirstBadTransition<C, H>(names: seq<string>, ts: seq<Transition<C, H>>): (e: Option<MachineError>)
    ensures e.None? <==> forall i :: 0 <= i < |ts| ==> TransitionError(names, ts[i]).None?
  {
    if |ts| == 0 then None
    else if TransitionError(names, ts[0]).Some? then TransitionError(names, ts[0])
    else
      var rest := FirstBadTransition(names, ts[1..]);
      assert forall i :: 1 <= i < |ts| ==> ts[i] == ts[1..][i - 1];
      rest
  }

  /** The exception construction raises, in the order the constructor checks; None when it succeeds. */
  function Check<C, H>(names: seq<string>, ts: seq<Transition<C, H>>, initial: string): Option<MachineError>
  {
    if !Distinct(names) then Some(DuplicateStates)
    else if initial !in names then Some(InvalidInitial(initial))
    else FirstBadTransition(names, ts)
  }

  /** Once every transition before `i` is well formed, the first bad one is found in `ts[i..]`. */
  lemma {:induction false} FirstBadTransitionSkips<C, H>(names: seq<string>, ts: seq<Transition<C, H>>, i: nat)
    requires i <= |ts|
    requires forall j :: 0 <= j < i ==> TransitionError(names, ts[j]).None?
    ensures FirstBadTransition(names, ts) == FirstBadTransition(names, ts[i..])
  {
    if i > 0 {
      assert ts[1..][i - 1..] == ts[i..];
      FirstBadTransitionSkips(names, ts[1..], i - 1);
    }
  }

  /** The transitions whose source is `s`, in declaration order (`_transitions[s]`). */
  function Outgoing<C, H>(ts: seq<Transition<C, H>>, s: string): (out: seq<Transition<C, H>>)
    ensures forall t :: t in out ==> t in ts && t.source == s
  {
    if |ts| == 0 then []
    else Outgoing(ts[..|ts| - 1], s) + (if ts[|ts| - 1].source == s then [ts[|ts| - 1]] else [])
  }

  /** Extending the declarations by one transition extends only its source's list. */
  lemma OutgoingExtend<C, H>(ts: seq<Transition<C, H>>, i: nat, s: string)
    requires i < |ts|
    ensures Outgoing(ts[..i + 1], s) == Outgoing(ts[..i], s) + (if ts[i].source == s then [ts[i]] else [])
  {
    assert ts[..i + 1][..i] == ts[..i];
  }

  /** `table` files the transitions of `ts` by source: each state's list is its outgoing transitions, in order. */
  ghost predicate Lists<C, H>(table: map<string, seq<Transition<C, H>>>, ts: seq<Transition<C, H>>)
  {
    forall s :: OutgoingOf(table, s) == Outgoing(ts, s)
  }

  /** Filing `ts[i]` under its source turns the lists of `ts[..i]` into those of `ts[..i + 1]`. */
  lemma OutgoingOfPut<C, H>(table: map<string, seq<Transition<C, H>>>, next: map<string, seq<Transition<C, H>>>,
                            ts: seq<Transition<C, H>>, i: nat)
    requires i < |ts|
    requires Lists(table, ts[..i])
    requires next == table[ts[i].source := OutgoingOf(table, ts[i].source) + [ts[i]]]
    ensures Lists(next, ts[..i + 1])
  {
    forall s ensures OutgoingOf(next, s) == Outgoing(ts[..i + 1], s) {
      OutgoingExtend(ts, i, s);
    }
  }

  /** With every transition before `i` well formed, a bad `ts[i]` is the one construction reports. */
  lemma FirstBadTransitionAt<C, H>(names: seq<string>, ts: seq<Transition<C, H>>, i: nat)
    requires i < |ts|
    requires forall j :: 0 <= j < i ==> TransitionError(names, ts[j]).None?
    requires TransitionError(names, ts[i]).Some?
    ensures FirstBadTransition(names, ts) == TransitionError(names, ts[i])
  {
    FirstBadTransitionSkips(names, ts, i);
    assert ts[i..][0] == ts[i];
  }

  /** A block of transitions that all leave `src` is listed whole under `src` and not at all elsewhere. */
  lemma {:induction false} OutgoingUniform<C, H>(block: seq<Transition<C, H>>, src: string, s: string)
    requires forall i :: 0 <= i < |block| ==> block[i].source == src
    ensures Outgoing(block, s) == if s == src then block else []
  {
    if |block| > 0 {
      OutgoingUniform(block[..|block| - 1], src, s);
      assert block[..|block| - 1] + [block[|block| - 1]] == block;
    }
  }

  lemma {:induction false} OutgoingAppend<C, H>(a: seq<Transition<C, H>>, b: seq<Transition<C, H>>, s: string)
    ensures Outgoing(a + b, s) == Outgoing(a, s) + Outgoing(b, s)
  {
    if |b| > 0 {
      assert (a + b)[..|a + b| - 1] == a + b[..|b| - 1];
      OutgoingAppend(a, b[..|b| - 1], s);
    } else {
      assert a + b == a;
    }
  }

  /** The `State` objects the constructor builds, keyed by name. */
  function StateTable<H>(names: seq<string>, during: map<string, H>, onEnter: map<string, H>, onExit: map<string, H>)
    : map<string, State<H>>
  {
    map n | n in names :: State(n, Get(during, n), Get(onEnter, n), Get(onExit, n))
  }

  /** `d.get(k, None)`. */
  function Get<H>(d: map<string, H>, k: string): Option<H>
  {
    if k in d then Some(d[k]) else None
  }

  /** `_transitions[s]` of the defaultdict: no entry reads as the empty list. */
  function OutgoingOf<C, H>(table: map<string, seq<Transition<C, H>>>, s: string): seq<Transition<C, H>>
  {
    if s in table then table[s] else []
  }

  /** Every transition is filed under its own source, a state, and ends in a state. */
  ghost predicate Filed<C, H>(states: map<string, State<H>>, table: map<string, seq<Transition<C, H>>>)
  {
    forall s, t :: s in table && t in table[s] ==> t.source == s && s in states && t.dest in states
  }

  /** Filing one more well-formed transition under its source keeps the table filed. */
  lemma FiledPut<C, H>(states: map<string, State<H>>, table: map<string, seq<Transition<C, H>>>, t: Transition<C, H>)
    requires Filed(states, table) && t.source in states && t.dest in states
    ensures Filed(states, table[t.source := OutgoingOf(table, t.source) + [t]])
  {
  }

  /** Every state is keyed by its name and every transition is filed under its source and ends in a state. */
  ghost predicate WellFormed<C, H>(states: map<string, State<H>>, table: map<string, seq<Transition<C, H>>>)
  {
    && (forall n :: n in states ==> states[n].name == n)
    && Filed(states, table)
  }

  /** `Transition.condition()`: a missing condition is true. */
  predicate Enabled<C, H>(t: Transition<C, H>, holds: C -> bool)
  {
    t.condition.None? || holds(t.condition.value)
  }

  /** The index of the first transition, in order, whose condition holds. */
  function FirstEnabled<C, H>(ts: seq<Transition<C, H>>, holds: C -> bool): (r: Option<nat>)
    ensures r.Some? ==> r.value < |ts| && Enabled(ts[r.value], holds)
    ensures r.Some? ==> forall j :: 0 <= j < r.value ==> !Enabled(ts[j], holds)
    ensures r.None? ==> forall j :: 0 <= j < |ts| ==> !Enabled(ts[j], holds)
  {
    if |ts| == 0 then None
    else if Enabled(ts[0], holds) then Some(0)
    else
      match FirstEnabled(ts[1..], holds)
      case None => None
      case Some(k) => Some(k + 1)
  }

  /** The first enabled transition is the one enabled with none enabled before it. */
  lemma FirstEnabledIs<C, H>(ts: seq<Transition<C, H>>, holds: C -> bool, k: nat)
    requires k < |ts| && Enabled(ts[k], holds)
    requires forall j :: 0 <= j < k ==> !Enabled(ts[j], holds)
    ensures FirstEnabled(ts, holds) == Some(k)
  {
    var f := FirstEnabled(ts, holds);
    if f.None? {
    } else if f.value < k {
    } else if f.value > k {
    }
  }

  /** A transition without a condition is always taken unless an earlier one is. */
  lemma UnconditionalFires<C, H>(ts: seq<Transition<C, H>>, holds: C -> bool, k: nat)
    requires k < |ts| && ts[k].condition.None?
    ensures FirstEnabled(ts, holds).Some? && FirstEnabled(ts, holds).value <= k
  {
  }

  /** The hook list of an optional hook. */
  function Run<H>(h: Option<H>): seq<H>
  {
    if h.Some? then [h.value] else []
  }

  /** What follows the `during` hooks in a step's hook list. */
  lemma AfterPrefix<H>(p: seq<H>, a: seq<H>, b: seq<H>, c: seq<H>)
    ensures (p + a + b + c)[|p|..] == a + b + c
  {
    assert p + a + b + c == p + (a + b + c);
  }

  /** Every transition in `out` ends in a declared state. */
  predicate Targets<C, H>(states: map<string, State<H>>, out: seq<Transition<C, H>>)
  {
    forall i :: 0 <= i < |out| ==> out[i].dest in states
  }

  /**
   * One `step` from `current`, whose outgoing transitions are `out`: the new
   * state and the hooks run, in order. The `during` hook always runs first;
   * then the first enabled transition, if any, runs its action, the source's
   * `on_exit`, moves, and runs the destination's `on_enter`.
   */
  function StepResult<C, H>(states: map<string, State<H>>, out: seq<Transition<C, H>>,
                            current: string, holds: C -> bool): (r: (string, seq<H>))
    requires current in states && Targets(states, out)
    ensures r.0 in states
    ensures |Run(states[current].during)| <= |r.1| && r.1[..|Run(states[current].during)|] == Run(states[current].during)
  {
    var during := Run(states[current].during);
    match FirstEnabled(out, holds)
    case None => (current, during)
    case Some(k) =>
      var fired := during + Run(out[k].action) + Run(states[current].onExit) + Run(states[out[k].dest].onEnter);
      assert fired[..|during|] == during;
      (out[k].dest, fired)
  }

  /** With no enabled transition the state stays and only `during` runs. */
  lemma StepWithoutTransition<C, H>(states: map<string, State<H>>, out: seq<Transition<C, H>>,
                                    current: string, holds: C -> bool)
    requires current in states && Targets(states, out)
    requires forall t :: t in out ==> !Enabled(t, holds)
    ensures StepResult(states, out, current, holds) == (current, Run(states[current].during))
  {
  }

  /**
   * The first enabled transition in declaration order is taken, and the hooks
   * run as during, action, on_exit, then the destination's on_enter.
   */
  lemma StepTakesFirstEnabled<C, H>(states: map<string, State<H>>, out: seq<Transition<C, H>>,
                                    current: string, holds: C -> bool, k: nat)
    requires current in states && Targets(states, out)
    requires k < |out| && Enabled(out[k], holds)
    requires forall j :: 0 <= j < k ==> !Enabled(out[j], holds)
    ensures out[k].dest in states
    ensures StepResult(states, out, current, holds)
         == (out[k].dest, Run(states[current].during) + Run(out[k].action)
                          + Run(states[current].onExit) + Run(states[out[k].dest].onEnter))
  {
    FirstEnabledIs(out, holds, k);
  }

  /** `StateMachine`: the state table and the transition lists are fixed at construction. */
  class Machine<C, H> {
    const states: map<string, State<H>>
    const transitions: map<string, seq<Transition<C, H>>>
    var state: string
    /** Every hook run so far, oldest first. */
    var trace: seq<H>

    ghost predicate Valid()
      reads this
    {
      WellFormed(states, transitions) && state in states
    }

    constructor Init(states: map<string, State<H>>, transitions: map<string, seq<Transition<C, H>>>, initial: string)
      requires WellFormed(states, transitions) && initial in states
      ensures Valid()
      ensures this.states == states && this.transitions == transitions
      ensures state == initial && trace == []
    {
      this.states := states;
      this.transitions := transitions;
      state := initial;
      trace := [];
    }

    /** The loop filling `_states`: one `State` per name, with the hooks given for it. */
    static method BuildStates(names: seq<string>, during: map<string, H>, onEnter: map<string, H>, onExit: map<string, H>)
      returns (table: map<string, State<H>>)
      ensures table == StateTable(names, during, onEnter, onExit)
    {
      table := map[];
      var i := 0;
      while i < |names|
        invariant 0 <= i <= |names|
        invariant table == StateTable(names[..i], during, onEnter, onExit)
      {
        assert names[..i + 1] == names[..i] + [names[i]];
        table := table[names[i] := State(names[i], Get(during, names[i]), Get(onEnter, names[i]), Get(onExit, names[i]))];
        i := i + 1;
      }
      assert names[..i] == names;
    }

    /** The loop filling `_transitions`: each transition is checked, then appended under its source. */
    static method BuildTransitions(names: seq<string>, table: map<string, State<H>>, ts: seq<Transition<C, H>>)
      returns (r: Result<map<string, seq<Transition<C, H>>>, MachineError>)
      requires forall n :: n in table <==> n in names
      ensures r.Err? <==> FirstBadTransition(names, ts).Some?
      ensures r.Err? ==> r.error == FirstBadTransition(names, ts).value
      ensures r.Ok? ==> Lists(r.value, ts)
      ensures r.Ok? ==> Filed(table, r.value)
    {
      var lists: map<string, seq<Transition<C, H>>> := map[];
      var i := 0;
      while i < |ts|
        invariant 0 <= i <= |ts|
        invariant forall j :: 0 <= j < i ==> TransitionError(names, ts[j]).None?
        invariant Lists(lists, ts[..i])
        invariant Filed(table, lists)
      {
        var t := ts[i];
        if t.source !in table || t.dest !in table {
          FirstBadTransitionAt(names, ts, i);
          return Err(if t.source !in table then InvalidSource(t.source) else InvalidDest(t.dest));
        }
        var next := lists[t.source := OutgoingOf(lists, t.source) + [t]];
        FiledPut(table, lists, t);
        OutgoingOfPut(lists, next, ts, i);
        lists := next;
        i := i + 1;
      }
      assert ts[..i] == ts;
      return Ok(lists);
    }

    /**
     * `StateMachine(states, transitions, initial, during, on_enter, on_exit)`:
     * raises on duplicate names, an undeclared initial state or a transition
     * naming an undeclared state; otherwise starts in `initial` without
     * running any hook.
     */
    static method Create(names: seq<string>, ts: seq<Transition<C, H>>, initial: string,
                         during: map<string, H>, onEnter: map<string, H>, onExit: map<string, H>)
      returns (r: Result<Machine<C, H>, MachineError>)
      ensures r.Err? <==> Check(names, ts, initial).Some?
      ensures r.Err? ==> r.error == Check(names, ts, initial).value
      ensures r.Ok? ==> fresh(r.value) && r.value.Valid()
      ensures r.Ok? ==> r.value.state == initial && r.value.trace == []
      ensures r.Ok? ==> r.value.states == StateTable(names, during, onEnter, onExit)
      ensures r.Ok? ==> Lists(r.value.transitions, ts)
    {
      if !Distinct(names) {
        return Err(DuplicateStates);
      }
      var table := BuildStates(names, during, onEnter, onExit);
      if initial !in table {
        return Err(InvalidInitial(initial));
      }
      var lists := BuildTransitions(names, table, ts);
      if lists.Err? {
        return Err(lists.error);
      }
      var m := new Machine.Init(table, lists.value, initial);
      return Ok(m);
    }

    /** `step()`: runs `during`, then takes the first enabled transition, if any. */
    method Step(holds: C -> bool) returns (fired: seq<H>)
      requires Valid()
      modifies this
      ensures Valid()
      ensures (state, fired) == StepResult(states, OutgoingOf(transitions, old(state)), old(state), holds)
      ensures trace == old(trace) + fired
    {
      var current := state;
      var out := OutgoingOf(transitions, current);
      fired := Run(states[current].during);
      var i := 0;
      while i < |out|
        invariant 0 <= i <= |out| && state == current
        invariant fired == Run(states[current].during)
        invariant forall j :: 0 <= j < i ==> !Enabled(out[j], holds)
      {
        var t := out[i];
        if Enabled(t, holds) {
          assert t in transitions[current];
          fired := fired + Run(t.action) + Run(states[current].onExit);
          state := t.dest;
          fired := fired + Run(states[state].onEnter);
          break;
        }
        i := i + 1;
      }
      trace := trace + fired;
    }
  }
}
