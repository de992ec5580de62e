/** The two-state repetition machine that every detector repeats with its own
    conditions: a phase flag that leaves rest when an "enter" condition holds
    and returns to rest, counting one repetition, when an "exit" condition
    holds; and its threshold form, a hysteresis band over one signal. */
module PhaseMachine {
  /** `active` is the detector's away-from-rest flag (down, open, airborne);
      `count` is its repetition count. */
  datatype Phase = Phase(active: bool, count: nat)

  /** The state a detector starts in: at rest, nothing counted. */
  const Rest := Phase(false, 0)

  function Ord(b: bool): nat {
    if b then 1 else 0
  }

  /** The two sequential tests every detector makes:
      `if (enter && !active) active = true;`
      `if (exit && active) { active = false; count++; }` */
  function Toggle(p: Phase, enter: bool, exit: bool): (q: Phase)
    ensures q.count == p.count + Ord(exit && (p.active || enter))
    ensures q.active == (!exit && (p.active || enter))
  {
    var p1 := if enter && !p.active then p.(active := true) else p;
    if exit && p1.active then Phase(false, p1.count + 1) else p1
  }

  /** One repetition is counted per return to rest: the count plus the phase
      flag grows by exactly one for each entry into the active phase. */
  lemma ToggleConserves(p: Phase, enter: bool, exit: bool)
    ensures Toggle(p, enter, exit).count + Ord(Toggle(p, enter, exit).active)
         == p.count + Ord(p.active) + Ord(enter && !p.active)
  {
  }

  /** The threshold form: enter below `enter`, leave above `exit` (both strict). */
  function Hysteresis(p: Phase, v: real, enter: real, exit: real): Phase {
    Toggle(p, v < enter, v > exit)
  }

  /** With `enter <= exit`, a value inside the band [enter, exit] changes nothing. */
  lemma HysteresisBand(p: Phase, v: real, enter: real, exit: real)
    requires enter <= v <= exit
    ensures Hysteresis(p, v, enter, exit) == p
  {
  }

  /** With `enter <= exit`: the phase is entered exactly when the value is below
      `enter` at rest, without counting; a repetition is counted, and the phase
      left, exactly when the value is above `exit` while active. */
  lemma HysteresisTransitions(p: Phase, v: real, enter: real, exit: real)
    requires enter <= exit
    ensures !p.active && v < enter ==> Hysteresis(p, v, enter, exit) == p.(active := true)
    ensures Hysteresis(p, v, enter, exit).count == p.count + Ord(p.active && v > exit)
    ensures Hysteresis(p, v, enter, exit).active
         == (if p.active then !(v > exit) else v < enter)
  {
  }

  /** The state after feeding the signal values `vs` in order. */
  function Run(p: Phase, vs: seq<real>, enter: real, exit: real): Phase {
    if vs == [] then p
    else Hysteresis(Run(p, vs[..|vs| - 1], enter, exit), vs[|vs| - 1], enter, exit)
  }

  lemma RunSnoc(p: Phase, vs: seq<real>, v: real, enter: real, exit: real)
    ensures Run(p, vs + [v], enter, exit) == Hysteresis(Run(p, vs, enter, exit), v, enter, exit)
  {
    assert (vs + [v])[..|vs|] == vs;
  }

  /** How many of the values in `vs` entered the active phase. */
  function Entries(p: Phase, vs: seq<real>, enter: real, exit: real): nat {
    if vs == [] then 0
    else
      var before := Run(p, vs[..|vs| - 1], enter, exit);
      Entries(p, vs[..|vs| - 1], enter, exit) + Ord(vs[|vs| - 1] < enter && !before.active)
  }

  /** Over any run, repetitions counted plus the final phase equal entries into
      the active phase: no repetition is counted without a prior entry. */
  lemma {:induction false} RunConserves(p: Phase, vs: seq<real>, enter: real, exit: real)
    ensures Run(p, vs, enter, exit).count + Ord(Run(p, vs, enter, exit).active)
         == p.count + Ord(p.active) + Entries(p, vs, enter, exit)
  {
    if vs != [] {
      var init := vs[..|vs| - 1];
      RunConserves(p, init, enter, exit);
      ToggleConserves(Run(p, init, enter, exit), vs[|vs| - 1] < enter, vs[|vs| - 1] > exit);
    }
  }

  /** The count never decreases and grows by at most one per value. */
  lemma {:induction false} RunCountBounds(p: Phase, vs: seq<real>, enter: real, exit: real)
    ensures p.count <= Run(p, vs, enter, exit).count <= p.count + |vs|
  {
    if vs != [] {
      RunCountBounds(p, vs[..|vs| - 1], enter, exit);
    }
  }

  /** Values that stay inside the band leave the state as it was. */
  lemma {:induction false} RunInBand(p: Phase, vs: seq<real>, enter: real, exit: real)
    requires forall i :: 0 <= i < |vs| ==> enter <= vs[i] <= exit
    ensures Run(p, vs, enter, exit) == p
  {
    if vs != [] {
      RunInBand(p, vs[..|vs| - 1], enter, exit);
    }
  }
}
