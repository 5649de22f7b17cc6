/** Power states and the interrupt gate. */
module Power {

  const SLEEP: nat := 0
  const DOZE: nat := 1
  const NORMAL: nat := 2

  predicate Declared(ordinal: nat) {
    ordinal <= NORMAL
  }

  /** `ignore` counts the reasons to leave interrupts alone; `offline` freezes the request processor. */
  datatype Gate = Gate(current: nat, ignore: int, offline: bool) {
    predicate Asleep() {
      current == SLEEP
    }

    /** What holds between two gated steps. */
    predicate Sound() {
      ignore == (if Asleep() then 1 else 0) && offline == Asleep()
    }

    /** Some wake-up was missed, and one reason to ignore interrupts is never taken back. */
    predicate Leaked() {
      ignore >= if Asleep() then 2 else 1
    }
  }

  /** An undeclared ordinal does nothing, but is stored as the current state all the same. */
  function SetPower(g: Gate, ordinal: nat): (g': Gate) {
    if g.current == ordinal then g
    else if ordinal == SLEEP then Gate(SLEEP, g.ignore + 1, true)
    else if Declared(ordinal) && g.Asleep() then Gate(ordinal, g.ignore - 1, false)
    else g.(current := ordinal)
  }

  function SetAll(g: Gate, ordinals: seq<nat>): (g': Gate)
    decreases |ordinals|
  {
    if ordinals == [] then g else SetAll(SetPower(g, ordinals[0]), ordinals[1..])
  }

  /** No undeclared ordinal arrives while the current state is sleep.  The current state is simply
      the last ordinal, so a caller can tell beforehand. */
  predicate WakesDeclared(current: nat, ordinals: seq<nat>)
    decreases |ordinals|
  {
    ordinals == [] ||
    ((current == SLEEP ==> Declared(ordinals[0])) && WakesDeclared(ordinals[0], ordinals[1..]))
  }

  lemma {:induction false} LeakIsForever(g: Gate, ordinals: seq<nat>)
    requires g.Leaked()
    ensures SetAll(g, ordinals).Leaked()
    decreases |ordinals|
  {
    if ordinals != [] {
      LeakIsForever(SetPower(g, ordinals[0]), ordinals[1..]);
    }
  }

  /** Over every sequence of power-state changes the gate ends sound exactly when the sequence never leaves sleep
      for an undeclared state.  Otherwise interrupts stay ignored for good. */
  lemma {:induction false} GateSoundIff(g: Gate, ordinals: seq<nat>)
    requires g.Sound()
    ensures SetAll(g, ordinals).Sound() <==> WakesDeclared(g.current, ordinals)
    ensures !WakesDeclared(g.current, ordinals) ==> SetAll(g, ordinals).Leaked()
    decreases |ordinals|
  {
    if ordinals != [] {
      var g' := SetPower(g, ordinals[0]);
      if g.Asleep() && !Declared(ordinals[0]) {
        LeakIsForever(g', ordinals[1..]);
      } else {
        assert g'.current == ordinals[0];
        GateSoundIff(g', ordinals[1..]);
      }
    }
  }

  /** The shortest such sequence: from normal operation to sleep, and from there to an undeclared state. */
  lemma {:induction false} UndeclaredWakeLeaks()
    ensures var start := Gate(NORMAL, 0, false);
            && start.Sound() && !WakesDeclared(NORMAL, [SLEEP, 3])
            && SetAll(start, [SLEEP, 3]).Leaked() && !SetAll(start, [SLEEP, 3, NORMAL]).Sound()
  {
    var start := Gate(NORMAL, 0, false);
    assert [SLEEP, 3][1..] == [3] && [SLEEP, 3, NORMAL][1..] == [3, NORMAL];
    GateSoundIff(start, [SLEEP, 3]);
    GateSoundIff(start, [SLEEP, 3, NORMAL]);
  }

  /** In particular for the three declared states: awake with interrupts on, or asleep with everything off. */
  lemma {:induction false} DeclaredStatesKeepGate(g: Gate, ordinals: seq<nat>)
    requires g.Sound()
    requires forall i :: 0 <= i < |ordinals| ==> Declared(ordinals[i])
    ensures SetAll(g, ordinals).Sound()
    decreases |ordinals|
  {
    if ordinals != [] {
      DeclaredStatesKeepGate(SetPower(g, ordinals[0]), ordinals[1..]);
    }
  }
}
