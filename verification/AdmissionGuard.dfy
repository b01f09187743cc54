/** The admission guard (`run_admission_guard`): restarts a saturated server, never twice within
    the cooldown, whatever the clock, failures and crashes do. Times are microseconds. */
module AdmissionGuard {
  import opened Text

  datatype Restart = NeverTried | Unfinished | Succeeded | Failed

  /** The persisted evidence. */
  datatype Record = Record(
    saturations: nat,
    suppressions: nat,
    attempts: nat,
    lastAttempt: Option<int>,
    cooldownUntil: Option<int>,
    result: Restart)

  const FRESH := Record(0, 0, 0, None, None, NeverTried)

  /** An attempt, with the cooldown that was in force. */
  datatype Attempt = Attempt(at: int, cooldown: nat)

  datatype Fate = Done | Raised | Crashed

  /** One run: the clock is read first; a restart comes `delay` later, after the probe and the
      write. */
  datatype Tick = Tick(enabled: bool, now: int, cooldown: nat, saturated: bool, delay: nat)

  /** A restart carried out, some time after the attempt was stamped. */
  datatype Restarted = Restarted(attempt: Attempt, delay: nat)

  function InstantOf(r: Restarted): int { r.attempt.at + r.delay }

  function AttemptsOf(restarts: seq<Restarted>): (r: seq<Attempt>)
    ensures |r| == |restarts| && forall i | 0 <= i < |r| :: r[i] == restarts[i].attempt
  {
    seq(|restarts|, i requires 0 <= i < |restarts| => restarts[i].attempt)
  }

  /** Successive restarts lie at least the cooldown apart, less what the earlier one was late. */
  ghost predicate SpacedBut(restarts: seq<Restarted>) {
    forall i | 0 < i < |restarts| ::
      InstantOf(restarts[i]) - InstantOf(restarts[i - 1]) >= restarts[i].attempt.cooldown
        + restarts[i].delay - restarts[i - 1].delay
  }

  /** Successive attempts lie at least the later one's cooldown apart. */
  ghost predicate Spaced(history: seq<Attempt>) {
    forall i | 0 < i < |history| :: history[i].at - history[i - 1].at >= history[i].cooldown
  }

  function LastOf(history: seq<Attempt>): Option<int> {
    if history == [] then None else Some(history[|history| - 1].at)
  }

  predicate InCooldown(last: Option<int>, now: int, cooldown: nat) {
    last.Some? && last.value <= now < last.value + cooldown
  }

  predicate InFuture(last: Option<int>, now: int) { last.Some? && now < last.value }

  /** The restarts carried out: some of the recorded attempts, in order. */
  ghost predicate Among(restarts: seq<Attempt>, history: seq<Attempt>) {
    if restarts == [] then true
    else if history == [] then false
    else
      var before := history[..|history| - 1];
      || Among(restarts, before)
      || (restarts[|restarts| - 1] == history[|history| - 1] && Among(restarts[..|restarts| - 1], before))
  }

  lemma OneMore(restarts: seq<Attempt>, history: seq<Attempt>, a: Attempt)
    requires Among(restarts, history)
    ensures Among(restarts, history + [a]) && Among(restarts + [a], history + [a])
  {
    assert (history + [a])[..|history|] == history && (restarts + [a])[..|restarts|] == restarts;
  }

  lemma OneMoreRestart(restarts: seq<Restarted>, r: Restarted)
    ensures AttemptsOf(restarts + [r]) == AttemptsOf(restarts) + [r.attempt]
  {
  }

  lemma {:induction false} Monotone(history: seq<Attempt>, i: nat, j: nat)
    requires Spaced(history) && i <= j < |history|
    ensures history[i].at <= history[j].at
    decreases j
  {
    if i < j { Monotone(history, i, j - 1); }
  }

  lemma {:induction false} AmongMember(restarts: seq<Attempt>, history: seq<Attempt>, a: Attempt)
    requires Among(restarts, history) && a in restarts
    ensures a in history
  {
    var before := history[..|history| - 1];
    assert history == before + [history[|history| - 1]];
    if Among(restarts, before) {
      AmongMember(restarts, before, a);
    } else {
      var rest := restarts[..|restarts| - 1];
      assert restarts == rest + [restarts[|restarts| - 1]];
      if a in rest { AmongMember(rest, before, a); }
    }
  }

  /** Some of spaced attempts are spaced. */
  lemma {:induction false} SomeSpaced(restarts: seq<Attempt>, history: seq<Attempt>)
    requires Spaced(history) && Among(restarts, history)
    ensures Spaced(restarts)
  {
    if restarts != [] {
      var before := history[..|history| - 1];
      assert Spaced(before);
      if Among(restarts, before) {
        SomeSpaced(restarts, before);
      } else {
        var rest, last := restarts[..|restarts| - 1], restarts[|restarts| - 1];
        SomeSpaced(rest, before);
        if rest != [] {
          var a := rest[|rest| - 1];
          AmongMember(rest, before, a);
          var k :| 0 <= k < |before| && before[k] == a;
          Monotone(history, k, |history| - 2);
          assert last.at - a.at >= last.cooldown;
        }
        assert restarts == rest + [last];
        forall i | 0 < i < |restarts| ensures restarts[i].at - restarts[i - 1].at >= restarts[i].cooldown {
          if i < |rest| { assert restarts[i] == rest[i] && restarts[i - 1] == rest[i - 1]; }
        }
      }
    }
  }

  /** So the restarts carried out are spaced, but for how late each was. */
  lemma RestartsSpaced(restarts: seq<Restarted>, history: seq<Attempt>)
    requires Spaced(history) && Among(AttemptsOf(restarts), history)
    ensures SpacedBut(restarts)
  {
    SomeSpaced(AttemptsOf(restarts), history);
    forall i | 0 < i < |restarts|
      ensures InstantOf(restarts[i]) - InstantOf(restarts[i - 1]) >= restarts[i].attempt.cooldown
              + restarts[i].delay - restarts[i - 1].delay
    {
      assert AttemptsOf(restarts)[i].at - AttemptsOf(restarts)[i - 1].at >= AttemptsOf(restarts)[i].cooldown;
    }
  }

  /** Lateness bounded by `late` costs at most that much of the cooldown. */
  lemma LateBy(restarts: seq<Restarted>, late: nat, i: nat)
    requires SpacedBut(restarts) && 0 < i < |restarts| && restarts[i - 1].delay <= late
    ensures InstantOf(restarts[i]) - InstantOf(restarts[i - 1]) >= restarts[i].attempt.cooldown - late
  {
  }

  /** Two restarts the recorded cooldown apart are closer than it exactly when the earlier one
      was the later of the two to be carried out: a slow run, then a fast one. */
  lemma SlowThenFast(a: Restarted, b: Restarted)
    requires b.attempt.at - a.attempt.at == b.attempt.cooldown
    ensures Spaced(AttemptsOf([a, b])) && SpacedBut([a, b])
    ensures InstantOf(b) - InstantOf(a) < b.attempt.cooldown <==> b.delay < a.delay
  {
  }

  /** With a cooldown of at least `c`, attempts spread at least `c` each. */
  lemma {:induction false} Spread(history: seq<Attempt>, c: nat, i: nat, j: nat)
    requires Spaced(history) && i <= j < |history| && forall a | a in history :: a.cooldown >= c
    ensures history[j].at - history[i].at >= (j - i) * c
    decreases j
  {
    if i < j {
      Spread(history, c, i, j - 1);
      assert history[j] in history;
      assert (j - i) * c == (j - 1 - i) * c + c;
    }
  }

  /** A window of length `width` holds at most `width / c + 1` attempts. */
  lemma WindowBound(history: seq<Attempt>, c: nat, from: int, width: nat, i: nat, j: nat)
    requires Spaced(history) && c > 0 && forall a | a in history :: a.cooldown >= c
    requires i <= j < |history| && from <= history[i].at && history[j].at <= from + width
    ensures j - i + 1 <= width / c + 1
  {
    Spread(history, c, i, j);
    if j - i > width / c { Beyond(j - i, c, width); }
  }

  lemma Beyond(k: nat, c: nat, width: nat)
    requires c > 0 && k > width / c
    ensures k * c > width
  {
    var q := width / c;
    Times(k, q + 1, c);
    assert (q + 1) * c == q * c + c;
  }

  lemma Times(a: nat, b: nat, c: nat)
    requires a >= b
    ensures a * c >= b * c
  {
  }

  class Guard {
    var disk: Option<Record>
    ghost var history: seq<Attempt>
    ghost var restarts: seq<Restarted>

    constructor ()
      ensures Valid() && history == [] && restarts == []
    {
      disk := None;
      history := [];
      restarts := [];
    }

    function Evidence(): Record
      reads this
    {
      if disk.None? then FRESH else disk.value
    }

    /** The evidence tells the attempts truly, and every saturation was answered. */
    ghost predicate Valid()
      reads this
    {
      var r := Evidence();
      && r.attempts == |history| && r.lastAttempt == LastOf(history)
      && r.saturations == r.suppressions + r.attempts
      && Spaced(history) && Among(AttemptsOf(restarts), history)
    }

    /** One run of the guard; any write, and the restart itself, may fail or be cut off. */
    method RunGuard(t: Tick) returns (fate: Fate)
      requires Valid()
      modifies this
      ensures Valid()
      ensures history == old(history)
              || (history == old(history) + [Attempt(t.now, t.cooldown)] && t.enabled && t.saturated
                  && !InCooldown(LastOf(old(history)), t.now, t.cooldown) && !InFuture(LastOf(old(history)), t.now))
      ensures restarts == old(restarts)
              || (restarts == old(restarts) + [Restarted(Attempt(t.now, t.cooldown), t.delay)]
                  && history == old(history) + [Attempt(t.now, t.cooldown)])
      ensures !t.enabled ==> fate.Done? && disk == old(disk)
      ensures t.enabled && fate.Done? ==>
                Evidence().saturations == old(Evidence().saturations) + (if t.saturated then 1 else 0)
      ensures t.enabled && fate.Done? && t.saturated ==>
                if InCooldown(LastOf(old(history)), t.now, t.cooldown) then
                  Evidence().suppressions == old(Evidence().suppressions) + 1
                else
                  restarts == old(restarts) + [Restarted(Attempt(t.now, t.cooldown), t.delay)]
                    && Evidence().result.Succeeded?
      ensures t.enabled && t.saturated && InFuture(LastOf(old(history)), t.now) ==> !fate.Done? && disk == old(disk)
    {
      hide Among;
      if !t.enabled { return Done; }
      var state := Evidence();
      if !t.saturated {
        var wrote := Persist(state);
        return if wrote then Done else Crashed;
      }
      state := state.(saturations := state.saturations + 1);
      var previous := state.lastAttempt;
      if previous.Some? && previous.value > t.now { return Raised; }
      if previous.Some? && t.now - previous.value < t.cooldown {
        state := state.(suppressions := state.suppressions + 1, cooldownUntil := Some(previous.value + t.cooldown));
        var wrote := Persist(state);
        return if wrote then Done else Crashed;
      }
      state := state.(attempts := state.attempts + 1, lastAttempt := Some(t.now),
        cooldownUntil := Some(t.now + t.cooldown),
                      result := Unfinished);
      // The attempt is on record before anything is restarted.
      var recorded := Persist(state);
      if !recorded { return Crashed; }
      OneMore(AttemptsOf(restarts), history, Attempt(t.now, t.cooldown));
      history := history + [Attempt(t.now, t.cooldown)];
      var crashed: bool := *;
      if crashed { return Crashed; }
      var ok: bool := *;
      OneMoreRestart(restarts, Restarted(Attempt(t.now, t.cooldown), t.delay));
      restarts := restarts + [Restarted(Attempt(t.now, t.cooldown), t.delay)];
      state := state.(result := if ok then Succeeded else Failed);
      recorded := Persist(state);
      if !recorded { return Crashed; }
      return if ok then Done else Raised;
    }

    /** `_atomic_json`: all or nothing. */
    method Persist(state: Record) returns (wrote: bool)
      modifies this`disk
      ensures disk == if wrote then Some(state) else old(disk)
    {
      wrote := *;
      if wrote { disk := Some(state); }
    }

    /** Any number of runs, each by its own clock reading and declaration. */
    method Campaign(ticks: seq<Tick>)
      requires Valid()
      modifies this
      ensures Valid()
      ensures old(history) <= history && |history| <= |old(history)| + |ticks|
      ensures Spaced(history) && SpacedBut(restarts) && Among(AttemptsOf(restarts), history)
    {
      for i := 0 to |ticks|
        invariant Valid() && old(history) <= history && |history| <= |old(history)| + i
      {
        var fate := RunGuard(ticks[i]);
      }
      RestartsSpaced(restarts, history);
    }
  }
}
