/** Distribution maintenance (`maintenance.py`): switching the active release, and uninstalling,
    under a journal, with a crash possible after every step. */
module Maintenance {
  import opened Text

  datatype Fate = Done | Refused | Crashed

  datatype Entry = Content(text: string) | Link(release: string)

  /** What the program root holds, by name. */
  type Inventory = map<string, Entry>

  const CURRENT := "current"

  function Temporary(token: string): string { ".maintenance-current-" + token }

  lemma TemporaryIsNot(token: string)
    ensures Temporary(token) != CURRENT
  {
    assert Temporary(token)[0] == '.' && CURRENT[0] == 'c';
  }

  // ---- switching the active release ----

  datatype SwitchJournal = SwitchJournal(token: string, previous: string, target: string, inventory: Inventory)

  lemma SameTree(root: Inventory, inventory: Inventory, temporary: string, link: Entry)
    requires CURRENT in root && root[CURRENT] == link && temporary != CURRENT && temporary !in inventory
    requires root - {CURRENT, temporary} == inventory - {CURRENT}
    ensures root - {temporary} == inventory[CURRENT := link]
  {
    var a, b := root - {temporary}, inventory[CURRENT := link];
    forall k ensures k in a <==> k in b {
      if k != CURRENT { assert k in a <==> k in root - {CURRENT, temporary}; assert k in b
        <==> k in inventory - {CURRENT}; }
    }
    forall k | k in a ensures a[k] == b[k] {
      if k != CURRENT { assert (root - {CURRENT, temporary})[k] == (inventory - {CURRENT})[k]; }
    }
  }

  class ReleaseSwitch {
    var root: Inventory
    var receipt: Option<string>
    var journal: Option<SwitchJournal>

    constructor (root: Inventory, receipt: Option<string>)
      ensures this.root == root && this.receipt == receipt && journal == None
    {
      this.root, this.receipt, journal := root, receipt, None;
    }

    /** The active release. */
    ghost predicate Active(release: string)
      reads this
    {
      CURRENT in root && root[CURRENT] == Link(release)
    }

    /** The root as the journal found it, but for the active link and the temporary one. */
    ghost predicate Underway()
      reads this
    {
      && journal.Some?
      && var j := journal.value;
         && CURRENT in j.inventory && Temporary(j.token) !in j.inventory
         && (Active(j.previous) || Active(j.target))
         && (Temporary(j.token) in root ==> root[Temporary(j.token)] == Link(j.target) && Active(j.previous))
         && root - {CURRENT, Temporary(j.token)} == j.inventory - {CURRENT}
    }

    /** No journal, no temporary link, and a receipt that names the active release. */
    ghost predicate Settled(before: Inventory, previous: string, target: string)
      reads this
      requires CURRENT in before
    {
      && journal == None
      && ((Active(previous) && receipt == Some(previous)) || (Active(target) && receipt == Some(target)))
      && root - {CURRENT} == before - {CURRENT}
    }

    /** `apply` of a rollback; a crash or an error may cut it off at every point. */
    method Switch(target: string, token: string) returns (fate: Fate)
      requires journal == None && CURRENT in root && root[CURRENT].Link? && Temporary(token) !in root
      modifies this
      ensures fate.Done? ==> Settled(old(root), target, target)
      ensures fate.Crashed? ==> Underway() || (root == old(root) && receipt == old(receipt) && journal == None)
      ensures fate.Crashed? && journal.Some? ==>
                journal.value == SwitchJournal(token, old(root)[CURRENT].release, target, old(root))
      ensures !fate.Refused?
    {
      var j := SwitchJournal(token, root[CURRENT].release, target, root);
      TemporaryIsNot(token);
      if * { return Crashed; }
      journal := Some(j);
      if * { return Crashed; }
      root := root[Temporary(token) := Link(target)];
      if * { return Crashed; }
      root := (root - {Temporary(token)})[CURRENT := root[Temporary(token)]];
      if * { return Crashed; }
      receipt := Some(target);
      if * { return Crashed; }
      journal := None;
      return Done;
    }

    /** `recover` of a rollback. */
    method Recover() returns (fate: Fate)
      requires Underway()
      modifies this
      ensures fate.Done? ==>
                Settled(old(journal.value.inventory), old(journal.value.previous), old(journal.value.target))
      ensures fate.Crashed? ==> Underway() && journal == old(journal)
      ensures !fate.Refused?
    {
      var j := journal.value;
      TemporaryIsNot(j.token);
      if CURRENT !in root || !root[CURRENT].Link? { return Refused; }
      var actual := root[CURRENT].release;
      if actual != j.previous && actual != j.target { return Refused; }
      SameTree(root, j.inventory, Temporary(j.token), Link(actual));
      if CURRENT !in j.inventory
        || root - {Temporary(j.token)} != j.inventory[CURRENT := Link(actual)] { return Refused; }
      receipt := Some(actual);
      if * { return Crashed; }
      root := root - {Temporary(j.token)};
      if * { return Crashed; }
      journal := None;
      return Done;
    }

    /** A switch, and as many recoveries as it takes, each possibly cut off again. */
    method Campaign(target: string, token: string, attempts: nat) returns (fate: Fate)
      requires journal == None && CURRENT in root && root[CURRENT].Link? && Temporary(token) !in root
      modifies this
      ensures !fate.Refused?
      ensures fate.Done? ==> Settled(old(root), old(root)[CURRENT].release, target)
                             || (root == old(root) && receipt == old(receipt) && journal == None)
      ensures fate.Crashed? ==> Underway()
      ensures root - {CURRENT, Temporary(token)} == old(root) - {CURRENT}
    {
      ghost var before := root;
      fate := Switch(target, token);
      if fate.Crashed? && journal == None { return Done; }
      for i := 0 to attempts
        invariant !fate.Refused?
        invariant fate.Done? ==> Settled(before, before[CURRENT].release, target)
        invariant fate.Crashed? ==>
                    Underway() && journal.value == SwitchJournal(token, before[CURRENT].release, target, before)
      {
        if fate.Crashed? { fate := Recover(); }
      }
    }
  }

  // ---- uninstalling ----

  datatype Phase = Prepared | RemovingInstances | ReadyToQuarantine

  datatype UninstallJournal = UninstallJournal(
    phase: Phase,
    inventory: Inventory,
    entrypoints: seq<(string, string)>,
    receipt: Option<string>,
    completed: seq<string>)

  ghost predicate Within(part: Inventory,
      whole: Inventory) { forall k | k in part :: k in whole && whole[k] == part[k] }

  function Names(entrypoints: seq<(string, string)>): set<string> { set e | e in entrypoints :: e.0 }

  /** The machine around the program: its declarations (are they absent and stopped?), the units
      that refer to it, the commands that lead into it. */
  class Uninstall {
    var root: Option<Inventory>
    var quarantine: Option<Inventory>
    var bin: Inventory
    var receipt: Option<string>
    var absent: map<string, bool>
    var units: set<string>
    var journal: Option<UninstallJournal>

    constructor (root: Inventory, bin: Inventory, receipt: Option<string>, absent: map<string, bool>,
        units: set<string>)
      ensures this.root == Some(root) && quarantine == None && journal == None
      ensures this.bin == bin && this.receipt == receipt && this.absent == absent && this.units == units
    {
      this.root, quarantine, journal := Some(root), None, None;
      this.bin, this.receipt, this.absent, this.units := bin, receipt, absent, units;
    }

    /** Nothing is deployed: every declaration is absent and stopped, no unit refers to the program. */
    ghost predicate Idle()
      reads this
    {
      (forall name | name in absent :: absent[name]) && units == {}
    }

    /** The program as it was. */
    ghost predicate Kept(inventory: Inventory, bin0: Inventory, receipt0: Option<string>)
      reads this
    {
      root == Some(inventory) && quarantine == None && bin == bin0 && receipt == receipt0
    }

    /** The program gone, and only it. */
    ghost predicate Gone(bin0: Inventory, entrypoints: seq<(string, string)>)
      reads this
    {
      root == None && quarantine == None && bin == bin0 - Names(entrypoints) && receipt == None && Idle()
    }

    /** Between the commit point and the end of the removal. */
    ghost predicate Leaving(j: UninstallJournal, bin0: Inventory)
      reads this
    {
      && root == None && j.phase.ReadyToQuarantine? && Idle()
      && (quarantine.Some? ==> Within(quarantine.value, j.inventory))
      && Within(bin, bin0) && Within(bin0 - Names(j.entrypoints), bin)
      && (receipt == None || receipt == j.receipt)
      && (quarantine == None ==> Gone(bin0, j.entrypoints))
    }

    ghost predicate Underway(bin0: Inventory)
      reads this
    {
      && journal.Some? && Leads(bin0, journal.value.entrypoints)
      && (Kept(journal.value.inventory, bin0, journal.value.receipt) || Leaving(journal.value, bin0))
    }

    /** The checks before the removal goes on. */
    method Untouched(ghost bin0: Inventory) returns (ok: bool)
      requires journal.Some? && Leads(bin0, journal.value.entrypoints) && Leaving(journal.value, bin0)
      ensures ok
    {
      hide Idle, Names, Gone;
      var j := journal.value;
      if root.Some? { return false; }
      if quarantine.Some? && exists k ::
        k in quarantine.value && (k !in j.inventory || j.inventory[k] != quarantine.value[k]) {
        return false;
      }
      if receipt.Some? && receipt != j.receipt { return false; }
      for i := 0 to |j.entrypoints| {
        var (name, target) := j.entrypoints[i];
        assert j.entrypoints[i] in j.entrypoints;
        if name in bin && bin[name] != Link(target) { return false; }
      }
      return true;
    }

    method UnlinkAll(entrypoints: seq<(string, string)>, ghost bin0: Inventory) returns (whole: bool)
      requires Within(bin, bin0) && Within(bin0 - Names(entrypoints), bin)
      modifies this`bin
      ensures Within(bin, bin0) && Within(bin0 - Names(entrypoints), bin)
      ensures old(bin) == bin0 - Names(entrypoints) ==> bin == old(bin)
      ensures whole ==> bin == bin0 - Names(entrypoints)
    {
      for i := 0 to |entrypoints|
        invariant Within(bin, bin0) && Within(bin0 - Names(entrypoints), bin)
        invariant old(bin) == bin0 - Names(entrypoints) ==> bin == old(bin)
        invariant forall k | 0 <= k < i :: entrypoints[k].0 !in bin
      {
        if * { return false; }
        assert entrypoints[i].0 in Names(entrypoints) by { assert entrypoints[i] in entrypoints; }
        bin := bin - {entrypoints[i].0};
      }
      AllUnlinked(bin, bin0, entrypoints);
      return true;
    }

    /** `rmtree` of the quarantine, entry by entry. */
    method Empty(ghost inventory: Inventory) returns (whole: bool)
      requires quarantine.Some? ==> Within(quarantine.value, inventory)
      modifies this`quarantine
      ensures quarantine.Some? ==> Within(quarantine.value, inventory)
      ensures whole ==> quarantine == None
    {
      while quarantine.Some?
        invariant quarantine.Some? ==> Within(quarantine.value, inventory)
        decreases if quarantine.Some? then |quarantine.value| + 1 else 0
      {
        if * { return false; }
        if quarantine.value == map[] {
          quarantine := None;
        } else {
          var name :| name in quarantine.value;
          Fewer(quarantine.value, name);
          quarantine := Some(quarantine.value - {name});
        }
      }
      return true;
    }

    /** `finish_uninstall`. */
    method Finish(ghost bin0: Inventory) returns (fate: Fate)
      requires journal.Some? && Leads(bin0, journal.value.entrypoints) && Leaving(journal.value, bin0)
      modifies this
      ensures !fate.Refused?
      ensures root == None && absent == old(absent) && units == old(units)
      ensures fate.Done? ==> journal == None && Gone(bin0, old(journal.value.entrypoints))
      ensures fate.Crashed? ==> Underway(bin0) && journal == old(journal)
    {
      hide Within, Names, Leads;
      var j := journal.value;
      var ok := Untouched(bin0);
      if !ok { return Refused; }
      var whole := UnlinkAll(j.entrypoints, bin0);
      if !whole { return Crashed; }
      if * { return Crashed; }
      receipt := None;
      whole := Empty(j.inventory);
      if !whole { return Crashed; }
      if * { return Crashed; }
      journal := None;
      return Done;
    }

    /** `remove_instance`: it may fail part of the way. */
    method RemoveInstance(name: string, own: set<string>) returns (ok: bool)
      modifies this`absent, this`units
      ensures absent.Keys == old(absent.Keys) + {name}
      ensures forall n | n in old(absent) && n != name :: absent[n] == old(absent)[n]
      ensures ok ==> absent[name]
    {
      ok := *;
      var left: bool := *;
      absent := absent[name := ok || left];
      if * { units := units - own; }
    }

    /** `apply` of an uninstall, on the entry points the preview showed. */
    method Remove(entrypoints: seq<(string, string)>, names: seq<string>) returns (fate: Fate)
      requires journal == None && root.Some? && quarantine == None && Leads(bin, entrypoints)
      modifies this
      ensures !fate.Refused?
      ensures fate.Done? ==> journal == None && Gone(old(bin), entrypoints)
      ensures fate.Crashed? ==> Underway(old(bin)) || (journal == None && Kept(old(root.value), old(bin), old(receipt)))
      ensures journal.Some? ==> journal.value.inventory == old(root.value) && journal.value.entrypoints == entrypoints
                                && journal.value.receipt == old(receipt)
    {
      hide Within, Leads, Names;
      ghost var bin0 := bin;
      var j := UninstallJournal(Prepared, root.value, entrypoints, receipt, []);
      if * { return Crashed; }
      journal := Some(j);
      if * { return Crashed; }
      for i := 0 to |names|
        invariant journal == Some(j) && Kept(j.inventory, bin0, j.receipt)
        invariant j.inventory == old(root.value) && j.entrypoints == entrypoints && j.receipt == old(receipt)
      {
        var own: set<string> := *;
        var ok := RemoveInstance(names[i], own);
        if !ok { return Crashed; }
        j := j.(completed := j.completed + [names[i]], phase := RemovingInstances);
        if * { return Crashed; }
        journal := Some(j);
      }
      // With writers and appliers kept out, everything is looked at once more.
      if exists name :: name in absent && !absent[name] { return Crashed; }
      if units != {} { return Crashed; }
      if root != Some(j.inventory) { return Crashed; }
      j := j.(phase := ReadyToQuarantine);
      journal := Some(j);
      if * { return Crashed; }
      quarantine, root := root, None;
      LeavingStarts(bin, bin0, j);
      fate := Finish(bin0);
    }

    /** `recover` of an uninstall: keeps the whole program, or finishes its removal. */
    method Recover(ghost bin0: Inventory) returns (fate: Fate)
      requires Underway(bin0)
      modifies this
      ensures !fate.Refused?
      ensures fate.Done? ==> journal == None && (Kept(old(journal.value.inventory), bin0, old(journal.value.receipt))
                                                 || Gone(bin0, old(journal.value.entrypoints)))
      ensures fate.Crashed? ==> Underway(bin0) && journal == old(journal)
      ensures old(root).None? ==> root.None?
    {
      hide Within, Leads, Names, Idle;
      var j := journal.value;
      if (quarantine.Some? || root.None?) && !j.phase.ReadyToQuarantine? { return Refused; }
      if quarantine.Some? || root.None? {
        fate := Finish(bin0);
        return;
      }
      if root != Some(j.inventory) { return Refused; }
      if * { return Crashed; }
      journal := None;
      return Done;
    }

    /** An uninstall and its recoveries, each possibly cut off again: in the end the program is as
        it was, or gone with nothing deployed. */
    method Campaign(entrypoints: seq<(string, string)>, names: seq<string>, attempts: nat) returns (fate: Fate)
      requires journal == None && root.Some? && quarantine == None && Leads(bin, entrypoints)
      modifies this
      ensures !fate.Refused?
      ensures fate.Done? ==>
                journal == None && (Kept(old(root.value), old(bin), old(receipt)) || Gone(old(bin), entrypoints))
      ensures fate.Crashed? ==> Underway(old(bin))
      ensures root.None? ==> Idle()
    {
      hide Within, Leads, Names, Idle;
      ghost var bin0 := bin;
      fate := Remove(entrypoints, names);
      if fate.Crashed? && journal == None { return Done; }
      for i := 0 to attempts
        invariant !fate.Refused?
        invariant fate.Done? ==>
                    journal == None && (Kept(old(root.value), bin0, old(receipt)) || Gone(bin0, entrypoints))
        invariant fate.Crashed? ==> Underway(bin0) && journal.value.inventory == old(root.value)
                                    && journal.value.entrypoints == entrypoints && journal.value.receipt == old(receipt)
      {
        if fate.Crashed? { fate := Recover(bin0); }
      }
    }
  }

  lemma LeavingStarts(bin: Inventory, bin0: Inventory, j: UninstallJournal)
    requires bin == bin0
    ensures Within(bin, bin0) && Within(bin0 - Names(j.entrypoints), bin) && Within(j.inventory, j.inventory)
  {
  }

  /** The entry points of the journal lead where it says. */
  ghost predicate Leads(bin0: Inventory, entrypoints: seq<(string, string)>) {
    forall e | e in entrypoints :: e.0 in bin0 && bin0[e.0] == Link(e.1)
  }

  lemma AllUnlinked(bin: Inventory, bin0: Inventory, entrypoints: seq<(string, string)>)
    requires Within(bin, bin0) && Within(bin0 - Names(entrypoints), bin)
    requires forall k | 0 <= k < |entrypoints| :: entrypoints[k].0 !in bin
    ensures bin == bin0 - Names(entrypoints)
  {
    forall k | k in bin ensures k !in Names(entrypoints) {}
  }

  lemma Fewer(m: Inventory, name: string)
    requires name in m
    ensures |m - {name}| < |m|
  {
    assert (m - {name}).Keys == m.Keys - {name};
    assert |(m - {name}).Keys| == |m - {name}|;
  }
}
