/** Admission after a crash: which records count as occupied, that slots of runs that are gone are
    reclaimed, and the one thing that stops every later run, a record that was left torn. */
module SupervisorRecovery {
  import opened Basics
  import opened Supervisor
  import opened SupervisorRuns
  import opened SlotLocks

  /** A supervisor that chooses a slot counts only readable records of this boot as occupied. */
  lemma {:induction false} OccupiedIsCurrent(slots: nat, ms: seq<Machine>, actions: seq<Action>, i: nat, pid: Pid, slot: Slot)
    requires Run(slots, ms, actions) && i < |ms| && Live(ms[i], pid) && ms[i].sups[pid].Choosing?
    ensures slot in ms[i].sups[pid].occupied <==> slot in ms[i].disk
    ensures slot in ms[i].disk ==> ms[i].disk[slot].Record? && ms[i].disk[slot].boot == ms[i].boot
  {
    RunKeeps(slots, ms, actions, i);
    assert SupervisorOk(slots, ms[i], pid);
  }

  // ----- torn records -----------------------------------------------------------------------------------

  ghost predicate AnyTorn(m: Machine) { exists slot :: slot in m.disk && m.disk[slot].Torn? }

  /** Nobody removes a torn record, and nobody gets a slot beside one. */
  lemma {:induction false} TornNotOwn(slots: nat, m: Machine, pid: Pid, slot: Slot)
    requires Inv(slots, m) && Live(m, pid) && slot in m.disk && m.disk[slot].Torn?
    ensures !m.sups[pid].Locked? && !m.sups[pid].Choosing?
    ensures m.sups[pid].Scrubbed? || m.sups[pid].Unlinking? ==> m.sups[pid].slot != slot
  {
    assert SupervisorOk(slots, m, pid);
  }

  lemma {:induction false} DiskAfter(slots: nat, m: Machine, a: Action, slot: Slot)
    requires Enabled(slots, m, a) && slot in m.disk && m.disk[slot].Torn?
    requires !a.WriteRecord?
    requires a.DropScrubbed? || a.Unlink? ==> m.sups[a.pid].slot != slot
    ensures slot in Next(slots, m, a).disk && Next(slots, m, a).disk[slot].Torn? && Next(slots, m, a).issued == m.issued
  {
  }

  lemma {:induction false} TornStays(slots: nat, m: Machine, a: Action, slot: Slot)
    requires Inv(slots, m) && Enabled(slots, m, a) && slot in m.disk && m.disk[slot].Torn?
    ensures slot in Next(slots, m, a).disk && Next(slots, m, a).disk[slot].Torn? && Next(slots, m, a).issued == m.issued
  {
    if a.WriteRecord? || a.DropScrubbed? || a.Unlink? { TornNotOwn(slots, m, a.pid, slot); }
    DiskAfter(slots, m, a, slot);
  }

  ghost predicate TornAt(ms: seq<Machine>, k: nat, slot: Slot, issued: set<Token>)
    requires k < |ms|
  {
    slot in ms[k].disk && ms[k].disk[slot].Torn? && ms[k].issued == issued
  }

  ghost predicate TornOn(ms: seq<Machine>, k: nat, slot: Slot, issued: set<Token>)
    requires k + 1 < |ms|
  {
    TornAt(ms, k, slot, issued) ==> TornAt(ms, k + 1, slot, issued)
  }

  lemma {:induction false} TornOnward(ms: seq<Machine>, i: nat, j: nat, slot: Slot, issued: set<Token>)
    requires i <= j < |ms| && TornAt(ms, i, slot, issued)
    requires forall k: nat {:trigger TornOn(ms, k, slot, issued)} :: i <= k < j ==> TornOn(ms, k, slot, issued)
    ensures TornAt(ms, j, slot, issued)
    decreases j
  {
    if i < j {
      TornOnward(ms, i, j - 1, slot, issued);
      assert TornOn(ms, j - 1, slot, issued);
    }
  }

  /** A torn record is never removed, and from then on no run is admitted, in this boot or later. */
  lemma {:induction false} TornForEver(slots: nat, ms: seq<Machine>, actions: seq<Action>, i: nat, j: nat, slot: Slot)
    requires Run(slots, ms, actions) && i <= j < |ms| && slot in ms[i].disk && ms[i].disk[slot].Torn?
    ensures slot in ms[j].disk && ms[j].disk[slot].Torn? && ms[j].issued == ms[i].issued
  {
    forall k: nat | i <= k < j ensures TornOn(ms, k, slot, ms[i].issued) {
      RunKeeps(slots, ms, actions, k);
      if TornAt(ms, k, slot, ms[i].issued) { TornStays(slots, ms[k], actions[k], slot); }
    }
    TornOnward(ms, i, j, slot, ms[i].issued);
  }

  // ----- clearing the slots --------------------------------------------------------------------------------

  /** A supervisor alone on the machine, with exactly the records in `todo` to examine. */
  ghost predicate Clearing(m: Machine, pid: Pid, todo: set<Slot>) {
    && Live(m, pid) && m.sups[pid] == Admitting(todo, {}) && m.procs[pid].run == None && m.disk.Keys == todo
    && (forall p :: p != pid ==> !Alive(m, p)) && (forall slot :: pid !in OpenBy(m, slot))
    && (forall i :: i in m.disk ==> m.disk[i].Record? && m.disk[i].supervisor != pid)
  }

  /** A run of the machine that continues another one by steps of `pid`. */
  ghost predicate Continues(slots: nat, ms: seq<Machine>, actions: seq<Action>, longer: seq<Machine>, more: seq<Action>) {
    Run(slots, longer, more) && ms <= longer && actions <= more
  }

  lemma {:induction false} OneStep(slots: nat, ms: seq<Machine>, actions: seq<Action>, a: Action)
    returns (longer: seq<Machine>, more: seq<Action>)
    requires Run(slots, ms, actions) && Enabled(slots, ms[|actions|], a)
    ensures Continues(slots, ms, actions, longer, more) && longer[|more|] == Next(slots, ms[|actions|], a)
  {
    longer, more := ms + [Next(slots, ms[|actions|], a)], actions + [a];
  }

  lemma {:induction false} ContinuesOn(slots: nat, ms: seq<Machine>, actions: seq<Action>, longer: seq<Machine>, more: seq<Action>,
                                       longest: seq<Machine>, most: seq<Action>)
    requires Continues(slots, ms, actions, longer, more) && Continues(slots, longer, more, longest, most)
    ensures Continues(slots, ms, actions, longest, most)
  {
    assert longest[..|ms|] == longer[..|ms|] && most[..|actions|] == more[..|actions|];
  }

  /** One record less, and nothing else of what `Clearing` reads. */
  lemma {:induction false} OneLess(m: Machine, m': Machine, pid: Pid, todo: set<Slot>, slot: Slot)
    requires Clearing(m, pid, todo) && slot in todo
    requires m' == m.(disk := m.disk - {slot}, sups := m.sups[pid := Admitting(todo - {slot}, {})])
    ensures Clearing(m', pid, todo - {slot})
  {
    assert m'.disk.Keys == todo - {slot};
    forall p | p != pid ensures !Alive(m', p) { assert !Alive(m, p); }
    forall s ensures pid !in OpenBy(m', s) { assert pid !in OpenBy(m, s); }
    forall i | i in m'.disk ensures m'.disk[i].Record? && m'.disk[i].supervisor != pid { assert i in m.disk; }
  }

  lemma {:induction false} StaleCleared(slots: nat, m: Machine, pid: Pid, todo: set<Slot>, slot: Slot)
    requires Clearing(m, pid, todo) && slot in todo && m.disk[slot].boot != m.boot
    ensures Enabled(slots, m, DropStale(pid, slot))
    ensures Clearing(Next(slots, m, DropStale(pid, slot)), pid, todo - {slot})
    ensures Next(slots, m, DropStale(pid, slot)).issued == m.issued
  {
    assert slot in m.disk;
    OneLess(m, Next(slots, m, DropStale(pid, slot)), pid, todo, slot);
  }

  /** A record of this boot whose supervisor is dead: three steps remove it. */
  lemma {:induction false} DeadCleared(slots: nat, m: Machine, pid: Pid, todo: set<Slot>, slot: Slot) returns (m1: Machine, m2: Machine, m3: Machine)
    requires Clearing(m, pid, todo) && slot in todo && m.disk[slot].boot == m.boot
    ensures Enabled(slots, m, FindDead(pid, slot)) && m1 == Next(slots, m, FindDead(pid, slot))
    ensures Enabled(slots, m1, Scrub(pid)) && m2 == Next(slots, m1, Scrub(pid))
    ensures Enabled(slots, m2, DropScrubbed(pid)) && m3 == Next(slots, m2, DropScrubbed(pid))
    ensures Clearing(m3, pid, todo - {slot}) && m3.issued == m.issued
  {
    assert slot in m.disk;
    m1 := SetPc(m, pid, Scrubbing(todo, {}, slot));
    NobodyTagged(m, m1, pid, m.disk[slot].token);
    m2 := SetPc(m1, pid, Scrubbed(todo, {}, slot));
    m3 := SetPc(Remove(m2, slot), pid, Admitting(todo - {slot}, {}));
    assert m3.sups == m.sups[pid := Admitting(todo - {slot}, {})];
    OneLess(m, m3, pid, todo, slot);
  }

  lemma {:induction false} NobodyTagged(m: Machine, m': Machine, pid: Pid, token: Token)
    requires m'.procs == m.procs && pid in m.procs && m.procs[pid].run == None && forall p :: p != pid ==> !Alive(m, p)
    ensures NoneTagged(m', token)
  {
    forall p ensures !Tagged(m', p, token) { assert p != pid ==> !Alive(m, p); }
  }

  /** It clears every slot, one record at a time. */
  lemma {:induction false} AllCleared(slots: nat, ms: seq<Machine>, actions: seq<Action>, pid: Pid, todo: set<Slot>)
    returns (longer: seq<Machine>, more: seq<Action>)
    requires Run(slots, ms, actions) && Clearing(ms[|actions|], pid, todo)
    ensures Continues(slots, ms, actions, longer, more) && Clearing(longer[|more|], pid, {})
    ensures longer[|more|].issued == ms[|actions|].issued
    decreases |todo|
  {
    longer, more := ms, actions;
    if todo != {} {
      var slot :| slot in todo;
      longer, more := SlotCleared(slots, ms, actions, pid, todo, slot);
      var longest, most := AllCleared(slots, longer, more, pid, todo - {slot});
      ContinuesOn(slots, ms, actions, longer, more, longest, most);
      longer, more := longest, most;
    }
  }

  lemma {:induction false} SlotCleared(slots: nat, ms: seq<Machine>, actions: seq<Action>, pid: Pid, todo: set<Slot>, slot: Slot)
    returns (longer: seq<Machine>, more: seq<Action>)
    requires Run(slots, ms, actions) && Clearing(ms[|actions|], pid, todo) && slot in todo
    ensures Continues(slots, ms, actions, longer, more) && Clearing(longer[|more|], pid, todo - {slot})
    ensures longer[|more|].issued == ms[|actions|].issued
  {
    var m := ms[|actions|];
    if m.disk[slot].boot != m.boot {
      StaleCleared(slots, m, pid, todo, slot);
      longer, more := OneStep(slots, ms, actions, DropStale(pid, slot));
    } else {
      var m1, m2, m3 := DeadCleared(slots, m, pid, todo, slot);
      longer, more := ThreeSteps(slots, ms, actions, FindDead(pid, slot), Scrub(pid), DropScrubbed(pid), m1, m2, m3);
    }
  }

  lemma {:induction false} ThreeSteps(slots: nat, ms: seq<Machine>, actions: seq<Action>, a: Action, b: Action, c: Action,
                                      m1: Machine, m2: Machine, m3: Machine)
    returns (longer: seq<Machine>, more: seq<Action>)
    requires Run(slots, ms, actions) && Enabled(slots, ms[|actions|], a) && m1 == Next(slots, ms[|actions|], a)
    requires Enabled(slots, m1, b) && m2 == Next(slots, m1, b) && Enabled(slots, m2, c) && m3 == Next(slots, m2, c)
    ensures Continues(slots, ms, actions, longer, more) && longer[|more|] == m3
  {
    var l1, k1 := OneStep(slots, ms, actions, a);
    var l2, k2 := OneStep(slots, l1, k1, b);
    longer, more := OneStep(slots, l2, k2, c);
    ContinuesOn(slots, ms, actions, l1, k1, l2, k2);
    ContinuesOn(slots, ms, actions, l2, k2, longer, more);
  }

  // ----- a new run after everything has died --------------------------------------------------------------

  lemma {:induction false} Above(s: set<nat>) returns (bound: nat)
    ensures forall x :: x in s ==> x < bound
  {
    if s == {} {
      bound := 0;
    } else {
      var x :| x in s;
      var rest := Above(s - {x});
      bound := if x < rest then rest else x + 1;
      forall y | y in s ensures y < bound { assert y == x || y in s - {x}; }
    }
  }

  ghost predicate AllDead(m: Machine) { forall p :: !Alive(m, p) }

  /** A new supervisor enters admission on a machine where nobody is alive. */
  lemma {:induction false} EntersAlone(slots: nat, m: Machine, pid: Pid) returns (m1: Machine, m2: Machine)
    requires Inv(slots, m) && LocksOk(slots, m) && AllDead(m) && !AnyTorn(m)
    requires pid !in m.procs && pid !in m.sups && m.lock != Some(pid)
    ensures Enabled(slots, m, Start(pid)) && m1 == Next(slots, m, Start(pid))
    ensures Enabled(slots, m1, TakeAdmission(pid)) && m2 == Next(slots, m1, TakeAdmission(pid))
    ensures Clearing(m2, pid, m.disk.Keys) && m2.issued == m.issued
  {
    m1 := Next(slots, m, Start(pid));
    assert m.lock.Some? ==> !Alive(m, m.lock.value);
    m2 := Next(slots, m1, TakeAdmission(pid));
    forall p | p != pid ensures !Alive(m2, p) { assert !Alive(m, p); }
    Stranger(slots, m, pid);
    forall s ensures pid !in OpenBy(m2, s) { assert OpenBy(m2, s) == OpenBy(m, s); }
    forall i | i in m2.disk ensures m2.disk[i].Record? && m2.disk[i].supervisor != pid { assert !m.disk[i].Torn?; }
  }

  /** With all slots cleared it takes the first one. */
  lemma {:induction false} TakesFirst(slots: nat, m: Machine, pid: Pid, token: Token) returns (m1: Machine, m2: Machine, m3: Machine)
    requires slots > 0 && Clearing(m, pid, {}) && token !in m.issued
    ensures Enabled(slots, m, Examined(pid)) && m1 == Next(slots, m, Examined(pid))
    ensures Enabled(slots, m1, TakeSlot(pid, 0)) && m2 == Next(slots, m1, TakeSlot(pid, 0))
    ensures Enabled(slots, m2, WriteRecord(pid, token)) && m3 == Next(slots, m2, WriteRecord(pid, token))
    ensures Live(m3, pid) && m3.sups[pid] == Admitted(0, token) && m3.procs == m.procs && m3.sups.Keys == m.sups.Keys
  {
    m1 := Next(slots, m, Examined(pid));
    assert OpenBy(m1, 0) == OpenBy(m, 0) && pid !in OpenBy(m, 0);
    forall p | p in OpenBy(m1, 0) ensures !Alive(m1, p) { assert !Alive(m, p); }
    m2 := Next(slots, m1, TakeSlot(pid, 0));
    m3 := Next(slots, m2, WriteRecord(pid, token));
  }

  /** The admitted run gets a process that executes the command. */
  lemma {:induction false} Launches(slots: nat, ms: seq<Machine>, actions: seq<Action>, pid: Pid, child: Pid, token: Token)
    returns (longer: seq<Machine>, more: seq<Action>)
    requires Run(slots, ms, actions) && Live(ms[|actions|], pid) && ms[|actions|].sups[pid] == Admitted(0, token)
    requires child !in ms[|actions|].procs && child !in ms[|actions|].sups
    ensures Continues(slots, ms, actions, longer, more) && Tagged(longer[|more|], child, token)
  {
    var l1, k1 := OneStep(slots, ms, actions, Spawn(pid, child));
    longer, more := OneStep(slots, l1, k1, Exec(child));
    ContinuesOn(slots, ms, actions, l1, k1, longer, more);
  }

  lemma {:induction false} TwoSteps(slots: nat, ms: seq<Machine>, actions: seq<Action>, a: Action, b: Action, m1: Machine, m2: Machine)
    returns (longer: seq<Machine>, more: seq<Action>)
    requires Run(slots, ms, actions) && Enabled(slots, ms[|actions|], a) && m1 == Next(slots, ms[|actions|], a)
    requires Enabled(slots, m1, b) && m2 == Next(slots, m1, b)
    ensures Continues(slots, ms, actions, longer, more) && longer[|more|] == m2
  {
    var l1, k1 := OneStep(slots, ms, actions, a);
    longer, more := OneStep(slots, l1, k1, b);
    ContinuesOn(slots, ms, actions, l1, k1, longer, more);
  }

  /** From every state a run of the machine can reach, however it got there, in which nobody is
      alive and no record is torn, one new supervisor reclaims the slots and starts a new run. */
  lemma {:induction false} NewRunAfterDeath(slots: nat, ms: seq<Machine>, actions: seq<Action>)
    returns (longer: seq<Machine>, more: seq<Action>, child: Pid, token: Token)
    requires Run(slots, ms, actions) && slots > 0 && AllDead(ms[|actions|]) && !AnyTorn(ms[|actions|])
    ensures Continues(slots, ms, actions, longer, more)
    ensures Tagged(longer[|more|], child, token) && token !in ms[|actions|].issued
  {
    var m := ms[|actions|];
    RunKeeps(slots, ms, actions, |actions|);
    RunLocks(slots, ms, actions, |actions|);
    var lock := if m.lock.Some? then {m.lock.value} else {};
    var pid := Above(m.procs.Keys + m.sups.Keys + lock);
    token := Above(m.issued);
    var m1, m2 := EntersAlone(slots, m, pid);
    var l1, k1 := TwoSteps(slots, ms, actions, Start(pid), TakeAdmission(pid), m1, m2);
    var l2, k2 := AllCleared(slots, l1, k1, pid, m.disk.Keys);
    ContinuesOn(slots, ms, actions, l1, k1, l2, k2);
    var n1, n2, n3 := TakesFirst(slots, l2[|k2|], pid, token);
    var l3, k3 := ThreeSteps(slots, l2, k2, Examined(pid), TakeSlot(pid, 0), WriteRecord(pid, token), n1, n2, n3);
    ContinuesOn(slots, ms, actions, l2, k2, l3, k3);
    child := Above(n3.procs.Keys + n3.sups.Keys);
    longer, more := Launches(slots, l3, k3, pid, child, token);
    ContinuesOn(slots, ms, actions, l3, k3, longer, more);
  }

  /** A reboot kills everybody, keeps the records, and outdates every one of them. */
  lemma {:induction false} RebootKills(slots: nat, ms: seq<Machine>, actions: seq<Action>, i: nat)
    requires Run(slots, ms, actions) && i < |ms|
    ensures var m := Next(slots, ms[i], Reboot);
            && AllDead(m) && m.disk == ms[i].disk
            && forall slot :: slot in m.disk && m.disk[slot].Record? ==> m.disk[slot].boot != m.boot
  {
    RunKeeps(slots, ms, actions, i);
  }

  /** A process of a run that had not been admitted yet at the end of the shorter run. */
  ghost predicate NewRun(slots: nat, ms: seq<Machine>, actions: seq<Action>, longer: seq<Machine>, more: seq<Action>, p: Pid, token: Token) {
    && Continues(slots, ms, actions, longer, more) && |actions| < |ms|
    && Tagged(longer[|more|], p, token) && token !in ms[|actions|].issued
  }

  /** Exactly when admission recovers from a crash or a reboot that left nobody alive: when no
      record was left torn. */
  lemma {:induction false} RecoversExactly(slots: nat, ms: seq<Machine>, actions: seq<Action>)
    requires Run(slots, ms, actions) && slots > 0 && AllDead(ms[|actions|])
    ensures (exists longer, more, p, token :: NewRun(slots, ms, actions, longer, more, p, token)) <==> !AnyTorn(ms[|actions|])
  {
    if !AnyTorn(ms[|actions|]) {
      var longer, more, child, token := NewRunAfterDeath(slots, ms, actions);
      assert NewRun(slots, ms, actions, longer, more, child, token);
    } else {
      forall longer, more, p, token ensures !NewRun(slots, ms, actions, longer, more, p, token) {
        if Continues(slots, ms, actions, longer, more) { NothingNewBesideTorn(slots, ms, actions, longer, more, p, token); }
      }
    }
  }

  lemma {:induction false} NothingNewBesideTorn(slots: nat, ms: seq<Machine>, actions: seq<Action>,
                                                longer: seq<Machine>, more: seq<Action>, p: Pid, token: Token)
    requires Run(slots, ms, actions) && Continues(slots, ms, actions, longer, more) && AnyTorn(ms[|actions|])
    ensures Tagged(longer[|more|], p, token) ==> token in ms[|actions|].issued
  {
    var slot :| slot in ms[|actions|].disk && ms[|actions|].disk[slot].Torn?;
    assert longer[|actions|] == ms[|actions|];
    TornForEver(slots, longer, more, |actions|, |more|, slot);
    RunKeeps(slots, longer, more, |more|);
  }

  // ----- room for another run -----------------------------------------------------------------------------

  lemma {:induction false} Unused(slots: nat, occupied: set<Slot>) returns (slot: Slot)
    requires |occupied| < slots
    ensures slot < slots && slot !in occupied
    decreases slots
  {
    if slots - 1 !in occupied {
      slot := slots - 1;
    } else {
      slot := Unused(slots - 1, occupied - {slots - 1});
    }
  }

  /** Who can still have the file of a slot open that has no record: on a sighted run only a
      supervisor that has removed its record and is about to close the file. */
  lemma {:induction false} UnrecordedIsFree(slots: nat, ms: seq<Machine>, actions: seq<Action>, i: nat, pid: Pid, slot: Slot, p: Pid)
    requires SightedRun(slots, ms, actions) && i < |ms| && Live(ms[i], pid) && ms[i].sups[pid].Choosing?
    requires slot !in ms[i].disk && Holds(ms[i], p, slot)
    ensures p in ms[i].sups && ms[i].sups[p].Leaving?
  {
    var m := ms[i];
    RunKeeps(slots, ms, actions, i);
    RunLocks(slots, ms, actions, i);
    assert HolderOk(slots, m, p, slot) && SupervisorOk(slots, m, pid);
    if p in m.sups {
      assert SupervisorOk(slots, m, p);
      if m.sups[p].Locked? { AdmissionAlone(slots, m, pid, p); }
    } else {
      HolderRecorded(slots, ms, actions, i, p, slot);
    }
  }

  /** A process of a live run holds no other file than that of its recorded slot. */
  lemma {:induction false} HolderRecorded(slots: nat, ms: seq<Machine>, actions: seq<Action>, i: nat, p: Pid, slot: Slot)
    requires SightedRun(slots, ms, actions) && i < |ms| && Holds(ms[i], p, slot) && p !in ms[i].sups
    requires p in ms[i].procs && ms[i].procs[p].run.Some?
    ensures slot in ms[i].disk
  {
    var token := ms[i].procs[p].run.value;
    var recorded, x := LiveRunIsRecorded(slots, ms, actions, i, p, token);
    var y := HeldWherePut(slots, ms, actions, i, p, slot);
    PutOnce(slots, ms, actions, token, x, recorded, y, slot);
  }

  /** While fewer slots are occupied than there are, a supervisor that chooses can take one, unless
      a supervisor that is leaving has not closed its slot's file yet. */
  lemma {:induction false} TakenWhenRoom(slots: nat, ms: seq<Machine>, actions: seq<Action>, i: nat, pid: Pid) returns (slot: Slot)
    requires SightedRun(slots, ms, actions) && i < |ms| && Live(ms[i], pid) && ms[i].sups[pid].Choosing?
    requires |ms[i].disk.Keys| < slots
    requires forall p, s :: p in ms[i].sups && ms[i].sups[p].Leaving? ==> !Holds(ms[i], p, s)
    ensures Enabled(slots, ms[i], TakeSlot(pid, slot))
  {
    var m := ms[i];
    RunKeeps(slots, ms, actions, i);
    assert SupervisorOk(slots, m, pid);
    slot := Unused(slots, m.sups[pid].occupied);
    assert slot !in m.disk;
    forall p | p in OpenBy(m, slot) ensures !Alive(m, p) {
      if Alive(m, p) {
        assert Holds(m, p, slot);
        UnrecordedIsFree(slots, ms, actions, i, pid, slot, p);
      }
    }
  }
}
