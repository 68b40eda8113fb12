/** The slot locks over all runs, blind scrubs included. A slot's file is locked before its record
    is written and is inherited by the run's processes, from the fork on. So where the records can
    fail, between a fork and the command's execution, the locks still keep the runs apart. */
module SlotLocks {
  import opened Basics
  import opened Supervisor
  import opened SupervisorRuns

  /** A live process that has a slot's locked file open. */
  predicate Holds(m: Machine, p: Pid, slot: Slot) { p in OpenBy(m, slot) && Alive(m, p) }

  predicate Attached(pc: Pc) { pc.Locked? || Owns(pc) }

  /** The run a process holds a file for: a supervisor's own run, or the run it was started for. */
  function HeldRun(m: Machine, p: Pid): Option<Token> {
    if p in m.sups then if Owns(m.sups[p]) then Some(m.sups[p].token) else None
    else if p in m.procs then m.procs[p].run
    else None
  }

  ghost predicate HolderOk(slots: nat, m: Machine, p: Pid, slot: Slot) {
    && p in m.procs
    && (Alive(m, p) ==>
          && slot < slots
          && (p in m.sups ==> (Attached(m.sups[p]) && m.sups[p].slot == slot) || m.sups[p].Leaving?)
          && (p !in m.sups ==> m.procs[p].run.Some?))
  }

  /** Two holders of a slot's file hold it for one run; before there is a run there is one holder. */
  ghost predicate Together(m: Machine, p: Pid, q: Pid) {
    && (HeldRun(m, p).Some? && HeldRun(m, q).Some? ==> HeldRun(m, p) == HeldRun(m, q))
    && (p in m.sups && m.sups[p].Locked? ==> p == q)
  }

  ghost predicate LocksOk(slots: nat, m: Machine) {
    && (forall slot, p :: p in OpenBy(m, slot) ==> HolderOk(slots, m, p, slot))
    && (forall slot, p, q :: Holds(m, p, slot) && Holds(m, q, slot) ==> Together(m, p, q))
    && (forall p :: Live(m, p) && Attached(m.sups[p]) ==> p in OpenBy(m, m.sups[p].slot))
  }

  // ----- every step keeps it ------------------------------------------------------------------------

  /** A step of an acting supervisor that takes no slot and writes no record. */
  predicate PlaceFollows(m: Machine, p: Pid, pc: Pc) {
    if p !in m.sups then pc.Queueing? && p !in m.procs
    else
      && (Owns(pc) ==> Owns(m.sups[p]) && m.sups[p].slot == pc.slot && m.sups[p].token == pc.token)
      && (pc.Locked? ==> m.sups[p] == pc)
      && (Attached(m.sups[p]) || m.sups[p].Leaving? ==> Attached(pc) || pc.Leaving?)
  }

  /** Nobody opens a file. */
  ghost predicate NothingOpened(m: Machine, m': Machine) {
    forall slot, p :: p in OpenBy(m', slot) ==> p in OpenBy(m, slot)
  }

  ghost predicate Follows(m: Machine, m': Machine) {
    && Onward(m, m') && NothingOpened(m, m')
    && (forall p :: p in m.sups ==> p in m'.sups)
    && (forall p :: p in m'.sups && Alive(m', p) ==> PlaceFollows(m, p, m'.sups[p]))
    && (forall p :: Live(m', p) && p in m.sups && Attached(m'.sups[p]) && p in OpenBy(m, m'.sups[p].slot) ==>
          p in OpenBy(m', m'.sups[p].slot))
  }

  lemma {:induction false} FollowingKeeps(slots: nat, m: Machine, m': Machine)
    requires LocksOk(slots, m) && Inv(slots, m) && Follows(m, m')
    ensures LocksOk(slots, m')
  {
    forall slot, p | p in OpenBy(m', slot) ensures HolderOk(slots, m', p, slot) { assert HolderOk(slots, m, p, slot); }
    forall slot, p, q | Holds(m', p, slot) && Holds(m', q, slot) ensures Together(m', p, q) {
      assert HolderOk(slots, m, p, slot) && HolderOk(slots, m, q, slot);
      assert Holds(m, p, slot) && Holds(m, q, slot) && Together(m, p, q);
      assert p in m'.sups && Alive(m', p) ==> PlaceFollows(m, p, m'.sups[p]);
      assert q in m'.sups && Alive(m', q) ==> PlaceFollows(m, q, m'.sups[q]);
      HeldOn(m, m', p);
      HeldOn(m, m', q);
    }
    forall p | Live(m', p) && Attached(m'.sups[p]) ensures p in OpenBy(m', m'.sups[p].slot) {
      assert PlaceFollows(m, p, m'.sups[p]) && Live(m, p);
    }
  }

  lemma {:induction false} HeldOn(m: Machine, m': Machine, p: Pid)
    requires Onward(m, m') && p in m.procs && (p in m.sups ==> p in m'.sups)
    requires p in m'.sups && Alive(m', p) ==> PlaceFollows(m, p, m'.sups[p])
    ensures Alive(m', p) && HeldRun(m', p).Some? ==> HeldRun(m', p) == HeldRun(m, p)
  {
  }

  /** One supervisor moves on, and files and processes stay. */
  ghost predicate OnlyMoves(m: Machine, pid: Pid, m': Machine) {
    && pid in m.sups && pid in m'.sups && m'.sups == m.sups[pid := m'.sups[pid]]
    && m'.procs == m.procs && m'.open == m.open && PlaceFollows(m, pid, m'.sups[pid])
  }

  lemma {:induction false} MovingFollows(m: Machine, pid: Pid, m': Machine)
    requires OnlyMoves(m, pid, m')
    ensures Follows(m, m')
  {
  }

  lemma {:induction false} AdmissionMoves(slots: nat, m: Machine, a: Action)
    requires Enabled(slots, m, a) && AdmissionStep(a) && !a.TakeSlot?
    ensures OnlyMoves(m, a.pid, Next(slots, m, a))
  {
  }

  lemma {:induction false} HolderMoves(slots: nat, m: Machine, a: Action)
    requires Enabled(slots, m, a) && HolderStep(a)
    ensures OnlyMoves(m, a.pid, Next(slots, m, a))
  {
  }

  lemma {:induction false} RemovalMoves(slots: nat, m: Machine, a: Action)
    requires Enabled(slots, m, a) && (a.DropStale? || a.DropScrubbed? || a.Unlink?)
    ensures OnlyMoves(m, a.pid, Next(slots, m, a))
  {
  }

  lemma {:induction false} KillingFollows(m: Machine, p: Pid, m': Machine)
    requires p in m.procs && m'.procs == Killed(m, p).procs && m'.sups == m.sups && m'.open == m.open
    ensures Follows(m, m')
  {
  }

  lemma {:induction false} ExecFollows(slots: nat, m: Machine, child: Pid)
    requires Inv(slots, m) && Enabled(slots, m, Exec(child))
    ensures Follows(m, Next(slots, m, Exec(child)))
  {
    assert child in m.sups ==> SupervisorOk(slots, m, child);
  }

  lemma {:induction false} CloseFollows(slots: nat, m: Machine, pid: Pid, slot: Slot)
    requires Enabled(slots, m, CloseSlot(pid, slot))
    ensures Follows(m, Next(slots, m, CloseSlot(pid, slot)))
  {
  }

  lemma {:induction false} RebootFollows(slots: nat, m: Machine)
    ensures Follows(m, Next(slots, m, Reboot))
  {
  }

  lemma {:induction false} StartFollows(slots: nat, m: Machine, pid: Pid)
    requires Enabled(slots, m, Start(pid))
    ensures Follows(m, Next(slots, m, Start(pid)))
  {
  }

  lemma {:induction false} StepFollows(slots: nat, m: Machine, a: Action, m': Machine)
    requires Inv(slots, m) && Enabled(slots, m, a) && m' == Next(slots, m, a)
    requires !a.TakeSlot? && !a.WriteRecord? && !a.Spawn? && !a.Fork?
    ensures Follows(m, m')
  {
    if AdmissionStep(a) {
      AdmissionMoves(slots, m, a);
      MovingFollows(m, a.pid, m');
    } else if HolderStep(a) {
      HolderMoves(slots, m, a);
      MovingFollows(m, a.pid, m');
    } else if a.DropStale? || a.DropScrubbed? || a.Unlink? {
      RemovalMoves(slots, m, a);
      MovingFollows(m, a.pid, m');
    } else {
      match a {
        case TearRecord(pid) => KillingFollows(m, pid, m');
        case Die(pid) => KillingFollows(m, pid, m');
        case Exec(child) => ExecFollows(slots, m, child);
        case CloseSlot(pid, slot) => CloseFollows(slots, m, pid, slot);
        case Start(pid) => StartFollows(slots, m, pid);
        case Reboot => RebootFollows(slots, m);
      }
    }
  }

  /** A free slot is taken by one holder. */
  lemma {:induction false} TakeSlotLocks(slots: nat, m: Machine, pid: Pid, slot: Slot)
    requires Inv(slots, m) && LocksOk(slots, m) && Enabled(slots, m, TakeSlot(pid, slot))
    ensures LocksOk(slots, Next(slots, m, TakeSlot(pid, slot)))
  {
    var m' := Next(slots, m, TakeSlot(pid, slot));
    assert SupervisorOk(slots, m, pid);
    forall s, p | p in OpenBy(m', s) ensures HolderOk(slots, m', p, s) {
      assert s != slot ==> p in OpenBy(m, s) && HolderOk(slots, m, p, s);
    }
    forall s, p, q | Holds(m', p, s) && Holds(m', q, s) ensures Together(m', p, q) {
      if s != slot {
        assert HolderOk(slots, m, p, s) && HolderOk(slots, m, q, s);
        assert Holds(m, p, s) && Holds(m, q, s) && Together(m, p, q);
      }
    }
    forall p | Live(m', p) && Attached(m'.sups[p]) ensures p in OpenBy(m', m'.sups[p].slot) {
      assert p != pid ==> Live(m, p) && p in OpenBy(m, m.sups[p].slot);
      assert p != pid ==> Holds(m, p, m.sups[p].slot);
    }
  }

  /** Its holder is still alone when it gets a run. */
  lemma {:induction false} WriteLocks(slots: nat, m: Machine, pid: Pid, token: Token)
    requires Inv(slots, m) && LocksOk(slots, m) && Enabled(slots, m, WriteRecord(pid, token))
    ensures LocksOk(slots, Next(slots, m, WriteRecord(pid, token)))
  {
    var m' := Next(slots, m, WriteRecord(pid, token));
    forall s, p | p in OpenBy(m', s) ensures HolderOk(slots, m', p, s) { assert HolderOk(slots, m, p, s); }
    forall s, p, q | Holds(m', p, s) && Holds(m', q, s) ensures Together(m', p, q) {
      assert HolderOk(slots, m, p, s) && HolderOk(slots, m, q, s);
      assert Holds(m, p, s) && Holds(m, q, s) && Together(m, p, q) && Together(m, q, p);
    }
    forall p | Live(m', p) && Attached(m'.sups[p]) ensures p in OpenBy(m', m'.sups[p].slot) {
      assert Live(m, p) && p in OpenBy(m, m.sups[p].slot);
    }
  }

  /** A new process shares the files of `from`, and its run. */
  lemma {:induction false} BornLocks(slots: nat, m: Machine, from: Pid, child: Pid, m': Machine)
    requires Inv(slots, m) && LocksOk(slots, m) && child !in m.procs && child !in m.sups
    requires child in m'.procs && m'.procs == m.procs[child := m'.procs[child]] && m'.procs[child].run.Some?
    requires HeldRun(m, from) == m'.procs[child].run && Alive(m, from)
    requires m'.sups.Keys == m.sups.Keys
    requires forall q :: q in m.sups ==> m'.sups[q] == m.sups[q] || (q == from && Owns(m.sups[q]) && Owns(m'.sups[q])
                                           && m'.sups[q].slot == m.sups[q].slot && m'.sups[q].token == m.sups[q].token)
    requires forall s :: OpenBy(m, s) <= OpenBy(m', s) && OpenBy(m', s) <= OpenBy(m, s) + {child}
    requires forall s :: child in OpenBy(m', s) ==> from in OpenBy(m, s)
    ensures LocksOk(slots, m')
  {
    forall s, p | p in OpenBy(m', s) ensures HolderOk(slots, m', p, s) {
      if p == child { assert HolderOk(slots, m, from, s); } else { assert HolderOk(slots, m, p, s); }
    }
    forall s, p, q | Holds(m', p, s) && Holds(m', q, s) ensures Together(m', p, q) {
      var p0, q0 := if p == child then from else p, if q == child then from else q;
      assert HolderOk(slots, m, p0, s) && HolderOk(slots, m, q0, s);
      assert Holds(m, p0, s) && Holds(m, q0, s) && Together(m, p0, q0);
    }
    forall p | Live(m', p) && Attached(m'.sups[p]) ensures p in OpenBy(m', m'.sups[p].slot) {
      assert Live(m, p) && p in OpenBy(m, m.sups[p].slot);
    }
  }

  lemma {:induction false} Stranger(slots: nat, m: Machine, p: Pid)
    requires LocksOk(slots, m) && p !in m.procs
    ensures forall s :: p !in OpenBy(m, s)
  {
    forall s ensures p !in OpenBy(m, s) { assert p in OpenBy(m, s) ==> HolderOk(slots, m, p, s); }
  }

  /** No process of a run is a supervisor. */
  lemma {:induction false} RunsApart(slots: nat, m: Machine, p: Pid)
    requires Inv(slots, m) && p in m.procs
    ensures p in m.sups ==> m.procs[p].run == None
  {
    assert p in m.sups ==> SupervisorOk(slots, m, p);
  }

  lemma {:induction false} SpawnLocks(slots: nat, m: Machine, pid: Pid, child: Pid)
    requires Inv(slots, m) && LocksOk(slots, m) && Enabled(slots, m, Spawn(pid, child))
    ensures LocksOk(slots, Next(slots, m, Spawn(pid, child)))
  {
    var m' := Next(slots, m, Spawn(pid, child));
    Stranger(slots, m, child);
    assert Live(m, pid) && Attached(m.sups[pid]);
    BornLocks(slots, m, pid, child, m');
  }

  lemma {:induction false} ForkLocks(slots: nat, m: Machine, parent: Pid, child: Pid, keepsOpen: bool)
    requires Inv(slots, m) && LocksOk(slots, m) && Enabled(slots, m, Fork(parent, child, keepsOpen))
    ensures LocksOk(slots, Next(slots, m, Fork(parent, child, keepsOpen)))
  {
    var m' := Next(slots, m, Fork(parent, child, keepsOpen));
    Stranger(slots, m, child);
    RunsApart(slots, m, parent);
    BornLocks(slots, m, parent, child, m');
  }

  lemma {:induction false} NextLocks(slots: nat, m: Machine, a: Action)
    requires Inv(slots, m) && LocksOk(slots, m) && Enabled(slots, m, a)
    ensures LocksOk(slots, Next(slots, m, a))
  {
    if a.TakeSlot? {
      TakeSlotLocks(slots, m, a.pid, a.slot);
    } else if a.WriteRecord? {
      WriteLocks(slots, m, a.pid, a.token);
    } else if a.Spawn? {
      SpawnLocks(slots, m, a.pid, a.child);
    } else if a.Fork? {
      ForkLocks(slots, m, a.parent, a.child, a.keepsOpen);
    } else {
      StepFollows(slots, m, a, Next(slots, m, a));
      FollowingKeeps(slots, m, Next(slots, m, a));
    }
  }

  lemma {:induction false} RunLocks(slots: nat, ms: seq<Machine>, actions: seq<Action>, i: nat)
    requires Run(slots, ms, actions) && i < |ms|
    ensures LocksOk(slots, ms[i])
  {
    if i > 0 {
      RunLocks(slots, ms, actions, i - 1);
      RunKeeps(slots, ms, actions, i - 1);
      NextLocks(slots, ms[i - 1], actions[i - 1]);
    }
  }

  // ----- what it promises ------------------------------------------------------------------------------

  /** A process of a run, tagged or not, that has a slot's file open. */
  predicate RunHolds(m: Machine, p: Pid, token: Token, slot: Slot) {
    Holds(m, p, slot) && p !in m.sups && m.procs[p].run == Some(token)
  }

  /** All processes that hold one slot's file belong to one run. */
  lemma {:induction false} HoldersShareRun(slots: nat, ms: seq<Machine>, actions: seq<Action>, i: nat, slot: Slot,
                                           p: Pid, a: Token, q: Pid, b: Token)
    requires Run(slots, ms, actions) && i < |ms| && RunHolds(ms[i], p, a, slot) && RunHolds(ms[i], q, b, slot)
    ensures a == b && slot < slots
  {
    RunLocks(slots, ms, actions, i);
    assert HolderOk(slots, ms[i], p, slot) && Together(ms[i], p, q);
  }

  /** Whom a holder of a slot's file has it from, one step before. */
  lemma {:induction false} HeldBefore(slots: nat, m: Machine, a: Action, p: Pid, slot: Slot) returns (q: Pid)
    requires Inv(slots, m) && LocksOk(slots, m) && Enabled(slots, m, a)
    requires Holds(Next(slots, m, a), p, slot) && HeldRun(Next(slots, m, a), p).Some?
    ensures (Holds(m, q, slot) && HeldRun(m, q) == HeldRun(Next(slots, m, a), p))
            || (a.WriteRecord? && Holds(m, a.pid, slot) && m.sups[a.pid] == Locked(slot) && HeldRun(Next(slots, m, a), p) == Some(a.token))
  {
    var m' := Next(slots, m, a);
    if a.Spawn? {
      q := if p == a.child then a.pid else p;
      Stranger(slots, m, a.child);
    } else if a.Fork? {
      q := if p == a.child then a.parent else p;
      Stranger(slots, m, a.child);
      RunsApart(slots, m, a.parent);
    } else if a.TakeSlot? {
      q := p;
    } else if a.WriteRecord? {
      q := p;
      assert HolderOk(slots, m, p, slot);
    } else {
      q := p;
      StepFollows(slots, m, a, m');
      assert HolderOk(slots, m, p, slot);
      HeldOn(m, m', p);
    }
  }

  /** The file a run's process holds is that of the slot the run was put into. */
  lemma {:induction false} HeldWherePut(slots: nat, ms: seq<Machine>, actions: seq<Action>, i: nat, p: Pid, slot: Slot) returns (x: nat)
    requires Run(slots, ms, actions) && i < |ms| && Holds(ms[i], p, slot) && HeldRun(ms[i], p).Some?
    ensures x < i && PutInto(ms, actions, x, slot, HeldRun(ms[i], p).value)
  {
    assert i > 0;
    RunKeeps(slots, ms, actions, i - 1);
    RunLocks(slots, ms, actions, i - 1);
    var q := HeldBefore(slots, ms[i - 1], actions[i - 1], p, slot);
    if Holds(ms[i - 1], q, slot) && HeldRun(ms[i - 1], q) == HeldRun(ms[i], p) {
      x := HeldWherePut(slots, ms, actions, i - 1, q, slot);
    } else {
      x := i - 1;
    }
  }

  /** On every run, blind scrubs included: of the runs ever put into a slot, at most one has
      live processes that still hold a slot's file. */
  lemma {:induction false} OneHoldingRunPerSlot(slots: nat, ms: seq<Machine>, actions: seq<Action>, slot: Slot, i: nat,
                                                x: nat, a: Token, p: Pid, s: Slot, y: nat, b: Token, q: Pid, t: Slot)
    requires Run(slots, ms, actions) && i < |ms|
    requires PutInto(ms, actions, x, slot, a) && PutInto(ms, actions, y, slot, b)
    requires RunHolds(ms[i], p, a, s) && RunHolds(ms[i], q, b, t)
    ensures s == slot && t == slot && a == b
  {
    var v := HeldWherePut(slots, ms, actions, i, p, s);
    var w := HeldWherePut(slots, ms, actions, i, q, t);
    PutOnce(slots, ms, actions, a, x, slot, v, s);
    PutOnce(slots, ms, actions, b, y, slot, w, t);
    HoldersShareRun(slots, ms, actions, i, slot, p, a, q, b);
  }

  ghost predicate HoldsSlot(m: Machine, token: Token, slot: Slot) { exists p :: RunHolds(m, p, token, slot) }

  ghost predicate Held(m: Machine, slot: Slot) { exists token :: HoldsSlot(m, token, slot) }

  ghost function HolderOf(m: Machine, slot: Slot): (token: Token)
    requires Held(m, slot)
    ensures HoldsSlot(m, token, slot)
  {
    var token :| HoldsSlot(m, token, slot);
    token
  }

  ghost predicate HoldsSome(m: Machine, token: Token) { exists slot :: HoldsSlot(m, token, slot) }

  ghost function HoldingRuns(m: Machine): set<Token> {
    set p | p in m.procs && m.procs[p].run.Some? && HoldsSome(m, m.procs[p].run.value) :: m.procs[p].run.value
  }

  /** The runs that hold the files of the first `n` slots. */
  ghost function HoldersBelow(slots: nat, m: Machine, n: nat): (tokens: set<Token>)
    requires LocksOk(slots, m)
    ensures |tokens| <= n
    ensures forall token, slot: Slot :: slot < n && HoldsSlot(m, token, slot) ==> token in tokens
  {
    if n == 0 then {}
    else if Held(m, n - 1) then
      SameRunOnly(slots, m, n - 1, HolderOf(m, n - 1));
      HoldersBelow(slots, m, n - 1) + {HolderOf(m, n - 1)}
    else HoldersBelow(slots, m, n - 1)
  }

  lemma {:induction false} SameRunOnly(slots: nat, m: Machine, slot: Slot, token: Token)
    requires LocksOk(slots, m) && HoldsSlot(m, token, slot)
    ensures forall other :: HoldsSlot(m, other, slot) ==> other == token
  {
    var p :| RunHolds(m, p, token, slot);
    forall other | HoldsSlot(m, other, slot) ensures other == token {
      var q :| RunHolds(m, q, other, slot);
      assert Holds(m, p, slot) && Holds(m, q, slot) && Together(m, p, q);
    }
  }

  /** On every run, blind scrubs included: at most `max_concurrent` runs have live processes that
      still hold their slot's file. */
  lemma {:induction false} BoundedHoldingRuns(slots: nat, ms: seq<Machine>, actions: seq<Action>, i: nat)
    requires Run(slots, ms, actions) && i < |ms|
    ensures |HoldingRuns(ms[i])| <= slots
  {
    var m := ms[i];
    RunLocks(slots, ms, actions, i);
    forall token | token in HoldingRuns(m) ensures token in HoldersBelow(slots, m, slots) {
      var slot :| HoldsSlot(m, token, slot);
      var p :| RunHolds(m, p, token, slot);
      assert HolderOk(slots, m, p, slot);
    }
    SubsetCardinality(HoldingRuns(m), HoldersBelow(slots, m, slots));
  }
}
