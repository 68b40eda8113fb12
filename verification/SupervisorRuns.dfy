/** The slot records over whole runs: as long as no scrub is blind, that is, none finds nothing
    tagged while an untagged child of the run is still on its way to its command, every live run
    keeps its record; and one blind scrub is enough to lose it. */
module SupervisorRuns {
  import opened Basics
  import opened Supervisor

  /** A scrub that finds nothing tagged finds nothing left of the run. */
  ghost predicate Sighted(m: Machine, a: Action) {
    a.Scrub? && a.pid in m.sups && m.sups[a.pid].Scrubbing? && m.sups[a.pid].slot in m.disk && m.disk[m.sups[a.pid].slot].Record?
    ==> NoneLeft(m, m.disk[m.sups[a.pid].slot].token)
  }

  ghost predicate SightedRun(slots: nat, ms: seq<Machine>, actions: seq<Action>) {
    Run(slots, ms, actions) && forall i :: 0 <= i < |actions| ==> Sighted(ms[i], actions[i])
  }

  // ----- what sighted steps keep ------------------------------------------------------------------

  /** The run whose silence a supervisor has established and relies on. */
  function Silent(m: Machine, pc: Pc): Option<Token> {
    if pc.Cleaned? || pc.Unlinking? then Some(pc.token)
    else if pc.Scrubbed? && pc.slot in m.disk && m.disk[pc.slot].Record? then Some(m.disk[pc.slot].token)
    else None
  }

  predicate Awaits(pc: Pc, p: Pid) { pc.Spawning? && pc.child == p }

  /** Under a live supervisor the only untagged process of its run is the child it waits for. */
  ghost predicate OnlyChild(m: Machine, pc: Pc)
    requires Owns(pc)
  {
    forall p :: Untagged(m, p, pc.token) ==> Awaits(pc, p)
  }

  ghost predicate SilentOk(m: Machine, q: Pid)
    requires q in m.sups
  {
    Alive(m, q) ==>
      && (Silent(m, m.sups[q]).Some? ==> NoneLeft(m, Silent(m, m.sups[q]).value))
      && (Owns(m.sups[q]) ==> OnlyChild(m, m.sups[q]))
  }

  /** A run with a live process still has its slot record. */
  ghost predicate ProcessOk(m: Machine, p: Pid) {
    Alive(m, p) && m.procs[p].run.Some? ==> exists slot :: Recorded(m, slot, m.procs[p].run.value)
  }

  ghost predicate Kept(m: Machine) {
    (forall q :: q in m.sups ==> SilentOk(m, q)) && (forall p :: ProcessOk(m, p))
  }

  /** No process of a run appears, and none becomes untagged. */
  ghost predicate NothingNew(m: Machine, m': Machine) {
    forall p :: Alive(m', p) && m'.procs[p].run.Some? ==>
      Alive(m, p) && m'.procs[p].run == m.procs[p].run && (m.procs[p].execed ==> m'.procs[p].execed)
  }

  lemma {:induction false} StillSilent(m: Machine, m': Machine, q: Pid)
    requires NothingNew(m, m') && q in m.sups && q in m'.sups && m'.sups[q] == m.sups[q] && SilentOk(m, q)
    requires Alive(m', q) ==> Alive(m, q)
    requires Silent(m', m'.sups[q]).Some? ==> Silent(m', m'.sups[q]) == Silent(m, m.sups[q])
    ensures SilentOk(m', q)
  {
    if Alive(m', q) {
      forall p, token ensures Belongs(m', p, token) ==> Belongs(m, p, token) {}
      if Silent(m', m'.sups[q]).Some? {
        forall p ensures !Belongs(m', p, Silent(m, m.sups[q]).value) { assert !Belongs(m, p, Silent(m, m.sups[q]).value); }
      }
      if Owns(m.sups[q]) {
        forall p | Untagged(m', p, m.sups[q].token) ensures Awaits(m.sups[q], p) {
          assert Untagged(m, p, m.sups[q].token);
        }
      }
    }
  }

  lemma {:induction false} StillRecorded(m: Machine, m': Machine, p: Pid)
    requires NothingNew(m, m') && ProcessOk(m, p)
    requires forall slot, token :: Belongs(m, p, token) && Recorded(m, slot, token) ==> Recorded(m', slot, token)
    ensures ProcessOk(m', p)
  {
    if Alive(m', p) && m'.procs[p].run.Some? {
      var token := m.procs[p].run.value;
      var slot :| Recorded(m, slot, token);
      assert Belongs(m, p, token) && Recorded(m', slot, token);
    }
  }

  /** A step in which no process of a run appears and no record that is needed goes. */
  lemma {:induction false} KeptStep(m: Machine, m': Machine, pid: Pid)
    requires Kept(m) && NothingNew(m, m')
    requires forall q :: q in m'.sups && q != pid ==>
               && q in m.sups && m'.sups[q] == m.sups[q] && (Alive(m', q) ==> Alive(m, q))
               && (Alive(m', q) && Silent(m', m'.sups[q]).Some? ==> Silent(m', m'.sups[q]) == Silent(m, m.sups[q]))
    requires pid in m'.sups ==> SilentOk(m', pid)
    requires forall p, slot, token :: Belongs(m, p, token) && Recorded(m, slot, token) ==> Recorded(m', slot, token)
    ensures Kept(m')
  {
    forall q | q in m'.sups ensures SilentOk(m', q) {
      if q != pid { 
        assert SilentOk(m, q);
        if Alive(m', q) { StillSilent(m, m', q); }
      }
    }
    forall p ensures ProcessOk(m', p) { StillRecorded(m, m', p); }
  }

  /** A step of one supervisor that leaves disk and processes alone. */
  lemma {:induction false} OwnStepKept(m: Machine, pid: Pid, m': Machine)
    requires Kept(m) && pid in m.sups
    requires pid in m'.sups && m' == m.(sups := m.sups[pid := m'.sups[pid]], lock := m'.lock, open := m'.open)
    requires SilentOk(m', pid)
    ensures Kept(m')
  {
    KeptStep(m, m', pid);
  }

  lemma {:induction false} SameSilence(m: Machine, m': Machine, token: Token)
    requires m'.procs == m.procs && NoneLeft(m, token)
    ensures NoneLeft(m', token)
  {
    forall p ensures !Belongs(m', p, token) { assert !Belongs(m, p, token); }
  }

  lemma {:induction false} SameChild(m: Machine, m': Machine, pc: Pc, pc': Pc)
    requires m'.procs == m.procs && Owns(pc) && Owns(pc') && pc'.token == pc.token && OnlyChild(m, pc)
    requires pc.Spawning? ==> !Untagged(m, pc.child, pc.token)
    ensures OnlyChild(m', pc')
  {
    forall p ensures !Untagged(m', p, pc'.token) { assert Untagged(m, p, pc.token) ==> Awaits(pc, p); }
  }

  /** A live supervisor that finds nothing tagged of its own run has nothing left of it. */
  lemma {:induction false} OwnCleanupSighted(m: Machine, pc: Pc)
    requires Owns(pc) && !pc.Spawning? && OnlyChild(m, pc) && NoneTagged(m, pc.token)
    ensures NoneLeft(m, pc.token)
  {
    forall p ensures !Belongs(m, p, pc.token) {
      assert !Tagged(m, p, pc.token);
      assert Untagged(m, p, pc.token) ==> Awaits(pc, p);
    }
  }

  /** Taking the slot, waiting or examining: nothing is relied on that was not before. */
  lemma {:induction false} PlainPlaceKept(m: Machine, pid: Pid, m': Machine)
    requires Kept(m) && pid in m.sups
    requires pid in m'.sups && m' == m.(sups := m.sups[pid := m'.sups[pid]], lock := m'.lock, open := m'.open)
    requires !Owns(m'.sups[pid]) && !m'.sups[pid].Scrubbed?
    ensures Kept(m')
  {
    OwnStepKept(m, pid, m');
  }

  lemma {:induction false} ScrubKept(slots: nat, m: Machine, pid: Pid)
    requires Kept(m) && Enabled(slots, m, Scrub(pid)) && Sighted(m, Scrub(pid))
    ensures Kept(Next(slots, m, Scrub(pid)))
  {
    SameSilence(m, Next(slots, m, Scrub(pid)), m.disk[m.sups[pid].slot].token);
    OwnStepKept(m, pid, Next(slots, m, Scrub(pid)));
  }

  /** A step of an owner that starts no process and does not claim that its run is silent. */
  lemma {:induction false} OwnerStepKept(m: Machine, pid: Pid, m': Machine)
    requires Kept(m) && Live(m, pid) && Owns(m.sups[pid])
    requires pid in m'.sups && m' == m.(sups := m.sups[pid := m'.sups[pid]], lock := m'.lock, open := m'.open)
    requires Owns(m'.sups[pid]) && m'.sups[pid].token == m.sups[pid].token
    requires m'.sups[pid].Cleaned? || m'.sups[pid].Unlinking? ==> NoneLeft(m, m.sups[pid].token)
    requires m.sups[pid].Spawning? ==> !Untagged(m, m.sups[pid].child, m.sups[pid].token)
    ensures Kept(m')
  {
    assert SilentOk(m, pid);
    if m'.sups[pid].Cleaned? || m'.sups[pid].Unlinking? { SameSilence(m, m', m.sups[pid].token); }
    SameChild(m, m', m.sups[pid], m'.sups[pid]);
    OwnStepKept(m, pid, m');
  }

  lemma {:induction false} CleanOwnKept(m: Machine, slots: nat, pid: Pid)
    requires Kept(m) && Enabled(slots, m, CleanOwn(pid))
    ensures Kept(Next(slots, m, CleanOwn(pid)))
  {
    assert SilentOk(m, pid);
    OwnCleanupSighted(m, m.sups[pid]);
    OwnerStepKept(m, pid, Next(slots, m, CleanOwn(pid)));
  }

  lemma {:induction false} TakeToUnlinkKept(m: Machine, slots: nat, pid: Pid)
    requires Kept(m) && Enabled(slots, m, TakeToUnlink(pid))
    ensures Kept(Next(slots, m, TakeToUnlink(pid)))
  {
    assert SilentOk(m, pid);
    OwnerStepKept(m, pid, Next(slots, m, TakeToUnlink(pid)));
  }

  /** Removing a record of an earlier boot, or of a run nothing is left of. */
  lemma {:induction false} RemoveKept(slots: nat, m: Machine, pid: Pid, slot: Slot, m': Machine)
    requires Inv(slots, m) && Kept(m) && Live(m, pid) && InAdmission(m.sups[pid])
    requires pid in m'.sups && m' == m.(sups := m.sups[pid := m'.sups[pid]], lock := m'.lock, disk := m.disk - {slot})
    requires slot in m.disk && m.disk[slot].Record?
    requires m.disk[slot].boot != m.boot || NoneLeft(m, m.disk[slot].token)
    requires Silent(m', m'.sups[pid]).None? && !Owns(m'.sups[pid])
    ensures Kept(m')
  {
    forall p, s, token | Belongs(m, p, token) && Recorded(m, s, token) ensures Recorded(m', s, token) {
      assert NoneLeft(m, m.disk[slot].token) ==> !Belongs(m, p, m.disk[slot].token);
    }
    KeptStep(m, m', pid);
  }

  lemma {:induction false} DropStaleKept(slots: nat, m: Machine, pid: Pid, slot: Slot)
    requires Inv(slots, m) && Kept(m) && Enabled(slots, m, DropStale(pid, slot))
    ensures Kept(Next(slots, m, DropStale(pid, slot)))
  {
    assert SilentOk(m, pid) && SupervisorOk(slots, m, pid);
    RemoveKept(slots, m, pid, slot, Next(slots, m, DropStale(pid, slot)));
  }

  lemma {:induction false} DropScrubbedKept(slots: nat, m: Machine, pid: Pid)
    requires Inv(slots, m) && Kept(m) && Enabled(slots, m, DropScrubbed(pid))
    ensures Kept(Next(slots, m, DropScrubbed(pid)))
  {
    assert SilentOk(m, pid) && SupervisorOk(slots, m, pid);
    RemoveKept(slots, m, pid, m.sups[pid].slot, Next(slots, m, DropScrubbed(pid)));
  }

  lemma {:induction false} UnlinkKept(slots: nat, m: Machine, pid: Pid)
    requires Inv(slots, m) && Kept(m) && Enabled(slots, m, Unlink(pid))
    ensures Kept(Next(slots, m, Unlink(pid)))
  {
    assert SilentOk(m, pid) && SupervisorOk(slots, m, pid);
    RemoveKept(slots, m, pid, m.sups[pid].slot, Next(slots, m, Unlink(pid)));
  }

  lemma {:induction false} WriteKept(slots: nat, m: Machine, pid: Pid, token: Token)
    requires Inv(slots, m) && Kept(m) && Enabled(slots, m, WriteRecord(pid, token))
    ensures Kept(Next(slots, m, WriteRecord(pid, token)))
  {
    var m' := Next(slots, m, WriteRecord(pid, token));
    assert SupervisorOk(slots, m, pid);
    forall p ensures !Belongs(m, p, token) && !Belongs(m', p, token) { IssuedOnly(slots, m, p); }
    forall q | Live(m, q) && InAdmission(m.sups[q]) ensures q == pid { AdmissionAlone(slots, m, pid, q); }
    KeptStep(m, m', pid);
  }

  /** A process belongs to a run whose token has been issued. */
  lemma {:induction false} IssuedOnly(slots: nat, m: Machine, p: Pid)
    requires DiskOk(slots, m) && ProcessOk(m, p)
    ensures Alive(m, p) && m.procs[p].run.Some? ==> m.procs[p].run.value in m.issued
  {
  }

  lemma {:induction false} TearKept(slots: nat, m: Machine, pid: Pid)
    requires Inv(slots, m) && Kept(m) && Enabled(slots, m, TearRecord(pid))
    ensures Kept(Next(slots, m, TearRecord(pid)))
  {
    assert SupervisorOk(slots, m, pid);
    forall q | Live(m, q) && InAdmission(m.sups[q]) ensures q == pid { AdmissionAlone(slots, m, pid, q); }
    KeptStep(m, Next(slots, m, TearRecord(pid)), pid);
  }

  /** A new process of run `p.run`, and at most supervisor `pid` steps. */
  ghost predicate Adds(m: Machine, child: Pid, p: Process, pid: Pid, m': Machine) {
    && child !in m.procs && child !in m.sups && p.run.Some?
    && m'.procs == m.procs[child := p] && m'.disk == m.disk && m'.boot == m.boot
    && m'.sups.Keys == m.sups.Keys && forall q :: q in m.sups && q != pid ==> m'.sups[q] == m.sups[q]
  }

  /** It disturbs no supervisor but those that own its run or have found it silent. */
  lemma {:induction false} BornElsewhere(m: Machine, child: Pid, p: Process, pid: Pid, m': Machine, q: Pid)
    requires Adds(m, child, p, pid, m') && q in m.sups && q in m.procs && SilentOk(m, q) && q != pid
    requires Alive(m, q) ==> Silent(m, m.sups[q]) != p.run
    requires Alive(m, q) && !p.execed && Owns(m.sups[q]) ==> m.sups[q].token != p.run.value
    ensures SilentOk(m', q)
  {
    var pc := m.sups[q];
    if Alive(m, q) && Silent(m, pc).Some? {
      forall other ensures !Belongs(m', other, Silent(m, pc).value) { assert !Belongs(m, other, Silent(m, pc).value); }
    }
    if Alive(m, q) && Owns(pc) {
      forall other | Untagged(m', other, pc.token) ensures Awaits(pc, other) { assert Untagged(m, other, pc.token); }
    }
  }

  lemma {:induction false} BornRecorded(m: Machine, child: Pid, p: Process, pid: Pid, m': Machine, q: Pid)
    requires Adds(m, child, p, pid, m') && ProcessOk(m, q) && exists slot :: Recorded(m, slot, p.run.value)
    ensures ProcessOk(m', q)
  {
    assert forall slot, token :: Recorded(m, slot, token) ==> Recorded(m', slot, token);
  }

  /** Two live supervisors never own the same run, and nobody finds an owned run silent but its owner. */
  lemma {:induction false} OwnersApart(slots: nat, m: Machine, pid: Pid, q: Pid)
    requires Inv(slots, m) && Live(m, pid) && Live(m, q) && Owns(m.sups[pid])
    ensures Owns(m.sups[q]) && m.sups[q].token == m.sups[pid].token ==> q == pid
    ensures Silent(m, m.sups[q]) == Some(m.sups[pid].token) ==> q == pid
  {
    assert SupervisorOk(slots, m, pid) && SupervisorOk(slots, m, q);
    var pc, qc := m.sups[pid], m.sups[q];
    assert (Owns(qc) && qc.token == pc.token) || Silent(m, qc) == Some(pc.token) ==> SameRun(m.disk[pc.slot], m.disk[qc.slot]);
  }

  lemma {:induction false} SpawnKept(slots: nat, m: Machine, pid: Pid, child: Pid)
    requires Inv(slots, m) && Kept(m) && Enabled(slots, m, Spawn(pid, child))
    ensures Kept(Next(slots, m, Spawn(pid, child)))
  {
    var pc, m' := m.sups[pid], Next(slots, m, Spawn(pid, child));
    var p := Process(Some(pc.token), false, true);
    assert SupervisorOk(slots, m, pid) && SilentOk(m, pid) && Recorded(m, pc.slot, pc.token);
    forall q | q in m'.sups ensures SilentOk(m', q) {
      assert SilentOk(m, q) && SupervisorOk(slots, m, q);
      if q == pid {
        AwaitsItsChild(m, pc, child, m');
      } else {
        if Alive(m, q) { OwnersApart(slots, m, pid, q); }
        BornElsewhere(m, child, p, pid, m', q);
      }
    }
    forall q ensures ProcessOk(m', q) { BornRecorded(m, child, p, pid, m', q); }
  }

  lemma {:induction false} AwaitsItsChild(m: Machine, pc: Pc, child: Pid, m': Machine)
    requires Owns(pc) && !pc.Spawning? && OnlyChild(m, pc)
    requires m'.procs == m.procs[child := Process(Some(pc.token), false, true)]
    ensures OnlyChild(m', Spawning(pc.slot, pc.token, child))
  {
    forall p | Untagged(m', p, pc.token) ensures p == child {
      assert Untagged(m, p, pc.token) ==> Awaits(pc, p);
    }
  }

  lemma {:induction false} ForkKept(slots: nat, m: Machine, parent: Pid, child: Pid, keepsOpen: bool)
    requires Inv(slots, m) && Kept(m) && Enabled(slots, m, Fork(parent, child, keepsOpen))
    ensures Kept(Next(slots, m, Fork(parent, child, keepsOpen)))
  {
    var m' := Next(slots, m, Fork(parent, child, keepsOpen));
    assert ProcessOk(m, parent);
    forall q | q in m'.sups ensures SilentOk(m', q) {
      assert SilentOk(m, q) && SupervisorOk(slots, m, q) && Belongs(m, parent, m.procs[parent].run.value);
      BornElsewhere(m, child, m.procs[parent], child, m', q);
    }
    forall q ensures ProcessOk(m', q) { BornRecorded(m, child, m.procs[parent], child, m', q); }
  }

  lemma {:induction false} PlainStepKept(m: Machine, m': Machine, p: Pid)
    requires Kept(m) && NothingNew(m, m') && m'.disk == m.disk && m'.boot == m.boot
    requires forall q :: q in m'.sups && q != p ==> q in m.sups && m'.sups[q] == m.sups[q] && (Alive(m', q) ==> Alive(m, q))
    requires p in m'.sups ==> SilentOk(m', p)
    ensures Kept(m')
  {
    KeptStep(m, m', p);
  }

  lemma {:induction false} ExecKept(slots: nat, m: Machine, child: Pid)
    requires Inv(slots, m) && Kept(m) && Enabled(slots, m, Exec(child))
    ensures Kept(Next(slots, m, Exec(child)))
  {
    assert child in m.sups ==> SupervisorOk(slots, m, child);
    PlainStepKept(m, Next(slots, m, Exec(child)), child);
  }

  lemma {:induction false} CloseSlotKept(slots: nat, m: Machine, pid: Pid, slot: Slot)
    requires Kept(m) && Enabled(slots, m, CloseSlot(pid, slot))
    ensures Kept(Next(slots, m, CloseSlot(pid, slot)))
  {
    PlainStepKept(m, Next(slots, m, CloseSlot(pid, slot)), pid);
  }

  lemma {:induction false} DieKept(m: Machine, pid: Pid)
    requires Kept(m) && Alive(m, pid)
    ensures Kept(Killed(m, pid))
  {
    PlainStepKept(m, Killed(m, pid), pid);
  }

  lemma {:induction false} OnlyPlaceChanges(slots: nat, m: Machine, a: Action)
    requires Enabled(slots, m, a) && AdmissionStep(a) && !a.Scrub?
    ensures var m' := Next(slots, m, a);
            && a.pid in m.sups && a.pid in m'.sups
            && m' == m.(sups := m.sups[a.pid := m'.sups[a.pid]], lock := m'.lock, open := m'.open)
            && !Owns(m'.sups[a.pid]) && !m'.sups[a.pid].Scrubbed?
  {
  }

  lemma {:induction false} AdmissionStepKept(slots: nat, m: Machine, a: Action, m': Machine)
    requires Kept(m) && Enabled(slots, m, a) && AdmissionStep(a) && Sighted(m, a) && m' == Next(slots, m, a)
    ensures Kept(m')
  {
    if a.Scrub? {
      ScrubKept(slots, m, a.pid);
    } else {
      OnlyPlaceChanges(slots, m, a);
      PlainPlaceKept(m, a.pid, m');
    }
  }

  lemma {:induction false} HolderStepKept(slots: nat, m: Machine, a: Action)
    requires Inv(slots, m) && Kept(m) && Enabled(slots, m, a) && HolderStep(a)
    ensures Kept(Next(slots, m, a))
  {
    if a.CleanOwn? {
      CleanOwnKept(m, slots, a.pid);
    } else if a.TakeToUnlink? {
      TakeToUnlinkKept(m, slots, a.pid);
    } else if a.GiveUp? {
      PlainPlaceKept(m, a.pid, Next(slots, m, a));
    } else {
      OwnerStepKept(m, a.pid, Next(slots, m, a));
    }
  }

  lemma {:induction false} ProcessStepKept(slots: nat, m: Machine, a: Action)
    requires Inv(slots, m) && Kept(m) && Enabled(slots, m, a)
    requires a.Start? || a.Spawn? || a.Fork? || a.Exec? || a.Die? || a.CloseSlot? || a.Reboot?
    ensures Kept(Next(slots, m, a))
  {
    match a {
      case Start(pid) => PlainStepKept(m, Next(slots, m, a), pid);
      case Spawn(pid, child) => SpawnKept(slots, m, pid, child);
      case Fork(parent, child, keepsOpen) => ForkKept(slots, m, parent, child, keepsOpen);
      case Exec(child) => ExecKept(slots, m, child);
      case Die(pid) => DieKept(m, pid);
      case CloseSlot(pid, slot) => CloseSlotKept(slots, m, pid, slot);
      case Reboot =>
    }
  }

  lemma {:induction false} RecordStepKept(slots: nat, m: Machine, a: Action)
    requires Inv(slots, m) && Kept(m) && Enabled(slots, m, a)
    requires a.DropStale? || a.DropScrubbed? || a.Unlink? || a.WriteRecord? || a.TearRecord?
    ensures Kept(Next(slots, m, a))
  {
    match a {
      case DropStale(pid, slot) => DropStaleKept(slots, m, pid, slot);
      case DropScrubbed(pid) => DropScrubbedKept(slots, m, pid);
      case Unlink(pid) => UnlinkKept(slots, m, pid);
      case WriteRecord(pid, token) => WriteKept(slots, m, pid, token);
      case TearRecord(pid) => TearKept(slots, m, pid);
    }
  }

  lemma {:induction false} NextKept(slots: nat, m: Machine, a: Action)
    requires Inv(slots, m) && Kept(m) && Enabled(slots, m, a) && Sighted(m, a)
    ensures Kept(Next(slots, m, a))
  {
    if AdmissionStep(a) {
      AdmissionStepKept(slots, m, a, Next(slots, m, a));
    } else if HolderStep(a) {
      HolderStepKept(slots, m, a);
    } else if a.DropStale? || a.DropScrubbed? || a.Unlink? || a.WriteRecord? || a.TearRecord? {
      RecordStepKept(slots, m, a);
    } else {
      ProcessStepKept(slots, m, a);
    }
  }

  lemma {:induction false} SightedRunKeeps(slots: nat, ms: seq<Machine>, actions: seq<Action>, i: nat)
    requires SightedRun(slots, ms, actions) && i < |ms|
    ensures Inv(slots, ms[i]) && Kept(ms[i])
  {
    RunKeeps(slots, ms, actions, i);
    if i > 0 {
      SightedRunKeeps(slots, ms, actions, i - 1);
      NextKept(slots, ms[i - 1], actions[i - 1]);
    }
  }

  // ----- which slot a run was put into ------------------------------------------------------------

  /** Step `x` puts the run into the slot: its record is written there. */
  predicate PutInto(ms: seq<Machine>, actions: seq<Action>, x: nat, slot: Slot, token: Token)
    requires |actions| < |ms|
  {
    x < |actions| && actions[x].WriteRecord? && actions[x].token == token
    && actions[x].pid in ms[x].sups && ms[x].sups[actions[x].pid] == Locked(slot)
  }

  lemma {:induction false} DiskStep(slots: nat, m: Machine, a: Action, slot: Slot)
    requires Enabled(slots, m, a) && slot in Next(slots, m, a).disk && Next(slots, m, a).disk[slot].Record?
    ensures (slot in m.disk && Next(slots, m, a).disk[slot] == m.disk[slot])
            || (a.WriteRecord? && m.sups[a.pid] == Locked(slot) && Next(slots, m, a).disk[slot].token == a.token)
  {
  }

  /** Every record on disk was written by a step of the run. */
  lemma {:induction false} RecordCameFrom(slots: nat, ms: seq<Machine>, actions: seq<Action>, i: nat, slot: Slot) returns (x: nat)
    requires Run(slots, ms, actions) && i < |ms| && slot in ms[i].disk && ms[i].disk[slot].Record?
    ensures x < i && PutInto(ms, actions, x, slot, ms[i].disk[slot].token)
  {
    assert i > 0;
    DiskStep(slots, ms[i - 1], actions[i - 1], slot);
    if slot in ms[i - 1].disk && ms[i].disk[slot] == ms[i - 1].disk[slot] {
      x := RecordCameFrom(slots, ms, actions, i - 1, slot);
    } else {
      x := i - 1;
    }
  }

  lemma {:induction false} IssuedStays(slots: nat, ms: seq<Machine>, actions: seq<Action>, i: nat, j: nat)
    requires Run(slots, ms, actions) && i <= j < |ms|
    ensures ms[i].issued <= ms[j].issued
    decreases j
  {
    if i < j {
      IssuedStays(slots, ms, actions, i, j - 1);
      assert ms[j] == Next(slots, ms[j - 1], actions[j - 1]);
    }
  }

  /** A token is issued once, so a run is put into one slot. */
  lemma {:induction false} PutOnce(slots: nat, ms: seq<Machine>, actions: seq<Action>, token: Token,
                                   x: nat, a: Slot, y: nat, b: Slot)
    requires Run(slots, ms, actions) && PutInto(ms, actions, x, a, token) && PutInto(ms, actions, y, b, token)
    ensures x == y && a == b
  {
    assert Enabled(slots, ms[x], actions[x]) && Enabled(slots, ms[y], actions[y]);
    assert token in ms[x + 1].issued && token in ms[y + 1].issued;
    if x < y {
      IssuedStays(slots, ms, actions, x + 1, y);
    } else if y < x {
      IssuedStays(slots, ms, actions, y + 1, x);
    }
  }

  // ----- what it promises -----------------------------------------------------------------------------

  /** Whatever crashes or reboots came before, a run with a live process has its slot record: the
      record of this boot, in the one slot it was put into, and in no other. */
  lemma {:induction false} LiveRunIsRecorded(slots: nat, ms: seq<Machine>, actions: seq<Action>, i: nat, p: Pid, token: Token)
    returns (slot: Slot, x: nat)
    requires SightedRun(slots, ms, actions) && i < |ms| && Belongs(ms[i], p, token)
    ensures slot < slots && Recorded(ms[i], slot, token)
    ensures x < i && PutInto(ms, actions, x, slot, token)
    ensures forall other :: Recorded(ms[i], other, token) ==> other == slot
  {
    SightedRunKeeps(slots, ms, actions, i);
    assert ProcessOk(ms[i], p);
    slot :| Recorded(ms[i], slot, token);
    x := RecordCameFrom(slots, ms, actions, i, slot);
    forall other | Recorded(ms[i], other, token) ensures other == slot {
      assert SameRun(ms[i].disk[other], ms[i].disk[slot]);
    }
  }

  /** Of all the runs ever put into a slot at most one has live processes. */
  lemma {:induction false} OneRunPerSlot(slots: nat, ms: seq<Machine>, actions: seq<Action>, slot: Slot, i: nat,
                                         x: nat, a: Token, p: Pid, y: nat, b: Token, q: Pid)
    requires SightedRun(slots, ms, actions) && i < |ms|
    requires PutInto(ms, actions, x, slot, a) && PutInto(ms, actions, y, slot, b)
    requires Belongs(ms[i], p, a) && Belongs(ms[i], q, b)
    ensures a == b
  {
    var s, v := LiveRunIsRecorded(slots, ms, actions, i, p, a);
    var t, w := LiveRunIsRecorded(slots, ms, actions, i, q, b);
    PutOnce(slots, ms, actions, a, x, slot, v, s);
    PutOnce(slots, ms, actions, b, y, slot, w, t);
  }

  ghost function LiveRuns(m: Machine): set<Token> {
    set p | p in m.procs && m.procs[p].alive && m.procs[p].run.Some? :: m.procs[p].run.value
  }

  ghost function TokensBelow(m: Machine, n: nat): (tokens: set<Token>)
    ensures |tokens| <= n
    ensures forall slot :: 0 <= slot < n && slot in m.disk && m.disk[slot].Record? ==> m.disk[slot].token in tokens
  {
    if n == 0 then {}
    else if n - 1 in m.disk && m.disk[n - 1].Record? then TokensBelow(m, n - 1) + {m.disk[n - 1].token}
    else TokensBelow(m, n - 1)
  }

  /** At most `max_concurrent` runs have live processes, at every moment of a sighted run. */
  lemma {:induction false} BoundedConcurrency(slots: nat, ms: seq<Machine>, actions: seq<Action>, i: nat)
    requires SightedRun(slots, ms, actions) && i < |ms|
    ensures |LiveRuns(ms[i])| <= slots
  {
    var m := ms[i];
    forall token | token in LiveRuns(m) ensures token in TokensBelow(m, slots) {
      var p :| p in m.procs && m.procs[p].alive && m.procs[p].run == Some(token);
      var slot, x := LiveRunIsRecorded(slots, ms, actions, i, p, token);
    }
    SubsetCardinality(LiveRuns(m), TokensBelow(m, slots));
  }

  // ----- the condition is exact -------------------------------------------------------------------------

  ghost predicate AllRecorded(m: Machine) { forall p :: ProcessOk(m, p) }

  ghost function ScrubbedAway(slots: nat, m: Machine, pid: Pid): Machine
    requires Enabled(slots, m, Scrub(pid))
  {
    Next(slots, Next(slots, m, Scrub(pid)), DropScrubbed(pid))
  }

  /** A scrub and the removal it leads to leave every live run recorded exactly when the scrub
      was sighted. */
  lemma {:induction false} ScrubSafeExactly(slots: nat, m: Machine, pid: Pid)
    requires Inv(slots, m) && Kept(m) && Enabled(slots, m, Scrub(pid))
    ensures AllRecorded(ScrubbedAway(slots, m, pid)) <==> Sighted(m, Scrub(pid))
  {
    if Sighted(m, Scrub(pid)) {
      NextKeeps(slots, m, Scrub(pid));
      NextKept(slots, m, Scrub(pid));
      NextKept(slots, Next(slots, m, Scrub(pid)), DropScrubbed(pid));
    } else {
      var child := BlindScrubLosesRecord(slots, m, pid);
      assert !ProcessOk(ScrubbedAway(slots, m, pid), child);
    }
  }

  /** After a blind scrub the child executes its command as a tagged process without a record. */
  lemma {:induction false} BlindScrubLosesRecord(slots: nat, m: Machine, pid: Pid) returns (child: Pid)
    requires Inv(slots, m) && Enabled(slots, m, Scrub(pid)) && !Sighted(m, Scrub(pid))
    ensures var m', token := ScrubbedAway(slots, m, pid), m.disk[m.sups[pid].slot].token;
            && Belongs(m', child, token) && (forall slot :: !Recorded(m', slot, token))
            && Enabled(slots, m', Exec(child)) && Tagged(Next(slots, m', Exec(child)), child, token)
            && forall slot :: !Recorded(Next(slots, m', Exec(child)), slot, token)
  {
    var slot := m.sups[pid].slot;
    var token := m.disk[slot].token;
    child :| Belongs(m, child, token);
    assert !Tagged(m, child, token);
    forall other ensures !Recorded(ScrubbedAway(slots, m, pid), other, token) {
      assert other in m.disk && m.disk[other].Record? && m.disk[other].token == token ==> SameRun(m.disk[other], m.disk[slot]);
    }
  }

  // ----- both cases occur --------------------------------------------------------------------------------

  /** Sighted runs that scrub nothing and end in the state given. */
  ghost predicate Reaches(slots: nat, ms: seq<Machine>, actions: seq<Action>, m: Machine) {
    Run(slots, ms, actions) && ms[|actions|] == m && forall a :: a in actions ==> !a.Scrub?
  }

  lemma {:induction false} OneMore(slots: nat, ms: seq<Machine>, actions: seq<Action>, m: Machine, a: Action, m': Machine)
    returns (longer: seq<Machine>, more: seq<Action>)
    requires Reaches(slots, ms, actions, m) && !a.Scrub? && Enabled(slots, m, a) && Next(slots, m, a) == m'
    ensures Reaches(slots, longer, more, m')
  {
    longer, more := ms + [m'], actions + [a];
  }

  /** One supervisor at place `pc` on an otherwise empty machine. */
  function Alone(pc: Pc): Machine {
    Machine(0, map[0 := Process(None, true, true)], map[], map[0 := pc], if InAdmission(pc) then Some(0) else None, map[], {})
  }

  /** Supervisor 0 has run 0 in slot 0. */
  function Holding(pc: Pc): Machine {
    Alone(pc).(lock := None, open := map[0 := {0}], disk := map[0 := Record(0, 0, 0)], issued := {0})
  }

  /** Its child exists and has not executed the command. */
  const FORKED := Holding(Spawning(0, 0, 1)).(procs := map[0 := Process(None, true, true), 1 := Process(Some(0), false, true)],
                                              open := map[0 := {0, 1}])

  lemma {:induction false} AdmittedReached(slots: nat) returns (ms: seq<Machine>, actions: seq<Action>)
    requires slots > 0
    ensures Reaches(slots, ms, actions, Holding(Admitted(0, 0)))
  {
    ms, actions := IdleReached(slots);
    var idle := Alone(Choosing({}));
    var taken := Alone(Locked(0)).(open := map[0 := {0}]);
    assert Next(slots, idle, TakeSlot(0, 0)) == taken;
    ms, actions := OneMore(slots, ms, actions, idle, TakeSlot(0, 0), taken);
    var admitted := Holding(Admitted(0, 0));
    assert Next(slots, taken, WriteRecord(0, 0)).sups == admitted.sups && Next(slots, taken, WriteRecord(0, 0)).disk == admitted.disk;
    ms, actions := OneMore(slots, ms, actions, taken, WriteRecord(0, 0), admitted);
  }

  lemma {:induction false} IdleReached(slots: nat) returns (ms: seq<Machine>, actions: seq<Action>)
    ensures Reaches(slots, ms, actions, Alone(Choosing({})))
  {
    assert Next(slots, FIRST_BOOT, Start(0)) == Alone(Queueing);
    ms, actions := OneMore(slots, [FIRST_BOOT], [], FIRST_BOOT, Start(0), Alone(Queueing));
    assert Alone(Queueing).disk.Keys == {};
    assert Next(slots, Alone(Queueing), TakeAdmission(0)) == Alone(Admitting({}, {}));
    ms, actions := OneMore(slots, ms, actions, Alone(Queueing), TakeAdmission(0), Alone(Admitting({}, {})));
    assert Next(slots, Alone(Admitting({}, {})), Examined(0)) == Alone(Choosing({}));
    ms, actions := OneMore(slots, ms, actions, Alone(Admitting({}, {})), Examined(0), Alone(Choosing({})));
  }

  lemma {:induction false} ForkReached(slots: nat) returns (ms: seq<Machine>, actions: seq<Action>)
    requires slots > 0
    ensures Reaches(slots, ms, actions, FORKED)
  {
    ms, actions := AdmittedReached(slots);
    var m' := Next(slots, Holding(Admitted(0, 0)), Spawn(0, 1));
    assert OpenBy(Holding(Admitted(0, 0)), 0) + {1} == {0, 1};
    assert m'.procs == FORKED.procs && m'.sups == FORKED.sups && m'.open == FORKED.open;
    ms, actions := OneMore(slots, ms, actions, Holding(Admitted(0, 0)), Spawn(0, 1), FORKED);
  }

  /** A run can be admitted and started: the promises above are not kept by admitting nobody. */
  lemma {:induction false} AdmissionPossible(slots: nat) returns (ms: seq<Machine>, actions: seq<Action>)
    requires slots > 0
    ensures SightedRun(slots, ms, actions) && Tagged(ms[|actions|], 1, 0)
  {
    ms, actions := ForkReached(slots);
    ms, actions := OneMore(slots, ms, actions, FORKED, Exec(1), Next(slots, FORKED, Exec(1)));
  }

  /** The supervisor is killed between the fork and the exec, and another one starts. */
  lemma {:induction false} TakeoverReached(slots: nat) returns (ms: seq<Machine>, actions: seq<Action>, started: Machine)
    requires slots > 0
    ensures started == SetPc(Killed(FORKED, 0).(procs := Killed(FORKED, 0).procs[2 := Process(None, true, true)]), 2, Queueing)
    ensures Reaches(slots, ms, actions, started)
  {
    ms, actions := ForkReached(slots);
    var killed := Killed(FORKED, 0);
    ms, actions := OneMore(slots, ms, actions, FORKED, Die(0), killed);
    started := SetPc(killed.(procs := killed.procs[2 := Process(None, true, true)]), 2, Queueing);
    ms, actions := OneMore(slots, ms, actions, killed, Start(2), started);
  }

  /** A supervisor killed inside `Popen` leaves the next one a blind scrub. */
  lemma {:induction false} BlindScrubReachable(slots: nat) returns (ms: seq<Machine>, actions: seq<Action>)
    requires slots > 0
    ensures SightedRun(slots, ms, actions)
    ensures Enabled(slots, ms[|actions|], Scrub(2)) && !Sighted(ms[|actions|], Scrub(2))
  {
    var started;
    ms, actions, started := TakeoverReached(slots);
    var entered := SetPc(started.(lock := Some(2)), 2, Admitting({0}, {}));
    assert started.disk.Keys == {0};
    ms, actions := OneMore(slots, ms, actions, started, TakeAdmission(2), entered);
    var found := SetPc(entered, 2, Scrubbing({0}, {}, 0));
    ms, actions := OneMore(slots, ms, actions, entered, FindDead(2, 0), found);
    assert Belongs(found, 1, 0);
    forall p ensures !Tagged(found, p, 0) {}
  }
}
