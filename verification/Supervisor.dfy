/** MinerU admission: supervisors, the processes they start, slot records on disk, and a
    machine that may kill any process at any step or reboot. A process identity is a pid with
    its start time, so identities are never reused; run tokens are never reused either. */
module Supervisor {
  import opened Basics

  type Pid = nat
  type Token = nat
  type Slot = nat

  /** `run` is the run a process was started for. A child made by `Popen` shows the run's tag in
      its environment only once it has executed the command; until then it cannot be found. */
  datatype Process = Process(run: Option<Token>, execed: bool, alive: bool)

  /** A record write that a crash cut short leaves an unreadable file. */
  datatype SlotFile = Torn | Record(token: Token, boot: nat, supervisor: Pid)

  /** Where a supervisor is in `supervise`; `todo` are the records it has still to examine. */
  datatype Pc =
    | Queueing
    | Admitting(todo: set<Slot>, occupied: set<Slot>)
    | Scrubbing(todo: set<Slot>, occupied: set<Slot>, slot: Slot)
    | Scrubbed(todo: set<Slot>, occupied: set<Slot>, slot: Slot)
    | Choosing(occupied: set<Slot>)
    | Locked(slot: Slot)
    | Admitted(slot: Slot, token: Token)
    | Spawning(slot: Slot, token: Token, child: Pid)
    | Running(slot: Slot, token: Token)
    | Closing(slot: Slot, token: Token)
    | Cleaned(slot: Slot, token: Token)
    | Unlinking(slot: Slot, token: Token)
    | Leaving

  /** `lock` is the admission lock; `open` says which processes have a slot's locked file open. */
  datatype Machine = Machine(boot: nat, procs: map<Pid, Process>, disk: map<Slot, SlotFile>, sups: map<Pid, Pc>,
                             lock: Option<Pid>, open: map<Slot, set<Pid>>, issued: set<Token>)

  /** `Spawn` to `Launched` is one `Popen`: it returns when the child has executed the command,
      and raises when the child is gone before that. */
  datatype Action =
    | Start(pid: Pid)
    | TakeAdmission(pid: Pid)
    | DropStale(pid: Pid, slot: Slot)
    | FindDead(pid: Pid, slot: Slot)
    | FindAlive(pid: Pid, slot: Slot)
    | Scrub(pid: Pid)
    | DropScrubbed(pid: Pid)
    | Examined(pid: Pid)
    | NotReady(pid: Pid)
    | TakeSlot(pid: Pid, slot: Slot)
    | WriteRecord(pid: Pid, token: Token)
    | TearRecord(pid: Pid)
    | Spawn(pid: Pid, child: Pid)
    | Exec(child: Pid)
    | Launched(pid: Pid)
    | SpawnFailed(pid: Pid)
    | Fork(parent: Pid, child: Pid, keepsOpen: bool)
    | CloseSlot(pid: Pid, slot: Slot)
    | Stop(pid: Pid)
    | CleanOwn(pid: Pid)
    | TakeToUnlink(pid: Pid)
    | Unlink(pid: Pid)
    | GiveUp(pid: Pid)
    | Die(pid: Pid)
    | Reboot

  predicate Alive(m: Machine, p: Pid) { p in m.procs && m.procs[p].alive }

  /** A live process of a run, tagged or not yet. */
  predicate Belongs(m: Machine, p: Pid, token: Token) { Alive(m, p) && m.procs[p].run == Some(token) }

  predicate Tagged(m: Machine, p: Pid, token: Token) { Belongs(m, p, token) && m.procs[p].execed }

  /** A live child that has not executed its command yet. */
  predicate Untagged(m: Machine, p: Pid, token: Token) { Belongs(m, p, token) && !m.procs[p].execed }

  /** What `tagged(token)` finds empty. */
  ghost predicate NoneTagged(m: Machine, token: Token) { forall p :: !Tagged(m, p, token) }

  ghost predicate NoneLeft(m: Machine, token: Token) { forall p :: !Belongs(m, p, token) }

  predicate Live(m: Machine, p: Pid) { p in m.sups && Alive(m, p) }

  predicate LockFree(m: Machine) { m.lock.None? || !Alive(m, m.lock.value) }

  function OpenBy(m: Machine, slot: Slot): set<Pid> { if slot in m.open then m.open[slot] else {} }

  /** A lock on a slot file is gone when no live process has it open. */
  ghost predicate SlotFree(m: Machine, slot: Slot) { forall p :: p in OpenBy(m, slot) ==> !Alive(m, p) }

  /** A supervisor with the record of this boot in the slot to examine, in or out of `todo`. */
  predicate Examines(m: Machine, pid: Pid, slot: Slot) {
    Live(m, pid) && m.sups[pid].Admitting? && slot in m.sups[pid].todo && slot in m.disk && m.disk[slot].Record?
  }

  predicate MayGiveUp(pc: Pc) { pc.Queueing? || pc.Admitting? || pc.Scrubbing? || pc.Choosing? || pc.Closing? }

  /** `slots` is `max_concurrent`, the same for every supervisor. */
  ghost predicate Enabled(slots: nat, m: Machine, a: Action) {
    match a
    case Start(pid) => pid !in m.procs && pid !in m.sups
    case TakeAdmission(pid) => Live(m, pid) && m.sups[pid].Queueing? && LockFree(m)
    case DropStale(pid, slot) => Examines(m, pid, slot) && m.disk[slot].boot != m.boot
    case FindDead(pid, slot) =>
      Examines(m, pid, slot) && m.disk[slot].boot == m.boot && !Alive(m, m.disk[slot].supervisor)
    case FindAlive(pid, slot) =>
      Examines(m, pid, slot) && m.disk[slot].boot == m.boot && Alive(m, m.disk[slot].supervisor)
    case Scrub(pid) =>
      Live(m, pid) && m.sups[pid].Scrubbing? && m.sups[pid].slot in m.disk && m.disk[m.sups[pid].slot].Record?
      && NoneTagged(m, m.disk[m.sups[pid].slot].token)
    case DropScrubbed(pid) => Live(m, pid) && m.sups[pid].Scrubbed?
    case Examined(pid) => Live(m, pid) && m.sups[pid].Admitting? && m.sups[pid].todo == {}
    case NotReady(pid) => Live(m, pid) && m.sups[pid].Choosing?
    case TakeSlot(pid, slot) =>
      Live(m, pid) && m.sups[pid].Choosing? && |m.sups[pid].occupied| < slots
      && slot < slots && slot !in m.sups[pid].occupied && SlotFree(m, slot)
    case WriteRecord(pid, token) => Live(m, pid) && m.sups[pid].Locked? && token !in m.issued
    case TearRecord(pid) => Live(m, pid) && m.sups[pid].Locked?
    case Spawn(pid, child) => Live(m, pid) && m.sups[pid].Admitted? && child !in m.procs && child !in m.sups
    case Exec(child) => Alive(m, child) && m.procs[child].run.Some? && !m.procs[child].execed
    case Launched(pid) =>
      Live(m, pid) && m.sups[pid].Spawning? && m.sups[pid].child in m.procs && m.procs[m.sups[pid].child].execed
    case SpawnFailed(pid) => Live(m, pid) && m.sups[pid].Spawning? && !Alive(m, m.sups[pid].child)
    case Fork(parent, child, _) =>
      Alive(m, parent) && m.procs[parent].run.Some? && m.procs[parent].execed && child !in m.procs && child !in m.sups
    case CloseSlot(pid, slot) =>
      Alive(m, pid) && if pid in m.sups then m.sups[pid].Leaving? else m.procs[pid].execed
    case Stop(pid) => Live(m, pid) && (m.sups[pid].Admitted? || m.sups[pid].Running?)
    case CleanOwn(pid) => Live(m, pid) && m.sups[pid].Closing? && NoneTagged(m, m.sups[pid].token)
    case TakeToUnlink(pid) => Live(m, pid) && m.sups[pid].Cleaned? && LockFree(m)
    case Unlink(pid) => Live(m, pid) && m.sups[pid].Unlinking?
    case GiveUp(pid) => Live(m, pid) && MayGiveUp(m.sups[pid])
    case Die(pid) => Alive(m, pid)
    case Reboot => true
  }

  function SetPc(m: Machine, pid: Pid, pc: Pc): Machine { m.(sups := m.sups[pid := pc]) }

  /** Leaving the `with admission_lock` block. */
  function Release(m: Machine, pid: Pid): Machine { if m.lock == Some(pid) then m.(lock := None) else m }

  function Remove(m: Machine, slot: Slot): Machine { m.(disk := m.disk - {slot}) }

  /** A new process, which has the slot files open that `open` says. */
  function Born(m: Machine, child: Pid, p: Process, open: map<Slot, set<Pid>>): Machine {
    m.(procs := m.procs[child := p], open := open)
  }

  function Inherited(m: Machine, parent: Pid, child: Pid): map<Slot, set<Pid>> {
    map slot | slot in m.open :: if parent in m.open[slot] then m.open[slot] + {child} else m.open[slot]
  }

  function Killed(m: Machine, p: Pid): Machine
    requires p in m.procs
  {
    m.(procs := m.procs[p := m.procs[p].(alive := false)])
  }

  ghost function Next(slots: nat, m: Machine, a: Action): Machine
    requires Enabled(slots, m, a)
  {
    match a
    case Start(pid) => SetPc(m.(procs := m.procs[pid := Process(None, true, true)]), pid, Queueing)
    case TakeAdmission(pid) => SetPc(m.(lock := Some(pid)), pid, Admitting(m.disk.Keys, {}))
    case DropStale(pid, slot) =>
      var pc := m.sups[pid];
      SetPc(Remove(m, slot), pid, Admitting(pc.todo - {slot}, pc.occupied))
    case FindDead(pid, slot) =>
      var pc := m.sups[pid];
      SetPc(m, pid, Scrubbing(pc.todo, pc.occupied, slot))
    case FindAlive(pid, slot) =>
      var pc := m.sups[pid];
      SetPc(m, pid, Admitting(pc.todo - {slot}, pc.occupied + {slot}))
    case Scrub(pid) =>
      var pc := m.sups[pid];
      SetPc(m, pid, Scrubbed(pc.todo, pc.occupied, pc.slot))
    case DropScrubbed(pid) =>
      var pc := m.sups[pid];
      SetPc(Remove(m, pc.slot), pid, Admitting(pc.todo - {pc.slot}, pc.occupied))
    case Examined(pid) => SetPc(m, pid, Choosing(m.sups[pid].occupied))
    case NotReady(pid) => SetPc(Release(m, pid), pid, Queueing)
    case TakeSlot(pid, slot) => SetPc(m.(open := m.open[slot := {pid}]), pid, Locked(slot))
    case WriteRecord(pid, token) =>
      var slot := m.sups[pid].slot;
      SetPc(Release(m, pid).(disk := m.disk[slot := Record(token, m.boot, pid)], issued := m.issued + {token}),
            pid, Admitted(slot, token))
    case TearRecord(pid) => Killed(m, pid).(disk := m.disk[m.sups[pid].slot := Torn])
    case Spawn(pid, child) =>
      var pc := m.sups[pid];
      SetPc(Born(m, child, Process(Some(pc.token), false, true), m.open[pc.slot := OpenBy(m, pc.slot) + {child}]),
            pid, Spawning(pc.slot, pc.token, child))
    case Exec(child) => m.(procs := m.procs[child := m.procs[child].(execed := true)])
    case Launched(pid) => SetPc(m, pid, Running(m.sups[pid].slot, m.sups[pid].token))
    case SpawnFailed(pid) => SetPc(m, pid, Closing(m.sups[pid].slot, m.sups[pid].token))
    case Fork(parent, child, keepsOpen) =>
      Born(m, child, m.procs[parent], if keepsOpen then Inherited(m, parent, child) else m.open)
    case CloseSlot(pid, slot) => m.(open := m.open[slot := OpenBy(m, slot) - {pid}])
    case Stop(pid) => SetPc(m, pid, Closing(m.sups[pid].slot, m.sups[pid].token))
    case CleanOwn(pid) => SetPc(m, pid, Cleaned(m.sups[pid].slot, m.sups[pid].token))
    case TakeToUnlink(pid) => SetPc(m.(lock := Some(pid)), pid, Unlinking(m.sups[pid].slot, m.sups[pid].token))
    case Unlink(pid) => SetPc(Release(Remove(m, m.sups[pid].slot), pid), pid, Leaving)
    case GiveUp(pid) => SetPc(Release(m, pid), pid, Leaving)
    case Die(pid) => Killed(m, pid)
    case Reboot => m.(boot := m.boot + 1, lock := None,
                      procs := map p | p in m.procs :: m.procs[p].(alive := false))
  }

  const FIRST_BOOT := Machine(0, map[], map[], map[], None, map[], {})

  ghost predicate Run(slots: nat, ms: seq<Machine>, actions: seq<Action>) {
    && |ms| == |actions| + 1 && ms[0] == FIRST_BOOT
    && forall i {:trigger actions[i]} :: 0 <= i < |actions| ==> Enabled(slots, ms[i], actions[i]) && ms[i + 1] == Next(slots, ms[i], actions[i])
  }

  // ----- what every step keeps: records and the admission lock ------------------------------------

  ghost predicate Recorded(m: Machine, slot: Slot, token: Token) {
    slot in m.disk && m.disk[slot].Record? && m.disk[slot].token == token && m.disk[slot].boot == m.boot
  }

  predicate SameRun(a: SlotFile, b: SlotFile) { a.Record? && b.Record? && a.token == b.token }

  ghost predicate DiskOk(slots: nat, m: Machine) {
    && (forall i :: i in m.disk ==> i < slots)
    && (forall i :: i in m.disk && m.disk[i].Record? ==>
          m.disk[i].token in m.issued && m.disk[i].supervisor in m.sups && m.disk[i].boot <= m.boot)
    && (forall i, j :: i in m.disk && j in m.disk && SameRun(m.disk[i], m.disk[j]) ==> i == j)
  }

  predicate Owns(pc: Pc) {
    pc.Admitted? || pc.Spawning? || pc.Running? || pc.Closing? || pc.Cleaned? || pc.Unlinking?
  }

  predicate InAdmission(pc: Pc) {
    pc.Admitting? || pc.Scrubbing? || pc.Scrubbed? || pc.Choosing? || pc.Locked? || pc.Unlinking?
  }

  /** A record whose supervisor is gone. */
  ghost predicate Abandoned(m: Machine, slot: Slot) {
    slot in m.disk && m.disk[slot].Record? && m.disk[slot].boot == m.boot && !Alive(m, m.disk[slot].supervisor)
  }

  /** The slots hold readable records of this boot. */
  ghost predicate AllCurrent(m: Machine, slots: set<Slot>) {
    forall i :: i in slots ==> i in m.disk && m.disk[i].Record? && m.disk[i].boot == m.boot
  }

  /** What a live supervisor can rely on at each place, whoever crashes. Only records of this boot
      count as occupied. */
  ghost predicate PlaceOk(slots: nat, m: Machine, p: Pid, pc: Pc) {
    && (Owns(pc) ==> pc.slot in m.disk && m.disk[pc.slot] == Record(pc.token, m.boot, p))
    && (InAdmission(pc) ==> m.lock == Some(p))
    && (pc.Admitting? ==> m.disk.Keys == pc.todo + pc.occupied && pc.todo !! pc.occupied)
    && (pc.Scrubbing? || pc.Scrubbed? ==>
          m.disk.Keys == pc.todo + pc.occupied && pc.todo !! pc.occupied && pc.slot in pc.todo && Abandoned(m, pc.slot))
    && (pc.Admitting? || pc.Scrubbing? || pc.Scrubbed? || pc.Choosing? ==> AllCurrent(m, pc.occupied))
    && (pc.Choosing? ==> m.disk.Keys == pc.occupied)
    && (pc.Locked? ==> pc.slot !in m.disk && pc.slot < slots && AllCurrent(m, m.disk.Keys))
    && (pc.Spawning? ==> pc.child in m.procs && m.procs[pc.child].run == Some(pc.token))
  }

  ghost predicate SupervisorOk(slots: nat, m: Machine, p: Pid)
    requires p in m.sups
  {
    p in m.procs && m.procs[p].run == None && (Alive(m, p) ==> PlaceOk(slots, m, p, m.sups[p]))
  }

  ghost predicate Inv(slots: nat, m: Machine) {
    && DiskOk(slots, m) && (forall p :: p in m.sups ==> SupervisorOk(slots, m, p))
    && (forall p :: p in m.procs && m.procs[p].run.Some? ==> m.procs[p].run.value in m.issued)
  }

  /** Processes keep their run, and none comes back to life. */
  ghost predicate Onward(m: Machine, m': Machine) {
    && (forall p :: p in m.procs ==> p in m'.procs && m'.procs[p].run == m.procs[p].run)
    && (forall p :: p in m.procs && Alive(m', p) ==> Alive(m, p))
  }

  /** A supervisor that does not act keeps its part of the invariant. */
  lemma {:induction false} BystanderOk(slots: nat, m: Machine, m': Machine, q: Pid)
    requires DiskOk(slots, m) && (forall p :: p in m.sups ==> p in m.procs) && Onward(m, m')
    requires q in m.sups && q in m'.sups && m'.sups[q] == m.sups[q] && SupervisorOk(slots, m, q)
    requires Alive(m', q) ==> m'.boot == m.boot
    requires Alive(m', q) && Owns(m.sups[q]) ==>
               m.sups[q].slot in m'.disk && (m.sups[q].slot in m.disk ==> m'.disk[m.sups[q].slot] == m.disk[m.sups[q].slot])
    requires Alive(m', q) && InAdmission(m.sups[q]) ==> m'.lock == m.lock && m'.disk == m.disk
    ensures SupervisorOk(slots, m', q)
  {
    var pc := m.sups[q];
    if Alive(m', q) && (pc.Scrubbing? || pc.Scrubbed?) {
      assert m.disk[pc.slot].supervisor in m.sups;
    }
  }

  /** Only one live supervisor is inside the admission lock. */
  lemma {:induction false} AdmissionAlone(slots: nat, m: Machine, p: Pid, q: Pid)
    requires Inv(slots, m) && Live(m, p) && Live(m, q) && InAdmission(m.sups[p]) && InAdmission(m.sups[q])
    ensures p == q
  {
    assert SupervisorOk(slots, m, p) && SupervisorOk(slots, m, q);
  }

  /** A step of supervisor `pid`, or of no supervisor, after which the disk is still in order. */
  lemma {:induction false} StepKeeps(slots: nat, m: Machine, pid: Pid, m': Machine)
    requires Inv(slots, m) && DiskOk(slots, m') && Onward(m, m') && m'.boot == m.boot
    requires pid in m'.sups ==> SupervisorOk(slots, m', pid)
    requires forall q :: q in m'.sups && q != pid ==> q in m.sups && m'.sups[q] == m.sups[q]
    requires m'.lock == m.lock || (m'.lock == Some(pid) && LockFree(m)) || (m'.lock == None && m.lock == Some(pid))
    requires m'.disk == m.disk || (Live(m, pid) && InAdmission(m.sups[pid]))
    requires forall q :: Live(m, q) && Owns(m.sups[q]) && q != pid ==>
               m.sups[q].slot in m'.disk && (m.sups[q].slot in m.disk ==> m'.disk[m.sups[q].slot] == m.disk[m.sups[q].slot])
    requires m.issued <= m'.issued
    requires forall p :: p in m'.procs && p !in m.procs && m'.procs[p].run.Some? ==> m'.procs[p].run.value in m'.issued
    ensures Inv(slots, m')
  {
    forall q | q in m'.sups ensures SupervisorOk(slots, m', q) {
      if q != pid {
        assert SupervisorOk(slots, m, q);
        if Live(m, q) && Live(m, pid) && InAdmission(m.sups[q]) && InAdmission(m.sups[pid]) { AdmissionAlone(slots, m, pid, q); }
        BystanderOk(slots, m, m', q);
      }
    }
  }

  /** A step of one supervisor that leaves disk and processes alone. */
  lemma {:induction false} OwnStepKeeps(slots: nat, m: Machine, pid: Pid, m': Machine)
    requires Inv(slots, m) && Live(m, pid)
    requires pid in m'.sups && m' == m.(sups := m.sups[pid := m'.sups[pid]], lock := m'.lock, open := m'.open)
    requires m'.lock == m.lock || (m'.lock == Some(pid) && LockFree(m)) || (m'.lock == None && m.lock == Some(pid))
    requires PlaceOk(slots, m', pid, m'.sups[pid])
    ensures Inv(slots, m')
  {
    assert SupervisorOk(slots, m, pid);
    forall q | Live(m, q) && Owns(m.sups[q]) ensures m.sups[q].slot in m'.disk { assert SupervisorOk(slots, m, q); }
    StepKeeps(slots, m, pid, m');
  }

  /** Removing a record that no other live supervisor owns. */
  lemma {:induction false} RemoveKeeps(slots: nat, m: Machine, pid: Pid, slot: Slot, m': Machine)
    requires Inv(slots, m) && Live(m, pid) && InAdmission(m.sups[pid])
    requires pid in m'.sups && m' == m.(sups := m.sups[pid := m'.sups[pid]], lock := m'.lock, disk := m.disk - {slot})
    requires m'.lock == m.lock || (m'.lock == None && m.lock == Some(pid))
    requires slot in m.disk && m.disk[slot].Record?
    requires m.disk[slot].boot != m.boot || m.disk[slot].supervisor == pid || !Alive(m, m.disk[slot].supervisor)
    requires PlaceOk(slots, m', pid, m'.sups[pid])
    ensures Inv(slots, m')
  {
    assert SupervisorOk(slots, m, pid);
    forall q | Live(m, q) && Owns(m.sups[q]) && q != pid
      ensures m.sups[q].slot in m'.disk && m'.disk[m.sups[q].slot] == m.disk[m.sups[q].slot]
    {
      assert SupervisorOk(slots, m, q);
    }
    StepKeeps(slots, m, pid, m');
  }

  /** A process that starts or changes without touching disk, lock or any other supervisor. */
  lemma {:induction false} ProcessStepKeeps(slots: nat, m: Machine, pid: Pid, m': Machine)
    requires Inv(slots, m) && Onward(m, m') && m'.boot == m.boot && m'.disk == m.disk && m'.lock == m.lock
    requires m'.issued == m.issued && forall q :: q in m.sups ==> q in m'.sups
    requires forall p :: p in m'.procs && p !in m.procs && m'.procs[p].run.Some? ==> m'.procs[p].run.value in m.issued
    requires forall q :: q in m'.sups && q != pid ==> q in m.sups && m'.sups[q] == m.sups[q]
    requires pid in m'.sups ==> SupervisorOk(slots, m', pid)
    ensures Inv(slots, m')
  {
    forall q | Live(m, q) && Owns(m.sups[q]) ensures m.sups[q].slot in m'.disk { assert SupervisorOk(slots, m, q); }
    StepKeeps(slots, m, pid, m');
  }

  lemma {:induction false} WriteKeeps(slots: nat, m: Machine, pid: Pid, token: Token)
    requires Inv(slots, m) && Enabled(slots, m, WriteRecord(pid, token))
    ensures Inv(slots, Next(slots, m, WriteRecord(pid, token)))
  {
    var m' := Next(slots, m, WriteRecord(pid, token));
    assert SupervisorOk(slots, m, pid);
    forall q | Live(m, q) && Owns(m.sups[q]) ensures m.sups[q].slot in m.disk { assert SupervisorOk(slots, m, q); }
    StepKeeps(slots, m, pid, m');
  }

  lemma {:induction false} TearKeeps(slots: nat, m: Machine, pid: Pid)
    requires Inv(slots, m) && Enabled(slots, m, TearRecord(pid))
    ensures Inv(slots, Next(slots, m, TearRecord(pid)))
  {
    var m' := Next(slots, m, TearRecord(pid));
    assert SupervisorOk(slots, m, pid);
    forall q | Live(m, q) && Owns(m.sups[q]) ensures m.sups[q].slot in m.disk { assert SupervisorOk(slots, m, q); }
    StepKeeps(slots, m, pid, m');
  }

  lemma {:induction false} RebootKeeps(slots: nat, m: Machine)
    requires Inv(slots, m)
    ensures Inv(slots, Next(slots, m, Reboot))
  {
    var m' := Next(slots, m, Reboot);
    forall q | q in m'.sups ensures SupervisorOk(slots, m', q) { assert SupervisorOk(slots, m, q); }
  }

  /** Dropping one examined record leaves exactly the other ones to examine. */
  lemma {:induction false} KeysWithout<K, V>(disk: map<K, V>, todo: set<K>, occupied: set<K>, slot: K)
    requires disk.Keys == todo + occupied && todo !! occupied && slot in todo
    ensures (disk - {slot}).Keys == (todo - {slot}) + occupied && (todo - {slot}) !! occupied
  {
  }

  lemma {:induction false} MovedOk(slots: nat, m: Machine, pid: Pid, todo: set<Slot>, occupied: set<Slot>, slot: Slot, m': Machine)
    requires m.disk.Keys == todo + occupied && todo !! occupied && slot in todo
    requires m'.disk == m.disk && m'.lock == Some(pid) && m'.boot == m.boot && AllCurrent(m, occupied + {slot})
    ensures PlaceOk(slots, m', pid, Admitting(todo - {slot}, occupied + {slot}))
  {
    assert todo + occupied == (todo - {slot}) + (occupied + {slot});
  }

  lemma {:induction false} DroppedOk(slots: nat, m: Machine, pid: Pid, todo: set<Slot>, occupied: set<Slot>, slot: Slot, m': Machine)
    requires m.disk.Keys == todo + occupied && todo !! occupied && slot in todo
    requires m'.disk == m.disk - {slot} && m'.lock == Some(pid) && m'.boot == m.boot && AllCurrent(m, occupied)
    ensures PlaceOk(slots, m', pid, Admitting(todo - {slot}, occupied))
  {
    KeysWithout(m.disk, todo, occupied, slot);
  }

  lemma {:induction false} DropStaleKeeps(slots: nat, m: Machine, pid: Pid, slot: Slot)
    requires Inv(slots, m) && Enabled(slots, m, DropStale(pid, slot))
    ensures Inv(slots, Next(slots, m, DropStale(pid, slot)))
  {
    assert SupervisorOk(slots, m, pid);
    DroppedOk(slots, m, pid, m.sups[pid].todo, m.sups[pid].occupied, slot, Next(slots, m, DropStale(pid, slot)));
    RemoveKeeps(slots, m, pid, slot, Next(slots, m, DropStale(pid, slot)));
  }

  lemma {:induction false} DropScrubbedKeeps(slots: nat, m: Machine, pid: Pid)
    requires Inv(slots, m) && Enabled(slots, m, DropScrubbed(pid))
    ensures Inv(slots, Next(slots, m, DropScrubbed(pid)))
  {
    assert SupervisorOk(slots, m, pid);
    DroppedOk(slots, m, pid, m.sups[pid].todo, m.sups[pid].occupied, m.sups[pid].slot, Next(slots, m, DropScrubbed(pid)));
    RemoveKeeps(slots, m, pid, m.sups[pid].slot, Next(slots, m, DropScrubbed(pid)));
  }

  lemma {:induction false} UnlinkKeeps(slots: nat, m: Machine, pid: Pid)
    requires Inv(slots, m) && Enabled(slots, m, Unlink(pid))
    ensures Inv(slots, Next(slots, m, Unlink(pid)))
  {
    assert SupervisorOk(slots, m, pid);
    RemoveKeeps(slots, m, pid, m.sups[pid].slot, Next(slots, m, Unlink(pid)));
  }

  lemma {:induction false} EnterKeeps(slots: nat, m: Machine, pid: Pid)
    requires Inv(slots, m) && Enabled(slots, m, TakeAdmission(pid))
    ensures Inv(slots, Next(slots, m, TakeAdmission(pid)))
  {
    assert SupervisorOk(slots, m, pid);
    OwnStepKeeps(slots, m, pid, Next(slots, m, TakeAdmission(pid)));
  }

  lemma {:induction false} ExaminedKeeps(slots: nat, m: Machine, pid: Pid)
    requires Inv(slots, m) && Enabled(slots, m, Examined(pid))
    ensures Inv(slots, Next(slots, m, Examined(pid)))
  {
    assert SupervisorOk(slots, m, pid);
    OwnStepKeeps(slots, m, pid, Next(slots, m, Examined(pid)));
  }

  lemma {:induction false} NotReadyKeeps(slots: nat, m: Machine, pid: Pid)
    requires Inv(slots, m) && Enabled(slots, m, NotReady(pid))
    ensures Inv(slots, Next(slots, m, NotReady(pid)))
  {
    assert SupervisorOk(slots, m, pid);
    OwnStepKeeps(slots, m, pid, Next(slots, m, NotReady(pid)));
  }

  lemma {:induction false} FindDeadKeeps(slots: nat, m: Machine, pid: Pid, slot: Slot)
    requires Inv(slots, m) && Enabled(slots, m, FindDead(pid, slot))
    ensures Inv(slots, Next(slots, m, FindDead(pid, slot)))
  {
    assert SupervisorOk(slots, m, pid);
    assert Abandoned(Next(slots, m, FindDead(pid, slot)), slot);
    OwnStepKeeps(slots, m, pid, Next(slots, m, FindDead(pid, slot)));
  }

  lemma {:induction false} FindAliveKeeps(slots: nat, m: Machine, pid: Pid, slot: Slot)
    requires Inv(slots, m) && Enabled(slots, m, FindAlive(pid, slot))
    ensures Inv(slots, Next(slots, m, FindAlive(pid, slot)))
  {
    assert SupervisorOk(slots, m, pid);
    MovedOk(slots, m, pid, m.sups[pid].todo, m.sups[pid].occupied, slot, Next(slots, m, FindAlive(pid, slot)));
    OwnStepKeeps(slots, m, pid, Next(slots, m, FindAlive(pid, slot)));
  }

  lemma {:induction false} TakeSlotKeeps(slots: nat, m: Machine, pid: Pid, slot: Slot)
    requires Inv(slots, m) && Enabled(slots, m, TakeSlot(pid, slot))
    ensures Inv(slots, Next(slots, m, TakeSlot(pid, slot)))
  {
    assert SupervisorOk(slots, m, pid);
    OwnStepKeeps(slots, m, pid, Next(slots, m, TakeSlot(pid, slot)));
  }

  lemma {:induction false} ScrubKeeps(slots: nat, m: Machine, pid: Pid)
    requires Inv(slots, m) && Enabled(slots, m, Scrub(pid))
    ensures Inv(slots, Next(slots, m, Scrub(pid)))
  {
    assert SupervisorOk(slots, m, pid);
    OwnStepKeeps(slots, m, pid, Next(slots, m, Scrub(pid)));
  }

  lemma {:induction false} LaunchedKeeps(slots: nat, m: Machine, pid: Pid)
    requires Inv(slots, m) && Enabled(slots, m, Launched(pid))
    ensures Inv(slots, Next(slots, m, Launched(pid)))
  {
    assert SupervisorOk(slots, m, pid);
    OwnStepKeeps(slots, m, pid, Next(slots, m, Launched(pid)));
  }

  lemma {:induction false} SpawnFailedKeeps(slots: nat, m: Machine, pid: Pid)
    requires Inv(slots, m) && Enabled(slots, m, SpawnFailed(pid))
    ensures Inv(slots, Next(slots, m, SpawnFailed(pid)))
  {
    assert SupervisorOk(slots, m, pid);
    OwnStepKeeps(slots, m, pid, Next(slots, m, SpawnFailed(pid)));
  }

  lemma {:induction false} StopKeeps(slots: nat, m: Machine, pid: Pid)
    requires Inv(slots, m) && Enabled(slots, m, Stop(pid))
    ensures Inv(slots, Next(slots, m, Stop(pid)))
  {
    assert SupervisorOk(slots, m, pid);
    OwnStepKeeps(slots, m, pid, Next(slots, m, Stop(pid)));
  }

  lemma {:induction false} CleanOwnKeeps(slots: nat, m: Machine, pid: Pid)
    requires Inv(slots, m) && Enabled(slots, m, CleanOwn(pid))
    ensures Inv(slots, Next(slots, m, CleanOwn(pid)))
  {
    assert SupervisorOk(slots, m, pid);
    OwnStepKeeps(slots, m, pid, Next(slots, m, CleanOwn(pid)));
  }

  lemma {:induction false} TakeToUnlinkKeeps(slots: nat, m: Machine, pid: Pid)
    requires Inv(slots, m) && Enabled(slots, m, TakeToUnlink(pid))
    ensures Inv(slots, Next(slots, m, TakeToUnlink(pid)))
  {
    assert SupervisorOk(slots, m, pid);
    OwnStepKeeps(slots, m, pid, Next(slots, m, TakeToUnlink(pid)));
  }

  lemma {:induction false} GiveUpKeeps(slots: nat, m: Machine, pid: Pid)
    requires Inv(slots, m) && Enabled(slots, m, GiveUp(pid))
    ensures Inv(slots, Next(slots, m, GiveUp(pid)))
  {
    assert SupervisorOk(slots, m, pid);
    OwnStepKeeps(slots, m, pid, Next(slots, m, GiveUp(pid)));
  }

  lemma {:induction false} SpawnKeeps(slots: nat, m: Machine, pid: Pid, child: Pid)
    requires Inv(slots, m) && Enabled(slots, m, Spawn(pid, child))
    ensures Inv(slots, Next(slots, m, Spawn(pid, child)))
  {
    assert SupervisorOk(slots, m, pid);
    ProcessStepKeeps(slots, m, pid, Next(slots, m, Spawn(pid, child)));
  }

  lemma {:induction false} StartKeeps(slots: nat, m: Machine, pid: Pid)
    requires Inv(slots, m) && Enabled(slots, m, Start(pid))
    ensures Inv(slots, Next(slots, m, Start(pid)))
  {
    ProcessStepKeeps(slots, m, pid, Next(slots, m, Start(pid)));
  }

  lemma {:induction false} ExecKeeps(slots: nat, m: Machine, child: Pid)
    requires Inv(slots, m) && Enabled(slots, m, Exec(child))
    ensures Inv(slots, Next(slots, m, Exec(child)))
  {
    assert child in m.sups ==> SupervisorOk(slots, m, child);
    ProcessStepKeeps(slots, m, child, Next(slots, m, Exec(child)));
  }

  lemma {:induction false} KilledOnward(m: Machine, p: Pid)
    requires p in m.procs
    ensures Onward(m, Killed(m, p)) && !Alive(Killed(m, p), p)
  {
  }

  lemma {:induction false} DieKeeps(slots: nat, m: Machine, pid: Pid)
    requires Inv(slots, m) && Enabled(slots, m, Die(pid))
    ensures Inv(slots, Killed(m, pid))
  {
    assert pid in m.sups ==> SupervisorOk(slots, m, pid);
    KilledOnward(m, pid);
    ProcessStepKeeps(slots, m, pid, Killed(m, pid));
  }

  lemma {:induction false} CloseSlotKeeps(slots: nat, m: Machine, pid: Pid, slot: Slot)
    requires Inv(slots, m) && Enabled(slots, m, CloseSlot(pid, slot))
    ensures Inv(slots, Next(slots, m, CloseSlot(pid, slot)))
  {
    assert pid in m.sups ==> SupervisorOk(slots, m, pid);
    ProcessStepKeeps(slots, m, pid, Next(slots, m, CloseSlot(pid, slot)));
  }

  lemma {:induction false} ForkKeeps(slots: nat, m: Machine, parent: Pid, child: Pid, keepsOpen: bool)
    requires Inv(slots, m) && Enabled(slots, m, Fork(parent, child, keepsOpen))
    ensures Inv(slots, Next(slots, m, Fork(parent, child, keepsOpen)))
  {
    ProcessStepKeeps(slots, m, child, Next(slots, m, Fork(parent, child, keepsOpen)));
  }

  lemma {:induction false} NextKeeps(slots: nat, m: Machine, a: Action)
    requires Inv(slots, m) && Enabled(slots, m, a)
    ensures Inv(slots, Next(slots, m, a))
  {
    if AdmissionStep(a) {
      AdmissionStepKeeps(slots, m, a);
    } else if HolderStep(a) {
      HolderStepKeeps(slots, m, a);
    } else {
      OtherStepKeeps(slots, m, a);
    }
  }

  /** What a supervisor does before it has a slot, but for dropping records. */
  predicate AdmissionStep(a: Action) {
    a.TakeAdmission? || a.FindDead? || a.FindAlive? || a.Scrub? || a.Examined? || a.NotReady? || a.TakeSlot?
  }

  /** What it does afterwards, but for starting a process and unlinking its record. */
  predicate HolderStep(a: Action) {
    a.Launched? || a.SpawnFailed? || a.Stop? || a.CleanOwn? || a.TakeToUnlink? || a.GiveUp?
  }

  lemma {:induction false} AdmissionStepKeeps(slots: nat, m: Machine, a: Action)
    requires Inv(slots, m) && Enabled(slots, m, a) && AdmissionStep(a)
    ensures Inv(slots, Next(slots, m, a))
  {
    match a {
      case TakeAdmission(pid) => EnterKeeps(slots, m, pid);
      case FindDead(pid, slot) => FindDeadKeeps(slots, m, pid, slot);
      case FindAlive(pid, slot) => FindAliveKeeps(slots, m, pid, slot);
      case Scrub(pid) => ScrubKeeps(slots, m, pid);
      case Examined(pid) => ExaminedKeeps(slots, m, pid);
      case NotReady(pid) => NotReadyKeeps(slots, m, pid);
      case TakeSlot(pid, slot) => TakeSlotKeeps(slots, m, pid, slot);
    }
  }

  lemma {:induction false} HolderStepKeeps(slots: nat, m: Machine, a: Action)
    requires Inv(slots, m) && Enabled(slots, m, a) && HolderStep(a)
    ensures Inv(slots, Next(slots, m, a))
  {
    match a {
      case Launched(pid) => LaunchedKeeps(slots, m, pid);
      case SpawnFailed(pid) => SpawnFailedKeeps(slots, m, pid);
      case Stop(pid) => StopKeeps(slots, m, pid);
      case CleanOwn(pid) => CleanOwnKeeps(slots, m, pid);
      case TakeToUnlink(pid) => TakeToUnlinkKeeps(slots, m, pid);
      case GiveUp(pid) => GiveUpKeeps(slots, m, pid);
    }
  }

  lemma {:induction false} OtherStepKeeps(slots: nat, m: Machine, a: Action)
    requires Inv(slots, m) && Enabled(slots, m, a) && !AdmissionStep(a) && !HolderStep(a)
    ensures Inv(slots, Next(slots, m, a))
  {
    match a {
      case DropStale(pid, slot) => DropStaleKeeps(slots, m, pid, slot);
      case DropScrubbed(pid) => DropScrubbedKeeps(slots, m, pid);
      case Unlink(pid) => UnlinkKeeps(slots, m, pid);
      case WriteRecord(pid, token) => WriteKeeps(slots, m, pid, token);
      case TearRecord(pid) => TearKeeps(slots, m, pid);
      case Spawn(pid, child) => SpawnKeeps(slots, m, pid, child);
      case Reboot => RebootKeeps(slots, m);
      case Start(pid) => StartKeeps(slots, m, pid);
      case Exec(child) => ExecKeeps(slots, m, child);
      case Die(pid) => DieKeeps(slots, m, pid);
      case CloseSlot(pid, slot) => CloseSlotKeeps(slots, m, pid, slot);
      case Fork(parent, child, keepsOpen) => ForkKeeps(slots, m, parent, child, keepsOpen);
    }
  }

  lemma {:induction false} RunKeeps(slots: nat, ms: seq<Machine>, actions: seq<Action>, i: nat)
    requires Run(slots, ms, actions) && i < |ms|
    ensures Inv(slots, ms[i])
  {
    if i > 0 {
      RunKeeps(slots, ms, actions, i - 1);
      NextKeeps(slots, ms[i - 1], actions[i - 1]);
    }
  }

  /** A slot is written only when it holds no record, so no run is ever displaced. */
  lemma {:induction false} NoRecordOverwritten(slots: nat, ms: seq<Machine>, actions: seq<Action>, i: nat, slot: Slot)
    requires Run(slots, ms, actions) && i < |actions| && slot in ms[i].disk && slot in ms[i + 1].disk
    ensures ms[i + 1].disk[slot] == ms[i].disk[slot]
  {
    RunKeeps(slots, ms, actions, i);
    var a := actions[i];
    if a.WriteRecord? || a.TearRecord? { assert SupervisorOk(slots, ms[i], a.pid); }
  }
}
