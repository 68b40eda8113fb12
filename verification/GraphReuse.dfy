/** `derive`: callers of one lane form closed cohorts behind a leader, which scans, looks the
    digest up, builds, confirms by scanning again, and publishes one outcome to its cohort.
    Every action below is one hold of the condition's lock, or one step of the leader
    outside it; actions of different callers and lanes interleave in any order. */
module GraphReuse {
  import opened Basics
  import opened GraphDigest

  type Lane = string
  type Graph = seq<string>
  type Scan = seq<Record>

  datatype Outcome = Nodes(nodes: Graph, contract: Bytes, proof: Scan) | Failed

  /** `key` and `nodes` of a lane; `from` remembers the scan behind them and is never read. */
  datatype Cached = Cached(contract: Bytes, digest: Bytes, nodes: Graph, from: Scan)

  /** Where the lane's leader is. `began` is when its lookup scan started. */
  datatype Phase =
    | Resting
    | Closed
    | Scanning(began: nat)
    | Scanned(began: nat, contract: Bytes, before: Scan)
    | Built(began: nat, contract: Bytes, before: Scan, nodes: Graph)
    | Finished(began: nat, outcome: Outcome)

  /** `pending` and `active` of the source; `members` is the leader's closed cohort and
      `closed` counts the cohorts closed so far. */
  datatype LaneState = LaneState(pending: seq<nat>, active: bool, members: seq<nat>, phase: Phase,
                                 cache: Option<Cached>, closed: nat)

  datatype Thread = Waiting | Awake | Leading | Gone

  datatype Resolution = Resolution(cohort: nat, began: nat, outcome: Outcome)

  datatype Ticket = Ticket(lane: Lane, enqueued: nat, epoch: nat, thread: Thread, resolution: Option<Resolution>)

  /** One invocation's scope; `clock` counts actions and `scans` collects every scan made. */
  datatype Scope = Scope(clock: nat, lanes: map<Lane, LaneState>, tickets: map<nat, Ticket>, scans: set<Scan>)

  const EMPTY_LANE := LaneState([], false, [], Resting, None, 0)

  datatype Action =
    | Enqueue(lane: Lane, ticket: nat)
    | Wake(ticket: nat)
    | BeginScan(lane: Lane)
    | EndScan(lane: Lane, contract: Bytes, before: Scan)
    | Fail(lane: Lane)
    | Lookup(lane: Lane)
    | Confirm(lane: Lane, after: Scan)
    | Publish(lane: Lane)

  /** The pure build, as a function of the lane's workflow, the contract and the bytes read. */
  type Builder = (Lane, Bytes, Scan) -> Graph

  // ----- the actions ----------------------------------------------------------------------

  function LaneOf(s: Scope, lane: Lane): LaneState {
    if lane in s.lanes then s.lanes[lane] else EMPTY_LANE
  }

  function SetLane(s: Scope, lane: Lane, l: LaneState): Scope {
    s.(clock := s.clock + 1, lanes := s.lanes[lane := l])
  }

  /** The queue as it stands becomes the cohort; whoever arrives later is queued for the next. */
  function Close(l: LaneState): LaneState {
    l.(pending := [], active := true, members := l.pending, phase := Closed, closed := l.closed + 1)
  }

  predicate MayLead(l: LaneState, t: nat) {
    !l.active && l.pending != [] && l.pending[0] == t
  }

  ghost predicate Enabled(s: Scope, a: Action) {
    match a
    case Enqueue(lane, t) => t !in s.tickets
    case Wake(t) => t in s.tickets && s.tickets[t].thread == Awake
    case BeginScan(lane) => LaneOf(s, lane).phase == Closed
    case EndScan(lane, contract, before) => LaneOf(s, lane).phase.Scanning? && Frameable(before)
    case Fail(lane) => var p := LaneOf(s, lane).phase; p.Scanning? || p.Scanned? || p.Built?
    case Lookup(lane) => LaneOf(s, lane).phase.Scanned?
    case Confirm(lane, after) => LaneOf(s, lane).phase.Built? && Frameable(after)
    case Publish(lane) => LaneOf(s, lane).phase.Finished?
  }

  /** Enqueue runs up to its first wait: it leads at once when it is first in an idle lane. */
  function Enqueued(s: Scope, lane: Lane, t: nat): Scope {
    var l := LaneOf(s, lane);
    var queued := l.(pending := l.pending + [t]);
    var leads := MayLead(queued, t);
    var ticket := Ticket(lane, s.clock, l.closed, if leads then Leading else Waiting, None);
    SetLane(s, lane, if leads then Close(queued) else queued).(tickets := s.tickets[t := ticket])
  }

  /** A woken caller returns if resolved, leads if it may, and otherwise waits again. */
  function Woken(s: Scope, t: nat): Scope
    requires t in s.tickets
  {
    var ticket := s.tickets[t];
    var l := LaneOf(s, ticket.lane);
    if ticket.resolution.Some? then
      s.(clock := s.clock + 1, tickets := s.tickets[t := ticket.(thread := Gone)])
    else if MayLead(l, t) then
      SetLane(s, ticket.lane, Close(l)).(tickets := s.tickets[t := ticket.(thread := Leading)])
    else
      s.(clock := s.clock + 1, tickets := s.tickets[t := ticket.(thread := Waiting)])
  }

  /** A hit returns the stored nodes with this scan's proof; a miss builds from this scan. */
  ghost function LookedUp(sha: Bytes -> Bytes, build: Builder, lane: Lane, l: LaneState): LaneState
    requires l.phase.Scanned?
  {
    var Scanned(began, contract, before) := l.phase;
    if l.cache.Some? && l.cache.value.contract == contract && l.cache.value.digest == Digest(sha, before) then
      l.(phase := Finished(began, Nodes(l.cache.value.nodes, contract, before)))
    else
      l.(phase := Built(began, contract, before, build(lane, contract, before)))
  }

  /** Only a confirming scan with the same digest stores and returns what was built. */
  ghost function Confirmed(sha: Bytes -> Bytes, l: LaneState, after: Scan): LaneState
    requires l.phase.Built?
  {
    var Built(began, contract, before, nodes) := l.phase;
    if Digest(sha, after) != Digest(sha, before) then l.(phase := Finished(began, Failed))
    else l.(phase := Finished(began, Nodes(nodes, contract, before)),
            cache := Some(Cached(contract, Digest(sha, before), nodes, before)))
  }

  function Resolved(k: Ticket, t: nat, l: LaneState): Ticket
    requires l.phase.Finished?
  {
    if t in l.members then
      k.(resolution := Some(Resolution(l.closed, l.phase.began, l.phase.outcome)),
         thread := if k.thread == Leading then Gone else if k.thread == Waiting then Awake else k.thread)
    else k.(thread := if k.thread == Waiting then Awake else k.thread)
  }

  /** Publishing resolves the cohort and wakes every waiting caller of the scope. */
  function Published(s: Scope, lane: Lane): Scope
    requires LaneOf(s, lane).phase.Finished?
  {
    var l := LaneOf(s, lane);
    SetLane(s, lane, l.(active := false, members := [], phase := Resting))
      .(tickets := map t | t in s.tickets :: Resolved(s.tickets[t], t, l))
  }

  ghost function Next(sha: Bytes -> Bytes, build: Builder, s: Scope, a: Action): Scope
    requires Enabled(s, a)
  {
    match a
    case Enqueue(lane, t) => Enqueued(s, lane, t)
    case Wake(t) => Woken(s, t)
    case BeginScan(lane) => SetLane(s, lane, LaneOf(s, lane).(phase := Scanning(s.clock)))
    case EndScan(lane, contract, before) =>
      SetLane(s, lane, LaneOf(s, lane).(phase := Scanned(LaneOf(s, lane).phase.began, contract, before)))
        .(scans := s.scans + {before})
    case Fail(lane) =>
      SetLane(s, lane, LaneOf(s, lane).(phase := Finished(LaneOf(s, lane).phase.began, Failed)))
    case Lookup(lane) => SetLane(s, lane, LookedUp(sha, build, lane, LaneOf(s, lane)))
    case Confirm(lane, after) =>
      SetLane(s, lane, Confirmed(sha, LaneOf(s, lane), after)).(scans := s.scans + {after})
    case Publish(lane) => Published(s, lane)
  }

  const START := Scope(0, map[], map[], {})

  ghost predicate Run(sha: Bytes -> Bytes, build: Builder, ss: seq<Scope>, actions: seq<Action>) {
    && |ss| == |actions| + 1 && ss[0] == START
    && forall i {:trigger actions[i]} :: 0 <= i < |actions| ==> Enabled(ss[i], actions[i]) && ss[i + 1] == Next(sha, build, ss[i], actions[i])
  }

  // ----- the invariant ------------------------------------------------------------------------

  /** A ticket still queued: it joined after the latest cohort was closed. */
  ghost predicate Queued(s: Scope, lane: Lane, t: nat) {
    && t in s.tickets && s.tickets[t].lane == lane && s.tickets[t].resolution.None?
    && s.tickets[t].epoch == LaneOf(s, lane).closed && s.tickets[t].enqueued < s.clock
    && (s.tickets[t].thread == Waiting || s.tickets[t].thread == Awake)
  }

  /** A ticket of the closed cohort: it joined just before that cohort was closed. */
  ghost predicate Enrolled(s: Scope, lane: Lane, t: nat)
    requires t in LaneOf(s, lane).members
  {
    var l := LaneOf(s, lane);
    && t in s.tickets && s.tickets[t].lane == lane && s.tickets[t].resolution.None?
    && s.tickets[t].epoch + 1 == l.closed && s.tickets[t].enqueued < s.clock
    && s.tickets[t].thread != Gone
    && (s.tickets[t].thread == Leading <==> t == l.members[0])
    && (HasBegan(l.phase) ==> s.tickets[t].enqueued < l.phase.began < s.clock)
  }

  predicate HasBegan(p: Phase) { !p.Resting? && !p.Closed? }

  /** Its caller is awake and will look at the lane again. */
  predicate Runnable(s: Scope, t: nat) { t in s.tickets && s.tickets[t].thread == Awake }

  ghost predicate LaneOk(build: Builder, s: Scope, lane: Lane) {
    var l := LaneOf(s, lane);
    && Distinct(l.pending) && Distinct(l.members)
    && (l.active <==> l.phase != Resting) && (l.active <==> l.members != [])
    && (forall t :: t in l.pending ==> Queued(s, lane, t))
    && (forall t :: t in l.members ==> Enrolled(s, lane, t))
    && (!l.active && l.pending != [] ==> Runnable(s, l.pending[0]))
    && PhaseOk(build, s.scans, lane, l.phase) && CacheOk(build, s.scans, lane, l.cache)
  }

  ghost predicate Faithful(build: Builder, lane: Lane, o: Outcome) {
    o.Nodes? ==> o.nodes == build(lane, o.contract, o.proof)
  }

  ghost predicate PhaseOk(build: Builder, scans: set<Scan>, lane: Lane, p: Phase) {
    match p
    case Scanned(_, _, before) => before in scans
    case Built(_, contract, before, nodes) => before in scans && nodes == build(lane, contract, before)
    case Finished(_, outcome) => Faithful(build, lane, outcome)
    case _ => true
  }

  ghost predicate CacheOk(build: Builder, scans: set<Scan>, lane: Lane, cache: Option<Cached>) {
    cache.Some? ==> cache.value.from in scans
                    && cache.value.nodes == build(lane, cache.value.contract, cache.value.from)
  }

  ghost predicate DigestOk(sha: Bytes -> Bytes, cache: Option<Cached>) {
    cache.Some? ==> cache.value.digest == Digest(sha, cache.value.from)
  }

  /** Where a ticket can be: queued, enrolled in the closed cohort, or resolved. */
  ghost predicate TicketOk(build: Builder, s: Scope, t: nat)
    requires t in s.tickets
  {
    var k := s.tickets[t];
    var l := LaneOf(s, k.lane);
    && (k.resolution.None? ==> t in l.pending || t in l.members)
    && (k.thread == Gone ==> k.resolution.Some?)
    && (k.resolution.Some? ==>
          && k.thread != Waiting && k.thread != Leading
          && k.enqueued < k.resolution.value.began && k.resolution.value.cohort == k.epoch + 1
          && k.resolution.value.cohort <= (if l.active then l.closed - 1 else l.closed)
          && Faithful(build, k.lane, k.resolution.value.outcome))
  }

  ghost predicate SameCohortSameOutcome(s: Scope) {
    forall t, u :: t in s.tickets && u in s.tickets && s.tickets[t].lane == s.tickets[u].lane
                   && s.tickets[t].resolution.Some? && s.tickets[u].resolution.Some?
                   && s.tickets[t].resolution.value.cohort == s.tickets[u].resolution.value.cohort
                   ==> s.tickets[t].resolution == s.tickets[u].resolution
  }

  ghost predicate LanesOk(sha: Bytes -> Bytes, build: Builder, s: Scope) {
    forall lane :: LaneOk(build, s, lane) && DigestOk(sha, LaneOf(s, lane).cache)
  }

  ghost predicate TicketsOk(build: Builder, s: Scope) {
    forall t :: t in s.tickets ==> TicketOk(build, s, t)
  }

  ghost predicate Inv(sha: Bytes -> Bytes, build: Builder, s: Scope) {
    && LanesOk(sha, build, s) && TicketsOk(build, s) && SameCohortSameOutcome(s)
    && (forall scan :: scan in s.scans ==> Frameable(scan))
  }

  /** The strings the hash sees over the whole run. */
  ghost predicate NoClash(sha: Bytes -> Bytes, scans: set<Scan>) {
    forall a, b :: a in scans && b in scans ==> NoCollision(sha, Hashed(sha, a) + Hashed(sha, b))
  }

  // ----- every action keeps it ------------------------------------------------------------------

  /** The leader's own steps change only its lane's phase and cache. */
  lemma {:induction false} LeaderStep(sha: Bytes -> Bytes, build: Builder, s: Scope, lane: Lane, p: Phase,
                                      cache: Option<Cached>, scans: set<Scan>)
    requires Inv(sha, build, s) && LaneOf(s, lane).phase != Resting && p != Resting
    requires HasBegan(p) ==> p.began == s.clock || (HasBegan(LaneOf(s, lane).phase) && p.began == LaneOf(s, lane).phase.began)
    requires s.scans <= scans && forall scan :: scan in scans ==> Frameable(scan)
    requires PhaseOk(build, scans, lane, p) && CacheOk(build, scans, lane, cache) && DigestOk(sha, cache)
    ensures Inv(sha, build, SetLane(s, lane, LaneOf(s, lane).(phase := p, cache := cache)).(scans := scans))
  {
    var s' := SetLane(s, lane, LaneOf(s, lane).(phase := p, cache := cache)).(scans := scans);
    forall other ensures LaneOk(build, s', other) && DigestOk(sha, LaneOf(s', other).cache) {
      assert LaneOk(build, s, other) && DigestOk(sha, LaneOf(s, other).cache);
      if other != lane { OtherLane(build, s, s', other); } else { LeaderOwnLane(build, s, lane, p, cache, scans); }
    }
    forall t | t in s'.tickets ensures TicketOk(build, s', t) {
      assert TicketOk(build, s, t);
    }
  }

  lemma {:induction false} LeaderOwnLane(build: Builder, s: Scope, lane: Lane, p: Phase, cache: Option<Cached>, scans: set<Scan>)
    requires LaneOk(build, s, lane) && LaneOf(s, lane).phase != Resting && p != Resting
    requires HasBegan(p) ==> p.began == s.clock || (HasBegan(LaneOf(s, lane).phase) && p.began == LaneOf(s, lane).phase.began)
    requires PhaseOk(build, scans, lane, p) && CacheOk(build, scans, lane, cache) && s.scans <= scans
    ensures LaneOk(build, SetLane(s, lane, LaneOf(s, lane).(phase := p, cache := cache)).(scans := scans), lane)
  {
    var l := LaneOf(s, lane);
    var s' := SetLane(s, lane, l.(phase := p, cache := cache)).(scans := scans);
    forall t | t in l.pending ensures Queued(s', lane, t) { assert Queued(s, lane, t); }
    forall t | t in l.members ensures Enrolled(s', lane, t) { assert Enrolled(s, lane, t); }
  }

  predicate Nudged(k: Ticket, k': Ticket) {
    k' == k || (k.thread == Waiting && k' == k.(thread := Awake))
  }

  /** A lane an action does not touch stays as it was, even when its callers are woken. */
  lemma {:induction false} OtherLane(build: Builder, s: Scope, s': Scope, other: Lane)
    requires LaneOk(build, s, other) && LaneOf(s', other) == LaneOf(s, other)
    requires s.clock <= s'.clock && s.scans <= s'.scans
    requires forall t :: t in s.tickets && s.tickets[t].lane == other ==>
               t in s'.tickets && Nudged(s.tickets[t], s'.tickets[t])
    ensures LaneOk(build, s', other)
  {
    var l := LaneOf(s, other);
    forall t | t in l.pending ensures Queued(s', other, t) { assert Queued(s, other, t); }
    forall t | t in l.members ensures Enrolled(s', other, t) { assert Enrolled(s, other, t); }
    if l.pending != [] { assert Queued(s, other, l.pending[0]); }
  }

  /** No ticket's resolution changes, so cohorts still share theirs. */
  lemma {:induction false} ResolutionsStand(s: Scope, s': Scope)
    requires SameCohortSameOutcome(s)
    requires forall t :: t in s'.tickets && s'.tickets[t].resolution.Some? ==>
               t in s.tickets && s.tickets[t].lane == s'.tickets[t].lane
               && s.tickets[t].resolution == s'.tickets[t].resolution
    ensures SameCohortSameOutcome(s')
  {
  }

  lemma {:induction false} EnqueueKeepsOwnLane(build: Builder, s: Scope, lane: Lane, t: nat)
    requires LaneOk(build, s, lane) && t !in s.tickets
    ensures LaneOk(build, Enqueued(s, lane, t), lane)
  {
    var l, s' := LaneOf(s, lane), Enqueued(s, lane, t);
    var l' := LaneOf(s', lane);
    var queued := l.pending + [t];
    if l.active || l.pending != [] {
      assert l' == l.(pending := queued);
      forall u | u in queued ensures Queued(s', lane, u) {
        if u != t { assert u in l.pending; assert Queued(s, lane, u); }
      }
      forall u | u in l.members ensures Enrolled(s', lane, u) { assert Enrolled(s, lane, u); }
      forall i | 0 <= i < |l.pending| ensures l.pending[i] in s.tickets { assert Queued(s, lane, l.pending[i]); }
    } else {
      assert queued == [t] && l' == Close(l.(pending := [t]));
      assert l'.members == [t];
      assert Enrolled(s', lane, t);
    }
  }

  lemma {:induction false} EnqueueKeeps(sha: Bytes -> Bytes, build: Builder, s: Scope, lane: Lane, t: nat)
    requires Inv(sha, build, s) && t !in s.tickets
    ensures Inv(sha, build, Enqueued(s, lane, t))
  {
    var s' := Enqueued(s, lane, t);
    forall other ensures LaneOk(build, s', other) && DigestOk(sha, LaneOf(s', other).cache) {
      assert LaneOk(build, s, other) && DigestOk(sha, LaneOf(s, other).cache);
      if other != lane { OtherLane(build, s, s', other); } else { EnqueueKeepsOwnLane(build, s, lane, t); }
    }
    forall u | u in s'.tickets ensures TicketOk(build, s', u) {
      EnqueueKeepsTicket(build, s, lane, t, u);
    }
    ResolutionsStand(s, s');
  }

  lemma {:induction false} EnqueueKeepsTicket(build: Builder, s: Scope, lane: Lane, t: nat, u: nat)
    requires LaneOk(build, s, lane) && t !in s.tickets && (u == t || (u in s.tickets && TicketOk(build, s, u)))
    ensures TicketOk(build, Enqueued(s, lane, t), u)
  {
    var l, s' := LaneOf(s, lane), Enqueued(s, lane, t);
    if u == t {
      if l.active || l.pending != [] {
        assert LaneOf(s', lane).pending[|l.pending|] == t;
      } else {
        assert LaneOf(s', lane).members[0] == t;
      }
    }
  }

  /** When the head of an idle lane takes the lead, the whole queue is enrolled. */
  lemma {:induction false} LeadKeepsOwnLane(build: Builder, s: Scope, lane: Lane, t: nat)
    requires LaneOk(build, s, lane) && MayLead(LaneOf(s, lane), t) && t in s.tickets
    ensures LaneOk(build, SetLane(s, lane, Close(LaneOf(s, lane)))
                            .(tickets := s.tickets[t := s.tickets[t].(thread := Leading)]), lane)
  {
    var l := LaneOf(s, lane);
    var s' := SetLane(s, lane, Close(l)).(tickets := s.tickets[t := s.tickets[t].(thread := Leading)]);
    assert LaneOf(s', lane).members == l.pending;
    forall u | u in l.pending ensures Enrolled(s', lane, u) { assert Queued(s, lane, u); }
  }

  lemma {:induction false} WaitKeepsOwnLane(build: Builder, s: Scope, t: nat)
    requires t in s.tickets && s.tickets[t].thread == Awake && s.tickets[t].resolution.None?
    requires LaneOk(build, s, s.tickets[t].lane) && !MayLead(LaneOf(s, s.tickets[t].lane), t)
    ensures LaneOk(build, s.(clock := s.clock + 1, tickets := s.tickets[t := s.tickets[t].(thread := Waiting)]),
                   s.tickets[t].lane)
  {
    var lane := s.tickets[t].lane;
    var l := LaneOf(s, lane);
    var s' := s.(clock := s.clock + 1, tickets := s.tickets[t := s.tickets[t].(thread := Waiting)]);
    assert LaneOf(s', lane) == l;
    forall u | u in l.pending ensures Queued(s', lane, u) { assert Queued(s, lane, u); }
    forall u | u in l.members ensures Enrolled(s', lane, u) { assert Enrolled(s, lane, u); }
  }

  lemma {:induction false} WakeKeeps(sha: Bytes -> Bytes, build: Builder, s: Scope, t: nat)
    requires Inv(sha, build, s) && t in s.tickets && s.tickets[t].thread == Awake
    ensures Inv(sha, build, Woken(s, t))
  {
    WakeKeepsLanes(sha, build, s, t);
    assert LaneOk(build, s, s.tickets[t].lane);
    WakeKeepsTickets(build, s, t);
    WakeKeepsOutcomes(s, t);
  }

  lemma {:induction false} WakeKeepsOutcomes(s: Scope, t: nat)
    requires t in s.tickets && SameCohortSameOutcome(s)
    ensures SameCohortSameOutcome(Woken(s, t))
  {
    ResolutionsStand(s, Woken(s, t));
  }

  lemma {:induction false} WakeKeepsTickets(build: Builder, s: Scope, t: nat)
    requires t in s.tickets && s.tickets[t].thread == Awake && LaneOk(build, s, s.tickets[t].lane)
    requires TicketsOk(build, s)
    ensures TicketsOk(build, Woken(s, t))
  {
    var s' := Woken(s, t);
    forall u | u in s'.tickets ensures TicketOk(build, s', u) {
      assert TicketOk(build, s, u) && TicketOk(build, s, t);
      WakeKeepsTicket(build, s, t, u);
    }
  }

  lemma {:induction false} WakeKeepsLanes(sha: Bytes -> Bytes, build: Builder, s: Scope, t: nat)
    requires LanesOk(sha, build, s) && t in s.tickets && s.tickets[t].thread == Awake
    ensures LanesOk(sha, build, Woken(s, t))
  {
    var lane, s' := s.tickets[t].lane, Woken(s, t);
    forall other ensures LaneOk(build, s', other) && DigestOk(sha, LaneOf(s', other).cache) {
      assert LaneOk(build, s, other) && DigestOk(sha, LaneOf(s, other).cache);
      if other != lane { OtherLane(build, s, s', other); } else { WakeKeepsOwnLane(build, s, t); }
    }
  }

  lemma {:induction false} WakeKeepsOwnLane(build: Builder, s: Scope, t: nat)
    requires t in s.tickets && s.tickets[t].thread == Awake && LaneOk(build, s, s.tickets[t].lane)
    ensures LaneOk(build, Woken(s, t), s.tickets[t].lane)
  {
    var k := s.tickets[t];
    if k.resolution.Some? {
      ReturnKeepsOwnLane(build, s, t);
    } else if MayLead(LaneOf(s, k.lane), t) {
      LeadKeepsOwnLane(build, s, k.lane, t);
    } else {
      WaitKeepsOwnLane(build, s, t);
    }
  }

  lemma {:induction false} WakeKeepsTicket(build: Builder, s: Scope, t: nat, u: nat)
    requires t in s.tickets && s.tickets[t].thread == Awake && LaneOk(build, s, s.tickets[t].lane)
    requires u in s.tickets && TicketOk(build, s, u) && TicketOk(build, s, t)
    ensures TicketOk(build, Woken(s, t), u)
  {
  }

  lemma {:induction false} ReturnKeepsOwnLane(build: Builder, s: Scope, t: nat)
    requires t in s.tickets && s.tickets[t].resolution.Some? && LaneOk(build, s, s.tickets[t].lane)
    ensures LaneOk(build, s.(clock := s.clock + 1, tickets := s.tickets[t := s.tickets[t].(thread := Gone)]),
                   s.tickets[t].lane)
  {
    var lane := s.tickets[t].lane;
    var l := LaneOf(s, lane);
    var s' := s.(clock := s.clock + 1, tickets := s.tickets[t := s.tickets[t].(thread := Gone)]);
    assert LaneOf(s', lane) == l;
    forall u | u in l.pending ensures Queued(s', lane, u) { assert Queued(s, lane, u); }
    forall u | u in l.members ensures Enrolled(s', lane, u) { assert Enrolled(s, lane, u); }
    if l.pending != [] { assert Queued(s, lane, l.pending[0]); }
  }

  lemma {:induction false} PublishKeepsOwnLane(build: Builder, s: Scope, lane: Lane)
    requires LaneOk(build, s, lane) && LaneOf(s, lane).phase.Finished?
    ensures LaneOk(build, Published(s, lane), lane)
  {
    var l, s' := LaneOf(s, lane), Published(s, lane);
    assert LaneOf(s', lane) == l.(active := false, members := [], phase := Resting);
    forall u | u in l.pending ensures Queued(s', lane, u) && s'.tickets[u].thread == Awake {
      assert Queued(s, lane, u);
      assert u in l.members ==> Enrolled(s, lane, u);
    }
    if l.pending != [] { assert l.pending[0] in l.pending; }
  }

  lemma {:induction false} PublishKeeps(sha: Bytes -> Bytes, build: Builder, s: Scope, lane: Lane)
    requires Inv(sha, build, s) && LaneOf(s, lane).phase.Finished?
    ensures Inv(sha, build, Published(s, lane))
  {
    PublishKeepsLanes(sha, build, s, lane);
    assert LaneOk(build, s, lane);
    PublishKeepsTickets(build, s, lane);
    PublishKeepsOutcomes(build, s, lane);
  }

  lemma {:induction false} PublishKeepsLanes(sha: Bytes -> Bytes, build: Builder, s: Scope, lane: Lane)
    requires LanesOk(sha, build, s) && LaneOf(s, lane).phase.Finished?
    ensures LanesOk(sha, build, Published(s, lane))
  {
    var l, s' := LaneOf(s, lane), Published(s, lane);
    assert LaneOk(build, s, lane);
    forall u | u in l.members ensures s.tickets[u].lane == lane { assert Enrolled(s, lane, u); }
    forall other ensures LaneOk(build, s', other) && DigestOk(sha, LaneOf(s', other).cache) {
      assert LaneOk(build, s, other) && DigestOk(sha, LaneOf(s, other).cache);
      if other != lane { OtherLane(build, s, s', other); } else { PublishKeepsOwnLane(build, s, lane); }
    }
  }

  lemma {:induction false} PublishKeepsTickets(build: Builder, s: Scope, lane: Lane)
    requires LaneOk(build, s, lane) && TicketsOk(build, s) && LaneOf(s, lane).phase.Finished?
    ensures TicketsOk(build, Published(s, lane))
  {
    var s' := Published(s, lane);
    forall u | u in s'.tickets ensures TicketOk(build, s', u) {
      assert TicketOk(build, s, u);
      if u in LaneOf(s, lane).members { assert Enrolled(s, lane, u); }
    }
  }

  lemma {:induction false} PublishKeepsOutcomes(build: Builder, s: Scope, lane: Lane)
    requires LaneOk(build, s, lane) && TicketsOk(build, s) && SameCohortSameOutcome(s)
    requires LaneOf(s, lane).phase.Finished?
    ensures SameCohortSameOutcome(Published(s, lane))
  {
    var l, s' := LaneOf(s, lane), Published(s, lane);
    forall u | u in l.members ensures s.tickets[u].lane == lane { assert Enrolled(s, lane, u); }
    forall u | u in s.tickets && s.tickets[u].lane == lane && s.tickets[u].resolution.Some?
      ensures s.tickets[u].resolution.value.cohort < l.closed
    {
      assert TicketOk(build, s, u);
    }
  }

  lemma {:induction false} HitIsOwnScan(sha: Bytes -> Bytes, build: Builder, s: Scope, lane: Lane)
    requires IsHash(sha) && Inv(sha, build, s) && NoClash(sha, s.scans) && LaneOf(s, lane).phase.Scanned?
    ensures PhaseOk(build, s.scans, lane, LookedUp(sha, build, lane, LaneOf(s, lane)).phase)
  {
    assert LaneOk(build, s, lane) && DigestOk(sha, LaneOf(s, lane).cache);
    var l := LaneOf(s, lane);
    var Scanned(began, contract, before) := l.phase;
    if l.cache.Some? && l.cache.value.contract == contract && l.cache.value.digest == Digest(sha, before) {
      DigestDeterminesScan(sha, l.cache.value.from, before);
    }
  }

  lemma {:induction false} NextKeeps(sha: Bytes -> Bytes, build: Builder, s: Scope, a: Action)
    requires IsHash(sha) && Inv(sha, build, s) && Enabled(s, a) && NoClash(sha, s.scans)
    ensures Inv(sha, build, Next(sha, build, s, a))
  {
    match a {
      case Enqueue(lane, t) => EnqueueKeeps(sha, build, s, lane, t);
      case Wake(t) => WakeKeeps(sha, build, s, t);
      case Publish(lane) => PublishKeeps(sha, build, s, lane);
      case BeginScan(lane) =>
        assert LaneOk(build, s, lane) && DigestOk(sha, LaneOf(s, lane).cache);
        LeaderStep(sha, build, s, lane, Scanning(s.clock), LaneOf(s, lane).cache, s.scans);
      case EndScan(lane, contract, before) =>
        assert LaneOk(build, s, lane) && DigestOk(sha, LaneOf(s, lane).cache);
        LeaderStep(sha, build, s, lane, Scanned(LaneOf(s, lane).phase.began, contract, before),
                   LaneOf(s, lane).cache, s.scans + {before});
      case Fail(lane) =>
        assert LaneOk(build, s, lane) && DigestOk(sha, LaneOf(s, lane).cache);
        LeaderStep(sha, build, s, lane, Finished(LaneOf(s, lane).phase.began, Failed), LaneOf(s, lane).cache, s.scans);
      case Lookup(lane) =>
        assert LaneOk(build, s, lane) && DigestOk(sha, LaneOf(s, lane).cache);
        HitIsOwnScan(sha, build, s, lane);
        LeaderStep(sha, build, s, lane, LookedUp(sha, build, lane, LaneOf(s, lane)).phase, LaneOf(s, lane).cache, s.scans);
      case Confirm(lane, after) =>
        assert LaneOk(build, s, lane) && DigestOk(sha, LaneOf(s, lane).cache);
        var done := Confirmed(sha, LaneOf(s, lane), after);
        LeaderStep(sha, build, s, lane, done.phase, done.cache, s.scans + {after});
    }
  }

  lemma {:induction false} StartOk(sha: Bytes -> Bytes, build: Builder)
    ensures Inv(sha, build, START)
  {
    forall lane ensures LaneOk(build, START, lane) && DigestOk(sha, LaneOf(START, lane).cache) {
      assert LaneOf(START, lane) == EMPTY_LANE;
    }
  }

  lemma {:induction false} ScansGrow(sha: Bytes -> Bytes, build: Builder, ss: seq<Scope>, actions: seq<Action>, i: nat, j: nat)
    requires Run(sha, build, ss, actions) && i <= j < |ss|
    ensures ss[i].scans <= ss[j].scans
    decreases j
  {
    if i < j {
      ScansGrow(sha, build, ss, actions, i, j - 1);
      assert ss[j] == Next(sha, build, ss[j - 1], actions[j - 1]);
    }
  }

  lemma {:induction false} StepKeeps(sha: Bytes -> Bytes, build: Builder, s: Scope, a: Action, s': Scope, scans: set<Scan>)
    requires IsHash(sha) && Inv(sha, build, s) && Enabled(s, a) && s' == Next(sha, build, s, a)
    requires s.scans <= scans && NoClash(sha, scans)
    ensures Inv(sha, build, s')
  {
    assert NoClash(sha, s.scans);
    NextKeeps(sha, build, s, a);
  }

  lemma {:induction false} StepsKeep(sha: Bytes -> Bytes, build: Builder, ss: seq<Scope>, actions: seq<Action>, i: nat, scans: set<Scan>)
    requires IsHash(sha) && Run(sha, build, ss, actions) && i < |ss| && ss[i].scans <= scans && NoClash(sha, scans)
    ensures Inv(sha, build, ss[i])
  {
    if i == 0 {
      StartOk(sha, build);
    } else {
      ScansGrow(sha, build, ss, actions, i - 1, i);
      StepsKeep(sha, build, ss, actions, i - 1, scans);
      StepKeeps(sha, build, ss[i - 1], actions[i - 1], ss[i], scans);
    }
  }

  /** Every state of every run, as long as the strings its scans hashed do not collide. */
  lemma {:induction false} RunKeeps(sha: Bytes -> Bytes, build: Builder, ss: seq<Scope>, actions: seq<Action>, i: nat)
    requires IsHash(sha) && Run(sha, build, ss, actions) && i < |ss| && NoClash(sha, ss[i].scans)
    ensures Inv(sha, build, ss[i])
  {
    StepsKeep(sha, build, ss, actions, i, ss[i].scans);
  }

  // ----- what it promises ------------------------------------------------------------------------

  /** Each ticket is in exactly one place: queued, in the active cohort, or resolved. */
  lemma {:induction false} ExactlyOnePlace(sha: Bytes -> Bytes, build: Builder, s: Scope, t: nat)
    requires Inv(sha, build, s) && t in s.tickets
    ensures var l := LaneOf(s, s.tickets[t].lane);
            var places := [t in l.pending, t in l.members, s.tickets[t].resolution.Some?];
            places == [true, false, false] || places == [false, true, false] || places == [false, false, true]
    ensures forall lane :: lane != s.tickets[t].lane ==> t !in LaneOf(s, lane).pending && t !in LaneOf(s, lane).members
  {
    var l := LaneOf(s, s.tickets[t].lane);
    assert LaneOk(build, s, s.tickets[t].lane) && TicketOk(build, s, t);
    assert t in l.pending ==> Queued(s, s.tickets[t].lane, t);
    assert t in l.members ==> Enrolled(s, s.tickets[t].lane, t);
    forall lane | lane != s.tickets[t].lane ensures t !in LaneOf(s, lane).pending && t !in LaneOf(s, lane).members {
      assert LaneOk(build, s, lane);
      assert t in LaneOf(s, lane).pending ==> Queued(s, lane, t);
      assert t in LaneOf(s, lane).members ==> Enrolled(s, lane, t);
    }
  }

  /** A lane has at most one leader. */
  lemma {:induction false} OneLeader(sha: Bytes -> Bytes, build: Builder, s: Scope, t: nat, u: nat)
    requires Inv(sha, build, s) && t in s.tickets && u in s.tickets && s.tickets[t].lane == s.tickets[u].lane
    requires s.tickets[t].thread == Leading && s.tickets[u].thread == Leading
    ensures t == u
  {
    var lane := s.tickets[t].lane;
    var l := LaneOf(s, lane);
    assert LaneOk(build, s, lane) && TicketOk(build, s, t) && TicketOk(build, s, u);
    assert t in l.pending ==> Queued(s, lane, t);
    assert u in l.pending ==> Queued(s, lane, u);
    assert t in l.members ==> Enrolled(s, lane, t);
    assert u in l.members ==> Enrolled(s, lane, u);
  }

  /** No lost wakeup: an idle lane with callers queued has its head caller awake. */
  lemma {:induction false} NoLostWakeup(sha: Bytes -> Bytes, build: Builder, s: Scope, lane: Lane)
    requires Inv(sha, build, s) && !LaneOf(s, lane).active && LaneOf(s, lane).pending != []
    ensures Enabled(s, Wake(LaneOf(s, lane).pending[0]))
    ensures Woken(s, LaneOf(s, lane).pending[0]).lanes[lane].active
  {
    assert LaneOk(build, s, lane);
    assert Queued(s, lane, LaneOf(s, lane).pending[0]);
  }

  // ----- the leader's calculation, as the code runs it --------------------------------------------

  /** The leader's steps between its two scans, one after the other. */
  ghost function Calculated(sha: Bytes -> Bytes, build: Builder, lane: Lane, l: LaneState, began: nat,
                            contract: Bytes, before: Scan, after: Scan): LaneState
  {
    var looked := LookedUp(sha, build, lane, l.(phase := Scanned(began, contract, before)));
    if looked.phase.Built? then Confirmed(sha, looked, after) else looked
  }

  /** A lane's stored key and nodes, rewritten only by a confirmed miss. */
  class LaneCache {
    var cache: Option<Cached>

    constructor ()
      ensures cache == None
    {
      cache := None;
    }

    /** `_calculate`: a hit returns the stored nodes; a miss builds, and stores and returns what it
        built exactly when the confirming scan has the digest of the first; otherwise it fails. */
    method Calculate(sha: Bytes -> Bytes, build: Builder, lane: Lane, contract: Bytes, before: Scan, after: Scan,
                     ghost l: LaneState, ghost began: nat)
      returns (outcome: Outcome)
      requires Frameable(before) && Frameable(after) && l.cache == cache
      modifies this
      ensures var done := Calculated(sha, build, lane, l, began, contract, before, after);
              done.phase == Finished(began, outcome) && cache == done.cache
      ensures var hit := old(cache).Some? && old(cache).value.contract == contract && old(cache).value.digest == Digest(sha, before);
              var same := Digest(sha, after) == Digest(sha, before);
              && (hit ==> outcome == Nodes(old(cache).value.nodes, contract, before) && cache == old(cache))
              && (!hit && same ==>
                    outcome == Nodes(build(lane, contract, before), contract, before)
                    && cache == Some(Cached(contract, Digest(sha, before), outcome.nodes, before)))
              && (!hit && !same ==> outcome == Failed && cache == old(cache))
    {
      var digest := ScanDigest(sha, before);
      if cache.Some? && cache.value.contract == contract && cache.value.digest == digest {
        outcome := Nodes(cache.value.nodes, contract, before);
      } else {
        var nodes := build(lane, contract, before);
        var confirmed := ScanDigest(sha, after);
        if confirmed != digest {
          outcome := Failed;
        } else {
          cache := Some(Cached(contract, digest, nodes, before));
          outcome := Nodes(nodes, contract, before);
        }
      }
    }
  }
}
