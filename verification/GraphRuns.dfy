/** Whole runs of the lanes: what a resolution owes to its run's own scans, how long a ticket
    can wait while callers keep arriving, and that without arrivals every run comes to rest. */
module GraphRuns {
  import opened Basics
  import opened GraphDigest
  import opened GraphReuse

  // ----- the scan behind a resolution ---------------------------------------------------------------

  /** The clock counts actions, so a moment is the index of the action taken at it. */
  lemma {:induction false} ClockCountsActions(sha: Bytes -> Bytes, build: Builder, ss: seq<Scope>, actions: seq<Action>, i: nat)
    requires Run(sha, build, ss, actions) && i < |ss|
    ensures ss[i].clock == i
  {
    if i > 0 {
      ClockCountsActions(sha, build, ss, actions, i - 1);
      assert ss[i] == Next(sha, build, ss[i - 1], actions[i - 1]);
    }
  }

  /** The lane's leader began a scan at `began`, and ended one later, before `n`, with this result. */
  ghost predicate ScannedBy(actions: seq<Action>, n: nat, lane: Lane, began: nat, contract: Bytes, proof: Scan)
    requires n <= |actions|
  {
    exists e {:trigger actions[e]} :: began < e < n && actions[e] == EndScan(lane, contract, proof)
  }

  predicate BegunBy(actions: seq<Action>, n: nat, lane: Lane, began: nat)
    requires n <= |actions|
  {
    began < n && actions[began] == BeginScan(lane)
  }

  ghost predicate PhaseTraced(actions: seq<Action>, n: nat, lane: Lane, p: Phase)
    requires n <= |actions|
  {
    && (HasBegan(p) ==> BegunBy(actions, n, lane, p.began))
    && (p.Scanned? || p.Built? ==> ScannedBy(actions, n, lane, p.began, p.contract, p.before))
    && (p.Finished? && p.outcome.Nodes? ==> ScannedBy(actions, n, lane, p.began, p.outcome.contract, p.outcome.proof))
  }

  ghost predicate TicketTraced(actions: seq<Action>, n: nat, t: nat, k: Ticket)
    requires n <= |actions|
  {
    && k.enqueued < n && actions[k.enqueued] == Enqueue(k.lane, t)
    && (k.resolution.Some? ==>
          var r := k.resolution.value;
          && BegunBy(actions, n, k.lane, r.began)
          && (r.outcome.Nodes? ==> ScannedBy(actions, n, k.lane, r.began, r.outcome.contract, r.outcome.proof)))
  }

  ghost predicate Traced(actions: seq<Action>, s: Scope)
    requires s.clock <= |actions|
  {
    && (forall lane :: PhaseTraced(actions, s.clock, lane, LaneOf(s, lane).phase))
    && (forall t :: t in s.tickets ==> TicketTraced(actions, s.clock, t, s.tickets[t]))
  }

  lemma {:induction false} PhaseStaysTraced(actions: seq<Action>, n: nat, lane: Lane, p: Phase)
    requires n < |actions| && PhaseTraced(actions, n, lane, p)
    ensures PhaseTraced(actions, n + 1, lane, p)
  {
  }

  /** A leader's own step: its lane's next phase is traced to the same scan, or to this step. */
  lemma {:induction false} LeaderPhaseTraced(sha: Bytes -> Bytes, build: Builder, actions: seq<Action>, s: Scope, lane: Lane)
    requires s.clock < |actions| && Enabled(s, actions[s.clock]) && PhaseTraced(actions, s.clock, lane, LaneOf(s, lane).phase)
    ensures PhaseTraced(actions, s.clock + 1, lane, LaneOf(Next(sha, build, s, actions[s.clock]), lane).phase)
  {
    var a, p := actions[s.clock], LaneOf(s, lane).phase;
    var p' := LaneOf(Next(sha, build, s, a), lane).phase;
    PhaseStaysTraced(actions, s.clock, lane, p);
    assert HasBegan(p') ==> (HasBegan(p) && p'.began == p.began) || (a == BeginScan(lane) && p'.began == s.clock);
  }

  /** What one action does to a ticket: it joins, stays, or takes over its lane's finished outcome. */
  predicate TicketMoves(s: Scope, a: Action, t: nat, k: Ticket) {
    if t !in s.tickets then
      a == Enqueue(k.lane, t) && k.enqueued == s.clock && k.resolution.None?
    else
      && k.lane == s.tickets[t].lane && k.enqueued == s.tickets[t].enqueued
      && (k.resolution == s.tickets[t].resolution || TakesOutcome(s, a, t, k))
  }

  predicate TakesOutcome(s: Scope, a: Action, t: nat, k: Ticket) {
    && a.Publish? && t in LaneOf(s, a.lane).members && LaneOf(s, a.lane).phase.Finished?
    && k.resolution == Some(Resolution(LaneOf(s, a.lane).closed, LaneOf(s, a.lane).phase.began, LaneOf(s, a.lane).phase.outcome))
  }

  lemma {:induction false} TicketMoved(sha: Bytes -> Bytes, build: Builder, s: Scope, a: Action, t: nat)
    requires Enabled(s, a) && t in Next(sha, build, s, a).tickets
    ensures TicketMoves(s, a, t, Next(sha, build, s, a).tickets[t])
  {
  }

  /** Publishing hands the cohort the scan its lane's phase is traced to. */
  lemma {:induction false} MovedTicketTraced(build: Builder, actions: seq<Action>, s: Scope, t: nat, k: Ticket)
    requires s.clock < |actions| && TicketMoves(s, actions[s.clock], t, k)
    requires t in s.tickets ==> TicketTraced(actions, s.clock, t, s.tickets[t])
    requires actions[s.clock].Publish? ==>
      && LaneOk(build, s, actions[s.clock].lane)
      && PhaseTraced(actions, s.clock, actions[s.clock].lane, LaneOf(s, actions[s.clock].lane).phase)
    ensures TicketTraced(actions, s.clock + 1, t, k)
  {
    var a := actions[s.clock];
    if t in s.tickets && TakesOutcome(s, a, t, k) {
      assert Enrolled(s, a.lane, t);
      PhaseStaysTraced(actions, s.clock, a.lane, LaneOf(s, a.lane).phase);
    }
  }

  lemma {:induction false} NextTraced(sha: Bytes -> Bytes, build: Builder, actions: seq<Action>, s: Scope, s': Scope)
    requires s.clock < |actions| && Enabled(s, actions[s.clock]) && s' == Next(sha, build, s, actions[s.clock])
    requires s'.clock == s.clock + 1 && LanesOk(sha, build, s) && Traced(actions, s)
    ensures Traced(actions, s')
  {
    var a := actions[s.clock];
    forall lane ensures PhaseTraced(actions, s'.clock, lane, LaneOf(s', lane).phase) {
      assert PhaseTraced(actions, s.clock, lane, LaneOf(s, lane).phase);
      LeaderPhaseTraced(sha, build, actions, s, lane);
    }
    forall t | t in s'.tickets ensures TicketTraced(actions, s'.clock, t, s'.tickets[t]) {
      TicketMoved(sha, build, s, a, t);
      assert a.Publish? ==> LaneOk(build, s, a.lane) && PhaseTraced(actions, s.clock, a.lane, LaneOf(s, a.lane).phase);
      MovedTicketTraced(build, actions, s, t, s'.tickets[t]);
    }
  }

  lemma {:induction false} StartTraced(actions: seq<Action>)
    ensures Traced(actions, START)
  {
    forall lane ensures PhaseTraced(actions, 0, lane, LaneOf(START, lane).phase) {
      assert LaneOf(START, lane) == EMPTY_LANE;
    }
  }

  /** Action `k` of a run, taken in a state that keeps the invariant. */
  ghost predicate SoundStep(sha: Bytes -> Bytes, build: Builder, ss: seq<Scope>, actions: seq<Action>, k: nat)
    requires k < |actions| < |ss|
  {
    && ss[k].clock == k && ss[k + 1].clock == k + 1 && LanesOk(sha, build, ss[k])
    && Enabled(ss[k], actions[k]) && ss[k + 1] == Next(sha, build, ss[k], actions[k])
  }

  lemma {:induction false} StepsTraced(sha: Bytes -> Bytes, build: Builder, ss: seq<Scope>, actions: seq<Action>, i: nat)
    requires i <= |actions| < |ss| && ss[0] == START && ss[i].clock == i
    requires forall k: nat {:trigger SoundStep(sha, build, ss, actions, k)} :: k < i ==> SoundStep(sha, build, ss, actions, k)
    ensures Traced(actions, ss[i])
  {
    if i == 0 {
      StartTraced(actions);
    } else {
      assert SoundStep(sha, build, ss, actions, i - 1);
      StepsTraced(sha, build, ss, actions, i - 1);
      NextTraced(sha, build, actions, ss[i - 1], ss[i]);
    }
  }

  lemma {:induction false} RunTraced(sha: Bytes -> Bytes, build: Builder, ss: seq<Scope>, actions: seq<Action>, i: nat)
    requires IsHash(sha) && Run(sha, build, ss, actions) && i < |ss| && NoClash(sha, ss[i].scans)
    ensures ss[i].clock == i && Traced(actions, ss[i])
  {
    ClockCountsActions(sha, build, ss, actions, i);
    forall k: nat | k < i ensures SoundStep(sha, build, ss, actions, k) {
      ScansGrow(sha, build, ss, actions, k, i);
      RunKeeps(sha, build, ss, actions, k);
      ClockCountsActions(sha, build, ss, actions, k);
      ClockCountsActions(sha, build, ss, actions, k + 1);
    }
    StepsTraced(sha, build, ss, actions, i);
  }

  /** A resolution is fresh, faithful and shared by the cohort: after the ticket joined, its lane's
      leader began a scan in this run, and the published nodes are the build on what that scan
      read. The cohort is the first one closed after the ticket joined. */
  lemma {:induction false} ResolvedFreshAndFaithful(sha: Bytes -> Bytes, build: Builder, ss: seq<Scope>, actions: seq<Action>,
                                                    i: nat, t: nat)
    requires IsHash(sha) && Run(sha, build, ss, actions) && i < |ss| && NoClash(sha, ss[i].scans)
    requires t in ss[i].tickets && ss[i].tickets[t].resolution.Some?
    ensures var k := ss[i].tickets[t];
            var r := k.resolution.value;
            && k.enqueued < r.began < i && r.cohort == k.epoch + 1
            && actions[k.enqueued] == Enqueue(k.lane, t) && actions[r.began] == BeginScan(k.lane)
            && (r.outcome.Nodes? ==>
                  && (exists e {:trigger actions[e]} ::
                        r.began < e < i && actions[e] == EndScan(k.lane, r.outcome.contract, r.outcome.proof))
                  && r.outcome.nodes == build(k.lane, r.outcome.contract, r.outcome.proof))
            && forall u :: u in ss[i].tickets && ss[i].tickets[u].lane == k.lane && ss[i].tickets[u].resolution.Some?
                           && ss[i].tickets[u].resolution.value.cohort == r.cohort ==>
                 ss[i].tickets[u].resolution == k.resolution
  {
    RunKeeps(sha, build, ss, actions, i);
    RunTraced(sha, build, ss, actions, i);
    assert TicketOk(build, ss[i], t) && TicketTraced(actions, i, t, ss[i].tickets[t]);
  }

  // ----- how long a ticket waits ----------------------------------------------------------------------

  function Rank(p: Phase): nat {
    match p
    case Resting => 0
    case Closed => 5
    case Scanning(_) => 4
    case Scanned(_, _, _) => 3
    case Built(_, _, _, _) => 2
    case Finished(_, _) => 1
  }

  /** The steps its lane still has to take for a ticket: the rest of its own cohort's round, or
      that whole round after the rest of the round now active. */
  function Left(s: Scope, t: nat): nat
    requires t in s.tickets
  {
    var l := LaneOf(s, s.tickets[t].lane);
    if s.tickets[t].resolution.Some? then 0
    else if t in l.members then Rank(l.phase)
    else 6 + Rank(l.phase)
  }

  /** A step of the lane: its leader's, or in an idle lane the wake that makes its head lead. */
  predicate Serves(s: Scope, lane: Lane, a: Action) {
    match a
    case Enqueue(_, _) => false
    case Wake(u) => MayLead(LaneOf(s, lane), u)
    case BeginScan(other) => other == lane
    case EndScan(other, _, _) => other == lane
    case Fail(other) => other == lane
    case Lookup(other) => other == lane
    case Confirm(other, _) => other == lane
    case Publish(other) => other == lane
  }

  /** Two rounds of a lane are eleven steps: six of the ticket's own, five of the one before. */
  lemma {:induction false} LeftBounded(sha: Bytes -> Bytes, build: Builder, s: Scope, t: nat)
    requires Inv(sha, build, s) && t in s.tickets
    ensures Left(s, t) <= 11
    ensures Left(s, t) == 0 <==> s.tickets[t].resolution.Some?
  {
    assert LaneOk(build, s, s.tickets[t].lane) && TicketOk(build, s, t);
  }

  lemma {:induction false} WokenServes(build: Builder, s: Scope, u: nat, t: nat)
    requires u in s.tickets && s.tickets[u].thread == Awake && t in s.tickets
    requires LaneOk(build, s, s.tickets[t].lane) && TicketOk(build, s, t) && LaneOk(build, s, s.tickets[u].lane) && TicketOk(build, s, u)
    ensures Left(Woken(s, u), t) <= Left(s, t)
    ensures MayLead(LaneOf(s, s.tickets[t].lane), u) && s.tickets[t].resolution.None? ==> Left(Woken(s, u), t) < Left(s, t)
  {
    var lane := s.tickets[t].lane;
    assert u in LaneOf(s, lane).pending ==> Queued(s, lane, u);
    assert MayLead(LaneOf(s, lane), u) ==> u in LaneOf(s, lane).pending;
  }

  lemma {:induction false} PublishedServes(build: Builder, s: Scope, lane: Lane, t: nat)
    requires t in s.tickets && LaneOf(s, lane).phase.Finished? && LaneOk(build, s, lane)
    ensures Left(Published(s, lane), t) <= Left(s, t)
    ensures lane == s.tickets[t].lane && s.tickets[t].resolution.None? ==> Left(Published(s, lane), t) < Left(s, t)
  {
    assert t in LaneOf(s, lane).members ==> Enrolled(s, lane, t);
  }

  lemma {:induction false} ArrivalServesNobody(build: Builder, s: Scope, lane: Lane, u: nat, t: nat)
    requires u !in s.tickets && t in s.tickets && LaneOk(build, s, s.tickets[t].lane) && TicketOk(build, s, t)
    ensures Left(Enqueued(s, lane, u), t) == Left(s, t)
  {
    var l := LaneOf(s, s.tickets[t].lane);
    assert t in l.pending ==> Queued(s, s.tickets[t].lane, t);
  }

  lemma {:induction false} LeaderServes(sha: Bytes -> Bytes, build: Builder, s: Scope, a: Action, t: nat)
    requires Enabled(s, a) && t in s.tickets && !a.Enqueue? && !a.Wake? && !a.Publish?
    ensures Next(sha, build, s, a).tickets == s.tickets
    ensures Left(Next(sha, build, s, a), t) <= Left(s, t)
    ensures a.lane == s.tickets[t].lane && s.tickets[t].resolution.None? ==> Left(Next(sha, build, s, a), t) < Left(s, t)
  {
    var l, l' := LaneOf(s, a.lane), LaneOf(Next(sha, build, s, a), a.lane);
    assert l'.members == l.members && Rank(l'.phase) < Rank(l.phase);
  }

  /** No action takes a ticket back, an arrival included. */
  lemma {:induction false} NeverFurther(sha: Bytes -> Bytes, build: Builder, s: Scope, a: Action, t: nat)
    requires Inv(sha, build, s) && Enabled(s, a) && t in s.tickets
    ensures t in Next(sha, build, s, a).tickets && Next(sha, build, s, a).tickets[t].lane == s.tickets[t].lane
    ensures Left(Next(sha, build, s, a), t) <= Left(s, t)
  {
    assert LaneOk(build, s, s.tickets[t].lane) && TicketOk(build, s, t);
    if a.Enqueue? {
      ArrivalServesNobody(build, s, a.lane, a.ticket, t);
    } else if a.Wake? {
      assert LaneOk(build, s, s.tickets[a.ticket].lane) && TicketOk(build, s, a.ticket);
      WokenServes(build, s, a.ticket, t);
    } else if a.Publish? {
      assert LaneOk(build, s, a.lane);
      PublishedServes(build, s, a.lane, t);
    } else {
      LeaderServes(sha, build, s, a, t);
    }
  }

  /** Every step of its own lane brings an unresolved ticket strictly closer. */
  lemma {:induction false} ServedCloser(sha: Bytes -> Bytes, build: Builder, s: Scope, a: Action, t: nat)
    requires Inv(sha, build, s) && Enabled(s, a) && t in s.tickets && s.tickets[t].resolution.None?
    requires Serves(s, s.tickets[t].lane, a)
    ensures t in Next(sha, build, s, a).tickets && Left(Next(sha, build, s, a), t) < Left(s, t)
  {
    assert LaneOk(build, s, s.tickets[t].lane) && TicketOk(build, s, t);
    if a.Wake? {
      assert LaneOk(build, s, s.tickets[a.ticket].lane) && TicketOk(build, s, a.ticket);
      WokenServes(build, s, a.ticket, t);
    } else if a.Publish? {
      PublishedServes(build, s, a.lane, t);
    } else {
      LeaderServes(sha, build, s, a, t);
    }
  }

  /** While a ticket is unresolved its own lane can take a step, and no arrival is needed. */
  lemma {:induction false} NeverStuck(sha: Bytes -> Bytes, build: Builder, s: Scope, t: nat) returns (a: Action)
    requires Inv(sha, build, s) && t in s.tickets && s.tickets[t].resolution.None?
    ensures Enabled(s, a) && Serves(s, s.tickets[t].lane, a)
  {
    var lane := s.tickets[t].lane;
    var l := LaneOf(s, lane);
    assert LaneOk(build, s, lane) && TicketOk(build, s, t);
    match l.phase {
      case Resting =>
        assert l.pending != [];
        NoLostWakeup(sha, build, s, lane);
        a := Wake(l.pending[0]);
      case Closed => a := BeginScan(lane);
      case Scanning(_) => a := EndScan(lane, [], []);
      case Scanned(_, _, _) => a := Lookup(lane);
      case Built(_, _, _, _) => a := Confirm(lane, []);
      case Finished(_, _) => a := Publish(lane);
    }
  }

  /** The steps of one lane among the actions from `i` to `j` of a run. */
  ghost function Steps(ss: seq<Scope>, actions: seq<Action>, lane: Lane, i: nat, j: nat): nat
    requires i <= j <= |actions| < |ss|
    decreases j
  {
    if i == j then 0
    else Steps(ss, actions, lane, i, j - 1) + (if Serves(ss[j - 1], lane, actions[j - 1]) then 1 else 0)
  }

  /** Action `k` keeps a ticket and never takes it back, and takes it closer if its lane's. */
  predicate PaysOff(ss: seq<Scope>, actions: seq<Action>, t: nat, k: nat)
    requires k < |actions| < |ss|
  {
    t in ss[k].tickets ==>
      && t in ss[k + 1].tickets && ss[k + 1].tickets[t].lane == ss[k].tickets[t].lane
      && Left(ss[k + 1], t) <= Left(ss[k], t)
      && (Serves(ss[k], ss[k].tickets[t].lane, actions[k]) && Left(ss[k], t) > 0 ==> Left(ss[k + 1], t) < Left(ss[k], t))
  }

  lemma {:induction false} RunPaysOff(sha: Bytes -> Bytes, build: Builder, ss: seq<Scope>, actions: seq<Action>, t: nat, k: nat)
    requires IsHash(sha) && Run(sha, build, ss, actions) && k < |actions| && NoClash(sha, ss[k].scans)
    ensures PaysOff(ss, actions, t, k)
  {
    RunKeeps(sha, build, ss, actions, k);
    var s, a := ss[k], actions[k];
    if t in s.tickets {
      NeverFurther(sha, build, s, a, t);
      LeftBounded(sha, build, s, t);
      if Serves(s, s.tickets[t].lane, a) && Left(s, t) > 0 { ServedCloser(sha, build, s, a, t); }
    }
  }

  lemma {:induction false} StepsPayOff(ss: seq<Scope>, actions: seq<Action>, t: nat, i: nat, j: nat)
    requires i <= j <= |actions| < |ss| && t in ss[i].tickets
    requires forall k :: i <= k < j ==> PaysOff(ss, actions, t, k)
    ensures t in ss[j].tickets && ss[j].tickets[t].lane == ss[i].tickets[t].lane
    ensures Left(ss[j], t) + Steps(ss, actions, ss[i].tickets[t].lane, i, j) <= Left(ss[i], t) || Left(ss[j], t) == 0
    decreases j
  {
    if i < j {
      StepsPayOff(ss, actions, t, i, j - 1);
      assert PaysOff(ss, actions, t, j - 1);
    }
  }

  /** However many callers arrive and whatever other lanes do, a ticket is resolved by the time
      its lane has taken eleven steps: one earlier cohort's and its own. */
  lemma {:induction false} ResolvedWithinTwoRounds(sha: Bytes -> Bytes, build: Builder, ss: seq<Scope>, actions: seq<Action>,
                                                   t: nat, i: nat, j: nat)
    requires IsHash(sha) && Run(sha, build, ss, actions) && i <= j < |ss| && NoClash(sha, ss[j].scans)
    requires t in ss[i].tickets && Steps(ss, actions, ss[i].tickets[t].lane, i, j) >= 11
    ensures t in ss[j].tickets && ss[j].tickets[t].resolution.Some?
  {
    ScansGrow(sha, build, ss, actions, i, j);
    RunKeeps(sha, build, ss, actions, i);
    RunKeeps(sha, build, ss, actions, j);
    forall k | i <= k < j ensures PaysOff(ss, actions, t, k) {
      ScansGrow(sha, build, ss, actions, k, j);
      RunPaysOff(sha, build, ss, actions, t, k);
    }
    StepsPayOff(ss, actions, t, i, j);
    LeftBounded(sha, build, ss[i], t);
    LeftBounded(sha, build, ss[j], t);
  }

  // ----- without arrivals every run ends ----------------------------------------------------------------

  ghost function QueuedTickets(s: Scope): set<nat> {
    set t | t in s.tickets && t in LaneOf(s, s.tickets[t].lane).pending
  }

  ghost function AwakeTickets(s: Scope): set<nat> { set t | t in s.tickets && s.tickets[t].thread == Awake }

  /** The lanes whose leader still has at least `k` steps to take. */
  ghost function Busy(s: Scope, k: nat): set<Lane> { set lane | lane in s.lanes && Rank(s.lanes[lane].phase) >= k }

  ghost function Work(s: Scope): nat { |Busy(s, 1)| + |Busy(s, 2)| + |Busy(s, 3)| + |Busy(s, 4)| + |Busy(s, 5)| }

  /** Callers queued, then leader steps left, then callers awake, in that order. */
  ghost predicate Closer(s': Scope, s: Scope) {
    || |QueuedTickets(s')| < |QueuedTickets(s)|
    || (|QueuedTickets(s')| == |QueuedTickets(s)| && Work(s') < Work(s))
    || (|QueuedTickets(s')| == |QueuedTickets(s)| && Work(s') == Work(s) && |AwakeTickets(s')| < |AwakeTickets(s)|)
  }

  lemma {:induction false} BusyDrops(s: Scope, s': Scope, lane: Lane, k: nat)
    requires lane in s.lanes && s'.lanes == s.lanes[lane := LaneOf(s', lane)]
    requires Rank(LaneOf(s', lane).phase) < Rank(s.lanes[lane].phase)
    ensures |Busy(s', k)| <= |Busy(s, k)|
    ensures k == Rank(s.lanes[lane].phase) ==> |Busy(s', k)| < |Busy(s, k)|
  {
    assert LaneOf(s', lane) == s'.lanes[lane];
    assert Busy(s', k) <= Busy(s, k);
    SubsetCardinality(Busy(s', k), Busy(s, k));
    if k == Rank(s.lanes[lane].phase) {
      assert Busy(s', k) <= Busy(s, k) - {lane};
      SubsetCardinality(Busy(s', k), Busy(s, k) - {lane});
    }
  }

  lemma {:induction false} WorkDrops(s: Scope, s': Scope, lane: Lane)
    requires lane in s.lanes && s'.lanes == s.lanes[lane := LaneOf(s', lane)]
    requires Rank(LaneOf(s', lane).phase) < Rank(s.lanes[lane].phase)
    ensures Work(s') < Work(s)
  {
    BusyDrops(s, s', lane, 1);
    BusyDrops(s, s', lane, 2);
    BusyDrops(s, s', lane, 3);
    BusyDrops(s, s', lane, 4);
    BusyDrops(s, s', lane, 5);
  }

  lemma {:induction false} LeaderActionCloser(sha: Bytes -> Bytes, build: Builder, s: Scope, a: Action, lane: Lane)
    requires Enabled(s, a) && !a.Enqueue? && !a.Wake? && a.lane == lane
    ensures Closer(Next(sha, build, s, a), s)
  {
    var s' := Next(sha, build, s, a);
    assert LaneOf(s', lane).pending == LaneOf(s, lane).pending;
    assert QueuedTickets(s') == QueuedTickets(s) by {
      assert forall t :: t in s.tickets <==> t in s'.tickets;
      assert forall t :: t in s.tickets ==> s.tickets[t].lane == s'.tickets[t].lane;
      assert forall other :: LaneOf(s', other).pending == LaneOf(s, other).pending;
    }
    WorkDrops(s, s', lane);
  }

  lemma {:induction false} WakeCloser(sha: Bytes -> Bytes, build: Builder, s: Scope, t: nat)
    requires Inv(sha, build, s) && Enabled(s, Wake(t))
    ensures Closer(Woken(s, t), s)
  {
    var l := LaneOf(s, s.tickets[t].lane);
    if s.tickets[t].resolution.None? && MayLead(l, t) {
      LeadingEmptiesQueue(s, t);
    } else {
      assert LaneOk(build, s, s.tickets[t].lane);
      ReturningLeavesQueue(s, t);
    }
  }

  lemma {:induction false} LeadingEmptiesQueue(s: Scope, t: nat)
    requires t in s.tickets && s.tickets[t].resolution.None? && MayLead(LaneOf(s, s.tickets[t].lane), t)
    ensures |QueuedTickets(Woken(s, t))| < |QueuedTickets(s)|
  {
    var s' := Woken(s, t);
    assert QueuedTickets(s') <= QueuedTickets(s) - {t};
    assert t in QueuedTickets(s);
    SubsetCardinality(QueuedTickets(s'), QueuedTickets(s) - {t});
  }

  lemma {:induction false} ReturningLeavesQueue(s: Scope, t: nat)
    requires t in s.tickets && s.tickets[t].thread == Awake
    requires s.tickets[t].resolution.Some? || !MayLead(LaneOf(s, s.tickets[t].lane), t)
    ensures Closer(Woken(s, t), s)
  {
    var s' := Woken(s, t);
    assert s'.lanes == s.lanes;
    assert QueuedTickets(s') == QueuedTickets(s);
    assert AwakeTickets(s') == AwakeTickets(s) - {t};
    assert t in AwakeTickets(s);
  }

  /** Every action but a new arrival brings the scope closer to rest, so without arrivals every
      run ends, and by NeverStuck it ends with every ticket resolved. */
  lemma {:induction false} EveryActionCloser(sha: Bytes -> Bytes, build: Builder, s: Scope, a: Action)
    requires Inv(sha, build, s) && Enabled(s, a) && !a.Enqueue?
    ensures Closer(Next(sha, build, s, a), s)
  {
    if a.Wake? { WakeCloser(sha, build, s, a.ticket); } else { LeaderActionCloser(sha, build, s, a, a.lane); }
  }
}
