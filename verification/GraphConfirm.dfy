/** What stands behind a published graph, told by the actions of a run alone: a build is returned
    only after a confirming scan with the digest of its own, a stored graph only when such a
    confirmation stored it, and a scan that differs fails the whole cohort. */
module GraphConfirm {
  import opened Basics
  import opened GraphDigest
  import opened GraphReuse
  import opened GraphRuns

  // ----- the leader's steps in a run ---------------------------------------------------------------

  /** A step of the lane's leader. */
  predicate Leads(a: Action, lane: Lane) { !a.Enqueue? && !a.Wake? && a.lane == lane }

  predicate NoneLeads(actions: seq<Action>, lane: Lane, i: nat, j: nat)
    requires j <= |actions|
  {
    forall k {:trigger actions[k]} :: i <= k < j ==> !Leads(actions[k], lane)
  }

  /** Action `j` is the leader's next step after action `i`. */
  predicate NextStep(actions: seq<Action>, lane: Lane, i: nat, j: nat) {
    i < j < |actions| && Leads(actions[i], lane) && Leads(actions[j], lane) && NoneLeads(actions, lane, i + 1, j)
  }

  /** Action `q` is the leader's last step before moment `n`. */
  predicate LastStep(actions: seq<Action>, lane: Lane, n: nat, q: nat) {
    q < n <= |actions| && Leads(actions[q], lane) && NoneLeads(actions, lane, q + 1, n)
  }

  /** Scan `e` is looked up at `l`. */
  predicate Looks(actions: seq<Action>, lane: Lane, e: nat, l: nat) {
    NextStep(actions, lane, e, l) && actions[e].EndScan? && actions[l].Lookup?
  }

  /** Scan `e` missed at `l`, and `c` is the confirming scan of what was built from it. */
  predicate Confirming(actions: seq<Action>, lane: Lane, e: nat, l: nat, c: nat) {
    Looks(actions, lane, e, l) && NextStep(actions, lane, l, c) && actions[c].Confirm?
  }

  ghost predicate Agrees(sha: Bytes -> Bytes, actions: seq<Action>, e: nat, c: nat)
    requires e < |actions| && c < |actions| && actions[e].EndScan? && actions[c].Confirm?
  {
    Digest(sha, actions[c].after) == Digest(sha, actions[e].before)
  }

  /** The confirming scan `c` has the digest of scan `e`. */
  ghost predicate Vouches(sha: Bytes -> Bytes, actions: seq<Action>, lane: Lane, e: nat, c: nat) {
    exists l :: Confirming(actions, lane, e, l, c) && Agrees(sha, actions, e, c)
  }

  /** Scan `e`, vouched for at `c`, is the last one vouched for before moment `n`. */
  ghost predicate LastVouched(sha: Bytes -> Bytes, actions: seq<Action>, lane: Lane, n: nat, e: nat, c: nat) {
    c < n && Vouches(sha, actions, lane, e, c) && forall f, d :: c < d < n ==> !Vouches(sha, actions, lane, f, d)
  }

  /** Scan `e` has the contract and the digest of the last scan vouched for before moment `n`. */
  ghost predicate Known(sha: Bytes -> Bytes, actions: seq<Action>, lane: Lane, n: nat, e: nat)
    requires e < |actions| && actions[e].EndScan?
  {
    exists f: nat, c: nat :: LastVouched(sha, actions, lane, n, f, c) && SameKey(sha, actions, f, e)
  }

  ghost predicate SameKey(sha: Bytes -> Bytes, actions: seq<Action>, f: nat, e: nat) {
    f < |actions| && e < |actions| && actions[f].EndScan? && actions[e].EndScan?
    && actions[f].contract == actions[e].contract
    && Digest(sha, actions[f].before) == Digest(sha, actions[e].before)
  }

  lemma {:induction false} StepBefore(actions: seq<Action>, lane: Lane, i: nat, j: nat, n: nat)
    requires NextStep(actions, lane, i, n) && NextStep(actions, lane, j, n)
    ensures i == j
  {
  }

  lemma {:induction false} VouchedOnce(sha: Bytes -> Bytes, actions: seq<Action>, lane: Lane, e: nat, l: nat, f: nat, c: nat)
    requires Confirming(actions, lane, e, l, c) && Vouches(sha, actions, lane, f, c)
    ensures e == f && Agrees(sha, actions, e, c)
  {
    var m :| Confirming(actions, lane, f, m, c) && Agrees(sha, actions, f, c);
    StepBefore(actions, lane, l, m, c);
    StepBefore(actions, lane, e, f, l);
  }

  // ----- what a lane holds at each moment --------------------------------------------------------------

  /** The lane's cache holds exactly the last scan vouched for, with what it builds. */
  ghost predicate CacheFrom(sha: Bytes -> Bytes, build: Builder, actions: seq<Action>, n: nat, lane: Lane, cache: Option<Cached>) {
    match cache
    case None => forall e: nat, c: nat :: c < n ==> !Vouches(sha, actions, lane, e, c)
    case Some(v) => exists e: nat, c: nat :: LastVouched(sha, actions, lane, n, e, c) && Holds(sha, build, actions, lane, e, v)
  }

  ghost predicate Holds(sha: Bytes -> Bytes, build: Builder, actions: seq<Action>, lane: Lane, e: nat, v: Cached) {
    e < |actions| && actions[e].EndScan? && v.contract == actions[e].contract && v.digest == Digest(sha, actions[e].before)
    && v.nodes == build(lane, actions[e].contract, actions[e].before)
  }

  /** The outcome that the leader's step `q` decides on. */
  ghost predicate Decides(sha: Bytes -> Bytes, build: Builder, actions: seq<Action>, lane: Lane, q: nat, o: Outcome)
    requires q < |actions|
  {
    match actions[q]
    case Fail(_) => o == Failed
    case Confirm(_, _) => exists e: nat, l: nat :: Confirming(actions, lane, e, l, q) && ConfirmDecides(sha, build, actions, lane, e, q, o)
    case Lookup(_) => exists e: nat :: Looks(actions, lane, e, q) && HitDecides(sha, build, actions, lane, e, q, o)
    case _ => false
  }

  ghost predicate ConfirmDecides(sha: Bytes -> Bytes, build: Builder, actions: seq<Action>, lane: Lane, e: nat, q: nat, o: Outcome)
    requires e < |actions| && q < |actions| && actions[e].EndScan? && actions[q].Confirm?
  {
    o == if Agrees(sha, actions, e, q) then Nodes(build(lane, actions[e].contract, actions[e].before), actions[e].contract, actions[e].before)
         else Failed
  }

  ghost predicate HitDecides(sha: Bytes -> Bytes, build: Builder, actions: seq<Action>, lane: Lane, e: nat, q: nat, o: Outcome)
    requires e < |actions| && actions[e].EndScan?
  {
    exists f: nat, c: nat :: LastVouched(sha, actions, lane, q, f, c) && SameKey(sha, actions, f, e)
                   && o == Nodes(build(lane, actions[f].contract, actions[f].before), actions[e].contract, actions[e].before)
  }

  ghost predicate PhaseFrom(sha: Bytes -> Bytes, build: Builder, actions: seq<Action>, n: nat, lane: Lane, p: Phase) {
    match p
    case Scanned(_, contract, before) => exists e: nat :: LastStep(actions, lane, n, e) && actions[e] == EndScan(lane, contract, before)
    case Built(_, contract, before, nodes) =>
      exists e: nat, l: nat :: LastStep(actions, lane, n, l) && Looks(actions, lane, e, l) && actions[e] == EndScan(lane, contract, before)
                     && nodes == build(lane, contract, before) && !Known(sha, actions, lane, l, e)
    case Finished(_, o) => exists q: nat :: LastStep(actions, lane, n, q) && Decides(sha, build, actions, lane, q, o)
    case _ => true
  }

  ghost predicate LaneFrom(sha: Bytes -> Bytes, build: Builder, actions: seq<Action>, n: nat, lane: Lane, l: LaneState) {
    CacheFrom(sha, build, actions, n, lane, l.cache) && PhaseFrom(sha, build, actions, n, lane, l.phase)
  }

  // ----- every step keeps it -------------------------------------------------------------------------------

  lemma {:induction false} VouchedStays(sha: Bytes -> Bytes, actions: seq<Action>, lane: Lane, n: nat, e: nat, c: nat)
    requires LastVouched(sha, actions, lane, n, e, c) && forall f :: !Vouches(sha, actions, lane, f, n)
    ensures LastVouched(sha, actions, lane, n + 1, e, c)
  {
    forall f: nat, d: nat | c < d < n + 1 ensures !Vouches(sha, actions, lane, f, d) {}
  }

  /** A moment passes at which the cache vouches for nothing new. */
  lemma {:induction false} CacheStays(sha: Bytes -> Bytes, build: Builder, actions: seq<Action>, n: nat, lane: Lane, cache: Option<Cached>)
    requires n < |actions| && CacheFrom(sha, build, actions, n, lane, cache)
    requires forall e :: !Vouches(sha, actions, lane, e, n)
    ensures CacheFrom(sha, build, actions, n + 1, lane, cache)
  {
    if cache.Some? {
      var e, c :| LastVouched(sha, actions, lane, n, e, c) && Holds(sha, build, actions, lane, e, cache.value);
      VouchedStays(sha, actions, lane, n, e, c);
    }
  }

  lemma {:induction false} OnlyConfirmVouches(sha: Bytes -> Bytes, actions: seq<Action>, lane: Lane, n: nat)
    requires n < |actions| && !(actions[n].Confirm? && actions[n].lane == lane)
    ensures forall e :: !Vouches(sha, actions, lane, e, n)
  {
  }

  /** Another action leaves the leader's last step the last. */
  lemma {:induction false} PhaseStays(sha: Bytes -> Bytes, build: Builder, actions: seq<Action>, n: nat, lane: Lane, p: Phase)
    requires n < |actions| && !Leads(actions[n], lane) && PhaseFrom(sha, build, actions, n, lane, p)
    ensures PhaseFrom(sha, build, actions, n + 1, lane, p)
  {
    forall q | LastStep(actions, lane, n, q) ensures LastStep(actions, lane, n + 1, q) {}
  }

  lemma {:induction false} Followed(actions: seq<Action>, lane: Lane, n: nat, q: nat)
    requires n < |actions| && LastStep(actions, lane, n, q) && Leads(actions[n], lane)
    ensures NextStep(actions, lane, q, n)
  {
  }

  /** The cache matches the scan that is looked up exactly when the scan is known. */
  lemma {:induction false} MatchIsKnown(sha: Bytes -> Bytes, build: Builder, actions: seq<Action>, n: nat, lane: Lane,
                                        cache: Option<Cached>, e: nat)
    requires CacheFrom(sha, build, actions, n, lane, cache) && e < |actions| && actions[e].EndScan?
    ensures cache.Some? && cache.value.contract == actions[e].contract && cache.value.digest == Digest(sha, actions[e].before)
       <==> Known(sha, actions, lane, n, e)
  {
    if cache.Some? {
      var f, c :| LastVouched(sha, actions, lane, n, f, c) && Holds(sha, build, actions, lane, f, cache.value);
      if Known(sha, actions, lane, n, e) {
        var g, d :| LastVouched(sha, actions, lane, n, g, d) && SameKey(sha, actions, g, e);
        LastIsOne(sha, actions, lane, n, f, c, g, d);
      }
    }
  }

  lemma {:induction false} LastIsOne(sha: Bytes -> Bytes, actions: seq<Action>, lane: Lane, n: nat, e: nat, c: nat, f: nat, d: nat)
    requires LastVouched(sha, actions, lane, n, e, c) && LastVouched(sha, actions, lane, n, f, d)
    ensures e == f && c == d
  {
    assert c < d ==> !Vouches(sha, actions, lane, f, d);
    assert d < c ==> !Vouches(sha, actions, lane, e, c);
    var l :| Confirming(actions, lane, e, l, c) && Agrees(sha, actions, e, c);
    VouchedOnce(sha, actions, lane, e, l, f, c);
  }

  /** A hit is decided by the last scan vouched for. */
  lemma {:induction false} HitStep(sha: Bytes -> Bytes, build: Builder, actions: seq<Action>, n: nat, lane: Lane, e: nat, v: Cached)
    requires n < |actions| && actions[n] == Lookup(lane) && Looks(actions, lane, e, n)
    requires CacheFrom(sha, build, actions, n, lane, Some(v))
    requires v.contract == actions[e].contract && v.digest == Digest(sha, actions[e].before)
    ensures Decides(sha, build, actions, lane, n, Nodes(v.nodes, actions[e].contract, actions[e].before))
  {
    var f: nat, c: nat :| LastVouched(sha, actions, lane, n, f, c) && Holds(sha, build, actions, lane, f, v);
    assert SameKey(sha, actions, f, e);
    assert HitDecides(sha, build, actions, lane, e, n, Nodes(v.nodes, actions[e].contract, actions[e].before));
  }

  lemma {:induction false} LookupStep(sha: Bytes -> Bytes, build: Builder, actions: seq<Action>, n: nat, lane: Lane, l: LaneState)
    requires n < |actions| && actions[n] == Lookup(lane) && l.phase.Scanned? && LaneFrom(sha, build, actions, n, lane, l)
    ensures LaneFrom(sha, build, actions, n + 1, lane, LookedUp(sha, build, lane, l))
  {
    var e: nat :| LastStep(actions, lane, n, e) && actions[e] == EndScan(lane, l.phase.contract, l.phase.before);
    OnlyConfirmVouches(sha, actions, lane, n);
    CacheStays(sha, build, actions, n, lane, l.cache);
    LookupPhase(sha, build, actions, n, lane, l, e);
  }

  lemma {:induction false} LookupPhase(sha: Bytes -> Bytes, build: Builder, actions: seq<Action>, n: nat, lane: Lane, l: LaneState, e: nat)
    requires n < |actions| && actions[n] == Lookup(lane) && l.phase.Scanned? && CacheFrom(sha, build, actions, n, lane, l.cache)
    requires LastStep(actions, lane, n, e) && actions[e] == EndScan(lane, l.phase.contract, l.phase.before)
    ensures PhaseFrom(sha, build, actions, n + 1, lane, LookedUp(sha, build, lane, l).phase)
  {
    Followed(actions, lane, n, e);
    assert Looks(actions, lane, e, n) && LastStep(actions, lane, n + 1, n);
    MatchIsKnown(sha, build, actions, n, lane, l.cache, e);
    if LookedUp(sha, build, lane, l).phase.Finished? { HitStep(sha, build, actions, n, lane, e, l.cache.value); }
  }

  lemma {:induction false} ConfirmStep(sha: Bytes -> Bytes, build: Builder, actions: seq<Action>, n: nat, lane: Lane, l: LaneState, after: Scan)
    requires n < |actions| && actions[n] == Confirm(lane, after) && l.phase.Built? && LaneFrom(sha, build, actions, n, lane, l)
    ensures LaneFrom(sha, build, actions, n + 1, lane, Confirmed(sha, l, after))
  {
    var e: nat, m: nat :| LastStep(actions, lane, n, m) && Looks(actions, lane, e, m) && actions[e] == EndScan(lane, l.phase.contract, l.phase.before);
    Followed(actions, lane, n, m);
    assert Confirming(actions, lane, e, m, n) && LastStep(actions, lane, n + 1, n);
    var done := Confirmed(sha, l, after);
    assert ConfirmDecides(sha, build, actions, lane, e, n, done.phase.outcome);
    assert Decides(sha, build, actions, lane, n, done.phase.outcome);
    if Agrees(sha, actions, e, n) {
      assert Vouches(sha, actions, lane, e, n);
      assert LastVouched(sha, actions, lane, n + 1, e, n);
      assert Holds(sha, build, actions, lane, e, done.cache.value);
    } else {
      forall f ensures !Vouches(sha, actions, lane, f, n) {
        if Vouches(sha, actions, lane, f, n) { VouchedOnce(sha, actions, lane, e, m, f, n); }
      }
      CacheStays(sha, build, actions, n, lane, l.cache);
    }
  }

  /** The other steps of the leader. */
  lemma {:induction false} PlainStep(sha: Bytes -> Bytes, build: Builder, actions: seq<Action>, s: Scope, lane: Lane)
    requires s.clock < |actions| && Enabled(s, actions[s.clock]) && Leads(actions[s.clock], lane)
    requires !actions[s.clock].Lookup? && !actions[s.clock].Confirm?
    requires LaneFrom(sha, build, actions, s.clock, lane, LaneOf(s, lane))
    ensures LaneFrom(sha, build, actions, s.clock + 1, lane, LaneOf(Next(sha, build, s, actions[s.clock]), lane))
  {
    var n, a := s.clock, actions[s.clock];
    OnlyConfirmVouches(sha, actions, lane, n);
    CacheStays(sha, build, actions, n, lane, LaneOf(s, lane).cache);
    assert LastStep(actions, lane, n + 1, n);
    if a.Fail? { assert Decides(sha, build, actions, lane, n, Failed); }
  }

  lemma {:induction false} OutsideLeaves(sha: Bytes -> Bytes, build: Builder, s: Scope, a: Action, lane: Lane)
    requires Enabled(s, a) && !Leads(a, lane)
    ensures var l, l' := LaneOf(s, lane), LaneOf(Next(sha, build, s, a), lane);
            l'.cache == l.cache && (l'.phase == l.phase || l'.phase == Closed)
  {
  }

  /** An action that is not a step of the leader: at most a cohort is closed. */
  lemma {:induction false} OutsideStep(sha: Bytes -> Bytes, build: Builder, actions: seq<Action>, n: nat, lane: Lane, l: LaneState, l': LaneState)
    requires n < |actions| && !Leads(actions[n], lane) && LaneFrom(sha, build, actions, n, lane, l)
    requires l'.cache == l.cache && (l'.phase == l.phase || l'.phase == Closed)
    ensures LaneFrom(sha, build, actions, n + 1, lane, l')
  {
    OnlyConfirmVouches(sha, actions, lane, n);
    CacheStays(sha, build, actions, n, lane, l.cache);
    PhaseStays(sha, build, actions, n, lane, l.phase);
  }

  lemma {:induction false} LaneStep(sha: Bytes -> Bytes, build: Builder, actions: seq<Action>, s: Scope, s': Scope, lane: Lane)
    requires s.clock < |actions| && Enabled(s, actions[s.clock]) && s' == Next(sha, build, s, actions[s.clock])
    requires LaneFrom(sha, build, actions, s.clock, lane, LaneOf(s, lane))
    ensures LaneFrom(sha, build, actions, s.clock + 1, lane, LaneOf(s', lane))
  {
    var n, a := s.clock, actions[s.clock];
    if !Leads(a, lane) {
      OutsideLeaves(sha, build, s, a, lane);
      OutsideStep(sha, build, actions, n, lane, LaneOf(s, lane), LaneOf(s', lane));
    } else if a.Lookup? {
      LookupStep(sha, build, actions, n, lane, LaneOf(s, lane));
    } else if a.Confirm? {
      ConfirmStep(sha, build, actions, n, lane, LaneOf(s, lane), a.after);
    } else {
      PlainStep(sha, build, actions, s, lane);
    }
  }

  lemma {:induction false} StartLane(sha: Bytes -> Bytes, build: Builder, actions: seq<Action>, lane: Lane)
    ensures LaneFrom(sha, build, actions, 0, lane, LaneOf(START, lane))
  {
    assert LaneOf(START, lane) == EMPTY_LANE;
  }

  /** Action `k` of a run, at its moment. */
  ghost predicate Taken(sha: Bytes -> Bytes, build: Builder, ss: seq<Scope>, actions: seq<Action>, k: nat)
    requires k < |actions| < |ss|
  {
    ss[k].clock == k && Enabled(ss[k], actions[k]) && ss[k + 1] == Next(sha, build, ss[k], actions[k])
  }

  lemma {:induction false} StepsFrom(sha: Bytes -> Bytes, build: Builder, ss: seq<Scope>, actions: seq<Action>, i: nat, lane: Lane)
    requires i <= |actions| < |ss| && ss[0] == START
    requires forall k: nat {:trigger Taken(sha, build, ss, actions, k)} :: k < i ==> Taken(sha, build, ss, actions, k)
    ensures LaneFrom(sha, build, actions, i, lane, LaneOf(ss[i], lane))
  {
    if i == 0 {
      StartLane(sha, build, actions, lane);
    } else {
      assert Taken(sha, build, ss, actions, i - 1);
      StepsFrom(sha, build, ss, actions, i - 1, lane);
      LaneStep(sha, build, actions, ss[i - 1], ss[i], lane);
    }
  }

  lemma {:induction false} AllTaken(sha: Bytes -> Bytes, build: Builder, ss: seq<Scope>, actions: seq<Action>, k: nat)
    requires Run(sha, build, ss, actions) && k < |actions|
    ensures Taken(sha, build, ss, actions, k)
  {
    ClockCountsActions(sha, build, ss, actions, k);
  }

  lemma {:induction false} RunFrom(sha: Bytes -> Bytes, build: Builder, ss: seq<Scope>, actions: seq<Action>, i: nat, lane: Lane)
    requires Run(sha, build, ss, actions) && i < |ss|
    ensures LaneFrom(sha, build, actions, i, lane, LaneOf(ss[i], lane))
  {
    forall k: nat | k < i ensures Taken(sha, build, ss, actions, k) { AllTaken(sha, build, ss, actions, k); }
    StepsFrom(sha, build, ss, actions, i, lane);
  }

  // ----- the cohort from one leader's step to the next ---------------------------------------------------

  /** Between two steps of its leader an active lane changes nothing but its queue. */
  lemma {:induction false} Steady(sha: Bytes -> Bytes, build: Builder, ss: seq<Scope>, actions: seq<Action>, lane: Lane, i: nat, j: nat)
    requires i <= j <= |actions| < |ss| && NoneLeads(actions, lane, i, j) && LaneOf(ss[i], lane).active
    requires forall k: nat {:trigger Taken(sha, build, ss, actions, k)} :: i <= k < j ==> Taken(sha, build, ss, actions, k)
    ensures LaneOf(ss[j], lane) == LaneOf(ss[i], lane).(pending := LaneOf(ss[j], lane).pending)
    decreases j
  {
    if i < j {
      Steady(sha, build, ss, actions, lane, i, j - 1);
      assert Taken(sha, build, ss, actions, j - 1);
      SteadyStep(sha, build, ss[j - 1], actions[j - 1], lane);
    }
  }

  lemma {:induction false} SteadyStep(sha: Bytes -> Bytes, build: Builder, s: Scope, a: Action, lane: Lane)
    requires Enabled(s, a) && !Leads(a, lane) && LaneOf(s, lane).active
    ensures var l' := LaneOf(Next(sha, build, s, a), lane);
            l' == LaneOf(s, lane).(pending := l'.pending)
  {
  }

  /** A leader's step finds the lane as the step before left it. */
  lemma {:induction false} StepMeets(sha: Bytes -> Bytes, build: Builder, ss: seq<Scope>, actions: seq<Action>, lane: Lane, i: nat, j: nat)
    requires Run(sha, build, ss, actions) && NextStep(actions, lane, i, j) && LaneOf(ss[i + 1], lane).active
    ensures var l, m := LaneOf(ss[i + 1], lane), LaneOf(ss[j], lane);
            m.phase == l.phase && m.cache == l.cache && m.members == l.members && m.active
  {
    forall k: nat | i + 1 <= k < j ensures Taken(sha, build, ss, actions, k) { AllTaken(sha, build, ss, actions, k); }
    Steady(sha, build, ss, actions, lane, i + 1, j);
  }

  /** What a step of the leader other than publishing leaves. */
  lemma {:induction false} StepLeaves(sha: Bytes -> Bytes, build: Builder, ss: seq<Scope>, actions: seq<Action>, lane: Lane, i: nat)
    requires Run(sha, build, ss, actions) && i < |actions| && Leads(actions[i], lane) && !actions[i].Publish? && LaneOf(ss[i], lane).active
    ensures var l, l' := LaneOf(ss[i], lane), LaneOf(ss[i + 1], lane);
            && l'.active && l'.members == l.members && (!actions[i].Confirm? ==> l'.cache == l.cache)
            && (actions[i].Confirm? || actions[i].Fail? ==> l'.phase.Finished?)
            && (actions[i].Lookup? ==> l'.phase.Finished? || l'.phase.Built?)
  {
    AllTaken(sha, build, ss, actions, i);
  }

  lemma {:induction false} ActiveWhenLed(sha: Bytes -> Bytes, build: Builder, ss: seq<Scope>, actions: seq<Action>, lane: Lane, i: nat)
    requires IsHash(sha) && Run(sha, build, ss, actions) && i < |actions| && Leads(actions[i], lane) && NoClash(sha, ss[i].scans)
    ensures LaneOf(ss[i], lane).active
  {
    RunKeeps(sha, build, ss, actions, i);
    AllTaken(sha, build, ss, actions, i);
    assert LaneOk(build, ss[i], lane);
  }

  // ----- what it promises -----------------------------------------------------------------------------------

  /** The outcome of a round is handed to its whole cohort. */
  lemma {:induction false} CohortGets(sha: Bytes -> Bytes, build: Builder, ss: seq<Scope>, actions: seq<Action>, lane: Lane, p: nat, t: nat)
    requires IsHash(sha) && Run(sha, build, ss, actions) && p < |actions| && NoClash(sha, ss[p].scans)
    requires actions[p] == Publish(lane) && t in LaneOf(ss[p], lane).members
    ensures t in ss[p + 1].tickets && LaneOf(ss[p], lane).phase.Finished?
    ensures ss[p + 1].tickets[t].resolution.Some?
    ensures ss[p + 1].tickets[t].resolution.value.outcome == LaneOf(ss[p], lane).phase.outcome
  {
    RunKeeps(sha, build, ss, actions, p);
    AllTaken(sha, build, ss, actions, p);
    assert LaneOk(build, ss[p], lane) && Enrolled(ss[p], lane, t);
  }

  /** The confirming scan decides for the whole cohort: with the digest of the scan that was built
      on, everybody gets what the build made of that scan and the cache holds it; with any other
      digest everybody fails and the cache is as the lookup found it. */
  lemma {:induction false} ConfirmationDecides(sha: Bytes -> Bytes, build: Builder, ss: seq<Scope>, actions: seq<Action>, lane: Lane,
                                               e: nat, l: nat, c: nat, p: nat, t: nat)
    requires IsHash(sha) && Run(sha, build, ss, actions) && Confirming(actions, lane, e, l, c) && NextStep(actions, lane, c, p)
    requires NoClash(sha, ss[p].scans) && t in LaneOf(ss[l], lane).members
    ensures actions[p].Publish? && t in ss[p + 1].tickets && ss[p + 1].tickets[t].resolution.Some?
    ensures var outcome := ss[p + 1].tickets[t].resolution.value.outcome;
            var contract, before := actions[e].contract, actions[e].before;
            if Digest(sha, actions[c].after) == Digest(sha, before) then
              && outcome == Nodes(build(lane, contract, before), contract, before)
              && LaneOf(ss[p + 1], lane).cache == Some(Cached(contract, Digest(sha, before), outcome.nodes, before))
            else outcome == Failed && LaneOf(ss[p + 1], lane).cache == LaneOf(ss[l], lane).cache
  {
    ScansGrow(sha, build, ss, actions, l, p);
    ActiveWhenLed(sha, build, ss, actions, lane, l);
    StepLeaves(sha, build, ss, actions, lane, l);
    StepMeets(sha, build, ss, actions, lane, l, c);
    BuiltFrom(sha, build, ss, actions, lane, e, l, c);
    ConfirmLeaves(sha, build, ss, actions, lane, c);
    StepMeets(sha, build, ss, actions, lane, c, p);
    AllTaken(sha, build, ss, actions, p);
    CohortGets(sha, build, ss, actions, lane, p, t);
  }

  lemma {:induction false} BuiltFrom(sha: Bytes -> Bytes, build: Builder, ss: seq<Scope>, actions: seq<Action>, lane: Lane,
                                     e: nat, l: nat, c: nat)
    requires Run(sha, build, ss, actions) && Confirming(actions, lane, e, l, c)
    ensures LaneOf(ss[c], lane).phase.Built?
    ensures var q := LaneOf(ss[c], lane).phase;
            && EndScan(lane, q.contract, q.before) == actions[e] && q.nodes == build(lane, q.contract, q.before)
            && !Known(sha, actions, lane, l, e)
  {
    RunFrom(sha, build, ss, actions, c, lane);
    AllTaken(sha, build, ss, actions, c);
    var q := LaneOf(ss[c], lane).phase;
    var f: nat, m: nat :| LastStep(actions, lane, c, m) && Looks(actions, lane, f, m) && actions[f] == EndScan(lane, q.contract, q.before)
                          && q.nodes == build(lane, q.contract, q.before) && !Known(sha, actions, lane, m, f);
    Followed(actions, lane, c, m);
    StepBefore(actions, lane, l, m, c);
    StepBefore(actions, lane, e, f, l);
  }

  lemma {:induction false} ConfirmLeaves(sha: Bytes -> Bytes, build: Builder, ss: seq<Scope>, actions: seq<Action>, lane: Lane, c: nat)
    requires Run(sha, build, ss, actions) && c < |actions| && actions[c].Confirm? && actions[c].lane == lane && LaneOf(ss[c], lane).phase.Built?
    ensures var l, l' := LaneOf(ss[c], lane), LaneOf(ss[c + 1], lane);
            var same := Digest(sha, actions[c].after) == Digest(sha, l.phase.before);
            && l'.active == l.active && l'.members == l.members && l'.phase.Finished?
            && (same ==> l'.phase.outcome == Nodes(l.phase.nodes, l.phase.contract, l.phase.before)
                         && l'.cache == Some(Cached(l.phase.contract, Digest(sha, l.phase.before), l.phase.nodes, l.phase.before)))
            && (!same ==> l'.phase.outcome == Failed && l'.cache == l.cache)
  {
    AllTaken(sha, build, ss, actions, c);
  }

  /** What the stored graph is worth to a lookup: it is used exactly when the scan looked up has
      the contract and the digest of the last scan vouched for, and then the whole cohort gets
      what was built from that one, with this scan as its proof. */
  lemma {:induction false} LookupDecides(sha: Bytes -> Bytes, build: Builder, ss: seq<Scope>, actions: seq<Action>, lane: Lane,
                                         e: nat, l: nat, q: nat)
    requires IsHash(sha) && Run(sha, build, ss, actions) && Looks(actions, lane, e, l) && NextStep(actions, lane, l, q)
    requires NoClash(sha, ss[q].scans)
    ensures actions[q].Publish? <==> Known(sha, actions, lane, l, e)
    ensures actions[q].Publish? ==> forall t :: t in LaneOf(ss[l], lane).members ==>
              && t in ss[q + 1].tickets && ss[q + 1].tickets[t].resolution.Some?
              && HitDecides(sha, build, actions, lane, e, l, ss[q + 1].tickets[t].resolution.value.outcome)
  {
    ScansGrow(sha, build, ss, actions, l, q);
    ActiveWhenLed(sha, build, ss, actions, lane, l);
    StepLeaves(sha, build, ss, actions, lane, l);
    StepMeets(sha, build, ss, actions, lane, l, q);
    AllTaken(sha, build, ss, actions, q);
    LookupLeaves(sha, build, ss, actions, lane, e, l);
    forall t | t in LaneOf(ss[l], lane).members && actions[q].Publish?
      ensures t in ss[q + 1].tickets && ss[q + 1].tickets[t].resolution.Some?
      ensures HitDecides(sha, build, actions, lane, e, l, ss[q + 1].tickets[t].resolution.value.outcome)
    {
      CohortGets(sha, build, ss, actions, lane, q, t);
    }
  }

  lemma {:induction false} LookupLeaves(sha: Bytes -> Bytes, build: Builder, ss: seq<Scope>, actions: seq<Action>, lane: Lane, e: nat, l: nat)
    requires Run(sha, build, ss, actions) && Looks(actions, lane, e, l) && l + 1 < |ss|
    ensures var p := LaneOf(ss[l + 1], lane).phase;
            && (p.Finished? <==> Known(sha, actions, lane, l, e))
            && (p.Finished? ==> HitDecides(sha, build, actions, lane, e, l, p.outcome))
  {
    RunFrom(sha, build, ss, actions, l, lane);
    AllTaken(sha, build, ss, actions, l);
    LookupLooks(sha, build, actions, lane, e, l, LaneOf(ss[l], lane));
  }

  lemma {:induction false} LookupLooks(sha: Bytes -> Bytes, build: Builder, actions: seq<Action>, lane: Lane, e: nat, l: nat, s: LaneState)
    requires Looks(actions, lane, e, l) && s.phase.Scanned? && LaneFrom(sha, build, actions, l, lane, s)
    ensures var p := LookedUp(sha, build, lane, s).phase;
            && (p.Finished? <==> Known(sha, actions, lane, l, e))
            && (p.Finished? ==> HitDecides(sha, build, actions, lane, e, l, p.outcome))
  {
    var f: nat :| LastStep(actions, lane, l, f) && actions[f] == EndScan(lane, s.phase.contract, s.phase.before);
    Followed(actions, lane, l, f);
    StepBefore(actions, lane, e, f, l);
    MatchIsKnown(sha, build, actions, l, lane, s.cache, e);
    if LookedUp(sha, build, lane, s).phase.Finished? {
      HitStep(sha, build, actions, l, lane, e, s.cache.value);
      var g: nat :| Looks(actions, lane, g, l) && HitDecides(sha, build, actions, lane, g, l, LookedUp(sha, build, lane, s).phase.outcome);
      StepBefore(actions, lane, e, g, l);
    }
  }

  /** At action `p` the lane publishes outcome `o` to ticket `t`. */
  predicate Hands(ss: seq<Scope>, actions: seq<Action>, p: nat, lane: Lane, t: nat, o: Outcome) {
    p < |actions| < |ss| && actions[p] == Publish(lane) && LaneOf(ss[p], lane).phase.Finished?
    && t in LaneOf(ss[p], lane).members && LaneOf(ss[p], lane).phase.outcome == o
  }

  lemma {:induction false} HandedStep(sha: Bytes -> Bytes, build: Builder, ss: seq<Scope>, actions: seq<Action>, k: nat, t: nat)
    requires k < |actions| < |ss| && Taken(sha, build, ss, actions, k) && LanesOk(sha, build, ss[k])
    requires t in ss[k + 1].tickets && ss[k + 1].tickets[t].resolution.Some?
    ensures var now := ss[k + 1].tickets[t];
            || (t in ss[k].tickets && ss[k].tickets[t].lane == now.lane && ss[k].tickets[t].resolution == now.resolution)
            || Hands(ss, actions, k, now.lane, t, now.resolution.value.outcome)
  {
    var s, a := ss[k], actions[k];
    TicketMoved(sha, build, s, a, t);
    assert a.Publish? ==> LaneOk(build, s, a.lane);
    assert a.Publish? && t in LaneOf(s, a.lane).members ==> Enrolled(s, a.lane, t);
  }

  /** Where a ticket got its resolution. */
  lemma {:induction false} HandedAt(sha: Bytes -> Bytes, build: Builder, ss: seq<Scope>, actions: seq<Action>, i: nat, t: nat)
    returns (p: nat)
    requires i <= |actions| < |ss| && ss[0] == START && t in ss[i].tickets && ss[i].tickets[t].resolution.Some?
    requires forall k: nat {:trigger Taken(sha, build, ss, actions, k)} :: k < i ==>
               Taken(sha, build, ss, actions, k) && LanesOk(sha, build, ss[k])
    ensures p < i && Hands(ss, actions, p, ss[i].tickets[t].lane, t, ss[i].tickets[t].resolution.value.outcome)
  {
    assert i > 0 && Taken(sha, build, ss, actions, i - 1);
    HandedStep(sha, build, ss, actions, i - 1, t);
    if t in ss[i - 1].tickets && ss[i - 1].tickets[t].lane == ss[i].tickets[t].lane
       && ss[i - 1].tickets[t].resolution == ss[i].tickets[t].resolution {
      p := HandedAt(sha, build, ss, actions, i - 1, t);
    } else {
      p := i - 1;
    }
  }

  lemma {:induction false} PublishedAt(sha: Bytes -> Bytes, build: Builder, ss: seq<Scope>, actions: seq<Action>, i: nat, t: nat)
    returns (p: nat)
    requires IsHash(sha) && Run(sha, build, ss, actions) && i < |ss| && NoClash(sha, ss[i].scans)
    requires t in ss[i].tickets && ss[i].tickets[t].resolution.Some?
    ensures p < i && Hands(ss, actions, p, ss[i].tickets[t].lane, t, ss[i].tickets[t].resolution.value.outcome)
  {
    forall k: nat | k < i ensures Taken(sha, build, ss, actions, k) && LanesOk(sha, build, ss[k]) {
      ScansGrow(sha, build, ss, actions, k, i);
      RunKeeps(sha, build, ss, actions, k);
      AllTaken(sha, build, ss, actions, k);
    }
    p := HandedAt(sha, build, ss, actions, i, t);
  }

  /** Every published success was confirmed: the leader's last step `q` before the publishing is
      either the confirming scan of its own scan `e`, with the same digest, or the lookup of `e`,
      and then `e` has the contract and the digest of the last scan vouched for by then. */
  lemma {:induction false} SuccessConfirmed(sha: Bytes -> Bytes, build: Builder, ss: seq<Scope>, actions: seq<Action>, i: nat, t: nat)
    returns (e: nat, q: nat, p: nat)
    requires IsHash(sha) && Run(sha, build, ss, actions) && i < |ss| && NoClash(sha, ss[i].scans)
    requires t in ss[i].tickets && ss[i].tickets[t].resolution.Some? && ss[i].tickets[t].resolution.value.outcome.Nodes?
    ensures var lane, o := ss[i].tickets[t].lane, ss[i].tickets[t].resolution.value.outcome;
            && e < q < p < i && actions[p] == Publish(lane) && NextStep(actions, lane, q, p)
            && actions[e] == EndScan(lane, o.contract, o.proof)
            && (actions[q].Confirm? ==> Vouches(sha, actions, lane, e, q) && o.nodes == build(lane, o.contract, o.proof))
            && (!actions[q].Confirm? ==> Looks(actions, lane, e, q) && Known(sha, actions, lane, q, e)
                                         && HitDecides(sha, build, actions, lane, e, q, o))
  {
    var lane, o := ss[i].tickets[t].lane, ss[i].tickets[t].resolution.value.outcome;
    p := PublishedAt(sha, build, ss, actions, i, t);
    RunFrom(sha, build, ss, actions, p, lane);
    q :| LastStep(actions, lane, p, q) && Decides(sha, build, actions, lane, q, o);
    Followed(actions, lane, p, q);
    e := DecidedFrom(sha, build, actions, lane, q, o);
  }

  lemma {:induction false} DecidedFrom(sha: Bytes -> Bytes, build: Builder, actions: seq<Action>, lane: Lane, q: nat, o: Outcome)
    returns (e: nat)
    requires q < |actions| && Leads(actions[q], lane) && Decides(sha, build, actions, lane, q, o) && o.Nodes?
    ensures e < q && actions[e] == EndScan(lane, o.contract, o.proof)
    ensures actions[q].Confirm? ==> Vouches(sha, actions, lane, e, q) && o.nodes == build(lane, o.contract, o.proof)
    ensures !actions[q].Confirm? ==> Looks(actions, lane, e, q) && Known(sha, actions, lane, q, e)
                                     && HitDecides(sha, build, actions, lane, e, q, o)
  {
    if actions[q].Confirm? {
      var f: nat, l: nat :| Confirming(actions, lane, f, l, q) && ConfirmDecides(sha, build, actions, lane, f, q, o);
      e := f;
      assert Vouches(sha, actions, lane, e, q);
    } else {
      e :| Looks(actions, lane, e, q) && HitDecides(sha, build, actions, lane, e, q, o);
    }
  }
}
