/** What the invariant means for every run of the command-app manager. */
module SupervisorRuns {
  import opened Text
  import opened RestartBudget
  import opened SupervisorWorld
  import opened SupervisorInvariants

  lemma StepKeeps(w: World, e: Event)
    requires Inv(w) && Enabled(w, e)
    ensures Inv(Apply(w, e))
  {
    match e
    case Tick(now) => TickKeeps(w, now);
    case ChildExits(p) => ChildExitsKeeps(w, p);
    case Handle(key, autostart, outcome) => HandleKeeps(w, key, autostart, outcome);
    case HandleAsync(key, autostart, refused, missing) => HandleAsyncKeeps(w, key, autostart, refused, missing);
    case Lazy(p, outcome) => LazyKeeps(w, p, outcome);
    case Restart(key, outcome) => RestartKeeps(w, key, outcome);
    case Reconcile(gone) => ReconcileKeeps(w, gone);
    case StarterChecks(s) => CheckKeeps(w, s);
    case StarterLaunches(s) => LaunchKeeps(w, s);
    case StarterCannotLaunch(s) => NoLaunchKeeps(w, s);
    case StarterHealthy(s) => HealthyKeeps(w, s);
    case StarterUnhealthy(s) => UnhealthyKeeps(w, s);
    case StarterPublishes(s) => PublishKeeps(w, s);
    case StarterDiscards(s) => DiscardKeeps(w, s);
    case StarterGivesUp(s) => GiveUpKeeps(w, s);
    case StarterCancelled(s) => CancelledKeeps(w, s);
    case MonitorObserves(p) => ObserveKeeps(w, p);
    case MonitorMisses(p) => MissKeeps(w, p);
    case MonitorDecides(p) => DecideKeeps(w, p);
    case MonitorFires(p, outcome) => DelayKeeps(w, p, outcome);
    case CloseBegins => BeginKeeps(w);
    case CloseSweeps(order) => SweepKeeps(w, order);
    case CloseKills(p) => KillKeeps(w, p);
  }

  lemma {:induction false} RunKeeps(w: World, events: seq<Event>)
    requires Inv(w) && Runs(w, events)
    ensures Inv(After(w, events))
    decreases |events|
  {
    if events != [] {
      StepKeeps(w, events[0]);
      RunKeeps(Apply(w, events[0]), events[1..]);
    }
  }

  lemma {:induction false} RunThenStep(w: World, events: seq<Event>, e: Event)
    requires Runs(w, events) && Enabled(After(w, events), e)
    ensures Runs(w, events + [e]) && After(w, events + [e]) == Apply(After(w, events), e)
    decreases |events|
  {
    var longer := events + [e];
    if events == [] {
      assert longer[0] == e && longer[1..] == [];
    } else {
      RunThenStep(Apply(w, events[0]), events[1..], e);
      assert longer[0] == events[0] && longer[1..] == events[1..] + [e];
    }
  }

  /** Some interleaving of the manager's actors leads from an empty manager to `w`. */
  ghost predicate Reachable(w: World) {
    exists events :: Runs(INITIAL, events) && After(INITIAL, events) == w
  }

  lemma ReachableInitial()
    ensures Reachable(INITIAL)
  {
    assert Runs(INITIAL, []) && After(INITIAL, []) == INITIAL;
  }

  lemma ReachableStep(w: World, e: Event)
    requires Reachable(w) && Enabled(w, e)
    ensures Reachable(Apply(w, e))
  {
    var events :| Runs(INITIAL, events) && After(INITIAL, events) == w;
    RunThenStep(INITIAL, events, e);
  }

  lemma ReachableInv(w: World)
    requires Reachable(w)
    ensures Inv(w)
  {
    var events :| Runs(INITIAL, events) && After(INITIAL, events) == w;
    RunKeeps(INITIAL, events);
  }

  // ---- Ownership ------------------------------------------------------------------------------

  datatype Owner = TheMap(key: Key) | TheStarter(of: Pid) | TheShutdown

  /** Someone whose remaining steps close or publish the child of record `p`. */
  ghost predicate OwnedBy(w: World, p: Pid, owner: Owner)
    requires IsRecord(w, p)
  {
    match owner
    case TheMap(key) => key in w.entries && w.entries[key] == p
    case TheStarter(s) => IsRecord(w, s) && ChildOf(w.records[s].starter) == Some(p)
    case TheShutdown => w.records[p].toClose
  }

  /** In every interleaving, each live child has exactly one owner. */
  lemma EveryChildHasOneOwner(w: World, p: Pid)
    requires Reachable(w) && IsRecord(w, p) && w.records[p].child == Live
    ensures exists owner :: OwnedBy(w, p, owner) && forall other :: OwnedBy(w, p, other) ==> other == owner
  {
    ReachableInv(w);
    assert RecordOk(w, p);
    HeldIsUnplaced(w, p);
    var owner := if w.records[p].toClose then TheShutdown
                 else if Current(w, p) then TheMap(w.records[p].key)
                 else TheStarter(w.records[p].launchedBy.value);
    assert OwnedBy(w, p, owner);
    forall other | OwnedBy(w, p, other) ensures other == owner {
      match other
      case TheMap(key) => assert EntryOk(w, key);
      case TheStarter(s) => assert RecordOk(w, s);
      case TheShutdown =>
    }
  }

  /** The call that shut the manager down has closed everything on its list. */
  ghost predicate CloseReturned(w: World) {
    w.swept && forall p | 0 <= p < |w.records| :: !w.records[p].toClose
  }

  ghost predicate NothingLives(w: World) {
    forall p | 0 <= p < |w.records| :: w.records[p].child != Live
  }

  lemma NoStarterAfterSweep(w: World)
    requires Inv(w) && w.swept
    ensures forall s | 0 <= s < |w.records| :: w.records[s].starter.None?
  {
    forall s: Pid | s < |w.records| ensures w.records[s].starter.None? {
      assert RecordOk(w, s);
    }
  }

  /** Once shutdown has returned, a child lives only as the entry of a lazy start that began after
      the map was emptied; without such a start nothing lives. */
  lemma NothingLivesAfterClose(w: World)
    requires Reachable(w) && CloseReturned(w)
    ensures forall p | 0 <= p < |w.records| && w.records[p].child == Live :: Current(w, p) && w.lateLazy
    ensures !w.lateLazy ==> NothingLives(w) && w.entries == map[]
  {
    ReachableInv(w);
    NoStarterAfterSweep(w);
    forall p: Pid | p < |w.records| && w.records[p].child == Live ensures Current(w, p) && w.lateLazy {
      assert RecordOk(w, p);
      assert EntryOk(w, w.records[p].key);
    }
    forall key ensures key in w.entries ==> w.lateLazy {
      assert EntryOk(w, key);
    }
  }

  /** After shutdown returned, one kind of event brings a child back to life, and always does:
      a request to a lazy route whose start succeeds and whose key nobody else holds. */
  lemma OnlyALazyStartRevives(w: World, e: Event)
    requires Reachable(w) && CloseReturned(w) && NothingLives(w) && Enabled(w, e)
    ensures !NothingLives(Apply(w, e)) <==>
            e.Lazy? && e.outcome.Healthy?
            && (w.records[e.p].key in w.entries ==> w.entries[w.records[e.p].key] == e.p)
  {
    ReachableInv(w);
    NoStarterAfterSweep(w);
    if e.Reconcile? {
      TakenAtOnce(w, e.gone, CloseNow);
    }
    if e.Lazy? && e.outcome.Healthy?
       && (w.records[e.p].key in w.entries ==> w.entries[w.records[e.p].key] == e.p) {
      assert Apply(w, e).records[|w.records|].child == Live;
    }
  }

  ghost predicate LivesFor(w: World, p: Pid, key: Key) {
    IsRecord(w, p) && w.records[p].child == Live && w.records[p].key == key
  }

  /** Any lazy app requested after shutdown returned: a child of it that nothing will close. */
  lemma ALateLazyStartLeaks(key: Key)
    ensures exists w, p :: Reachable(w) && CloseReturned(w) && LivesFor(w, p, key)
  {
    var w := ShutDownLazyApp(key);
    LateRequest(key, w);
    ReachableStep(w, Lazy(0, Healthy(1)));
  }

  /** The only app is a lazy one nobody has asked for yet; later shutdown has taken it out. */
  function LazyApp(key: Key): World {
    World(map[key := 0], [NewRecord(key).(proxy := LazyPage(0), mount := Some(0))], [Route(key, LazyPage(0))],
          false, false, false, 0)
  }

  lemma ShutDownLazyApp(key: Key) returns (w: World)
    ensures Reachable(w) && w.swept && w.entries == map[] && |w.mounts| == 1
    ensures w.records == [LazyApp(key).records[0].(closed := true)]
  {
    ReachableInitial();
    ReachableStep(INITIAL, HandleAsync(key, false, false, false));
    assert Apply(INITIAL, HandleAsync(key, false, false, false)) == LazyApp(key);
    ReachableStep(LazyApp(key), CloseBegins);
    var listed := SweptLazyApp(key);
    ReachableStep(listed, CloseKills(0));
    w := Apply(listed, CloseKills(0));
  }

  lemma SweptLazyApp(key: Key) returns (listed: World)
    requires Reachable(LazyApp(key).(closed := true))
    ensures Reachable(listed) && listed.swept && listed.entries == map[] && |listed.mounts| == 1
    ensures listed.records == [LazyApp(key).records[0].(toClose := true)]
  {
    var closing := LazyApp(key).(closed := true);
    assert TakeAll(closing, [key], CloseLater) == TakeOne(closing, key, CloseLater) by {
      assert [key][..0] == [];
    }
    ReachableStep(closing, CloseSweeps([key]));
    listed := Apply(closing, CloseSweeps([key]));
  }

  lemma LateRequest(key: Key, w: World)
    requires |w.records| == |w.mounts| == 1 && w.records[0].mount == Some(0) && w.records[0].key == key
    requires w.records[0].status == Stopped && !w.records[0].toClose && w.swept && key !in w.entries
    ensures Enabled(w, Lazy(0, Healthy(1)))
    ensures var v := Apply(w, Lazy(0, Healthy(1))); CloseReturned(v) && LivesFor(v, 1, key)
  {
  }

  /** A second `Close` call returns as soon as shutdown has begun and no starter is left. */
  ghost predicate SecondCloseReturns(w: World) {
    w.closed && forall p | 0 <= p < |w.records| :: w.records[p].starter.None?
  }

  /** It may return while a child of any app still runs; then the first call has that child left to
      close, unless it came from a late lazy start. */
  lemma SecondCloseMayReturnEarly(key: Key)
    ensures exists w, p :: Reachable(w) && SecondCloseReturns(w) && LivesFor(w, p, key)
    ensures forall w, p | Reachable(w) && SecondCloseReturns(w) && 0 <= p < |w.records|
                          && w.records[p].child == Live :: Current(w, p) || w.records[p].toClose
  {
    var start := Handle(key, true, Healthy(1));
    var w1 := Apply(INITIAL, start);
    ReachableInitial();
    ReachableStep(INITIAL, start);
    ReachableStep(w1, CloseBegins);
    var w2 := Apply(w1, CloseBegins);
    assert SecondCloseReturns(w2) && LivesFor(w2, 0, key);
    forall w, p: Pid | Reachable(w) && SecondCloseReturns(w) && p < |w.records| && w.records[p].child == Live
      ensures Current(w, p) || w.records[p].toClose
    {
      LivesWithTheMapOrTheList(w, p);
    }
  }

  lemma LivesWithTheMapOrTheList(w: World, p: Pid)
    requires Reachable(w) && SecondCloseReturns(w) && IsRecord(w, p) && w.records[p].child == Live
    ensures Current(w, p) || w.records[p].toClose
  {
    ReachableInv(w);
    assert RecordOk(w, p);
  }

  /** Exactly when a returned second call leaves nothing running: no entry of the map and no record
      on the first call's list has a live child. */
  lemma SecondCloseLeavesNothingExactly(w: World)
    requires Reachable(w) && SecondCloseReturns(w)
    ensures NothingLives(w) <==>
              && (forall key | key in w.entries :: !LivesFor(w, w.entries[key], key))
              && (forall p | 0 <= p < |w.records| && w.records[p].toClose :: w.records[p].child != Live)
  {
    ReachableInv(w);
    forall p: Pid | p < |w.records| && w.records[p].child == Live
      ensures Current(w, p) || w.records[p].toClose
    {
      LivesWithTheMapOrTheList(w, p);
    }
  }

  // ---- The restart budget -----------------------------------------------------------------------

  /** A monitor that finds its process current restarts it exactly when fewer than five exits of
      the chain, this one included, lie in the window; otherwise the app has crashed. */
  lemma RestartsExactlyBelowFive(w: World, p: Pid)
    requires Reachable(w) && Enabled(w, MonitorDecides(p)) && !w.closed && Current(w, p)
    ensures var now := w.records[p].monitor.value.now;
            var exits := w.records[p].exits + [now];
            var after := Apply(w, MonitorDecides(p)).records[p];
            && after.exits == exits && AllBy(exits, now)
            && after.failureTimes == Recent(exits, now)
            && (after.monitor == Some(Delaying) <==> |WindowPositions(exits, now)| < MAXIMUM_START_ATTEMPTS)
            && (after.status == if after.monitor.Some? then Starting else Crashed)
  {
    ReachableInv(w);
    assert RecordOk(w, p);
    BookingCounts(w.records[p], w.records[p].monitor.value.now);
  }

  lemma BookingCounts(r: Record, now: Time)
    requires Tracks(r.failureTimes, r.exits) && AllBy(r.exits, now)
    ensures Booked(r, now).failureTimes == Recent(r.exits + [now], now)
    ensures |Booked(r, now).failureTimes| == |WindowPositions(r.exits + [now], now)|
  {
    TracksAfterExit(r.failureTimes, r.exits, now);
    RecentCountsTheWindow(r.exits + [now], now);
  }

  /** A chain whose exits lie in one window launches at most fifteen children, and no snapshot
      ever shows more than five attempts. */
  lemma ChainsAreBounded(w: World, p: Pid)
    requires Reachable(w) && IsRecord(w, p)
    ensures w.records[p].attempts <= MAXIMUM_START_ATTEMPTS
    ensures Compact(w.records[p].exits) ==> w.records[p].launches <= 15
  {
    ReachableInv(w);
    assert RecordOk(w, p);
  }

  /** A restart always has an attempt left to make. */
  lemma RestartHasAnAttempt(w: World, p: Pid, outcome: Outcome)
    requires Reachable(w) && Enabled(w, MonitorFires(p, outcome))
    ensures 1 <= MAXIMUM_START_ATTEMPTS - |w.records[p].failureTimes|
  {
    ReachableInv(w);
    assert RecordOk(w, p);
  }

  // ---- Routes ---------------------------------------------------------------------------------

  /** The route of every entry serves what the entry's status promises. */
  lemma RoutesFollowStatus(w: World, key: Key)
    requires Reachable(w) && key in w.entries
    ensures var p := w.entries[key];
            HasMount(w, p) && Serves(w.records[p].status, p, w.mounts[w.records[p].mount.value].target)
  {
    ReachableInv(w);
    assert EntryOk(w, key);
    assert RecordOk(w, w.entries[key]);
  }

  ghost predicate SameRoute(w: World, v: World, key: Key) {
    key in w.entries && key in v.entries ==>
      && IsRecord(w, w.entries[key]) && IsRecord(v, v.entries[key])
      && v.records[v.entries[key]].mount == w.records[w.entries[key]].mount
  }

  /** While a key stays in the map its route object stays the same object. */
  lemma RouteKeepsItsIdentity(w: World, e: Event, key: Key)
    requires Reachable(w) && Enabled(w, e)
    ensures SameRoute(w, Apply(w, e), key)
  {
    ReachableInv(w);
    assert EntryOk(w, key);
    match e
    case Handle(_, _, _) => FirstStartsKeepRoutes(w, e, key);
    case HandleAsync(_, _, _, _) => FirstStartsKeepRoutes(w, e, key);
    case Lazy(p, outcome) => LazyKeepsRoutes(w, p, outcome, key);
    case Restart(k, outcome) => RestartKeepsRoutes(w, k, outcome, key);
    case StarterPublishes(s) => PublishKeepsRoutes(w, s, key);
    case StarterGivesUp(s) => GiveUpKeepsRoutes(w, s, key);
    case MonitorFires(p, outcome) => DelayKeepsRoutes(w, p, outcome, key);
    case _ => OtherEventsKeepRoutes(w, e, key);
  }

  lemma FirstStartsKeepRoutes(w: World, e: Event, key: Key)
    requires Inv(w) && EntryOk(w, key) && Enabled(w, e) && (e.Handle? || e.HandleAsync?)
    ensures SameRoute(w, Apply(w, e), key)
  {
  }

  lemma LazyKeepsRoutes(w: World, p: Pid, outcome: Outcome, key: Key)
    requires Inv(w) && EntryOk(w, key) && HasMount(w, p) && Possible(outcome, [])
    ensures SameRoute(w, AfterLazy(w, p, outcome), key)
  {
  }

  lemma RestartKeepsRoutes(w: World, k: Key, outcome: Outcome, key: Key)
    requires Inv(w) && EntryOk(w, key) && (k in w.entries ==> HasMount(w, w.entries[k]))
    ensures SameRoute(w, AfterRestart(w, k, outcome), key)
  {
    assert EntryOk(w, k);
  }

  lemma PublishKeepsRoutes(w: World, s: Pid, key: Key)
    requires Inv(w) && EntryOk(w, key) && StarterAt(w, s) && w.records[s].starter.value.Publish?
    ensures SameRoute(w, AfterPublish(w, s), key)
  {
    assert RecordOk(w, s);
  }

  lemma GiveUpKeepsRoutes(w: World, s: Pid, key: Key)
    requires Inv(w) && EntryOk(w, key) && StarterAt(w, s) && w.records[s].starter.value.GiveUp?
    ensures SameRoute(w, AfterGiveUp(w, s), key)
  {
  }

  lemma DelayKeepsRoutes(w: World, p: Pid, outcome: Outcome, key: Key)
    requires Inv(w) && EntryOk(w, key) && MonitorAt(w, p) && Possible(outcome, w.records[p].failureTimes)
    ensures SameRoute(w, AfterDelay(w, p, outcome), key)
  {
    if !w.closed && Current(w, p) {
      RestartOfChainKeepsRoutes(w, p, outcome, key);
    }
  }

  lemma RestartOfChainKeepsRoutes(w: World, p: Pid, outcome: Outcome, key: Key)
    requires EntryOk(w, key) && MonitorAt(w, p) && Possible(outcome, w.records[p].failureTimes)
    requires !w.closed && Current(w, p)
    ensures SameRoute(w, AfterDelay(w, p, outcome), key)
  {
  }

  lemma OtherEventsKeepRoutes(w: World, e: Event, key: Key)
    requires Inv(w) && EntryOk(w, key) && Enabled(w, e)
    requires !e.Handle? && !e.HandleAsync? && !e.Lazy? && !e.Restart?
    requires !e.StarterPublishes? && !e.StarterGivesUp? && !e.MonitorFires?
    ensures SameRoute(w, Apply(w, e), key)
  {
    if Actor(e).Some? {
      OtherActorsKeepRoutes(w, e, key);
    } else if e.Reconcile? {
      TakenAtOnce(w, e.gone, CloseNow);
    } else if e.CloseSweeps? {
      TakenAtOnce(w, e.order, CloseLater);
    }
  }

  lemma OtherActorsKeepRoutes(w: World, e: Event, key: Key)
    requires EntryOk(w, key) && Enabled(w, e) && Actor(e).Some?
    requires !e.StarterPublishes? && !e.StarterGivesUp? && !e.MonitorFires?
    ensures SameRoute(w, Apply(w, e), key)
  {
    match e
    case StarterLaunches(s) => LaunchKeepsRoutes(w, s, key);
    case StarterUnhealthy(s) => ReleaseKeepsRoutes(w, s, key);
    case StarterDiscards(s) => DiscardKeepsRoutes(w, s, key);
    case MonitorDecides(p) => DecisionKeepsRoutes(w, p, key);
    case _ => OneRecordKeepsRoutes(w, e, key);
  }

  lemma LaunchKeepsRoutes(w: World, s: Pid, key: Key)
    requires EntryOk(w, key) && StarterAt(w, s) && w.records[s].starter.value.Launch?
    ensures SameRoute(w, AfterLaunch(w, s), key)
  {
  }

  lemma ReleaseKeepsRoutes(w: World, s: Pid, key: Key)
    requires EntryOk(w, key) && StarterAt(w, s) && w.records[s].starter.value.Probe?
    ensures SameRoute(w, AfterUnhealthy(w, s), key)
  {
  }

  lemma DiscardKeepsRoutes(w: World, s: Pid, key: Key)
    requires EntryOk(w, key) && StarterAt(w, s) && w.records[s].starter.value.Discard?
    ensures SameRoute(w, AfterDiscard(w, s), key)
  {
  }

  lemma DecisionKeepsRoutes(w: World, p: Pid, key: Key)
    requires EntryOk(w, key) && MonitorAt(w, p) && w.records[p].monitor.value.Observed?
    ensures SameRoute(w, AfterDecide(w, p), key)
  {
  }

  lemma OneRecordKeepsRoutes(w: World, e: Event, key: Key)
    requires EntryOk(w, key) && Enabled(w, e)
    requires e.StarterChecks? || e.StarterCannotLaunch? || e.StarterHealthy? || e.StarterCancelled?
             || e.MonitorObserves? || e.MonitorMisses?
    ensures SameRoute(w, Apply(w, e), key)
  {
  }

  /** The process a starter or monitor event works for. */
  function Actor(e: Event): Option<Pid> {
    match e
    case StarterChecks(s) => Some(s)
    case StarterLaunches(s) => Some(s)
    case StarterCannotLaunch(s) => Some(s)
    case StarterHealthy(s) => Some(s)
    case StarterUnhealthy(s) => Some(s)
    case StarterPublishes(s) => Some(s)
    case StarterDiscards(s) => Some(s)
    case StarterGivesUp(s) => Some(s)
    case StarterCancelled(s) => Some(s)
    case MonitorObserves(p) => Some(p)
    case MonitorMisses(p) => Some(p)
    case MonitorDecides(p) => Some(p)
    case MonitorFires(p, _) => Some(p)
    case _ => None
  }

  /** A starter or monitor whose process is no longer the entry, or that outlived shutdown's
      beginning, changes neither the map nor any route. */
  lemma StaleActorsChangeNothing(w: World, e: Event)
    requires Enabled(w, e) && Actor(e).Some? && (w.closed || !Current(w, Actor(e).value))
    ensures Apply(w, e).entries == w.entries && Apply(w, e).mounts == w.mounts
  {
    if e.MonitorObserves? || e.MonitorMisses? || e.MonitorDecides? || e.MonitorFires? {
      StaleMonitorsChangeNothing(w, e);
    } else {
      StaleStartersChangeNothing(w, e);
    }
  }

  lemma StaleMonitorsChangeNothing(w: World, e: Event)
    requires e.MonitorObserves? || e.MonitorMisses? || e.MonitorDecides? || e.MonitorFires?
    requires Enabled(w, e) && (w.closed || !Current(w, e.p))
    ensures Apply(w, e).entries == w.entries && Apply(w, e).mounts == w.mounts
  {
  }

  lemma StaleStartersChangeNothing(w: World, e: Event)
    requires Actor(e).Some?
    requires !(e.MonitorObserves? || e.MonitorMisses? || e.MonitorDecides? || e.MonitorFires?)
    requires Enabled(w, e) && (w.closed || !Current(w, e.s))
    ensures Apply(w, e).entries == w.entries && Apply(w, e).mounts == w.mounts
  {
    if e.StarterPublishes? || e.StarterDiscards? || e.StarterGivesUp? || e.StarterCancelled? {
      StaleEndingsChangeNothing(w, e);
    }
  }

  lemma StaleEndingsChangeNothing(w: World, e: Event)
    requires e.StarterPublishes? || e.StarterDiscards? || e.StarterGivesUp? || e.StarterCancelled?
    requires Enabled(w, e) && (w.closed || !Current(w, e.s))
    ensures Apply(w, e).entries == w.entries && Apply(w, e).mounts == w.mounts
  {
  }

  /** Until shutdown begins nobody forgets an entry: a ready process is watched by a monitor that
      has not yet booked its exit, a starting one has a starter or a pending restart. */
  lemma NoEntryIsAbandoned(w: World, key: Key)
    requires Reachable(w) && !w.closed && key in w.entries && IsRecord(w, w.entries[key])
    ensures var r := w.records[w.entries[key]];
            && (r.status == Ready ==> r.monitor.Some? && !r.monitor.value.Delaying?)
            && (r.status == Starting ==> r.starter.Some? || r.monitor == Some(Delaying))
            && (r.child == Live ==> r.status == Ready)
  {
    ReachableInv(w);
    assert EntryOk(w, key);
    assert RecordOk(w, w.entries[key]);
  }

  /** What the manager's critical sections ask of the state they find always holds. */
  lemma SectionsFindTheirState(w: World)
    requires Reachable(w)
    ensures forall key | key in w.entries :: HasMount(w, w.entries[key]) && w.records[w.entries[key]].key == key
    ensures forall p: Pid | IsRecord(w, p) ::
              |w.records[p].failureTimes| <= MAXIMUM_START_ATTEMPTS
              && (w.records[p].starter.Some? || w.records[p].monitor.Some? ==> HasMount(w, p))
    ensures forall s: Pid | IsRecord(w, s) && ChildOf(w.records[s].starter).Some? ::
              var child := ChildOf(w.records[s].starter).value;
              child != s && IsRecord(w, child) && w.records[child].key == w.records[s].key
  {
    ReachableInv(w);
    forall key | key in w.entries
      ensures HasMount(w, w.entries[key]) && w.records[w.entries[key]].key == key
    {
      assert EntryOk(w, key);
      assert RecordOk(w, w.entries[key]);
    }
    forall p: Pid | IsRecord(w, p)
      ensures |w.records[p].failureTimes| <= MAXIMUM_START_ATTEMPTS
      ensures w.records[p].starter.Some? || w.records[p].monitor.Some? ==> HasMount(w, p)
    {
      assert RecordOk(w, p);
    }
    forall s: Pid | IsRecord(w, s) && ChildOf(w.records[s].starter).Some?
      ensures var child := ChildOf(w.records[s].starter).value;
              child != s && IsRecord(w, child) && w.records[child].key == w.records[s].key
    {
      assert RecordOk(w, s);
    }
  }
}
