/** The restart budget over whole runs. A chain of automatic restarts is read off the events alone;
    every entry's stored failures and counts are proved to be those of its chain. */
module SupervisorChains {
  import opened Text
  import opened RestartBudget
  import opened SupervisorWorld
  import opened SupervisorInvariants
  import opened SupervisorRuns
  import opened SupervisorStarts

  /** The exits after health since the last fresh start of an app, and the attempts made since then. */
  datatype Chain = Chain(exits: seq<Time>, launches: nat)

  const FRESH: Chain := Chain([], 0)

  /** The exits that were inside the window at the chain's last exit. */
  ghost function InWindow(exits: seq<Time>): nat {
    if exits == [] then 0 else |WindowPositions(exits, exits[|exits| - 1])|
  }

  /** The attempts one synchronous start makes when `used` of the five are used up. */
  function Spent(outcome: Outcome, used: nat): nat {
    match outcome
    case Healthy(n) => n
    case Exhausted => if used <= 5 then 5 - used else 0
    case _ => 0
  }

  /** Does the event start the app afresh, and with how many attempts at once? */
  ghost function FreshStart(w: World, e: Event, key: Key): Option<nat>
    requires Enabled(w, e)
  {
    match e
    case Handle(k, autostart, outcome) =>
      if k == key && !w.closed && key !in w.entries && !(autostart && outcome.Refused?)
      then Some(if autostart then Spent(outcome, 0) else 0) else None
    case HandleAsync(k, autostart, refused, _) =>
      if k == key && !w.closed && key !in w.entries && !(autostart && refused) then Some(0) else None
    case Lazy(p, outcome) =>
      if w.records[p].key == key && (key in w.entries ==> w.entries[key] == p) then Some(Spent(outcome, 0)) else None
    case Restart(k, outcome) =>
      if k == key && !w.closed && key in w.entries && w.records[w.entries[key]].status != Starting
      then Some(Spent(outcome, 0)) else None
    case _ => None
  }

  predicate IsEntry(w: World, p: Pid, key: Key) {
    key in w.entries && w.entries[key] == p
  }

  /** How an event continues the chain of `key`: an exit the monitor books, an attempt of the entry's
      starter, the attempts of an automatic restart. */
  ghost function NextChain(w: World, e: Event, key: Key, c: Chain): Chain
    requires Enabled(w, e)
  {
    if FreshStart(w, e, key).Some? then Chain([], FreshStart(w, e, key).value)
    else
      match e
      case StarterLaunches(s) => if IsEntry(w, s, key) then c.(launches := c.launches + 1) else c
      case StarterCannotLaunch(s) => if IsEntry(w, s, key) then c.(launches := c.launches + 1) else c
      case MonitorDecides(p) =>
        if IsEntry(w, p, key) && !w.closed then c.(exits := c.exits + [w.records[p].monitor.value.now]) else c
      case MonitorFires(p, outcome) =>
        if IsEntry(w, p, key) && !w.closed then c.(launches := c.launches + Spent(outcome, InWindow(c.exits))) else c
      case _ => c
  }

  ghost function ChainAfter(w: World, events: seq<Event>, key: Key, c: Chain): Chain
    requires Runs(w, events)
    decreases |events|
  {
    if events == [] then c else ChainAfter(Apply(w, events[0]), events[1..], key, NextChain(w, events[0], key, c))
  }

  // ---- The stored fields follow the chain -----------------------------------------------------

  /** Attempts a starter has begun at each of its positions. */
  predicate Begun(starter: Starter, launches: nat) {
    match starter
    case Check(n) => launches + 1 == n
    case Launch(n) => launches + 1 == n
    case Probe(n, _) => launches == n
    case Publish(n, _) => launches == n
    case Discard(_) => launches <= 5
    case GiveUp => launches == 5
  }

  /** Shutdown ended the starter in the middle. */
  predicate IsCutShort(r: Record, c: Chain) {
    r.status == Starting && r.monitor.None? && c.exits == [] && c.launches <= 5
  }

  ghost predicate RecordFollows(r: Record, c: Chain) {
    && r.exits == c.exits
    && (r.starter.Some? ==> c.exits == [] && c.launches <= 5 && Begun(r.starter.value, c.launches))
    && (r.starter.None? ==> r.launches == c.launches || IsCutShort(r, c))
  }

  ghost predicate Follows(w: World, key: Key, c: Chain) {
    key in w.entries ==> IsRecord(w, w.entries[key]) && RecordFollows(w.records[w.entries[key]], c)
  }

  /** A placeholder that waits for its first request has no history. */
  ghost predicate Untouched(w: World, p: Pid) {
    IsRecord(w, p) && w.records[p].mount.Some? && w.records[p].status == Stopped ==>
      w.records[p].exits == [] && w.records[p].launches == 0 && w.records[p].starter.None? && w.records[p].monitor.None?
  }

  ghost predicate AllUntouched(w: World) {
    forall p: Pid :: Untouched(w, p)
  }

  lemma HandleFollows(w: World, e: Event, key: Key, c: Chain)
    requires Inv(w) && Follows(w, key, c) && Enabled(w, e) && e.Handle?
    ensures Follows(Apply(w, e), key, NextChain(w, e, key, c))
  {
    HandleAchieves(w, e.key, e.autostart, e.outcome);
    assert EntryOk(w, key);
  }

  lemma HandleAsyncFollows(w: World, e: Event, key: Key, c: Chain)
    requires Inv(w) && Follows(w, key, c) && Enabled(w, e) && e.HandleAsync?
    ensures Follows(Apply(w, e), key, NextChain(w, e, key, c))
  {
    HandleAsyncAchieves(w, e.key, e.autostart, e.refused, e.missing);
    assert EntryOk(w, key);
  }

  lemma LazyFollows(w: World, e: Event, key: Key, c: Chain)
    requires Inv(w) && Follows(w, key, c) && Enabled(w, e) && e.Lazy? && Untouched(w, e.p)
    ensures Follows(Apply(w, e), key, NextChain(w, e, key, c))
  {
    assert EntryOk(w, key);
    LazyAchieves(w, e.p, e.outcome);
    LazyStartFollows(w, Apply(w, e), e.p, e.outcome, key, c);
  }

  lemma LazyStartFollows(w: World, v: World, p: Pid, outcome: Outcome, key: Key, c: Chain)
    requires HasMount(w, p) && w.records[p].status == Stopped && Untouched(w, p)
    requires EntryOk(w, key) && Follows(w, key, c) && LazilyStarted(w, v, p, outcome)
    ensures Follows(v, key, if w.records[p].key == key && (key in w.entries ==> w.entries[key] == p)
                            then Chain([], Spent(outcome, 0)) else c)
  {
  }

  lemma RestartFollows(w: World, e: Event, key: Key, c: Chain)
    requires Inv(w) && Follows(w, key, c) && Enabled(w, e) && e.Restart?
    ensures Follows(Apply(w, e), key, NextChain(w, e, key, c))
  {
    assert EntryOk(w, key) && EntryOk(w, e.key);
    if !w.closed && e.key in w.entries && w.records[w.entries[e.key]].status != Starting {
      StopAndStart(w, e.key, e.outcome);
    }
  }

  /** The stored list has as many failures as the chain has exits in its window. */
  lemma FailuresCountTheWindow(failureTimes: seq<Time>, exits: seq<Time>)
    requires Tracks(failureTimes, exits)
    ensures |failureTimes| == InWindow(exits)
  {
    if exits != [] {
      RecentCountsTheWindow(exits, exits[|exits| - 1]);
    }
  }

  lemma DelayFollows(w: World, e: Event, key: Key, c: Chain)
    requires Inv(w) && Follows(w, key, c) && Enabled(w, e) && e.MonitorFires?
    ensures Follows(Apply(w, e), key, NextChain(w, e, key, c))
  {
    assert EntryOk(w, key) && RecordOk(w, e.p) && EntryOk(w, w.records[e.p].key);
    if !w.closed && Current(w, e.p) {
      CarriedFollows(w, e.p, e.outcome, key, c);
    } else {
      MonitorGoneFollows(w, e.p, key, c);
    }
  }

  lemma MonitorGoneFollows(w: World, p: Pid, key: Key, c: Chain)
    requires Inv(w) && Follows(w, key, c) && MonitorAt(w, p) && (w.closed || !Current(w, p))
    ensures Follows(WithMonitor(w, p, None), key, c)
  {
    assert EntryOk(w, key) && RecordOk(w, p);
  }

  lemma CarriedFollows(w: World, p: Pid, outcome: Outcome, key: Key, c: Chain)
    requires Follows(w, key, c) && MonitorAt(w, p) && Possible(outcome, w.records[p].failureTimes)
    requires EntryOk(w, key) && RecordOk(w, p) && !w.closed && Current(w, p) && w.records[p].monitor == Some(Delaying)
    ensures var spent := if w.records[p].key == key then Spent(outcome, InWindow(c.exits)) else 0;
            Follows(AfterDelay(w, p, outcome), key, c.(launches := c.launches + spent))
  {
    RestartCarriesOn(w, p, outcome);
    FailuresCountTheWindow(w.records[p].failureTimes, w.records[p].exits);
  }

  lemma DecideFollows(w: World, e: Event, key: Key, c: Chain)
    requires Inv(w) && Follows(w, key, c) && Enabled(w, e) && e.MonitorDecides?
    ensures Follows(Apply(w, e), key, NextChain(w, e, key, c))
  {
    assert EntryOk(w, key) && RecordOk(w, e.p) && EntryOk(w, w.records[e.p].key);
  }

  lemma MonitorFollows(w: World, e: Event, key: Key, c: Chain)
    requires Inv(w) && Follows(w, key, c) && Enabled(w, e) && (e.MonitorObserves? || e.MonitorMisses?)
    ensures Follows(Apply(w, e), key, NextChain(w, e, key, c))
  {
    assert EntryOk(w, key) && RecordOk(w, e.p);
  }

  lemma CheckFollows(w: World, e: Event, key: Key, c: Chain)
    requires Inv(w) && Follows(w, key, c) && Enabled(w, e) && (e.StarterChecks? || e.StarterCancelled?)
    ensures Follows(Apply(w, e), key, NextChain(w, e, key, c))
  {
    assert EntryOk(w, key) && RecordOk(w, e.s);
  }

  lemma LaunchFollows(w: World, e: Event, key: Key, c: Chain)
    requires Inv(w) && Follows(w, key, c) && Enabled(w, e) && (e.StarterLaunches? || e.StarterCannotLaunch?)
    ensures Follows(Apply(w, e), key, NextChain(w, e, key, c))
  {
    assert EntryOk(w, key) && RecordOk(w, e.s) && EntryOk(w, w.records[e.s].key);
  }

  lemma ProbeFollows(w: World, e: Event, key: Key, c: Chain)
    requires Inv(w) && Follows(w, key, c) && Enabled(w, e)
    requires e.StarterHealthy? || e.StarterUnhealthy? || e.StarterDiscards?
    ensures Follows(Apply(w, e), key, NextChain(w, e, key, c))
  {
    assert EntryOk(w, key) && RecordOk(w, e.s) && RecordOk(w, ChildOf(w.records[e.s].starter).value);
    if key in w.entries {
      assert RecordOk(w, w.entries[key]);
      assert w.entries[key] != ChildOf(w.records[e.s].starter).value || e.StarterHealthy?;
    }
  }

  lemma PublishFollows(w: World, e: Event, key: Key, c: Chain)
    requires Inv(w) && Follows(w, key, c) && Enabled(w, e) && e.StarterPublishes?
    ensures Follows(Apply(w, e), key, NextChain(w, e, key, c))
  {
    if !w.closed && Current(w, e.s) {
      HandOverFollows(w, e.s, key, c);
    } else {
      assert EntryOk(w, key) && RecordOk(w, e.s);
      NotWantedFollows(w, e.s, key, c);
    }
  }

  lemma HandOverFollows(w: World, s: Pid, key: Key, c: Chain)
    requires Inv(w) && Follows(w, key, c) && StarterAt(w, s) && w.records[s].starter.value.Publish?
    requires !w.closed && Current(w, s)
    ensures Follows(AfterPublish(w, s), key, c)
  {
    assert EntryOk(w, key) && RecordOk(w, s);
    if key in w.entries {
      assert RecordOk(w, w.entries[key]);
    }
  }

  lemma NotWantedFollows(w: World, s: Pid, key: Key, c: Chain)
    requires Follows(w, key, c) && StarterAt(w, s) && w.records[s].starter.value.Publish?
    requires EntryOk(w, key) && RecordOk(w, s) && (w.closed || !Current(w, s))
    ensures Follows(AfterPublish(w, s), key, c)
  {
  }

  lemma GiveUpFollows(w: World, e: Event, key: Key, c: Chain)
    requires Inv(w) && Follows(w, key, c) && Enabled(w, e) && e.StarterGivesUp?
    ensures Follows(Apply(w, e), key, NextChain(w, e, key, c))
  {
    assert EntryOk(w, key) && RecordOk(w, e.s) && EntryOk(w, w.records[e.s].key);
  }

  lemma TakingFollows(w: World, e: Event, key: Key, c: Chain)
    requires Inv(w) && Follows(w, key, c) && Enabled(w, e) && (e.Reconcile? || e.CloseSweeps?)
    ensures Follows(Apply(w, e), key, NextChain(w, e, key, c))
  {
    assert EntryOk(w, key);
    if e.Reconcile? {
      TakenAtOnce(w, e.gone, CloseNow);
      if key in w.entries {
        assert Apply(w, e).records[w.entries[key]] == TakenRecord(w, e.gone, CloseNow, w.entries[key]);
      }
    } else {
      TakenAtOnce(w, e.order, CloseLater);
    }
  }

  lemma QuietFollows(w: World, e: Event, key: Key, c: Chain)
    requires Inv(w) && Follows(w, key, c) && Enabled(w, e)
    requires e.Tick? || e.ChildExits? || e.CloseBegins? || e.CloseKills?
    ensures Follows(Apply(w, e), key, NextChain(w, e, key, c))
  {
  }

  lemma StepFollows(w: World, e: Event, key: Key, c: Chain)
    requires Inv(w) && AllUntouched(w) && Follows(w, key, c) && Enabled(w, e)
    ensures Follows(Apply(w, e), key, NextChain(w, e, key, c))
  {
    match e
    case Handle(_, _, _) => HandleFollows(w, e, key, c);
    case HandleAsync(_, _, _, _) => HandleAsyncFollows(w, e, key, c);
    case Lazy(p, _) =>
      assert Untouched(w, p);
      LazyFollows(w, e, key, c);
    case Restart(_, _) => RestartFollows(w, e, key, c);
    case StarterChecks(_) => CheckFollows(w, e, key, c);
    case StarterCancelled(_) => CheckFollows(w, e, key, c);
    case StarterLaunches(_) => LaunchFollows(w, e, key, c);
    case StarterCannotLaunch(_) => LaunchFollows(w, e, key, c);
    case StarterHealthy(_) => ProbeFollows(w, e, key, c);
    case StarterUnhealthy(_) => ProbeFollows(w, e, key, c);
    case StarterDiscards(_) => ProbeFollows(w, e, key, c);
    case StarterPublishes(_) => PublishFollows(w, e, key, c);
    case StarterGivesUp(_) => GiveUpFollows(w, e, key, c);
    case MonitorObserves(_) => MonitorFollows(w, e, key, c);
    case MonitorMisses(_) => MonitorFollows(w, e, key, c);
    case MonitorDecides(_) => DecideFollows(w, e, key, c);
    case MonitorFires(_, _) => DelayFollows(w, e, key, c);
    case Reconcile(_) => TakingFollows(w, e, key, c);
    case CloseSweeps(_) => TakingFollows(w, e, key, c);
    case _ => QuietFollows(w, e, key, c);
  }

  // ---- Placeholders stay untouched ------------------------------------------------------------

  lemma UntouchedByStarts(w: World, e: Event, p: Pid)
    requires Inv(w) && Untouched(w, p) && Enabled(w, e) && (e.Handle? || e.HandleAsync? || e.Restart?)
    ensures Untouched(Apply(w, e), p)
  {
    match e
    case Handle(key, autostart, outcome) => HandleAchieves(w, key, autostart, outcome);
    case HandleAsync(key, autostart, refused, missing) => HandleAsyncAchieves(w, key, autostart, refused, missing);
    case Restart(key, outcome) =>
      assert EntryOk(w, key);
      if !w.closed && key in w.entries && w.records[w.entries[key]].status != Starting {
        StopAndStart(w, key, outcome);
      }
  }

  lemma UntouchedByLazyStart(w: World, e: Event, p: Pid)
    requires Untouched(w, p) && Enabled(w, e) && e.Lazy?
    ensures Untouched(Apply(w, e), p)
  {
    LazyAchieves(w, e.p, e.outcome);
  }

  lemma UntouchedByDelay(w: World, e: Event, p: Pid)
    requires Inv(w) && Untouched(w, p) && Enabled(w, e) && e.MonitorFires?
    ensures Untouched(Apply(w, e), p)
  {
    assert RecordOk(w, e.p);
    if !w.closed && Current(w, e.p) {
      RestartCarriesOn(w, e.p, e.outcome);
    }
  }

  lemma UntouchedByDecision(w: World, e: Event, p: Pid)
    requires Inv(w) && Untouched(w, p) && Enabled(w, e) && e.MonitorDecides?
    ensures Untouched(Apply(w, e), p)
  {
    assert RecordOk(w, e.p);
  }

  lemma UntouchedByStarter(w: World, e: Event, p: Pid)
    requires Inv(w) && Untouched(w, p) && Enabled(w, e)
    requires e.StarterPublishes? || e.StarterGivesUp? || e.StarterLaunches?
    ensures Untouched(Apply(w, e), p)
  {
    assert RecordOk(w, e.s);
  }

  lemma UntouchedByClosing(w: World, e: Event, p: Pid)
    requires Inv(w) && Untouched(w, p) && Enabled(w, e) && (e.Reconcile? || e.CloseSweeps?)
    ensures Untouched(Apply(w, e), p)
  {
    if e.Reconcile? {
      TakenAtOnce(w, e.gone, CloseNow);
      if IsRecord(w, p) {
        assert Apply(w, e).records[p] == TakenRecord(w, e.gone, CloseNow, p);
      }
    } else {
      TakenAtOnce(w, e.order, CloseLater);
      if IsRecord(w, p) {
        assert TakeAll(w, e.order, CloseLater).records[p] == TakenRecord(w, e.order, CloseLater, p);
      }
    }
  }

  lemma UntouchedByOthers(w: World, e: Event, p: Pid)
    requires Inv(w) && Untouched(w, p) && Enabled(w, e)
    requires e.Tick? || e.ChildExits? || e.CloseBegins? || e.CloseKills? || e.MonitorObserves? || e.MonitorMisses?
    ensures Untouched(Apply(w, e), p)
  {
  }

  lemma UntouchedByAttempts(w: World, e: Event, p: Pid)
    requires Untouched(w, p) && Enabled(w, e)
    requires e.StarterChecks? || e.StarterCannotLaunch? || e.StarterHealthy? || e.StarterCancelled?
    ensures Untouched(Apply(w, e), p)
  {
  }

  lemma UntouchedByEndedAttempts(w: World, e: Event, p: Pid)
    requires Untouched(w, p) && Enabled(w, e) && (e.StarterUnhealthy? || e.StarterDiscards?)
    ensures Untouched(Apply(w, e), p)
  {
  }

  lemma UntouchedByActor(w: World, e: Event, p: Pid)
    requires Inv(w) && Untouched(w, p) && Enabled(w, e) && Actor(e).Some?
    ensures Untouched(Apply(w, e), p)
  {
    match e
    case MonitorFires(_, _) => UntouchedByDelay(w, e, p);
    case MonitorDecides(_) => UntouchedByDecision(w, e, p);
    case MonitorObserves(_) => UntouchedByOthers(w, e, p);
    case MonitorMisses(_) => UntouchedByOthers(w, e, p);
    case StarterPublishes(_) => UntouchedByStarter(w, e, p);
    case StarterGivesUp(_) => UntouchedByStarter(w, e, p);
    case StarterLaunches(_) => UntouchedByStarter(w, e, p);
    case StarterUnhealthy(_) => UntouchedByEndedAttempts(w, e, p);
    case StarterDiscards(_) => UntouchedByEndedAttempts(w, e, p);
    case _ => UntouchedByAttempts(w, e, p);
  }

  lemma UntouchedStays(w: World, e: Event, p: Pid)
    requires Inv(w) && Untouched(w, p) && Enabled(w, e)
    ensures Untouched(Apply(w, e), p)
  {
    if Actor(e).Some? {
      UntouchedByActor(w, e, p);
    } else {
      match e
      case Handle(_, _, _) => UntouchedByStarts(w, e, p);
      case HandleAsync(_, _, _, _) => UntouchedByStarts(w, e, p);
      case Restart(_, _) => UntouchedByStarts(w, e, p);
      case Lazy(_, _) => UntouchedByLazyStart(w, e, p);
      case Reconcile(_) => UntouchedByClosing(w, e, p);
      case CloseSweeps(_) => UntouchedByClosing(w, e, p);
      case _ => UntouchedByOthers(w, e, p);
    }
  }

  // ---- Every run ------------------------------------------------------------------------------

  lemma {:induction false} RunFollows(w: World, events: seq<Event>, key: Key, c: Chain)
    requires Inv(w) && AllUntouched(w) && Follows(w, key, c) && Runs(w, events)
    ensures Inv(After(w, events)) && Follows(After(w, events), key, ChainAfter(w, events, key, c))
    decreases |events|
  {
    if events != [] {
      var v := Apply(w, events[0]);
      StepKeeps(w, events[0]);
      StepFollows(w, events[0], key, c);
      forall p: Pid ensures Untouched(v, p) {
        assert Untouched(w, p);
        UntouchedStays(w, events[0], p);
      }
      RunFollows(v, events[1..], key, NextChain(w, events[0], key, c));
    }
  }

  /** The chain of an app in a run from the empty manager. */
  ghost function ChainOf(events: seq<Event>, key: Key): Chain
    requires Runs(INITIAL, events)
  {
    ChainAfter(INITIAL, events, key, FRESH)
  }

  /** In every run the entry's exits, launches and pruned failures are those of the chain that the
      events make up. */
  lemma EntriesFollowTheirChains(events: seq<Event>, key: Key)
    requires Runs(INITIAL, events) && key in After(INITIAL, events).entries
    ensures var w, c := After(INITIAL, events), ChainOf(events, key);
            && IsRecord(w, w.entries[key]) && var r := w.records[w.entries[key]];
            && r.exits == c.exits
            && (r.status != Starting || r.monitor.Some? ==> r.launches == c.launches)
            && (r.status != NeedsRuntime ==>
                  r.failureTimes == (if c.exits == [] then [] else Recent(c.exits, c.exits[|c.exits| - 1]))
                  && |r.failureTimes| == InWindow(c.exits))
  {
    RunFollows(INITIAL, events, key, FRESH);
    var w := After(INITIAL, events);
    assert EntryOk(w, key) && RecordOk(w, w.entries[key]);
    var r := w.records[w.entries[key]];
    if r.status != NeedsRuntime {
      FailuresCountTheWindow(r.failureTimes, r.exits);
    }
  }

  /** When the monitor of an app finds its exit, the app is started again if and only if fewer than
      five exits of its chain, this one included, lie in the last ten minutes; otherwise it crashes. */
  lemma RestartsExactlyBelowFive(events: seq<Event>, p: Pid)
    requires Runs(INITIAL, events) && Enabled(After(INITIAL, events), MonitorDecides(p))
    requires !After(INITIAL, events).closed && Current(After(INITIAL, events), p)
    ensures var w := After(INITIAL, events);
            var now, key := w.records[p].monitor.value.now, w.records[p].key;
            Decided(Apply(w, MonitorDecides(p)), p, key, ChainOf(events, key).exits + [now], now)
  {
    var w := After(INITIAL, events);
    EntriesFollowTheirChains(events, w.records[p].key);
    DecisionAchieves(w, p);
  }

  /** A chain with five exits in one window has crashed, or its runtime is gone; it does not run. */
  lemma FiveExitsEndTheChain(events: seq<Event>, key: Key)
    requires Runs(INITIAL, events) && key in After(INITIAL, events).entries
    requires InWindow(ChainOf(events, key).exits) >= 5
    ensures var w := After(INITIAL, events);
            IsRecord(w, w.entries[key])
            && (w.records[w.entries[key]].status == Crashed || w.records[w.entries[key]].status == NeedsRuntime)
  {
    EntriesFollowTheirChains(events, key);
    var w := After(INITIAL, events);
    RunFollows(INITIAL, events, key, FRESH);
    assert RecordOk(w, w.entries[key]);
  }

  /** A chain whose exits lie in one window makes at most fifteen attempts. */
  lemma ChainsMakeFifteenAttempts(events: seq<Event>, key: Key)
    requires Runs(INITIAL, events) && key in After(INITIAL, events).entries
    requires Compact(ChainOf(events, key).exits)
    ensures ChainOf(events, key).launches <= 15
  {
    RunFollows(INITIAL, events, key, FRESH);
    var w := After(INITIAL, events);
    assert EntryOk(w, key) && RecordOk(w, w.entries[key]);
  }
}
