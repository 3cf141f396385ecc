/** The command-app manager as a transition system. One event is one critical section of the
    manager's mutex, or one action of a child process, a starter, a monitor or the clock
    between them. Go pointers become indices: a `Pid` names a process record, a `MountId` a
    route object. */
module SupervisorWorld {
  import opened Text
  import opened RestartBudget

  type Key = string
  type Pid = nat
  type MountId = nat

  datatype Status = Stopped | Starting | Ready | Crashed | NeedsRuntime

  /** What a route object serves. */
  datatype Page = LazyPage(placeholder: Pid) | StartingPage | ProxyPage(to: Pid) | CrashPage | RuntimePage

  /** One route object; `key` is the app it was created for. */
  datatype Route = Route(key: Key, target: Page)

  datatype Child = NoChild | Live | Exited

  /** Where a background starter stands: about to check that it is still wanted, about to launch,
      polling health, about to publish, about to close an unwanted child, about to report a crash. */
  datatype Starter =
    | Check(attempt: nat)
    | Launch(attempt: nat)
    | Probe(attempt: nat, child: Pid)
    | Publish(attempt: nat, child: Pid)
    | Discard(child: Pid)
    | GiveUp

  /** Where an exit monitor stands: waiting for the exit, holding its time, in the restart delay. */
  datatype Monitor = Watching | Observed(now: Time) | Delaying

  /** One process record, with the positions of the goroutines that work for it: its background
      starter, its exit monitor, and a shutdown that took it out of the map to close it.
      `launchedBy`, `exits` and `launches` are history that no event reads: the starter that
      launched the child, and every exit after health and every launch in the current chain. */
  datatype Record = Record(
    key: Key, status: Status, proxy: Page, mount: Option<MountId>, attempts: nat,
    failureTimes: seq<Time>, child: Child, closed: bool,
    starter: Option<Starter>, monitor: Option<Monitor>, toClose: bool,
    launchedBy: Option<Pid>, exits: seq<Time>, launches: nat)

  /** `lateLazy` is history: a lazy start began after shutdown had emptied the map. */
  datatype World = World(
    entries: map<Key, Pid>, records: seq<Record>, mounts: seq<Route>,
    closed: bool, swept: bool, lateLazy: bool, clock: Time)

  /** How a synchronous start ends: refused by ports or logs, no runtime, healthy at an attempt,
      or every attempt failed. */
  datatype Outcome = Refused | Missing | Healthy(attempt: nat) | Exhausted

  datatype Event =
    | Tick(now: Time)
    | ChildExits(p: Pid)
    | Handle(key: Key, autostart: bool, outcome: Outcome)
    | HandleAsync(key: Key, autostart: bool, refused: bool, missing: bool)
    | Lazy(p: Pid, outcome: Outcome)
    | Restart(key: Key, outcome: Outcome)
    | Reconcile(gone: seq<Key>)
    | StarterChecks(s: Pid)
    | StarterLaunches(s: Pid)
    | StarterCannotLaunch(s: Pid)
    | StarterHealthy(s: Pid)
    | StarterUnhealthy(s: Pid)
    | StarterPublishes(s: Pid)
    | StarterDiscards(s: Pid)
    | StarterGivesUp(s: Pid)
    | StarterCancelled(s: Pid)
    | MonitorObserves(p: Pid)
    | MonitorMisses(p: Pid)
    | MonitorDecides(p: Pid)
    | MonitorFires(p: Pid, outcome: Outcome)
    | CloseBegins
    | CloseSweeps(order: seq<Key>)
    | CloseKills(p: Pid)

  const INITIAL: World := World(map[], [], [], false, false, false, 0)

  predicate IsRecord(w: World, p: Pid) { p < |w.records| }

  /** The manager's own test: is this process still the entry of its key? */
  predicate Current(w: World, p: Pid)
    requires IsRecord(w, p)
  {
    w.records[p].key in w.entries && w.entries[w.records[p].key] == p
  }

  predicate HasMount(w: World, p: Pid) {
    IsRecord(w, p) && w.records[p].mount.Some? && w.records[p].mount.value < |w.mounts|
  }

  function ChildOf(starter: Option<Starter>): Option<Pid> {
    match starter
    case Some(Probe(_, child)) => Some(child)
    case Some(Publish(_, child)) => Some(child)
    case Some(Discard(child)) => Some(child)
    case _ => None
  }

  // ---- Which events can happen ----------------------------------------------------------------

  predicate StarterAt(w: World, s: Pid) {
    && HasMount(w, s) && w.records[s].starter.Some?
    && (ChildOf(w.records[s].starter).Some? ==> IsRecord(w, ChildOf(w.records[s].starter).value))
  }

  predicate MonitorAt(w: World, p: Pid) {
    HasMount(w, p) && w.records[p].monitor.Some?
  }

  /** A start can only become healthy at one of the attempts its budget leaves. */
  predicate Possible(outcome: Outcome, failureTimes: seq<Time>) {
    && |failureTimes| <= MAXIMUM_START_ATTEMPTS
    && (outcome.Healthy? ==> 1 <= outcome.attempt <= MAXIMUM_START_ATTEMPTS - |failureTimes|)
  }

  ghost predicate Enabled(w: World, e: Event) {
    match e
    case Tick(now) => w.clock <= now
    case ChildExits(p) => IsRecord(w, p) && w.records[p].child == Live
    case Handle(_, _, outcome) => Possible(outcome, [])
    case HandleAsync(_, _, _, _) => true
    case Lazy(p, outcome) => HasMount(w, p) && w.records[p].status == Stopped && Possible(outcome, [])
    case Restart(key, outcome) => (key in w.entries ==> HasMount(w, w.entries[key])) && Possible(outcome, [])
    case Reconcile(_) => true
    case StarterChecks(s) => StarterAt(w, s) && w.records[s].starter.value.Check?
    case StarterLaunches(s) => StarterAt(w, s) && w.records[s].starter.value.Launch?
    case StarterCannotLaunch(s) => StarterAt(w, s) && w.records[s].starter.value.Launch?
    case StarterHealthy(s) => StarterAt(w, s) && w.records[s].starter.value.Probe?
    case StarterUnhealthy(s) => StarterAt(w, s) && w.records[s].starter.value.Probe?
    case StarterPublishes(s) => StarterAt(w, s) && w.records[s].starter.value.Publish?
    case StarterDiscards(s) => StarterAt(w, s) && w.records[s].starter.value.Discard?
    case StarterGivesUp(s) => StarterAt(w, s) && w.records[s].starter.value.GiveUp?
    case StarterCancelled(s) =>
      && StarterAt(w, s) && (w.records[s].starter.value.Check? || w.records[s].starter.value.GiveUp?)
      && (w.closed || w.records[s].closed)
    case MonitorObserves(p) =>
      MonitorAt(w, p) && w.records[p].monitor.value.Watching? && w.records[p].child == Exited
    case MonitorMisses(p) => MonitorAt(w, p) && w.records[p].monitor.value.Watching? && w.records[p].closed
    case MonitorDecides(p) => MonitorAt(w, p) && w.records[p].monitor.value.Observed?
    case MonitorFires(p, outcome) =>
      MonitorAt(w, p) && w.records[p].monitor.value.Delaying? && Possible(outcome, w.records[p].failureTimes)
    case CloseBegins => true
    case CloseSweeps(order) =>
      && w.closed && !w.swept && (forall k | k in w.entries :: k in order)
      && forall p | 0 <= p < |w.records| :: w.records[p].starter.None?
    case CloseKills(p) => IsRecord(w, p) && w.records[p].toClose
  }

  // ---- The manager's helpers ------------------------------------------------------------------

  function NewRecord(key: Key): Record {
    Record(key, Stopped, StartingPage, None, 0, [], NoChild, false, None, None, false, None, [], 0)
  }

  function With(w: World, p: Pid, record: Record): World
    requires IsRecord(w, p)
  {
    w.(records := w.records[p := record])
  }

  function Unfiled(w: World, key: Key): World {
    w.(entries := w.entries - {key})
  }

  /** `Process.Close` with a kill that succeeds: the child is gone and startup is cancelled. */
  function ClosedRecord(r: Record): Record {
    r.(closed := true, child := if r.child == Live then Exited else r.child)
  }

  /** `publishLocked` for a record that exists: reuse the given route object or create one. */
  function Published(w: World, p: Pid, record: Record, mount: Option<MountId>): World
    requires IsRecord(w, p) && (mount.Some? ==> mount.value < |w.mounts|)
  {
    var m := if mount.Some? then mount.value else |w.mounts|;
    var route := Route(record.key, record.proxy);
    w.(mounts := if mount.Some? then w.mounts[m := route] else w.mounts + [route],
       records := w.records[p := record.(mount := Some(m))],
       entries := w.entries[record.key := p])
  }

  /** `publishLocked` for a record the caller just created. */
  function Added(w: World, record: Record, mount: Option<MountId>): World
    requires mount.Some? ==> mount.value < |w.mounts|
  {
    Published(w.(records := w.records + [record]), |w.records|, record, mount)
  }

  /** The record `startLocked` publishes once ports and logs are granted. */
  function StartedRecord(key: Key, self: Pid, failureTimes: seq<Time>, exits: seq<Time>,
                         launches: nat, outcome: Outcome): Record
    requires !outcome.Refused? && |failureTimes| <= MAXIMUM_START_ATTEMPTS
  {
    var chain := NewRecord(key).(exits := exits, launches := launches);
    match outcome
    case Missing => chain.(status := NeedsRuntime, proxy := RuntimePage)
    case Healthy(attempt) =>
      chain.(status := Ready, proxy := ProxyPage(self), attempts := |failureTimes| + attempt,
             failureTimes := failureTimes, child := Live, monitor := Some(Watching),
             launches := launches + attempt)
    case Exhausted =>
      var limit := MAXIMUM_START_ATTEMPTS - |failureTimes|;
      chain.(status := Crashed, proxy := CrashPage, attempts := |failureTimes| + limit,
             failureTimes := failureTimes, launches := launches + limit)
  }

  function StartedLocked(w: World, key: Key, mount: Option<MountId>, failureTimes: seq<Time>,
                         exits: seq<Time>, launches: nat, outcome: Outcome): World
    requires (mount.Some? ==> mount.value < |w.mounts|) && !outcome.Refused?
    requires |failureTimes| <= MAXIMUM_START_ATTEMPTS
  {
    Added(w, StartedRecord(key, |w.records|, failureTimes, exits, launches, outcome), mount)
  }

  // ---- What each event does -------------------------------------------------------------------

  function AfterHandle(w: World, key: Key, autostart: bool, outcome: Outcome): World {
    if w.closed || key in w.entries then w
    else if !autostart then Added(w, NewRecord(key).(proxy := LazyPage(|w.records|)), None)
    else if outcome.Refused? then w
    else StartedLocked(w, key, None, [], [], 0, outcome)
  }

  function AfterHandleAsync(w: World, key: Key, autostart: bool, refused: bool, missing: bool): World {
    if w.closed || key in w.entries then w
    else if !autostart then Added(w, NewRecord(key).(proxy := LazyPage(|w.records|)), None)
    else if refused then w
    else if missing then Added(w, NewRecord(key).(status := NeedsRuntime, proxy := RuntimePage), None)
    else Added(w, NewRecord(key).(status := Starting, starter := Some(Check(1))), None)
  }

  /** `startLazy`. It does not look at `closed`. */
  function AfterLazy(w: World, p: Pid, outcome: Outcome): World
    requires HasMount(w, p)
  {
    var record := w.records[p];
    if record.key in w.entries && w.entries[record.key] != p then w
    else
      var begun := Unfiled(w.(lateLazy := w.lateLazy || w.swept), record.key);
      if outcome.Refused? then Published(begun, p, record, record.mount)
      else StartedLocked(begun, record.key, record.mount, [], [], 0, outcome)
  }

  function AfterRestart(w: World, key: Key, outcome: Outcome): World
    requires key in w.entries ==> HasMount(w, w.entries[key])
  {
    if w.closed || key !in w.entries || w.records[w.entries[key]].status == Starting then w
    else
      var p := w.entries[key];
      var stopped := Unfiled(With(w, p, ClosedRecord(w.records[p])), key);
      if outcome.Refused?
      then Added(stopped, NewRecord(key).(status := Crashed, proxy := CrashPage), w.records[p].mount)
      else StartedLocked(stopped, key, w.records[p].mount, [], [], 0, outcome)
  }

  /** What reconciliation and shutdown do to an entry they take out of the map: close it now, or
      list it to be closed outside the lock. */
  datatype Fate = CloseNow | CloseLater

  function Fated(fate: Fate, r: Record): Record {
    match fate
    case CloseNow => ClosedRecord(r)
    case CloseLater => r.(toClose := true)
  }

  function TakeOne(w: World, key: Key, fate: Fate): World {
    if key in w.entries && IsRecord(w, w.entries[key])
    then Unfiled(With(w, w.entries[key], Fated(fate, w.records[w.entries[key]])), key)
    else w
  }

  /** Entries are taken one after the other, in whatever order the map yields them. */
  function TakeAll(w: World, order: seq<Key>, fate: Fate): World {
    if order == [] then w
    else TakeOne(TakeAll(w, order[..|order| - 1], fate), order[|order| - 1], fate)
  }

  function WithStarter(w: World, s: Pid, starter: Option<Starter>): World
    requires IsRecord(w, s)
  {
    With(w, s, w.records[s].(starter := starter))
  }

  function NextAttempt(attempt: nat): Starter {
    if attempt < MAXIMUM_START_ATTEMPTS then Check(attempt + 1) else GiveUp
  }

  function AfterCheck(w: World, s: Pid): World
    requires StarterAt(w, s) && w.records[s].starter.value.Check?
  {
    var attempt := w.records[s].starter.value.attempt;
    if w.closed || !Current(w, s) then WithStarter(w, s, None)
    else With(w, s, w.records[s].(starter := Some(Launch(attempt)), attempts := attempt))
  }

  function AfterLaunch(w: World, s: Pid): World
    requires StarterAt(w, s) && w.records[s].starter.value.Launch?
  {
    var attempt := w.records[s].starter.value.attempt;
    var child := NewRecord(w.records[s].key).(
      child := Live, attempts := attempt, launches := attempt, launchedBy := Some(s));
    var probing := WithStarter(w, s, Some(Probe(attempt, |w.records|)));
    probing.(records := probing.records + [child])
  }

  function AfterNoLaunch(w: World, s: Pid): World
    requires StarterAt(w, s) && w.records[s].starter.value.Launch?
  {
    WithStarter(w, s, Some(NextAttempt(w.records[s].starter.value.attempt)))
  }

  function AfterHealthy(w: World, s: Pid): World
    requires StarterAt(w, s) && w.records[s].starter.value.Probe?
  {
    var starter := w.records[s].starter.value;
    WithStarter(w, s, Some(Publish(starter.attempt, starter.child)))
  }

  function AfterUnhealthy(w: World, s: Pid): World
    requires StarterAt(w, s) && w.records[s].starter.value.Probe?
  {
    var starter := w.records[s].starter.value;
    WithStarter(With(w, starter.child, ClosedRecord(w.records[starter.child])), s,
                Some(NextAttempt(starter.attempt)))
  }

  function AfterPublish(w: World, s: Pid): World
    requires StarterAt(w, s) && w.records[s].starter.value.Publish?
  {
    var child := w.records[s].starter.value.child;
    if w.closed || !Current(w, s) then WithStarter(w, s, Some(Discard(child)))
    else
      var done := WithStarter(w, s, None);
      Published(done, child, done.records[child].(
        status := Ready, proxy := ProxyPage(child), monitor := Some(Watching)), w.records[s].mount)
  }

  function AfterDiscard(w: World, s: Pid): World
    requires StarterAt(w, s) && w.records[s].starter.value.Discard?
  {
    var child := w.records[s].starter.value.child;
    WithStarter(With(w, child, ClosedRecord(w.records[child])), s, None)
  }

  function AfterGiveUp(w: World, s: Pid): World
    requires StarterAt(w, s)
  {
    var done := WithStarter(w, s, None);
    if w.closed || !Current(w, s) then done
    else Added(done, NewRecord(w.records[s].key).(
        status := Crashed, proxy := CrashPage, attempts := MAXIMUM_START_ATTEMPTS,
        launches := MAXIMUM_START_ATTEMPTS), w.records[s].mount)
  }

  function WithMonitor(w: World, p: Pid, monitor: Option<Monitor>): World
    requires IsRecord(w, p)
  {
    With(w, p, w.records[p].(monitor := monitor))
  }

  /** What the monitor makes of its record after an exit at `now`: crashed, or starting again. */
  function Booked(record: Record, now: Time): Record {
    var failureTimes := AfterExit(record.failureTimes, now);
    var seen := record.(failureTimes := failureTimes, exits := record.exits + [now]);
    if |failureTimes| >= MAXIMUM_START_ATTEMPTS then
      ClosedRecord(seen.(status := Crashed, attempts := |failureTimes|, proxy := CrashPage, monitor := None))
    else
      seen.(status := Starting, monitor := Some(Delaying))
  }

  /** The monitor's first critical section, for an exit it observed. */
  function AfterDecide(w: World, p: Pid): World
    requires MonitorAt(w, p) && w.records[p].monitor.value.Observed?
  {
    if w.closed || !Current(w, p) then WithMonitor(w, p, None)
    else
      var booked := Booked(w.records[p], w.records[p].monitor.value.now);
      var page := if booked.status == Crashed then CrashPage else StartingPage;
      With(w, p, booked).(mounts := w.mounts[booked.mount.value := Route(booked.key, page)])
  }

  /** The monitor's second critical section, when the restart delay is over. */
  function AfterDelay(w: World, p: Pid, outcome: Outcome): World
    requires MonitorAt(w, p) && Possible(outcome, w.records[p].failureTimes)
  {
    if w.closed || !Current(w, p) then WithMonitor(w, p, None)
    else
      var record := ClosedRecord(w.records[p]).(monitor := None);
      var stopped := Unfiled(With(w, p, record), record.key);
      if outcome.Refused?
      then Published(stopped, p, record.(status := Crashed, proxy := CrashPage), record.mount)
      else StartedLocked(stopped, record.key, record.mount, record.failureTimes,
                         record.exits, record.launches, outcome)
  }

  ghost function Apply(w: World, e: Event): World
    requires Enabled(w, e)
  {
    match e
    case Tick(now) => w.(clock := now)
    case ChildExits(p) => With(w, p, w.records[p].(child := Exited))
    case Handle(key, autostart, outcome) => AfterHandle(w, key, autostart, outcome)
    case HandleAsync(key, autostart, refused, missing) => AfterHandleAsync(w, key, autostart, refused, missing)
    case Lazy(p, outcome) => AfterLazy(w, p, outcome)
    case Restart(key, outcome) => AfterRestart(w, key, outcome)
    case Reconcile(gone) => TakeAll(w, gone, CloseNow)
    case StarterChecks(s) => AfterCheck(w, s)
    case StarterLaunches(s) => AfterLaunch(w, s)
    case StarterCannotLaunch(s) => AfterNoLaunch(w, s)
    case StarterHealthy(s) => AfterHealthy(w, s)
    case StarterUnhealthy(s) => AfterUnhealthy(w, s)
    case StarterPublishes(s) => AfterPublish(w, s)
    case StarterDiscards(s) => AfterDiscard(w, s)
    case StarterGivesUp(s) => AfterGiveUp(w, s)
    case StarterCancelled(s) => WithStarter(w, s, None)
    case MonitorObserves(p) => WithMonitor(w, p, Some(Observed(w.clock)))
    case MonitorMisses(p) => WithMonitor(w, p, None)
    case MonitorDecides(p) => AfterDecide(w, p)
    case MonitorFires(p, outcome) => AfterDelay(w, p, outcome)
    case CloseBegins => w.(closed := true)
    case CloseSweeps(order) => TakeAll(w, order, CloseLater).(swept := true)
    case CloseKills(p) => With(w, p, ClosedRecord(w.records[p]).(toClose := false))
  }

  /** A run: events that are enabled where they happen, from a world onwards. */
  ghost predicate Runs(w: World, events: seq<Event>)
    decreases |events|
  {
    events != [] ==> Enabled(w, events[0]) && Runs(Apply(w, events[0]), events[1..])
  }

  ghost function After(w: World, events: seq<Event>): World
    requires Runs(w, events)
    decreases |events|
  {
    if events == [] then w else After(Apply(w, events[0]), events[1..])
  }
}
