/** What the manager's steps achieve, said of the worlds before and after alone: which record an
    app has afterwards, what its route serves, and what became of the old record. */
module SupervisorStarts {
  import opened Text
  import opened RestartBudget
  import opened SupervisorWorld
  import opened SupervisorInvariants
  import opened SupervisorRuns

  // ---- Filing a record ------------------------------------------------------------------------

  /** `p` is the entry of `key` with this status, and its route object serves this page. */
  predicate Shows(v: World, key: Key, p: Pid, status: Status, page: Page) {
    && HasMount(v, p) && key in v.entries && v.entries[key] == p
    && v.records[p].key == key && v.records[p].status == status
    && v.mounts[v.records[p].mount.value] == Route(key, page)
  }

  /** The new last record took the place of `key` in the map, on the given route object or, if there
      is none, on a new one; no other entry or route object changed. */
  ghost predicate FilesNew(w: World, v: World, key: Key, route: Option<MountId>) {
    var p := |w.records|;
    && |v.records| == p + 1
    && v.entries.Keys == w.entries.Keys + {key}
    && (forall k | k in w.entries && k != key :: v.entries[k] == w.entries[k])
    && key in v.entries && v.entries[key] == p
    && v.records[p].mount == (if route.Some? then route else Some(|w.mounts|))
    && |v.mounts| == (if route.Some? then |w.mounts| else |w.mounts| + 1)
    && forall m | 0 <= m < |w.mounts| && route != Some(m) :: v.mounts[m] == w.mounts[m]
  }

  ghost predicate OthersStay(w: World, v: World, p: Pid) {
    |v.records| >= |w.records| && forall q | 0 <= q < |w.records| && q != p :: v.records[q] == w.records[q]
  }

  /** The entry that a start leaves. Its chain had these failures, exits and launches before. */
  ghost predicate Started(v: World, key: Key, p: Pid, outcome: Outcome,
                          failureTimes: seq<Time>, exits: seq<Time>, launches: nat) {
    && IsRecord(v, p)
    && var r := v.records[p];
      && !r.closed && !r.toClose && r.starter.None? && r.exits == exits
      && match outcome
         case Healthy(n) =>
           && Shows(v, key, p, Ready, ProxyPage(p)) && r.child == Live && r.monitor == Some(Watching)
           && r.failureTimes == failureTimes && r.launches == launches + n && r.attempts == |failureTimes| + n
         case Exhausted =>
           && Shows(v, key, p, Crashed, CrashPage) && r.child == NoChild && r.monitor.None?
           && r.failureTimes == failureTimes && r.launches == launches + (5 - |failureTimes|) && r.attempts == 5
         case Missing =>
           && Shows(v, key, p, NeedsRuntime, RuntimePage) && r.child == NoChild && r.monitor.None?
           && r.launches == launches
         case Refused =>
           && Shows(v, key, p, Crashed, CrashPage) && r.child == NoChild && r.monitor.None?
           && r.failureTimes == [] && r.launches == launches
  }

  /** The record's process is gone; apart from that it is as it was. */
  predicate IsStopped(before: Record, after: Record) {
    && after.closed && after.child == (if before.child == NoChild then NoChild else Exited)
    && after == before.(closed := true, child := after.child)
  }

  /** `u` is `w`, possibly without an entry for the key and with other records. */
  predicate Prepared(w: World, u: World, key: Key) {
    && u.mounts == w.mounts && |u.records| == |w.records|
    && u.entries.Keys <= w.entries.Keys && w.entries.Keys <= u.entries.Keys + {key}
    && forall k | k in u.entries :: u.entries[k] == w.entries[k]
  }

  lemma AddedFiles(w: World, u: World, record: Record, route: Option<MountId>)
    requires Prepared(w, u, record.key) && (route.Some? ==> route.value < |w.mounts|)
    ensures var v, m := Added(u, record, route), if route.Some? then route.value else |w.mounts|;
            && FilesNew(w, v, record.key, route)
            && m < |v.mounts| && v.mounts[m] == Route(record.key, record.proxy)
            && v.records == u.records + [record.(mount := Some(m))]
            && v.closed == u.closed
  {
  }

  lemma StartFiles(w: World, u: World, key: Key, route: Option<MountId>, outcome: Outcome,
                   failureTimes: seq<Time>, exits: seq<Time>, launches: nat)
    requires Prepared(w, u, key) && (route.Some? ==> route.value < |w.mounts|)
    requires !outcome.Refused? && |failureTimes| <= MAXIMUM_START_ATTEMPTS
    ensures var v := StartedLocked(u, key, route, failureTimes, exits, launches, outcome);
            && FilesNew(w, v, key, route) && v.records[..|w.records|] == u.records
            && Started(v, key, |w.records|, outcome, failureTimes, exits, launches)
  {
    AddedFiles(w, u, StartedRecord(key, |u.records|, failureTimes, exits, launches, outcome), route);
  }

  // ---- First requests -------------------------------------------------------------------------

  ghost predicate FilesLazy(w: World, v: World, key: Key) {
    var p := |w.records|;
    && FilesNew(w, v, key, None) && OthersStay(w, v, p)
    && Shows(v, key, p, Stopped, LazyPage(p)) && v.records[p].child == NoChild
    && v.records[p].starter.None? && v.records[p].monitor.None? && !v.records[p].closed
    && v.records[p].exits == [] && v.records[p].failureTimes == [] && v.records[p].launches == 0
  }

  /** A first request: nothing for a filed app, a lazy page without autostart, otherwise the start. */
  ghost predicate Handled(w: World, v: World, key: Key, autostart: bool, outcome: Outcome) {
    if w.closed || key in w.entries || (autostart && outcome.Refused?) then v == w
    else if !autostart then FilesLazy(w, v, key)
    else
      && FilesNew(w, v, key, None) && OthersStay(w, v, |w.records|)
      && Started(v, key, |w.records|, outcome, [], [], 0)
  }

  lemma HandleAchieves(w: World, key: Key, autostart: bool, outcome: Outcome)
    requires Enabled(w, Handle(key, autostart, outcome))
    ensures Handled(w, Apply(w, Handle(key, autostart, outcome)), key, autostart, outcome)
  {
    if !w.closed && key !in w.entries {
      if !autostart {
        AddedFiles(w, w, NewRecord(key).(proxy := LazyPage(|w.records|)), None);
      } else if !outcome.Refused? {
        StartFiles(w, w, key, None, outcome, [], [], 0);
      }
    }
  }

  ghost predicate HandledAsync(w: World, v: World, key: Key, autostart: bool, refused: bool, missing: bool) {
    if w.closed || key in w.entries || (autostart && refused) then v == w
    else if !autostart then FilesLazy(w, v, key)
    else
      var p := |w.records|;
      && FilesNew(w, v, key, None) && OthersStay(w, v, p)
      && if missing then Started(v, key, p, Missing, [], [], 0)
         else Shows(v, key, p, Starting, StartingPage) && StarterStands(v, key, p, 1)
  }

  /** The starter of the unclosed entry `s` is about to make attempt `n`. */
  ghost predicate StarterStands(w: World, key: Key, s: Pid, n: nat) {
    && Shows(w, key, s, Starting, StartingPage) && !w.closed
    && var r := w.records[s];
      r.starter == Some(Check(n)) && r.child == NoChild && r.monitor.None? && !r.closed && r.exits == []
  }

  lemma HandleAsyncAchieves(w: World, key: Key, autostart: bool, refused: bool, missing: bool)
    ensures HandledAsync(w, Apply(w, HandleAsync(key, autostart, refused, missing)), key, autostart, refused, missing)
  {
    if !w.closed && key !in w.entries {
      if !autostart {
        AddedFiles(w, w, NewRecord(key).(proxy := LazyPage(|w.records|)), None);
      } else if !refused && missing {
        AddedFiles(w, w, NewRecord(key).(status := NeedsRuntime, proxy := RuntimePage), None);
      } else if !refused {
        AddedFiles(w, w, NewRecord(key).(status := Starting, starter := Some(Check(1))), None);
      }
    }
  }

  // ---- Starts of filed apps -------------------------------------------------------------------

  /** A request to the lazy route of `p`: the start takes over the route, or the placeholder stays. */
  ghost predicate LazilyStarted(w: World, v: World, p: Pid, outcome: Outcome)
    requires HasMount(w, p)
  {
    var key := w.records[p].key;
    if key in w.entries && w.entries[key] != p then v == w
    else if outcome.Refused? then
      && v.entries == w.entries[key := p] && v.records == w.records
      && v.mounts == w.mounts[w.records[p].mount.value := Route(key, w.records[p].proxy)]
    else
      && FilesNew(w, v, key, w.records[p].mount) && OthersStay(w, v, |w.records|)
      && Started(v, key, |w.records|, outcome, [], [], 0)
  }

  lemma LazyAchieves(w: World, p: Pid, outcome: Outcome)
    requires Enabled(w, Lazy(p, outcome))
    ensures LazilyStarted(w, Apply(w, Lazy(p, outcome)), p, outcome)
  {
    LazyStartAchieves(w, p, outcome);
  }

  lemma LazyStartAchieves(w: World, p: Pid, outcome: Outcome)
    requires HasMount(w, p) && Possible(outcome, [])
    ensures LazilyStarted(w, AfterLazy(w, p, outcome), p, outcome)
  {
    var key, mount := w.records[p].key, w.records[p].mount;
    if !(key in w.entries && w.entries[key] != p) {
      if outcome.Refused? {
        assert w.entries[key := p] == (w.entries - {key})[key := p];
        assert w.records[p := w.records[p].(mount := mount)] == w.records;
      } else {
        var begun := Unfiled(w.(lateLazy := w.lateLazy || w.swept), key);
        StartFiles(w, begun, key, mount, outcome, [], [], 0);
        TailIsNew(w.records, AfterLazy(w, p, outcome).records);
      }
    }
  }

  lemma TailIsNew(was: seq<Record>, now: seq<Record>)
    requires |now| == |was| + 1 && now[..|was|] == was
    ensures forall q | 0 <= q < |was| :: now[q] == was[q]
  {
    forall q | 0 <= q < |was| ensures now[q] == was[q] {
      assert now[q] == now[..|was|][q];
    }
  }

  /** An explicit restart of a filed app that is not starting. */
  ghost predicate Restarted(w: World, v: World, key: Key, outcome: Outcome)
    requires key in w.entries && HasMount(w, w.entries[key])
  {
    var p := w.entries[key];
    && FilesNew(w, v, key, w.records[p].mount) && OthersStay(w, v, p) && IsStopped(w.records[p], v.records[p])
    && Started(v, key, |w.records|, outcome, [], [], 0)
  }

  lemma RestartAchieves(w: World, key: Key, outcome: Outcome)
    requires Reachable(w) && Enabled(w, Restart(key, outcome))
    ensures key in w.entries ==> HasMount(w, w.entries[key])
    ensures var v := Apply(w, Restart(key, outcome));
            if w.closed || key !in w.entries || w.records[w.entries[key]].status == Starting then v == w
            else Restarted(w, v, key, outcome)
  {
    SectionsFindTheirState(w);
    if !w.closed && key in w.entries && w.records[w.entries[key]].status != Starting {
      StopAndStart(w, key, outcome);
    }
  }

  lemma StopAndStart(w: World, key: Key, outcome: Outcome)
    requires key in w.entries && HasMount(w, w.entries[key]) && Possible(outcome, [])
    requires !w.closed && w.records[w.entries[key]].status != Starting && w.records[w.entries[key]].key == key
    ensures Restarted(w, AfterRestart(w, key, outcome), key, outcome)
  {
    var p := w.entries[key];
    var mount := w.records[p].mount;
    var stopped := Unfiled(With(w, p, ClosedRecord(w.records[p])), key);
    if outcome.Refused? {
      AddedFiles(w, stopped, NewRecord(key).(status := Crashed, proxy := CrashPage), mount);
    } else {
      StartFiles(w, stopped, key, mount, outcome, [], [], 0);
    }
    assert AfterRestart(w, key, outcome).records[..|w.records|] == stopped.records;
    TailIsNew(stopped.records, AfterRestart(w, key, outcome).records);
  }

  /** An automatic restart carries the chain on: its exits, its failures in the window, its launches. */
  ghost predicate ChainGoesOn(w: World, v: World, p: Pid, outcome: Outcome)
    requires HasMount(w, p)
  {
    var r := w.records[p];
    if outcome.Refused? then
      && v.entries == w.entries && |v.records| == |w.records| && OthersStay(w, v, p)
      && Shows(v, r.key, p, Crashed, CrashPage) && v.records[p].child != Live && v.records[p].closed
      && v.records[p].monitor.None? && v.records[p].starter == r.starter && v.records[p].mount == r.mount
      && v.records[p].failureTimes == r.failureTimes
      && v.records[p].exits == r.exits && v.records[p].launches == r.launches
    else
      && FilesNew(w, v, r.key, r.mount) && OthersStay(w, v, p) && IsStopped(r.(monitor := None), v.records[p])
      && Started(v, r.key, |w.records|, outcome, r.failureTimes, r.exits, r.launches)
  }

  lemma DelayAchieves(w: World, p: Pid, outcome: Outcome)
    requires Reachable(w) && Enabled(w, MonitorFires(p, outcome)) && !w.closed && Current(w, p)
    ensures ChainGoesOn(w, Apply(w, MonitorFires(p, outcome)), p, outcome)
  {
    ReachableInv(w);
    assert RecordOk(w, p);
    RestartCarriesOn(w, p, outcome);
  }

  lemma RestartCarriesOn(w: World, p: Pid, outcome: Outcome)
    requires MonitorAt(w, p) && Possible(outcome, w.records[p].failureTimes) && !w.closed && Current(w, p)
    ensures ChainGoesOn(w, AfterDelay(w, p, outcome), p, outcome)
  {
    var key := w.records[p].key;
    if outcome.Refused? {
      assert (w.entries - {key})[key := p] == w.entries;
    } else {
      var r := w.records[p];
      var stopped := Unfiled(With(w, p, ClosedRecord(r).(monitor := None)), key);
      StartFiles(w, stopped, key, r.mount, outcome, r.failureTimes, r.exits, r.launches);
      TailIsNew(stopped.records, AfterDelay(w, p, outcome).records);
    }
  }

  /** The number of exits at most ten minutes old at `now`. */
  ghost function RecentExits(exits: seq<Time>, now: Time): nat {
    |set i: nat | i < |exits| && now - exits[i] <= 600_000_000_000|
  }

  /** The monitor of `p` has booked the last of these exits, seen at `now`. */
  ghost predicate Decided(v: World, p: Pid, key: Key, exits: seq<Time>, now: Time) {
    && IsRecord(v, p) && var r := v.records[p];
      && r.exits == exits && r.failureTimes == Recent(exits, now) && |r.failureTimes| == RecentExits(exits, now)
      && if RecentExits(exits, now) < 5
         then Shows(v, key, p, Starting, StartingPage) && r.monitor == Some(Delaying)
         else Shows(v, key, p, Crashed, CrashPage) && r.monitor.None? && r.closed && r.child != Live
              && r.attempts == RecentExits(exits, now)
  }

  lemma DecisionAchieves(w: World, p: Pid)
    requires Reachable(w) && Enabled(w, MonitorDecides(p)) && !w.closed && Current(w, p)
    ensures var r, v := w.records[p], Apply(w, MonitorDecides(p));
            && Decided(v, p, r.key, r.exits + [r.monitor.value.now], r.monitor.value.now)
            && OthersStay(w, v, p) && v.entries == w.entries && v.records[p].mount == r.mount
            && v.records[p].launches == r.launches
  {
    ReachableInv(w);
    assert RecordOk(w, p);
    BookingAchieves(w, p);
  }

  lemma BookingAchieves(w: World, p: Pid)
    requires MonitorAt(w, p) && w.records[p].monitor.value.Observed? && !w.closed && Current(w, p)
    requires var r := w.records[p]; Tracks(r.failureTimes, r.exits) && AllBy(r.exits, r.monitor.value.now)
    ensures var r, v := w.records[p], AfterDecide(w, p);
            && Decided(v, p, r.key, r.exits + [r.monitor.value.now], r.monitor.value.now)
            && OthersStay(w, v, p) && v.entries == w.entries && v.records[p].mount == r.mount
            && v.records[p].launches == r.launches
  {
    var r := w.records[p];
    var exits, now := r.exits + [r.monitor.value.now], r.monitor.value.now;
    BookingCounts(r, now);
    assert WindowPositions(exits, now) == set i: nat | i < |exits| && now - exits[i] <= 600_000_000_000;
  }

  /** A monitor notes the time of the exit it observes. */
  lemma ObservationIsTimely(w: World, p: Pid)
    requires Enabled(w, MonitorObserves(p))
    ensures var v := Apply(w, MonitorObserves(p));
            v.records[p].monitor == Some(Observed(w.clock)) && OthersStay(w, v, p) && v.entries == w.entries
  {
  }

  // ---- A background start ---------------------------------------------------------------------

  function FailedAttempt(s: Pid): seq<Event> {
    [StarterChecks(s), StarterLaunches(s), StarterUnhealthy(s)]
  }

  function GoodAttempt(s: Pid): seq<Event> {
    [StarterChecks(s), StarterLaunches(s), StarterHealthy(s)] + [StarterPublishes(s)]
  }

  /** The events can happen one after the other from `w` on, and lead to `v`. */
  ghost predicate Leads(w: World, events: seq<Event>, v: World) {
    Runs(w, events) && After(w, events) == v
  }

  lemma {:induction false} LeadsConcat(w: World, first: seq<Event>, u: World, second: seq<Event>, v: World)
    requires Leads(w, first, u) && Leads(u, second, v)
    ensures Leads(w, first + second, v)
    decreases |first|
  {
    if first == [] {
      assert first + second == second;
    } else {
      LeadsConcat(Apply(w, first[0]), first[1..], u, second, v);
      assert (first + second)[0] == first[0] && (first + second)[1..] == first[1..] + second;
    }
  }

  lemma LeadsOne(w: World, e: Event)
    requires Enabled(w, e)
    ensures Leads(w, [e], Apply(w, e))
  {
    assert [e][1..] == [];
    assert Runs(Apply(w, e), []);
  }

  lemma LeadsThen(w: World, events: seq<Event>, v: World, e: Event)
    requires Leads(w, events, v) && Enabled(v, e)
    ensures Leads(w, events + [e], Apply(v, e))
  {
    RunThenStep(w, events, e);
  }

  lemma LeadsThree(w: World, a: Event, b: Event, c: Event)
    requires Enabled(w, a) && Enabled(Apply(w, a), b) && Enabled(Apply(Apply(w, a), b), c)
    ensures Leads(w, [a, b, c], Apply(Apply(Apply(w, a), b), c))
  {
    LeadsOne(w, a);
    LeadsThen(w, [a], Apply(w, a), b);
    LeadsThen(w, [a] + [b], Apply(Apply(w, a), b), c);
    assert [a] + [b] + [c] == [a, b, c];
  }

  /** The starter has launched attempt `n`'s child, the last record. */
  ghost predicate Probing(w: World, key: Key, s: Pid, n: nat, m: MountId) {
    var child := |w.records| - 1;
    && Shows(w, key, s, Starting, StartingPage) && !w.closed && s < child
    && w.records[s].mount == Some(m) && !w.records[s].closed
    && w.records[s].child == NoChild && w.records[s].monitor.None? && w.records[s].exits == []
    && w.records[s].starter == Some(Probe(n, child))
    && var c := w.records[child];
      && c.key == key && c.child == Live && c.attempts == n && c.launches == n && c.exits == []
      && c.failureTimes == [] && c.mount.None? && !c.closed && !c.toClose && c.starter.None?
  }

  /** The starter has closed attempt `n`'s child and moves on to `next`. */
  ghost predicate Failed(w: World, key: Key, s: Pid, next: Starter, m: MountId) {
    && Shows(w, key, s, Starting, StartingPage) && !w.closed
    && var r := w.records[s];
      && r.mount == Some(m) && r.starter == Some(next) && r.child == NoChild && r.monitor.None?
      && !r.closed && r.exits == []
  }

  lemma AttemptFails(w: World, key: Key, s: Pid, n: nat, m: MountId)
    requires Probing(w, key, s, n, m) && 1 <= n <= 5
    ensures Enabled(w, StarterUnhealthy(s))
    ensures var v := Apply(w, StarterUnhealthy(s));
            Failed(v, key, s, if n < 5 then Check(n + 1) else GiveUp, m) && v.mounts == w.mounts
            && v.records[|w.records| - 1].child == Exited && v.records[|w.records| - 1].closed
  {
  }

  lemma AttemptBegins(w: World, key: Key, s: Pid, n: nat)
    requires StarterStands(w, key, s, n)
    ensures Enabled(w, StarterChecks(s)) && Enabled(Apply(w, StarterChecks(s)), StarterLaunches(s))
    ensures var v := Apply(Apply(w, StarterChecks(s)), StarterLaunches(s));
            Probing(v, key, s, n, w.records[s].mount.value) && v.mounts == w.mounts && v.records[s].attempts == n
  {
    var checked := Apply(w, StarterChecks(s));
    assert checked.records[s].starter == Some(Launch(n));
  }

  /** A failed attempt leaves the starter in front of the next one, or of giving up after the fifth. */
  lemma FailureGoesOn(w: World, key: Key, s: Pid, n: nat) returns (v: World)
    requires StarterStands(w, key, s, n) && 1 <= n <= 5
    ensures Leads(w, FailedAttempt(s), v) && v.mounts == w.mounts
    ensures Failed(v, key, s, if n < 5 then Check(n + 1) else GiveUp, w.records[s].mount.value)
  {
    AttemptBegins(w, key, s, n);
    var launched := Apply(Apply(w, StarterChecks(s)), StarterLaunches(s));
    AttemptFails(launched, key, s, n, w.records[s].mount.value);
    LeadsThree(w, StarterChecks(s), StarterLaunches(s), StarterUnhealthy(s));
    v := Apply(launched, StarterUnhealthy(s));
  }

  lemma SuccessIsPublished(w: World, key: Key, s: Pid, n: nat) returns (v: World)
    requires StarterStands(w, key, s, n) && n >= 1
    ensures Leads(w, GoodAttempt(s), v) && ReadyOn(v, key, n, w.records[s].mount.value)
  {
    AttemptBegins(w, key, s, n);
    var launched := Apply(Apply(w, StarterChecks(s)), StarterLaunches(s));
    PublishedAsStarted(launched, key, s, n, w.records[s].mount.value);
    LeadsThree(w, StarterChecks(s), StarterLaunches(s), StarterHealthy(s));
    var healthy := Apply(launched, StarterHealthy(s));
    LeadsThen(w, [StarterChecks(s), StarterLaunches(s), StarterHealthy(s)], healthy, StarterPublishes(s));
    v := Apply(healthy, StarterPublishes(s));
  }

  /** A start of a fresh chain that became healthy at attempt `n` is filed on the route object `m`. */
  ghost predicate ReadyOn(w: World, key: Key, n: nat, m: MountId) {
    && key in w.entries && Started(w, key, w.entries[key], Healthy(n), [], [], 0)
    && w.records[w.entries[key]].mount == Some(m)
  }

  lemma PublishedAsStarted(w: World, key: Key, s: Pid, n: nat, m: MountId)
    requires Probing(w, key, s, n, m) && n >= 1
    ensures Enabled(w, StarterHealthy(s)) && Enabled(Apply(w, StarterHealthy(s)), StarterPublishes(s))
    ensures var v := Apply(Apply(w, StarterHealthy(s)), StarterPublishes(s));
            ReadyOn(v, key, n, m)
  {
    var healthy := Apply(w, StarterHealthy(s));
    assert healthy.records[s].starter == Some(Publish(n, |w.records| - 1));
  }

  function FailedAttempts(s: Pid, count: nat): seq<Event> {
    if count == 0 then [] else FailedAttempt(s) + FailedAttempts(s, count - 1)
  }

  lemma {:induction false} FailuresGoOn(w: World, key: Key, s: Pid, n: nat, count: nat) returns (v: World)
    requires StarterStands(w, key, s, n) && 1 <= n && n + count <= 5
    ensures Leads(w, FailedAttempts(s, count), v) && StarterStands(v, key, s, n + count)
    ensures v.records[s].mount == w.records[s].mount
    decreases count
  {
    if count == 0 {
      v := w;
    } else {
      var u := FailureGoesOn(w, key, s, n);
      v := FailuresGoOn(u, key, s, n + 1, count - 1);
      LeadsConcat(w, FailedAttempt(s), u, FailedAttempts(s, count - 1), v);
    }
  }

  lemma StarterBegins(w: World, key: Key) returns (v: World)
    requires !w.closed && key !in w.entries
    ensures Leads(w, [HandleAsync(key, true, false, false)], v)
    ensures StarterStands(v, key, |w.records|, 1) && v.records[|w.records|].mount == Some(|w.mounts|)
  {
    HandleAsyncAchieves(w, key, true, false, false);
    LeadsOne(w, HandleAsync(key, true, false, false));
    v := Apply(w, HandleAsync(key, true, false, false));
  }

  /** Left alone, a background start whose attempt `n` is the first healthy one makes the app ready
      on the route that the first request was given. */
  lemma BackgroundStartSucceeds(w: World, key: Key, n: nat) returns (v: World)
    requires !w.closed && key !in w.entries && 1 <= n <= 5
    ensures var s := |w.records|;
            Leads(w, [HandleAsync(key, true, false, false)] + (FailedAttempts(s, n - 1) + GoodAttempt(s)), v)
    ensures ReadyOn(v, key, n, |w.mounts|)
  {
    var s := |w.records|;
    var begun := StarterBegins(w, key);
    var last := FailuresGoOn(begun, key, s, 1, n - 1);
    v := SuccessIsPublished(last, key, s, n);
    LeadsConcat(begun, FailedAttempts(s, n - 1), last, GoodAttempt(s), v);
    LeadsConcat(w, [HandleAsync(key, true, false, false)], begun, FailedAttempts(s, n - 1) + GoodAttempt(s), v);
  }

  /** Left alone, a background start whose five attempts all fail leaves the app crashed on that route. */
  lemma BackgroundStartGivesUp(w: World, key: Key) returns (v: World)
    requires !w.closed && key !in w.entries
    ensures var s := |w.records|;
            Leads(w, [HandleAsync(key, true, false, false)]
                     + (FailedAttempts(s, 4) + (FailedAttempt(s) + [StarterGivesUp(s)])), v)
    ensures CrashedOn(v, key, |w.mounts|)
  {
    var s := |w.records|;
    var begun := StarterBegins(w, key);
    var last := FailuresGoOn(begun, key, s, 1, 4);
    var failed := FailureGoesOn(last, key, s, 5);
    GivesUpOn(failed, key, s, |w.mounts|);
    v := Apply(failed, StarterGivesUp(s));
    LeadsThen(last, FailedAttempt(s), failed, StarterGivesUp(s));
    LeadsConcat(begun, FailedAttempts(s, 4), last, FailedAttempt(s) + [StarterGivesUp(s)], v);
    LeadsConcat(w, [HandleAsync(key, true, false, false)], begun,
                FailedAttempts(s, 4) + (FailedAttempt(s) + [StarterGivesUp(s)]), v);
  }

  ghost predicate CrashedOn(w: World, key: Key, m: MountId) {
    && key in w.entries && Shows(w, key, w.entries[key], Crashed, CrashPage)
    && var r := w.records[w.entries[key]];
      && r.mount == Some(m) && r.attempts == 5 && r.launches == 5 && r.child == NoChild
      && r.failureTimes == [] && r.exits == []
  }

  lemma GivesUpOn(w: World, key: Key, s: Pid, m: MountId)
    requires Failed(w, key, s, GiveUp, m)
    ensures Enabled(w, StarterGivesUp(s)) && CrashedOn(Apply(w, StarterGivesUp(s)), key, m)
  {
  }

  // ---- Entries that leave the map -------------------------------------------------------------

  /** Reconciliation stops exactly the filed apps that are gone and drops them from the map. */
  lemma ReconcileAchieves(w: World, gone: seq<Key>)
    requires Reachable(w)
    ensures var v := Apply(w, Reconcile(gone));
            && v.mounts == w.mounts && |v.records| == |w.records|
            && (forall key :: key in v.entries <==> key in w.entries && key !in gone)
            && (forall key | key in v.entries :: v.entries[key] == w.entries[key])
            && (forall p: Pid | IsRecord(w, p) ::
                  if Current(w, p) && w.records[p].key in gone then IsStopped(w.records[p], v.records[p])
                  else v.records[p] == w.records[p])
  {
    ReachableInv(w);
    TakenAtOnce(w, gone, CloseNow);
    var v := Apply(w, Reconcile(gone));
    forall p: Pid | IsRecord(w, p)
      ensures if Current(w, p) && w.records[p].key in gone then IsStopped(w.records[p], v.records[p])
              else v.records[p] == w.records[p]
    {
      assert v.records[p] == TakenRecord(w, gone, CloseNow, p);
    }
  }
}
