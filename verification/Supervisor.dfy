/** The manager's code: one method per critical section, updating the manager's fields in place.
    Each method is proved to make exactly the step its event makes in `SupervisorWorld`. */
module Supervisor {
  import opened Text
  import opened RestartBudget
  import opened SupervisorWorld
  import opened SupervisorStarts

  type Duration = nat

  /** What the machine answers while one synchronous start runs. */
  datatype Machine = Machine(portGranted: bool, runtimeFound: bool, logsOpened: bool, healthy: nat -> bool)

  function FirstHealthy(healthy: nat -> bool, attempt: nat, limit: nat): Outcome
    decreases limit + 1 - attempt
  {
    if attempt > limit then Exhausted
    else if healthy(attempt) then Healthy(attempt)
    else FirstHealthy(healthy, attempt + 1, limit)
  }

  /** The first question that gets a bad answer decides, in the order the source asks them. */
  function OutcomeOf(machine: Machine, failureTimes: seq<Time>): (outcome: Outcome)
    requires |failureTimes| <= MAXIMUM_START_ATTEMPTS
  {
    if !machine.portGranted then Refused
    else if !machine.runtimeFound then Missing
    else if !machine.logsOpened then Refused
    else FirstHealthy(machine.healthy, 1, MAXIMUM_START_ATTEMPTS - |failureTimes|)
  }

  lemma {:induction false} FirstHealthyIsFirst(healthy: nat -> bool, attempt: nat, limit: nat)
    ensures match FirstHealthy(healthy, attempt, limit)
            case Healthy(n) => attempt <= n <= limit && healthy(n) && forall i | attempt <= i < n :: !healthy(i)
            case Exhausted => forall i | attempt <= i <= limit :: !healthy(i)
            case _ => false
    decreases limit + 1 - attempt
  {
    if attempt <= limit && !healthy(attempt) {
      FirstHealthyIsFirst(healthy, attempt + 1, limit);
    }
  }

  /** How a start ends, in terms of the machine's answers: no port or no logs refuse it, no runtime is
      shown, and otherwise the first healthy one of the attempts left decides. */
  lemma OutcomeDecides(machine: Machine, failureTimes: seq<Time>)
    requires |failureTimes| <= MAXIMUM_START_ATTEMPTS
    ensures match OutcomeOf(machine, failureTimes)
            case Refused => !machine.portGranted || (machine.runtimeFound && !machine.logsOpened)
            case Missing => machine.portGranted && !machine.runtimeFound
            case Healthy(n) =>
              && machine.portGranted && machine.runtimeFound && machine.logsOpened && 1 <= n <= 5 - |failureTimes|
              && machine.healthy(n) && forall i | 1 <= i < n :: !machine.healthy(i)
            case Exhausted =>
              && machine.portGranted && machine.runtimeFound && machine.logsOpened
              && forall i | 1 <= i <= 5 - |failureTimes| :: !machine.healthy(i)
  {
    FirstHealthyIsFirst(machine.healthy, 1, MAXIMUM_START_ATTEMPTS - |failureTimes|);
  }

  /** Whatever the machine answers, the start ends in a way the transition system allows. */
  lemma OutcomesArePossible(machine: Machine, failureTimes: seq<Time>)
    requires |failureTimes| <= MAXIMUM_START_ATTEMPTS
    ensures Possible(OutcomeOf(machine, failureTimes), failureTimes)
  {
    FirstHealthyIsFirst(machine.healthy, 1, MAXIMUM_START_ATTEMPTS - |failureTimes|);
  }

  /** The delay slept after a failed attempt: the configured ones in turn, the last one repeated. */
  function DelayAfter(delays: seq<Duration>, attempt: nat): Duration
    requires delays != [] && attempt >= 1
  {
    delays[if attempt - 1 < |delays| then attempt - 1 else |delays| - 1]
  }

  /** The delays slept between `attempts` attempts. */
  function Backoff(delays: seq<Duration>, attempts: nat): (slept: seq<Duration>)
    requires delays != []
    ensures |slept| == if attempts == 0 then 0 else attempts - 1
    ensures forall i | 0 <= i < |slept| :: slept[i] == delays[if i < |delays| then i else |delays| - 1]
  {
    if attempts <= 1 then [] else Backoff(delays, attempts - 1) + [DelayAfter(delays, attempts - 1)]
  }

  /** The caller got the route object of the key's entry. */
  ghost predicate IsRouteOf(w: World, key: Key, route: MountId) {
    key in w.entries && IsRecord(w, w.entries[key]) && w.records[w.entries[key]].mount == Some(route)
  }

  lemma TakenNext(w: World, order: seq<Key>, key: Key, fate: Fate)
    ensures TakeAll(w, order + [key], fate) == TakeOne(TakeAll(w, order, fate), key, fate)
  {
    assert (order + [key])[..|order|] == order;
  }

  /** The list has the process of each key, in the order of the keys. */
  ghost predicate Paired(order: seq<Key>, list: seq<Pid>, entries: map<Key, Pid>) {
    |list| == |order| && forall i | 0 <= i < |list| :: order[i] in entries && list[i] == entries[order[i]]
  }

  ghost predicate Remaining(now: map<Key, Pid>, was: map<Key, Pid>, order: seq<Key>) {
    forall k :: (k in now <==> k in was && k !in order) && (k in now ==> now[k] == was[k])
  }

  lemma OneMoreTaken(now: map<Key, Pid>, was: map<Key, Pid>, order: seq<Key>, list: seq<Pid>, key: Key)
    requires Remaining(now, was, order) && Paired(order, list, was) && key in now
    ensures Remaining(now - {key}, was, order + [key])
    ensures Paired(order + [key], list + [now[key]], was)
    ensures |now - {key}| < |now|
  {
    assert now.Keys == (now - {key}).Keys + {key};
  }

  class Manager {
    var processes: map<Key, Pid>
    var records: seq<Record>
    var mounts: seq<Route>
    var closed: bool
    const restartDelays: seq<Duration>
    ghost var swept: bool
    ghost var lateLazy: bool
    ghost var clock: Time

    ghost function View(): World
      reads this
    {
      World(processes, records, mounts, closed, swept, lateLazy, clock)
    }

    constructor (delays: seq<Duration>)
      ensures View() == INITIAL
      ensures restartDelays == if delays == [] then [1000, 2000, 4000, 8000] else delays
    {
      processes, records, mounts, closed := map[], [], [], false;
      restartDelays := if delays == [] then [1000, 2000, 4000, 8000] else delays;
      swept, lateLazy, clock := false, false, 0;
    }

    method PublishLocked(key: Key, p: Pid, mount: Option<MountId>) returns (route: MountId)
      requires IsRecord(View(), p) && records[p].key == key
      requires mount.Some? ==> mount.value < |mounts|
      modifies this`processes, this`records, this`mounts
      ensures View() == Published(old(View()), p, old(records[p]), mount)
      ensures records[p].mount == Some(route) && IsRouteOf(View(), key, route)
    {
      if mount.None? {
        route := |mounts|;
        mounts := mounts + [Route(key, records[p].proxy)];
      } else {
        route := mount.value;
        mounts := mounts[route := Route(key, records[p].proxy)];
      }
      records := records[p := records[p].(mount := Some(route))];
      processes := processes[key := p];
    }

    method PublishNew(record: Record, mount: Option<MountId>) returns (route: MountId)
      requires mount.Some? ==> mount.value < |mounts|
      modifies this`processes, this`records, this`mounts
      ensures View() == Added(old(View()), record, mount) && IsRouteOf(View(), record.key, route)
    {
      records := records + [record];
      route := PublishLocked(record.key, |records| - 1, mount);
    }

    method CloseProcess(p: Pid)
      requires IsRecord(View(), p)
      modifies this`records
      ensures View() == With(old(View()), p, ClosedRecord(old(records[p])))
    {
      if records[p].child == Live {
        records := records[p := records[p].(closed := true, child := Exited)];
      } else {
        records := records[p := records[p].(closed := true)];
      }
    }

    /** The retry loop: try until healthy or out of budget, sleeping between the attempts. */
    method TryAttempts(attemptLimit: nat, machine: Machine) returns (outcome: Outcome, slept: seq<Duration>)
      requires restartDelays != []
      ensures outcome == FirstHealthy(machine.healthy, 1, attemptLimit) && (outcome.Healthy? || outcome.Exhausted?)
      ensures slept == Backoff(restartDelays, if outcome.Healthy? then outcome.attempt else attemptLimit)
    {
      slept := [];
      var attempt := 1;
      while attempt <= attemptLimit
        invariant 1 <= attempt <= attemptLimit + 1
        invariant FirstHealthy(machine.healthy, 1, attemptLimit)
               == FirstHealthy(machine.healthy, attempt, attemptLimit)
        invariant slept == Backoff(restartDelays, if attempt <= attemptLimit then attempt else attemptLimit)
      {
        if machine.healthy(attempt) {
          return Healthy(attempt), slept;
        }
        if attempt < attemptLimit {
          var delayIndex := attempt - 1;
          if delayIndex >= |restartDelays| {
            delayIndex := |restartDelays| - 1;
          }
          slept := slept + [restartDelays[delayIndex]];
        }
        attempt := attempt + 1;
      }
      return Exhausted, slept;
    }

    /** Asks for a port, a runtime and logs, then tries; no route means an error. */
    method StartLocked(key: Key, mount: Option<MountId>, failureTimes: seq<Time>, exits: seq<Time>,
                       launches: nat, machine: Machine)
      returns (route: Option<MountId>, slept: seq<Duration>)
      requires restartDelays != [] && |failureTimes| <= MAXIMUM_START_ATTEMPTS
      requires mount.Some? ==> mount.value < |mounts|
      modifies this`processes, this`records, this`mounts
      ensures var outcome := OutcomeOf(machine, failureTimes);
              && route.Some? == !outcome.Refused?
              && View() == (if route.Some?
                            then StartedLocked(old(View()), key, mount, failureTimes, exits, launches, outcome)
                            else old(View()))
              && slept == match outcome
                          case Healthy(attempt) => Backoff(restartDelays, attempt)
                          case Exhausted => Backoff(restartDelays, MAXIMUM_START_ATTEMPTS - |failureTimes|)
                          case _ => []
      ensures route.Some? ==> IsRouteOf(View(), key, route.value)
    {
      if !machine.portGranted {
        return None, [];
      }
      var chain := NewRecord(key).(exits := exits, launches := launches);
      var published;
      if !machine.runtimeFound {
        published := PublishNew(chain.(status := NeedsRuntime, proxy := RuntimePage), mount);
        return Some(published), [];
      }
      if !machine.logsOpened {
        return None, [];
      }
      var attemptLimit := MAXIMUM_START_ATTEMPTS - |failureTimes|;
      var outcome;
      outcome, slept := TryAttempts(attemptLimit, machine);
      if outcome.Healthy? {
        var attempt := outcome.attempt;
        published := PublishNew(chain.(
          status := Ready, proxy := ProxyPage(|records|), attempts := |failureTimes| + attempt,
          failureTimes := failureTimes, child := Live, monitor := Some(Watching),
          launches := launches + attempt), mount);
      } else {
        published := PublishNew(chain.(
          status := Crashed, proxy := CrashPage, attempts := |failureTimes| + attemptLimit,
          failureTimes := failureTimes, launches := launches + attemptLimit), mount);
      }
      route := Some(published);
    }

    method Handler(key: Key, autostart: bool, machine: Machine) returns (route: Option<MountId>)
      requires restartDelays != [] && (key in processes ==> HasMount(View(), processes[key]))
      modifies this`processes, this`records, this`mounts
      ensures View() == AfterHandle(old(View()), key, autostart, OutcomeOf(machine, []))
      ensures route.Some? ==> IsRouteOf(View(), key, route.value)
      ensures route.Some? <==> !old(closed)
                               && (key in old(processes) || !autostart || !OutcomeOf(machine, []).Refused?)
    {
      if closed {
        return None;
      }
      if key in processes {
        return records[processes[key]].mount;
      }
      if !autostart {
        var published := PublishNew(NewRecord(key).(proxy := LazyPage(|records|)), None);
        return Some(published);
      }
      var slept;
      route, slept := StartLocked(key, None, [], [], 0, machine);
    }

    method HandlerAsync(key: Key, autostart: bool, machine: Machine) returns (route: Option<MountId>)
      requires key in processes ==> HasMount(View(), processes[key])
      modifies this`processes, this`records, this`mounts
      ensures var refused := !machine.portGranted || (machine.runtimeFound && !machine.logsOpened);
              && View() == AfterHandleAsync(old(View()), key, autostart, refused, !machine.runtimeFound)
              && (route.Some? <==> !old(closed) && (key in old(processes) || !autostart || !refused))
      ensures route.Some? ==> IsRouteOf(View(), key, route.value)
    {
      if closed {
        return None;
      }
      if key in processes {
        return records[processes[key]].mount;
      }
      var published;
      if !autostart {
        published := PublishNew(NewRecord(key).(proxy := LazyPage(|records|)), None);
      } else if !machine.portGranted {
        return None;
      } else if !machine.runtimeFound {
        published := PublishNew(NewRecord(key).(status := NeedsRuntime, proxy := RuntimePage), None);
      } else if !machine.logsOpened {
        return None;
      } else {
        published := PublishNew(NewRecord(key).(status := Starting, starter := Some(Check(1))), None);
      }
      return Some(published);
    }

    method StartLazy(placeholder: Pid, machine: Machine) returns (route: Option<MountId>)
      requires restartDelays != [] && HasMount(View(), placeholder)
      requires var key := records[placeholder].key; key in processes ==> HasMount(View(), processes[key])
      modifies this`processes, this`records, this`mounts, this`lateLazy
      ensures View() == AfterLazy(old(View()), placeholder, OutcomeOf(machine, []))
      ensures var key := old(records[placeholder].key);
              && (route.Some? ==> IsRouteOf(View(), key, route.value))
              && (route.Some? <==> (key in old(processes) && old(processes)[key] != placeholder)
                                   || !OutcomeOf(machine, []).Refused?)
    {
      var key := records[placeholder].key;
      if key in processes && processes[key] != placeholder {
        return records[processes[key]].mount;
      }
      lateLazy := lateLazy || swept;
      processes := processes - {key};
      var slept;
      route, slept := StartLocked(key, records[placeholder].mount, [], [], 0, machine);
      if route.None? {
        var _ := PublishLocked(key, placeholder, records[placeholder].mount);
      }
    }

    /** The map is searched in any order. */
    method FindBySlug(slug: string, slugOf: Pid -> string) returns (key: Option<Key>)
      ensures match key
              case Some(k) => k in processes && slugOf(processes[k]) == slug
              case None => forall k | k in processes :: slugOf(processes[k]) != slug
    {
      var pending := processes.Keys;
      while pending != {}
        invariant pending <= processes.Keys
        invariant forall k | k in processes && k !in pending :: slugOf(processes[k]) != slug
        decreases |pending|
      {
        var candidate :| candidate in pending;
        if slugOf(processes[candidate]) == slug {
          return Some(candidate);
        }
        pending := pending - {candidate};
      }
      return None;
    }

    /** `slugOf` is the slug of each record's application; `found` is the entry that was restarted. */
    method Restart(slug: string, slugOf: Pid -> string, machine: Machine) returns (ok: bool, found: Option<Key>)
      requires restartDelays != []
      requires forall key | key in processes ::
                 HasMount(View(), processes[key]) && records[processes[key]].key == key
      modifies this`processes, this`records, this`mounts
      ensures match found
              case Some(key) =>
                && !old(closed) && key in old(processes) && slugOf(old(processes)[key]) == slug
                && HasMount(old(View()), old(processes)[key])
                && (if old(records)[old(processes)[key]].status == Starting then View() == old(View())
                    else Restarted(old(View()), View(), key, OutcomeOf(machine, [])))
                && View() == AfterRestart(old(View()), key, OutcomeOf(machine, []))
                && (ok <==> old(records)[old(processes)[key]].status != Starting && !OutcomeOf(machine, []).Refused?)
              case None =>
                && View() == old(View()) && !ok
                && (old(closed) || forall key | key in old(processes) :: slugOf(old(processes)[key]) != slug)
    {
      if closed {
        return false, None;
      }
      found := FindBySlug(slug, slugOf);
      match found
      case None => ok := false;
      case Some(key) => ok := RestartEntry(key, machine);
    }

    method RestartEntry(key: Key, machine: Machine) returns (ok: bool)
      requires restartDelays != [] && !closed && key in processes
      requires HasMount(View(), processes[key]) && records[processes[key]].key == key
      modifies this`processes, this`records, this`mounts
      ensures View() == AfterRestart(old(View()), key, OutcomeOf(machine, []))
      ensures if old(records)[old(processes)[key]].status == Starting then View() == old(View())
              else Restarted(old(View()), View(), key, OutcomeOf(machine, []))
      ensures ok <==> old(records)[old(processes)[key]].status != Starting && !OutcomeOf(machine, []).Refused?
    {
      var current := processes[key];
      if records[current].status == Starting {
        return false;
      }
      OutcomesArePossible(machine, []);
      StopAndStart(View(), key, OutcomeOf(machine, []));
      var mount := records[current].mount;
      CloseProcess(current);
      processes := processes - {key};
      var route, _ := StartLocked(key, mount, [], [], 0, machine);
      ok := route.Some?;
      if !ok {
        var _ := PublishNew(NewRecord(key).(status := Crashed, proxy := CrashPage), mount);
      }
    }

    /** Closes and drops every entry that the scan no longer lists, one after the other. */
    method Reconcile(active: set<Key>) returns (gone: seq<Key>)
      requires forall k | k in processes :: processes[k] < |records|
      modifies this`processes, this`records
      ensures View() == TakeAll(old(View()), gone, CloseNow)
      ensures forall k :: k in gone <==> k in old(processes) && k !in active
      ensures forall k :: k in processes <==> k in old(processes) && k in active
    {
      gone := [];
      var pending := processes.Keys;
      while pending != {}
        invariant pending <= old(processes).Keys
        invariant View() == TakeAll(old(View()), gone, CloseNow)
        invariant forall k | k in processes :: processes[k] < |records|
        invariant forall k :: k in gone <==> k in old(processes) && k !in active && k !in pending
        invariant forall k :: k in processes <==> k in old(processes) && k !in gone
        decreases |pending|
      {
        var key :| key in pending;
        pending := pending - {key};
        if key !in active {
          TakenNext(old(View()), gone, key, CloseNow);
          gone := gone + [key];
          TakeOut(key, CloseNow);
        }
      }
    }

    /** One entry leaves the map; its process is closed now or listed to be closed. */
    method TakeOut(key: Key, fate: Fate)
      requires key in processes && processes[key] < |records|
      modifies this`processes, this`records
      ensures View() == TakeOne(old(View()), key, fate)
      ensures processes == old(processes) - {key} && |records| == |old(records)|
    {
      var p := processes[key];
      records := records[p := Fated(fate, records[p])];
      processes := processes - {key};
    }

    method StarterChecks(s: Pid) returns (wanted: bool)
      requires StarterAt(View(), s) && records[s].starter.value.Check?
      modifies this`records
      ensures View() == AfterCheck(old(View()), s)
      ensures wanted <==> !old(closed) && Current(old(View()), s)
    {
      var key, attempt := records[s].key, records[s].starter.value.attempt;
      if closed || !(key in processes && processes[key] == s) {
        records := records[s := records[s].(starter := None)];
        return false;
      }
      records := records[s := records[s].(starter := Some(Launch(attempt)), attempts := attempt)];
      return true;
    }

    method StarterPublishes(s: Pid) returns (published: bool)
      requires StarterAt(View(), s) && records[s].starter.value.Publish?
      requires records[records[s].starter.value.child].key == records[s].key && records[s].starter.value.child != s
      modifies this`processes, this`records, this`mounts
      ensures View() == AfterPublish(old(View()), s)
      ensures published <==> !old(closed) && Current(old(View()), s)
    {
      var key, child, mount := records[s].key, records[s].starter.value.child, records[s].mount;
      if closed || !(key in processes && processes[key] == s) {
        records := records[s := records[s].(starter := Some(Discard(child)))];
        return false;
      }
      records := records[s := records[s].(starter := None)];
      records := records[child := records[child].(
        status := Ready, proxy := ProxyPage(child), monitor := Some(Watching))];
      var _ := PublishLocked(key, child, mount);
      assert records == AfterPublish(old(View()), s).records;
      return true;
    }

    /** An attempt came to nothing: no child, or one that was closed because it did not become
        healthy. The starter sleeps the delay before its next attempt; after the last there is none. */
    method StarterFails(s: Pid) returns (delay: Option<Duration>)
      requires restartDelays != [] && StarterAt(View(), s)
      requires records[s].starter.value.Launch? || records[s].starter.value.Probe?
      requires records[s].starter.value.attempt >= 1
      modifies this`records
      ensures View() == if old(records[s].starter.value.Launch?) then AfterNoLaunch(old(View()), s)
                        else AfterUnhealthy(old(View()), s)
      ensures var attempt := old(records[s].starter.value.attempt);
              && delay == (if attempt < MAXIMUM_START_ATTEMPTS then Some(DelayAfter(restartDelays, attempt)) else None)
              && records[s].starter == Some(if delay.Some? then Check(attempt + 1) else GiveUp)
    {
      var starter := records[s].starter.value;
      if starter.Probe? {
        CloseProcess(starter.child);
      }
      if starter.attempt < MAXIMUM_START_ATTEMPTS {
        var delayIndex := starter.attempt - 1;
        if delayIndex >= |restartDelays| {
          delayIndex := |restartDelays| - 1;
        }
        records := records[s := records[s].(starter := Some(Check(starter.attempt + 1)))];
        return Some(restartDelays[delayIndex]);
      }
      records := records[s := records[s].(starter := Some(GiveUp))];
      return None;
    }

    method StarterGivesUp(s: Pid)
      requires StarterAt(View(), s)
      modifies this`processes, this`records, this`mounts
      ensures View() == AfterGiveUp(old(View()), s)
    {
      var key, mount := records[s].key, records[s].mount;
      var current := key in processes && processes[key] == s;
      records := records[s := records[s].(starter := None)];
      if !closed && current {
        var _ := PublishNew(NewRecord(key).(
          status := Crashed, proxy := CrashPage, attempts := MAXIMUM_START_ATTEMPTS,
          launches := MAXIMUM_START_ATTEMPTS), mount);
      }
    }

    /** Prunes the stored failures in their own storage, books the exit, and decides. */
    method MonitorDecides(p: Pid) returns (delay: Option<Duration>)
      requires restartDelays != [] && MonitorAt(View(), p) && records[p].monitor.value.Observed?
      modifies this`records, this`mounts
      ensures View() == AfterDecide(old(View()), p)
      ensures delay == if records[p].monitor == Some(Delaying) then Some(restartDelays[0]) else None
    {
      var record := records[p];
      var now := record.monitor.value.now;
      if closed || !(record.key in processes && processes[record.key] == p) {
        records := records[p := record.(monitor := None)];
        return None;
      }
      var stored := new Time[|record.failureTimes|](i requires 0 <= i < |record.failureTimes| =>
        record.failureTimes[i]);
      assert stored[..] == record.failureTimes;
      var kept := PruneInPlace(stored, now);
      var failureTimes := stored[..kept] + [now];
      record := record.(failureTimes := failureTimes, exits := record.exits + [now]);
      if |failureTimes| >= MAXIMUM_START_ATTEMPTS {
        record := record.(status := Crashed, attempts := |failureTimes|, proxy := CrashPage, monitor := None);
        records := records[p := record];
        mounts := mounts[record.mount.value := Route(record.key, CrashPage)];
        CloseProcess(p);
        return None;
      }
      records := records[p := record.(status := Starting, monitor := Some(Delaying))];
      mounts := mounts[record.mount.value := Route(record.key, StartingPage)];
      return Some(restartDelays[0]);
    }

    method MonitorFires(p: Pid, machine: Machine)
      requires restartDelays != [] && MonitorAt(View(), p)
      requires |records[p].failureTimes| <= MAXIMUM_START_ATTEMPTS
      modifies this`processes, this`records, this`mounts
      ensures Possible(OutcomeOf(machine, old(records[p].failureTimes)), old(records[p].failureTimes))
      ensures View() == AfterDelay(old(View()), p, OutcomeOf(machine, old(records[p].failureTimes)))
      ensures !old(closed) && Current(old(View()), p) ==>
                ChainGoesOn(old(View()), View(), p, OutcomeOf(machine, old(records[p].failureTimes)))
    {
      OutcomesArePossible(machine, records[p].failureTimes);
      var key := records[p].key;
      if closed || !(key in processes && processes[key] == p) {
        records := records[p := records[p].(monitor := None)];
        return;
      }
      RestartCarriesOn(View(), p, OutcomeOf(machine, records[p].failureTimes));
      StopForRestart(p);
      var record := records[p];
      var route, _ := StartLocked(key, record.mount, record.failureTimes, record.exits, record.launches, machine);
      if route.None? {
        PutBackCrashed(p);
      }
    }

    /** The monitor is done with its record, whose process it closes and takes out of the map. */
    method StopForRestart(p: Pid)
      requires IsRecord(View(), p)
      modifies this`processes, this`records
      ensures var record := ClosedRecord(old(records[p])).(monitor := None);
              View() == Unfiled(With(old(View()), p, record), record.key) && records[p] == record
    {
      records := records[p := records[p].(monitor := None)];
      CloseProcess(p);
      processes := processes - {records[p].key};
    }

    method PutBackCrashed(p: Pid)
      requires HasMount(View(), p)
      modifies this`processes, this`records, this`mounts
      ensures var record := old(records[p]).(status := Crashed, proxy := CrashPage);
              View() == Published(old(View()), p, record, record.mount)
    {
      records := records[p := records[p].(status := Crashed, proxy := CrashPage)];
      var _ := PublishLocked(records[p].key, p, records[p].mount);
    }

    method CloseBegins() returns (first: bool)
      modifies this`closed
      ensures View() == old(View()).(closed := true) && first == !old(closed)
    {
      first := !closed;
      closed := true;
    }

    /** Moves every entry from the map to the list that is closed outside the lock. */
    method CloseSweeps() returns (list: seq<Pid>, ghost order: seq<Key>)
      requires forall k | k in processes :: processes[k] < |records|
      modifies this`processes, this`records, this`swept
      ensures View() == TakeAll(old(View()), order, CloseLater).(swept := true)
      ensures forall k :: k in order <==> k in old(processes)
      ensures processes == map[]
      ensures Paired(order, list, old(processes))
    {
      list, order := [], [];
      while processes.Keys != {}
        invariant View() == TakeAll(old(View()), order, CloseLater)
        invariant forall k | k in processes :: processes[k] < |records|
        invariant Remaining(processes, old(processes), order)
        invariant Paired(order, list, old(processes))
        decreases |processes|
      {
        var key :| key in processes;
        TakenNext(old(View()), order, key, CloseLater);
        OneMoreTaken(processes, old(processes), order, list, key);
        order, list := order + [key], list + [processes[key]];
        TakeOut(key, CloseLater);
      }
      swept := true;
    }
  }
}
