/** What every run of the command-app manager keeps. Each part of the invariant speaks about one
    process record at a time. */
module SupervisorInvariants {
  import opened Text
  import opened RestartBudget
  import opened SupervisorWorld

  /** A key is filed with a record of its own; after shutdown emptied the map only a late lazy
      start refills it. */
  ghost predicate EntryOk(w: World, k: Key) {
    k in w.entries ==>
      IsRecord(w, w.entries[k]) && w.records[w.entries[k]].key == k && (w.swept ==> w.lateLazy)
  }

  ghost predicate Shape(w: World, p: Pid)
    requires IsRecord(w, p)
  {
    var r := w.records[p];
    && (r.mount.Some? ==> r.mount.value < |w.mounts| && w.mounts[r.mount.value].key == r.key)
    && (Current(w, p) ==> r.mount.Some?)
    && (r.status == Stopped && r.mount.Some? ==> r.proxy == LazyPage(p) && r.child == NoChild)
    && (r.starter.Some? ==>
          && r.mount.Some? && r.child == NoChild && r.status == Starting && r.monitor.None? && !w.swept
          && (r.starter.value.Discard? ==> w.closed || !Current(w, p))
          && (ChildOf(r.starter).Some? ==> Unplaced(w, p, ChildOf(r.starter).value)))
    && (r.monitor.Some? ==> r.mount.Some? && r.child != NoChild)
  }

  /** A child its starter has launched and not yet published or closed. */
  ghost predicate Unplaced(w: World, s: Pid, child: Pid) {
    && IsRecord(w, child) && IsRecord(w, s)
    && var c := w.records[child];
      && c.launchedBy == Some(s) && c.key == w.records[s].key && c.child != NoChild
      && c.status == Stopped && c.mount.None? && !c.closed && !c.toClose && c.starter.None? && c.monitor.None?
  }

  ghost predicate Held(w: World, p: Pid)
    requires IsRecord(w, p)
  {
    && w.records[p].launchedBy.Some? && IsRecord(w, w.records[p].launchedBy.value)
    && ChildOf(w.records[w.records[p].launchedBy.value].starter) == Some(p)
  }

  /** A live child is the entry of its key, or held by the starter that launched it, or on a
      shutdown's list; and never on that list and in the map. */
  ghost predicate Owned(w: World, p: Pid)
    requires IsRecord(w, p)
  {
    var r := w.records[p];
    && (r.child == Live ==> Current(w, p) || r.toClose || Held(w, p))
    && (r.toClose ==> w.swept)
    && (r.toClose && r.child != NoChild ==> !Current(w, p))
  }

  predicate Serves(status: Status, p: Pid, page: Page) {
    match status
    case Stopped => page == LazyPage(p)
    case Starting => page == StartingPage
    case Ready => page == ProxyPage(p)
    case Crashed => page == CrashPage
    case NeedsRuntime => page == RuntimePage
  }

  /** The route object of an entry serves what the entry's status says. */
  ghost predicate Routed(w: World, p: Pid)
    requires IsRecord(w, p)
  {
    Current(w, p) && HasMount(w, p) ==>
      Serves(w.records[p].status, p, w.mounts[w.records[p].mount.value].target)
  }

  /** Until shutdown begins, a ready entry is watched, and a starting entry has a starter or waits
      out its restart delay. */
  ghost predicate Driven(w: World, p: Pid)
    requires IsRecord(w, p)
  {
    var r := w.records[p];
    && (Current(w, p) && r.status == Ready && !w.closed ==>
          r.monitor.Some? && !r.monitor.value.Delaying? && !r.closed)
    && (Current(w, p) && r.status == Starting && !w.closed ==>
          !r.closed && (r.starter.Some? || r.monitor == Some(Delaying)))
    && (r.monitor.Some? ==>
          r.status == (if r.monitor.value.Delaying? then Starting else Ready)
          && (r.monitor.value.Watching? || r.child == Exited))
    && (r.mount.Some? && r.child == Live ==> r.status == Ready)
  }

  /** The stored failures are the window of the whole exit history, and the history paid for
      every launch. */
  ghost predicate InBudget(w: World, p: Pid)
    requires IsRecord(w, p)
  {
    var r := w.records[p];
    && r.attempts <= MAXIMUM_START_ATTEMPTS
    && AllBy(r.exits, LastSeen(w, p)) && LastSeen(w, p) <= w.clock
    && (r.status != NeedsRuntime ==> Tracks(r.failureTimes, r.exits))
    && |r.failureTimes| <= (if r.status == Crashed then MAXIMUM_START_ATTEMPTS else MAXIMUM_START_ATTEMPTS - 1)
    && (r.monitor == Some(Delaying) ==> r.exits != [])
    && (Compact(r.exits) ==> Paid(r))
    && (r.starter.Some? ==> StarterInBudget(w, r.starter.value))
  }

  ghost function LastSeen(w: World, p: Pid): Time
    requires IsRecord(w, p)
  {
    match w.records[p].monitor
    case Some(Observed(now)) => now
    case _ => w.clock
  }

  ghost predicate Paid(r: Record) {
    && r.launches <= 15
    && (r.status == Ready ==> r.launches <= LaunchBound(|r.exits|))
    && (r.status == Starting && r.exits != [] ==> r.launches <= LaunchBound(|r.exits| - 1))
  }

  ghost predicate StarterInBudget(w: World, starter: Starter) {
    match starter
    case Check(attempt) => 1 <= attempt <= MAXIMUM_START_ATTEMPTS
    case Launch(attempt) => 1 <= attempt <= MAXIMUM_START_ATTEMPTS
    case Probe(attempt, child) => ChildInBudget(w, attempt, child)
    case Publish(attempt, child) => ChildInBudget(w, attempt, child)
    case _ => true
  }

  ghost predicate ChildInBudget(w: World, attempt: nat, child: Pid) {
    && 1 <= attempt <= MAXIMUM_START_ATTEMPTS
    && IsRecord(w, child)
    && w.records[child].launches == attempt && w.records[child].exits == []
  }

  ghost predicate RecordOk(w: World, p: Pid) {
    IsRecord(w, p) ==> Shape(w, p) && Owned(w, p) && Routed(w, p) && Driven(w, p) && InBudget(w, p)
  }

  ghost predicate Inv(w: World) {
    && (w.swept ==> w.closed)
    && (forall k :: EntryOk(w, k))
    && (forall p :: RecordOk(w, p))
  }

  lemma InitialInv()
    ensures Inv(INITIAL)
  {
  }

  // ---- The helpers keep the invariant ---------------------------------------------------------

  /** Inv, except that nothing is claimed about record `p`. */
  ghost predicate InvBut(w: World, p: Pid) {
    && (w.swept ==> w.closed)
    && (forall k :: EntryOk(w, k))
    && (forall q: Pid | q != p :: RecordOk(w, q))
  }

  /** A record ready to be published: nothing else refers to it, and it is right about itself. */
  ghost predicate Publishable(w: World, p: Pid, r: Record) {
    && (r.toClose ==> w.swept && r.child == NoChild) && (w.swept ==> w.lateLazy)
    && (r.starter.Some? ==> r.starter == Some(Check(1)) && r.status == Starting && r.child == NoChild && !w.swept)
    && (r.monitor.Some? ==> r.monitor == Some(Watching))
    && (r.monitor.Some? <==> r.status == Ready)
    && (r.status == Starting <==> r.starter.Some?)
    && (r.status == Ready || r.status == Starting ==> !r.closed) && (r.status == Ready ==> r.child != NoChild)
    && Serves(r.status, p, r.proxy) && (r.status == Stopped ==> r.child == NoChild)
    && (r.child == Live ==> r.status == Ready)
    && r.attempts <= MAXIMUM_START_ATTEMPTS
    && AllBy(r.exits, w.clock)
    && (r.status != NeedsRuntime ==> Tracks(r.failureTimes, r.exits))
    && |r.failureTimes| <= (if r.status == Crashed then MAXIMUM_START_ATTEMPTS else MAXIMUM_START_ATTEMPTS - 1)
    && (Compact(r.exits) ==> Paid(r))
  }

  lemma PublishedKeepsOther(w: World, p: Pid, record: Record, mount: Option<MountId>, q: Pid)
    requires IsRecord(w, p) && RecordOk(w, q) && q != p && IsRecord(w, q)
    requires record.key !in w.entries && w.records[p].key == record.key
    requires mount.Some? ==> mount.value < |w.mounts| && w.mounts[mount.value].key == record.key
    requires ChildOf(w.records[p].starter).None? && ChildOf(w.records[q].starter) != Some(p)
    ensures RecordOk(Published(w, p, record, mount), q)
  {
  }

  lemma PublishedKeeps(w: World, p: Pid, record: Record, mount: Option<MountId>)
    requires IsRecord(w, p) && InvBut(w, p) && Publishable(w, p, record)
    requires record.key !in w.entries && w.records[p].key == record.key
    requires mount.Some? ==> mount.value < |w.mounts| && w.mounts[mount.value].key == record.key
    requires ChildOf(w.records[p].starter).None?
    requires forall q: Pid | IsRecord(w, q) && q != p :: ChildOf(w.records[q].starter) != Some(p)
    ensures Inv(Published(w, p, record, mount))
  {
    var v := Published(w, p, record, mount);
    forall k ensures EntryOk(v, k) {
      assert EntryOk(w, k);
    }
    forall q: Pid ensures RecordOk(v, q) {
      if q != p && IsRecord(w, q) {
        assert RecordOk(w, q);
        PublishedKeepsOther(w, p, record, mount, q);
      }
    }
  }

  lemma AppendedKeeps(w: World, record: Record)
    requires Inv(w)
    ensures InvBut(w.(records := w.records + [record]), |w.records|)
    ensures forall q: Pid | IsRecord(w, q) :: ChildOf(w.records[q].starter) != Some(|w.records|)
  {
    var v := w.(records := w.records + [record]);
    forall k ensures EntryOk(v, k) {
      assert EntryOk(w, k);
    }
    forall q: Pid | q != |w.records| ensures RecordOk(v, q) {
      assert RecordOk(w, q);
    }
    forall q: Pid | IsRecord(w, q) ensures ChildOf(w.records[q].starter) != Some(|w.records|) {
      assert RecordOk(w, q);
    }
  }

  lemma AddedKeeps(w: World, record: Record, mount: Option<MountId>)
    requires Inv(w) && Publishable(w, |w.records|, record)
    requires record.key !in w.entries
    requires mount.Some? ==> mount.value < |w.mounts| && w.mounts[mount.value].key == record.key
    ensures Inv(Added(w, record, mount))
  {
    AppendedKeeps(w, record);
    PublishedKeeps(w.(records := w.records + [record]), |w.records|, record, mount);
  }

  /** A restart after the n-th exit finds LaunchBound(n-1) launches spent and may spend 5 - n more. */
  lemma StartIsPaid(failureTimes: seq<Time>, exits: seq<Time>, launches: nat, spent: nat)
    requires Tracks(failureTimes, exits) && Compact(exits) && spent <= MAXIMUM_START_ATTEMPTS - |failureTimes|
    requires launches <= if exits == [] then 0 else LaunchBound(|exits| - 1)
    ensures launches + spent <= LaunchBound(|exits|) <= 15
    ensures launches <= 15
  {
    CompactListIsWholeHistory(failureTimes, exits);
    LaunchBoundIsFifteen(|exits|);
  }

  /** A started record is publishable when its chain is within budget. */
  lemma StartedIsPublishable(w: World, key: Key, failureTimes: seq<Time>, exits: seq<Time>, launches: nat,
                             outcome: Outcome)
    requires !outcome.Refused? && Possible(outcome, failureTimes) && (w.swept ==> w.lateLazy)
    requires Tracks(failureTimes, exits) && AllBy(exits, w.clock) && |failureTimes| < MAXIMUM_START_ATTEMPTS
    requires Compact(exits) ==> launches <= if exits == [] then 0 else LaunchBound(|exits| - 1)
    ensures Publishable(w, |w.records|,
              StartedRecord(key, |w.records|, failureTimes, exits, launches, outcome))
  {
    if Compact(exits) {
      StartIsPaid(failureTimes, exits, launches,
                  if outcome.Healthy? then outcome.attempt else MAXIMUM_START_ATTEMPTS - |failureTimes|);
    }
  }

  lemma RemovedKeepsOther(w: World, p: Pid, record: Record, q: Pid)
    requires Inv(w) && IsRecord(w, p) && Current(w, p) && IsRecord(w, q) && q != p
    requires record == ClosedRecord(w.records[p]) || record == ClosedRecord(w.records[p]).(monitor := None)
    ensures RecordOk(Unfiled(With(w, p, record), w.records[p].key), q)
  {
    assert RecordOk(w, q) && RecordOk(w, p);
  }

  /** Closing an entry and taking it out of the map, with or without its monitor. */
  lemma RemovedKeeps(w: World, p: Pid, record: Record)
    requires Inv(w) && IsRecord(w, p) && Current(w, p)
    requires record == ClosedRecord(w.records[p]) || record == ClosedRecord(w.records[p]).(monitor := None)
    ensures Inv(Unfiled(With(w, p, record), w.records[p].key))
  {
    var v := Unfiled(With(w, p, record), w.records[p].key);
    assert RecordOk(w, p);
    forall k ensures EntryOk(v, k) {
      assert EntryOk(w, k);
    }
    forall q: Pid ensures RecordOk(v, q) {
      assert RecordOk(w, q);
      if IsRecord(w, q) && q != p {
        RemovedKeepsOther(w, p, record, q);
      }
    }
  }

  lemma UnfiledKeeps(w: World, key: Key)
    requires Inv(w)
    requires key in w.entries ==> IsRecord(w, w.entries[key]) && w.records[w.entries[key]].child != Live
    ensures Inv(Unfiled(w, key))
  {
    var v := Unfiled(w, key);
    forall k ensures EntryOk(v, k) {
      assert EntryOk(w, k);
    }
    forall q: Pid ensures RecordOk(v, q) {
      assert RecordOk(w, q);
    }
  }

  /** A record that has a route object is held by no starter. */
  lemma MountedIsNotHeld(w: World, p: Pid)
    requires Inv(w) && IsRecord(w, p) && w.records[p].mount.Some?
    ensures forall q: Pid | IsRecord(w, q) :: ChildOf(w.records[q].starter) != Some(p)
  {
    forall q: Pid | IsRecord(w, q) ensures ChildOf(w.records[q].starter) != Some(p) {
      assert RecordOk(w, q);
    }
  }

  lemma HeldIsUnplaced(w: World, p: Pid)
    requires Inv(w) && IsRecord(w, p)
    ensures Held(w, p) ==> Unplaced(w, w.records[p].launchedBy.value, p)
  {
    if Held(w, p) {
      assert RecordOk(w, w.records[p].launchedBy.value);
    }
  }

  /** What the other records rely on when record `p` changes. */
  ghost predicate Compatible(w: World, p: Pid, r: Record)
    requires IsRecord(w, p)
  {
    var was := w.records[p];
    && r.key == was.key && r.mount == was.mount && r.launchedBy == was.launchedBy
    && r.launches == was.launches
    && (was.child == NoChild <==> r.child == NoChild) && (r.toClose ==> was.toClose)
    && (was.starter.None? ==> r.starter.None?) && (was.monitor.None? ==> r.monitor.None?)
    && ((r.exits == was.exits && r.closed == was.closed && r.status == was.status) || !Held(w, p))
  }

  lemma OthersKeep(w: World, p: Pid, r: Record, q: Pid)
    requires Inv(w) && IsRecord(w, p) && Compatible(w, p, r) && q != p
    requires ChildOf(w.records[p].starter) == Some(q) && ChildOf(r.starter) != Some(q) ==>
               IsRecord(w, q) && w.records[q].child != Live
    ensures RecordOk(With(w, p, r), q)
  {
    assert RecordOk(w, q) && RecordOk(w, p);
    if IsRecord(w, q) {
      OthersKeepShape(w, p, r, q);
      OthersKeepBudget(w, p, r, q);
    }
  }

  lemma OthersKeepShape(w: World, p: Pid, r: Record, q: Pid)
    requires IsRecord(w, p) && IsRecord(w, q) && Compatible(w, p, r) && q != p
    requires RecordOk(w, q)
    ensures Shape(With(w, p, r), q)
  {
    HeldByItsLauncher(w, q);
  }

  lemma OthersKeepBudget(w: World, p: Pid, r: Record, q: Pid)
    requires IsRecord(w, p) && IsRecord(w, q) && Compatible(w, p, r) && q != p
    requires RecordOk(w, q)
    ensures InBudget(With(w, p, r), q)
  {
    HeldByItsLauncher(w, q);
  }

  /** The child a starter holds names it as its launcher. */
  lemma HeldByItsLauncher(w: World, s: Pid)
    requires IsRecord(w, s) && RecordOk(w, s)
    ensures ChildOf(w.records[s].starter).Some? ==>
              var c := ChildOf(w.records[s].starter).value; IsRecord(w, c) && Held(w, c)
  {
  }

  /** A change to one record keeps the invariant when that record is right about itself. */
  lemma WithKeeps(w: World, p: Pid, r: Record)
    requires Inv(w) && IsRecord(w, p) && Compatible(w, p, r) && RecordOk(With(w, p, r), p)
    requires ChildOf(w.records[p].starter).Some? && ChildOf(r.starter) != ChildOf(w.records[p].starter) ==>
               var c := ChildOf(w.records[p].starter).value; IsRecord(w, c) && w.records[c].child != Live
    ensures Inv(With(w, p, r))
  {
    var v := With(w, p, r);
    forall k ensures EntryOk(v, k) {
      assert EntryOk(w, k);
    }
    forall q: Pid ensures RecordOk(v, q) {
      if q != p {
        OthersKeep(w, p, r, q);
      }
    }
  }

  /** The entry `p` and its route object change together. */
  lemma RetargetKeeps(w: World, p: Pid, r: Record, page: Page)
    requires Inv(w) && HasMount(w, p) && Current(w, p) && Compatible(w, p, r)
    requires r.starter == w.records[p].starter
    requires var v := With(w, p, r).(mounts := w.mounts[r.mount.value := Route(r.key, page)]); RecordOk(v, p)
    ensures Inv(With(w, p, r).(mounts := w.mounts[r.mount.value := Route(r.key, page)]))
  {
    var v := With(w, p, r).(mounts := w.mounts[r.mount.value := Route(r.key, page)]);
    assert RecordOk(w, p);
    forall k ensures EntryOk(v, k) {
      assert EntryOk(w, k);
    }
    forall q: Pid ensures RecordOk(v, q) {
      if q != p {
        OthersKeep(w, p, r, q);
      }
    }
  }

  /** The starter `s` moves on to a position without its child, whose process is gone. */
  lemma LetGoKeeps(w: World, s: Pid, child: Pid, next: Option<Starter>)
    requires Inv(w) && IsRecord(w, s) && ChildOf(w.records[s].starter) == Some(child) && IsRecord(w, child)
    requires ChildOf(next).None? && (next.Some? ==> StarterInBudget(w, next.value))
    requires next.None? ==> w.closed || !Current(w, s)
    ensures s != child
    ensures Inv(WithStarter(With(w, child, w.records[child].(child := Exited)), s, next))
  {
    ChildIsGone(w, s, child);
    var gone := With(w, child, w.records[child].(child := Exited));
    assert RecordOk(gone, s);
    WithKeeps(gone, s, gone.records[s].(starter := next));
  }

  lemma ChildIsGone(w: World, s: Pid, child: Pid)
    requires Inv(w) && IsRecord(w, s) && ChildOf(w.records[s].starter) == Some(child) && IsRecord(w, child)
    ensures s != child && Inv(With(w, child, w.records[child].(child := Exited)))
  {
    assert RecordOk(w, s) && RecordOk(w, child);
    WithKeeps(w, child, w.records[child].(child := Exited));
  }

  /** Closing a record that nobody holds and that was never published. */
  lemma MarkedClosedKeeps(w: World, p: Pid)
    requires Inv(w) && IsRecord(w, p) && !Held(w, p) && !Current(w, p) && w.records[p].mount.None?
    requires w.records[p].starter.None?
    ensures Inv(With(w, p, w.records[p].(closed := true)))
  {
    assert RecordOk(w, p);
    WithKeeps(w, p, w.records[p].(closed := true));
  }

  /** The starter `s` closes its child and moves on. */
  lemma ReleasedKeeps(w: World, s: Pid, child: Pid, next: Option<Starter>)
    requires Inv(w) && IsRecord(w, s) && ChildOf(w.records[s].starter) == Some(child) && IsRecord(w, child)
    requires ChildOf(next).None? && (next.Some? ==> StarterInBudget(w, next.value))
    requires next.None? ==> w.closed || !Current(w, s)
    ensures Inv(WithStarter(With(w, child, ClosedRecord(w.records[child])), s, next))
  {
    LetGoKeeps(w, s, child, next);
    var v := WithStarter(With(w, child, w.records[child].(child := Exited)), s, next);
    assert Unplaced(w, s, child) && !Current(v, child) by {
      assert RecordOk(w, s) && RecordOk(w, child);
    }
    MarkedClosedKeeps(v, child);
    assert With(v, child, v.records[child].(closed := true)).records
        == WithStarter(With(w, child, ClosedRecord(w.records[child])), s, next).records;
  }

  /** A monitor that finds its process closed or displaced just ends. */
  lemma MonitorLeaves(w: World, p: Pid)
    requires Inv(w) && IsRecord(w, p) && w.records[p].monitor.Some?
    requires w.closed || !Current(w, p) || w.records[p].closed
    ensures Inv(WithMonitor(w, p, None))
  {
    assert RecordOk(w, p);
    WithKeeps(w, p, w.records[p].(monitor := None));
  }

  /** A starter without a child that is no longer wanted just ends. */
  lemma StarterLeaves(w: World, s: Pid)
    requires Inv(w) && IsRecord(w, s) && w.records[s].starter.Some? && ChildOf(w.records[s].starter).None?
    requires w.closed || !Current(w, s) || w.records[s].closed
    ensures Inv(WithStarter(w, s, None))
  {
    assert RecordOk(w, s);
    WithKeeps(w, s, w.records[s].(starter := None));
  }

  // ---- Every event keeps the invariant --------------------------------------------------------

  lemma LateKeeps(w: World)
    requires Inv(w)
    ensures Inv(w.(lateLazy := w.lateLazy || w.swept))
  {
    var v := w.(lateLazy := w.lateLazy || w.swept);
    forall k ensures EntryOk(v, k) {
      assert EntryOk(w, k);
    }
    forall q: Pid ensures RecordOk(v, q) {
      assert RecordOk(w, q);
    }
  }

  lemma TickKeeps(w: World, now: Time)
    requires Inv(w) && w.clock <= now
    ensures Inv(w.(clock := now))
  {
    var v := w.(clock := now);
    forall k ensures EntryOk(v, k) {
      assert EntryOk(w, k);
    }
    forall q: Pid ensures RecordOk(v, q) {
      assert RecordOk(w, q);
    }
  }

  lemma ChildExitsKeeps(w: World, p: Pid)
    requires Inv(w) && IsRecord(w, p) && w.records[p].child == Live
    ensures Inv(With(w, p, w.records[p].(child := Exited)))
  {
    var v := With(w, p, w.records[p].(child := Exited));
    assert RecordOk(w, p);
    WithKeeps(w, p, v.records[p]);
  }

  lemma HandleKeeps(w: World, key: Key, autostart: bool, outcome: Outcome)
    requires Inv(w) && Possible(outcome, [])
    ensures Inv(AfterHandle(w, key, autostart, outcome))
  {
    if !w.closed && key !in w.entries {
      if !autostart {
        AddedKeeps(w, NewRecord(key).(proxy := LazyPage(|w.records|)), None);
      } else if !outcome.Refused? {
        StartedIsPublishable(w, key, [], [], 0, outcome);
        AddedKeeps(w, StartedRecord(key, |w.records|, [], [], 0, outcome), None);
      }
    }
  }

  lemma HandleAsyncKeeps(w: World, key: Key, autostart: bool, refused: bool, missing: bool)
    requires Inv(w)
    ensures Inv(AfterHandleAsync(w, key, autostart, refused, missing))
  {
    if !w.closed && key !in w.entries {
      if !autostart {
        AddedKeeps(w, NewRecord(key).(proxy := LazyPage(|w.records|)), None);
      } else if !refused && missing {
        AddedKeeps(w, NewRecord(key).(status := NeedsRuntime, proxy := RuntimePage), None);
      } else if !refused {
        AddedKeeps(w, NewRecord(key).(status := Starting, starter := Some(Check(1))), None);
      }
    }
  }

  lemma LazyKeeps(w: World, p: Pid, outcome: Outcome)
    requires Inv(w) && HasMount(w, p) && w.records[p].status == Stopped && Possible(outcome, [])
    ensures Inv(AfterLazy(w, p, outcome))
  {
    var record := w.records[p];
    assert RecordOk(w, p);
    if !(record.key in w.entries && w.entries[record.key] != p) {
      var late := w.(lateLazy := w.lateLazy || w.swept);
      LateKeeps(w);
      UnfiledKeeps(late, record.key);
      var begun := Unfiled(late, record.key);
      assert RecordOk(begun, p);
      if outcome.Refused? {
        MountedIsNotHeld(begun, p);
        PublishedKeeps(begun, p, record, record.mount);
      } else {
        StartedIsPublishable(begun, record.key, [], [], 0, outcome);
        AddedKeeps(begun, StartedRecord(record.key, |begun.records|, [], [], 0, outcome), record.mount);
      }
    }
  }

  lemma RestartKeeps(w: World, key: Key, outcome: Outcome)
    requires Inv(w) && (key in w.entries ==> HasMount(w, w.entries[key])) && Possible(outcome, [])
    ensures Inv(AfterRestart(w, key, outcome))
  {
    if !w.closed && key in w.entries && w.records[w.entries[key]].status != Starting {
      assert EntryOk(w, key);
      var p := w.entries[key];
      assert RecordOk(w, p);
      RemovedKeeps(w, p, ClosedRecord(w.records[p]));
      var stopped := Unfiled(With(w, p, ClosedRecord(w.records[p])), key);
      if outcome.Refused? {
        AddedKeeps(stopped, NewRecord(key).(status := Crashed, proxy := CrashPage), w.records[p].mount);
      } else {
        StartedIsPublishable(stopped, key, [], [], 0, outcome);
        AddedKeeps(stopped, StartedRecord(key, |stopped.records|, [], [], 0, outcome), w.records[p].mount);
      }
    }
  }

  lemma {:induction false} ReconcileKeeps(w: World, gone: seq<Key>)
    requires Inv(w)
    ensures Inv(TakeAll(w, gone, CloseNow))
  {
    if gone != [] {
      var last := |gone| - 1;
      ReconcileKeeps(w, gone[..last]);
      var v := TakeAll(w, gone[..last], CloseNow);
      assert EntryOk(v, gone[last]);
      if gone[last] in v.entries {
        RemovedKeeps(v, v.entries[gone[last]], ClosedRecord(v.records[v.entries[gone[last]]]));
      }
    }
  }

  lemma CheckKeeps(w: World, s: Pid)
    requires Inv(w) && StarterAt(w, s) && w.records[s].starter.value.Check?
    ensures Inv(AfterCheck(w, s))
  {
    if w.closed || !Current(w, s) {
      StarterLeaves(w, s);
    } else {
      assert RecordOk(w, s);
      WithKeeps(w, s, AfterCheck(w, s).records[s]);
    }
  }

  lemma LaunchKeepsOther(w: World, s: Pid, q: Pid)
    requires Inv(w) && StarterAt(w, s) && w.records[s].starter.value.Launch? && q != s
    ensures RecordOk(AfterLaunch(w, s), q)
  {
    assert RecordOk(w, q) && RecordOk(w, s) && EntryOk(w, w.records[s].key);
    if IsRecord(w, q) {
      LaunchKeepsOthersShape(w, s, q);
      LaunchKeepsOthersBudget(w, s, q);
    }
  }

  lemma LaunchKeepsOthersShape(w: World, s: Pid, q: Pid)
    requires IsRecord(w, s) && IsRecord(w, q) && q != s && RecordOk(w, q)
    requires StarterAt(w, s) && w.records[s].starter.value.Launch? && EntryOk(w, w.records[s].key)
    ensures Shape(AfterLaunch(w, s), q)
  {
    HeldByItsLauncher(w, q);
  }

  lemma LaunchKeepsOthersBudget(w: World, s: Pid, q: Pid)
    requires IsRecord(w, s) && IsRecord(w, q) && q != s && RecordOk(w, q)
    requires StarterAt(w, s) && w.records[s].starter.value.Launch?
    ensures InBudget(AfterLaunch(w, s), q)
  {
  }

  lemma LaunchKeepsStarter(w: World, s: Pid)
    requires Inv(w) && StarterAt(w, s) && w.records[s].starter.value.Launch?
    ensures RecordOk(AfterLaunch(w, s), s)
  {
    assert RecordOk(w, s);
  }

  lemma LaunchKeeps(w: World, s: Pid)
    requires Inv(w) && StarterAt(w, s) && w.records[s].starter.value.Launch?
    ensures Inv(AfterLaunch(w, s))
  {
    var v := AfterLaunch(w, s);
    forall k ensures EntryOk(v, k) {
      assert EntryOk(w, k);
    }
    forall q: Pid ensures RecordOk(v, q) {
      if q != s {
        LaunchKeepsOther(w, s, q);
      } else {
        LaunchKeepsStarter(w, s);
      }
    }
  }

  lemma NoLaunchKeeps(w: World, s: Pid)
    requires Inv(w) && StarterAt(w, s) && w.records[s].starter.value.Launch?
    ensures Inv(AfterNoLaunch(w, s))
  {
    var v := AfterNoLaunch(w, s);
    assert RecordOk(w, s);
    WithKeeps(w, s, v.records[s]);
  }

  lemma HealthyKeeps(w: World, s: Pid)
    requires Inv(w) && StarterAt(w, s) && w.records[s].starter.value.Probe?
    ensures Inv(AfterHealthy(w, s))
  {
    var v := AfterHealthy(w, s);
    assert RecordOk(w, s);
    WithKeeps(w, s, v.records[s]);
  }

  lemma UnhealthyKeeps(w: World, s: Pid)
    requires Inv(w) && StarterAt(w, s) && w.records[s].starter.value.Probe?
    ensures Inv(AfterUnhealthy(w, s))
  {
    var starter := w.records[s].starter.value;
    assert RecordOk(w, s);
    ReleasedKeeps(w, s, starter.child, Some(NextAttempt(starter.attempt)));
  }

  /** The published child replaces its starter's record, which leaves the map. */
  lemma HandedOver(w: World, s: Pid, child: Pid)
    requires Inv(w) && IsRecord(w, s) && Current(w, s) && ChildOf(w.records[s].starter) == Some(child)
    ensures InvBut(WithStarter(Unfiled(w, w.records[s].key), s, None), child) && s != child
    ensures IsRecord(w, child) && Unplaced(w, s, child)
    ensures forall q: Pid | IsRecord(w, q) && q != s :: ChildOf(w.records[q].starter) != Some(child)
  {
    assert RecordOk(w, s);
    var u := Unfiled(w, w.records[s].key);
    UnfiledKeeps(w, w.records[s].key);
    var done := WithStarter(u, s, None);
    assert RecordOk(u, s);
    forall k ensures EntryOk(done, k) {
      assert EntryOk(u, k);
    }
    forall q: Pid | q != child ensures RecordOk(done, q) {
      if q != s {
        OthersKeep(u, s, done.records[s], q);
      }
    }
    forall q: Pid | IsRecord(w, q) && q != s ensures ChildOf(w.records[q].starter) != Some(child) {
      assert RecordOk(w, q);
    }
  }

  lemma PublishKeeps(w: World, s: Pid)
    requires Inv(w) && StarterAt(w, s) && w.records[s].starter.value.Publish?
    ensures Inv(AfterPublish(w, s))
  {
    if w.closed || !Current(w, s) {
      UnwantedKeeps(w, s);
    } else {
      HandOverKeeps(w, s);
    }
  }

  lemma UnwantedKeeps(w: World, s: Pid)
    requires Inv(w) && StarterAt(w, s) && w.records[s].starter.value.Publish? && (w.closed || !Current(w, s))
    ensures Inv(AfterPublish(w, s))
  {
    assert RecordOk(w, s);
    WithKeeps(w, s, AfterPublish(w, s).records[s]);
  }

  lemma HandOverKeeps(w: World, s: Pid)
    requires Inv(w) && StarterAt(w, s) && w.records[s].starter.value.Publish? && !w.closed && Current(w, s)
    ensures Inv(AfterPublish(w, s))
  {
    var child := w.records[s].starter.value.child;
    HandedOver(w, s, child);
    var done := WithStarter(Unfiled(w, w.records[s].key), s, None);
    var ready := done.records[child].(
      status := Ready, proxy := ProxyPage(child), monitor := Some(Watching));
    ReadyIsPublishable(w, s, done);
    PublishedKeeps(done, child, ready, w.records[s].mount);
    assert done.entries[ready.key := child] == w.entries[ready.key := child];
  }

  lemma ReadyIsPublishable(w: World, s: Pid, done: World)
    requires Inv(w) && StarterAt(w, s) && w.records[s].starter.value.Publish? && !w.closed && Current(w, s)
    requires s != w.records[s].starter.value.child
    requires done == WithStarter(Unfiled(w, w.records[s].key), s, None)
    ensures var child, mount := w.records[s].starter.value.child, w.records[s].mount;
            && Publishable(done, child, done.records[child].(
                 status := Ready, proxy := ProxyPage(child), monitor := Some(Watching)))
            && mount.value < |done.mounts| && done.mounts[mount.value].key == done.records[child].key
  {
    assert RecordOk(w, s);
    assert RecordOk(w, w.records[s].starter.value.child);
  }

  lemma DiscardKeeps(w: World, s: Pid)
    requires Inv(w) && StarterAt(w, s) && w.records[s].starter.value.Discard?
    ensures Inv(AfterDiscard(w, s))
  {
    assert RecordOk(w, s);
    ReleasedKeeps(w, s, w.records[s].starter.value.child, None);
  }

  lemma CrashIsPublished(w: World, s: Pid)
    requires Inv(w) && StarterAt(w, s) && w.records[s].starter.value.GiveUp? && !w.closed && Current(w, s)
    ensures Inv(AfterGiveUp(w, s))
  {
    assert RecordOk(w, s);
    var key := w.records[s].key;
    UnfiledKeeps(w, key);
    var u := Unfiled(w, key);
    StarterLeaves(u, s);
    var crashed := NewRecord(key).(
      status := Crashed, proxy := CrashPage, attempts := MAXIMUM_START_ATTEMPTS,
      launches := MAXIMUM_START_ATTEMPTS);
    AddedKeeps(WithStarter(u, s, None), crashed, w.records[s].mount);
    assert u.entries[key := |w.records|] == w.entries[key := |w.records|];
  }

  lemma GiveUpKeeps(w: World, s: Pid)
    requires Inv(w) && StarterAt(w, s) && w.records[s].starter.value.GiveUp?
    ensures Inv(AfterGiveUp(w, s))
  {
    if w.closed || !Current(w, s) {
      StarterLeaves(w, s);
    } else {
      CrashIsPublished(w, s);
    }
  }

  lemma CancelledKeeps(w: World, s: Pid)
    requires Inv(w) && StarterAt(w, s) && (w.closed || w.records[s].closed)
    requires w.records[s].starter.value.Check? || w.records[s].starter.value.GiveUp?
    ensures Inv(WithStarter(w, s, None))
  {
    StarterLeaves(w, s);
  }

  lemma ObserveKeeps(w: World, p: Pid)
    requires Inv(w) && MonitorAt(w, p) && w.records[p].monitor.value.Watching? && w.records[p].child == Exited
    ensures Inv(WithMonitor(w, p, Some(Observed(w.clock))))
  {
    var v := WithMonitor(w, p, Some(Observed(w.clock)));
    assert RecordOk(w, p);
    WithKeeps(w, p, v.records[p]);
  }

  lemma MissKeeps(w: World, p: Pid)
    requires Inv(w) && MonitorAt(w, p) && w.records[p].monitor.value.Watching? && w.records[p].closed
    ensures Inv(WithMonitor(w, p, None))
  {
    MonitorLeaves(w, p);
  }

  /** The exit that a monitor books is paid for like the ones before it. */
  lemma ExitIsBooked(record: Record, now: Time)
    requires Tracks(record.failureTimes, record.exits) && AllBy(record.exits, now)
    requires |record.failureTimes| < MAXIMUM_START_ATTEMPTS && record.attempts <= MAXIMUM_START_ATTEMPTS
    requires Compact(record.exits) ==> record.launches <= LaunchBound(|record.exits|)
    ensures var booked := Booked(record, now);
            && Tracks(booked.failureTimes, booked.exits) && AllBy(booked.exits, now) && booked.exits != []
            && booked.attempts <= MAXIMUM_START_ATTEMPTS
            && |booked.failureTimes| <= (if booked.status == Crashed then MAXIMUM_START_ATTEMPTS
                                         else MAXIMUM_START_ATTEMPTS - 1)
            && (Compact(booked.exits) ==> Paid(booked))
  {
    TracksAfterExit(record.failureTimes, record.exits, now);
    RecentIsNoLonger(record.failureTimes, now);
    BookedIsPaid(record, now);
  }

  lemma BookedIsPaid(record: Record, now: Time)
    requires AllBy(record.exits, now)
    requires Compact(record.exits) ==> record.launches <= LaunchBound(|record.exits|)
    ensures Compact(record.exits + [now]) ==> Paid(Booked(record, now))
  {
    if Compact(record.exits + [now]) {
      CompactPrefix(record.exits, now);
      LaunchBoundIsFifteen(|record.exits|);
    }
  }

  lemma DecidedRecordOk(w: World, p: Pid)
    requires Inv(w) && MonitorAt(w, p) && w.records[p].monitor.value.Observed? && !w.closed && Current(w, p)
    ensures RecordOk(AfterDecide(w, p), p)
  {
    assert RecordOk(w, p);
    DecidedInBudget(w, p);
  }

  lemma DecidedInBudget(w: World, p: Pid)
    requires MonitorAt(w, p) && w.records[p].monitor.value.Observed? && !w.closed && Current(w, p)
    requires RecordOk(w, p)
    ensures InBudget(AfterDecide(w, p), p)
  {
    ExitIsBooked(w.records[p], w.records[p].monitor.value.now);
  }

  lemma ExitDecided(w: World, p: Pid)
    requires Inv(w) && MonitorAt(w, p) && w.records[p].monitor.value.Observed? && !w.closed && Current(w, p)
    ensures Inv(AfterDecide(w, p))
  {
    var v := AfterDecide(w, p);
    DecidedRecordOk(w, p);
    HeldIsUnplaced(w, p);
    assert w.records[p].child != NoChild by {
      assert RecordOk(w, p);
    }
    RetargetKeeps(w, p, v.records[p], v.mounts[w.records[p].mount.value].target);
  }

  lemma DecideKeeps(w: World, p: Pid)
    requires Inv(w) && MonitorAt(w, p) && w.records[p].monitor.value.Observed?
    ensures Inv(AfterDecide(w, p))
  {
    if w.closed || !Current(w, p) {
      MonitorLeaves(w, p);
    } else {
      ExitDecided(w, p);
    }
  }

  lemma DelayKeeps(w: World, p: Pid, outcome: Outcome)
    requires Inv(w) && MonitorAt(w, p) && w.records[p].monitor.value.Delaying?
    requires Possible(outcome, w.records[p].failureTimes)
    ensures Inv(AfterDelay(w, p, outcome))
  {
    assert RecordOk(w, p);
    if w.closed || !Current(w, p) {
      MonitorLeaves(w, p);
    } else {
      var record := ClosedRecord(w.records[p]).(monitor := None);
      RemovedKeeps(w, p, record);
      var stopped := Unfiled(With(w, p, record), record.key);
      if outcome.Refused? {
        MountedIsNotHeld(stopped, p);
        PublishedKeeps(stopped, p, record.(status := Crashed, proxy := CrashPage), record.mount);
      } else {
        StartedIsPublishable(stopped, record.key, record.failureTimes, record.exits, record.launches, outcome);
        AddedKeeps(stopped, StartedRecord(record.key, |stopped.records|, record.failureTimes, record.exits,
                                          record.launches, outcome), record.mount);
      }
    }
  }

  lemma BeginKeeps(w: World)
    requires Inv(w)
    ensures Inv(w.(closed := true))
  {
    var v := w.(closed := true);
    forall k ensures EntryOk(v, k) {
      assert EntryOk(w, k);
    }
    forall q: Pid ensures RecordOk(v, q) {
      assert RecordOk(w, q);
    }
  }

  /** `v` is `w` after the entries of the keys in `order` were taken. */
  ghost predicate Taken(w: World, v: World, order: seq<Key>, fate: Fate) {
    && v == w.(entries := v.entries, records := v.records) && |v.records| == |w.records|
    && (forall k :: k in v.entries <==> k in w.entries && k !in order)
    && (forall k | k in v.entries :: v.entries[k] == w.entries[k])
    && (forall p: Pid | IsRecord(w, p) :: v.records[p] == TakenRecord(w, order, fate, p))
  }

  function TakenRecord(w: World, order: seq<Key>, fate: Fate, p: Pid): Record
    requires IsRecord(w, p)
  {
    if Current(w, p) && w.records[p].key in order then Fated(fate, w.records[p]) else w.records[p]
  }

  lemma OneMoreTaken(w: World, v: World, order: seq<Key>, key: Key, fate: Fate)
    requires EntryOk(w, key) && Taken(w, v, order, fate)
    ensures Taken(w, TakeOne(v, key, fate), order + [key], fate)
  {
    var t := TakeOne(v, key, fate);
    assert forall k :: k in order + [key] <==> k in order || k == key;
    forall p: Pid | IsRecord(w, p) ensures t.records[p] == TakenRecord(w, order + [key], fate, p) {
      OneMoreTakenRecord(w, v, order, key, fate, p);
    }
  }

  lemma OneMoreTakenRecord(w: World, v: World, order: seq<Key>, key: Key, fate: Fate, p: Pid)
    requires EntryOk(w, key) && Taken(w, v, order, fate) && IsRecord(w, p)
    ensures TakeOne(v, key, fate).records[p] == TakenRecord(w, order + [key], fate, p)
  {
    assert v.records[p] == TakenRecord(w, order, fate, p);
  }

  /** Taking entries one by one changes exactly the current entries of the taken keys. */
  lemma {:induction false} TakenAtOnce(w: World, order: seq<Key>, fate: Fate)
    requires forall k :: EntryOk(w, k)
    ensures Taken(w, TakeAll(w, order, fate), order, fate)
  {
    if order != [] {
      var last := |order| - 1;
      TakenAtOnce(w, order[..last], fate);
      assert EntryOk(w, order[last]);
      OneMoreTaken(w, TakeAll(w, order[..last], fate), order[..last], order[last], fate);
      assert order == order[..last] + [order[last]];
    }
  }

  lemma SweepKeeps(w: World, order: seq<Key>)
    requires Inv(w) && w.closed && !w.swept && (forall k | k in w.entries :: k in order)
    requires forall p | 0 <= p < |w.records| :: w.records[p].starter.None?
    ensures Inv(TakeAll(w, order, CloseLater).(swept := true))
  {
    var v := TakeAll(w, order, CloseLater).(swept := true);
    TakenAtOnce(w, order, CloseLater);
    forall q: Pid ensures RecordOk(v, q) {
      assert RecordOk(w, q);
    }
  }

  lemma KillKeeps(w: World, p: Pid)
    requires Inv(w) && IsRecord(w, p) && w.records[p].toClose
    ensures Inv(With(w, p, ClosedRecord(w.records[p]).(toClose := false)))
  {
    var v := With(w, p, ClosedRecord(w.records[p]).(toClose := false));
    assert RecordOk(w, p);
    HeldIsUnplaced(w, p);
    WithKeeps(w, p, v.records[p]);
  }
}
