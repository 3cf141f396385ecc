/** The automatic-restart budget: which exits still count, and how many children
    one chain of automatic restarts can launch. Times are nanoseconds, as in the source. */
module RestartBudget {

  type Time = int

  const MAXIMUM_START_ATTEMPTS: nat := 5
  const RESTART_FAILURE_WINDOW: Time := 600_000_000_000

  /** The exits that are at most one window old at `now`, in order. */
  function Recent(times: seq<Time>, now: Time): seq<Time> {
    if times == [] then [] else
      var last := |times| - 1;
      if now - times[last] <= RESTART_FAILURE_WINDOW
      then Recent(times[..last], now) + [times[last]]
      else Recent(times[..last], now)
  }

  ghost predicate Sorted(times: seq<Time>) {
    forall i, j | 0 <= i < j < |times| :: times[i] <= times[j]
  }

  ghost predicate AllBy(times: seq<Time>, now: Time) {
    forall i | 0 <= i < |times| :: times[i] <= now
  }

  /** Every exit of the chain lies within one window of the chain's last exit. */
  ghost predicate Compact(exits: seq<Time>) {
    forall i | 0 <= i < |exits| :: exits[|exits| - 1] - exits[i] <= RESTART_FAILURE_WINDOW
  }

  /** The independent reading of the window: the positions of the exits it contains. */
  ghost function WindowPositions(times: seq<Time>, now: Time): set<nat> {
    set i: nat | i < |times| && now - times[i] <= RESTART_FAILURE_WINDOW
  }

  /** `Recent` keeps one element for each exit inside the window. */
  lemma {:induction false} RecentCountsTheWindow(times: seq<Time>, now: Time)
    ensures |Recent(times, now)| == |WindowPositions(times, now)|
  {
    if times != [] {
      var last := |times| - 1;
      RecentCountsTheWindow(times[..last], now);
      var before := WindowPositions(times[..last], now);
      assert WindowPositions(times, now)
          == before + if now - times[last] <= RESTART_FAILURE_WINDOW then {last} else {};
    }
  }

  lemma {:induction false} RecentAppend(times: seq<Time>, t: Time, now: Time)
    requires now - t <= RESTART_FAILURE_WINDOW
    ensures Recent(times + [t], now) == Recent(times, now) + [t]
  {
    assert (times + [t])[..|times|] == times;
  }

  /** Pruning at an earlier time loses nothing that a later prune would keep. */
  lemma {:induction false} RecentOfRecent(times: seq<Time>, earlier: Time, later: Time)
    requires earlier <= later
    ensures Recent(Recent(times, earlier), later) == Recent(times, later)
  {
    if times != [] {
      var last := |times| - 1;
      RecentOfRecent(times[..last], earlier, later);
      if earlier - times[last] <= RESTART_FAILURE_WINDOW {
        var kept := Recent(times[..last], earlier);
        assert (kept + [times[last]])[..|kept|] == kept;
      }
    }
  }

  lemma {:induction false} RecentOfCompact(times: seq<Time>, now: Time)
    requires forall i | 0 <= i < |times| :: now - times[i] <= RESTART_FAILURE_WINDOW
    ensures Recent(times, now) == times
  {
    if times != [] {
      RecentOfCompact(times[..|times| - 1], now);
    }
  }

  lemma {:induction false} RecentIsNoLonger(times: seq<Time>, now: Time)
    ensures |Recent(times, now)| <= |times|
  {
    if times != [] {
      RecentIsNoLonger(times[..|times| - 1], now);
    }
  }

  /** The failure list a monitor stores after an exit observed at `now`. */
  function AfterExit(failureTimes: seq<Time>, now: Time): (r: seq<Time>)
    ensures r != [] && r[|r| - 1] == now
  {
    Recent(failureTimes, now) + [now]
  }

  /** What ties a stored failure list to the full exit history of its chain. */
  ghost predicate Tracks(failureTimes: seq<Time>, exits: seq<Time>) {
    && Sorted(exits)
    && failureTimes == if exits == [] then [] else Recent(exits, exits[|exits| - 1])
  }

  /** The stored list stays the window of the whole history, however often it was pruned. */
  lemma TracksAfterExit(failureTimes: seq<Time>, exits: seq<Time>, now: Time)
    requires Tracks(failureTimes, exits) && AllBy(exits, now)
    ensures Tracks(AfterExit(failureTimes, now), exits + [now])
    ensures AfterExit(failureTimes, now) == Recent(exits + [now], now)
  {
    RecentAppend(exits, now, now);
    if exits != [] {
      RecentOfRecent(exits, exits[|exits| - 1], now);
    }
  }

  lemma CompactListIsWholeHistory(failureTimes: seq<Time>, exits: seq<Time>)
    requires Tracks(failureTimes, exits) && Compact(exits)
    ensures failureTimes == exits
  {
    if exits != [] {
      RecentOfCompact(exits, exits[|exits| - 1]);
    }
  }

  lemma CompactPrefix(exits: seq<Time>, now: Time)
    requires Compact(exits + [now]) && AllBy(exits, now)
    ensures Compact(exits)
  {
    var longer := exits + [now];
    forall i | 0 <= i < |exits|
      ensures exits[|exits| - 1] - exits[i] <= RESTART_FAILURE_WINDOW
    {
      assert longer[i] == exits[i];
    }
  }

  /** Launches a chain may use up while its first `exits` exits are answered:
      five for the first start, then one fewer after every exit. */
  function LaunchBound(exits: nat): nat {
    if exits == 0 then MAXIMUM_START_ATTEMPTS
    else if exits < MAXIMUM_START_ATTEMPTS
    then LaunchBound(exits - 1) + (MAXIMUM_START_ATTEMPTS - exits)
    else LaunchBound(exits - 1)
  }

  lemma {:induction false} LaunchBoundIsFifteen(exits: nat)
    ensures LaunchBound(exits) <= 15
    ensures exits >= 4 ==> LaunchBound(exits) == 15
  {
    if exits > 4 {
      LaunchBoundIsFifteen(exits - 1);
    } else {
      assert LaunchBound(4) == LaunchBound(3) + 1 == LaunchBound(2) + 3 == LaunchBound(1) + 6
          == LaunchBound(0) + 10;
    }
  }

  /** The monitor's loop: filter the stored list inside its own storage. */
  method PruneInPlace(times: array<Time>, now: Time) returns (kept: nat)
    modifies times
    ensures kept <= times.Length
    ensures times[..kept] == Recent(old(times[..]), now)
  {
    kept := 0;
    ghost var was := times[..];
    for index := 0 to times.Length
      invariant 0 <= kept <= index
      invariant times[index..] == was[index..]
      invariant times[..kept] == Recent(was[..index], now)
    {
      assert times[index] == times[index..][0] == was[index];
      assert was[..index + 1][..index] == was[..index];
      var failedAt := times[index];
      if now - failedAt <= RESTART_FAILURE_WINDOW {
        times[kept] := failedAt;
        kept := kept + 1;
      }
      assert times[index + 1..] == was[index + 1..];
    }
    assert was[..times.Length] == was;
  }
}
