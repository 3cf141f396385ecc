/** The add-on manager: changes in flight, the runtimes they start and stop, and the closing of all of them. */
module Addons {
  import opened Text

  type Name = string
  type Id = nat
  /** A started runtime; its number is never used again. */
  type Runtime = nat

  datatype Action = Install | Remove | Start | Stop

  /** Where a change stands between two critical sections. */
  datatype Phase =
    | Installing
    | Checking
    | Launching
    | Publishing(runtime: Runtime)
    | Stopping
    | Closing(runtime: Runtime)
    | Finishing
    | Reported

  datatype Change = Change(name: Name, action: Action, phase: Phase)

  /** The call of Close that found the manager open. */
  datatype Closer = NotCalled | Waiting | Sweeping(runtimes: set<Runtime>) | Returned

  datatype World = World(
    packs: set<Name>,
    php: Option<Runtime>,
    databases: map<Name, Runtime>,
    busy: map<Name, Id>,      // the names marked busy, with the change that marked them
    closed: bool,
    outstanding: nat,         // the wait group's count
    changes: map<Id, Change>, // changes that have not yet left the wait group
    closer: Closer,
    live: set<Runtime>,       // started, not closed, not exited
    started: set<Runtime>
  )

  datatype Event =
    | Begins(change: Id, name: Name, action: Action)
    | Installs(change: Id, succeeds: bool)
    | Checks(change: Id, installed: bool)
    | Launches(change: Id, outcome: Option<Runtime>)
    | Publishes(change: Id)
    | Takes(change: Id)
    | Closes(change: Id)
    | Reports(change: Id)
    | Leaves(change: Id)
    | Exits(runtime: Runtime)
    | CloseCalled
    | CloseSweeps
    | CloseClosesOne(runtime: Runtime)
    | CloseReturns

  predicate InPhase(w: World, change: Id, phase: Phase) {
    change in w.changes && w.changes[change].phase == phase
  }

  predicate Enabled(w: World, e: Event) {
    match e
    case Begins(c, _, _) => c !in w.changes
    case Installs(c, _) => InPhase(w, c, Installing)
    case Checks(c, _) => InPhase(w, c, Checking)
    case Launches(c, runtime) => InPhase(w, c, Launching) && (runtime.Some? ==> runtime.value !in w.started)
    case Publishes(c) => c in w.changes && w.changes[c].phase.Publishing?
    case Takes(c) => InPhase(w, c, Stopping)
    case Closes(c) => c in w.changes && w.changes[c].phase.Closing?
    case Reports(c) => InPhase(w, c, Finishing)
    case Leaves(c) => InPhase(w, c, Reported) && w.outstanding > 0
    case Exits(runtime) => runtime in w.live
    case CloseCalled => true
    case CloseSweeps => w.closer.Waiting? && w.outstanding == 0
    case CloseClosesOne(runtime) => w.closer.Sweeping? && runtime in w.closer.runtimes
    case CloseReturns => w.closer == Sweeping({})
  }

  predicate Accepts(w: World, name: Name) {
    name in w.packs && !w.closed && name !in w.busy
  }

  function FirstPhase(action: Action): Phase {
    match action
    case Install => Installing
    case Start => Checking
    case Remove => Stopping
    case Stop => Stopping
  }

  function Moved(w: World, c: Id, phase: Phase): World
    requires c in w.changes
  {
    w.(changes := w.changes[c := w.changes[c].(phase := phase)])
  }

  /** A running runtime is already there. */
  predicate AlreadyRunning(w: World, name: Name) {
    (name == "php" && w.php.Some?) || (name in w.databases && w.databases[name] in w.live)
  }

  function Slot(w: World, name: Name): Option<Runtime> {
    if name == "php" then w.php else if name in w.databases then Some(w.databases[name]) else None
  }

  function Fill(w: World, name: Name, runtime: Runtime): World {
    if name == "php" then w.(php := Some(runtime)) else w.(databases := w.databases[name := runtime])
  }

  function Empty(w: World, name: Name): World {
    if name == "php" then w.(php := None) else w.(databases := w.databases - {name})
  }

  function Kept(w: World): set<Runtime> {
    w.databases.Values + if w.php.Some? then {w.php.value} else {}
  }

  function Apply(w: World, e: Event): World
    requires Enabled(w, e)
  {
    match e
    case Begins(c, name, action) =>
      if !Accepts(w, name) then w
      else
        w.(busy := w.busy[name := c], outstanding := w.outstanding + 1,
           changes := w.changes[c := Change(name, action, FirstPhase(action))])
    case Installs(c, succeeds) =>
      Moved(w, c, if succeeds && w.changes[c].name == "php" then Checking else Finishing)
    case Checks(c, installed) =>
      Moved(w, c, if !installed || AlreadyRunning(w, w.changes[c].name) then Finishing else Launching)
    case Launches(c, runtime) =>
      if runtime.None? then Moved(w, c, Finishing)
      else
        Moved(w, c, Publishing(runtime.value)).(
          live := w.live + {runtime.value}, started := w.started + {runtime.value})
    case Publishes(c) =>
      Moved(Fill(w, w.changes[c].name, w.changes[c].phase.runtime), c, Finishing)
    case Takes(c) =>
      var slot := Slot(w, w.changes[c].name);
      Moved(Empty(w, w.changes[c].name), c, if slot.Some? then Phase.Closing(slot.value) else Finishing)
    case Closes(c) => Moved(w, c, Finishing).(live := w.live - {w.changes[c].phase.runtime})
    case Reports(c) => Moved(w, c, Reported).(busy := w.busy - {w.changes[c].name})
    case Leaves(c) => w.(outstanding := w.outstanding - 1, changes := w.changes - {c})
    case Exits(runtime) => w.(live := w.live - {runtime})
    case CloseCalled => if w.closed then w else w.(closed := true, closer := Waiting)
    case CloseSweeps => w.(php := None, databases := map[], closer := Sweeping(Kept(w)))
    case CloseClosesOne(runtime) =>
      w.(live := w.live - {runtime}, closer := Sweeping(w.closer.runtimes - {runtime}))
    case CloseReturns => w.(closer := Returned)
  }

  // ---- The invariant --------------------------------------------------------------------------

  predicate Working(changes: map<Id, Change>, c: Id) {
    c in changes && !changes[c].phase.Reported?
  }

  function ReportedChanges(changes: map<Id, Change>): set<Id> {
    set c | c in changes && changes[c].phase.Reported?
  }

  /** A busy name and its one working change belong together. */
  ghost predicate BusyOk(busy: map<Name, Id>, changes: map<Id, Change>) {
    && (forall name | name in busy :: Working(changes, busy[name]) && changes[busy[name]].name == name)
    && (forall c | Working(changes, c) :: changes[c].name in busy && busy[changes[c].name] == c)
  }

  /** The wait group counts the busy names and the changes that have cleared theirs but not yet left. */
  predicate Counted(outstanding: nat, busy: map<Name, Id>, changes: map<Id, Change>) {
    outstanding == |changes| == |busy| + |ReportedChanges(changes)|
  }

  ghost predicate ChangesOk(outstanding: nat, busy: map<Name, Id>, changes: map<Id, Change>) {
    BusyOk(busy, changes) && Counted(outstanding, busy, changes)
  }

  predicate ClosingOk(w: World) {
    && (w.closed <==> w.closer != NotCalled)
    && (w.closer.Sweeping? || w.closer.Returned? ==> w.changes == map[] && w.php.None? && w.databases == map[])
    && "php" !in w.databases
  }

  datatype Place = AtPhp | AtDatabase(name: Name) | WithChange(change: Id) | WithCloser

  predicate IsAt(w: World, runtime: Runtime, place: Place) {
    match place
    case AtPhp => w.php == Some(runtime)
    case AtDatabase(name) => name in w.databases && w.databases[name] == runtime
    case WithChange(c) => InPhase(w, c, Publishing(runtime)) || InPhase(w, c, Phase.Closing(runtime))
    case WithCloser => w.closer.Sweeping? && runtime in w.closer.runtimes
  }

  ghost predicate Held(w: World, runtime: Runtime) {
    exists place :: IsAt(w, runtime, place)
  }

  /** Nothing is in two places, everything held was started, everything live is held. */
  ghost predicate Owned(w: World) {
    && (forall runtime, p, q | IsAt(w, runtime, p) && IsAt(w, runtime, q) :: p == q)
    && (forall runtime, p | IsAt(w, runtime, p) :: runtime in w.started)
    && (forall runtime | runtime in w.live :: Held(w, runtime))
    && w.live <= w.started
  }

  /** Whoever is about to fill a slot finds nothing live in it. */
  predicate SlotFree(w: World, name: Name) {
    Slot(w, name).Some? ==> Slot(w, name).value !in w.live && name != "php"
  }

  ghost predicate NothingOverwritten(w: World) {
    forall c | c in w.changes && (w.changes[c].phase.Launching? || w.changes[c].phase.Publishing?) ::
      SlotFree(w, w.changes[c].name)
  }

  predicate Stops(action: Action) {
    action.Stop? || action.Remove?
  }

  /** A stopping change first empties its slot, and no other change fills it before the report. */
  predicate StopOk(w: World, c: Id) {
    Working(w.changes, c) ==>
      var change := w.changes[c];
      if Stops(change.action)
      then change.phase.Stopping?
           || ((change.phase.Closing? || change.phase.Finishing?) && Slot(w, change.name).None?)
      else !change.phase.Stopping? && !change.phase.Closing?
  }

  ghost predicate StopsOk(w: World) {
    forall c :: StopOk(w, c)
  }

  ghost predicate Inv(w: World) {
    && ChangesOk(w.outstanding, w.busy, w.changes)
    && ClosingOk(w) && Owned(w) && NothingOverwritten(w) && StopsOk(w)
  }

  ghost predicate Initial(w: World) {
    && w.databases == map[] && w.busy == map[] && w.changes == map[] && !w.closed && w.outstanding == 0
    && w.closer == NotCalled
    && w.started == (if w.php.Some? then {w.php.value} else {}) && w.live <= w.started
  }

  lemma InitialInv(w: World)
    requires Initial(w)
    ensures Inv(w)
  {
    forall runtime | runtime in w.live ensures Held(w, runtime) {
      assert IsAt(w, runtime, AtPhp);
    }
    assert ReportedChanges(w.changes) == {};
  }

  // ---- The changes and their count ------------------------------------------------------------

  lemma OneMore<T>(s: set<T>, x: T)
    requires x !in s
    ensures |s + {x}| == |s| + 1
  {
  }

  lemma OneMoreKey<K, V>(m: map<K, V>, k: K, v: V)
    requires k !in m
    ensures |m[k := v]| == |m| + 1
  {
    assert m[k := v].Keys == m.Keys + {k};
  }

  lemma BeginKeepsBusy(busy: map<Name, Id>, changes: map<Id, Change>, c: Id, change: Change)
    requires BusyOk(busy, changes)
    requires c !in changes && change.name !in busy && !change.phase.Reported?
    ensures BusyOk(busy[change.name := c], changes[c := change])
  {
    var after, busier := changes[c := change], busy[change.name := c];
    forall name | name in busier ensures Working(after, busier[name]) && after[busier[name]].name == name {
      assert name != change.name ==> Working(changes, busy[name]);
    }
    forall d | Working(after, d) ensures after[d].name in busier && busier[after[d].name] == d {
      assert d != c ==> Working(changes, d);
    }
  }

  lemma BeginKeepsCount(outstanding: nat, busy: map<Name, Id>, changes: map<Id, Change>, c: Id, change: Change)
    requires Counted(outstanding, busy, changes)
    requires c !in changes && change.name !in busy && !change.phase.Reported?
    ensures Counted(outstanding + 1, busy[change.name := c], changes[c := change])
  {
    OneMoreKey(changes, c, change);
    OneMoreKey(busy, change.name, c);
    assert ReportedChanges(changes[c := change]) == ReportedChanges(changes);
  }

  lemma MoveKeeps(outstanding: nat, busy: map<Name, Id>, changes: map<Id, Change>, c: Id, phase: Phase)
    requires ChangesOk(outstanding, busy, changes)
    requires Working(changes, c) && !phase.Reported?
    ensures ChangesOk(outstanding, busy, changes[c := changes[c].(phase := phase)])
  {
    var after := changes[c := changes[c].(phase := phase)];
    assert after.Keys == changes.Keys;
    assert ReportedChanges(after) == ReportedChanges(changes);
  }

  lemma ReportKeepsBusy(busy: map<Name, Id>, changes: map<Id, Change>, c: Id)
    requires BusyOk(busy, changes) && Working(changes, c)
    ensures BusyOk(busy - {changes[c].name}, changes[c := changes[c].(phase := Reported)])
  {
    var name := changes[c].name;
    var after, idler := changes[c := changes[c].(phase := Reported)], busy - {name};
    forall other | other in idler ensures Working(after, idler[other]) && after[idler[other]].name == other {
      assert Working(changes, busy[other]);
    }
    forall d | Working(after, d) ensures after[d].name in idler && idler[after[d].name] == d {
      assert Working(changes, d);
    }
  }

  lemma ReportKeepsCount(outstanding: nat, busy: map<Name, Id>, changes: map<Id, Change>, c: Id)
    requires Counted(outstanding, busy, changes) && Working(changes, c) && changes[c].name in busy
    ensures Counted(outstanding, busy - {changes[c].name}, changes[c := changes[c].(phase := Reported)])
  {
    var name := changes[c].name;
    var after, idler := changes[c := changes[c].(phase := Reported)], busy - {name};
    assert after.Keys == changes.Keys && busy.Keys == idler.Keys + {name};
    OneMore(idler.Keys, name);
    OneMore(ReportedChanges(changes), c);
    assert ReportedChanges(after) == ReportedChanges(changes) + {c};
  }

  lemma LeaveKeeps(outstanding: nat, busy: map<Name, Id>, changes: map<Id, Change>, c: Id)
    requires ChangesOk(outstanding, busy, changes)
    requires c in changes && changes[c].phase.Reported?
    ensures outstanding > 0 && ChangesOk(outstanding - 1, busy, changes - {c})
  {
    var rest := changes - {c};
    assert Counted(outstanding - 1, busy, rest) by {
      OneMore(rest.Keys, c);
      OneMore(ReportedChanges(rest), c);
      assert changes.Keys == rest.Keys + {c};
      assert ReportedChanges(changes) == ReportedChanges(rest) + {c};
    }
    assert BusyOk(busy, rest) by {
      assert forall d :: Working(rest, d) <==> Working(changes, d);
    }
  }

  /** The events that move one change on without reporting it. */
  predicate MovesOn(e: Event) {
    e.Installs? || e.Checks? || e.Launches? || e.Publishes? || e.Takes? || e.Closes?
  }

  lemma CountKept(w: World, e: Event)
    requires ChangesOk(w.outstanding, w.busy, w.changes) && Enabled(w, e)
    ensures var t := Apply(w, e); ChangesOk(t.outstanding, t.busy, t.changes)
  {
    if MovesOn(e) {
      MoveKeepsCount(w, e);
    } else {
      match e
      case Begins(c, name, action) =>
        if Accepts(w, name) {
          BeginKeepsBusy(w.busy, w.changes, c, Change(name, action, FirstPhase(action)));
          BeginKeepsCount(w.outstanding, w.busy, w.changes, c, Change(name, action, FirstPhase(action)));
        }
      case Reports(c) =>
        assert Working(w.changes, c);
        ReportKeepsBusy(w.busy, w.changes, c);
        ReportKeepsCount(w.outstanding, w.busy, w.changes, c);
      case Leaves(c) => LeaveKeeps(w.outstanding, w.busy, w.changes, c);
      case _ =>
    }
  }

  lemma MoveKeepsCount(w: World, e: Event)
    requires ChangesOk(w.outstanding, w.busy, w.changes) && Enabled(w, e) && MovesOn(e)
    ensures var t := Apply(w, e); ChangesOk(t.outstanding, t.busy, t.changes)
  {
    var t := Apply(w, e);
    assert Working(w.changes, e.change);
    MoveKeeps(w.outstanding, w.busy, w.changes, e.change, t.changes[e.change].phase);
  }

  lemma ClosingKept(w: World, e: Event)
    requires Counted(w.outstanding, w.busy, w.changes) && ClosingOk(w) && Enabled(w, e)
    ensures ClosingOk(Apply(w, e))
  {
  }

  // ---- Ownership ------------------------------------------------------------------------------

  lemma SlotIsStarted(w: World, name: Name)
    requires Owned(w)
    ensures Slot(w, name).Some? ==> Slot(w, name).value in w.started
  {
    if Slot(w, name).Some? {
      assert IsAt(w, Slot(w, name).value, if name == "php" then AtPhp else AtDatabase(name));
    }
  }

  lemma SlotsKept(w: World, e: Event)
    requires BusyOk(w.busy, w.changes) && ClosingOk(w) && Owned(w) && NothingOverwritten(w) && Enabled(w, e)
    ensures NothingOverwritten(Apply(w, e))
  {
    var t := Apply(w, e);
    forall c | c in t.changes && (t.changes[c].phase.Launching? || t.changes[c].phase.Publishing?)
      ensures SlotFree(t, t.changes[c].name)
    {
      SlotKept(w, e, c);
    }
  }

  lemma SlotKept(w: World, e: Event, c: Id)
    requires BusyOk(w.busy, w.changes) && ClosingOk(w) && Owned(w) && NothingOverwritten(w) && Enabled(w, e)
    requires c in Apply(w, e).changes
    requires Apply(w, e).changes[c].phase.Launching? || Apply(w, e).changes[c].phase.Publishing?
    ensures SlotFree(Apply(w, e), Apply(w, e).changes[c].name)
  {
    var name := Apply(w, e).changes[c].name;
    if MovesOn(e) {
      SlotKeptByMove(w, e, c);
    } else {
      assert Working(w.changes, c) && w.changes[c].name == name;
      assert SlotFree(w, name);
    }
  }

  lemma SlotKeptByMove(w: World, e: Event, c: Id)
    requires BusyOk(w.busy, w.changes) && Owned(w) && NothingOverwritten(w) && Enabled(w, e) && MovesOn(e)
    requires c in Apply(w, e).changes
    requires Apply(w, e).changes[c].phase.Launching? || Apply(w, e).changes[c].phase.Publishing?
    ensures SlotFree(Apply(w, e), Apply(w, e).changes[c].name)
  {
    if e.change == c {
      SlotKeptByOwnMove(w, e);
    } else {
      assert SlotFree(w, w.changes[c].name);
      OneChangeAName(w, e.change, c);
      FreeSlotStays(w, e, w.changes[c].name);
    }
  }

  lemma SlotKeptByOwnMove(w: World, e: Event)
    requires Owned(w) && NothingOverwritten(w) && Enabled(w, e) && MovesOn(e)
    requires Apply(w, e).changes[e.change].phase.Launching? || Apply(w, e).changes[e.change].phase.Publishing?
    ensures SlotFree(Apply(w, e), w.changes[e.change].name)
  {
    if !e.Checks? {
      assert SlotFree(w, w.changes[e.change].name);
      FreeSlotStays(w, e, w.changes[e.change].name);
    }
  }

  lemma FreeSlotStays(w: World, e: Event, name: Name)
    requires Owned(w) && Enabled(w, e) && MovesOn(e) && SlotFree(w, name)
    requires e.Publishes? ==> w.changes[e.change].name != name
    ensures SlotFree(Apply(w, e), name)
  {
    SlotAfter(w, e, name);
    SlotIsStarted(w, name);
  }

  lemma SlotAfter(w: World, e: Event, name: Name)
    requires Enabled(w, e) && MovesOn(e)
    ensures Slot(Apply(w, e), name) == Slot(w, name)
         || (e.Takes? && Slot(Apply(w, e), name).None?)
         || (e.Publishes? && w.changes[e.change].name == name)
    ensures forall runtime | runtime in Apply(w, e).live :: runtime in w.live || runtime !in w.started
  {
  }

  lemma StopsKept(w: World, e: Event)
    requires BusyOk(w.busy, w.changes) && ClosingOk(w) && StopsOk(w) && Enabled(w, e)
    ensures StopsOk(Apply(w, e))
  {
    forall c ensures StopOk(Apply(w, e), c) {
      assert StopOk(w, c);
      if MovesOn(e) {
        StopKeptByMove(w, e, c);
      }
    }
  }

  lemma StopKeptByMove(w: World, e: Event, c: Id)
    requires BusyOk(w.busy, w.changes) && ClosingOk(w) && Enabled(w, e) && MovesOn(e)
    requires StopOk(w, c) && StopOk(w, e.change)
    ensures StopOk(Apply(w, e), c)
  {
    OneChangeAName(w, e.change, c);
    if c in w.changes {
      SlotAfter(w, e, w.changes[c].name);
    }
  }

  lemma OneChangeAName(w: World, c: Id, d: Id)
    requires BusyOk(w.busy, w.changes)
    ensures c != d && Working(w.changes, c) && Working(w.changes, d) ==> w.changes[c].name != w.changes[d].name
  {
  }

  /** At most one runtime goes to another place; the others stay or are given up dead. */
  lemma OneMoves(w: World, t: World, moved: Runtime, from: Option<Place>, to: Option<Place>)
    requires Owned(w)
    requires from.Some? ==> IsAt(w, moved, from.value) && !IsAt(t, moved, from.value)
    requires from.None? ==> moved !in w.started
    requires to.Some? ==> IsAt(t, moved, to.value) && moved in t.started
    requires forall x, p | IsAt(t, x, p) :: IsAt(w, x, p) || (x == moved && to == Some(p))
    requires forall x, p | x in t.live && x != moved && IsAt(w, x, p) :: IsAt(t, x, p)
    requires moved in t.live ==> to.Some?
    requires t.live <= w.live + {moved} && w.started <= t.started && t.live <= t.started
    ensures Owned(t)
  {
    forall x | x in t.live ensures Held(t, x) {
      if x != moved {
        var p :| IsAt(w, x, p);
        assert IsAt(t, x, p);
      }
    }
    forall x, p, q | IsAt(t, x, p) && IsAt(t, x, q) ensures p == q {
      assert x == moved ==> to == Some(p) && to == Some(q);
    }
  }

  lemma SamePlaces(w: World, t: World)
    requires Owned(w) && t.live <= w.live && t.started == w.started
    requires forall x, p :: IsAt(t, x, p) <==> IsAt(w, x, p)
    ensures Owned(t)
  {
    forall x | x in t.live ensures Held(t, x) {
      var p :| IsAt(w, x, p);
      assert IsAt(t, x, p);
    }
  }

  lemma LaunchKeeps(w: World, c: Id, runtime: Runtime)
    requires Owned(w) && Enabled(w, Launches(c, Some(runtime)))
    ensures Owned(Apply(w, Launches(c, Some(runtime))))
  {
    OneMoves(w, Apply(w, Launches(c, Some(runtime))), runtime, None, Some(WithChange(c)));
  }

  function SlotPlace(name: Name): Place {
    if name == "php" then AtPhp else AtDatabase(name)
  }

  lemma PublishKeeps(w: World, c: Id)
    requires Owned(w) && NothingOverwritten(w) && Enabled(w, Publishes(c))
    ensures Owned(Apply(w, Publishes(c)))
  {
    var runtime, name := w.changes[c].phase.runtime, w.changes[c].name;
    assert SlotFree(w, name);
    assert IsAt(w, runtime, WithChange(c));
    OneMoves(w, Apply(w, Publishes(c)), runtime, Some(WithChange(c)), Some(SlotPlace(name)));
  }

  lemma TakeKeeps(w: World, c: Id)
    requires Owned(w) && ClosingOk(w) && Enabled(w, Takes(c))
    ensures Owned(Apply(w, Takes(c)))
  {
    var name := w.changes[c].name;
    var slot := Slot(w, name);
    if slot.None? {
      TakeNothingKeeps(w, c);
    } else {
      assert IsAt(w, slot.value, SlotPlace(name));
      OneMoves(w, Apply(w, Takes(c)), slot.value, Some(SlotPlace(name)), Some(WithChange(c)));
    }
  }

  lemma TakeNothingKeeps(w: World, c: Id)
    requires Owned(w) && ClosingOk(w) && Enabled(w, Takes(c)) && Slot(w, w.changes[c].name).None?
    ensures Owned(Apply(w, Takes(c)))
  {
    SamePlaces(w, Apply(w, Takes(c)));
  }

  lemma CloseKeeps(w: World, c: Id)
    requires Owned(w) && Enabled(w, Closes(c))
    ensures Owned(Apply(w, Closes(c)))
  {
    var runtime := w.changes[c].phase.runtime;
    assert IsAt(w, runtime, WithChange(c));
    OneMoves(w, Apply(w, Closes(c)), runtime, Some(WithChange(c)), None);
  }

  lemma CloseOneKeeps(w: World, runtime: Runtime)
    requires Owned(w) && Enabled(w, CloseClosesOne(runtime))
    ensures Owned(Apply(w, CloseClosesOne(runtime)))
  {
    assert IsAt(w, runtime, WithCloser);
    OneMoves(w, Apply(w, CloseClosesOne(runtime)), runtime, Some(WithCloser), None);
  }

  lemma KeptExactly(w: World, x: Runtime)
    ensures x in Kept(w) <==> w.php == Some(x) || exists name :: name in w.databases && w.databases[name] == x
  {
  }

  lemma SweepKeeps(w: World)
    requires Owned(w) && ClosingOk(w) && w.changes == map[] && Enabled(w, CloseSweeps)
    ensures Owned(Apply(w, CloseSweeps))
  {
    var t := Apply(w, CloseSweeps);
    forall x, p | IsAt(t, x, p) ensures p == WithCloser && x in t.started {
      KeptExactly(w, x);
      if w.php == Some(x) {
        assert IsAt(w, x, AtPhp);
      } else {
        var name :| name in w.databases && w.databases[name] == x;
        assert IsAt(w, x, AtDatabase(name));
      }
    }
    forall x | x in t.live ensures Held(t, x) {
      var p :| IsAt(w, x, p);
      KeptExactly(w, x);
      assert IsAt(t, x, WithCloser);
    }
  }

  lemma OwnedKept(w: World, e: Event)
    requires Inv(w) && Enabled(w, e)
    ensures Owned(Apply(w, e))
  {
    match e
    case Launches(c, outcome) =>
      if outcome.Some? {
        LaunchKeeps(w, c, outcome.value);
      } else {
        SamePlaces(w, Apply(w, e));
      }
    case Publishes(c) => PublishKeeps(w, c);
    case Takes(c) => TakeKeeps(w, c);
    case Closes(c) => CloseKeeps(w, c);
    case CloseSweeps => SweepKeeps(w);
    case CloseClosesOne(runtime) => CloseOneKeeps(w, runtime);
    case _ => QuietKeeps(w, e);
  }

  lemma QuietKeeps(w: World, e: Event)
    requires Owned(w) && ClosingOk(w) && Enabled(w, e)
    requires e.Begins? || e.Installs? || e.Checks? || e.Reports? || e.Leaves? || e.Exits? || e.CloseCalled?
             || e.CloseReturns?
    ensures Owned(Apply(w, e))
  {
    SamePlaces(w, Apply(w, e));
  }

  lemma StepKeeps(w: World, e: Event)
    requires Inv(w) && Enabled(w, e)
    ensures Inv(Apply(w, e))
  {
    CountKept(w, e);
    ClosingKept(w, e);
    OwnedKept(w, e);
    SlotsKept(w, e);
    StopsKept(w, e);
  }

  // ---- Every run ------------------------------------------------------------------------------

  ghost predicate Runs(w: World, events: seq<Event>, t: World)
    decreases |events|
  {
    if events == [] then t == w
    else Enabled(w, events[0]) && Runs(Apply(w, events[0]), events[1..], t)
  }

  ghost predicate Reachable(w: World) {
    exists start: World, events: seq<Event> :: Initial(start) && Runs(start, events, w)
  }

  lemma {:induction false} RunKeeps(w: World, events: seq<Event>, t: World)
    requires Inv(w) && Runs(w, events, t)
    ensures Inv(t)
    decreases |events|
  {
    if events != [] {
      StepKeeps(w, events[0]);
      RunKeeps(Apply(w, events[0]), events[1..], t);
    }
  }

  lemma ReachableInv(w: World)
    requires Reachable(w)
    ensures Inv(w)
  {
    var start, events :| Initial(start) && Runs(start, events, w);
    InitialInv(start);
    RunKeeps(start, events, w);
  }

  /** The wait group's count is the busy names plus the changes between clearing their name and leaving. */
  lemma OutstandingChanges(w: World)
    requires Reachable(w)
    ensures w.outstanding == |w.changes| == |w.busy| + |ReportedChanges(w.changes)|
    ensures w.outstanding == |w.busy| <==> forall c | c in w.changes :: !w.changes[c].phase.Reported?
    ensures forall name | name in w.busy :: Working(w.changes, w.busy[name]) && w.changes[w.busy[name]].name == name
    ensures forall c, d | Working(w.changes, c) && Working(w.changes, d) && w.changes[c].name == w.changes[d].name ::
              c == d
  {
    ReachableInv(w);
    if c :| c in w.changes && w.changes[c].phase.Reported? {
      assert c in ReportedChanges(w.changes);
    }
  }

  lemma {:induction false} RunThenStep(w: World, events: seq<Event>, t: World, e: Event)
    requires Runs(w, events, t) && Enabled(t, e)
    ensures Runs(w, events + [e], Apply(t, e))
    decreases |events|
  {
    if events == [] {
      assert [e][1..] == [];
      assert Runs(Apply(w, e), [], Apply(w, e));
    } else {
      RunThenStep(Apply(w, events[0]), events[1..], t, e);
      assert (events + [e])[1..] == events[1..] + [e];
    }
  }

  /** The two numbers differ after every report: the change has cleared its name, so the next may
      begin, and not yet left. */
  lemma ReportedChangesStillCount(w: World, c: Id)
    requires Reachable(w) && InPhase(w, c, Finishing)
    ensures var t := Apply(w, Reports(c));
      Reachable(t) && t.outstanding > |t.busy|
      && (!w.closed && w.changes[c].name in w.packs ==> Accepts(t, w.changes[c].name))
  {
    var t := Apply(w, Reports(c));
    ReachableStep(w, Reports(c));
    OutstandingChanges(t);
    assert c in ReportedChanges(t.changes);
  }

  lemma ReachableStep(w: World, e: Event)
    requires Reachable(w) && Enabled(w, e)
    ensures Reachable(Apply(w, e))
  {
    var start, events :| Initial(start) && Runs(start, events, w);
    RunThenStep(start, events, w, e);
  }

  function Idle(name: Name): World {
    World({name}, None, map[], map[], false, 0, map[], NotCalled, {}, {})
  }

  function FinishingStop(name: Name): World {
    Idle(name).(busy := map[name := 0], outstanding := 1, changes := map[0 := Change(name, Stop, Finishing)])
  }

  /** And reports do happen, for any pack. */
  lemma FinishingStopIsReachable(name: Name)
    ensures Reachable(FinishingStop(name)) && InPhase(FinishingStop(name), 0, Finishing)
  {
    assert Initial(Idle(name)) && Runs(Idle(name), [], Idle(name));
    ReachableStep(Idle(name), Begins(0, name, Stop));
    var begun := Apply(Idle(name), Begins(0, name, Stop));
    assert begun.changes == map[0 := Change(name, Stop, Stopping)] && begun.busy == map[name := 0];
    ReachableStep(begun, Takes(0));
    assert Empty(begun, name) == begun by {
      assert begun.databases - {name} == map[];
    }
    assert Apply(begun, Takes(0)) == FinishingStop(name) by {
      assert begun.changes[0 := Change(name, Stop, Finishing)] == FinishingStop(name).changes;
    }
  }

  lemma NamesAndCountDiffer(name: Name)
    ensures exists w :: Reachable(w) && w.outstanding > |w.busy| && Accepts(w, name)
  {
    FinishingStopIsReachable(name);
    ReportedChangesStillCount(FinishingStop(name), 0);
  }

  /** A live runtime is in exactly one place: a slot, a change that is about to publish or close it, or Close. */
  lemma EveryRuntimeHasOneOwner(w: World, runtime: Runtime)
    requires Reachable(w) && runtime in w.live
    ensures Held(w, runtime)
    ensures forall p, q | IsAt(w, runtime, p) && IsAt(w, runtime, q) :: p == q
  {
    ReachableInv(w);
  }

  /** Publishing a runtime never drops one that still runs. */
  lemma PublishDropsNothingLive(w: World, c: Id)
    requires Reachable(w) && Enabled(w, Publishes(c))
    ensures forall runtime | runtime in w.live :: Held(Apply(w, Publishes(c)), runtime)
    ensures Slot(w, w.changes[c].name).Some? ==> Slot(w, w.changes[c].name).value !in w.live
  {
    ReachableInv(w);
    StepKeeps(w, Publishes(c));
    assert SlotFree(w, w.changes[c].name);
  }

  /** When a stop or a removal reports, its name has no runtime, and every live one belongs to something else. */
  lemma StopLeavesNothing(w: World, c: Id)
    requires Reachable(w) && Enabled(w, Reports(c)) && Stops(w.changes[c].action)
    ensures Slot(w, w.changes[c].name).None?
    ensures forall runtime | runtime in w.live ::
              !IsAt(w, runtime, SlotPlace(w.changes[c].name)) && !IsAt(w, runtime, WithChange(c))
  {
    ReachableInv(w);
    assert StopOk(w, c);
  }

  lemma {:induction false} ReturnedStays(w: World, events: seq<Event>, t: World)
    requires Runs(w, events, t)
    ensures w.closer.Returned? && w.closed ==> t.closer.Returned?
    ensures w.closed ==> t.closed && t.changes.Keys <= w.changes.Keys && t.busy.Keys <= w.busy.Keys
    decreases |events|
  {
    if events != [] {
      ReturnedStays(Apply(w, events[0]), events[1..], t);
    }
  }

  /** After the closing call returned, nothing runs and nothing is in flight, for ever. */
  lemma NothingRunsAfterClose(w: World, events: seq<Event>, t: World)
    requires Reachable(w) && w.closer.Returned? && Runs(w, events, t)
    ensures t.live == {} && t.changes == map[] && t.busy == map[] && t.outstanding == 0
    ensures forall c, name, action | Enabled(t, Begins(c, name, action)) :: Apply(t, Begins(c, name, action)) == t
  {
    ReachableInv(w);
    RunKeeps(w, events, t);
    ReturnedStays(w, events, t);
    assert forall runtime, place :: !IsAt(t, runtime, place);
    forall runtime ensures runtime !in t.live {
      assert runtime in t.live ==> Held(t, runtime);
    }
  }

  function Finished(w: World): World
    requires w.closer.Sweeping?
  {
    w.(live := w.live - w.closer.runtimes, closer := Returned)
  }

  /** Closing all swept runtimes, one after the other, is a run of single steps. */
  lemma {:induction false} FinishingIsARun(w: World) returns (events: seq<Event>)
    requires w.closer.Sweeping?
    ensures Runs(w, events, Finished(w))
    decreases |w.closer.runtimes|
  {
    if w.closer.runtimes == {} {
      assert [CloseReturns][1..] == [];
      assert Runs(Apply(w, CloseReturns), [], Finished(w));
      events := [CloseReturns];
    } else {
      var runtime :| runtime in w.closer.runtimes;
      var next := Apply(w, CloseClosesOne(runtime));
      var rest := FinishingIsARun(next);
      assert Finished(next) == Finished(w) by {
        assert next.live - next.closer.runtimes == w.live - w.closer.runtimes;
      }
      events := [CloseClosesOne(runtime)] + rest;
      assert events[1..] == rest;
    }
  }

  /** Closing as such refuses every new change; those in flight run on and are waited for. */
  lemma NoChangeBeginsAfterClosing(w: World, events: seq<Event>, t: World)
    requires w.closed && Runs(w, events, t)
    ensures t.changes.Keys <= w.changes.Keys
    ensures forall name :: !Accepts(t, name)
  {
    ReturnedStays(w, events, t);
  }

  /** A second call of Close comes back at once, here while PHP still runs. */
  lemma SecondCloseReturnsEarly(w: World)
    requires Initial(w) && w.live != {}
    ensures Runs(w, [CloseCalled], Apply(w, CloseCalled))
    ensures var t := Apply(w, CloseCalled); t.live == w.live && Apply(t, CloseCalled) == t && !t.closer.Returned?
  {
    assert [CloseCalled][1..] == [];
  }

  /** Exactly when a second call leaves nothing running: no slot, no change in flight and no list of
      the first call has a live runtime; that is certain once the first call has returned. */
  lemma SecondCloseLeavesNothingExactly(w: World)
    requires Reachable(w) && w.closed
    ensures Apply(w, CloseCalled) == w
    ensures w.live == {} <==> forall runtime, place | IsAt(w, runtime, place) :: runtime !in w.live
    ensures w.closer.Returned? ==> w.live == {}
  {
    ReachableInv(w);
    forall runtime | runtime in w.live ensures exists place :: IsAt(w, runtime, place) {
      assert Held(w, runtime);
    }
    if w.closer.Returned? {
      assert Runs(w, [], w);
      NothingRunsAfterClose(w, [], w);
    }
  }

  /** Where the first call may stand for a second one to find that nothing runs, whatever happened
      before: only at its return. */
  lemma OnlyTheReturnIsSafe()
    ensures forall w | Reachable(w) && w.closer.Returned? :: w.live == {}
    ensures exists w :: Reachable(w) && w.closer.Waiting? && w.live != {}
    ensures exists w :: Reachable(w) && w.closer.Sweeping? && w.live != {}
  {
    forall w | Reachable(w) && w.closer.Returned? ensures w.live == {} {
      ReachableInv(w);
      SecondCloseLeavesNothingExactly(w);
    }
    var php := World({}, Some(0), map[], map[], false, 0, map[], NotCalled, {0}, {0});
    assert Initial(php) && Runs(php, [], php);
    ReachableStep(php, CloseCalled);
    var waiting := Apply(php, CloseCalled);
    ReachableStep(waiting, CloseSweeps);
    var sweeping := Apply(waiting, CloseSweeps);
    assert waiting.live == sweeping.live == {0};
  }

  // ---- What a change achieves -----------------------------------------------------------------

  /** `w` with one more change in flight, at that phase. */
  function Changing(w: World, c: Id, name: Name, action: Action, phase: Phase): World {
    w.(busy := w.busy[name := c], outstanding := w.outstanding + 1,
       changes := w.changes[c := Change(name, action, phase)])
  }

  predicate MayChange(w: World, c: Id, name: Name) {
    c !in w.changes && name in w.packs && !w.closed && name !in w.busy
  }

  lemma ChangeMoves(w: World, c: Id, name: Name, action: Action, phase: Phase, next: Phase)
    ensures Moved(Changing(w, c, name, action, phase), c, next) == Changing(w, c, name, action, next)
  {
    var changes := w.changes[c := Change(name, action, phase)];
    assert changes[c := Change(name, action, next)] == w.changes[c := Change(name, action, next)];
  }

  /** A change at its end reports and leaves, and nothing of it stays behind. */
  lemma ChangeEnds(w: World, c: Id, name: Name, action: Action)
    requires c !in w.changes && name !in w.busy
    ensures var finishing := Changing(w, c, name, action, Finishing);
            && Enabled(finishing, Reports(c)) && Enabled(Apply(finishing, Reports(c)), Leaves(c))
            && Apply(Apply(finishing, Reports(c)), Leaves(c)) == w
  {
    ChangeMoves(w, c, name, action, Finishing, Reported);
    assert w.busy[name := c] - {name} == w.busy;
    assert w.changes[c := Change(name, action, Reported)] - {c} == w.changes;
  }

  /** Every accepted change begins where its action begins: a start with its check, an installation
      with the installer, a stop or removal with taking the runtime. */
  lemma ChangeBegins(w: World, c: Id, name: Name, action: Action)
    requires MayChange(w, c, name)
    ensures Enabled(w, Begins(c, name, action))
    ensures Apply(w, Begins(c, name, action)) == Changing(w, c, name, action,
              match action case Start => Checking case Install => Installing case _ => Stopping)
  {
  }

  /** A finished installation of PHP goes on to start it; other packs are not started. */
  lemma InstallGoesOn(w: World, c: Id, name: Name, succeeds: bool)
    ensures var installing := Changing(w, c, name, Install, Installing);
            && Enabled(installing, Installs(c, succeeds))
            && Apply(installing, Installs(c, succeeds))
               == Changing(w, c, name, Install, if succeeds && name == "php" then Checking else Finishing)
  {
    ChangeMoves(w, c, name, Install, Installing, if succeeds && name == "php" then Checking else Finishing);
  }

  /** The slot of `name` has this runtime and every other slot is as it was. */
  predicate SlotIs(w: World, t: World, name: Name, runtime: Option<Runtime>) {
    if name == "php" then t.php == runtime && t.databases == w.databases
    else
      && t.php == w.php && t.databases - {name} == w.databases - {name}
      && (runtime.Some? <==> name in t.databases) && (runtime.Some? ==> t.databases[name] == runtime.value)
  }

  /** A check finds the runtime running, or not installed, and ends the change; otherwise it launches. */
  lemma CheckDecides(w: World, c: Id, name: Name, action: Action, installed: bool)
    requires "php" !in w.databases
    ensures var checking := Changing(w, c, name, action, Checking);
            var running := if name == "php" then w.php.Some? else name in w.databases && w.databases[name] in w.live;
            && Enabled(checking, Checks(c, installed))
            && Apply(checking, Checks(c, installed))
               == Changing(w, c, name, action, if installed && !running then Launching else Finishing)
  {
    ChangeMoves(w, c, name, action, Checking, Finishing);
    ChangeMoves(w, c, name, action, Checking, Launching);
  }

  /** The runtime a launch brings up is published in the slot of its name, and lives. */
  lemma LaunchIsPublished(w: World, c: Id, name: Name, action: Action, runtime: Runtime) returns (done: World)
    requires runtime !in w.started
    ensures var launching := Changing(w, c, name, action, Launching);
            && Enabled(launching, Launches(c, Some(runtime)))
            && Enabled(Apply(launching, Launches(c, Some(runtime))), Publishes(c))
            && Apply(Apply(launching, Launches(c, Some(runtime))), Publishes(c))
               == Changing(done, c, name, action, Finishing)
    ensures SlotIs(w, done, name, Some(runtime)) && done.live == w.live + {runtime}
    ensures done.busy == w.busy && done.changes == w.changes && done.outstanding == w.outstanding
  {
    var up := w.(live := w.live + {runtime}, started := w.started + {runtime});
    ChangeMoves(w, c, name, action, Launching, Publishing(runtime));
    assert Apply(Changing(w, c, name, action, Launching), Launches(c, Some(runtime)))
        == Changing(up, c, name, action, Publishing(runtime));
    done := Fill(up, name, runtime);
    ChangeMoves(done, c, name, action, Publishing(runtime), Finishing);
  }

  /** Left alone, a start of an installed pack that is not running ends with its runtime up. */
  lemma StartBringsUp(w: World, c: Id, name: Name, runtime: Runtime) returns (t: World)
    requires Reachable(w) && MayChange(w, c, name) && runtime !in w.started
    requires if name == "php" then w.php.None? else name in w.databases ==> w.databases[name] !in w.live
    ensures Runs(w, [Begins(c, name, Start), Checks(c, true), Launches(c, Some(runtime)), Publishes(c), Reports(c),
                     Leaves(c)], t)
    ensures SlotIs(w, t, name, Some(runtime)) && t.live == w.live + {runtime}
    ensures t.busy == w.busy && t.changes == w.changes && t.outstanding == w.outstanding
  {
    ReachableInv(w);
    ChangeBegins(w, c, name, Start);
    CheckDecides(w, c, name, Start, true);
    t := LaunchIsPublished(w, c, name, Start, runtime);
    ChangeEnds(t, c, name, Start);
    var w1 := Changing(w, c, name, Start, Checking);
    var w2 := Changing(w, c, name, Start, Launching);
    var w3 := Apply(w2, Launches(c, Some(runtime)));
    var w4 := Changing(t, c, name, Start, Finishing);
    var w5 := Apply(w4, Reports(c));
    RunsFive(w1, Checks(c, true), w2, Launches(c, Some(runtime)), w3, Publishes(c), w4, Reports(c), w5, Leaves(c), t);
    RunsBack(w, Begins(c, name, Start),
             [Checks(c, true), Launches(c, Some(runtime)), Publishes(c), Reports(c), Leaves(c)], t);
  }

  lemma RunsBack(w: World, e: Event, rest: seq<Event>, t: World)
    requires Enabled(w, e) && (rest == [] ==> Apply(w, e) == t) && (rest != [] ==> Runs(Apply(w, e), rest, t))
    ensures Runs(w, [e] + rest, t)
  {
    assert ([e] + rest)[1..] == rest;
  }

  lemma RunsFive(w: World, a: Event, w1: World, b: Event, w2: World, c: Event, w3: World, d: Event, w4: World, e: Event,
                 t: World)
    requires Enabled(w, a) && Apply(w, a) == w1 && Enabled(w1, b) && Apply(w1, b) == w2
    requires Enabled(w2, c) && Apply(w2, c) == w3 && Enabled(w3, d) && Apply(w3, d) == w4
    requires Enabled(w4, e) && Apply(w4, e) == t
    ensures Runs(w, [a, b, c, d, e], t)
  {
    RunsBack(w4, e, [], t);
    RunsBack(w3, d, [e], t);
    RunsBack(w2, c, [d, e], t);
    RunsBack(w1, b, [c, d, e], t);
    RunsBack(w, a, [b, c, d, e], t);
  }

  lemma TakeMoves(w: World, c: Id, name: Name, action: Action, runtime: Runtime)
    requires if name == "php" then w.php == Some(runtime) else name in w.databases && w.databases[name] == runtime
    ensures var stopping := Changing(w, c, name, action, Stopping);
            && Enabled(stopping, Takes(c))
            && Apply(stopping, Takes(c)) == Changing(Empty(w, name), c, name, action, Phase.Closing(runtime))
  {
    ChangeMoves(Empty(w, name), c, name, action, Stopping, Phase.Closing(runtime));
  }

  lemma CloseMoves(w: World, c: Id, name: Name, action: Action, runtime: Runtime)
    ensures var closing := Changing(w, c, name, action, Phase.Closing(runtime));
            && Enabled(closing, Closes(c))
            && Apply(closing, Closes(c)) == Changing(w.(live := w.live - {runtime}), c, name, action, Finishing)
  {
    ChangeMoves(w, c, name, action, Phase.Closing(runtime), Finishing);
  }

  /** Left alone, a stop or removal of a running pack ends with its slot empty and its runtime gone. */
  lemma StopTakesDown(w: World, c: Id, name: Name, action: Action, runtime: Runtime) returns (t: World)
    requires MayChange(w, c, name) && (action == Stop || action == Remove)
    requires if name == "php" then w.php == Some(runtime) else name in w.databases && w.databases[name] == runtime
    ensures Runs(w, [Begins(c, name, action), Takes(c), Closes(c), Reports(c), Leaves(c)], t)
    ensures SlotIs(w, t, name, None) && t.live == w.live - {runtime}
    ensures t.busy == w.busy && t.changes == w.changes && t.outstanding == w.outstanding
  {
    ChangeBegins(w, c, name, action);
    var taken := Empty(w, name);
    t := taken.(live := w.live - {runtime});
    ChangeEnds(t, c, name, action);
    var w1 := Changing(w, c, name, action, Stopping);
    var w2 := Changing(taken, c, name, action, Phase.Closing(runtime));
    var w3 := Changing(t, c, name, action, Finishing);
    TakeMoves(w, c, name, action, runtime);
    CloseMoves(taken, c, name, action, runtime);
    RunsFive(w, Begins(c, name, action), w1, Takes(c), w2, Closes(c), w3, Reports(c), Apply(w3, Reports(c)), Leaves(c),
             t);
  }

  // ---- The manager ----------------------------------------------------------------------------

  datatype Error = UnknownPack | ManagerClosed | AlreadyChanging

  /** A method per critical section; the changes and processes themselves are kept as ghosts. */
  class Manager {
    const packs: set<Name>
    var php: Option<Runtime>
    var databases: map<Name, Runtime>
    var busy: map<Name, bool>
    var closed: bool
    var outstanding: nat
    ghost var doing: map<Name, Id>
    ghost var changes: map<Id, Change>
    ghost var closer: Closer
    ghost var live: set<Runtime>
    ghost var started: set<Runtime>

    ghost function View(): World
      reads this
    {
      World(packs, php, databases, doing, closed, outstanding, changes, closer, live, started)
    }

    ghost predicate Valid()
      reads this
    {
      forall name :: (name in busy && busy[name]) <==> name in doing
    }

    constructor (packs: set<Name>, php: Option<Runtime>)
      ensures Valid() && Initial(View()) && this.packs == packs && this.php == php
      ensures php.Some? ==> php.value in live
    {
      this.packs, this.php, databases, busy, closed, outstanding := packs, php, map[], map[], false, 0;
      doing, changes, closer := map[], map[], NotCalled;
      live := if php.Some? then {php.value} else {};
      started := if php.Some? then {php.value} else {};
    }

    method BeginChange(name: Name, action: Action, ghost c: Id) returns (error: Option<Error>)
      requires Valid() && Enabled(View(), Begins(c, name, action))
      modifies this
      ensures Valid() && View() == Apply(old(View()), Begins(c, name, action))
      ensures error.None? <==> old(Accepts(View(), name))
      ensures error == Some(UnknownPack) <==> name !in packs
      ensures error == Some(ManagerClosed) <==> name in packs && closed
      ensures error == Some(AlreadyChanging) <==> name in packs && !closed && name in old(busy) && old(busy)[name]
    {
      if name !in packs {
        return Some(UnknownPack);
      }
      if closed {
        return Some(ManagerClosed);
      }
      if name in busy && busy[name] {
        return Some(AlreadyChanging);
      }
      busy := busy[name := true];
      doing := doing[name := c];
      outstanding := outstanding + 1;
      changes := changes[c := Change(name, action, FirstPhase(action))];
      return None;
    }

    /** `running` answers whether the database process in the slot still runs. */
    method StartChecks(name: Name, installed: bool, running: bool, ghost c: Id) returns (launch: bool)
      requires Valid() && Enabled(View(), Checks(c, installed)) && changes[c].name == name
      requires running == (name in databases && databases[name] in live)
      modifies this`changes
      ensures View() == Apply(old(View()), Checks(c, installed))
      ensures launch == (installed && old(!AlreadyRunning(View(), name)))
    {
      launch := installed;
      if installed && name == "php" && php.Some? {
        launch := false;
      }
      if installed && name in databases && running {
        launch := false;
      }
      changes := changes[c := changes[c].(phase := if launch then Launching else Finishing)];
    }

    method StartPublishes(name: Name, runtime: Runtime, ghost c: Id)
      requires Valid() && InPhase(View(), c, Publishing(runtime)) && changes[c].name == name
      modifies this`php, this`databases, this`changes
      ensures View() == Apply(old(View()), Publishes(c))
    {
      if name == "php" {
        php := Some(runtime);
      } else {
        databases := databases[name := runtime];
      }
      changes := changes[c := changes[c].(phase := Finishing)];
    }

    /** `taken` is the runtime the caller closes next. */
    method StopTakes(name: Name, ghost c: Id) returns (taken: Option<Runtime>)
      requires Valid() && Enabled(View(), Takes(c)) && changes[c].name == name
      modifies this`php, this`databases, this`changes
      ensures View() == Apply(old(View()), Takes(c))
      ensures taken == old(Slot(View(), name))
    {
      if name == "php" {
        taken := php;
        php := None;
      } else {
        taken := if name in databases then Some(databases[name]) else None;
        databases := databases - {name};
      }
      changes := changes[c := changes[c].(phase := if taken.Some? then Phase.Closing(taken.value) else Finishing)];
    }

    method ChangeReports(name: Name, ghost c: Id)
      requires Valid() && Enabled(View(), Reports(c)) && changes[c].name == name
      modifies this`busy, this`doing, this`changes
      ensures Valid() && View() == Apply(old(View()), Reports(c))
    {
      busy := busy[name := false];
      doing := doing - {name};
      changes := changes[c := changes[c].(phase := Reported)];
    }

    method ChangeLeaves(ghost c: Id)
      requires Valid() && Enabled(View(), Leaves(c))
      modifies this`outstanding, this`changes
      ensures Valid() && View() == Apply(old(View()), Leaves(c))
    {
      outstanding := outstanding - 1;
      changes := changes - {c};
    }

    /** `first` tells the call that closes from those that return at once. */
    method CloseBegins() returns (first: bool)
      requires Valid()
      modifies this`closed, this`closer
      ensures Valid() && View() == Apply(old(View()), CloseCalled)
      ensures first == !old(closed)
    {
      if closed {
        return false;
      }
      closed := true;
      closer := Waiting;
      return true;
    }

    /** PHP first, then the databases in any order. */
    method CloseSweeps() returns (swept: seq<Runtime>)
      requires Valid() && Enabled(View(), Event.CloseSweeps)
      modifies this`php, this`databases, this`closer
      ensures Valid() && View() == Apply(old(View()), Event.CloseSweeps)
      ensures forall runtime :: runtime in swept <==> runtime in old(Kept(View()))
    {
      swept := if php.Some? then [php.value] else [];
      var names := databases.Keys;
      while names != {}
        modifies {}
        invariant names <= databases.Keys
        invariant forall runtime | runtime in swept :: runtime in Kept(View())
        invariant php.Some? ==> php.value in swept
        invariant forall name | name in databases && name !in names :: databases[name] in swept
        decreases names
      {
        var name :| name in names;
        names := names - {name};
        swept := swept + [databases[name]];
      }
      closer := Sweeping(Kept(View()));
      php := None;
      databases := map[];
    }

    method CloseFinishes(swept: seq<Runtime>)
      requires closer.Sweeping? && forall runtime :: runtime in swept <==> runtime in closer.runtimes
      modifies this`live, this`closer
      ensures View() == Finished(old(View()))
    {
      for i := 0 to |swept|
        modifies this`live
        invariant live == old(live) - set k | 0 <= k < i :: swept[k]
      {
        live := live - {swept[i]};
      }
      assert live == old(live) - closer.runtimes;
      closer := Returned;
    }
  }
}
