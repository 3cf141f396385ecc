/** The recoverable HTTP listener: its serve goroutines, and the connection slots all its listeners share. */
module Listener {
  import opened Text

  const MAXIMUM_CONNECTIONS: nat := 256

  /** One number per wrapped listener, per running Accept call and per accepted connection. */
  type Id = nat

  datatype World = World(
    generation: nat,
    active: bool,
    closing: bool,
    listener: Option<Id>,
    lastError: Option<string>,
    slots: nat,             // tokens in the shared channel
    wrapped: set<Id>,       // listeners wrapped so far
    closed: set<Id>,        // of these, the ones whose `done` is closed
    serving: map<nat, Id>,  // serve goroutines that have not reported back, by generation
    holding: set<Id>,       // Accept calls past the slot channel
    open: set<Id>,          // accepted connections not yet released
    released: set<Id>       // accepted connections already released
  )

  const INITIAL := World(0, false, false, None, None, 0, {}, {}, map[], {}, {}, {})

  /** The critical sections and channel operations. */
  datatype Event =
    | Start(l: Id)
    | ServeEnds(generation: nat, error: Option<string>)
    | SlotTaken(l: Id, call: Id)
    | AcceptRefused(l: Id)
    | Accepted(call: Id, connection: Id)
    | AcceptFails(call: Id)
    | CloseConnection(connection: Id)
    | CloseActive
    | ShutdownBegins
    | ShutdownEnds

  predicate Enabled(w: World, e: Event) {
    match e
    case Start(l) => l !in w.wrapped
    case ServeEnds(generation, _) => generation in w.serving
    case SlotTaken(l, call) => l in w.wrapped && call !in w.holding && w.slots < MAXIMUM_CONNECTIONS
    case AcceptRefused(l) => l in w.closed
    case Accepted(call, connection) => call in w.holding && connection !in w.open + w.released
    case AcceptFails(call) => call in w.holding
    case CloseConnection(connection) => connection in w.open + w.released
    case CloseActive => true
    case ShutdownBegins => true
    case ShutdownEnds => w.closing
  }

  /** A receive from the slot channel blocks when it is empty. */
  predicate Receives(w: World, e: Event) {
    e.AcceptFails? || (e.CloseConnection? && e.connection in w.open)
  }

  function Apply(w: World, e: Event): World
    requires Enabled(w, e) && (Receives(w, e) ==> w.slots > 0)
  {
    match e
    case Start(l) =>
      if w.closing || w.active then w.(wrapped := w.wrapped + {l}, closed := w.closed + {l})
      else
        w.(wrapped := w.wrapped + {l}, generation := w.generation + 1, listener := Some(l), active := true,
           lastError := None, serving := w.serving[w.generation + 1 := l])
    case ServeEnds(generation, error) =>
      var rest := w.(serving := w.serving - {generation});
      if w.generation == generation then rest.(active := false, listener := None, lastError := error) else rest
    case SlotTaken(_, call) => w.(slots := w.slots + 1, holding := w.holding + {call})
    case AcceptRefused(_) => w
    case Accepted(call, connection) => w.(holding := w.holding - {call}, open := w.open + {connection})
    case AcceptFails(call) => w.(slots := w.slots - 1, holding := w.holding - {call})
    case CloseConnection(connection) =>
      if connection in w.open then
        w.(slots := w.slots - 1, open := w.open - {connection}, released := w.released + {connection})
      else w
    case CloseActive => if w.listener.Some? then w.(closed := w.closed + {w.listener.value}) else w
    case ShutdownBegins => w.(closing := true)
    case ShutdownEnds => w.(active := false, listener := None)
  }

  // ---- The invariant --------------------------------------------------------------------------

  /** Every token belongs to an Accept call or to an unreleased connection. */
  predicate TokensAccounted(w: World) {
    && w.slots == |w.holding| + |w.open| <= MAXIMUM_CONNECTIONS
    && w.open !! w.released
  }

  /** At most one goroutine has not reported, it serves the newest listener, and `active` says so. */
  predicate OneServes(w: World) {
    && w.serving.Keys <= {w.generation}
    && (!w.closing ==> (w.active <==> w.generation in w.serving))
    && (w.active ==> w.generation in w.serving && w.listener == Some(w.serving[w.generation]))
    && (!w.active ==> w.listener == None)
    && w.closed <= w.wrapped
    && (forall g | g in w.serving :: w.serving[g] in w.wrapped)
  }

  predicate Inv(w: World) {
    TokensAccounted(w) && OneServes(w)
  }

  /** No receive ever waits. */
  lemma ReleaseNeverBlocks(w: World, e: Event)
    requires TokensAccounted(w) && Enabled(w, e)
    ensures Receives(w, e) ==> w.slots > 0
  {
    if e.AcceptFails? {
      assert |w.holding| > 0;
    } else if e.CloseConnection? && e.connection in w.open {
      assert |w.open| > 0;
    }
  }

  lemma StepKeeps(w: World, e: Event)
    requires Inv(w) && Enabled(w, e)
    ensures (Receives(w, e) ==> w.slots > 0) && Inv(Apply(w, e))
  {
    ReleaseNeverBlocks(w, e);
    StepKeepsTokens(w, e);
    assert OneServes(Apply(w, e));
  }

  lemma StepKeepsTokens(w: World, e: Event)
    requires TokensAccounted(w) && Enabled(w, e) && (Receives(w, e) ==> w.slots > 0)
    ensures TokensAccounted(Apply(w, e))
  {
    match e
    case SlotTaken(_, call) => OneMore(w.holding, call);
    case Accepted(call, connection) => OneLess(w.holding, call); OneMore(w.open, connection);
    case AcceptFails(call) => OneLess(w.holding, call);
    case CloseConnection(connection) =>
      if connection in w.open {
        OneLess(w.open, connection);
      }
    case _ =>
  }

  lemma OneMore(ids: set<Id>, id: Id)
    requires id !in ids
    ensures |ids + {id}| == |ids| + 1
  {
  }

  lemma OneLess(ids: set<Id>, id: Id)
    requires id in ids
    ensures |ids - {id}| == |ids| - 1
  {
  }

  // ---- Every run ------------------------------------------------------------------------------

  ghost predicate Runs(w: World, events: seq<Event>, t: World)
    decreases |events|
  {
    if events == [] then t == w
    else
      && Enabled(w, events[0]) && (Receives(w, events[0]) ==> w.slots > 0)
      && Runs(Apply(w, events[0]), events[1..], t)
  }

  ghost predicate Reachable(w: World) {
    exists events: seq<Event> :: Runs(INITIAL, events, w)
  }

  lemma {:induction false} RunKeeps(w: World, events: seq<Event>, t: World)
    requires Inv(w) && Runs(w, events, t)
    ensures Inv(t)
    decreases |events|
  {
    if events != [] {
      StepKeeps(w, events[0]);
      RunKeeps(Apply(w, events[0]), events[1..], t);
    }
  }

  lemma ReachableInv(w: World)
    requires Reachable(w)
    ensures Inv(w)
  {
    var events :| Runs(INITIAL, events, w);
    RunKeeps(INITIAL, events, w);
  }

  /** Across all listeners: tokens are exactly accounted for, never above the limit, never waited for on release. */
  lemma SlotsMatchConnections(w: World)
    requires Reachable(w)
    ensures w.slots == |w.holding| + |w.open| <= MAXIMUM_CONNECTIONS
    ensures forall e | Enabled(w, e) && Receives(w, e) :: w.slots > 0
    ensures forall l, call | l in w.wrapped && call !in w.holding ::
              !Enabled(w, SlotTaken(l, call)) <==> |w.holding| + |w.open| == MAXIMUM_CONNECTIONS
  {
    ReachableInv(w);
    forall e | Enabled(w, e) && Receives(w, e) ensures w.slots > 0 {
      ReleaseNeverBlocks(w, e);
    }
  }

  /** An exit that reports is always that of the newest listener; so none can mark a newer one down. */
  lemma LateExitsAreHarmless(w: World, generation: nat, error: Option<string>)
    requires Reachable(w) && Enabled(w, ServeEnds(generation, error))
    ensures generation == w.generation && w.serving.Keys == {generation}
    ensures Apply(w, ServeEnds(generation, error)).serving == map[]
  {
    ReachableInv(w);
  }

  /** Until shutdown, healthy means that a goroutine serves the current listener. */
  lemma HealthyMeansServing(w: World)
    requires Reachable(w) && !w.closing
    ensures w.active <==> w.serving.Keys == {w.generation}
    ensures w.active <==> w.listener.Some?
    ensures w.active ==> w.serving[w.generation] == w.listener.value
  {
    ReachableInv(w);
  }

  /** After shutdown no listener is ever active again, and every offered one is closed at once. */
  lemma {:induction false} ShutdownIsFinal(w: World, events: seq<Event>, t: World)
    requires w.closing && !w.active && w.listener == None && Runs(w, events, t)
    ensures t.closing && !t.active && t.listener == None && t.generation == w.generation
    ensures t.serving.Keys <= w.serving.Keys
    ensures t.wrapped - w.wrapped <= t.closed
    decreases |events|
  {
    if events != [] {
      var next := Apply(w, events[0]);
      ShutdownIsFinal(next, events[1..], t);
      ClosedGrows(next, events[1..], t);
    }
  }

  lemma {:induction false} ClosedGrows(w: World, events: seq<Event>, t: World)
    requires Runs(w, events, t)
    ensures w.closed <= t.closed && w.wrapped <= t.wrapped
    decreases |events|
  {
    if events != [] {
      ClosedGrows(Apply(w, events[0]), events[1..], t);
    }
  }

  // ---- The runtime ----------------------------------------------------------------------------

  /** A method per critical section; the goroutines and connections they belong to are kept as ghosts. */
  class ListenerRuntime {
    var generation: nat
    var active: bool
    var closing: bool
    var listener: Option<Id>
    var lastError: Option<string>
    var slots: nat
    var closed: set<Id>
    var released: set<Id>
    ghost var wrapped: set<Id>
    ghost var serving: map<nat, Id>
    ghost var holding: set<Id>
    ghost var open: set<Id>

    ghost function View(): World
      reads this
    {
      World(generation, active, closing, listener, lastError, slots, wrapped, closed, serving, holding, open,
            released)
    }

    constructor ()
      ensures View() == INITIAL
    {
      generation, active, closing, listener, lastError, slots := 0, false, false, None, None, 0;
      closed, released, wrapped, serving, holding, open := {}, {}, {}, map[], {}, {};
    }

    /** `serve` says whether a goroutine was begun, and for which generation. */
    method Start(l: Id) returns (serve: Option<nat>)
      requires Enabled(View(), Event.Start(l))
      modifies this
      ensures View() == Apply(old(View()), Event.Start(l))
      ensures serve == if old(closing || active) then None else Some(generation)
      ensures serve.Some? ==> generation == old(generation) + 1 && active && listener == Some(l) && lastError == None
      ensures serve.None? ==> l in closed && generation == old(generation) && listener == old(listener)
    {
      wrapped := wrapped + {l};
      if closing || active {
        closed := closed + {l};
        return None;
      }
      generation := generation + 1;
      listener := Some(l);
      active := true;
      lastError := None;
      serving := serving[generation := l];
      return Some(generation);
    }

    /** The goroutine's last section; a server that was closed is no error. */
    method ServeEnds(served: nat, error: Option<string>)
      requires Enabled(View(), Event.ServeEnds(served, error))
      modifies this
      ensures View() == Apply(old(View()), Event.ServeEnds(served, error))
      ensures served == old(generation) ==> !active && listener == None && lastError == error
    {
      serving := serving - {served};
      if generation == served {
        active := false;
        listener := None;
        lastError := error;
      }
    }

    /** The choice between a free slot and the closed listener; either must be there, or the call waits. */
    method AcceptBegins(l: Id, call: Id, preferClosed: bool) returns (refused: bool)
      requires Enabled(View(), SlotTaken(l, call)) || Enabled(View(), AcceptRefused(l))
      requires l in wrapped && call !in holding
      modifies this
      ensures refused ==> l in old(closed) && View() == old(View())
      ensures !refused ==> slots == old(slots) + 1 && call in holding
      ensures !refused ==> old(Enabled(View(), SlotTaken(l, call))) && View() == Apply(old(View()), SlotTaken(l, call))
    {
      if l in closed && (preferClosed || slots >= MAXIMUM_CONNECTIONS) {
        return true;
      }
      slots := slots + 1;
      holding := holding + {call};
      return false;
    }

    /** The inner Accept came back, with a connection or an error. */
    method AcceptEnds(call: Id, connection: Option<Id>)
      requires TokensAccounted(View()) && call in holding
      requires connection.Some? ==> Enabled(View(), Accepted(call, connection.value))
      modifies this
      ensures old(slots) > 0
      ensures slots == if connection.Some? then old(slots) else old(slots) - 1
      ensures connection.Some? ==> connection.value in open && connection.value !in old(open)
      ensures View() == Apply(old(View()),
                              if connection.Some? then Accepted(call, connection.value) else AcceptFails(call))
    {
      ReleaseNeverBlocks(View(), AcceptFails(call));
      holding := holding - {call};
      match connection
      case None => slots := slots - 1;
      case Some(c) => open := open + {c};
    }

    /** Closing a connection twice gives back one token. */
    method CloseConnection(connection: Id)
      requires TokensAccounted(View()) && Enabled(View(), Event.CloseConnection(connection))
      modifies this
      ensures old(Receives(View(), Event.CloseConnection(connection))) ==> old(slots) > 0
      ensures View() == Apply(old(View()), Event.CloseConnection(connection))
      ensures connection in released && connection !in open
      ensures slots == if connection in old(released) then old(slots) else old(slots) - 1
    {
      ReleaseNeverBlocks(View(), Event.CloseConnection(connection));
      if connection !in released {
        slots := slots - 1;
        released := released + {connection};
        open := open - {connection};
      }
    }

    method CloseActiveListener()
      modifies this
      ensures View() == Apply(old(View()), CloseActive)
      ensures old(listener).Some? ==> old(listener).value in closed
      ensures listener == old(listener) && active == old(active)
    {
      match listener
      case None =>
      case Some(l) => closed := closed + {l};
    }

    method ShutdownBegins()
      modifies this
      ensures View() == Apply(old(View()), Event.ShutdownBegins) && closing
    {
      closing := true;
    }

    method ShutdownEnds()
      requires closing
      modifies this
      ensures View() == Apply(old(View()), Event.ShutdownEnds) && !active && listener == None
    {
      active := false;
      listener := None;
    }
  }
}
