/** Public shares with a lifetime: an external command, a state file and an in-memory map. */
module Funnel {
  import opened Text

  type Slug = string

  datatype Entry = Entry(enabledAt: int, expiresAt: int)

  datatype Error = NotConfirmed | CommandFailed | SaveFailed

  /** The manager's map, the state file, and the shares the outside world can really reach. */
  datatype State = State(entries: map<Slug, Entry>, saved: map<Slug, Entry>, exposed: set<Slug>)

  predicate Unexpired(entry: Entry, now: int) {
    now < entry.expiresAt
  }

  predicate ActiveAt(s: State, slug: Slug, now: int) {
    slug in s.entries && Unexpired(s.entries[slug], now)
  }

  function ExpiredAt(entries: map<Slug, Entry>, now: int): set<Slug> {
    set slug | slug in entries && !Unexpired(entries[slug], now)
  }

  // ---- The calls on values --------------------------------------------------------------------

  /** How the command, the save and the compensating command of one call turn out. */
  datatype Fate = Fate(command: bool, save: bool, undo: bool)

  function AfterEnable(s: State, slug: Slug, confirmation: Slug, before: int, entry: Entry, fate: Fate)
    : (State, Option<Error>)
  {
    if slug == "" || confirmation != slug then (s, Some(NotConfirmed))
    else if ActiveAt(s, slug, before) then (s, None)
    else if !fate.command then (s, Some(CommandFailed))
    else if fate.save then
      var entries := s.entries[slug := entry];
      (State(entries, entries, s.exposed + {slug}), None)
    else
      (s.(entries := s.entries - {slug}, exposed := if fate.undo then s.exposed - {slug} else s.exposed + {slug}),
       Some(SaveFailed))
  }

  function AfterDisable(s: State, slug: Slug, fate: Fate): (State, Option<Error>) {
    if slug !in s.entries then (s, None)
    else if !fate.command then (s, Some(CommandFailed))
    else if fate.save then
      var entries := s.entries - {slug};
      (State(entries, entries, s.exposed - {slug}), None)
    else
      (s.(exposed := if fate.undo then s.exposed + {slug} else s.exposed - {slug}), Some(SaveFailed))
  }

  /** Taking the shares of `order` down one by one until something fails. */
  function AfterExpire(s: State, order: seq<Slug>, commands: set<Slug>, saves: set<Slug>): (State, Option<Error>)
    decreases |order|
  {
    if order == [] then (s, None)
    else if order[0] !in commands then (s, Some(CommandFailed))
    else
      var entries := s.entries - {order[0]};
      if order[0] !in saves then
        (s.(entries := entries, exposed := s.exposed - {order[0]}), Some(SaveFailed))
      else
        AfterExpire(State(entries, entries, s.exposed - {order[0]}), order[1..], commands, saves)
  }

  ghost predicate Lists(order: seq<Slug>, slugs: set<Slug>) {
    && (forall slug :: slug in order <==> slug in slugs)
    && (forall i, j | 0 <= i < j < |order| :: order[i] != order[j])
  }

  // ---- The manager ----------------------------------------------------------------------------

  /** Results of the external command and of the save are parameters of each call. */
  class Manager {
    var entries: map<Slug, Entry>
    var saved: map<Slug, Entry>
    var exposed: set<Slug>
    const lifetime: int

    function View(): State
      reads this
    {
      State(entries, saved, exposed)
    }

    /** A new manager starts from the state file; the outside world is as it was left. */
    constructor (saved: map<Slug, Entry>, exposed: set<Slug>, lifetime: int)
      ensures View() == State(saved, saved, exposed) && this.lifetime == lifetime
    {
      entries, this.saved, this.exposed, this.lifetime := saved, saved, exposed, lifetime;
    }

    method Execute(slug: Slug, enable: bool, succeeds: bool)
      modifies this`exposed
      ensures exposed == if !succeeds then old(exposed)
                         else if enable then old(exposed) + {slug} else old(exposed) - {slug}
    {
      if succeeds {
        exposed := if enable then exposed + {slug} else exposed - {slug};
      }
    }

    method Save(succeeds: bool)
      modifies this`saved
      ensures saved == if succeeds then entries else old(saved)
    {
      if succeeds {
        saved := entries;
      }
    }

    method Enable(slug: Slug, confirmation: Slug, before: int, now: int, fate: Fate) returns (error: Option<Error>)
      modifies this
      ensures (View(), error)
           == AfterEnable(old(View()), slug, confirmation, before, Entry(now, now + lifetime), fate)
    {
      if slug == "" || confirmation != slug {
        return Some(NotConfirmed);
      }
      if slug in entries && before < entries[slug].expiresAt {
        return None;
      }
      Execute(slug, true, fate.command);
      if !fate.command {
        return Some(CommandFailed);
      }
      entries := entries[slug := Entry(now, now + lifetime)];
      Save(fate.save);
      if !fate.save {
        entries := entries - {slug};
        Execute(slug, false, fate.undo);
        assert entries == old(entries) - {slug};
        assert exposed == if fate.undo then old(exposed) - {slug} else old(exposed) + {slug};
        return Some(SaveFailed);
      }
      return None;
    }

    method Disable(slug: Slug, fate: Fate) returns (error: Option<Error>)
      modifies this
      ensures (View(), error) == AfterDisable(old(View()), slug, fate)
    {
      if slug !in entries {
        return None;
      }
      var entry := entries[slug];
      Execute(slug, false, fate.command);
      if !fate.command {
        return Some(CommandFailed);
      }
      entries := entries - {slug};
      Save(fate.save);
      if !fate.save {
        entries := entries[slug := entry];
        Execute(slug, true, fate.undo);
        assert entries == old(entries);
        assert exposed == if fate.undo then old(exposed) + {slug} else old(exposed) - {slug};
        return Some(SaveFailed);
      }
      return None;
    }

    /** The map is walked in any order. */
    method Expire(now: int, commands: set<Slug>, saves: set<Slug>)
      returns (error: Option<Error>, ghost order: seq<Slug>)
      modifies this
      ensures Lists(order, ExpiredAt(old(entries), now))
      ensures forall slug :: slug in order <==> slug in old(entries) && old(entries)[slug].expiresAt <= now
      ensures (View(), error) == AfterExpire(old(View()), order, commands, saves)
    {
      var expired := Expired(now);
      order := expired;
      var next := 0;
      while next < |expired|
        invariant 0 <= next <= |expired|
        invariant AfterExpire(old(View()), expired, commands, saves)
               == AfterExpire(View(), expired[next..], commands, saves)
      {
        var slug := expired[next];
        assert expired[next..][1..] == expired[next + 1..];
        Execute(slug, false, slug in commands);
        if slug !in commands {
          return Some(CommandFailed), order;
        }
        entries := entries - {slug};
        Save(slug in saves);
        if slug !in saves {
          return Some(SaveFailed), order;
        }
        next := next + 1;
      }
      return None, order;
    }

    method Expired(now: int) returns (order: seq<Slug>)
      ensures Lists(order, ExpiredAt(entries, now))
    {
      order := [];
      var pending := entries.Keys;
      while pending != {}
        invariant pending <= entries.Keys
        invariant Lists(order, ExpiredAt(entries, now) - pending)
        decreases pending
      {
        var slug :| slug in pending;
        pending := pending - {slug};
        if !Unexpired(entries[slug], now) {
          order := order + [slug];
        }
      }
    }

    /** Exactly the unexpired shares. */
    method ActiveEntries(now: int) returns (active: map<Slug, Entry>)
      ensures active.Keys == entries.Keys - ExpiredAt(entries, now)
      ensures forall slug | slug in active :: active[slug] == entries[slug]
      ensures forall slug :: slug in active <==> slug in entries && now < entries[slug].expiresAt
    {
      active := map[];
      var pending := entries.Keys;
      while pending != {}
        invariant pending <= entries.Keys
        invariant active.Keys == entries.Keys - ExpiredAt(entries, now) - pending
        invariant forall slug | slug in active :: active[slug] == entries[slug]
        decreases pending
      {
        var slug :| slug in pending;
        pending := pending - {slug};
        if now < entries[slug].expiresAt {
          active := active[slug := entries[slug]];
        }
      }
    }
  }

  // ---- Safety of every run --------------------------------------------------------------------

  /** Nothing is public without an entry, and every entry is in the state file too. */
  predicate Safe(s: State) {
    && s.exposed <= s.entries.Keys
    && s.entries.Keys <= s.saved.Keys
    && (forall slug | slug in s.entries :: s.entries[slug] == s.saved[slug])
  }

  /** Moreover every entry really is public. */
  predicate Exact(s: State) {
    Safe(s) && s.exposed == s.entries.Keys
  }

  datatype Call =
    | Enable(slug: Slug, confirmation: Slug, before: int, entry: Entry, fate: Fate)
    | Disable(slug: Slug, fate: Fate)
    | Expire(now: int, order: seq<Slug>, commands: set<Slug>, saves: set<Slug>)
    | Restart

  ghost predicate Possible(s: State, call: Call) {
    call.Expire? ==> Lists(call.order, ExpiredAt(s.entries, call.now))
  }

  function Next(s: State, call: Call): State {
    match call
    case Enable(slug, confirmation, before, entry, fate) =>
      AfterEnable(s, slug, confirmation, before, entry, fate).0
    case Disable(slug, fate) => AfterDisable(s, slug, fate).0
    case Expire(_, order, commands, saves) => AfterExpire(s, order, commands, saves).0
    case Restart => s.(entries := s.saved)
  }

  ghost predicate Runs(s: State, calls: seq<Call>, t: State)
    decreases |calls|
  {
    if calls == [] then t == s
    else Possible(s, calls[0]) && Runs(Next(s, calls[0]), calls[1..], t)
  }

  /** The one way a share can stay public without an entry. */
  predicate Leaks(s: State, call: Call) {
    && call.Enable? && call.slug != "" && call.confirmation == call.slug
    && !ActiveAt(s, call.slug, call.before)
    && call.fate == Fate(true, false, false)
  }

  lemma {:induction false} ExpireEffect(s: State, order: seq<Slug>, commands: set<Slug>, saves: set<Slug>)
    ensures var (t, error) := AfterExpire(s, order, commands, saves);
      && (Safe(s) ==> Safe(t))
      && (Exact(s) ==> Exact(t))
      && t.entries.Keys <= s.entries.Keys
      && (forall slug | slug in s.entries && slug !in order :: slug in t.entries && t.entries[slug] == s.entries[slug])
      && (error.None? <==> forall slug | slug in order :: slug in commands && slug in saves)
      && (error.None? ==> forall slug | slug in order :: slug !in t.entries && slug !in t.exposed)
    decreases |order|
  {
    if order != [] && order[0] in commands && order[0] in saves {
      var entries := s.entries - {order[0]};
      var s' := State(entries, entries, s.exposed - {order[0]});
      ExpireEffect(s', order[1..], commands, saves);
      var (t, error) := AfterExpire(s', order[1..], commands, saves);
      assert forall slug | slug in order :: slug == order[0] || slug in order[1..];
      ExposureShrinks(s', order[1..], commands, saves);
    } else if order != [] {
      assert order[0] in order;
    }
  }

  lemma {:induction false} ExposureShrinks(s: State, order: seq<Slug>, commands: set<Slug>, saves: set<Slug>)
    ensures AfterExpire(s, order, commands, saves).0.exposed <= s.exposed
    decreases |order|
  {
    if order != [] && order[0] in commands && order[0] in saves {
      var entries := s.entries - {order[0]};
      ExposureShrinks(State(entries, entries, s.exposed - {order[0]}), order[1..], commands, saves);
    }
  }

  /** From a safe state, one call keeps safety exactly when it is not the leaking one. */
  lemma SafeExactly(s: State, call: Call)
    requires Safe(s)
    ensures Safe(Next(s, call)) <==> !Leaks(s, call)
  {
    if call.Expire? {
      ExpireEffect(s, call.order, call.commands, call.saves);
    }
  }

  /** Calls and restarts in any number, with every compensating command succeeding. */
  lemma {:induction false} EveryRunIsSafe(s: State, calls: seq<Call>, t: State)
    requires Safe(s) && Runs(s, calls, t)
    requires forall i | 0 <= i < |calls| && (calls[i].Enable? || calls[i].Disable?) :: calls[i].fate.undo
    ensures Safe(t)
    ensures Exact(s) && Restart !in calls ==> Exact(t)
    decreases |calls|
  {
    if calls != [] {
      SafeExactly(s, calls[0]);
      if calls[0].Expire? {
        ExpireEffect(s, calls[0].order, calls[0].commands, calls[0].saves);
      }
      EveryRunIsSafe(Next(s, calls[0]), calls[1..], t);
    }
  }

  /** Nothing but what is said of one share is different, in the map and in the outside world. */
  predicate OnlyTouches(s: State, t: State, slug: Slug) {
    && t.entries - {slug} == s.entries - {slug} && t.exposed - {slug} == s.exposed - {slug}
  }

  /** When Enable succeeds and when it fails, and what the share is afterwards. A share that has not run
      out is left alone; a new one is public, in the map and on file with the given times; a failed one
      is neither in the map nor, with a working undo, public. */
  lemma EnableDecides(s: State, slug: Slug, confirmation: Slug, before: int, entry: Entry, fate: Fate)
    ensures var (t, error) := AfterEnable(s, slug, confirmation, before, entry, fate);
      var active := slug in s.entries && before < s.entries[slug].expiresAt;
      && OnlyTouches(s, t, slug)
      && (error == Some(NotConfirmed) <==> slug == "" || confirmation != slug)
      && (error == Some(CommandFailed) <==> slug != "" && confirmation == slug && !active && !fate.command)
      && (error == Some(SaveFailed) <==>
            slug != "" && confirmation == slug && !active && fate.command && !fate.save)
      && (error == Some(NotConfirmed) || error == Some(CommandFailed) || active ==> t == s)
      && (error == None && !active ==>
            slug in t.exposed && slug in t.entries && t.entries[slug] == entry && t.saved == t.entries)
      && (error == Some(SaveFailed) ==>
            slug !in t.entries && t.saved == s.saved && (slug in t.exposed <==> !fate.undo))
  {
  }

  /** When Disable succeeds and when it fails, and what the share is afterwards. */
  lemma DisableDecides(s: State, slug: Slug, fate: Fate)
    ensures var (t, error) := AfterDisable(s, slug, fate);
      && OnlyTouches(s, t, slug)
      && (error == Some(CommandFailed) <==> slug in s.entries && !fate.command)
      && (error == Some(SaveFailed) <==> slug in s.entries && fate.command && !fate.save)
      && (error != Some(NotConfirmed))
      && (slug !in s.entries || error == Some(CommandFailed) ==> t == s)
      && (error == None && slug in s.entries ==>
            slug !in t.exposed && slug !in t.entries && t.saved == t.entries)
      && (error == Some(SaveFailed) ==>
            t.entries == s.entries && t.saved == s.saved && (slug in t.exposed <==> fate.undo))
  {
  }

  /** An Expire takes down the shares in order until one fails: what it did and where it stopped. */
  lemma {:induction false} ExpireExactly(s: State, order: seq<Slug>, commands: set<Slug>, saves: set<Slug>)
      returns (done: nat)
    requires forall i, j | 0 <= i < j < |order| :: order[i] != order[j]
    ensures done <= |order|
    ensures var (t, error) := AfterExpire(s, order, commands, saves);
      && t.entries == s.entries - Members(order[..done])
      && t.exposed == s.exposed - Members(order[..done])
      && match error
         case None => done == |order| && forall i | 0 <= i < done :: order[i] in commands && order[i] in saves
         case Some(CommandFailed) => done < |order| && order[done] !in commands
         case Some(SaveFailed) => 0 < done && order[done - 1] in commands && order[done - 1] !in saves
         case Some(NotConfirmed) => false
    decreases |order|
  {
    done := 0;
    if order != [] && order[0] in commands {
      var entries := s.entries - {order[0]};
      if order[0] !in saves {
        done := 1;
        assert order[..1] == [order[0]];
      } else {
        var s' := State(entries, entries, s.exposed - {order[0]});
        var more := ExpireExactly(s', order[1..], commands, saves);
        done := more + 1;
        assert order[..done] == [order[0]] + order[1..][..more];
        assert Members(order[..done]) == {order[0]} + Members(order[1..][..more]);
      }
    }
  }

  function Members(slugs: seq<Slug>): set<Slug> {
    set slug | slug in slugs
  }

  /** The leak does happen: a first share whose save and undo both fail. */
  lemma AFailedUndoLeaks()
    ensures var none := State(map[], map[], {});
      && Exact(none)
      && Next(none, Enable("a", "a", 0, Entry(0, 1), Fate(true, false, false))) == none.(exposed := {"a"})
  {
    assert (map["a" := Entry(0, 1)] - {"a"}) == map[];
  }

  /** After Expire succeeds nothing that had run out at its clock reading is left or public. */
  lemma ExpireLeavesNothingExpired(s: State, now: int, order: seq<Slug>, commands: set<Slug>, saves: set<Slug>)
    requires Safe(s) && Lists(order, ExpiredAt(s.entries, now))
    requires AfterExpire(s, order, commands, saves).1.None?
    ensures var t := AfterExpire(s, order, commands, saves).0;
      && ExpiredAt(t.entries, now) == {}
      && (forall slug | slug in t.entries :: now < t.entries[slug].expiresAt)
      && (forall slug | slug in s.entries && now < s.entries[slug].expiresAt ::
            slug in t.entries && t.entries[slug] == s.entries[slug])
      && t.entries == s.entries - ExpiredAt(s.entries, now)
      && (forall slug | slug in t.exposed :: ActiveAt(t, slug, now))
  {
    ExpireEffect(s, order, commands, saves);
  }

  /** A share becomes public only through a confirmation typed for it, or by putting back a failed removal. */
  lemma ExposureNeedsConfirmation(s: State, call: Call, slug: Slug)
    requires slug in Next(s, call).exposed && slug !in s.exposed
    ensures (call.Enable? && call.slug == slug == call.confirmation && slug != "")
         || (call.Disable? && call.slug == slug && slug in s.entries)
  {
    if call.Expire? {
      ExposureShrinks(s, call.order, call.commands, call.saves);
    }
  }
}
