/** Stable app ports: each registry's own assignments, and the reservations all registries of the
    process share. */
module Ports {

  type Slug = string

  const FIRST_APP_PORT: int := 7400
  const LAST_APP_PORT: int := 7999

  ghost predicate Injective(ports: map<Slug, int>) {
    forall s, t | s in ports && t in ports && s != t :: ports[s] != ports[t]
  }

  /** The ports that slugs other than `slug` have. */
  function Used(ports: map<Slug, int>, slug: Slug): set<int> {
    set s | s in ports && s != slug :: ports[s]
  }

  lemma UnusedStaysInjective(ports: map<Slug, int>, slug: Slug, port: int)
    requires port !in Used(ports, slug)
    ensures Injective(ports) ==> Injective(ports[slug := port])
  {
  }

  /** Two slugs of the file have one usable port inside the range. */
  ghost predicate Duplicated(saved: map<Slug, int>, first: int, last: int) {
    exists s, t :: SharePort(saved, first, last, s, t)
  }

  predicate SharePort(saved: map<Slug, int>, first: int, last: int, s: Slug, t: Slug) {
    s != t && s in saved && t in saved && saved[s] == saved[t] != 0 && first <= saved[s] <= last
  }

  /** Only slugs that are not held, at the unusable port 0, may have a port in common. */
  ghost predicate Separate(ports: map<Slug, int>, held: set<Slug>) {
    forall s, t | s in ports && t in ports && s != t && ports[s] == ports[t] ::
      ports[s] == 0 && s !in held && t !in held
  }

  lemma UnusedStaysSeparate(ports: map<Slug, int>, held: set<Slug>, slug: Slug, port: int)
    requires port !in Used(ports, slug)
    ensures Separate(ports, held) ==>
              Separate(ports[slug := port], held + {slug}) && Separate(ports[slug := port], held - {slug})
  {
  }

  /** A port that `slug` cannot have: another slug's, another registry's, or in use on the machine. */
  ghost predicate Blocked(ports: map<Slug, int>, owners: map<int, Registry>, self: Registry, slug: Slug,
                          port: int, free: set<int>) {
    || (exists s :: s in ports && s != slug && ports[s] == port)
    || (port in owners && owners[port] != self)
    || port !in free
  }

  /** The port the file gives `slug`, as long as nobody else reserved it and the machine has it free. */
  ghost predicate Keeps(ports: map<Slug, int>, owners: map<int, Registry>, self: Registry, slug: Slug, free: bool) {
    && slug in ports && ports[slug] != 0 && free
    && (ports[slug] in owners ==> owners[ports[slug]] == self)
  }

  /** The process-wide reservation table. */
  class Table {
    var owners: map<int, Registry>

    constructor ()
      ensures owners == map[]
    {
      owners := map[];
    }
  }

  class Registry {
    const table: Table
    var ports: map<Slug, int>
    var first: int
    var last: int
    /** The slugs whose latest `Assign` succeeded since the last `Release`. */
    ghost var held: set<Slug>

    /** A held slug has its port here and owns it in the shared table. */
    ghost predicate Holds()
      reads this, table
    {
      forall s | s in held ::
        s in ports && ports[s] in table.owners && table.owners[ports[s]] == this
    }

    /** Loads what was saved, dropping ports outside the range. */
    constructor (table: Table, saved: map<Slug, int>, first: int, last: int)
      ensures this.table == table && held == {} && Holds()
      ensures this.first == (if first == 0 then FIRST_APP_PORT else first)
      ensures this.last == (if last == 0 then LAST_APP_PORT else last)
      ensures forall s :: s in ports <==> s in saved && this.first <= saved[s] <= this.last
      ensures forall s | s in ports :: ports[s] == saved[s]
      ensures Injective(saved) ==> Injective(ports)
      ensures Separate(ports, held) <==> !Duplicated(saved, this.first, this.last)
    {
      this.table := table;
      var low := if first == 0 then FIRST_APP_PORT else first;
      var high := if last == 0 then LAST_APP_PORT else last;
      this.first, this.last, held := low, high, {};
      ports := map s | s in saved && low <= saved[s] <= high :: saved[s];
      new;
      LoadedIsSeparate(saved, low, high, ports);
    }

    method SetRange(first: int, last: int) returns (previousFirst: int, previousLast: int)
      modifies this`first, this`last
      ensures previousFirst == old(this.first) && previousLast == old(this.last)
      ensures if first > 0 && last >= first then this.first == first && this.last == last
              else this.first == previousFirst && this.last == previousLast
    {
      previousFirst, previousLast := this.first, this.last;
      if first > 0 && last >= first {
        this.first, this.last := first, last;
      }
    }

    predicate CanClaim(port: int, free: bool)
      reads this, table
    {
      (port !in table.owners || table.owners[port] == this) && free
    }

    /** What the table may look like after one call: other registries' reservations stand. */
    twostate predicate OthersKeepTheirs()
      reads this, table
    {
      forall p | p in old(table.owners) && old(table.owners[p]) != this ::
        p in table.owners && table.owners[p] == old(table.owners[p])
    }

    /** `persistedFree` and `free` are the operating system's answers to the probes of the saved
        port and of the ports in range; `saves` says whether the file can be written. */
    method Assign(slug: Slug, persistedFree: bool, free: set<int>, saves: bool) returns (port: int, ok: bool)
      requires Holds()
      modifies this`ports, this`held, table
      ensures Holds() && OthersKeepTheirs()
      ensures held == if ok then old(held) + {slug} else old(held) - {slug}
      ensures forall s | s != slug :: (s in ports <==> s in old(ports))
                                      && (s in ports ==> ports[s] == old(ports[s]))
      ensures old(Injective(ports)) ==> Injective(ports)
      ensures old(Separate(ports, held)) ==> Separate(ports, held)
      ensures old(slug in ports && ports[slug] != 0 && CanClaim(ports[slug], persistedFree)) ==>
                ok && port == old(ports[slug])
      ensures ok && !old(slug in ports && ports[slug] != 0 && CanClaim(ports[slug], persistedFree)) ==>
                && first <= port <= last && saves && old(Candidate(slug, port, free))
                && forall p | first <= p < port :: !old(Candidate(slug, p, free))
      ensures !ok ==> !saves || forall p | first <= p <= last :: !old(Candidate(slug, p, free))
      ensures ok ==> slug in ports && ports[slug] == port && table.owners[port] == this
      ensures old(Keeps(ports, table.owners, this, slug, persistedFree)) ==> ok && port == old(ports[slug])
      ensures ok && !old(Keeps(ports, table.owners, this, slug, persistedFree)) ==>
                && first <= port <= last && saves && port in free
                && !old(Blocked(ports, table.owners, this, slug, port, free))
                && forall p | first <= p < port :: old(Blocked(ports, table.owners, this, slug, p, free))
      ensures !ok && saves ==> forall p | first <= p <= last :: old(Blocked(ports, table.owners, this, slug, p, free))
      ensures forall r: Registry | old(allocated(r)) && r != this && r.table == table && old(r.Holds()) :: r.Holds()
    {
      if slug in ports && ports[slug] != 0 && CanClaim(ports[slug], persistedFree) {
        port := ports[slug];
        table.owners := table.owners[port := this];
        held := held + {slug};
        return port, true;
      }
      forall p ensures Candidate(slug, p, free) <==> !Blocked(ports, table.owners, this, slug, p, free) {
        CandidatesAreNotBlocked(slug, p, free);
      }
      var used := Used(ports, slug);
      port := first;
      while port <= last
        invariant first <= port && (port <= last + 1 || port == first)
        invariant forall p | first <= p < port :: !old(Candidate(slug, p, free))
        invariant ports == old(ports) && held == old(held) && table.owners == old(table.owners)
        decreases last - port
      {
        if port !in used && CanClaim(port, port in free) {
          UnusedStaysInjective(ports, slug, port);
          UnusedStaysSeparate(ports, held, slug, port);
          Claim(slug, port, saves);
          return if saves then port else 0, saves;
        }
        port := port + 1;
      }
      held := held - {slug};
      return 0, false;
    }

    /** Takes the port that the search found, and gives its reservation back if the save fails. */
    method Claim(slug: Slug, port: int, saves: bool)
      requires Holds() && port !in Used(ports, slug) && CanClaim(port, true)
      modifies this`ports, this`held, table
      ensures Holds() && OthersKeepTheirs() && ports == old(ports)[slug := port]
      ensures held == if saves then old(held) + {slug} else old(held) - {slug}
      ensures saves ==> table.owners[port] == this
      ensures forall r: Registry | old(allocated(r)) && r != this && r.table == table && old(r.Holds()) :: r.Holds()
    {
      ports := ports[slug := port];
      table.owners := table.owners[port := this];
      if !saves {
        table.owners := table.owners - {port};
        held := held - {slug};
        return;
      }
      held := held + {slug};
    }

    /** A port the search for `slug` may take. */
    predicate Candidate(slug: Slug, port: int, free: set<int>)
      reads this, table
    {
      port !in Used(ports, slug) && CanClaim(port, port in free)
    }

    lemma CandidatesAreNotBlocked(slug: Slug, port: int, free: set<int>)
      ensures Candidate(slug, port, free) <==> !Blocked(ports, table.owners, this, slug, port, free)
    {
    }

    method Release()
      modifies this`held, table
      ensures Holds() && held == {} && OthersKeepTheirs()
      ensures old(Separate(ports, held)) ==> Separate(ports, held)
      ensures forall p :: p in table.owners <==> p in old(table.owners) && old(table.owners[p]) != this
      ensures forall r: Registry | old(allocated(r)) && r != this && r.table == table && old(r.Holds()) :: r.Holds()
    {
      table.owners := map p | p in table.owners && table.owners[p] != this :: table.owners[p];
      held := {};
    }
  }

  lemma LoadedIsSeparate(saved: map<Slug, int>, first: int, last: int, ports: map<Slug, int>)
    requires forall s :: s in ports <==> s in saved && first <= saved[s] <= last
    requires forall s | s in ports :: ports[s] == saved[s]
    ensures Separate(ports, {}) <==> !Duplicated(saved, first, last)
  {
    forall s, t ensures SharePort(saved, first, last, s, t) <==>
                        s in ports && t in ports && s != t && ports[s] == ports[t] != 0
    {
    }
  }

  /** No port is held twice, in one registry or in two. */
  lemma HeldPortsAreDistinct(r: Registry, q: Registry, s: Slug, t: Slug)
    requires r.table == q.table && r.Holds() && q.Holds() && Separate(r.ports, r.held)
    requires s in r.held && t in q.held && (r != q || s != t)
    ensures r.ports[s] != q.ports[t]
  {
  }

  /** While the saved ports are free, two slugs of a new registry are granted one port if and only
      if the file gives them one that is usable and inside the range. */
  method DuplicatesInTheFileAreShared(saved: map<Slug, int>, first: int, last: int, a: Slug, b: Slug,
                                      free: set<int>, saves: bool)
    returns (shared: bool, portOfA: int, portOfB: int)
    requires a != b
    ensures var low := if first == 0 then FIRST_APP_PORT else first;
            var high := if last == 0 then LAST_APP_PORT else last;
            shared <==> SharePort(saved, low, high, a, b)
    ensures shared ==> portOfA == portOfB == saved[a]
  {
    var table := new Table();
    var registry := new Registry(table, saved, first, last);
    var grantedA, grantedB;
    portOfA, grantedA := registry.Assign(a, true, free, saves);
    portOfB, grantedB := registry.Assign(b, true, free, saves);
    shared := grantedA && grantedB && portOfA == portOfB;
  }
}
