/** Routing: the first path segment selects an app, the rest is what the app sees. */
module Router {
  import opened Text
  import S = Slug
  import Scanner

  type Handler = nat

  datatype Mount = Mount(slug: string, handler: Option<Handler>, visibility: string)

  datatype Response =
    | NotFound
    | Denied(visibility: string)
    | Redirect(target: string)
    | Served(handler: Handler, path: string)

  /** The table a snapshot of mounts makes: a later mount of the same slug wins. */
  function Table(mounts: seq<Mount>): map<string, Mount> {
    if mounts == [] then map[]
    else
      var last := mounts[|mounts| - 1];
      var before := Table(mounts[..|mounts| - 1]);
      if last.handler.None? then before else before[last.slug := last]
  }

  /** Where the first slash is, or the length. */
  function SlashAt(s: string): (n: nat)
    ensures n <= |s| && (n < |s| ==> s[n] == '/') && forall i | 0 <= i < n :: s[i] != '/'
  {
    if s == "" || s[0] == '/' then 0 else 1 + SlashAt(s[1..])
  }

  function Unslashed(path: string): string {
    if HasPrefix(path, "/") then path[1..] else path
  }

  function Dispatch(table: map<string, Mount>, path: string, query: string, allows: string -> bool): Response {
    var trimmed := Unslashed(path);
    var cut := SlashAt(trimmed);
    var slug := trimmed[..cut];
    if slug !in table || slug == "" then NotFound
    else if !allows(table[slug].visibility) then Denied(table[slug].visibility)
    else if cut == |trimmed| then Redirect("/" + slug + "/" + if query != "" then "?" + query else "")
    else if table[slug].handler.Some? then Served(table[slug].handler.value, "/" + trimmed[cut + 1..])
    else NotFound
  }

  class Router {
    var table: map<string, Mount>

    constructor (mounts: seq<Mount>)
      ensures table == Table(mounts)
    {
      table := map[];
      new;
      Swap(mounts);
    }

    /** Builds the new table aside and stores it at once. */
    method Swap(mounts: seq<Mount>)
      modifies this`table
      ensures table == Table(mounts)
    {
      var next: map<string, Mount> := map[];
      for i := 0 to |mounts|
        invariant next == Table(mounts[..i])
      {
        assert mounts[..i + 1][..i] == mounts[..i];
        if mounts[i].handler.Some? {
          next := next[mounts[i].slug := mounts[i]];
        }
      }
      assert mounts[..|mounts|] == mounts;
      table := next;
    }

    method Serve(path: string, query: string, allows: string -> bool) returns (response: Response)
      ensures response == Dispatch(table, path, query, allows)
    {
      var trimmed := path;
      if HasPrefix(path, "/") {
        trimmed := path[1..];
      }
      var cut := SlashAt(trimmed);
      var slug := trimmed[..cut];
      if slug !in table || slug == "" {
        return NotFound;
      }
      var mount := table[slug];
      if !allows(mount.visibility) {
        return Denied(mount.visibility);
      }
      if cut == |trimmed| {
        var target := "/" + slug + "/";
        if query != "" {
          target := target + "?" + query;
        }
        return Redirect(target);
      }
      match mount.handler {
        case Some(handler) => return Served(handler, "/" + trimmed[cut + 1..]);
        case None => return NotFound;
      }
    }
  }

  /** The mount that answers for a slug is the last one with a handler. */
  lemma {:induction false} TableHasLastMount(mounts: seq<Mount>, i: nat)
    requires i < |mounts| && mounts[i].handler.Some?
    requires forall j | i < j < |mounts| :: mounts[j].slug != mounts[i].slug || mounts[j].handler.None?
    ensures mounts[i].slug in Table(mounts) && Table(mounts)[mounts[i].slug] == mounts[i]
    decreases |mounts|
  {
    if i < |mounts| - 1 {
      TableHasLastMount(mounts[..|mounts| - 1], i);
    }
  }

  lemma {:induction false} TableHasHandlers(mounts: seq<Mount>)
    ensures forall slug | slug in Table(mounts) :: Table(mounts)[slug].handler.Some? && Table(mounts)[slug].slug == slug
  {
    if mounts != [] {
      TableHasHandlers(mounts[..|mounts| - 1]);
    }
  }

  lemma {:induction false} SlashAfter(slug: string, rest: string)
    requires forall i | 0 <= i < |slug| :: slug[i] != '/'
    ensures SlashAt(slug + "/" + rest) == |slug|
    ensures (slug + "/" + rest)[..|slug|] == slug && (slug + "/" + rest)[|slug| + 1..] == rest
  {
    var s := slug + "/" + rest;
    if slug != "" {
      SlashAfter(slug[1..], rest);
      assert s[0] == slug[0] && s[1..] == slug[1..] + "/" + rest;
    }
  }

  /** A mounted app that no later mount hides gets every path below its slug, without the slug. */
  lemma MountedAppIsReached(mounts: seq<Mount>, i: nat, rest: string, query: string, allows: string -> bool)
    requires i < |mounts| && mounts[i].handler.Some? && allows(mounts[i].visibility)
    requires mounts[i].slug != "" && forall k | 0 <= k < |mounts[i].slug| :: mounts[i].slug[k] != '/'
    requires forall j | i < j < |mounts| :: mounts[j].slug != mounts[i].slug || mounts[j].handler.None?
    ensures Dispatch(Table(mounts), "/" + mounts[i].slug + "/" + rest, query, allows)
         == Served(mounts[i].handler.value, "/" + rest)
  {
    var slug := mounts[i].slug;
    var path := "/" + slug + "/" + rest;
    assert path[1..] == slug + "/" + rest;
    SlashAfter(slug, rest);
    TableHasLastMount(mounts, i);
  }

  /** A handler is reached only below its own slug, and only if its visibility allows it. */
  lemma OnlyItsOwnPathsReachAnApp(mounts: seq<Mount>, path: string, query: string, allows: string -> bool)
    ensures var response := Dispatch(Table(mounts), path, query, allows);
            response.Served? ==>
              exists i | 0 <= i < |mounts| ::
                && mounts[i].handler == Some(response.handler) && allows(mounts[i].visibility)
                && (path == "/" + mounts[i].slug + response.path || path == mounts[i].slug + response.path)
  {
    var response := Dispatch(Table(mounts), path, query, allows);
    if response.Served? {
      var slug := ServedUnder(Table(mounts), path, query, allows);
      var _ := MountOf(mounts, slug);
      assert "/" + (slug + response.path) == "/" + slug + response.path;
    }
  }

  lemma ServedUnder(table: map<string, Mount>, path: string, query: string, allows: string -> bool)
    returns (slug: string)
    requires Dispatch(table, path, query, allows).Served?
    ensures var response := Dispatch(table, path, query, allows);
            && slug in table && allows(table[slug].visibility) && table[slug].handler == Some(response.handler)
            && (path == slug + response.path || path == "/" + (slug + response.path))
  {
    var trimmed := Unslashed(path);
    slug := trimmed[..SlashAt(trimmed)];
    CutAgain(trimmed, SlashAt(trimmed));
    assert path == trimmed || path == "/" + trimmed;
  }

  lemma CutAgain(s: string, cut: nat)
    requires cut < |s| && s[cut] == '/'
    ensures s == s[..cut] + ("/" + s[cut + 1..])
  {
  }

  lemma {:induction false} MountOf(mounts: seq<Mount>, slug: string) returns (i: nat)
    requires slug in Table(mounts)
    ensures i < |mounts| && mounts[i] == Table(mounts)[slug] && mounts[i].slug == slug
    decreases |mounts|
  {
    var last := |mounts| - 1;
    if mounts[last].handler.Some? && mounts[last].slug == slug {
      i := last;
    } else {
      i := MountOf(mounts[..last], slug);
    }
  }

  /** The slugs a scan hands out are single, non-empty path segments. */
  lemma NumberedSlugsAreSegments(base: string, use: nat)
    requires S.IsSlug(base)
    ensures var slug := Scanner.Numbered(base, use);
            slug != "" && forall k | 0 <= k < |slug| :: slug[k] != '/'
  {
    if use > 1 {
      Scanner.LastHyphen(base, use);
      var digits := Scanner.Decimal(use);
      assert Scanner.Numbered(base, use) == base + "-" + digits;
    }
  }

  /** When no base slug looks numbered, every visible app of the scan is reached under its slug. */
  lemma EveryScannedAppIsReached(bases: seq<string>, mounts: seq<Mount>, i: nat, rest: string, query: string,
                                 allows: string -> bool)
    requires forall k | 0 <= k < |bases| :: S.IsSlug(bases[k]) && !Scanner.LooksNumbered(bases[k])
    requires |mounts| == |bases| && forall k | 0 <= k < |bases| ::
               mounts[k].slug == Scanner.SlugAt(bases, k) && mounts[k].handler.Some?
    requires i < |bases| && allows(mounts[i].visibility)
    ensures Dispatch(Table(mounts), "/" + mounts[i].slug + "/" + rest, query, allows)
         == Served(mounts[i].handler.value, "/" + rest)
  {
    NumberedSlugsAreSegments(bases[i], Scanner.Use(bases, i));
    Scanner.SlugsAreDistinct(bases);
    MountedAppIsReached(mounts, i, rest, query, allows);
  }

  /** An app that a later one shadows is reached under no path at all. */
  lemma ShadowedAppIsLost(mounts: seq<Mount>, i: nat, j: nat, path: string, query: string, allows: string -> bool)
    requires i < j < |mounts| && mounts[i].slug == mounts[j].slug && mounts[j].handler.Some?
    requires mounts[i].handler.Some?
    requires forall k | 0 <= k < |mounts| && k != i :: mounts[k].handler != mounts[i].handler
    ensures var response := Dispatch(Table(mounts), path, query, allows);
            response.Served? ==> response.handler != mounts[i].handler.value
  {
    TableHasHandlers(mounts);
    LaterMountWins(mounts, i, j);
    var response := Dispatch(Table(mounts), path, query, allows);
    if response.Served? {
      var trimmed := Unslashed(path);
      var _ := MountOf(mounts, trimmed[..SlashAt(trimmed)]);
    }
  }

  lemma {:induction false} LaterMountWins(mounts: seq<Mount>, i: nat, j: nat)
    requires i < j < |mounts| && mounts[i].slug == mounts[j].slug && mounts[j].handler.Some?
    requires forall k | 0 <= k < |mounts| && k != i :: mounts[k].handler != mounts[i].handler
    requires mounts[i].handler.Some?
    ensures mounts[i].slug in Table(mounts) && Table(mounts)[mounts[i].slug].handler != mounts[i].handler
    decreases |mounts|
  {
    if j < |mounts| - 1 {
      LaterMountWins(mounts[..|mounts| - 1], i, j);
    }
  }

  /** A request below a mounted slug from where the app is not visible is denied. */
  lemma HiddenAppIsDenied(mounts: seq<Mount>, i: nat, rest: string, query: string, allows: string -> bool)
    requires i < |mounts| && mounts[i].handler.Some? && !allows(mounts[i].visibility)
    requires mounts[i].slug != "" && forall k | 0 <= k < |mounts[i].slug| :: mounts[i].slug[k] != '/'
    requires forall j | i < j < |mounts| :: mounts[j].slug != mounts[i].slug || mounts[j].handler.None?
    ensures Dispatch(Table(mounts), "/" + mounts[i].slug + "/" + rest, query, allows) == Denied(mounts[i].visibility)
  {
    var slug := mounts[i].slug;
    assert ("/" + slug + "/" + rest)[1..] == slug + "/" + rest;
    SlashAfter(slug, rest);
    TableHasLastMount(mounts, i);
  }

  /** The bare slug of a visible app redirects to its path with a slash, query included. */
  lemma BareSlugRedirects(mounts: seq<Mount>, i: nat, query: string, allows: string -> bool)
    requires i < |mounts| && mounts[i].handler.Some?
    requires mounts[i].slug != "" && forall k | 0 <= k < |mounts[i].slug| :: mounts[i].slug[k] != '/'
    requires forall j | i < j < |mounts| :: mounts[j].slug != mounts[i].slug || mounts[j].handler.None?
    ensures Dispatch(Table(mounts), "/" + mounts[i].slug, query, allows)
         == if !allows(mounts[i].visibility) then Denied(mounts[i].visibility)
            else Redirect(if query == "" then "/" + mounts[i].slug + "/" else "/" + mounts[i].slug + "/?" + query)
  {
    var slug := mounts[i].slug;
    BarePath(slug);
    assert slug[..|slug|] == slug;
    TableHasLastMount(mounts, i);
    TargetText(slug, query);
  }

  lemma TargetText(slug: string, query: string)
    ensures "/" + slug + "/" + "" == "/" + slug + "/"
    ensures "/" + slug + "/" + ("?" + query) == "/" + slug + "/?" + query
  {
    assert "/" + slug + "/?" == "/" + slug + "/" + "?";
  }

  lemma {:induction false} NoSlash(s: string)
    requires forall i | 0 <= i < |s| :: s[i] != '/'
    ensures SlashAt(s) == |s| && s[..|s|] == s
  {
    if s != "" {
      NoSlash(s[1..]);
    }
  }

  lemma PathBelow(slug: string, rest: string)
    requires forall k | 0 <= k < |slug| :: slug[k] != '/'
    ensures var trimmed := Unslashed("/" + slug + "/" + rest);
            trimmed[..SlashAt(trimmed)] == slug && SlashAt(trimmed) < |trimmed|
  {
    assert ("/" + slug + "/" + rest)[1..] == slug + "/" + rest;
    SlashAfter(slug, rest);
  }

  lemma BarePath(slug: string)
    requires forall k | 0 <= k < |slug| :: slug[k] != '/'
    ensures var trimmed := Unslashed("/" + slug); trimmed == slug && SlashAt(trimmed) == |trimmed|
  {
    assert ("/" + slug)[1..] == slug;
    NoSlash(slug);
  }

  /** A slug that no mount with a handler has is not found, nor is the empty one. */
  lemma UnmountedIsNotFound(mounts: seq<Mount>, slug: string, rest: string, query: string, allows: string -> bool)
    requires forall k | 0 <= k < |slug| :: slug[k] != '/'
    requires slug == "" || forall i | 0 <= i < |mounts| :: mounts[i].slug != slug || mounts[i].handler.None?
    ensures Dispatch(Table(mounts), "/" + slug, query, allows) == NotFound
    ensures Dispatch(Table(mounts), "/" + slug + "/" + rest, query, allows) == NotFound
  {
    PathBelow(slug, rest);
    BarePath(slug);
    assert slug[..|slug|] == slug;
    if slug != "" {
      NotInTable(mounts, slug);
    }
  }

  lemma {:induction false} NotInTable(mounts: seq<Mount>, slug: string)
    requires forall i | 0 <= i < |mounts| :: mounts[i].slug != slug || mounts[i].handler.None?
    ensures slug !in Table(mounts)
  {
    if mounts != [] {
      NotInTable(mounts[..|mounts| - 1], slug);
    }
  }
}
