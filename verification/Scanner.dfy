/** Discovery: which entries become apps, and how apps with one base slug are numbered. */
module Scanner {
  import opened Text
  import S = Slug

  // ---- Numbering ------------------------------------------------------------------------------

  function Digit(d: nat): char
    requires d < 10
  {
    "0123456789"[d]
  }

  function Decimal(n: nat): (s: string)
    ensures s != "" && forall i | 0 <= i < |s| :: '0' <= s[i] <= '9'
  {
    if n < 10 then [Digit(n)] else Decimal(n / 10) + [Digit(n % 10)]
  }

  lemma {:induction false} DecimalIsInjective(m: nat, n: nat)
    requires Decimal(m) == Decimal(n)
    ensures m == n
  {
    LastDigit(m);
    LastDigit(n);
    DigitIsInjective(m % 10, n % 10);
    if m >= 10 && n >= 10 {
      DecimalIsInjective(m / 10, n / 10);
    }
  }

  lemma LastDigit(n: nat)
    ensures var s := Decimal(n);
            && s[|s| - 1] == Digit(n % 10)
            && (n >= 10 ==> |s| > 1 && s[..|s| - 1] == Decimal(n / 10))
            && (n < 10 ==> |s| == 1)
  {
  }

  lemma DigitIsInjective(m: nat, n: nat)
    requires m < 10 && n < 10 && Digit(m) == Digit(n)
    ensures m == n
  {
  }

  function Value(digits: string): int {
    if digits == "" then 0
    else 10 * Value(digits[..|digits| - 1]) + (digits[|digits| - 1] as int - '0' as int)
  }

  lemma DigitValue(d: nat)
    requires d < 10
    ensures Digit(d) as int == '0' as int + d
  {
    assert "0123456789"[d] as int == '0' as int + d;
  }

  /** The digits, read as usual, give the number back. */
  lemma {:induction false} DecimalReads(n: nat)
    ensures Value(Decimal(n)) == n
  {
    DigitValue(n % 10);
    LastDigit(n);
    if n >= 10 {
      DecimalReads(n / 10);
    } else {
      assert Decimal(n)[..0] == "";
    }
  }

  function Numbered(base: string, use: nat): string {
    if use > 1 then base + "-" + Decimal(use) else base
  }

  lemma LastHyphen(base: string, use: nat)
    requires use > 1
    ensures var s := Numbered(base, use);
            && |s| > |base| + 1 && s[..|base|] == base && s[|base| + 1..] == Decimal(use)
            && s[|base|] == '-' && forall k | |base| < k < |s| :: s[k] != '-'
  {
  }

  /** The last hyphen of a numbered slug separates base and number. */
  lemma NumberedIsInjective(a: string, m: nat, b: string, n: nat)
    requires m > 1 && n > 1 && Numbered(a, m) == Numbered(b, n)
    ensures a == b && m == n
  {
    LastHyphen(a, m);
    LastHyphen(b, n);
    DecimalIsInjective(m, n);
  }

  function Count(bases: seq<string>, base: string): nat {
    if bases == [] then 0
    else Count(bases[..|bases| - 1], base) + if bases[|bases| - 1] == base then 1 else 0
  }

  /** The number of the i-th app among those with its base. */
  function Use(bases: seq<string>, i: nat): nat
    requires i < |bases|
  {
    Count(bases[..i + 1], bases[i])
  }

  function SlugAt(bases: seq<string>, i: nat): string
    requires i < |bases|
  {
    Numbered(bases[i], Use(bases, i))
  }

  lemma {:induction false} CountGrows(bases: seq<string>, base: string, i: nat, j: nat)
    requires i <= j <= |bases|
    ensures Count(bases[..i], base) <= Count(bases[..j], base)
    decreases j
  {
    if i < j {
      assert bases[..j][..j - 1] == bases[..j - 1];
      CountGrows(bases, base, i, j - 1);
    }
  }

  lemma UsesDiffer(bases: seq<string>, i: nat, j: nat)
    requires i < j < |bases| && bases[i] == bases[j]
    ensures 1 <= Use(bases, i) < Use(bases, j)
  {
    assert bases[..j + 1][..j] == bases[..j] && bases[..i + 1][..i] == bases[..i];
    CountGrows(bases, bases[i], i + 1, j);
  }

  lemma UseIsPositive(bases: seq<string>, i: nat)
    requires i < |bases|
    ensures Use(bases, i) >= 1
  {
    assert bases[..i + 1][..i] == bases[..i];
  }

  /** The plain base of app i is the base of app j, a hyphen, and the number of app j. */
  ghost predicate Shadows(bases: seq<string>, i: nat, j: nat)
    requires i < |bases| && j < |bases|
  {
    Use(bases, i) == 1 && Use(bases, j) >= 2 && bases[i] == bases[j] + "-" + Decimal(Use(bases, j))
  }

  /** Exactly when two apps of one scan get the same slug. */
  lemma SlugsCollideExactly(bases: seq<string>, i: nat, j: nat)
    requires i < |bases| && j < |bases| && i != j
    ensures SlugAt(bases, i) == SlugAt(bases, j) <==> Shadows(bases, i, j) || Shadows(bases, j, i)
  {
    UseIsPositive(bases, i);
    UseIsPositive(bases, j);
    if bases[i] == bases[j] {
      UsesDiffer(bases, if i < j then i else j, if i < j then j else i);
    }
    if SlugAt(bases, i) == SlugAt(bases, j) && Use(bases, i) > 1 && Use(bases, j) > 1 {
      NumberedIsInjective(bases[i], Use(bases, i), bases[j], Use(bases, j));
    }
  }

  /** A base that could be mistaken for a numbered slug. */
  ghost predicate LooksNumbered(base: string) {
    exists prefix, n: nat :: n >= 2 && base == prefix + "-" + Decimal(n)
  }

  lemma SlugsAreDistinct(bases: seq<string>)
    requires forall i | 0 <= i < |bases| :: !LooksNumbered(bases[i])
    ensures forall i, j | 0 <= i < j < |bases| :: SlugAt(bases, i) != SlugAt(bases, j)
  {
    forall i: nat, j: nat | i < j < |bases| ensures SlugAt(bases, i) != SlugAt(bases, j) {
      SlugsCollideExactly(bases, i, j);
    }
  }

  /** Folders `notes`, `notes` and `notes-2` show that slugs can collide. */
  lemma NotesCollide()
    ensures var bases := ["notes", "notes", "notes-2"];
            SlugAt(bases, 1) == SlugAt(bases, 2) == "notes-2"
  {
    var bases := ["notes", "notes", "notes-2"];
    CountSnoc([], "notes", "notes");
    CountSnoc(["notes"], "notes", "notes");
    CountSnoc([], "notes", "notes-2");
    CountSnoc(["notes"], "notes", "notes-2");
    CountSnoc(["notes", "notes"], "notes-2", "notes-2");
    assert [] + ["notes"] == bases[..1] && ["notes"] + ["notes"] == bases[..2] == ["notes", "notes"];
    assert ["notes", "notes"] + ["notes-2"] == bases[..3];
    assert Decimal(2) == "2" && "notes" + "-" + "2" == "notes-2";
  }

  lemma CountSnoc(bases: seq<string>, last: string, base: string)
    ensures Count(bases + [last], base) == Count(bases, base) + if last == base then 1 else 0
  {
    assert (bases + [last])[..|bases|] == bases;
  }

  // ---- The collector --------------------------------------------------------------------------

  const RESERVED_SLUGS: set<string> := {"_dropserve", "api", "health", ".well-known"}

  const IGNORED_NAMES: set<string> :=
    {"node_modules", "venv", ".venv", "__pycache__", "vendor", ".git", "dist"}

  datatype Code = ReservedSlug | UnsafeName | InvalidSlug | SlugCollision

  datatype Entry = Entry(path: string, name: string, isDir: bool)

  datatype App = App(path: string, name: string, slug: string)

  datatype Warning = Warning(code: Code, path: string)

  predicate Reserved(name: string) {
    Lower(S.Stem(name)) in RESERVED_SLUGS
  }

  predicate Ignored(name: string) {
    HasPrefix(name, ".") || HasPrefix(name, "_") || Lower(name) in IGNORED_NAMES
  }

  predicate LooseHTML(entry: Entry) {
    !entry.isDir
    && (S.EqualFold(S.Extension(entry.name), ".html") || S.EqualFold(S.Extension(entry.name), ".htm"))
  }

  /** Which entries become apps. */
  predicate Admitted(entry: Entry) {
    && !Reserved(entry.name) && !S.Unsafe(entry.name) && !Ignored(entry.name)
    && (entry.isDir || LooseHTML(entry))
    && S.Slug(entry.name) != "" && S.Slug(entry.name) !in RESERVED_SLUGS
  }

  /** The warning an entry earns when `uses` apps have its base slug already. */
  function WarningsFor(entry: Entry, seen: bool, uses: nat): seq<Warning> {
    if seen then []
    else if Reserved(entry.name) then [Warning(ReservedSlug, entry.path)]
    else if S.Unsafe(entry.name) then [Warning(UnsafeName, entry.path)]
    else if Ignored(entry.name) || (!entry.isDir && !LooseHTML(entry)) then []
    else if S.Slug(entry.name) == "" then [Warning(InvalidSlug, entry.path)]
    else if S.Slug(entry.name) in RESERVED_SLUGS then [Warning(ReservedSlug, entry.path)]
    else if uses > 0 then [Warning(SlugCollision, entry.path)]
    else []
  }

  /** The names that get an app, in plain words: not hidden or underscored, not one of the tool folders,
      a folder or an HTML file, with a slug, and neither name nor slug one of Dropserve's own addresses. */
  lemma AdmittedExactly(entry: Entry)
    ensures Admitted(entry) <==>
              && entry.name != "" && entry.name[0] != '.' && entry.name[0] != '_'
              && Lower(entry.name) !in ["node_modules", "venv", ".venv", "__pycache__", "vendor", ".git", "dist"]
              && (entry.isDir || S.EqualFold(S.Extension(entry.name), ".html")
                  || S.EqualFold(S.Extension(entry.name), ".htm"))
              && Lower(S.Stem(entry.name)) !in ["_dropserve", "api", "health", ".well-known"]
              && S.Slug(entry.name) !in ["", "_dropserve", "api", "health", ".well-known"]
  {
    S.EmptyNameHasNoSlug();
  }

  /** Which warning an entry earns: at most one, about this entry. */
  lemma WarningsTell(entry: Entry, seen: bool, uses: nat)
    ensures var warnings := WarningsFor(entry, seen, uses);
            var inspected := !seen && !HasPrefix(entry.name, "..") && Lower(S.Stem(entry.name)) !in
                               ["_dropserve", "api", "health", ".well-known"]
                             && !Ignored(entry.name) && (entry.isDir || LooseHTML(entry));
            && |warnings| <= 1 && (forall i | 0 <= i < |warnings| :: warnings[i].path == entry.path)
            && (warnings == [Warning(ReservedSlug, entry.path)] <==>
                  || (!seen && Lower(S.Stem(entry.name)) in ["_dropserve", "api", "health", ".well-known"])
                  || (inspected && S.Slug(entry.name) in ["_dropserve", "api", "health", ".well-known"]))
            && (warnings == [Warning(UnsafeName, entry.path)] <==>
                  !seen && HasPrefix(entry.name, "..")
                  && Lower(S.Stem(entry.name)) !in ["_dropserve", "api", "health", ".well-known"])
            && (warnings == [Warning(InvalidSlug, entry.path)] <==> inspected && S.Slug(entry.name) == "")
            && (warnings == [Warning(SlugCollision, entry.path)] <==> !seen && Admitted(entry) && uses > 0)
  {
  }

  function Bases(apps: seq<App>): seq<string> {
    seq(|apps|, i requires 0 <= i < |apps| => S.Slug(apps[i].name))
  }

  function UsesOf(slugUses: map<string, nat>, base: string): nat {
    if base in slugUses then slugUses[base] else 0
  }

  ghost predicate NumberedAll(slugs: seq<string>, bases: seq<string>, slugUses: map<string, nat>) {
    && |slugs| == |bases|
    && (forall i | 0 <= i < |slugs| :: slugs[i] == SlugAt(bases, i))
    && (forall base :: UsesOf(slugUses, base) == Count(bases, base))
  }

  function Slugs(apps: seq<App>): seq<string> {
    seq(|apps|, i requires 0 <= i < |apps| => apps[i].slug)
  }

  class Collector {
    var apps: seq<App>
    var warnings: seq<Warning>
    var slugUses: map<string, nat>
    var seenPaths: set<string>

    /** Every app is numbered by its position among the apps of its base, and no path is listed twice. */
    ghost predicate Valid()
      reads this
    {
      && Numbering()
      && (forall i | 0 <= i < |apps| :: apps[i].path in seenPaths)
      && (forall i, j | 0 <= i < j < |apps| :: apps[i].path != apps[j].path)
      && (forall i | 0 <= i < |apps| :: S.IsSlug(S.Slug(apps[i].name)))
    }

    ghost predicate Numbering()
      reads this
    {
      NumberedAll(Slugs(apps), Bases(apps), slugUses)
    }

    constructor ()
      ensures Valid() && apps == [] && warnings == [] && seenPaths == {}
    {
      apps, warnings, slugUses, seenPaths := [], [], map[], {};
    }

    /** `detected` says whether the folder could be inspected; if not the whole scan is abandoned. */
    method Add(entry: Entry, detected: bool) returns (ok: bool)
      requires Valid()
      modifies this
      ensures ok <==> entry.path in old(seenPaths) || !Admitted(entry) || !entry.isDir || detected
      ensures ok ==> Valid() && seenPaths == old(seenPaths) + {entry.path}
      ensures ok && (entry.path in old(seenPaths) || !Admitted(entry)) ==> apps == old(apps)
      ensures ok && entry.path !in old(seenPaths) && Admitted(entry) ==>
                exists slug :: apps == old(apps) + [App(entry.path, entry.name, slug)]
      ensures warnings == old(warnings) + WarningsFor(entry, entry.path in old(seenPaths),
                                                      old(UsesOf(slugUses, S.Slug(entry.name))))
    {
      if entry.path in seenPaths {
        assert seenPaths == seenPaths + {entry.path};
        return true;
      }
      seenPaths := seenPaths + {entry.path};
      ok := AddNew(entry, detected);
      S.SlugIsEmptyOrValid(entry.name);
    }

    method AddNew(entry: Entry, detected: bool) returns (ok: bool)
      requires Numbering() && entry.path in seenPaths
      modifies this`apps, this`warnings, this`slugUses
      ensures ok <==> !Admitted(entry) || !entry.isDir || detected
      ensures ok ==> Numbering()
      ensures ok && !Admitted(entry) ==> apps == old(apps)
      ensures ok && Admitted(entry) ==> exists slug :: apps == old(apps) + [App(entry.path, entry.name, slug)]
      ensures warnings == old(warnings) + WarningsFor(entry, false, old(UsesOf(slugUses, S.Slug(entry.name))))
    {
      if Reserved(entry.name) {
        warnings := warnings + [Warning(ReservedSlug, entry.path)];
        return true;
      }
      if S.Unsafe(entry.name) {
        warnings := warnings + [Warning(UnsafeName, entry.path)];
        return true;
      }
      if Ignored(entry.name) || (!entry.isDir && !LooseHTML(entry)) {
        return true;
      }
      var baseSlug := S.MakeSlug(entry.name);
      if baseSlug == "" {
        warnings := warnings + [Warning(InvalidSlug, entry.path)];
        return true;
      }
      if baseSlug in RESERVED_SLUGS {
        warnings := warnings + [Warning(ReservedSlug, entry.path)];
        return true;
      }
      S.SlugIsEmptyOrValid(entry.name);
      ok := AddNumbered(entry, baseSlug, detected);
    }

    method AddNumbered(entry: Entry, baseSlug: string, detected: bool) returns (ok: bool)
      requires Admitted(entry) && baseSlug == S.Slug(entry.name) && S.IsSlug(baseSlug)
      requires Numbering() && entry.path in seenPaths
      modifies this`apps, this`warnings, this`slugUses
      ensures ok <==> !entry.isDir || detected
      ensures ok ==> Numbering() && exists slug :: apps == old(apps) + [App(entry.path, entry.name, slug)]
      ensures warnings == old(warnings)
                          + if old(UsesOf(slugUses, baseSlug)) > 0 then [Warning(SlugCollision, entry.path)] else []
    {
      LowerOfSlug(baseSlug);
      var slugKey := Lower(baseSlug);
      var use := UsesOf(slugUses, slugKey) + 1;
      slugUses := slugUses[slugKey := use];
      var slug := baseSlug;
      if use > 1 {
        slug := baseSlug + "-" + Decimal(use);
        warnings := warnings + [Warning(SlugCollision, entry.path)];
      }
      if entry.isDir && !detected {
        return false;
      }
      ghost var app := App(entry.path, entry.name, slug);
      OneMoreAdded(apps, old(slugUses), app);
      apps := apps + [App(entry.path, entry.name, slug)];
      assert apps == old(apps) + [app];
      return true;
    }
  }

  lemma OneMoreAdded(apps: seq<App>, slugUses: map<string, nat>, app: App)
    requires NumberedAll(Slugs(apps), Bases(apps), slugUses)
    requires app.slug == Numbered(S.Slug(app.name), UsesOf(slugUses, S.Slug(app.name)) + 1)
    ensures var base := S.Slug(app.name);
            NumberedAll(Slugs(apps + [app]), Bases(apps + [app]), slugUses[base := UsesOf(slugUses, base) + 1])
  {
    assert Slugs(apps + [app]) == Slugs(apps) + [app.slug];
    assert Bases(apps + [app]) == Bases(apps) + [S.Slug(app.name)];
    OneMoreApp(Slugs(apps), Bases(apps), slugUses, S.Slug(app.name));
  }

  lemma LowerOfSlug(slug: string)
    requires S.IsSlug(slug)
    ensures Lower(slug) == slug
  {
  }

  lemma SlugsStay(bases: seq<string>, base: string)
    ensures forall i: nat | i < |bases| :: SlugAt(bases + [base], i) == SlugAt(bases, i)
    ensures SlugAt(bases + [base], |bases|) == Numbered(base, Count(bases, base) + 1)
  {
    var longer := bases + [base];
    forall i: nat | i < |bases| ensures SlugAt(longer, i) == SlugAt(bases, i) {
      assert longer[..i + 1] == bases[..i + 1];
    }
    assert longer[..|bases| + 1] == longer;
    CountSnoc(bases, base, base);
  }

  /** Numbering the next app of a base one higher keeps every app numbered by its position. */
  lemma OneMoreApp(slugs: seq<string>, bases: seq<string>, slugUses: map<string, nat>, base: string)
    requires NumberedAll(slugs, bases, slugUses)
    ensures var use := UsesOf(slugUses, base) + 1;
            NumberedAll(slugs + [Numbered(base, use)], bases + [base], slugUses[base := use])
  {
    SlugsStay(bases, base);
    var more := slugUses[base := UsesOf(slugUses, base) + 1];
    forall other ensures UsesOf(more, other) == Count(bases + [base], other) {
      CountSnoc(bases, base, other);
    }
  }
}
