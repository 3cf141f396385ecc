/** Which addresses the local server certificate covers, and when it is issued again. */
module Addresses {
  import opened Text

  // ---- Addresses and their order --------------------------------------------------------------

  /** No address, an IPv4 address, or an IPv6 address with its zone. */
  datatype Addr = Zero | V4(value: nat) | V6(value: nat, zone: string)

  const MAPPED_PREFIX: nat := 0xffff_0000_0000

  /** An IPv4-mapped IPv6 address becomes the IPv4 address. */
  function Unmap(a: Addr): Addr {
    if a.V6? && MAPPED_PREFIX <= a.value < MAPPED_PREFIX + 0x1_0000_0000 then V4(a.value - MAPPED_PREFIX) else a
  }

  predicate Unspecified(a: Addr) {
    a == V4(0) || a == V6(0, "")
  }

  predicate Loopback(a: Addr) {
    match a
    case Zero => false
    case V4(value) => value / 0x100_0000 == 127
    case V6(value, _) => value == 1
  }

  predicate Usable(a: Addr) {
    a != Zero && !Unspecified(a) && !Loopback(a)
  }

  /** What a list of addresses stands for: order, duplicates, mapped forms and unusable ones do not matter. */
  function UsableSet(addresses: seq<Addr>): set<Addr> {
    set a | a in addresses && Usable(Unmap(a)) :: Unmap(a)
  }

  predicate ZoneBelow(a: string, b: string) {
    if b == "" then false
    else if a == "" then true
    else a[0] < b[0] || (a[0] == b[0] && ZoneBelow(a[1..], b[1..]))
  }

  function Width(a: Addr): nat {
    match a case Zero => 0 case V4(_) => 32 case V6(_, _) => 128
  }

  predicate Below(a: Addr, b: Addr) {
    if Width(a) != Width(b) then Width(a) < Width(b)
    else if a.Zero? then false
    else a.value < b.value || (a.value == b.value && a.V6? && ZoneBelow(a.zone, b.zone))
  }

  lemma ZoneOrder(a: string, b: string, c: string)
    ensures !(ZoneBelow(a, b) && ZoneBelow(b, a))
    ensures a == b || ZoneBelow(a, b) || ZoneBelow(b, a)
    ensures ZoneBelow(a, b) && ZoneBelow(b, c) ==> ZoneBelow(a, c)
  {
    if a != "" && b != "" {
      ZoneOrder(a[1..], b[1..], if c == "" then "" else c[1..]);
      assert a == [a[0]] + a[1..] && b == [b[0]] + b[1..];
    }
  }

  /** A strict total order. */
  lemma AddressOrder(a: Addr, b: Addr, c: Addr)
    ensures !(Below(a, b) && Below(b, a))
    ensures a == b || Below(a, b) || Below(b, a)
    ensures Below(a, b) && Below(b, c) ==> Below(a, c)
  {
    if a.V6? && b.V6? {
      ZoneOrder(a.zone, b.zone, if c.V6? then c.zone else "");
    }
  }

  /** By kind, then by number, then by zone. */
  lemma OrderIsNumeric(a: nat, b: nat, zoneA: string, zoneB: string)
    ensures Below(V4(a), V4(b)) <==> a < b
    ensures Below(V4(a), V6(b, zoneB)) && !Below(V6(b, zoneB), V4(a))
    ensures a != b ==> (Below(V6(a, zoneA), V6(b, zoneB)) <==> a < b)
  {
  }

  predicate Ascending(s: seq<Addr>) {
    forall i, j | 0 <= i < j < |s| :: Below(s[i], s[j])
  }

  function Insert(a: Addr, s: seq<Addr>): seq<Addr> {
    if s == [] || Below(a, s[0]) then [a] + s else [s[0]] + Insert(a, s[1..])
  }

  function Sort(s: seq<Addr>): seq<Addr> {
    if s == [] then [] else Insert(s[0], Sort(s[1..]))
  }

  lemma {:induction false} InsertKeepsOrder(a: Addr, s: seq<Addr>)
    requires Ascending(s) && a !in s
    ensures Ascending(Insert(a, s))
    ensures forall x :: x in Insert(a, s) <==> x == a || x in s
  {
    if s != [] && !Below(a, s[0]) {
      AddressOrder(a, s[0], a);
      InsertKeepsOrder(a, s[1..]);
      forall x | x in Insert(a, s[1..]) ensures Below(s[0], x) {
        assert x == a || x in s[1..];
      }
      assert s == [s[0]] + s[1..];
    } else if s != [] {
      forall x | x in s ensures Below(a, x) {
        AddressOrder(a, s[0], x);
        var k :| 0 <= k < |s| && s[k] == x;
      }
    }
  }

  lemma {:induction false} SortIsAscending(s: seq<Addr>)
    requires forall i, j | 0 <= i < j < |s| :: s[i] != s[j]
    ensures Ascending(Sort(s))
    ensures forall x :: x in Sort(s) <==> x in s
  {
    if s != [] {
      SortIsAscending(s[1..]);
      InsertKeepsOrder(s[0], Sort(s[1..]));
      assert s == [s[0]] + s[1..];
    }
  }

  /** Drops what is not usable and what was seen, then sorts. */
  method NormalizeAddresses(addresses: seq<Addr>) returns (result: seq<Addr>)
    ensures Ascending(result)
    ensures forall a :: a in result <==> a in UsableSet(addresses)
  {
    var seen: set<Addr> := {};
    result := [];
    for i := 0 to |addresses|
      invariant forall a :: a in result <==> a in seen
      invariant seen == UsableSet(addresses[..i])
      invariant forall j, k | 0 <= j < k < |result| :: result[j] != result[k]
    {
      UsableSetGrows(addresses, i);
      var address := Unmap(addresses[i]);
      if !Usable(address) || address in seen {
        continue;
      }
      seen := seen + {address};
      result := result + [address];
    }
    assert addresses[..|addresses|] == addresses;
    SortIsAscending(result);
    result := Sort(result);
  }

  lemma UsableSetGrows(addresses: seq<Addr>, i: nat)
    requires i < |addresses|
    ensures UsableSet(addresses[..i + 1])
         == UsableSet(addresses[..i]) + if Usable(Unmap(addresses[i])) then {Unmap(addresses[i])} else {}
  {
    assert addresses[..i + 1] == addresses[..i] + [addresses[i]];
  }

  /** Compares position by position. */
  method SameAddresses(first: seq<Addr>, second: seq<Addr>) returns (same: bool)
    ensures same == (first == second)
  {
    if |first| != |second| {
      return false;
    }
    for i := 0 to |first|
      invariant first[..i] == second[..i]
    {
      if first[i] != second[i] {
        return false;
      }
    }
    return true;
  }

  lemma FirstIsOnlyFirst(s: seq<Addr>)
    requires Ascending(s) && s != []
    ensures s[0] !in s[1..]
    ensures forall a :: a in s <==> a == s[0] || a in s[1..]
  {
    assert s == [s[0]] + s[1..];
    if s[0] in s[1..] {
      AddressOrder(s[0], s[0], s[0]);
    }
  }

  /** The sorted form is canonical: comparing lists position by position compares sets. */
  lemma {:induction false} AscendingIsCanonical(s: seq<Addr>, t: seq<Addr>)
    requires Ascending(s) && Ascending(t)
    requires forall a :: a in s <==> a in t
    ensures s == t
  {
    assert t != [] ==> t[0] in t;
    if s != [] {
      assert s[0] in s;
      var i :| 0 <= i < |t| && t[i] == s[0];
      var j :| 0 <= j < |s| && s[j] == t[0];
      AddressOrder(s[0], t[0], s[0]);
      assert s[0] == t[0];
      FirstIsOnlyFirst(s);
      FirstIsOnlyFirst(t);
      AscendingIsCanonical(s[1..], t[1..]);
    }
  }

  // ---- The certificate ------------------------------------------------------------------------

  /** An address in a certificate has no zone. */
  datatype Ip = Ip4(value: nat) | Ip6(value: nat)

  function IpOf(a: Addr): Ip
    requires !a.Zero?
  {
    match a case V4(value) => Ip4(value) case V6(value, _) => Ip6(value)
  }

  /** The addresses a certificate is issued for, of those it is asked for. */
  function Issuable(addresses: seq<Addr>): set<Addr> {
    set a | a in addresses && a != Zero && !Unspecified(a) :: Unmap(a)
  }

  function Elements<T>(s: seq<T>): set<T> {
    set x | x in s
  }

  lemma ElementsOfAppend<T>(s: seq<T>, x: T)
    ensures Elements(s + [x]) == Elements(s) + {x}
  {
  }

  const LOCAL: set<Ip> := {Ip4(0x7f00_0001), Ip6(1)}

  function Covered(addresses: set<Addr>): set<Ip> {
    LOCAL + set a | a in addresses && !a.Zero? :: IpOf(a)
  }

  /** A normal form holds the usable set, and a certificate is issued for all of it. */
  lemma NormalFormOf(addresses: seq<Addr>, normalized: seq<Addr>)
    requires forall a :: a in normalized <==> a in UsableSet(addresses)
    ensures Elements(normalized) == UsableSet(addresses) == Issuable(normalized)
    ensures forall a | a in normalized :: Usable(a) && Unmap(a) == a
  {
  }

  /** Replacing the key file: done; failed with the old one in place; failed to protect the new one
      after it took the old one's place; failed, and the old one could not be put back. */
  datatype KeyWrite = KeyWritten | KeyKept | KeyUnprotected | KeyLost

  /** Replacing the certificate file, which is not protected afterwards. */
  datatype LeafWrite = LeafWritten | LeafKept | LeafLost

  // ---- The same in plain numbers --------------------------------------------------------------

  /** An IPv4 address was given, as itself or as an IPv4-mapped IPv6 address. */
  ghost predicate Given4(addresses: seq<Addr>, value: nat) {
    V4(value) in addresses || GivenMapped(addresses, value)
  }

  ghost predicate GivenMapped(addresses: seq<Addr>, value: nat) {
    value < 0x1_0000_0000 && GivenWithAnyZone(addresses, 0xffff_0000_0000 + value)
  }

  ghost predicate GivenWithAnyZone(addresses: seq<Addr>, value: nat) {
    exists zone :: V6(value, zone) in addresses
  }

  /** An IPv6 address was given that is neither IPv4-mapped nor `::` without a zone. */
  ghost predicate Given6(addresses: seq<Addr>, value: nat) {
    !(0xffff_0000_0000 <= value < 0x1_0000_0000_0000)
    && exists zone :: V6(value, zone) in addresses && (value != 0 || zone != "")
  }

  /** The usable addresses of a list: no zero, no loopback, mapped ones as IPv4. */
  lemma UsableExactly(addresses: seq<Addr>)
    ensures forall v: nat ::
              V4(v) in UsableSet(addresses) <==> v != 0 && v / 0x100_0000 != 127 && Given4(addresses, v)
    ensures forall v: nat, zone ::
              V6(v, zone) in UsableSet(addresses) <==>
                V6(v, zone) in addresses && v != 1 && (v != 0 || zone != "")
                && !(0xffff_0000_0000 <= v < 0x1_0000_0000_0000)
    ensures Zero !in UsableSet(addresses)
  {
    forall v: nat ensures V4(v) in UsableSet(addresses) <==> v != 0 && v / 0x100_0000 != 127 && Given4(addresses, v) {
      if Given4(addresses, v) && V4(v) !in addresses {
        var zone :| V6(0xffff_0000_0000 + v, zone) in addresses;
        assert Unmap(V6(0xffff_0000_0000 + v, zone)) == V4(v);
      }
      if V4(v) in addresses {
        assert Unmap(V4(v)) == V4(v);
      }
    }
    forall v: nat, zone
      ensures V6(v, zone) in UsableSet(addresses) <==>
                V6(v, zone) in addresses && v != 1 && (v != 0 || zone != "")
                && !(0xffff_0000_0000 <= v < 0x1_0000_0000_0000)
    {
      if V6(v, zone) in addresses && !(0xffff_0000_0000 <= v < 0x1_0000_0000_0000) {
        assert Unmap(V6(v, zone)) == V6(v, zone);
      }
    }
  }

  /** What a certificate covers that is issued for a set: loopback, and each address without its zone. */
  lemma CoveredExactly(addresses: set<Addr>)
    ensures forall v: nat :: Ip4(v) in Covered(addresses) <==> v == 0x7f00_0001 || V4(v) in addresses
    ensures forall v: nat :: Ip6(v) in Covered(addresses) <==> v == 1 || exists zone :: V6(v, zone) in addresses
  {
    forall v: nat ensures Ip4(v) in Covered(addresses) <==> v == 0x7f00_0001 || V4(v) in addresses {
      assert V4(v) in addresses ==> IpOf(V4(v)) == Ip4(v);
    }
    forall v: nat
      ensures Ip6(v) in Covered(addresses) <==> v == 1 || exists zone :: V6(v, zone) in addresses
    {
      if zone :| V6(v, zone) in addresses {
        assert IpOf(V6(v, zone)) == Ip6(v);
      }
    }
  }

  lemma IssuableExactly(addresses: seq<Addr>)
    ensures forall v: nat ::
              V4(v) in Issuable(addresses) <==> (v != 0 && V4(v) in addresses) || GivenMapped(addresses, v)
    ensures forall v: nat ::
              (exists zone :: V6(v, zone) in Issuable(addresses)) <==> Given6(addresses, v)
  {
    forall v: nat
      ensures V4(v) in Issuable(addresses) <==> (v != 0 && V4(v) in addresses) || GivenMapped(addresses, v)
    {
      if GivenMapped(addresses, v) {
        var zone :| V6(0xffff_0000_0000 + v, zone) in addresses;
        assert Unmap(V6(0xffff_0000_0000 + v, zone)) == V4(v);
      }
      if V4(v) in addresses {
        assert Unmap(V4(v)) == V4(v);
      }
    }
    forall v: nat ensures (exists zone :: V6(v, zone) in Issuable(addresses)) <==> Given6(addresses, v) {
      if Given6(addresses, v) {
        var zone :| V6(v, zone) in addresses && (v != 0 || zone != "");
        assert Unmap(V6(v, zone)) == V6(v, zone);
      }
    }
  }

  // ---- Issuing --------------------------------------------------------------------------------

  /** How issuing turns out: the certificate itself, the key file, the certificate file. */
  datatype Fate = Fate(issued: bool, key: KeyWrite, leaf: LeafWrite)

  predicate Succeeds(fate: Fate) {
    fate.issued && fate.key.KeyWritten? && fate.leaf.LeafWritten?
  }

  function KeyFileAfter(fate: Fate, before: Option<nat>, made: nat): Option<nat> {
    if !fate.issued then before
    else match fate.key
      case KeyWritten => Some(made)
      case KeyKept => before
      case KeyUnprotected => Some(made)
      case KeyLost => None
  }

  /** The certificate on file is lost only behind a key that was written. */
  predicate LosesLeaf(fate: Fate) {
    fate.issued && fate.key.KeyWritten? && fate.leaf.LeafLost?
  }

  /** The addresses a certificate covers and the key it belongs to. */
  datatype Leaf = Leaf(covered: set<Ip>, key: nat)

  /** The stored address set, and what the two files hold; keys are numbered as they are made. */
  datatype State = State(usable: set<Addr>, leaf: Option<Leaf>, keyFile: Option<nat>, keys: nat)

  function AfterUpdate(s: State, addresses: seq<Addr>, fate: Fate): State {
    if UsableSet(addresses) == s.usable then s
    else
      var made := s.keys + 1;
      var keyFile := KeyFileAfter(fate, s.keyFile, made);
      if Succeeds(fate) then
        State(UsableSet(addresses), Some(Leaf(Covered(UsableSet(addresses)), made)), keyFile, made)
      else s.(keys := made, keyFile := keyFile, leaf := if LosesLeaf(fate) then None else s.leaf)
  }

  datatype Certificate = Certificate(ips: seq<Ip>, key: nat)

  ghost predicate NoDuplicates(ips: seq<Ip>) {
    forall i, j | 0 <= i < j < |ips| :: ips[i] != ips[j]
  }

  function LeafOf(certificate: Option<Certificate>): Option<Leaf> {
    match certificate
    case None => None
    case Some(c) => Some(Leaf(Elements(c.ips), c.key))
  }

  class Authority {
    var addresses: seq<Addr>
    var certificate: Option<Certificate>
    var keyFile: Option<nat>
    var keys: nat

    ghost predicate Valid()
      reads this
    {
      && Ascending(addresses)
      && (forall a | a in addresses :: Usable(a) && Unmap(a) == a)
      && (certificate.Some? ==> NoDuplicates(certificate.value.ips))
    }

    ghost function View(): State
      reads this
    {
      State(Elements(addresses), LeafOf(certificate), keyFile, keys)
    }

    /** Creating succeeds only if the first certificate is issued. */
    constructor (addresses: seq<Addr>)
      ensures Valid()
      ensures View() == Created(addresses)
    {
      new;
      var normalized := NormalizeAddresses(addresses);
      NormalFormOf(addresses, normalized);
      this.addresses, keys, keyFile, certificate := normalized, 0, None, None;
      var _ := IssueLeaf(normalized, Fate(true, KeyWritten, LeafWritten));
    }

    /** Loopback and the given addresses, without zones and duplicates; the key file is written first. */
    method IssueLeaf(addresses: seq<Addr>, fate: Fate) returns (failed: bool)
      modifies this`certificate, this`keyFile, this`keys
      ensures failed == !Succeeds(fate)
      ensures keys == old(keys) + 1
      ensures keyFile == KeyFileAfter(fate, old(keyFile), keys)
      ensures failed ==> certificate == if LosesLeaf(fate) then None else old(certificate)
      ensures !failed ==>
        && LeafOf(certificate) == Some(Leaf(Covered(Issuable(addresses)), keys))
        && NoDuplicates(certificate.value.ips)
        && (forall v: nat :: Ip4(v) in certificate.value.ips <==>
              v == 0x7f00_0001 || (v != 0 && V4(v) in addresses) || GivenMapped(addresses, v))
        && (forall v: nat :: Ip6(v) in certificate.value.ips <==> v == 1 || Given6(addresses, v))
    {
      var ips := [Ip4(0x7f00_0001), Ip6(1)];
      for i := 0 to |addresses|
        modifies {}
        invariant Elements(ips) == Covered(Issuable(addresses[..i]))
      {
        var address := addresses[i];
        assert addresses[..i + 1] == addresses[..i] + [address];
        if address != Zero && !Unspecified(address) {
          assert Issuable(addresses[..i + 1]) == Issuable(addresses[..i]) + {Unmap(address)};
          ElementsOfAppend(ips, IpOf(Unmap(address)));
          ips := ips + [IpOf(Unmap(address))];
        } else {
          assert Issuable(addresses[..i + 1]) == Issuable(addresses[..i]);
        }
      }
      assert addresses[..|addresses|] == addresses;
      keys := keys + 1;
      if !fate.issued {
        return true;
      }
      ips := UniqueIps(ips);
      match fate.key {
        case KeyWritten => keyFile := Some(keys);
        case KeyKept => return true;
        case KeyUnprotected => keyFile := Some(keys); return true;
        case KeyLost => keyFile := None; return true;
      }
      match fate.leaf {
        case LeafWritten =>
        case LeafKept => return true;
        case LeafLost => certificate := None; return true;
      }
      certificate := Some(Certificate(ips, keys));
      assert Elements(ips) == Covered(Issuable(addresses));
      IssuableExactly(addresses);
      CoveredExactly(Issuable(addresses));
      assert forall ip :: ip in ips <==> ip in Elements(ips);
      return false;
    }

    method UpdateAddresses(addresses: seq<Addr>, fate: Fate) returns (changed: bool, failed: bool)
      requires Valid()
      modifies this
      ensures Valid() && View() == AfterUpdate(old(View()), addresses, fate)
      ensures changed == (UsableSet(addresses) != old(View()).usable && Succeeds(fate))
      ensures failed == (UsableSet(addresses) != old(View()).usable && !Succeeds(fate))
    {
      var normalized := NormalizeAddresses(addresses);
      NormalFormOf(addresses, normalized);
      if Elements(this.addresses) == Elements(normalized) {
        AscendingIsCanonical(this.addresses, normalized);
      }
      var same := SameAddresses(this.addresses, normalized);
      if same {
        return false, false;
      }
      failed := IssueLeaf(normalized, fate);
      if failed {
        return false, true;
      }
      this.addresses := normalized;
      return true, false;
    }
  }

  method UniqueIps(ips: seq<Ip>) returns (result: seq<Ip>)
    ensures Elements(result) == Elements(ips)
    ensures NoDuplicates(result)
  {
    result := [];
    for i := 0 to |ips|
      invariant Elements(result) == Elements(ips[..i])
      invariant forall j, k | 0 <= j < k < |result| :: result[j] != result[k]
    {
      assert ips[..i + 1] == ips[..i] + [ips[i]];
      ElementsOfAppend(ips[..i], ips[i]);
      ElementsOfAppend(result, ips[i]);
      if ips[i] !in result {
        result := result + [ips[i]];
      }
    }
    assert ips[..|ips|] == ips;
  }

  // ---- Runs of updates ------------------------------------------------------------------------

  datatype Update = Update(addresses: seq<Addr>, fate: Fate)

  function After(s: State, updates: seq<Update>): State
    decreases |updates|
  {
    if updates == [] then s
    else
      var last := updates[|updates| - 1];
      AfterUpdate(After(s, updates[..|updates| - 1]), last.addresses, last.fate)
  }

  function Created(addresses: seq<Addr>): State {
    State(UsableSet(addresses), Some(Leaf(Covered(UsableSet(addresses)), 1)), Some(1), 1)
  }

  /** The set asked for by the last update that did not fail, or at creation. */
  function LastServed(first: seq<Addr>, updates: seq<Update>): set<Addr>
    decreases |updates|
  {
    if updates == [] then UsableSet(first)
    else
      var last := updates[|updates| - 1];
      if Succeeds(last.fate) then UsableSet(last.addresses) else LastServed(first, updates[..|updates| - 1])
  }

  /** Both files are there and the certificate belongs to the key. */
  predicate Paired(s: State) {
    s.leaf.Some? && s.keyFile == Some(s.leaf.value.key)
  }

  /** Whatever fails, the stored set and the certificate on file are those of the last success. */
  lemma {:induction false} LastSuccessIsServed(first: seq<Addr>, updates: seq<Update>)
    ensures var s := After(Created(first), updates);
      && s.usable == LastServed(first, updates)
      && (s.leaf.Some? ==> s.leaf.value.covered == Covered(s.usable) && s.leaf.value.key <= s.keys)
      && (s.keyFile.Some? ==> s.keyFile.value <= s.keys)
    decreases |updates|
  {
    if updates != [] {
      LastSuccessIsServed(first, updates[..|updates| - 1]);
    }
  }

  /** The last list of addresses whose update did not fail, or the one at creation. */
  function LastRequest(first: seq<Addr>, updates: seq<Update>): seq<Addr>
    decreases |updates|
  {
    if updates == [] then first
    else
      var last := updates[|updates| - 1];
      if Succeeds(last.fate) then last.addresses else LastRequest(first, updates[..|updates| - 1])
  }

  lemma {:induction false} LastRequestIsServed(first: seq<Addr>, updates: seq<Update>)
    ensures LastServed(first, updates) == UsableSet(LastRequest(first, updates))
    decreases |updates|
  {
    if updates != [] && !Succeeds(updates[|updates| - 1].fate) {
      LastRequestIsServed(first, updates[..|updates| - 1]);
    }
  }

  /** After every run the certificate on file covers loopback and exactly the usable addresses of the
      last list whose update did not fail. */
  lemma LeafCoversExactly(first: seq<Addr>, updates: seq<Update>)
    requires After(Created(first), updates).leaf.Some?
    ensures var covered, given := After(Created(first), updates).leaf.value.covered, LastRequest(first, updates);
      && (forall v: nat :: Ip4(v) in covered <==>
            v == 0x7f00_0001 || (v != 0 && v / 0x100_0000 != 127 && Given4(given, v)))
      && (forall v: nat :: Ip6(v) in covered <==> v == 1 || Given6(given, v))
  {
    LastSuccessIsServed(first, updates);
    LastRequestIsServed(first, updates);
    var given := LastRequest(first, updates);
    UsableExactly(given);
    CoveredExactly(UsableSet(given));
    forall v: nat ensures v != 1 ==> ((exists zone :: V6(v, zone) in UsableSet(given)) <==> Given6(given, v)) {
      if Given6(given, v) && v != 1 {
        var zone :| V6(v, zone) in given && (v != 0 || zone != "");
        assert V6(v, zone) in UsableSet(given);
      }
    }
  }

  /** A new certificate is put on file exactly when the set changed and issuing worked. */
  lemma ReissuedExactlyOnChange(first: seq<Addr>, updates: seq<Update>, update: Update)
    ensures var s, t := After(Created(first), updates), After(Created(first), updates + [update]);
      (t.leaf.Some? && t.leaf != s.leaf) <==>
        (UsableSet(update.addresses) != LastServed(first, updates) && Succeeds(update.fate))
  {
    LastSuccessIsServed(first, updates);
    assert (updates + [update])[..|updates|] == updates;
  }

  /** Something happened to the key file and the certificate did not follow. */
  predicate BreaksPair(fate: Fate) {
    fate.issued && !fate.key.KeyKept? && !Succeeds(fate)
  }

  /** The pair breaks exactly when a change replaces or loses the key and does not end in success. */
  lemma PairBreaksExactly(first: seq<Addr>, updates: seq<Update>, update: Update)
    ensures var s, t := After(Created(first), updates), After(Created(first), updates + [update]);
      Paired(s) ==> (!Paired(t) <==> UsableSet(update.addresses) != s.usable && BreaksPair(update.fate))
  {
    LastSuccessIsServed(first, updates);
    assert (updates + [update])[..|updates|] == updates;
  }

  /** A broken pair is repaired exactly by a change that succeeds; asking for the stored set again does nothing. */
  lemma PairIsRepairedExactly(first: seq<Addr>, updates: seq<Update>, update: Update)
    ensures var s, t := After(Created(first), updates), After(Created(first), updates + [update]);
      !Paired(s) ==> (Paired(t) <==> UsableSet(update.addresses) != s.usable && Succeeds(update.fate))
  {
    LastSuccessIsServed(first, updates);
    assert (updates + [update])[..|updates|] == updates;
  }
}
