/** What the Platform reconciler makes of the claims
    (internal/controller/platform_controller.go): the active set, the package
    identity, the entries of the generated module, and the events that wake it. */
module PlatformPackage {
  import opened Options
  import P = ClaimProtocol
  import opened Order
  import opened PackageIdentity
  import opened Registrations
  import opened Seqs
  import opened Text

  function Contributing(): Registration -> bool {
    (c: Registration) => c.Contributes()
  }

  function Active(list: seq<Registration>): seq<Registration> {
    SortBy(Filter(list, Contributing()), ByName())
  }

  method ActiveClaims(list: seq<Registration>) returns (active: seq<Registration>)
    ensures active == Active(list)
  {
    active := [];
    for i := 0 to |list|
      invariant active == Filter(list[..i], Contributing())
    {
      FilterStep(list, i, Contributing());
      var claim := list[i];
      if !claim.accepted || !claim.active {
        continue;
      }
      if claim.deleting && !claim.guarded {
        continue;
      }
      active := active + [claim];
    }
    FilterAll(list, Contributing());
    active := SortBy(active, ByName());
  }

  function CoordinateOf(): Registration -> Coordinate {
    (c: Registration) => Coordinate(c.catalog, c.version)
  }

  method ClaimCoordinates(claims: seq<Registration>) returns (coords: seq<Coordinate>)
    ensures coords == Map(claims, CoordinateOf())
  {
    coords := [];
    for i := 0 to |claims|
      invariant coords == Map(claims[..i], CoordinateOf())
    {
      coords := coords + [Coordinate(claims[i].catalog, claims[i].version)];
    }
    assert claims[..|claims|] == claims;
  }

  // ---- the entries --------------------------------------------------------

  datatype Subscription = Subscription(version: string, enable: Option<bool>)

  datatype Entry = Entry(path: string, version: string, enable: bool)

  function ByPath(): Entry -> string {
    (e: Entry) => e.path
  }

  /** What the Platform's own registry says of a path. */
  ghost predicate Authored(registry: map<string, Subscription>, e: Entry) {
    && e.path in registry && e.version == registry[e.path].version
    && e.enable == (registry[e.path].enable != Some(false))
  }

  ghost predicate FirstOfCatalog(claims: seq<Registration>, i: nat, path: string, version: string) {
    && i < |claims| && claims[i].catalog == path && claims[i].version == version
    && forall j | 0 <= j < i :: claims[j].catalog != path
  }

  /** The first claim of a catalog the registry does not name decides its entry. */
  ghost predicate Claimed(registry: map<string, Subscription>, claims: seq<Registration>, e: Entry) {
    && e.path !in registry && e.enable
    && exists i: nat :: FirstOfCatalog(claims, i, e.path, e.version)
  }

  ghost predicate EntriesOf(registry: map<string, Subscription>, claims: seq<Registration>, entries: seq<Entry>) {
    && Ascending(entries, ByPath())
    && forall e :: e in entries <==> Authored(registry, e) || Claimed(registry, claims, e)
  }

  method PlatformEntries(registry: map<string, Subscription>, claims: seq<Registration>)
    returns (entries: Option<seq<Entry>>)
    ensures entries.None? <==> exists path :: path in registry && registry[path].version == ""
    ensures entries.Some? ==> EntriesOf(registry, claims, entries.value)
  {
    var out: seq<Entry> := [];
    var seen: set<string> := {};
    var rest := registry.Keys;
    while rest != {}
      invariant rest <= registry.Keys && seen == registry.Keys - rest
      invariant forall path | path in seen :: registry[path].version != ""
      invariant forall e :: e in out <==> Authored(registry, e) && e.path in seen
      invariant DistinctKeys(out, ByPath())
    {
      var path :| path in rest;
      var sub := registry[path];
      if sub.version == "" {
        return None;
      }
      var e := Entry(path, sub.version, sub.enable.None? || sub.enable.value);
      NewKey(out, e);
      out := out + [e];
      seen := seen + {path};
      rest := rest - {path};
    }
    for i := 0 to |claims|
      invariant seen == registry.Keys + set c | c in claims[..i] :: c.catalog
      invariant forall e :: e in out <==> Authored(registry, e) || Claimed(registry, claims[..i], e)
      invariant DistinctKeys(out, ByPath())
    {
      assert claims[..i + 1] == claims[..i] + [claims[i]];
      ClaimedStep(registry, claims, i);
      if claims[i].catalog in seen {
        continue;
      }
      var e := Entry(claims[i].catalog, claims[i].version, true);
      NewKey(out, e);
      out := out + [e];
      seen := seen + {claims[i].catalog};
    }
    assert claims[..|claims|] == claims;
    SortMembers(out, ByPath());
    SortAscending(out, ByPath());
    entries := Some(SortBy(out, ByPath()));
  }

  lemma NewKey(out: seq<Entry>, e: Entry)
    requires DistinctKeys(out, ByPath()) && forall d | d in out :: d.path != e.path
    ensures DistinctKeys(out + [e], ByPath())
  {
    assert forall i | 0 <= i < |out| :: out[i] in out;
  }

  lemma ClaimedStep(registry: map<string, Subscription>, claims: seq<Registration>, i: nat)
    requires i < |claims|
    ensures forall e :: Claimed(registry, claims[..i + 1], e) <==>
              Claimed(registry, claims[..i], e)
              || (e == Entry(claims[i].catalog, claims[i].version, true) && e.path !in registry
                  && forall c | c in claims[..i] :: c.catalog != e.path)
  {
    forall e
      ensures Claimed(registry, claims[..i + 1], e) <==>
              Claimed(registry, claims[..i], e)
              || (e == Entry(claims[i].catalog, claims[i].version, true) && e.path !in registry
                  && forall c | c in claims[..i] :: c.catalog != e.path)
    {
      if k: nat :| FirstOfCatalog(claims[..i], k, e.path, e.version) {
        assert FirstOfCatalog(claims[..i + 1], k, e.path, e.version);
      }
      if e == Entry(claims[i].catalog, claims[i].version, true) && e.path !in registry
         && forall c | c in claims[..i] :: c.catalog != e.path {
        assert forall j | 0 <= j < i :: claims[..i][j] in claims[..i];
        assert FirstOfCatalog(claims[..i + 1], i, e.path, e.version);
      }
      var longer := claims[..i + 1];
      if k: nat :| FirstOfCatalog(longer, k, e.path, e.version) {
        if k < i {
          assert FirstOfCatalog(claims[..i], k, e.path, e.version);
        } else {
          assert forall j | 0 <= j < i :: claims[..i + 1][j] == claims[..i][j];
        }
      }
    }
  }

  // ---- the identity names the content -------------------------------------

  ghost predicate DistinctCatalogs(claims: seq<Registration>) {
    forall i, j | 0 <= i < j < |claims| :: claims[i].catalog != claims[j].catalog
  }

  ghost predicate PlainCoordinates(claims: seq<Registration>) {
    forall i | 0 <= i < |claims| :: '@' !in claims[i].version && ',' !in claims[i].catalog && ',' !in claims[i].version
  }

  function Names(claims: seq<Registration>): seq<string> {
    Map(Map(claims, CoordinateOf()), NameOf())
  }

  /** The last '@' of a coordinate's name ends its catalog. */
  lemma NameSplits(a: Coordinate, b: Coordinate)
    requires '@' !in a.version && '@' !in b.version && a.Name() == b.Name()
    ensures a == b
  {
    SplitsAtLast(a.catalog, '@', a.version, b.catalog, b.version);
  }

  lemma NamesMember(claims: seq<Registration>, i: nat)
    requires i < |claims|
    ensures Names(claims)[i] == Coordinate(claims[i].catalog, claims[i].version).Name()
              && Names(claims)[i] in Names(claims)
  {
  }

  /** Each catalog that the registry does not name has one version among the claims. */
  ghost predicate OneVersionEach(registry: map<string, Subscription>, claims: seq<Registration>) {
    forall i, j | 0 <= i < |claims| && 0 <= j < |claims| && claims[i].catalog == claims[j].catalog
        && claims[i].catalog !in registry ::
      claims[i].version == claims[j].version
  }

  /** Claims of equal coordinate names: every claim of one list has its
      coordinate in the other. */
  lemma CoordinateInBoth(a: seq<Registration>, b: seq<Registration>, i: nat) returns (k: nat)
    requires PlainCoordinates(a) && PlainCoordinates(b) && i < |a|
    requires forall x :: x in Names(a) ==> x in Names(b)
    ensures k < |b| && b[k].catalog == a[i].catalog && b[k].version == a[i].version
  {
    NamesMember(a, i);
    k :| 0 <= k < |Names(b)| && Names(b)[k] == Names(a)[i];
    NamesMember(b, k);
    NameSplits(Coordinate(a[i].catalog, a[i].version), Coordinate(b[k].catalog, b[k].version));
  }

  lemma {:induction false} FirstExists(claims: seq<Registration>, i: nat) returns (k: nat)
    requires i < |claims|
    ensures k <= i && FirstOfCatalog(claims, k, claims[i].catalog, claims[k].version)
  {
    k := 0;
    while claims[k].catalog != claims[i].catalog
      invariant k <= i && forall j | 0 <= j < k :: claims[j].catalog != claims[i].catalog
      decreases i - k
    {
      k := k + 1;
    }
  }

  /** Of two lists with the same coordinates, one of them with one version for
      each unregistered catalog, what one list puts in the package the other does. */
  lemma ClaimedAlike(registry: map<string, Subscription>, one: seq<Registration>, a: seq<Registration>,
          b: seq<Registration>, e: Entry)
    requires OneVersionEach(registry, one) && one in [a, b] && PlainCoordinates(a) && PlainCoordinates(b)
    requires forall x :: x in Names(a) <==> x in Names(b)
    requires Claimed(registry, a, e)
    ensures Claimed(registry, b, e)
  {
    var i: nat :| FirstOfCatalog(a, i, e.path, e.version);
    var k := CoordinateInBoth(a, b, i);
    var f := FirstExists(b, k);
    var m := CoordinateInBoth(b, a, f);
    assert one == a ==> a[m].version == a[i].version;
    assert FirstOfCatalog(b, f, e.path, e.version);
  }

  lemma PlainNames(claims: seq<Registration>)
    requires PlainCoordinates(claims)
    ensures NoComma(Names(claims))
  {
    forall i | 0 <= i < |Names(claims)|
      ensures ',' !in Names(claims)[i]
    {
      NamesMember(claims, i);
    }
  }

  lemma EqualIdentityEqualNames(g: nat, a: seq<Registration>, b: seq<Registration>)
    requires PlainCoordinates(a) && PlainCoordinates(b)
    ensures IdentityOf(g, Map(a, CoordinateOf())) == IdentityOf(g, Map(b, CoordinateOf()))
            <==> forall x :: x in Names(a) <==> x in Names(b)
  {
    PlainNames(a);
    PlainNames(b);
    IdentityIsCanonical(g, Map(a, CoordinateOf()), g, Map(b, CoordinateOf()));
  }

  ghost predicate SameClaimed(registry: map<string, Subscription>, a: seq<Registration>, b: seq<Registration>) {
    forall e :: Claimed(registry, a, e) <==> Claimed(registry, b, e)
  }

  /** Every list of the same identity puts the same in the package. */
  ghost predicate NamesContent(registry: map<string, Subscription>, g: nat, a: seq<Registration>) {
    forall b | PlainCoordinates(b) && IdentityOf(g, Map(a, CoordinateOf())) == IdentityOf(g, Map(b, CoordinateOf())) ::
      SameClaimed(registry, a, b)
  }

  lemma RepeatKeepsNames(a: seq<Registration>, x: nat)
    requires x < |a|
    ensures forall n :: n in Names([a[x]] + a) <==> n in Names(a)
    ensures PlainCoordinates(a) ==> PlainCoordinates([a[x]] + a)
  {
    var b := [a[x]] + a;
    assert forall m | 0 <= m < |b| :: b[m] == a[if m == 0 then x else m - 1];
    forall n | n in Names(a)
      ensures n in Names(b)
    {
      var m :| 0 <= m < |Names(a)| && Names(a)[m] == n;
      assert Names(b)[m + 1] == n;
    }
    forall n | n in Names(b)
      ensures n in Names(a)
    {
      var m :| 0 <= m < |Names(b)| && Names(b)[m] == n;
      assert Names(a)[if m == 0 then x else m - 1] == n;
    }
  }

  /** A claim put in front decides its catalog. */
  lemma FrontDecides(registry: map<string, Subscription>, a: seq<Registration>, x: nat, k: nat)
    requires x < |a| && k < |a| && a[x].catalog !in registry && a[x].version != a[k].version
    requires FirstOfCatalog(a, k, a[x].catalog, a[k].version)
    ensures !SameClaimed(registry, a, [a[x]] + a)
  {
    var b, e := [a[x]] + a, Entry(a[x].catalog, a[x].version, true);
    assert FirstOfCatalog(b, 0, e.path, e.version);
    assert Claimed(registry, b, e);
    assert forall m: nat :: FirstOfCatalog(a, m, e.path, e.version) ==> m == k;
    assert !Claimed(registry, a, e);
  }

  /** Two claims of one unregistered catalog with different versions always
      have a list of the same identity and another content: the claim that
      does not decide, put in front. */
  lemma SameCatalogBreaksContent(registry: map<string, Subscription>, g: nat, a: seq<Registration>)
    returns (b: seq<Registration>)
    requires PlainCoordinates(a) && !OneVersionEach(registry, a)
    ensures PlainCoordinates(b) && IdentityOf(g, Map(a, CoordinateOf())) == IdentityOf(g, Map(b, CoordinateOf()))
    ensures (forall c | c in b :: c in a) && !SameClaimed(registry, a, b)
  {
    hide IdentityOf;
    hide Names;
    hide SameClaimed;
    var i, j :| 0 <= i < |a| && 0 <= j < |a| && a[i].catalog == a[j].catalog && a[i].catalog !in registry
        && a[i].version != a[j].version;
    var k := FirstExists(a, i);
    var x := if a[i].version != a[k].version then i else j;
    b := [a[x]] + a;
    RepeatKeepsNames(a, x);
    EqualIdentityEqualNames(g, a, b);
    FrontDecides(registry, a, x, k);
  }

  /** The identity of plain claims names the package content exactly when each
      catalog that the registry does not name has one version among them. */
  lemma IdentityNamesContentIff(registry: map<string, Subscription>, g: nat, a: seq<Registration>)
    requires PlainCoordinates(a)
    ensures NamesContent(registry, g, a) <==> OneVersionEach(registry, a)
  {
    hide IdentityOf;
    if OneVersionEach(registry, a) {
      forall b | PlainCoordinates(b) && IdentityOf(g, Map(a, CoordinateOf())) == IdentityOf(g, Map(b, CoordinateOf()))
        ensures SameClaimed(registry, a, b)
      {
        EqualIdentityEqualNames(g, a, b);
        forall e
          ensures Claimed(registry, a, e) <==> Claimed(registry, b, e)
        {
          if Claimed(registry, a, e) { ClaimedAlike(registry, a, a, b, e); }
          if Claimed(registry, b, e) { ClaimedAlike(registry, a, b, a, e); }
        }
      }
    } else {
      var b := SameCatalogBreaksContent(registry, g, a);
      assert !SameClaimed(registry, a, b);
    }
  }

  /** For one Platform spec equal identities mean equal entries, as soon as one
      of the two lists has one version for each unregistered catalog. */
  lemma IdentityNamesContent(registry: map<string, Subscription>, g: nat, a: seq<Registration>, b: seq<Registration>,
                             ea: seq<Entry>, eb: seq<Entry>)
    requires OneVersionEach(registry, a) && PlainCoordinates(a) && PlainCoordinates(b)
    requires IdentityOf(g, Map(a, CoordinateOf())) == IdentityOf(g, Map(b, CoordinateOf()))
    requires EntriesOf(registry, a, ea) && EntriesOf(registry, b, eb)
    ensures ea == eb
  {
    hide IdentityOf;
    IdentityNamesContentIff(registry, g, a);
    assert SameClaimed(registry, a, b);
    AscendingUnique(ea, eb, ByPath());
  }

  // ---- the active set over runs of the claims -----------------------------

  /** While no creation undercuts a standing claim, the active set has at most
      one claim of a catalog. */
  lemma ActiveSetHasDistinctCatalogs(states: seq<P.State>, steps: seq<P.Step>, i: nat, list: seq<Registration>)
    requires P.Run(states, steps) && i <= |steps| && forall k | 0 <= k < i :: !P.Undercuts(states[k], steps[k])
    requires P.Fresh(list, states[i].claims) && DistinctKeys(list, ByName())
    ensures DistinctCatalogs(Active(list)) && OneVersionEach(map[], Active(list))
  {
    hide P.Undercuts;
    var kept, active := Filter(list, Contributing()), Active(list);
    FilterMembers(list, Contributing());
    FilterKeepsDistinctKeys(list);
    SortMembers(kept, ByName());
    SortAscending(kept, ByName());
    forall m, n | 0 <= m < n < |active|
      ensures active[m].catalog != active[n].catalog
    {
      assert active[m] in active && active[n] in active;
      assert P.Standing(states[i], active[m].name) && P.Standing(states[i], active[n].name);
      assert Less(ByName()(active[m]), ByName()(active[n]));
      Trichotomy(active[m].name, active[n].name);
      if active[m].catalog == active[n].catalog {
        P.OneAcceptedPerCatalog(states, steps, i, active[m].name, active[n].name);
      }
    }
  }

  /** So over such a run the identity of the active set names its package. */
  lemma ActiveIdentityNamesContent(states: seq<P.State>, steps: seq<P.Step>, i: nat, list: seq<Registration>,
                                   registry: map<string, Subscription>, g: nat)
    requires P.Run(states, steps) && i <= |steps| && forall k | 0 <= k < i :: !P.Undercuts(states[k], steps[k])
    requires P.Fresh(list, states[i].claims) && DistinctKeys(list, ByName()) && PlainCoordinates(Active(list))
    ensures NamesContent(registry, g, Active(list))
  {
    ActiveSetHasDistinctCatalogs(states, steps, i, list);
    IdentityNamesContentIff(registry, g, Active(list));
  }

  function Only(catalog: string, version: string): seq<Registration> {
    [Registration("claim", catalog, version, [], 0, true, true, false, true)]
  }

  /** Every version that holds an '@' has, for every catalog, another catalog
      and a plain version of the same identity and another content. */
  lemma AtSignBreaksContent(g: nat, catalog: string, version: string) returns (other: string, plain: string)
    requires '@' in version
    ensures '@' !in plain && other != catalog
    ensures IdentityOf(g, Map(Only(catalog, version), CoordinateOf())) ==
              IdentityOf(g, Map(Only(other, plain), CoordinateOf()))
    ensures !SameClaimed(map[], Only(catalog, version), Only(other, plain))
  {
    hide IdentityOf;
    other, plain := AnotherSplit(catalog, '@', version);
    var a, b, e := Only(catalog, version), Only(other, plain), Entry(catalog, version, true);
    NamesMember(a, 0);
    NamesMember(b, 0);
    assert Names(a) == Names(b);
    EqualSetsEqualIdentity(g, Map(a, CoordinateOf()), Map(b, CoordinateOf()));
    assert FirstOfCatalog(a, 0, catalog, version);
    assert Claimed(map[], a, e);
    assert forall i: nat :: !FirstOfCatalog(b, i, catalog, version);
    assert !Claimed(map[], b, e);
  }

  // ---- suppressed events --------------------------------------------------

  /** claimContribution: the coordinate a claim adds to the active set, if any. */
  function Contribution(c: Registration): Option<Coordinate> {
    if !c.accepted || !c.active then None
    else if c.deleting && !c.guarded then None
    else Some(Coordinate(c.catalog, c.version))
  }

  datatype Event = Created(claim: Registration) | Deleted(claim: Registration) | Updated(before: Registration,
          after: Registration)

  /** claimContributionPredicate. */
  predicate Passes(e: Event) {
    match e
    case Created(c) => Contribution(c).Some?
    case Deleted(c) => Contribution(c).Some?
    case Updated(before, after) => Contribution(before) != Contribution(after)
  }

  /** The list after the event holds the claims of the list before it, with the
      event's claim added, gone or replaced, in any order. */
  ghost predicate Moves(before: seq<Registration>, e: Event, after: seq<Registration>) {
    && DistinctKeys(before, ByName()) && DistinctKeys(after, ByName())
    && match e
       case Created(c) => multiset(after) == multiset(before) + multiset{c}
       case Deleted(c) => multiset(before) == multiset(after) + multiset{c}
       case Updated(c, d) => c.name == d.name && multiset(after) + multiset{c} == multiset(before) + multiset{d}
  }

  datatype Contributor = Contributor(name: string, coordinate: Coordinate)

  function AsContributor(): Registration -> Contributor {
    (c: Registration) => Contributor(c.name, Coordinate(c.catalog, c.version))
  }

  function ByContributor(): Contributor -> string {
    (c: Contributor) => c.name
  }

  ghost predicate Contributed(list: seq<Registration>, x: Contributor) {
    exists c :: c in list && c.Contributes() && AsContributor()(c) == x
  }

  lemma ActiveByName(list: seq<Registration>)
    requires DistinctKeys(list, ByName())
    ensures Ascending(Map(Active(list), AsContributor()), ByContributor())
    ensures forall x :: x in Map(Active(list), AsContributor()) <==> Contributed(list, x)
  {
    var kept := Filter(list, Contributing());
    FilterMembers(list, Contributing());
    FilterKeepsDistinctKeys(list);
    SortMembers(kept, ByName());
    SortAscending(kept, ByName());
    var out := Map(Active(list), AsContributor());
    forall i, j | 0 <= i < j < |out|
      ensures Less(ByContributor()(out[i]), ByContributor()(out[j]))
    {
      assert Less(ByName()(Active(list)[i]), ByName()(Active(list)[j]));
    }
    forall x
      ensures x in out <==> Contributed(list, x)
    {
      if x in out {
        var i :| 0 <= i < |out| && out[i] == x;
        assert Active(list)[i] in Active(list);
        assert Active(list)[i] in kept;
      }
      if c :| c in list && c.Contributes() && AsContributor()(c) == x {
        assert c in Active(list);
        var i :| 0 <= i < |Active(list)| && Active(list)[i] == c;
        assert out[i] == x;
      }
    }
  }

  lemma {:induction false} FilterKeepsDistinctKeys(list: seq<Registration>)
    requires DistinctKeys(list, ByName())
    ensures DistinctKeys(Filter(list, Contributing()), ByName())
  {
    if list != [] {
      var init := list[..|list| - 1];
      assert DistinctKeys(init, ByName());
      FilterKeepsDistinctKeys(init);
      FilterMembers(init, Contributing());
      var kept := Filter(init, Contributing());
      forall i | 0 <= i < |kept|
        ensures ByName()(kept[i]) != ByName()(list[|list| - 1])
      {
        assert kept[i] in kept;
        var k :| 0 <= k < |init| && init[k] == kept[i];
        assert list[k] == kept[i];
      }
    }
  }

  lemma IdleClaimAddsNothing(list: seq<Registration>, c: Registration, longer: seq<Registration>, x: Contributor)
    requires multiset(longer) == multiset(list) + multiset{c} && !c.Contributes()
    ensures Contributed(list, x) <==> Contributed(longer, x)
  {
    forall d: Registration
      ensures d in longer <==> d in list || d == c
    {
      assert d in longer <==> d in multiset(list) + multiset{c};
    }
  }

  lemma ReplacedAlike(from: seq<Registration>, c: Registration, d: Registration, to: seq<Registration>, x: Contributor)
    requires multiset(to) + multiset{c} == multiset(from) + multiset{d}
    requires c.name == d.name && Contribution(c) == Contribution(d)
    requires Contributed(from, x)
    ensures Contributed(to, x)
  {
    var b :| b in from && b.Contributes() && AsContributor()(b) == x;
    assert b in multiset(to) + multiset{c} by { assert b in multiset(from); }
    if b == c {
      assert d in multiset(to) + multiset{c};
      assert d in to;
      assert AsContributor()(d) == x;
    } else {
      assert b in to;
    }
  }

  lemma MovesKeepsContributors(before: seq<Registration>, e: Event, after: seq<Registration>, x: Contributor)
    requires Moves(before, e, after) && !Passes(e)
    ensures Contributed(before, x) <==> Contributed(after, x)
  {
    match e {
      case Created(c) => IdleClaimAddsNothing(before, c, after, x);
      case Deleted(c) => IdleClaimAddsNothing(after, c, before, x);
      case Updated(c, d) =>
        if Contributed(before, x) { ReplacedAlike(before, c, d, after, x); }
        if Contributed(after, x) { ReplacedAlike(after, d, c, before, x); }
    }
  }

  /** A suppressed event is harmless: the active set before and after it has
      the same claims with the same coordinates in the same order, so also the
      same package identity. */
  lemma SuppressedEventsChangeNothing(before: seq<Registration>, e: Event, after: seq<Registration>, g: nat)
    requires Moves(before, e, after) && !Passes(e)
    ensures Map(Active(before), AsContributor()) == Map(Active(after), AsContributor())
    ensures Map(Active(before), CoordinateOf()) == Map(Active(after), CoordinateOf())
    ensures IdentityOf(g, Map(Active(before), CoordinateOf())) == IdentityOf(g, Map(Active(after), CoordinateOf()))
  {
    ActiveByName(before);
    ActiveByName(after);
    hide Moves;
    hide Passes;
    hide IdentityOf;
    var a, b := Map(Active(before), AsContributor()), Map(Active(after), AsContributor());
    forall x
      ensures x in a <==> x in b
    {
      MovesKeepsContributors(before, e, after, x);
    }
    AscendingUnique(a, b, ByContributor());
    forall i | 0 <= i < |a|
      ensures CoordinateOf()(Active(before)[i]) == CoordinateOf()(Active(after)[i])
    {
      assert a[i] == b[i];
    }
  }

  lemma {:induction false} NoRepeats(list: seq<Registration>, c: Registration)
    requires DistinctKeys(list, ByName())
    ensures multiset(list)[c] <= 1
  {
    if list != [] {
      var init := list[..|list| - 1];
      assert list == init + [list[|list| - 1]];
      assert DistinctKeys(init, ByName());
      NoRepeats(init, c);
      forall k | 0 <= k < |init|
        ensures init[k] != list[|list| - 1]
      {
        assert ByName()(list[k]) != ByName()(list[|list| - 1]);
      }
    }
  }

  /** In a list of distinct names a claim alone decides what its name contributes. */
  lemma ContributionOf(list: seq<Registration>, c: Registration, at: Coordinate)
    requires DistinctKeys(list, ByName()) && c in list
    ensures Contributed(list, Contributor(c.name, at)) <==> Contribution(c) == Some(at)
  {
    if d :| d in list && d.Contributes() && AsContributor()(d) == Contributor(c.name, at) {
      var i :| 0 <= i < |list| && list[i] == c;
      var j :| 0 <= j < |list| && list[j] == d;
      assert ByName()(list[i]) == ByName()(list[j]);
    }
  }

  /** A passed event does change the active set: nothing wakes the reconciler
      for the set it already has. */
  lemma PassedEventsChangeTheSet(before: seq<Registration>, e: Event, after: seq<Registration>)
    requires Moves(before, e, after) && Passes(e)
    ensures Map(Active(before), AsContributor()) != Map(Active(after), AsContributor())
  {
    ActiveByName(before);
    ActiveByName(after);
    match e {
      case Created(c) => OnlyAfter(before, c, after);
      case Deleted(c) => OnlyAfter(after, c, before);
      case Updated(c, d) =>
        assert c != d;
        assert c in multiset(before) + multiset{d} && d in multiset(after) + multiset{c};
        assert c in multiset(before) && d in multiset(after);
        assert c in before && d in after;
        var at := if Contribution(c).Some? then Contribution(c).value else Contribution(d).value;
        ContributionOf(before, c, at);
        ContributionOf(after, d, at);
        assert Contributed(before, Contributor(c.name, at)) != Contributed(after, Contributor(c.name, at));
    }
  }

  lemma OnlyAfter(before: seq<Registration>, c: Registration, after: seq<Registration>)
    requires DistinctKeys(before, ByName()) && DistinctKeys(after, ByName())
    requires multiset(after) == multiset(before) + multiset{c} && c.Contributes()
    ensures Contributed(after, AsContributor()(c)) && !Contributed(before, AsContributor()(c))
  {
    assert c in multiset(after);
    assert c in after;
    if d :| d in before && d.Contributes() && AsContributor()(d) == AsContributor()(c) {
      assert d in multiset(before) && d in multiset(after);
      var i :| 0 <= i < |after| && after[i] == c;
      var j :| 0 <= j < |after| && after[j] == d;
      assert ByName()(after[i]) == ByName()(after[j]);
      NoRepeats(after, c);
    }
  }
}
