/** The facts the claim controllers read of TransformerRegistrations and ModuleInstances. */
module Registrations {
  import opened Order
  import opened Seqs

  /** A claim that a provider catalog implements contracts; created is its
      creationTimestamp, guarded says that it carries the guard finalizer. */
  datatype Registration = Registration(
    name: string, catalog: string, version: string, contracts: seq<string>, created: int,
    accepted: bool, active: bool, deleting: bool, guarded: bool)
  {
    /** Marked for deletion and no longer held by the guard. */
    predicate Released() {
      deleting && !guarded
    }

    /** The claim's half of the platform package: the Platform reads it exactly then. */
    predicate Contributes() {
      accepted && active && !Released()
    }
  }

  /** A ModuleInstance with the contracts its rendered components demand. */
  datatype Instance = Instance(namespace: string, name: string, required: seq<string>)

  function FullName(): Instance -> string {
    (i: Instance) => i.namespace + "/" + i.name
  }

  function ByName(): Registration -> string {
    (c: Registration) => c.name
  }

  ghost predicate DemandsOne(i: Instance, contracts: seq<string>) {
    exists f :: f in i.required && f in contracts
  }

  ghost predicate Shared(a: Registration, b: Registration) {
    exists f :: f in a.contracts && f in b.contracts
  }
}

/** The judgement of one claim
    (internal/controller/transformerregistration_controller.go,
    transformerregistration_contracts.go, transformerregistration_dependents.go). */
module ClaimJudgement {
  import opened Options
  import opened Order
  import opened Registrations
  import opened Seqs

  // ---- one holder per catalog ---------------------------------------------

  /** The earlier creationTimestamp, on a tie the lower name. */
  predicate Older(a: Registration, b: Registration) {
    if a.created == b.created then Less(a.name, b.name) else a.created < b.created
  }

  predicate Competes(o: Registration, claim: Registration) {
    o.name != claim.name && o.catalog == claim.catalog && !o.Released()
  }

  /** No competitor is older: the claim holds its catalog. */
  ghost predicate HoldsCatalog(list: seq<Registration>, claim: Registration) {
    forall o | o in list && Competes(o, claim) :: !Older(o, claim)
  }

  lemma OlderTransitive(a: Registration, b: Registration, c: Registration)
    requires Older(a, b) && Older(b, c)
    ensures Older(a, c)
  {
    if a.created == b.created == c.created {
      Transitive(a.name, b.name, c.name);
    }
  }

  lemma OlderTotal(a: Registration, b: Registration)
    ensures !(Older(a, b) && Older(b, a))
    ensures a.name != b.name ==> Older(a, b) || Older(b, a)
  {
    Trichotomy(a.name, b.name);
  }

  /** The oldest competitor older than the claim, or none when the claim holds its catalog. */
  method HolderOf(list: seq<Registration>, claim: Registration) returns (holder: Option<string>)
    ensures holder.None? <==> HoldsCatalog(list, claim)
    ensures holder.Some? ==> exists h ::
              && h in list && Competes(h, claim) && h.name == holder.value && Older(h, claim)
              && forall o | o in list && Competes(o, claim) :: !Older(o, h)
  {
    var oldest := claim;
    for i := 0 to |list|
      invariant oldest == claim || (oldest in list[..i] && Competes(oldest, claim) && Older(oldest, claim))
      invariant forall o | o in list[..i] && Competes(o, claim) :: !Older(o, oldest)
    {
      var o := list[i];
      assert list[..i + 1] == list[..i] + [o];
      if o.name == claim.name || o.catalog != claim.catalog {
        continue;
      }
      if o.deleting && !o.guarded {
        continue;
      }
      OlderTotal(o, o);
      if Older(o, oldest) {
        if oldest != claim { OlderTransitive(o, oldest, claim); }
        forall p | p in list[..i] && Competes(p, claim)
          ensures !Older(p, o)
        {
          if Older(p, o) { OlderTransitive(p, o, oldest); }
        }
        oldest := o;
      }
    }
    assert list[..|list|] == list;
    OlderTotal(claim, claim);
    holder := if oldest.name == claim.name then None else Some(oldest.name);
  }

  /** At most one unreleased claim of a catalog is its own holder, whatever the
      order of the list. */
  lemma OneHolderPerCatalog(list: seq<Registration>, a: Registration, b: Registration)
    requires a in list && b in list && a.catalog == b.catalog && !a.Released() && !b.Released()
    requires HoldsCatalog(list, a) && HoldsCatalog(list, b)
    ensures a.name == b.name
  {
    OlderTotal(a, b);
  }

  // ---- one provider per contract ------------------------------------------

  predicate OtherProvider(providers: map<string, seq<string>>, own: string, fqn: string) {
    fqn in providers && exists held :: held in providers[fqn] && held != own
  }

  ghost predicate NotSubscribed(contracts: seq<string>, providers: map<string, seq<string>>, own: string) {
    forall f | f in contracts :: !OtherProvider(providers, own, f)
  }

  method SubscribedContract(contracts: seq<string>, providers: map<string, seq<string>>, own: string)
    returns (found: Option<(string, string)>)
    ensures found.None? <==> NotSubscribed(contracts, providers, own)
    ensures found.Some? ==>
              var (fqn, entry) := found.value;
              && fqn in contracts && fqn in providers && entry in providers[fqn] && entry != own
              && forall f | f in contracts && OtherProvider(providers, own, f) :: !Less(f, fqn)
  {
    var sorted := Sorted(contracts);
    SortedIsSorted(contracts);
    for i := 0 to |sorted|
      invariant forall k | 0 <= k < i :: !OtherProvider(providers, own, sorted[k])
    {
      var fqn := sorted[i];
      var entries := if fqn in providers then providers[fqn] else [];
      for j := 0 to |entries|
        invariant forall k | 0 <= k < j :: entries[k] == own
      {
        if entries[j] == own {
          continue;
        }
        assert sorted[i] in contracts && entries[j] in providers[fqn];
        assert OtherProvider(providers, own, fqn);
        forall f | f in contracts && OtherProvider(providers, own, f)
          ensures !Less(f, fqn)
        {
          assert f in sorted;
          var k :| 0 <= k < |sorted| && sorted[k] == f;
          Trichotomy(f, fqn);
        }
        return Some((fqn, entries[j]));
      }
    }
    found := None;
    assert forall f | f in contracts :: f in sorted;
  }

  predicate Holds(o: Registration, claim: Registration) {
    o.name != claim.name && o.active && !o.Released()
  }

  /** No active unreleased claim beside this one provides a contract of it. */
  ghost predicate ContractsFree(list: seq<Registration>, claim: Registration) {
    forall o | o in list && Holds(o, claim) :: !Shared(claim, o)
  }

  function Holding(claim: Registration): Registration -> bool {
    (o: Registration) => Holds(o, claim)
  }

  /** The active unreleased claims beside this one, in name order. */
  method OtherHolders(list: seq<Registration>, claim: Registration) returns (others: seq<Registration>)
    ensures IsSortedBy(others, ByName())
    ensures forall o :: o in others <==> o in list && Holds(o, claim)
  {
    others := [];
    for i := 0 to |list|
      invariant others == Filter(list[..i], Holding(claim))
    {
      FilterStep(list, i, Holding(claim));
      var other := list[i];
      if other.name == claim.name || !other.active {
        continue;
      }
      if other.deleting && !other.guarded {
        continue;
      }
      others := others + [other];
    }
    FilterAll(list, Holding(claim));
    FilterMembers(list, Holding(claim));
    SortMembers(others, ByName());
    SortSorts(others, ByName());
    others := SortBy(others, ByName());
  }

  /** The first contract the claim shares with an active unreleased claim, and that claim's name. */
  method ActiveContractHolder(list: seq<Registration>, claim: Registration) returns (found: Option<(string, string)>)
    ensures found.None? <==> ContractsFree(list, claim)
    ensures found.Some? ==> exists o ::
              && o in list && Holds(o, claim) && o.name == found.value.1
              && found.value.0 in claim.contracts && found.value.0 in o.contracts
              && (forall f | f in claim.contracts && f in o.contracts :: !Less(f, found.value.0))
              && (forall p | p in list && Holds(p, claim) && Shared(claim, p) :: !Less(p.name, o.name))
  {
    hide Holds;
    var claimed := Sorted(claim.contracts);
    SortedIsSorted(claim.contracts);
    var others := OtherHolders(list, claim);
    for i := 0 to |others|
      invariant forall k | 0 <= k < i :: !Shared(claim, others[k])
    {
      var other := others[i];
      for j := 0 to |claimed|
        invariant forall k | 0 <= k < j :: claimed[k] !in other.contracts
      {
        if claimed[j] in other.contracts {
          LeastShared(claim, others, claimed, i, j);
          assert claimed[j] in claimed && others[i] in others;
          return Some((claimed[j], other.name));
        }
      }
      assert !Shared(claim, other) by { assert forall f | f in claim.contracts :: f in claimed; }
    }
    found := None;
    assert forall o | o in list && Holds(o, claim) :: o in others;
  }

  lemma LeastShared(claim: Registration, others: seq<Registration>, claimed: seq<string>, i: nat, j: nat)
    requires i < |others| && j < |claimed| && IsSortedBy(others, ByName()) && IsSorted(claimed)
    requires forall x :: x in claimed <==> x in claim.contracts
    requires forall k | 0 <= k < i :: !Shared(claim, others[k])
    requires forall k | 0 <= k < j :: claimed[k] !in others[i].contracts
    ensures forall f | f in claim.contracts && f in others[i].contracts :: !Less(f, claimed[j])
    ensures forall p | p in others && Shared(claim, p) :: !Less(p.name, others[i].name)
  {
    forall f | f in claim.contracts && f in others[i].contracts
      ensures !Less(f, claimed[j])
    {
      assert f in claimed;
      var k :| 0 <= k < |claimed| && claimed[k] == f;
      Trichotomy(f, f);
    }
    forall p | p in others && Shared(claim, p)
      ensures !Less(p.name, others[i].name)
    {
      var k :| 0 <= k < |others| && others[k] == p;
      Trichotomy(p.name, p.name);
      assert ByName()(others[k]) == p.name && ByName()(others[i]) == others[i].name;
    }
  }

  // ---- who depends on a claim ---------------------------------------------

  function Demanding(contracts: seq<string>): Instance -> bool {
    (i: Instance) => exists k :: 0 <= k < |i.required| && i.required[k] in contracts
  }

  method Dependents(instances: seq<Instance>, claim: Registration) returns (names: seq<string>)
    ensures names == Sorted(Map(Filter(instances, Demanding(claim.contracts)), FullName()))
    ensures names == [] <==> forall i | i in instances :: !DemandsOne(i, claim.contracts)
    ensures forall n :: n in names <==>
              exists i :: i in instances && DemandsOne(i, claim.contracts) && n == i.namespace + "/" + i.name
  {
    var found: seq<string> := [];
    for i := 0 to |instances|
      invariant found == Map(Filter(instances[..i], Demanding(claim.contracts)), FullName())
    {
      FilterStep(instances, i, Demanding(claim.contracts));
      var instance := instances[i];
      var k := 0;
      while k < |instance.required| && instance.required[k] !in claim.contracts
        invariant k <= |instance.required|
        invariant forall m | 0 <= m < k :: instance.required[m] !in claim.contracts
      {
        k := k + 1;
      }
      if k < |instance.required| {
        found := found + [instance.namespace + "/" + instance.name];
      }
    }
    FilterAll(instances, Demanding(claim.contracts));
    FilterMembers(instances, Demanding(claim.contracts));
    SortedIsSorted(found);
    names := Sorted(found);
    var kept := Filter(instances, Demanding(claim.contracts));
    assert kept == [] <==> forall i | i in instances :: !Demanding(claim.contracts)(i) by {
      if kept != [] { assert kept[0] in kept; }
    }
    forall i | i in instances
      ensures Demanding(claim.contracts)(i) <==> DemandsOne(i, claim.contracts)
    {
      if f :| f in i.required && f in claim.contracts {
        var m :| 0 <= m < |i.required| && i.required[m] == f;
      }
    }
    MappedNames(kept, names);
  }

  lemma MappedNames(kept: seq<Instance>, names: seq<string>)
    requires names == Sorted(Map(kept, FullName()))
    ensures forall n :: n in names <==> exists i :: i in kept && n == i.namespace + "/" + i.name
  {
    var all := Map(kept, FullName());
    SortedIsSorted(all);
    forall n
      ensures n in names <==> exists i :: i in kept && n == i.namespace + "/" + i.name
    {
      if n in names {
        var k :| 0 <= k < |all| && all[k] == n;
        assert kept[k] in kept && n == kept[k].namespace + "/" + kept[k].name;
      }
      if i :| i in kept && n == i.namespace + "/" + i.name {
        var k :| 0 <= k < |kept| && kept[k] == i;
        assert all[k] == n;
      }
    }
  }

  // ---- the verdict --------------------------------------------------------

  datatype CatalogAnswer = Resolved | WrongKind | Transient | Unresolved

  /** Owned carries whether the provider instance reports Ready=True. */
  datatype ProviderIdentity = Owned(ready: bool) | Pending | NotOwned

  datatype Requirements = Unreadable | Broken | Incompatible | Compatible

  /** What one reconcile of a claim reads of the world: whether a platform is
      generated, the catalog and whether it provides exactly what the claim
      lists, the provider instance, the platform's requirements, whether the
      claims can be listed for each of the two competitor checks, and the
      providers per contract when readable. */
  datatype Facts = Facts(
    platform: bool, catalog: CatalogAnswer, contractsMatch: bool, provider: ProviderIdentity,
    requirements: Requirements, listable: bool, providers: Option<map<string, seq<string>>>, relistable: bool)

  datatype Reason = CatalogWrongKind | CatalogUnresolved | ProvidesMismatch | ProviderMismatch
    | BuildIncompatible | DuplicateClaim | ContractSubscribed | ContractClaimed
    | PlatformNotReady | ProviderInventoryPending

  datatype Verdict = Accept(ready: bool) | Refuse(reason: Reason) | Defer(reason: Reason) | Hold

  /** Every check of an acceptance, in its order. */
  ghost predicate Acceptable(facts: Facts, list: seq<Registration>, claim: Registration) {
    && facts.platform && facts.catalog.Resolved? && facts.contractsMatch && facts.provider.Owned?
    && facts.requirements.Compatible? && facts.listable && HoldsCatalog(list, claim)
    && facts.providers.Some? && NotSubscribed(claim.contracts, facts.providers.value, claim.catalog)
    && facts.relistable && ContractsFree(list, claim)
  }

  /** One check of a judgement: what is concluded when it does not pass. */
  datatype Check = Check(passes: bool, otherwise: Verdict)

  /** The checks in the order in which they are made. stands says that the
      claim is accepted for its present spec; only then does a transient
      registry failure keep the verdict. */
  ghost function Checks(claim: Registration, stands: bool, facts: Facts, list: seq<Registration>): seq<Check> {
    [ Check(facts.platform, Defer(PlatformNotReady)),
      Check(!facts.catalog.WrongKind?, Refuse(CatalogWrongKind)),
      Check(!(facts.catalog.Transient? && stands), Hold),
      Check(facts.catalog.Resolved?, Refuse(CatalogUnresolved)),
      Check(facts.contractsMatch, Refuse(ProvidesMismatch)),
      Check(!facts.provider.Pending?, Defer(ProviderInventoryPending)),
      Check(facts.provider.Owned?, Refuse(ProviderMismatch)),
      Check(!facts.requirements.Unreadable?, Defer(PlatformNotReady)),
      Check(facts.requirements.Compatible?, Refuse(BuildIncompatible)),
      Check(facts.listable, Defer(DuplicateClaim)),
      Check(HoldsCatalog(list, claim), Refuse(DuplicateClaim)),
      Check(facts.providers.Some?, Defer(PlatformNotReady)),
      Check(facts.providers.Some? ==> NotSubscribed(claim.contracts, facts.providers.value, claim.catalog),
          Refuse(ContractSubscribed)),
      Check(facts.relistable, Defer(ContractClaimed)),
      Check(ContractsFree(list, claim), Refuse(ContractClaimed)) ]
  }

  /** Accepted when every check passes, otherwise the conclusion of the first that does not. */
  ghost predicate Decided(claim: Registration, stands: bool, facts: Facts, list: seq<Registration>, v: Verdict) {
    var checks := Checks(claim, stands, facts, list);
    if v.Accept? then facts.provider.Owned? && v.ready == facts.provider.ready && forall i | 0 <= i < |checks| ::
        checks[i].passes
    else exists i :: FirstToFail(checks, i) && v == checks[i].otherwise
  }

  ghost predicate FirstToFail(checks: seq<Check>, i: int) {
    0 <= i < |checks| && !checks[i].passes && forall j | 0 <= j < i :: checks[j].passes
  }

  /** A claim is accepted exactly when it is acceptable, and its verdict held
      exactly when the registry did not answer about an accepted spec. */
  lemma AcceptedIffAcceptable(claim: Registration, stands: bool, facts: Facts, list: seq<Registration>, v: Verdict)
    requires Decided(claim, stands, facts, list, v)
    ensures v.Accept? <==> Acceptable(facts, list, claim)
    ensures v.Hold? <==> facts.platform && facts.catalog.Transient? && stands
  {
    hide HoldsCatalog;
    hide ContractsFree;
    hide NotSubscribed;
    var checks := Checks(claim, stands, facts, list);
    if v.Accept? {
      assert checks[0].passes && checks[3].passes && checks[4].passes && checks[6].passes && checks[8].passes
          && checks[9].passes;
      assert checks[10].passes && checks[11].passes && checks[12].passes && checks[13].passes && checks[14].passes;
    } else {
      var i :| FirstToFail(checks, i) && v == checks[i].otherwise;
      assert i > 0 ==> checks[0].passes;
      assert i > 2 ==> checks[2].passes;
    }
  }

  /** One judgement. */
  method JudgeClaim(claim: Registration, stands: bool, facts: Facts, list: seq<Registration>) returns (v: Verdict)
    ensures Decided(claim, stands, facts, list, v)
  {
    hide HoldsCatalog;
    hide ContractsFree;
    hide NotSubscribed;
    hide Older;
    hide Competes;
    hide Holds;
    hide OtherProvider;
    hide Shared;
    ghost var checks := Checks(claim, stands, facts, list);
    if !facts.platform {
      assert FirstToFail(checks, 0);
      return Defer(PlatformNotReady);
    }
    match facts.catalog {
      case WrongKind =>
        assert FirstToFail(checks, 1);
        return Refuse(CatalogWrongKind);
      case Transient =>
        assert FirstToFail(checks, if stands then 2 else 3);
        return if stands then Hold else Refuse(CatalogUnresolved);
      case Unresolved =>
        assert FirstToFail(checks, 3);
        return Refuse(CatalogUnresolved);
      case Resolved =>
    }
    if !facts.contractsMatch {
      assert FirstToFail(checks, 4);
      return Refuse(ProvidesMismatch);
    }
    match facts.provider {
      case Pending =>
        assert FirstToFail(checks, 5);
        return Defer(ProviderInventoryPending);
      case NotOwned =>
        assert FirstToFail(checks, 6);
        return Refuse(ProviderMismatch);
      case Owned(_) =>
    }
    match facts.requirements {
      case Unreadable =>
        assert FirstToFail(checks, 7);
        return Defer(PlatformNotReady);
      case Broken =>
        assert FirstToFail(checks, 8);
        return Refuse(BuildIncompatible);
      case Incompatible =>
        assert FirstToFail(checks, 8);
        return Refuse(BuildIncompatible);
      case Compatible =>
    }
    if !facts.listable {
      assert FirstToFail(checks, 9);
      return Defer(DuplicateClaim);
    }
    var holder := HolderOf(list, claim);
    if holder.Some? {
      assert FirstToFail(checks, 10);
      return Refuse(DuplicateClaim);
    }
    if facts.providers.None? {
      assert FirstToFail(checks, 11);
      return Defer(PlatformNotReady);
    }
    var subscribed := SubscribedContract(claim.contracts, facts.providers.value, claim.catalog);
    if subscribed.Some? {
      assert FirstToFail(checks, 12);
      return Refuse(ContractSubscribed);
    }
    if !facts.relistable {
      assert FirstToFail(checks, 13);
      return Defer(ContractClaimed);
    }
    var held := ActiveContractHolder(list, claim);
    if held.Some? {
      assert FirstToFail(checks, 14);
      return Refuse(ContractClaimed);
    }
    v := Accept(facts.provider.ready);
  }

  /** What a verdict makes of the claim; activation latches. */
  function Judged(claim: Registration, v: Verdict): Registration {
    match v
    case Accept(ready) => claim.(guarded := true, accepted := true, active := claim.active || ready)
    case Refuse(_) => claim.(accepted := false)
    case _ => claim
  }

  /** A claim as one reconcile holds it in memory. activeCondition is the
      Active condition, none when the claim carries none. */
  class Claim {
    var reg: Registration
    var activeCondition: Option<bool>
    var observed: int
    const generation: int

    ghost predicate Valid()
      reads this
    {
      activeCondition == Some(true) <==> reg.active
    }

    constructor (r: Registration, condition: Option<bool>, seen: int, gen: int)
      ensures reg == r && activeCondition == condition && observed == seen && generation == gen
    {
      reg, activeCondition, observed, generation := r, condition, seen, gen;
    }

    predicate VerdictStands()
      reads this
    {
      reg.accepted && observed == generation
    }

    /** The latch: an active claim returns before the readiness check. */
    method GateActivation(ready: bool)
      requires Valid()
      modifies this`reg, this`activeCondition
      ensures Valid() && reg == old(reg).(active := old(reg).active || ready)
      ensures !reg.active ==> activeCondition == Some(false)
    {
      if reg.active {
        return;
      }
      if !ready {
        activeCondition := Some(false);
        return;
      }
      reg := reg.(active := true);
      activeCondition := Some(true);
    }

    method AcceptClaim(ready: bool)
      requires Valid()
      modifies this
      ensures Valid() && reg == Judged(old(reg), Accept(ready)) && VerdictStands()
      ensures activeCondition.Some?
    {
      reg := reg.(guarded := true);
      observed := generation;
      reg := reg.(accepted := true);
      GateActivation(ready);
    }

    method RefuseClaim(reason: Reason)
      requires Valid()
      modifies this
      ensures Valid() && reg == Judged(old(reg), Refuse(reason)) && !VerdictStands()
      ensures activeCondition.Some? <==> reg.active
    {
      observed := generation;
      reg := reg.(accepted := false);
      if !reg.active {
        activeCondition := None;
      }
    }

    method DeferVerdict()
      modifies this`observed
      ensures observed == generation
    {
      observed := generation;
    }

    /** One reconcile of a claim that is not being deleted. */
    method Reconcile(facts: Facts, list: seq<Registration>) returns (v: Verdict)
      requires Valid() && !reg.deleting
      modifies this
      ensures Valid() && reg == Judged(old(reg), v)
      ensures Decided(old(reg), old(VerdictStands()), facts, list, v)
      ensures v.Hold? <==> facts.platform && facts.catalog.Transient? && old(reg.accepted && observed == generation)
      ensures v.Accept? <==> Acceptable(facts, list, old(reg))
      ensures old(reg.active) ==> reg.active
      ensures reg.active && !old(reg.active) ==>
                Acceptable(facts, list, old(reg)) && facts.provider.ready && reg.guarded
    {
      v := JudgeClaim(reg, VerdictStands(), facts, list);
      AcceptedIffAcceptable(reg, VerdictStands(), facts, list, v);
      match v {
        case Accept(ready) => AcceptClaim(ready);
        case Refuse(reason) => RefuseClaim(reason);
        case Defer(_) => DeferVerdict();
        case Hold =>
      }
    }

    /** One reconcile of a deleting claim: the guard comes off only when the
        instances were listed and none demands a contract of the claim. */
    method ReconcileDeletion(instances: Option<seq<Instance>>)
      requires reg.deleting
      modifies this`reg
      ensures reg == old(reg).(guarded := reg.guarded)
      ensures reg.guarded == (old(reg).guarded &&
                (instances.None? || exists i :: i in instances.value && DemandsOne(i, old(reg).contracts)))
    {
      if !reg.guarded {
        return;
      }
      if instances.None? {
        return;
      }
      var names := Dependents(instances.value, reg);
      if |names| > 0 {
        return;
      }
      reg := reg.(guarded := false);
    }
  }
}
