/** Whether applying a rendered claim takes a contract away from instances
    that still demand it (internal/shrink/shrink.go). */
module Shrink {
  import opened Options
  import opened Order
  import opened Registrations
  import opened Seqs

  datatype Decision = Decision(claim: string, dropped: seq<string>, dependents: seq<string>) {
    predicate Refused() {
      |dropped| > 0
    }
  }

  const NOTHING := Decision("", [], [])

  function MissingFrom(rendered: seq<string>): string -> bool {
    (f: string) => f !in rendered
  }

  /** In stored order. */
  method RemovedContracts(stored: seq<string>, rendered: seq<string>) returns (removed: seq<string>)
    ensures removed == Filter(stored, MissingFrom(rendered))
  {
    removed := [];
    for i := 0 to |stored|
      invariant removed == Filter(stored[..i], MissingFrom(rendered))
    {
      FilterStep(stored, i, MissingFrom(rendered));
      if stored[i] !in rendered {
        removed := removed + [stored[i]];
      }
    }
    FilterAll(stored, MissingFrom(rendered));
  }

  ghost predicate Demanded(instances: seq<Instance>, contract: string) {
    exists i :: i in instances && contract in i.required
  }

  function DemandsAny(contracts: seq<string>): Instance -> bool {
    (i: Instance) => exists k :: 0 <= k < |i.required| && i.required[k] in contracts
  }

  /** The sorted names of exactly the instances that demand a removed contract. */
  ghost predicate NamesDependents(d: Decision, removed: seq<string>, instances: seq<Instance>) {
    d.dependents == Sorted(Map(Filter(instances, DemandsAny(removed)), FullName()))
  }

  method AddDemanded(demanded: set<string>, required: seq<string>, removed: seq<string>)
    returns (out: set<string>, claims: bool)
    ensures forall f :: f in out <==> f in demanded || (f in removed && f in required)
    ensures claims <==> exists m :: 0 <= m < |required| && required[m] in removed
    ensures if claims then out != {} else out == demanded
  {
    out, claims := demanded, false;
    for k := 0 to |required|
      invariant forall f :: f in out <==> f in demanded || (f in removed && f in required[..k])
      invariant claims <==> exists m :: 0 <= m < k && required[m] in removed
      invariant if claims then out != {} else out == demanded
    {
      assert required[..k + 1] == required[..k] + [required[k]];
      if required[k] in removed {
        out, claims := out + {required[k]}, true;
      }
    }
    assert required[..|required|] == required;
  }

  method Evaluate(claim: string, removed: seq<string>, instances: seq<Instance>) returns (d: Decision)
    ensures forall f :: f in d.dropped <==> f in removed && Demanded(instances, f)
    ensures Ascending(d.dropped, Itself())
    ensures NamesDependents(d, removed, instances)
    ensures d.Refused() <==> d.dependents != []
    ensures d.claim == if d.Refused() then claim else ""
  {
    var demanded: set<string> := {};
    var dependents: seq<string> := [];
    assert instances[..0] == [];
    for i := 0 to |instances|
      invariant forall f :: f in demanded <==> f in removed && Demanded(instances[..i], f)
      invariant dependents == Map(Filter(instances[..i], DemandsAny(removed)), FullName())
      invariant demanded == {} <==> dependents == []
    {
      FilterStep(instances, i, DemandsAny(removed));
      DemandedStep(instances, i);
      var instance := instances[i];
      var claims;
      demanded, claims := AddDemanded(demanded, instance.required, removed);
      if claims {
        dependents := dependents + [instance.namespace + "/" + instance.name];
      }
    }
    FilterAll(instances, DemandsAny(removed));
    assert instances[..|instances|] == instances;
    SortedIsSorted(dependents);
    if |demanded| == 0 {
      return NOTHING;
    }
    var dropped := Names(demanded);
    d := Decision(claim, dropped, Sorted(dependents));
  }

  lemma DemandedStep(instances: seq<Instance>, i: nat)
    requires i < |instances|
    ensures forall f :: Demanded(instances[..i + 1], f) <==> Demanded(instances[..i], f) || f in instances[i].required
  {
    assert instances[..i + 1] == instances[..i] + [instances[i]];
    assert instances[i] in instances[..i + 1];
  }

  /** The elements of a set in order. */
  method Names(all: set<string>) returns (out: seq<string>)
    ensures Ascending(out, Itself()) && forall f :: f in out <==> f in all
  {
    out := [];
    var rest := all;
    while rest != {}
      invariant rest <= all
      invariant forall f :: f in out <==> f in all - rest
      invariant DistinctKeys(out, Itself())
    {
      var f :| f in rest;
      assert forall i | 0 <= i < |out| :: out[i] in out;
      out := out + [f];
      rest := rest - {f};
    }
    SortMembers(out, Itself());
    SortAscending(out, Itself());
    out := Sorted(out);
  }

  /** The answer to the uncached read of the stored claim. */
  datatype StoredClaim = Stored(contracts: seq<string>) | NotStored | StoredUnread

  /** One rendered resource: not a claim, a claim that cannot be read, or its contracts. */
  datatype Rendered = NotAClaim | UnreadableClaim | RenderedClaim(name: string, contracts: seq<string>)

  /** None: the decision could not be reached, and the caller retries. */
  method Decide(rendered: Rendered, stored: StoredClaim, instances: Option<seq<Instance>>) returns (d: Option<Decision>)
    ensures d.Some? && rendered.RenderedClaim? && stored.Stored? && instances.Some? ==>
              && (forall f :: f in d.value.dropped <==>
                    f in stored.contracts && f !in rendered.contracts && Demanded(instances.value, f))
              && Ascending(d.value.dropped, Itself())
              && (d.value.Refused() <==>
                    exists f :: f in stored.contracts && f !in rendered.contracts && Demanded(instances.value, f))
              && NamesDependents(d.value, Filter(stored.contracts, MissingFrom(rendered.contracts)), instances.value)
    ensures d.Some? && d.value.Refused() ==>
              rendered.RenderedClaim? && stored.Stored? && instances.Some? && d.value.claim == rendered.name
    ensures d.None? <==>
              || rendered.UnreadableClaim?
              || (rendered.RenderedClaim? && stored.StoredUnread?)
              || (rendered.RenderedClaim? && stored.Stored? && instances.None?
                  && exists f :: f in stored.contracts && f !in rendered.contracts)
  {
    match rendered {
      case NotAClaim => return Some(NOTHING);
      case UnreadableClaim => return None;
      case RenderedClaim(name, contracts) =>
        match stored {
          case StoredUnread => return None;
          case NotStored => return Some(NOTHING);
          case Stored(held) =>
            var removed := RemovedContracts(held, contracts);
            FilterMembers(held, MissingFrom(contracts));
            if |removed| == 0 {
              if instances.Some? { FilterTrivial(instances.value, DemandsAny(removed)); }
              return Some(NOTHING);
            }
            assert removed[0] in removed;
            if instances.None? {
              return None;
            }
            var verdict := Evaluate(name, removed, instances.value);
            if verdict.Refused() { assert verdict.dropped[0] in verdict.dropped; }
            d := Some(verdict);
        }
    }
  }

  // ---- the door before the apply (internal/reconcile/withhold.go) ---------

  /** What the reads of one walk answer about the claim of a name: the stored
      claim, and the instances listed to judge it, none when that failed. */
  datatype Answers = Answers(stored: string -> StoredClaim, listed: string -> Option<seq<Instance>>)

  /** Applying r would take a contract from an instance that demands it. */
  function Abandons(answers: Answers): Rendered -> bool {
    (r: Rendered) =>
      && r.RenderedClaim? && answers.stored(r.name).Stored? && answers.listed(r.name).Some?
      && exists f :: f in answers.stored(r.name).contracts && f !in r.contracts
           && exists i :: i in answers.listed(r.name).value && f in i.required
  }

  function AbandonsNobody(answers: Answers): Rendered -> bool {
    (r: Rendered) => !Abandons(answers)(r)
  }

  /** No verdict: the claim or what is stored of it cannot be read, or it lost
      a contract and the instances could not be listed. */
  ghost predicate Unjudgeable(r: Rendered, answers: Answers) {
    || r.UnreadableClaim?
    || (r.RenderedClaim? && answers.stored(r.name).StoredUnread?)
    || (r.RenderedClaim? && answers.stored(r.name).Stored? && answers.listed(r.name).None?
        && exists f :: f in answers.stored(r.name).contracts && f !in r.contracts)
  }

  /** The decision drops exactly what r takes away from an instance that demands it. */
  ghost predicate Judges(d: Decision, r: Rendered, answers: Answers) {
    && r.RenderedClaim? && answers.stored(r.name).Stored? && answers.listed(r.name).Some?
    && d.Refused() && d.claim == r.name
    && forall f :: f in d.dropped <==>
         f in answers.stored(r.name).contracts && f !in r.contracts && Demanded(answers.listed(r.name).value, f)
  }

  lemma AbandonsMeans(answers: Answers, r: Rendered)
    ensures Abandons(answers)(r) <==>
            && r.RenderedClaim? && answers.stored(r.name).Stored? && answers.listed(r.name).Some?
            && exists f :: f in answers.stored(r.name).contracts && f !in r.contracts
                 && Demanded(answers.listed(r.name).value, f)
  {
    if Abandons(answers)(r) {
      var f :| f in answers.stored(r.name).contracts && f !in r.contracts
            && exists i :: i in answers.listed(r.name).value && f in i.required;
      assert Demanded(answers.listed(r.name).value, f);
    }
  }

  /** Splits the rendered resources into the list to apply and the refusals. */
  method WithholdRefused(resources: seq<Rendered>, answers: Answers)
    returns (split: Option<(seq<Rendered>, seq<Decision>)>)
    ensures split.None? <==> exists r :: r in resources && Unjudgeable(r, answers)
    ensures split.Some? ==>
              && split.value.0 == Filter(resources, AbandonsNobody(answers))
              && |split.value.1| == |Filter(resources, Abandons(answers))|
              && forall i | 0 <= i < |split.value.1| ::
                   Judges(split.value.1[i], Filter(resources, Abandons(answers))[i], answers)
  {
    hide Abandons;
    hide Demanded;
    hide NamesDependents;
    hide Ascending;
    var refused: seq<Decision> := [];
    var withheld: seq<nat> := [];
    for i := 0 to |resources|
      invariant forall k | 0 <= k < i :: !Unjudgeable(resources[k], answers)
      invariant |withheld| == |refused| == |Filter(resources[..i], Abandons(answers))|
      invariant forall k | 0 <= k < |refused| ::
                  Judges(refused[k], Filter(resources[..i], Abandons(answers))[k], answers)
      invariant Indices(withheld, resources, i, Abandons(answers))
    {
      FilterStep(resources, i, Abandons(answers));
      var r := resources[i];
      var decision := Decide(r, if r.RenderedClaim? then answers.stored(r.name) else NotStored,
        if r.RenderedClaim? then answers.listed(r.name) else None);
      if decision.None? {
        assert r in resources;
        return None;
      }
      AbandonsMeans(answers, r);
      if !decision.value.Refused() {
        continue;
      }
      refused := refused + [decision.value];
      withheld := withheld + [i];
    }
    FilterAll(resources, Abandons(answers));
    if |refused| == 0 {
      FilterNone(resources, answers);
      return Some((resources, []));
    }
    var kept := Unlisted(resources, withheld, Abandons(answers), AbandonsNobody(answers));
    split := Some((kept, refused));
  }

  /** The ascending places below n at which hit holds. */
  ghost predicate Indices(at: seq<nat>, s: seq<Rendered>, n: nat, hit: Rendered -> bool)
    requires n <= |s|
  {
    && (forall k | 0 <= k < |at| :: at[k] < n && hit(s[at[k]]))
    && (forall j, k | 0 <= j < k < |at| :: at[j] < at[k])
    && (forall i | 0 <= i < n && hit(s[i]) :: i in at)
  }

  /** The elements of s at the places that are not listed, in one pass. */
  method Unlisted(s: seq<Rendered>, at: seq<nat>, ghost hit: Rendered -> bool, ghost miss: Rendered -> bool)
    returns (out: seq<Rendered>)
    requires Indices(at, s, |s|, hit) && forall r :: miss(r) == !hit(r)
    ensures out == Filter(s, miss)
  {
    out := [];
    var next := 0;
    for i := 0 to |s|
      invariant out == Filter(s[..i], miss)
      invariant 0 <= next <= |at|
      invariant forall k | 0 <= k < next :: at[k] < i
      invariant forall k | next <= k < |at| :: i <= at[k]
    {
      FilterStep(s, i, miss);
      if next < |at| && at[next] == i {
        next := next + 1;
        continue;
      }
      assert !hit(s[i]) by {
        if i in at { var k :| 0 <= k < |at| && at[k] == i; }
      }
      out := out + [s[i]];
    }
    FilterAll(s, miss);
  }

  lemma FilterNone(resources: seq<Rendered>, answers: Answers)
    requires Filter(resources, Abandons(answers)) == []
    ensures Filter(resources, AbandonsNobody(answers)) == resources
  {
    FilterMembers(resources, Abandons(answers));
    FilterTrivial(resources, AbandonsNobody(answers));
  }

  /** The upgrade door abandons nobody: a claim judged without an error is in
      the apply list exactly when it keeps every stored contract that some
      listed instance demands, and every stored contract when the instances
      could not be listed. */
  lemma AppliedClaimsKeepDemand(resources: seq<Rendered>, answers: Answers, r: Rendered)
    requires r in resources && r.RenderedClaim? && answers.stored(r.name).Stored? && !Unjudgeable(r, answers)
    ensures r in Filter(resources, AbandonsNobody(answers)) <==>
            forall f | f in answers.stored(r.name).contracts
                       && (answers.listed(r.name).None? || Demanded(answers.listed(r.name).value, f)) ::
              f in r.contracts
  {
    FilterMembers(resources, AbandonsNobody(answers));
    AbandonsMeans(answers, r);
  }
}
