/** The life of all claims together: creation, judgement over a fresh list,
    deletion and its guard. Specs do not change and each reconcile reads and
    commits at once. */
module ClaimProtocol {
  import opened ClaimJudgement
  import Options
  import opened Registrations

  datatype State = State(claims: map<string, Registration>, instances: seq<Instance>)

  /** How much of an acceptance's patch reaches the API server: the metadata
      (the finalizer) and the status are two requests. */
  datatype Patch = Whole | Nothing | MetadataOnly | StatusOnly

  datatype Step =
    | Create(claim: Registration)
    | Judge(name: string, facts: Facts, list: seq<Registration>, verdict: Verdict, patch: Patch)
    | RequestDeletion(name: string)
    | Release(name: string)
    | Vanish(name: string)
    | ChangeInstances(to: seq<Instance>)

  /** The list holds exactly the stored claims. */
  ghost predicate Fresh(list: seq<Registration>, claims: map<string, Registration>) {
    && (forall n | n in claims :: claims[n] in list)
    && (forall c | c in list :: c.name in claims && claims[c.name] == c)
  }

  ghost predicate Enabled(s: State, step: Step) {
    match step
    case Create(c) => c.name !in s.claims && !c.accepted && !c.active && !c.deleting && !c.guarded
    case Judge(n, facts, list, v, _) =>
      && n in s.claims && !s.claims[n].deleting && Fresh(list, s.claims)
      && (v.Accept? ==> Acceptable(facts, list, s.claims[n]))
    case RequestDeletion(n) => n in s.claims
    case Release(n) =>
      n in s.claims && s.claims[n].deleting && forall i | i in s.instances :: !DemandsOne(i, s.claims[n].contracts)
    case Vanish(n) => n in s.claims && s.claims[n].Released()
    case ChangeInstances(_) => true
  }

  function Patched(before: Registration, after: Registration, patch: Patch): Registration {
    match patch
    case Whole => after
    case Nothing => before
    case MetadataOnly => before.(guarded := after.guarded)
    case StatusOnly => after.(guarded := before.guarded)
  }

  ghost function Apply(s: State, step: Step): State
    requires Enabled(s, step)
  {
    match step
    case Create(c) => s.(claims := s.claims[c.name := c])
    case Judge(n, _, _, v, patch) => s.(claims := s.claims[n := Patched(s.claims[n], Judged(s.claims[n], v), patch)])
    case RequestDeletion(n) => s.(claims := s.claims[n := s.claims[n].(deleting := true)])
    case Release(n) => s.(claims := s.claims[n := s.claims[n].(guarded := false)])
    case Vanish(n) => s.(claims := s.claims - {n})
    case ChangeInstances(to) => s.(instances := to)
  }

  ghost predicate Stepped(states: seq<State>, steps: seq<Step>, i: nat)
    requires i < |steps| && |states| == |steps| + 1
  {
    Enabled(states[i], steps[i]) && states[i + 1] == Apply(states[i], steps[i])
  }

  ghost predicate Run(states: seq<State>, steps: seq<Step>) {
    && |states| == |steps| + 1 && states[0].claims == map[]
    && forall i | 0 <= i < |steps| :: Stepped(states, steps, i)
  }

  /** Active and not yet released. */
  ghost predicate Serving(s: State, n: string) {
    n in s.claims && s.claims[n].active && !s.claims[n].Released()
  }

  ghost predicate Named(s: State) {
    forall n | n in s.claims :: s.claims[n].name == n
  }

  ghost predicate Exclusive(s: State) {
    forall m, n | Serving(s, m) && Serving(s, n) && m != n :: !Shared(s.claims[m], s.claims[n])
  }

  lemma StepKeepsNames(s: State, step: Step)
    requires Named(s) && Enabled(s, step)
    ensures Named(Apply(s, step))
    ensures forall n | n in s.claims && n in Apply(s, step).claims ::
              Apply(s, step).claims[n].contracts == s.claims[n].contracts
  {
  }

  lemma StepKeepsExclusive(s: State, step: Step)
    requires Named(s) && Exclusive(s) && Enabled(s, step)
    ensures Named(Apply(s, step)) && Exclusive(Apply(s, step))
  {
    StepKeepsNames(s, step);
    hide Apply;
    hide Enabled;
    var t := Apply(s, step);
    forall m, n | Serving(t, m) && Serving(t, n) && m != n
      ensures !Shared(t.claims[m], t.claims[n])
    {
      if !Serving(s, m) {
        NewlyServing(s, step, m);
        NewcomerSharesNothing(s, step, n);
      } else if !Serving(s, n) {
        NewlyServing(s, step, n);
        NewcomerSharesNothing(s, step, m);
      }
    }
  }

  lemma NewcomerSharesNothing(s: State, step: Step, n: string)
    requires Named(s) && Enabled(s, step) && step.Judge? && step.verdict.Accept? && n != step.name && Serving(s, n)
    ensures !Shared(s.claims[step.name], s.claims[n])
  {
    assert Holds(s.claims[n], s.claims[step.name]);
  }

  /** Only a judgement that accepts makes a claim serve. */
  lemma NewlyServing(s: State, step: Step, n: string)
    requires Named(s) && Enabled(s, step) && !Serving(s, n) && Serving(Apply(s, step), n)
    ensures step.Judge? && step.name == n && step.verdict.Accept?
    ensures n in s.claims && Apply(s, step).claims == s.claims[n := Apply(s, step).claims[n]]
  {
  }

  lemma {:induction false} RunsKeepExclusive(states: seq<State>, steps: seq<Step>, i: nat)
    requires Run(states, steps) && i <= |steps|
    ensures Named(states[i]) && Exclusive(states[i])
  {
    if i > 0 {
      RunsKeepExclusive(states, steps, i - 1);
      assert Stepped(states, steps, i - 1);
      StepKeepsExclusive(states[i - 1], steps[i - 1]);
    }
  }

  /** In every run, however its patches fail, no two claims that are active
      and not yet released provide the same contract. */
  lemma ServingClaimsShareNoContract(states: seq<State>, steps: seq<Step>, i: nat, m: string, n: string,
          contract: string)
    requires Run(states, steps) && i <= |steps| && m != n && Serving(states[i], m) && Serving(states[i], n)
    ensures !(contract in states[i].claims[m].contracts && contract in states[i].claims[n].contracts)
  {
    RunsKeepExclusive(states, steps, i);
    assert !Shared(states[i].claims[m], states[i].claims[n]);
  }

  /** An active claim never becomes inactive while it exists. */
  lemma ActiveIsLatched(states: seq<State>, steps: seq<Step>, i: nat, n: string)
    requires Run(states, steps) && i < |steps| && n in states[i].claims && n in states[i + 1].claims
    ensures states[i].claims[n].active ==> states[i + 1].claims[n].active
  {
    assert Stepped(states, steps, i);
  }

  ghost predicate GuardHeld(s: State) {
    forall n | n in s.claims && s.claims[n].active :: s.claims[n].guarded || s.claims[n].deleting
  }

  /** Of an acceptance that activates an unguarded claim only the status arrives. */
  ghost predicate LosesGuard(s: State, step: Step) {
    && step.Judge? && step.patch.StatusOnly? && step.verdict.Accept? && step.verdict.ready
    && step.name in s.claims && !s.claims[step.name].guarded
  }

  /** Exactly such a step leaves an active claim without its guard. */
  lemma GuardIsLostExactly(s: State, step: Step)
    requires Named(s) && GuardHeld(s) && Enabled(s, step)
    ensures GuardHeld(Apply(s, step)) <==> !LosesGuard(s, step)
  {
    hide Acceptable;
    hide Fresh;
    var t := Apply(s, step);
    if LosesGuard(s, step) {
      assert t.claims[step.name].active && !t.claims[step.name].guarded && !t.claims[step.name].deleting;
    } else {
      forall n | n in t.claims && t.claims[n].active
        ensures t.claims[n].guarded || t.claims[n].deleting
      {
        assert n in s.claims && s.claims[n].active ==> s.claims[n].guarded || s.claims[n].deleting;
      }
    }
  }

  lemma {:induction false} GuardHeldWithoutLoss(states: seq<State>, steps: seq<Step>, i: nat)
    requires Run(states, steps) && i <= |steps|
    requires forall k | 0 <= k < |steps| :: !LosesGuard(states[k], steps[k])
    ensures GuardHeld(states[i])
  {
    hide GuardHeld;
    if i == 0 {
      StartIsGuarded(states[0]);
    } else {
      GuardHeldWithoutLoss(states, steps, i - 1);
      RunsKeepExclusive(states, steps, i - 1);
      assert Stepped(states, steps, i - 1);
      GuardIsLostExactly(states[i - 1], steps[i - 1]);
    }
  }

  lemma StartIsGuarded(s: State)
    requires s.claims == map[]
    ensures GuardHeld(s)
  {
  }

  /** An active claim carries the guard from its activation until its release,
      in every state of a run, exactly when no step of the run loses it. */
  lemma ActiveClaimsAreGuarded(states: seq<State>, steps: seq<Step>)
    requires Run(states, steps)
    ensures (forall i | 0 <= i <= |steps| :: GuardHeld(states[i])) <==>
              (forall k | 0 <= k < |steps| :: !LosesGuard(states[k], steps[k]))
  {
    hide GuardHeld;
    if forall k | 0 <= k < |steps| :: !LosesGuard(states[k], steps[k]) {
      forall i | 0 <= i <= |steps|
        ensures GuardHeld(states[i])
      {
        GuardHeldWithoutLoss(states, steps, i);
      }
    } else {
      var k :| 0 <= k < |steps| && LosesGuard(states[k], steps[k]);
      RunsKeepExclusive(states, steps, k);
      assert Stepped(states, steps, k);
      if GuardHeld(states[k]) { GuardIsLostExactly(states[k], steps[k]); }
    }
  }

  /** What an acceptance leaves on its claim: the guard exactly when the
      metadata arrived, the verdict exactly when the status did. */
  lemma AcceptanceArrives(s: State, step: Step)
    requires Enabled(s, step) && step.Judge? && step.verdict.Accept?
    ensures var before, after := s.claims[step.name], Apply(s, step).claims[step.name];
            && (after.guarded <==> before.guarded || step.patch in {Whole, MetadataOnly})
            && (after.accepted <==> before.accepted || step.patch in {Whole, StatusOnly})
            && (after.active <==> before.active || (step.verdict.ready && step.patch in {Whole, StatusOnly}))
            && after.deleting == before.deleting && after.contracts == before.contracts
  {
    hide Acceptable;
    hide Fresh;
  }

  // ---- one accepted claim per catalog -------------------------------------

  /** Accepted and not yet released. */
  ghost predicate Standing(s: State, n: string) {
    n in s.claims && s.claims[n].accepted && !s.claims[n].Released()
  }

  /** No standing claim has an older unreleased competitor. */
  ghost predicate OldestStand(s: State) {
    forall n | Standing(s, n) :: NoneOlder(s, s.claims[n])
  }

  ghost predicate NoneOlder(s: State, claim: Registration) {
    forall m | m in s.claims && Competes(s.claims[m], claim) :: !Older(s.claims[m], claim)
  }

  /** A claim is created that is older than a standing one of its catalog. */
  ghost predicate Undercuts(s: State, step: Step) {
    step.Create? && exists n :: Standing(s, n) && Competes(step.claim, s.claims[n]) && Older(step.claim, s.claims[n])
  }

  /** Exactly such a creation puts an older competitor beside a standing claim. */
  lemma OldestIsUndercutExactly(s: State, step: Step)
    requires Named(s) && OldestStand(s) && Enabled(s, step)
    ensures OldestStand(Apply(s, step)) <==> !Undercuts(s, step)
  {
    var t := Apply(s, step);
    if Undercuts(s, step) {
      var n :| Standing(s, n) && Competes(step.claim, s.claims[n]) && Older(step.claim, s.claims[n]);
      assert Standing(t, n) && t.claims[n] == s.claims[n] && t.claims[step.claim.name] == step.claim;
      assert !NoneOlder(t, t.claims[n]);
    } else {
      forall m, n | Standing(t, n) && m in t.claims && Competes(t.claims[m], t.claims[n])
        ensures !Older(t.claims[m], t.claims[n])
      {
        StandingBefore(s, step, n);
        SpecStays(s, step, n);
        if !step.Create? || step.claim.name != m {
          SpecStays(s, step, m);
        }
      }
    }
  }

  /** A claim that stands after a step stood before it, or was just judged the
      oldest of its catalog. */
  lemma StandingBefore(s: State, step: Step, n: string)
    requires Named(s) && OldestStand(s) && Enabled(s, step) && Standing(Apply(s, step), n)
    ensures n in s.claims && NoneOlder(s, s.claims[n])
    ensures step.Create? ==> Standing(s, n)
  {
    hide NotSubscribed;
    hide ContractsFree;
    if !Standing(s, n) {
      assert step.Judge? && step.name == n && step.verdict.Accept?;
      assert HoldsCatalog(step.list, s.claims[n]);
    }
  }

  /** No step changes a spec or takes a release back. */
  lemma SpecStays(s: State, step: Step, n: string)
    requires Named(s) && Enabled(s, step) && n in Apply(s, step).claims && !(step.Create? && step.claim.name == n)
    ensures n in s.claims
    ensures var before, after := s.claims[n], Apply(s, step).claims[n];
            && after.name == before.name && after.catalog == before.catalog && after.created == before.created
            && (before.Released() ==> after.Released())
  {
    hide Acceptable;
    hide Fresh;
  }

  lemma {:induction false} OldestStandWithoutUndercut(states: seq<State>, steps: seq<Step>, i: nat)
    requires Run(states, steps) && i <= |steps|
    requires forall k | 0 <= k < i :: !Undercuts(states[k], steps[k])
    ensures OldestStand(states[i])
  {
    hide OldestStand;
    hide Undercuts;
    if i == 0 {
      StartIsOldest(states[0]);
    } else {
      OldestStandWithoutUndercut(states, steps, i - 1);
      RunsKeepExclusive(states, steps, i - 1);
      assert Stepped(states, steps, i - 1);
      OldestIsUndercutExactly(states[i - 1], steps[i - 1]);
    }
  }

  lemma StartIsOldest(s: State)
    requires s.claims == map[]
    ensures OldestStand(s)
  {
  }

  /** At most one claim of a catalog is accepted and unreleased, in every state
      of a run before which no creation undercut a standing claim. */
  lemma OneAcceptedPerCatalog(states: seq<State>, steps: seq<Step>, i: nat, m: string, n: string)
    requires Run(states, steps) && i <= |steps|
    requires forall k | 0 <= k < i :: !Undercuts(states[k], steps[k])
    requires Standing(states[i], m) && Standing(states[i], n)
               && states[i].claims[m].catalog == states[i].claims[n].catalog
    ensures m == n
  {
    OldestStandWithoutUndercut(states, steps, i);
    RunsKeepExclusive(states, steps, i);
    var s := states[i];
    OlderTotal(s.claims[m], s.claims[n]);
    assert NoneOlder(s, s.claims[m]) && NoneOlder(s, s.claims[n]);
  }

  ghost predicate StrictlyLater(s: State, step: Step) {
    step.Create? ==> forall n | n in s.claims :: s.claims[n].created < step.claim.created
  }

  /** A creation strictly later than every stored claim undercuts none. */
  lemma LaterNeverUndercuts(states: seq<State>, steps: seq<Step>, i: nat)
    requires |states| == |steps| + 1 && i <= |steps| && forall k | 0 <= k < i :: StrictlyLater(states[k], steps[k])
    ensures forall k | 0 <= k < i :: !Undercuts(states[k], steps[k])
  {
    forall k | 0 <= k < i
      ensures !Undercuts(states[k], steps[k])
    {
      assert StrictlyLater(states[k], steps[k]);
    }
  }

  ghost predicate NewClaim(c: Registration) {
    !c.accepted && !c.active && !c.deleting && !c.guarded
  }

  /** Every check passes that does not look at other claims. */
  ghost predicate PassesAlone(facts: Facts, c: Registration) {
    && facts.platform && facts.catalog.Resolved? && facts.contractsMatch && facts.provider == Owned(true)
    && facts.requirements.Compatible? && facts.listable && facts.relistable
    && facts.providers.Some? && NotSubscribed(c.contracts, facts.providers.value, c.catalog)
  }

  /** Beside a standing claim of its catalog a claim is acceptable exactly when
      it is the older one and the other is not active with a shared contract. */
  lemma SecondAcceptedIffOlder(facts: Facts, a: Registration, b: Registration)
    requires PassesAlone(facts, a) && Competes(b, a)
    ensures Acceptable(facts, [b, a], a) <==> Older(a, b) && !(b.active && Shared(a, b))
  {
    OlderTotal(a, b);
    assert b in [b, a] && a in [b, a];
    assert HoldsCatalog([b, a], a) <==> !Older(b, a);
    assert ContractsFree([b, a], a) <==> !(b.active && Shared(a, b));
  }

  lemma FirstAccepted(facts: Facts, b: Registration)
    requires PassesAlone(facts, b)
    ensures Acceptable(facts, [b], b)
  {
  }

  ghost predicate StandsAs(s: State, c: Registration) {
    && c.name in s.claims && s.claims[c.name].Contributes()
    && s.claims[c.name].catalog == c.catalog && s.claims[c.name].version == c.version
  }

  /** A run of two creations and two judgements ends with both claims contributing. */
  ghost predicate EndsWithBoth(states: seq<State>, steps: seq<Step>, a: Registration, b: Registration) {
    && |steps| == 4 && Run(states, steps)
    && StandsAs(states[4], a) && StandsAs(states[4], b)
  }

  /** One more step at the end of a run. */
  lemma Extend(states: seq<State>, steps: seq<Step>, step: Step) returns (longer: seq<State>)
    requires Run(states, steps) && Enabled(states[|steps|], step)
    ensures Run(longer, steps + [step]) && longer[|steps| + 1] == Apply(states[|steps|], step)
    ensures longer[..|states|] == states
  {
    longer := states + [Apply(states[|steps|], step)];
    hide Enabled;
    hide Apply;
    var all := steps + [step];
    forall i | 0 <= i < |all|
      ensures Stepped(longer, all, i)
    {
      if i < |steps| { assert Stepped(states, steps, i); }
    }
  }

  /** From any reachable state a new claim that is acceptable beside the stored
      ones is accepted and active two steps later. */
  lemma AcceptedNext(states: seq<State>, steps: seq<Step>, list: seq<Registration>, facts: Facts, c: Registration)
    returns (longer: seq<State>)
    requires Run(states, steps) && Fresh(list, states[|steps|].claims)
    requires NewClaim(c) && c.name !in states[|steps|].claims && Acceptable(facts, list + [c], c)
    ensures Run(longer, steps + [Create(c), Judge(c.name, facts, list + [c], Accept(true), Whole)])
    ensures longer[..|states|] == states
    ensures longer[|steps| + 2].claims == states[|steps|].claims[c.name := Judged(c, Accept(true))]
  {
    var s := states[|steps|];
    Creation(s, c);
    var t := Apply(s, Create(c));
    assert Fresh(list + [c], t.claims);
    Acceptance(t, c.name, facts, list + [c]);
    hide Enabled;
    hide Apply;
    hide Acceptable;
    hide Fresh;
    var judge := Judge(c.name, facts, list + [c], Accept(true), Whole);
    longer := Extend(states, steps, Create(c));
    assert longer[..|states|] == states;
    var last := Extend(longer, steps + [Create(c)], judge);
    assert steps + [Create(c)] + [judge] == steps + [Create(c), judge];
    assert last[..|longer|][..|states|] == last[..|states|];
    longer := last;
  }

  /** Beside any standing claim, in any reachable state: a new claim of its
      catalog that is older than every stored competitor, and whose contracts
      no active one provides, is accepted too and leaves the other standing. */
  lemma UndercutStandsBeside(states: seq<State>, steps: seq<Step>, list: seq<Registration>, facts: Facts,
                             a: Registration, n: string) returns (longer: seq<State>)
    requires Run(states, steps) && Fresh(list, states[|steps|].claims) && Standing(states[|steps|], n)
    requires NewClaim(a) && a.name !in states[|steps|].claims && a.catalog == states[|steps|].claims[n].catalog
    requires PassesAlone(facts, a) && HoldsCatalog(list, a) && ContractsFree(list, a)
    ensures Run(longer, steps + [Create(a), Judge(a.name, facts, list + [a], Accept(true), Whole)])
    ensures longer[..|states|] == states
    ensures longer[|steps| + 2].claims == states[|steps|].claims[a.name := Judged(a, Accept(true))]
    ensures Standing(longer[|steps| + 2], n) && StandsAs(longer[|steps| + 2], a)
  {
    assert HoldsCatalog(list + [a], a) && ContractsFree(list + [a], a);
    longer := AcceptedNext(states, steps, list, facts, a);
  }

  /** Whenever the later created of two claims of one catalog is the older one
      and shares no contract with the other, a run ends with both of them
      accepted, active and unreleased. */
  lemma UndercutStandsTwice(facts: Facts, a: Registration, b: Registration)
    requires NewClaim(a) && NewClaim(b) && a.name != b.name && a.catalog == b.catalog && Older(a, b) && !Shared(a, b)
    requires PassesAlone(facts, a) && PassesAlone(facts, b)
    ensures exists states, steps :: EndsWithBoth(states, steps, a, b)
  {
    hide NotSubscribed;
    OlderTotal(a, b);
    var start := State(map[], []);
    FirstAccepted(facts, b);
    assert [] + [b] == [b];
    var states := AcceptedNext([start], [], [], facts, b);
    var steps := [] + [Create(b), Judge(b.name, facts, [] + [b], Accept(true), Whole)];
    var b1 := Judged(b, Accept(true));
    assert Fresh([b1], states[2].claims);
    var longer := UndercutStandsBeside(states, steps, [b1], facts, a, b.name);
    assert StandsAs(longer[4], b);
    assert EndsWithBoth(longer, steps + [Create(a), Judge(a.name, facts, [b1] + [a], Accept(true), Whole)], a, b);
  }

  lemma Creation(s: State, c: Registration)
    requires NewClaim(c) && c.name !in s.claims
    ensures Enabled(s, Create(c)) && Apply(s, Create(c)) == State(s.claims[c.name := c], s.instances)
  {
  }

  lemma Acceptance(s: State, n: string, facts: Facts, list: seq<Registration>)
    requires n in s.claims && !s.claims[n].deleting && Fresh(list, s.claims) && Acceptable(facts, list, s.claims[n])
    ensures var step := Judge(n, facts, list, Accept(true), Whole);
            && Enabled(s, step)
            && Apply(s, step) == State(s.claims[n := Judged(s.claims[n], Accept(true))], s.instances)
  {
    hide Acceptable;
    hide Fresh;
  }

  /** Two claims of one second and one catalog with different versions, the
      later created with the lower name: both end up contributing. */
  lemma TieStandsTwice()
    ensures exists states, steps, a, b ::
              && EndsWithBoth(states, steps, a, b) && a.name != b.name
              && a.created == b.created && a.catalog == b.catalog && a.version != b.version
  {
    var a := Registration("a", "c", "1", [], 0, false, false, false, false);
    var b := Registration("b", "c", "2", [], 0, false, false, false, false);
    var facts := Facts(true, Resolved, true, Owned(true), Compatible, true, Options.Some(map[]), true);
    UndercutStandsTwice(facts, a, b);
    assert a.name == "a" && b.name == "b" && a.version == "1" && b.version == "2";
  }

  ghost predicate ReleasedAt(states: seq<State>, steps: seq<Step>, k: nat, n: string)
    requires k < |steps| && |states| == |steps| + 1
  {
    && steps[k] == Release(n) && n in states[k].claims
    && forall i | i in states[k].instances :: !DemandsOne(i, states[k].claims[n].contracts)
  }

  /** The deletion door abandons nobody: a contributing claim whose deletion is
      requested contributes to the platform until a step at which no listed
      instance demands a contract it provides. */
  lemma {:induction false} DeletingClaimContributesUntilUnneeded(states: seq<State>, steps: seq<Step>, i: nat, j: nat,
          n: string)
    requires Run(states, steps) && i <= j <= |steps| && n in states[i].claims
    requires states[i].claims[n].Contributes() && states[i].claims[n].deleting
    ensures (n in states[j].claims && states[j].claims[n].Contributes() && states[j].claims[n].deleting)
            || exists k: nat | i <= k < j :: ReleasedAt(states, steps, k, n)
    decreases j
  {
    if i < j {
      DeletingClaimContributesUntilUnneeded(states, steps, i, j - 1, n);
      if !(exists k: nat | i <= k < j - 1 :: ReleasedAt(states, steps, k, n)) {
        assert Stepped(states, steps, j - 1);
        assert steps[j - 1] == Release(n) ==> ReleasedAt(states, steps, j - 1, n);
      }
    }
  }

  /** A claim that no listed instance needs can always be deleted: the request,
      the release of its guard and its end are the next three steps. */
  lemma UnneededClaimGoes(states: seq<State>, steps: seq<Step>, n: string) returns (longer: seq<State>)
    requires Run(states, steps) && n in states[|steps|].claims
    requires forall i | i in states[|steps|].instances :: !DemandsOne(i, states[|steps|].claims[n].contracts)
    ensures Run(longer, steps + [RequestDeletion(n), Release(n), Vanish(n)]) && longer[..|states|] == states
    ensures longer[|steps| + 3] == State(states[|steps|].claims - {n}, states[|steps|].instances)
  {
    var s := states[|steps|];
    longer := Extend(states, steps, RequestDeletion(n));
    var one := steps + [RequestDeletion(n)];
    var next := Extend(longer, one, Release(n));
    assert next[..|states|] == next[..|longer|][..|states|];
    var two := one + [Release(n)];
    longer := next;
    next := Extend(longer, two, Vanish(n));
    assert next[..|states|] == next[..|longer|][..|states|];
    longer := next;
    assert two + [Vanish(n)] == steps + [RequestDeletion(n), Release(n), Vanish(n)];
    assert longer[|steps| + 3].claims == s.claims - {n};
  }

  lemma Prefix(states: seq<State>, steps: seq<Step>, i: nat)
    requires Run(states, steps) && i <= |steps|
    ensures Run(states[..i + 1], steps[..i])
  {
    var front, done := states[..i + 1], steps[..i];
    forall k | 0 <= k < |done|
      ensures Stepped(front, done, k)
    {
      assert Stepped(states, steps, k);
    }
  }

  /** From the request on: an accepted active claim whose deletion is requested
      contributes until such a step, when no acceptance before the request
      committed its status alone. */
  lemma DeletionDoorAbandonsNobody(states: seq<State>, steps: seq<Step>, i: nat, j: nat, n: string)
    requires Run(states, steps) && i < j <= |steps| && steps[i] == RequestDeletion(n) && n in states[i].claims
    requires states[i].claims[n].accepted && states[i].claims[n].active && !states[i].claims[n].deleting
    requires forall k | 0 <= k < i :: !LosesGuard(states[k], steps[k])
    ensures (n in states[j].claims && states[j].claims[n].Contributes() && states[j].claims[n].deleting)
            || exists k: nat | i < k < j :: ReleasedAt(states, steps, k, n)
  {
    Prefix(states, steps, i);
    GuardHeldWithoutLoss(states[..i + 1], steps[..i], i);
    assert Stepped(states, steps, i);
    DeletingClaimContributesUntilUnneeded(states, steps, i + 1, j, n);
  }
}
