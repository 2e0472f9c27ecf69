/** The chain of plans one deletion runs, one per identity, and the rule per
    object it stands for (internal/apply/deletion.go, internal/apply/prune.go). */
module DeletionChain {
  import opened Lifecycle
  import opened Options
  import opened PlanRunner
  import opened Seqs

  predicate DependsOnIdentity(o: Outcome) {
    o.Skipped? && IdentityDependent(o.reason)
  }

  function Dependent(): StepResult -> bool {
    (r: StepResult) => DependsOnIdentity(r.outcome)
  }

  /** The entries a run hands to the plan of the next identity. */
  function Again(run: DeletionRun): seq<Entry> {
    Map(Filter(run.steps, Dependent()), EntryOf())
  }

  /** The plans from plan k on, for the identities not asked yet. */
  function Chain(s: Setting, k: nat, entries: seq<Entry>, ids: seq<string>): seq<DeletionRun>
    decreases |ids|
  {
    if ids == [] || (k > 0 && entries == []) then []
    else
      var run := RunOf(s, k, entries, ids[0]);
      [run] + Chain(s, k + 1, Again(run), ids[1..])
  }

  /** An empty list asks once, with no identity. */
  function AskedWith(identities: seq<string>): (ids: seq<string>)
    ensures ids != []
  {
    if identities == [] then [""] else identities
  }

  method AskedAgain(run: DeletionRun) returns (rest: seq<Entry>)
    ensures rest == Again(run)
  {
    rest := [];
    for j := 0 to |run.steps|
      invariant rest == Map(Filter(run.steps[..j], Dependent()), EntryOf())
    {
      FilterStep(run.steps, j, Dependent());
      if DependsOnIdentity(run.steps[j].outcome) {
        rest := rest + [run.steps[j].entry];
      }
    }
    FilterAll(run.steps, Dependent());
  }

  /** The run left e because the object belongs to another identity. */
  ghost predicate LeftToOther(run: DeletionRun, e: Entry) {
    exists r ::
      r in run.steps && r.entry == e && r.outcome.Skipped? && r.outcome.reason in {OwnerMismatch, AdoptedElsewhere}
  }

  /** Plan i asks with identity i. The next plan comes exactly when there is a
      next identity and plan i left something to another one, and it holds
      exactly what plan i left so. */
  ghost predicate AsksInTurn(identities: seq<string>, runs: seq<DeletionRun>, i: nat)
    requires i < |runs| <= |identities|
  {
    && runs[i].plan.identity == identities[i]
    && (i + 1 < |identities| ==> (i + 1 < |runs| <==> exists e :: LeftToOther(runs[i], e)))
    && (i + 1 < |runs| ==> forall e :: e in runs[i + 1].plan.entries <==> LeftToOther(runs[i], e))
  }

  method RunDeletion(s: Setting, entries: seq<Entry>, identities: seq<string>) returns (runs: seq<DeletionRun>)
    ensures runs == Chain(s, 0, entries, AskedWith(identities))
    ensures runs != [] && forall i | 0 <= i < |runs| :: runs[i].plan.policy == s.policy
    ensures identities == [] ==> |runs| == 1 && runs[0].plan.identity == ""
    ensures identities != [] && OrderLaw(s.lib) ==>
              |runs| <= |identities| && forall i | 0 <= i < |runs| :: AsksInTurn(identities, runs, i)
    ensures OrderLaw(s.lib) ==> forall e :: e in runs[0].plan.entries <==> e in entries
  {
    ChainAsksInTurn(s, entries, identities);
    hide RunOf;
    hide Again;
    hide AsksInTurn;
    hide OrderLaw;
    var ids := identities;
    if |ids| == 0 {
      ids := [""];
    }
    runs := [];
    var rest, i := entries, 0;
    while i < |ids|
      invariant 0 <= i <= |ids|
      invariant runs + Chain(s, i, rest, ids[i..]) == Chain(s, 0, entries, ids)
    {
      if i > 0 && |rest| == 0 {
        break;
      }
      var run := RunPlan(s, i, rest, ids[i]);
      assert ids[i..][1..] == ids[i + 1..];
      runs := runs + [run];
      rest := AskedAgain(run);
      i := i + 1;
    }
  }

  // ---- the result of each entry ------------------------------------------

  /** The last answer about e among steps that no other identity could change. */
  function LastSettled(steps: seq<StepResult>, e: Entry, fallback: StepResult): StepResult {
    if steps == [] then fallback
    else
      var last := steps[|steps| - 1];
      if last.entry == e && !DependsOnIdentity(last.outcome) then last
      else LastSettled(steps[..|steps| - 1], e, fallback)
  }

  function StepsOf(runs: seq<DeletionRun>): seq<StepResult> {
    if runs == [] then [] else StepsOf(runs[..|runs| - 1]) + runs[|runs| - 1].steps
  }

  ghost predicate DistinctEntries(steps: seq<StepResult>) {
    forall i, j | 0 <= i < j < |steps| :: steps[i].entry != steps[j].entry
  }

  /** index names the entries whose first answer depended on the identity, by
      their last place among the first n. */
  ghost predicate Indexes(index: map<Entry, nat>, first: seq<StepResult>, n: nat)
    requires n <= |first|
  {
    && (forall e | e in index :: index[e] < n && first[index[e]].entry == e
         && DependsOnIdentity(first[index[e]].outcome))
    && (forall j | 0 <= j < n && DependsOnIdentity(first[j].outcome) :: first[j].entry in index
         && j <= index[first[j].entry])
  }

  /** The place whose result a later plan's answer about the same entry replaces. */
  ghost predicate Replaceable(first: seq<StepResult>, i: nat)
    requires i < |first|
  {
    && DependsOnIdentity(first[i].outcome)
    && forall j | i < j < |first| && DependsOnIdentity(first[j].outcome) :: first[j].entry != first[i].entry
  }

  method MergeRun(ghost first: seq<StepResult>, ghost seen: seq<StepResult>, index: map<Entry, nat>,
                  results: seq<StepResult>, steps: seq<StepResult>)
    returns (merged: seq<StepResult>)
    requires Indexes(index, first, |first|) && Merged(first, results, seen)
    ensures Merged(first, merged, seen + steps)
  {
    merged := results;
    assert seen + steps[..0] == seen;
    for m := 0 to |steps|
      invariant Merged(first, merged, seen + steps[..m])
    {
      var step := steps[m];
      assert (seen + steps[..m + 1])[..|seen| + m] == seen + steps[..m];
      if step.entry !in index || DependsOnIdentity(step.outcome) {
        continue;
      }
      merged := merged[index[step.entry] := step];
    }
    assert steps[..|steps|] == steps;
  }

  /** One result per entry of the first plan, in its order: a later plan's
      answer replaces an answer that depended on the identity. */
  method Results(runs: seq<DeletionRun>) returns (results: seq<StepResult>)
    ensures runs == [] ==> results == []
    ensures runs != [] ==> Merged(runs[0].steps, results, StepsOf(runs[1..]))
  {
    if |runs| == 0 {
      return [];
    }
    var first := runs[0].steps;
    results := first;
    var index: map<Entry, nat> := map[];
    for i := 0 to |first|
      invariant Indexes(index, first, i)
    {
      if DependsOnIdentity(first[i].outcome) {
        index := index[first[i].entry := i];
      }
    }
    var later := runs[1..];
    for r := 0 to |later|
      invariant Merged(first, results, StepsOf(later[..r]))
    {
      assert later[..r + 1][..r] == later[..r];
      results := MergeRun(first, StepsOf(later[..r]), index, results, later[r].steps);
    }
    assert later[..|later|] == later;
  }

  ghost predicate Merged(first: seq<StepResult>, results: seq<StepResult>, seen: seq<StepResult>) {
    && |results| == |first|
    && forall i | 0 <= i < |first| ::
         results[i] == if Replaceable(first, i) then LastSettled(seen, first[i].entry, first[i]) else first[i]
  }

  /** The first answer along the identities that no other identity could
      change, asked of plans k, k + 1, and so on. */
  function Answer(s: Setting, k: nat, ids: seq<string>, e: Entry): Option<StepResult>
    decreases |ids|
  {
    if ids == [] then None
    else
      var step := StepOf(s, k, ids[0], e);
      if DependsOnIdentity(step.outcome) then Answer(s, k + 1, ids[1..], e) else Some(step)
  }

  /** The result of an entry: that answer, or else the first plan's refusal. */
  function ResultOf(s: Setting, ids: seq<string>, e: Entry): StepResult
    requires ids != []
  {
    var answer := Answer(s, 0, ids, e);
    if answer.Some? then answer.value else StepOf(s, 0, ids[0], e)
  }

  lemma {:induction false} LastSettledAppend(a: seq<StepResult>, b: seq<StepResult>, e: Entry, fallback: StepResult)
    ensures LastSettled(a + b, e, fallback) == LastSettled(b, e, LastSettled(a, e, fallback))
  {
    if b == [] {
      assert a + b == a;
    } else {
      assert (a + b)[..|a + b| - 1] == a + b[..|b| - 1];
      LastSettledAppend(a, b[..|b| - 1], e, fallback);
    }
  }

  lemma {:induction false} LastSettledAbsent(steps: seq<StepResult>, e: Entry, fallback: StepResult)
    requires forall i | 0 <= i < |steps| :: steps[i].entry == e ==> DependsOnIdentity(steps[i].outcome)
    ensures LastSettled(steps, e, fallback) == fallback
  {
    if steps != [] {
      LastSettledAbsent(steps[..|steps| - 1], e, fallback);
    }
  }

  lemma {:induction false} LastSettledUnique(steps: seq<StepResult>, i: nat, fallback: StepResult)
    requires i < |steps| && DistinctEntries(steps) && !DependsOnIdentity(steps[i].outcome)
    ensures LastSettled(steps, steps[i].entry, fallback) == steps[i]
  {
    if i < |steps| - 1 {
      LastSettledUnique(steps[..|steps| - 1], i, fallback);
    }
  }

  lemma {:induction false} StepsOfHead(run: DeletionRun, rest: seq<DeletionRun>)
    ensures StepsOf([run] + rest) == run.steps + StepsOf(rest)
  {
    if rest == [] {
      assert [run] + rest == [run] && [run][..0] == [];
    } else {
      assert ([run] + rest)[..|rest|] == [run] + rest[..|rest| - 1];
      StepsOfHead(run, rest[..|rest| - 1]);
    }
  }

  lemma StepNamesEntry(s: Setting, k: nat, id: string, e: Entry)
    ensures StepOf(s, k, id, e).entry == e
  {
  }

  /** A plan's entries are those it was built from, each as often, and the
      entries it hands on are those whose answer depended on the identity. */
  lemma RunEntries(s: Setting, k: nat, entries: seq<Entry>, id: string)
    requires OrderLaw(s.lib)
    ensures var run := RunOf(s, k, entries, id);
            && |run.steps| == |run.plan.entries| == |entries|
            && (forall i | 0 <= i < |run.steps| ::
                  run.steps[i] == StepOf(s, k, id, run.plan.entries[i]) && run.steps[i].entry == run.plan.entries[i])
            && (forall e :: e in run.plan.entries <==> e in entries)
            && (forall e :: e in Again(run) <==> e in entries && DependsOnIdentity(StepOf(s, k, id, e).outcome))
  {
    hide StepOf;
    var run := RunOf(s, k, entries, id);
    var ordered := run.plan.entries;
    forall e
      ensures StepOf(s, k, id, e).entry == e
    {
      StepNamesEntry(s, k, id, e);
    }
    assert multiset(ordered) == multiset(entries);
    SameMembers(ordered, entries);
    FilterMembers(run.steps, Dependent());
    var dependent := Filter(run.steps, Dependent());
    forall e
      ensures e in Again(run) <==> e in entries && DependsOnIdentity(StepOf(s, k, id, e).outcome)
    {
      if e in Again(run) {
        var i :| 0 <= i < |dependent| && Again(run)[i] == e;
        assert dependent[i] in run.steps;
      }
      if e in entries && DependsOnIdentity(StepOf(s, k, id, e).outcome) {
        var i :| 0 <= i < |ordered| && ordered[i] == e;
        assert run.steps[i] in dependent;
        var j :| 0 <= j < |dependent| && dependent[j] == run.steps[i];
        assert Again(run)[j] == e;
      }
    }
  }

  /** How plan i of a chain that began with plan k comes about. */
  lemma {:induction false} ChainLinks(s: Setting, k: nat, entries: seq<Entry>, ids: seq<string>, i: nat)
    requires i < |Chain(s, k, entries, ids)|
    ensures var runs := Chain(s, k, entries, ids);
            && |runs| <= |ids| && runs[i].plan.identity == ids[i] && runs[i].plan.policy == s.policy
            && runs[i].steps == Map(runs[i].plan.entries, StepMap(s, k + i, ids[i]))
            && (i + 1 < |ids| ==> (i + 1 < |runs| <==> Again(runs[i]) != []))
            && (i + 1 < |runs| && OrderLaw(s.lib) ==>
                  forall e :: e in runs[i + 1].plan.entries <==> e in Again(runs[i]))
    decreases |ids|
  {
    hide StepOf;
    var run := RunOf(s, k, entries, ids[0]);
    var rest := Chain(s, k + 1, Again(run), ids[1..]);
    assert Chain(s, k, entries, ids) == [run] + rest;
    if rest != [] {
      if OrderLaw(s.lib) { RunEntries(s, k + 1, Again(run), ids[1]); }
      ChainLinks(s, k + 1, Again(run), ids[1..], if i == 0 then 0 else i - 1);
    }
  }

  lemma AgainMeans(run: DeletionRun)
    ensures forall e :: e in Again(run) <==> LeftToOther(run, e)
    ensures Again(run) != [] <==> exists e :: LeftToOther(run, e)
  {
    var dependent := Filter(run.steps, Dependent());
    FilterMembers(run.steps, Dependent());
    forall e
      ensures e in Again(run) <==> LeftToOther(run, e)
    {
      if e in Again(run) {
        var i :| 0 <= i < |dependent| && Again(run)[i] == e;
        assert dependent[i] in dependent;
      }
      if LeftToOther(run, e) {
        var r :| r in run.steps && r.entry == e && DependsOnIdentity(r.outcome);
        assert r in dependent;
        var i :| 0 <= i < |dependent| && dependent[i] == r;
        assert Again(run)[i] == e;
      }
    }
    if Again(run) != [] {
      assert Again(run)[0] in Again(run);
    }
  }

  /** The chain asks every identity of the caller's own list in turn. */
  lemma ChainAsksInTurn(s: Setting, entries: seq<Entry>, identities: seq<string>)
    ensures var runs := Chain(s, 0, entries, AskedWith(identities));
            && runs != [] && (forall i | 0 <= i < |runs| :: runs[i].plan.policy == s.policy)
            && (identities == [] ==> |runs| == 1 && runs[0].plan.identity == "")
            && (identities != [] && OrderLaw(s.lib) ==>
                  |runs| <= |identities| && forall i | 0 <= i < |runs| :: AsksInTurn(identities, runs, i))
            && (OrderLaw(s.lib) ==> forall e :: e in runs[0].plan.entries <==> e in entries)
  {
    hide StepOf;
    var ids := AskedWith(identities);
    var runs := Chain(s, 0, entries, ids);
    assert runs[0] == RunOf(s, 0, entries, ids[0]);
    if OrderLaw(s.lib) { RunEntries(s, 0, entries, ids[0]); }
    hide RunOf;
    hide Chain;
    hide Again;
    ChainLinks(s, 0, entries, ids, 0);
    forall i | 0 <= i < |runs|
      ensures runs[i].plan.policy == s.policy
      ensures identities != [] && OrderLaw(s.lib) ==> AsksInTurn(identities, runs, i)
    {
      ChainLinks(s, 0, entries, ids, i);
      AgainMeans(runs[i]);
    }
  }

  lemma RunEntriesDistinct(s: Setting, k: nat, entries: seq<Entry>, id: string)
    requires OrderLaw(s.lib) && Distinct(entries)
    ensures var run := RunOf(s, k, entries, id);
            Distinct(run.plan.entries) && DistinctEntries(run.steps) && Distinct(Again(run))
  {
    hide StepOf;
    var run := RunOf(s, k, entries, id);
    assert multiset(run.plan.entries) == multiset(entries);
    SameMembersDistinct(run.plan.entries, entries);
    RunEntries(s, k, entries, id);
    var dependent := Filter(run.steps, Dependent());
    assert Distinct(run.steps);
    FilterDistinct(run.steps, Dependent());
    FilterMembers(run.steps, Dependent());
    forall i, j | 0 <= i < j < |dependent|
      ensures Again(run)[i] != Again(run)[j]
    {
      assert dependent[i] in run.steps && dependent[j] in run.steps && dependent[i] != dependent[j];
    }
  }

  lemma SameMembers<T>(a: seq<T>, b: seq<T>)
    requires multiset(a) == multiset(b)
    ensures |a| == |b| && forall x :: x in a <==> x in b
  {
    assert |multiset(a)| == |a| && |multiset(b)| == |b|;
    forall x
      ensures x in a <==> x in b
    {
      assert x in a <==> x in multiset(a);
      assert x in b <==> x in multiset(b);
    }
  }

  lemma SameMembersDistinct<T>(a: seq<T>, b: seq<T>)
    requires multiset(a) == multiset(b) && Distinct(b)
    ensures Distinct(a)
  {
    forall i, j | 0 <= i < j < |a|
      ensures a[i] != a[j]
    {
      DistinctCount(b, a[i]);
      assert a == a[..i] + [a[i]] + a[i + 1..j] + [a[j]] + a[j + 1..];
    }
  }

  lemma {:induction false} DistinctCount<T>(s: seq<T>, x: T)
    requires Distinct(s)
    ensures multiset(s)[x] <= 1
  {
    if s != [] {
      var init := s[..|s| - 1];
      assert s == init + [s[|s| - 1]];
      DistinctCount(init, x);
      assert s[|s| - 1] !in init;
    }
  }

  /** One plan's own contribution to the result of an entry it holds. */
  lemma RunAnswers(s: Setting, k: nat, entries: seq<Entry>, id: string, e: Entry, fallback: StepResult)
    requires OrderLaw(s.lib) && Distinct(entries) && e in entries
    ensures var step := StepOf(s, k, id, e);
            LastSettled(RunOf(s, k, entries, id).steps, e, fallback) ==
                if DependsOnIdentity(step.outcome) then fallback else step
  {
    hide StepOf;
    RunEntries(s, k, entries, id);
    RunEntriesDistinct(s, k, entries, id);
    var run := RunOf(s, k, entries, id);
    hide RunOf;
    var i :| 0 <= i < |run.plan.entries| && run.plan.entries[i] == e;
    if DependsOnIdentity(run.steps[i].outcome) {
      LastSettledAbsent(run.steps, e, fallback);
    } else {
      LastSettledUnique(run.steps, i, fallback);
    }
  }

  lemma {:induction false} ChainAnswers(s: Setting, k: nat, entries: seq<Entry>, ids: seq<string>, e: Entry,
          fallback: StepResult)
    requires OrderLaw(s.lib) && Distinct(entries) && e in entries
    ensures LastSettled(StepsOf(Chain(s, k, entries, ids)), e, fallback)
         == var answer := Answer(s, k, ids, e); if answer.Some? then answer.value else fallback
    decreases |ids|
  {
    hide StepOf;
    hide RunOf;
    if ids != [] {
      var run := RunOf(s, k, entries, ids[0]);
      var rest := Chain(s, k + 1, Again(run), ids[1..]);
      RunEntries(s, k, entries, ids[0]);
      RunEntriesDistinct(s, k, entries, ids[0]);
      StepsOfHead(run, rest);
      LastSettledAppend(run.steps, StepsOf(rest), e, fallback);
      RunAnswers(s, k, entries, ids[0], e, fallback);
      if DependsOnIdentity(StepOf(s, k, ids[0], e).outcome) {
        ChainAnswers(s, k + 1, Again(run), ids[1..], e, fallback);
      } else {
        LaterPlansSkip(s, k + 1, Again(run), ids[1..], e);
        LastSettledAbsent(StepsOf(rest), e, StepOf(s, k, ids[0], e));
      }
    }
  }

  /** A plan holds only entries of the list its chain began with. */
  lemma {:induction false} LaterPlansSkip(s: Setting, k: nat, entries: seq<Entry>, ids: seq<string>, e: Entry)
    requires OrderLaw(s.lib) && e !in entries
    ensures forall i | 0 <= i < |StepsOf(Chain(s, k, entries, ids))| :: StepsOf(Chain(s, k, entries, ids))[i].entry != e
    decreases |ids|
  {
    if ids != [] && !(k > 0 && entries == []) {
      var run := RunOf(s, k, entries, ids[0]);
      var rest := Chain(s, k + 1, Again(run), ids[1..]);
      RunEntries(s, k, entries, ids[0]);
      StepsOfHead(run, rest);
      LaterPlansSkip(s, k + 1, Again(run), ids[1..], e);
      assert forall i | 0 <= i < |run.steps| :: run.steps[i].entry == run.plan.entries[i];
    }
  }
}
