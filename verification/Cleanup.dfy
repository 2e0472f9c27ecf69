/** What a cleanup reports, and what the chain of plans amounts to per object
    (internal/apply/prune.go, internal/apply/deletion.go). */
module Cleanup {
  import opened DeletionChain
  import opened Lifecycle
  import opened Options
  import opened PlanRunner
  import opened Seqs

  // ---- the chain against the rule per object -----------------------------

  /** The results of a chain are, entry by entry, the first answer along the
      identities that no other identity could change, or the first refusal. */
  lemma ResultsAreAnswers(s: Setting, entries: seq<Entry>, identities: seq<string>, results: seq<StepResult>)
    requires OrderLaw(s.lib) && Distinct(entries)
    requires var runs := Chain(s, 0, entries, AskedWith(identities));
             Merged(runs[0].steps, results, StepsOf(runs[1..]))
    ensures var order := s.lib.order(entries);
            && |results| == |order| == |entries| && Distinct(order) && (forall e :: e in order <==> e in entries)
            && forall i | 0 <= i < |results| :: results[i] == ResultOf(s, AskedWith(identities), order[i])
  {
    hide StepOf;
    var ids := AskedWith(identities);
    var run := RunOf(s, 0, entries, ids[0]);
    var rest := Chain(s, 1, Again(run), ids[1..]);
    RunEntries(s, 0, entries, ids[0]);
    RunEntriesDistinct(s, 0, entries, ids[0]);
    assert Chain(s, 0, entries, ids)[1..] == rest;
    var order := s.lib.order(entries);
    forall i | 0 <= i < |results|
      ensures results[i] == ResultOf(s, ids, order[i])
    {
      var e := order[i];
      if DependsOnIdentity(run.steps[i].outcome) {
        ChainAnswers(s, 1, Again(run), ids[1..], e, run.steps[i]);
      }
    }
  }

  /** No DELETE depends on the identity: an entry that a later plan asks again
      was sent none by the plans before. */
  lemma AskedAgainWasNotSent(s: Setting, k: nat, id: string, e: Entry)
    requires DependsOnIdentity(StepOf(s, k, id, e).outcome)
    ensures !Sends(s, k, id, e)
  {
  }

  /** Plan i of a chain that began with plan k asks with identity ids[i]. */
  lemma {:induction false} ChainPlan(s: Setting, k: nat, entries: seq<Entry>, ids: seq<string>, i: nat, e: Entry)
    requires OrderLaw(s.lib)
    requires i < |Chain(s, k, entries, ids)| && e in Chain(s, k, entries, ids)[i].plan.entries
    ensures i < |ids| && Chain(s, k, entries, ids)[i].plan.identity == ids[i] && e in entries
    ensures forall j | 0 <= j < i :: DependsOnIdentity(StepOf(s, k + j, ids[j], e).outcome)
    decreases |ids|
  {
    hide StepOf;
    var run := RunOf(s, k, entries, ids[0]);
    RunEntries(s, k, entries, ids[0]);
    if i > 0 {
      ChainPlan(s, k + 1, Again(run), ids[1..], i - 1, e);
      forall j | 0 <= j < i
        ensures DependsOnIdentity(StepOf(s, k + j, ids[j], e).outcome)
      {
        if j > 0 {
          assert ids[1..][j - 1] == ids[j];
          assert DependsOnIdentity(StepOf(s, k + 1 + (j - 1), ids[1..][j - 1], e).outcome);
        }
      }
    }
  }

  /** No entry is sent a DELETE by two plans, whatever the API server answers. */
  lemma SentByOnePlan(s: Setting, entries: seq<Entry>, ids: seq<string>, i: nat, j: nat, e: Entry)
    requires OrderLaw(s.lib) && i < j < |Chain(s, 0, entries, ids)|
    requires e in Chain(s, 0, entries, ids)[j].plan.entries
    ensures i < |ids| && !Sends(s, i, ids[i], e)
  {
    ChainPlan(s, 0, entries, ids, j, e);
    AskedAgainWasNotSent(s, i, ids[i], e);
  }

  /** The verdict after asking along ids, while it depends on the identity. */
  function AskAlong(lib: Library, e: Entry, live: Live, verdict: Verdict, ids: seq<string>): Verdict
    decreases |ids|
  {
    if ids == [] || verdict.Proceed? || !IdentityDependent(verdict.reason) then verdict
    else AskAlong(lib, e, live, lib.canDelete(e, live, ids[0]), ids[1..])
  }

  function JudgeDelete(lib: Library, e: Entry, live: Live, ids: seq<string>): Verdict
    requires ids != []
  {
    var first := lib.canDelete(e, live, ids[0]);
    if AskAlong(lib, e, live, first, ids[1..]).Proceed? then Proceed else first
  }

  method JudgeDeleteInTurn(lib: Library, e: Entry, live: Live, identities: seq<string>) returns (verdict: Verdict)
    ensures verdict == JudgeDelete(lib, e, live, AskedWith(identities))
    ensures identities == [] ==> verdict == lib.canDelete(e, live, "")
    ensures identities != [] && IdentityLaw(lib) ==>
              && (verdict.Proceed? <==>
                    exists i :: 0 <= i < |identities| && lib.canDelete(e, live, identities[i]).Proceed?)
              && (!verdict.Proceed? ==> verdict == lib.canDelete(e, live, identities[0]))
  {
    if identities != [] && IdentityLaw(lib) { JudgeDeleteProceedsForSome(lib, e, live, identities); }
    var ids := identities;
    if |ids| == 0 {
      ids := [""];
    }
    var first := lib.canDelete(e, live, ids[0]);
    verdict := first;
    var i := 1;
    while i < |ids|
      invariant 1 <= i <= |ids|
      invariant AskAlong(lib, e, live, verdict, ids[i..]) == AskAlong(lib, e, live, first, ids[1..])
    {
      if verdict.Proceed? || !IdentityDependent(verdict.reason) {
        break;
      }
      assert ids[i..][1..] == ids[i + 1..];
      verdict := lib.canDelete(e, live, ids[i]);
      i := i + 1;
    }
    if !verdict.Proceed? {
      verdict := first;
    }
  }

  /** It proceeds exactly when some identity lets it; otherwise the first verdict stands. */
  lemma {:induction false} AskAlongProceeds(lib: Library, e: Entry, live: Live, id: string, ids: seq<string>)
    requires IdentityLaw(lib)
    ensures AskAlong(lib, e, live, lib.canDelete(e, live, id), ids).Proceed?
       <==> exists i :: 0 <= i < |[id] + ids| && lib.canDelete(e, live, ([id] + ids)[i]).Proceed?
    decreases |ids|
  {
    var v := lib.canDelete(e, live, id);
    assert ([id] + ids)[0] == id;
    if v.Skip? && IdentityDependent(v.reason) && ids != [] {
      AskAlongProceeds(lib, e, live, ids[0], ids[1..]);
      assert [ids[0]] + ids[1..] == ids;
      forall i | 0 <= i < |ids|
        ensures ([id] + ids)[i + 1] == ids[i]
      {
      }
    }
  }

  lemma JudgeDeleteProceedsForSome(lib: Library, e: Entry, live: Live, ids: seq<string>)
    requires IdentityLaw(lib) && ids != []
    ensures JudgeDelete(lib, e, live, ids).Proceed? <==>
              exists i :: 0 <= i < |ids| && lib.canDelete(e, live, ids[i]).Proceed?
    ensures !JudgeDelete(lib, e, live, ids).Proceed? ==>
              JudgeDelete(lib, e, live, ids) == lib.canDelete(e, live, ids[0])
  {
    AskAlongProceeds(lib, e, live, ids[0], ids[1..]);
    assert [ids[0]] + ids[1..] == ids;
  }

  /** The API server answers every plan alike: nothing moves on the cluster
      between two plans over an entry. */
  ghost predicate Fixed(api: Api) {
    && (forall k, e :: api.read(k, e) == api.read(0, e))
    && (forall k, e, uid :: api.delete(k, e, uid) == api.delete(0, e, uid))
  }

  /** The rule per object: one read, one judgement along the identities, one
      delete of the object that was read. */
  function RulePerObject(s: Setting, ids: seq<string>, e: Entry): Outcome
    requires ids != []
  {
    if !s.policy.prune then NoOutcome
    else if s.lib.excluded(e) then Skipped(SafetyExcluded, "")
    else match s.api.read(0, e)
         case ReadNotFound => ABSENT
         case ReadFailed(err) => Failed(err.class_, err.text)
         case Found(live) =>
           if live.entry != e then MISREAD
           else match JudgeDelete(s.lib, e, live, ids)
                case Proceed => Deletion(s.api.delete(0, e, live.uid))
                case Skip(reason, message) => Skipped(reason, message)
  }

  lemma {:induction false} AnswerFollowsVerdict(s: Setting, k: nat, ids: seq<string>, e: Entry)
    requires Fixed(s.api) && s.policy.prune && !s.lib.excluded(e) && ids != []
    requires s.api.read(0, e).Found? && s.api.read(0, e).live.entry == e
    ensures var live := s.api.read(0, e).live;
            var v := AskAlong(s.lib, e, live, s.lib.canDelete(e, live, ids[0]), ids[1..]);
            match Answer(s, k, ids, e)
            case None => v.Skip? && IdentityDependent(v.reason)
            case Some(r) =>
              && !DependsOnIdentity(r.outcome)
              && r.outcome == if v.Proceed? then Deletion(s.api.delete(0, e, live.uid))
                              else Skipped(v.reason, v.message)
    decreases |ids|
  {
    var live := s.api.read(0, e).live;
    assert s.api.read(k, e) == s.api.read(0, e);
    assert s.api.delete(k, e, live.uid) == s.api.delete(0, e, live.uid);
    if DependsOnIdentity(StepOf(s, k, ids[0], e).outcome) && |ids| > 1 {
      AnswerFollowsVerdict(s, k + 1, ids[1..], e);
    }
  }

  /** On a fixed cluster the chain of plans is the rule per object: the same
      entries are deleted, and a left entry keeps the first verdict's reason
      and message. */
  lemma ChainRefinesRule(s: Setting, ids: seq<string>, e: Entry)
    requires IdentityLaw(s.lib) && Fixed(s.api) && ids != []
    ensures ResultOf(s, ids, e).outcome == RulePerObject(s, ids, e)
  {
    var answer := s.api.read(0, e);
    if s.policy.prune && !s.lib.excluded(e) && answer.Found? && answer.live.entry == e {
      AnswerFollowsVerdict(s, 0, ids, e);
      var first := s.lib.canDelete(e, answer.live, ids[0]);
      var last := AskAlong(s.lib, e, answer.live, first, ids[1..]);
      if first.Skip? && last.Skip? {
        SkipsStayDependent(s.lib, e, answer.live, ids[0], ids[1..]);
      }
    }
  }

  /** An answer that does not depend on the identity is the same for all, so
      along refusals it comes first or not at all. */
  lemma {:induction false} SkipsStayDependent(lib: Library, e: Entry, live: Live, id: string, ids: seq<string>)
    requires IdentityLaw(lib)
    ensures var first := lib.canDelete(e, live, id);
            var last := AskAlong(lib, e, live, first, ids);
            last.Skip? && !IdentityDependent(last.reason) ==> last == first
    decreases |ids|
  {
    var first := lib.canDelete(e, live, id);
    if ids != [] && first.Skip? && IdentityDependent(first.reason) {
      SkipsStayDependent(lib, e, live, ids[0], ids[1..]);
      var next := lib.canDelete(e, live, ids[0]);
      assert next.Skip? && !IdentityDependent(next.reason) ==> lib.canDelete(e, live, id) == next;
    }
  }

  /** So for distinct entries on a fixed cluster the results of the chain are
      the rule's outcomes, entry by entry in plan order. */
  lemma ResultsFollowRule(s: Setting, entries: seq<Entry>, identities: seq<string>, results: seq<StepResult>, i: nat)
    requires IdentityLaw(s.lib) && OrderLaw(s.lib) && Fixed(s.api) && Distinct(entries)
    requires var runs := Chain(s, 0, entries, AskedWith(identities));
             Merged(runs[0].steps, results, StepsOf(runs[1..]))
    requires i < |results|
    ensures var order := s.lib.order(entries);
            |results| == |order| && results[i].outcome == RulePerObject(s, AskedWith(identities), order[i])
  {
    hide StepOf;
    hide RulePerObject;
    ResultsAreAnswers(s, entries, identities, results);
    ChainRefinesRule(s, AskedWith(identities), s.lib.order(entries)[i]);
  }

  /** The rule per object sends a DELETE for e. */
  ghost predicate RuleSends(s: Setting, ids: seq<string>, e: Entry)
    requires ids != []
  {
    && s.policy.prune && !s.lib.excluded(e)
    && s.api.read(0, e).Found? && s.api.read(0, e).live.entry == e
    && JudgeDelete(s.lib, e, s.api.read(0, e).live, ids).Proceed?
  }

  /** Plan i of the chain that begins with plan k holds e and sends a DELETE for it. */
  ghost predicate PlanSends(s: Setting, k: nat, entries: seq<Entry>, ids: seq<string>, e: Entry, i: nat) {
    && i < |Chain(s, k, entries, ids)| && i < |ids|
    && e in Chain(s, k, entries, ids)[i].plan.entries && Sends(s, k + i, ids[i], e)
  }

  lemma {:induction false} SomePlanSends(s: Setting, k: nat, entries: seq<Entry>, ids: seq<string>, e: Entry)
    returns (i: nat)
    requires OrderLaw(s.lib) && Fixed(s.api) && ids != [] && e in entries && s.policy.prune && !s.lib.excluded(e)
    requires s.api.read(0, e).Found? && s.api.read(0, e).live.entry == e
    requires AskAlong(s.lib, e, s.api.read(0, e).live, s.lib.canDelete(e, s.api.read(0, e).live, ids[0]),
               ids[1..]).Proceed?
    ensures PlanSends(s, k, entries, ids, e, i)
    decreases |ids|
  {
    var live, run := s.api.read(0, e).live, RunOf(s, k, entries, ids[0]);
    assert s.api.read(k, e) == s.api.read(0, e);
    RunEntries(s, k, entries, ids[0]);
    i := 0;
    if !s.lib.canDelete(e, live, ids[0]).Proceed? {
      assert DependsOnIdentity(StepOf(s, k, ids[0], e).outcome);
      var m := SomePlanSends(s, k + 1, Again(run), ids[1..], e);
      i := m + 1;
      assert Chain(s, k, entries, ids) == [run] + Chain(s, k + 1, Again(run), ids[1..]);
      assert Chain(s, k, entries, ids)[i] == Chain(s, k + 1, Again(run), ids[1..])[m];
    }
  }

  /** On a fixed cluster some plan sends a DELETE for an entry exactly when the
      rule does. */
  lemma ChainSendsWhatRuleSends(s: Setting, entries: seq<Entry>, ids: seq<string>, e: Entry)
    requires IdentityLaw(s.lib) && OrderLaw(s.lib) && Fixed(s.api) && ids != [] && e in entries
    ensures (exists i :: PlanSends(s, 0, entries, ids, e, i)) <==> RuleSends(s, ids, e)
  {
    hide StepOf;
    hide RunOf;
    hide Chain;
    var answer := s.api.read(0, e);
    if RuleSends(s, ids, e) {
      var i := SomePlanSends(s, 0, entries, ids, e);
    }
    if i :| PlanSends(s, 0, entries, ids, e, i) {
      assert s.api.read(i, e) == answer;
      JudgeDeleteProceedsForSome(s.lib, e, answer.live, ids);
    }
  }

  /** Over the caller's own list: on a fixed cluster, where a DELETE is
      accepted, an entry is deleted by some plan exactly when some identity of
      the list lets it, or "no identity" when the list is empty. */
  lemma DeletedIffSomeIdentityLets(s: Setting, entries: seq<Entry>, identities: seq<string>, e: Entry)
    requires IdentityLaw(s.lib) && OrderLaw(s.lib) && Fixed(s.api) && e in entries
    requires s.api.read(0, e).Found? ==> s.api.delete(0, e, s.api.read(0, e).live.uid).Accepted?
    ensures var runs, answer := Chain(s, 0, entries, AskedWith(identities)), s.api.read(0, e);
            (exists i, r :: 0 <= i < |runs| && r in runs[i].steps && r.entry == e && r.outcome.Deleted?) <==>
              && s.policy.prune && !s.lib.excluded(e) && answer.Found? && answer.live.entry == e
              && if identities == [] then s.lib.canDelete(e, answer.live, "").Proceed?
                 else exists i :: 0 <= i < |identities| && s.lib.canDelete(e, answer.live, identities[i]).Proceed?
  {
    var ids, answer := AskedWith(identities), s.api.read(0, e);
    ChainSendsWhatRuleSends(s, entries, ids, e);
    if answer.Found? { JudgeDeleteProceedsForSome(s.lib, e, answer.live, ids); }
    var runs := Chain(s, 0, entries, ids);
    hide JudgeDelete;
    hide Chain;
    hide PlanSends;
    forall i: nat | i < |runs|
      ensures (exists r :: r in runs[i].steps && r.entry == e && r.outcome.Deleted?) <==>
                PlanSends(s, 0, entries, ids, e, i)
    {
      PlanDeletesWhatItSends(s, entries, ids, e, i);
    }
    SendingPlanIsThere(s, entries, ids, e);
  }

  lemma SendingPlanIsThere(s: Setting, entries: seq<Entry>, ids: seq<string>, e: Entry)
    ensures forall i: nat :: PlanSends(s, 0, entries, ids, e, i) ==> i < |Chain(s, 0, entries, ids)|
  {
  }

  lemma PlanDeletesWhatItSends(s: Setting, entries: seq<Entry>, ids: seq<string>, e: Entry, i: nat)
    requires Fixed(s.api) && i < |Chain(s, 0, entries, ids)|
    requires s.api.read(0, e).Found? ==> s.api.delete(0, e, s.api.read(0, e).live.uid).Accepted?
    ensures (exists r :: r in Chain(s, 0, entries, ids)[i].steps && r.entry == e && r.outcome.Deleted?) <==>
              PlanSends(s, 0, entries, ids, e, i)
  {
    ChainLinks(s, 0, entries, ids, i);
    var run := Chain(s, 0, entries, ids)[i];
    hide Chain;
    StepDeletesIff(s, i, ids[i], e);
    hide StepOf;
    hide Sends;
    if e in run.plan.entries {
      var m :| 0 <= m < |run.plan.entries| && run.plan.entries[m] == e;
      assert run.steps[m] == StepOf(s, i, ids[i], e) && run.steps[m] in run.steps;
    }
    if r :| r in run.steps && r.entry == e && r.outcome.Deleted? {
      var m :| 0 <= m < |run.steps| && run.steps[m] == r;
      StepNamesEntry(s, i, ids[i], run.plan.entries[m]);
      assert r == StepOf(s, i, ids[i], e);
    }
  }

  lemma StepDeletesIff(s: Setting, i: nat, id: string, e: Entry)
    requires Fixed(s.api)
    requires s.api.read(0, e).Found? ==> s.api.delete(0, e, s.api.read(0, e).live.uid).Accepted?
    ensures StepOf(s, i, id, e).outcome.Deleted? <==> Sends(s, i, id, e)
    ensures StepOf(s, i, id, e).entry == e
  {
    assert s.api.read(i, e) == s.api.read(0, e);
    if s.api.read(0, e).Found? {
      assert s.api.delete(i, e, s.api.read(0, e).live.uid) == s.api.delete(0, e, s.api.read(0, e).live.uid);
    }
  }

  // ---- the report ---------------------------------------------------------

  /** A PersistentVolumeClaim of the core API group. */
  predicate IsDataClaim(e: Entry) {
    e.group == "" && e.kind == "PersistentVolumeClaim"
  }

  function Claim(): Entry -> bool { (e: Entry) => IsDataClaim(e) }
  function NoClaim(): Entry -> bool { (e: Entry) => !IsDataClaim(e) }

  function Planned(entries: seq<Entry>, deleteData: bool): seq<Entry> {
    if deleteData then entries else Filter(entries, NoClaim())
  }

  function KeptOut(entries: seq<Entry>, deleteData: bool): seq<Entry> {
    if deleteData then [] else Filter(entries, Claim())
  }

  /** Exactly the claims of the core API group are kept out, when the data is kept. */
  lemma PlannedMeans(entries: seq<Entry>, deleteData: bool, e: Entry)
    ensures e in KeptOut(entries, deleteData) <==>
              e in entries && !deleteData && e.group == "" && e.kind == "PersistentVolumeClaim"
    ensures e in Planned(entries, deleteData) <==>
              e in entries && (deleteData || e.group != "" || e.kind != "PersistentVolumeClaim")
    ensures deleteData ==> Planned(entries, deleteData) == entries
  {
    FilterMembers(entries, Claim());
    FilterMembers(entries, NoClaim());
  }

  method SplitKeptClaims(entries: seq<Entry>, deleteData: bool) returns (planned: seq<Entry>, claims: seq<Entry>)
    ensures planned == Planned(entries, deleteData) && claims == KeptOut(entries, deleteData)
    ensures forall e :: e in claims <==>
              e in entries && !deleteData && e.group == "" && e.kind == "PersistentVolumeClaim"
    ensures forall e :: e in planned <==>
              e in entries && (deleteData || e.group != "" || e.kind != "PersistentVolumeClaim")
    ensures |planned| + |claims| == |entries|
  {
    forall e
      ensures e in KeptOut(entries, deleteData) <==>
                e in entries && !deleteData && e.group == "" && e.kind == "PersistentVolumeClaim"
      ensures e in Planned(entries, deleteData) <==>
                e in entries && (deleteData || e.group != "" || e.kind != "PersistentVolumeClaim")
    {
      PlannedMeans(entries, deleteData, e);
    }
    CountSplit(entries);
    if deleteData {
      return entries, [];
    }
    planned, claims := [], [];
    for i := 0 to |entries|
      invariant planned == Filter(entries[..i], NoClaim()) && claims == Filter(entries[..i], Claim())
    {
      FilterStep(entries, i, NoClaim());
      FilterStep(entries, i, Claim());
      if IsDataClaim(entries[i]) {
        claims := claims + [entries[i]];
        continue;
      }
      planned := planned + [entries[i]];
    }
    FilterAll(entries, NoClaim());
    FilterAll(entries, Claim());
  }

  /** With the data kept, no plan of the chain holds a claim. */
  lemma KeptClaimsAreNeverPlanned(s: Setting, entries: seq<Entry>, ids: seq<string>, i: nat, e: Entry)
    requires OrderLaw(s.lib)
    requires i < |Chain(s, 0, Planned(entries, false), ids)|
    requires e in Chain(s, 0, Planned(entries, false), ids)[i].plan.entries
    ensures e in entries && !(e.group == "" && e.kind == "PersistentVolumeClaim")
  {
    FilterMembers(entries, NoClaim());
    ChainPlan(s, 0, Planned(entries, false), ids, i, e);
  }

  datatype LeftBehind = LeftBehind(entry: Entry, reason: SkipReason, message: string)

  datatype Report = Report(deleted: nat, skipped: nat, left: seq<LeftBehind>, kept: seq<Entry>, failed: seq<StepResult>)

  /** How one entry ends. A kept claim may have been unreadable. */
  datatype Fate = FDeleted | FLeft | FAbsent | FFailed | FKeptClaim | FLeftClaim | FGoneClaim | FNoOutcome

  function FateOf(o: Outcome): Fate {
    match o
    case Deleted => FDeleted
    case Skipped(reason, _) => if reason == AlreadyAbsent then FAbsent else FLeft
    case Failed(_, _) => FFailed
    case NoOutcome => FNoOutcome
  }

  function WithFate(f: Fate): StepResult -> bool { (r: StepResult) => FateOf(r.outcome) == f }

  function AsLeft(): StepResult -> LeftBehind {
    (r: StepResult) => if r.outcome.Skipped? then LeftBehind(r.entry, r.outcome.reason, r.outcome.message)
                       else LeftBehind(r.entry, AlreadyAbsent, "")
  }

  /** What a deletion keeps of a claim: its read, judged along the identities. */
  function ClaimFate(lib: Library, answer: ReadAnswer, ids: seq<string>, e: Entry): Fate
    requires ids != []
  {
    match answer
    case ReadNotFound => FGoneClaim
    case ReadFailed(_) => FKeptClaim
    case Found(live) => if JudgeDelete(lib, e, live, ids).Proceed? then FKeptClaim else FLeftClaim
  }

  function ClaimWithFate(lib: Library, read: Entry -> ReadAnswer, identities: seq<string>, f: Fate): Entry -> bool {
    (e: Entry) => ClaimFate(lib, read(e), AskedWith(identities), e) == f
  }

  function ClaimAsLeft(lib: Library, read: Entry -> ReadAnswer, identities: seq<string>): Entry -> LeftBehind {
    (e: Entry) =>
      if read(e).Found? && JudgeDelete(lib, e, read(e).live, AskedWith(identities)).Skip? then
        var v := JudgeDelete(lib, e, read(e).live, AskedWith(identities));
        LeftBehind(e, v.reason, v.message)
      else LeftBehind(e, AlreadyAbsent, "")
  }

  /** A kept-out claim that the deletion would have deleted, for some identity
      of the list, or that cannot be read. */
  ghost predicate KeepsClaim(lib: Library, read: Entry -> ReadAnswer, identities: seq<string>, e: Entry) {
    || read(e).ReadFailed?
    || (read(e).Found? && exists i :: 0 <= i < |identities| && lib.canDelete(e, read(e).live, identities[i]).Proceed?)
  }

  /** A kept-out claim that no identity of the list may delete, with the answer to the first. */
  ghost predicate LeavesClaim(lib: Library, read: Entry -> ReadAnswer, identities: seq<string>, l: LeftBehind)
    requires identities != []
  {
    && read(l.entry).Found?
    && (forall i | 0 <= i < |identities| :: lib.canDelete(l.entry, read(l.entry).live, identities[i]).Skip?)
    && lib.canDelete(l.entry, read(l.entry).live, identities[0]) == Skip(l.reason, l.message)
  }

  lemma ClaimsMean(lib: Library, read: Entry -> ReadAnswer, identities: seq<string>, claims: seq<Entry>)
    ensures IdentityLaw(lib) && identities != [] ==>
              && (forall e :: e in Filter(claims, ClaimWithFate(lib, read, identities, FKeptClaim)) <==>
                    e in claims && KeepsClaim(lib, read, identities, e))
              && (forall l: LeftBehind :: l in Map(Filter(claims, ClaimWithFate(lib, read, identities, FLeftClaim)),
                                 ClaimAsLeft(lib, read, identities)) <==>
                    l.entry in claims && LeavesClaim(lib, read, identities, l))
  {
    if IdentityLaw(lib) && identities != [] {
      var leaves, asLeft := ClaimWithFate(lib, read, identities, FLeftClaim), ClaimAsLeft(lib, read, identities);
      FilterMembers(claims, ClaimWithFate(lib, read, identities, FKeptClaim));
      FilterMembers(claims, leaves);
      forall e | read(e).Found?
        ensures JudgeDelete(lib, e, read(e).live, identities).Proceed? <==>
                  exists i :: 0 <= i < |identities| && lib.canDelete(e, read(e).live, identities[i]).Proceed?
        ensures !JudgeDelete(lib, e, read(e).live, identities).Proceed? ==>
                  JudgeDelete(lib, e, read(e).live, identities) == lib.canDelete(e, read(e).live, identities[0])
      {
        JudgeDeleteProceedsForSome(lib, e, read(e).live, identities);
      }
      hide JudgeDelete;
      var left := Filter(claims, leaves);
      forall l: LeftBehind
        ensures l in Map(left, asLeft) <==> l.entry in claims && LeavesClaim(lib, read, identities, l)
      {
        if l in Map(left, asLeft) {
          var i :| 0 <= i < |left| && Map(left, asLeft)[i] == l;
          assert left[i] in left;
        }
        if l.entry in claims && LeavesClaim(lib, read, identities, l) {
          assert leaves(l.entry);
          var i :| 0 <= i < |left| && left[i] == l.entry;
          assert Map(left, asLeft)[i] == l;
        }
      }
    }
  }

  method ClassifyKeptClaims(lib: Library, read: Entry -> ReadAnswer, identities: seq<string>, claims: seq<Entry>)
    returns (kept: seq<Entry>, left: seq<LeftBehind>)
    ensures kept == Filter(claims, ClaimWithFate(lib, read, identities, FKeptClaim))
    ensures left == Map(Filter(claims, ClaimWithFate(lib, read, identities, FLeftClaim)),
              ClaimAsLeft(lib, read, identities))
    ensures IdentityLaw(lib) && identities != [] ==>
              && (forall e :: e in kept <==> e in claims && KeepsClaim(lib, read, identities, e))
              && (forall l: LeftBehind :: l in left <==> l.entry in claims && LeavesClaim(lib, read, identities, l))
  {
    ClaimsMean(lib, read, identities, claims);
    kept, left := [], [];
    var keeps, leaves := ClaimWithFate(lib, read, identities, FKeptClaim),
        ClaimWithFate(lib, read, identities, FLeftClaim);
    for i := 0 to |claims|
      invariant kept == Filter(claims[..i], keeps)
      invariant left == Map(Filter(claims[..i], leaves), ClaimAsLeft(lib, read, identities))
    {
      FilterStep(claims, i, keeps);
      FilterStep(claims, i, leaves);
      var e := claims[i];
      match read(e) {
        case ReadNotFound =>
        case ReadFailed(_) =>
          kept := kept + [e];
        case Found(live) =>
          var verdict := JudgeDeleteInTurn(lib, e, live, identities);
          if verdict.Skip? {
            left := left + [LeftBehind(e, verdict.reason, verdict.message)];
          } else {
            kept := kept + [e];
          }
      }
    }
    FilterAll(claims, keeps);
    FilterAll(claims, leaves);
  }

  /** Counts and names what the plans did, from the result of each entry. */
  method ReportResults(results: seq<StepResult>) returns (deleted: nat, left: seq<LeftBehind>, failed: seq<StepResult>)
    ensures deleted == |Filter(results, WithFate(FDeleted))|
    ensures left == Map(Filter(results, WithFate(FLeft)), AsLeft())
    ensures failed == Filter(results, WithFate(FFailed))
    ensures deleted == |set i | 0 <= i < |results| && results[i].outcome.Deleted?|
    ensures forall r :: r in failed <==> r in results && r.outcome.Failed?
    ensures forall l :: l in left <==> exists r ::
                r in results && r.outcome.Skipped? && r.outcome.reason != AlreadyAbsent
                && l == LeftBehind(r.entry, r.outcome.reason, r.outcome.message)
  {
    ResultsMean(results);
    deleted, left, failed := 0, [], [];
    for i := 0 to |results|
      invariant deleted == |Filter(results[..i], WithFate(FDeleted))|
      invariant left == Map(Filter(results[..i], WithFate(FLeft)), AsLeft())
      invariant failed == Filter(results[..i], WithFate(FFailed))
    {
      FilterStep(results, i, WithFate(FDeleted));
      FilterStep(results, i, WithFate(FLeft));
      FilterStep(results, i, WithFate(FFailed));
      var step := results[i];
      match step.outcome {
        case Deleted => deleted := deleted + 1;
        case Skipped(reason, message) =>
          if reason == AlreadyAbsent {
            continue;
          }
          left := left + [LeftBehind(step.entry, reason, message)];
        case Failed(_, _) => failed := failed + [step];
        case NoOutcome =>
      }
    }
    FilterAll(results, WithFate(FDeleted));
    FilterAll(results, WithFate(FLeft));
    FilterAll(results, WithFate(FFailed));
  }

  lemma ResultsMean(results: seq<StepResult>)
    ensures |Filter(results, WithFate(FDeleted))| == |set i | 0 <= i < |results| && results[i].outcome.Deleted?|
    ensures forall r :: r in Filter(results, WithFate(FFailed)) <==> r in results && r.outcome.Failed?
    ensures forall l :: l in Map(Filter(results, WithFate(FLeft)), AsLeft()) <==> exists r ::
                r in results && r.outcome.Skipped? && r.outcome.reason != AlreadyAbsent
                && l == LeftBehind(r.entry, r.outcome.reason, r.outcome.message)
  {
    CountDeleted(results);
    FilterMembers(results, WithFate(FFailed));
    FilterMembers(results, WithFate(FLeft));
    var left := Filter(results, WithFate(FLeft));
    forall l
      ensures l in Map(left, AsLeft()) <==> exists r ::
                  r in results && r.outcome.Skipped? && r.outcome.reason != AlreadyAbsent
                  && l == LeftBehind(r.entry, r.outcome.reason, r.outcome.message)
    {
      if l in Map(left, AsLeft()) {
        var i :| 0 <= i < |left| && Map(left, AsLeft())[i] == l;
        assert left[i] in left;
      }
      if r :| r in results && r.outcome.Skipped? && r.outcome.reason != AlreadyAbsent
              && l == LeftBehind(r.entry, r.outcome.reason, r.outcome.message) {
        assert r in left;
        var i :| 0 <= i < |left| && left[i] == r;
        assert Map(left, AsLeft())[i] == l;
      }
    }
  }

  function DeletedAt(results: seq<StepResult>): (at: set<int>)
    ensures forall i | i in at :: i < |results|
  {
    set i | 0 <= i < |results| && results[i].outcome.Deleted?
  }

  lemma DeletedAtStep(results: seq<StepResult>)
    requires results != []
    ensures var n := |results| - 1;
            DeletedAt(results) == DeletedAt(results[..n]) + if results[n].outcome.Deleted? then {n} else {}
  {
  }

  lemma {:induction false} CountDeleted(results: seq<StepResult>)
    ensures |Filter(results, WithFate(FDeleted))| == |set i | 0 <= i < |results| && results[i].outcome.Deleted?|
  {
    if results != [] {
      var n := |results| - 1;
      CountDeleted(results[..n]);
      var at, all := DeletedAt(results[..n]), DeletedAt(results);
      DeletedAtStep(results);
      hide *;
      assert n !in at ==> |at + {n}| == |at| + 1;
    }
  }

  method RunCleanup(s: Setting, claimRead: Entry -> ReadAnswer, entries: seq<Entry>, identities: seq<string>,
          deleteData: bool)
    returns (runs: seq<DeletionRun>, report: Report, ghost results: seq<StepResult>)
    ensures runs == Chain(s, 0, Planned(entries, deleteData), AskedWith(identities))
    ensures Merged(runs[0].steps, results, StepsOf(runs[1..]))
    ensures !s.policy.prune ==> report == Report(0, 0, [], [], [])
    ensures s.policy.prune ==>
              var claims := KeptOut(entries, deleteData);
              && report.deleted == |Filter(results, WithFate(FDeleted))|
              && report.left == Map(Filter(results, WithFate(FLeft)), AsLeft())
                                + Map(Filter(claims, ClaimWithFate(s.lib, claimRead, identities, FLeftClaim)),
                                    ClaimAsLeft(s.lib, claimRead, identities))
              && report.skipped == |report.left|
              && report.kept == Filter(claims, ClaimWithFate(s.lib, claimRead, identities, FKeptClaim))
              && report.failed == Filter(results, WithFate(FFailed))
              && report.deleted == |set i | 0 <= i < |results| && results[i].outcome.Deleted?|
              && (forall r :: r in report.failed <==> r in results && r.outcome.Failed?)
    ensures s.policy.prune && identities != [] && IdentityLaw(s.lib) ==>
              forall e :: e in report.kept <==>
                  && e in entries && !deleteData && e.group == "" && e.kind == "PersistentVolumeClaim"
                  && KeepsClaim(s.lib, claimRead, identities, e)
  {
    hide StepOf;
    var planned, claims := SplitKeptClaims(entries, deleteData);
    runs := RunDeletion(s, planned, identities);
    var merged := Results(runs);
    results := merged;
    report := Report(0, 0, [], [], []);
    if !s.policy.prune {
      return;
    }
    var deleted, left, failed := ReportResults(merged);
    var kept, leftClaims := ClassifyKeptClaims(s.lib, claimRead, identities, claims);
    report := Report(deleted, |left + leftClaims|, left + leftClaims, kept, failed);
  }

  /** Every planned entry ends in exactly one of deleted, left, absent and
      failed; every kept-out claim in exactly one of kept, left and gone. So a
      report accounts for every entry. */
  lemma ReportConservesEntries(s: Setting, claimRead: Entry -> ReadAnswer, entries: seq<Entry>, identities: seq<string>,
                               deleteData: bool, results: seq<StepResult>)
    requires OrderLaw(s.lib) && s.policy.prune
    requires var runs := Chain(s, 0, Planned(entries, deleteData), AskedWith(identities));
             Merged(runs[0].steps, results, StepsOf(runs[1..]))
    ensures var claims := KeptOut(entries, deleteData);
            |Filter(results, WithFate(FDeleted))| + |Filter(results, WithFate(FLeft))|
            + |Filter(results, WithFate(FAbsent))| + |Filter(results, WithFate(FFailed))|
            + |Filter(claims, ClaimWithFate(s.lib, claimRead, identities, FKeptClaim))|
            + |Filter(claims, ClaimWithFate(s.lib, claimRead, identities, FLeftClaim))|
            + |Filter(claims, ClaimWithFate(s.lib, claimRead, identities, FGoneClaim))|
            == |entries|
  {
    hide StepOf;
    var planned, ids := Planned(entries, deleteData), AskedWith(identities);
    var runs := Chain(s, 0, planned, ids);
    RunEntries(s, 0, planned, ids[0]);
    assert runs[1..] == Chain(s, 1, Again(runs[0]), ids[1..]);
    EveryStepEnds(s, 1, Again(runs[0]), ids[1..]);
    forall i | 0 <= i < |results|
      ensures results[i].outcome != NoOutcome
    {
      StepEnds(s, 0, ids[0], runs[0].plan.entries[i]);
      LastSettledIsSeen(StepsOf(runs[1..]), runs[0].steps[i].entry, runs[0].steps[i]);
    }
    CountFates(results);
    CountClaimFates(s.lib, claimRead, identities, KeptOut(entries, deleteData));
    if !deleteData {
      CountSplit(entries);
    }
  }

  lemma StepEnds(s: Setting, k: nat, id: string, e: Entry)
    requires s.policy.prune
    ensures StepOf(s, k, id, e).outcome != NoOutcome
  {
  }

  lemma {:induction false} EveryStepEnds(s: Setting, k: nat, entries: seq<Entry>, ids: seq<string>)
    requires OrderLaw(s.lib) && s.policy.prune
    ensures forall i | 0 <= i < |StepsOf(Chain(s, k, entries, ids))| ::
              StepsOf(Chain(s, k, entries, ids))[i].outcome != NoOutcome
    decreases |ids|
  {
    hide StepOf;
    if ids != [] && !(k > 0 && entries == []) {
      var run := RunOf(s, k, entries, ids[0]);
      RunEntries(s, k, entries, ids[0]);
      StepsOfHead(run, Chain(s, k + 1, Again(run), ids[1..]));
      EveryStepEnds(s, k + 1, Again(run), ids[1..]);
      forall i | 0 <= i < |run.steps|
        ensures run.steps[i].outcome != NoOutcome
      {
        StepEnds(s, k, ids[0], run.plan.entries[i]);
      }
    }
  }

  lemma {:induction false} LastSettledIsSeen(steps: seq<StepResult>, e: Entry, fallback: StepResult)
    ensures LastSettled(steps, e, fallback) in steps + [fallback]
  {
    if steps != [] {
      LastSettledIsSeen(steps[..|steps| - 1], e, fallback);
      assert forall r | r in steps[..|steps| - 1] + [fallback] :: r in steps + [fallback];
    }
  }

  lemma {:induction false} CountFates(results: seq<StepResult>)
    requires forall i | 0 <= i < |results| :: FateOf(results[i].outcome) != FNoOutcome
    ensures |Filter(results, WithFate(FDeleted))| + |Filter(results, WithFate(FLeft))|
            + |Filter(results, WithFate(FAbsent))| + |Filter(results, WithFate(FFailed))| == |results|
  {
    if results != [] {
      CountFates(results[..|results| - 1]);
    }
  }

  lemma {:induction false} CountClaimFates(lib: Library, read: Entry -> ReadAnswer, identities: seq<string>,
          claims: seq<Entry>)
    ensures |Filter(claims, ClaimWithFate(lib, read, identities, FKeptClaim))|
            + |Filter(claims, ClaimWithFate(lib, read, identities, FLeftClaim))|
            + |Filter(claims, ClaimWithFate(lib, read, identities, FGoneClaim))| == |claims|
  {
    if claims != [] {
      CountClaimFates(lib, read, identities, claims[..|claims| - 1]);
    }
  }

  lemma {:induction false} CountSplit(entries: seq<Entry>)
    ensures |Filter(entries, NoClaim())| + |Filter(entries, Claim())| == |entries|
  {
    if entries != [] {
      CountSplit(entries[..|entries| - 1]);
    }
  }
}
