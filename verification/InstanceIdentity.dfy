/** What a render's instance identity means for the two recorded ones
    (internal/reconcile/identity.go). The empty string is "no identity". */
module InstanceIdentity {
  import opened Seqs

  function NonEmpty(): string -> bool {
    (id: string) => id != ""
  }

  /** The list a prune or a deletion cleanup judges with. */
  method RecordedIdentities(ids: seq<string>) returns (out: seq<string>)
    ensures out == Filter(ids, NonEmpty())
  {
    out := [];
    for i := 0 to |ids|
      invariant out == Filter(ids[..i], NonEmpty())
    {
      FilterStep(ids, i, NonEmpty());
      if ids[i] != "" {
        out := out + [ids[i]];
      }
    }
    FilterAll(ids, NonEmpty());
  }

  datatype Plan = Plan(current: string, previous: string, changed: bool, refused: bool, prune: seq<string>)

  function PlanIdentities(recorded: string, previous: string, rendered: string, legacyFallback: bool): Plan {
    var keep := Plan(recorded, previous, false, false, Filter([recorded, previous], NonEmpty()));
    if rendered == "" || rendered == recorded then keep
    else if recorded == "" then
      Plan(rendered, "", true, false, [rendered] + if legacyFallback then [""] else [])
    else if previous == "" then
      Plan(rendered, recorded, true, false, [rendered, recorded])
    else if rendered == previous then
      Plan(previous, recorded, true, false, [previous, recorded])
    else keep.(refused := true)
  }

  /** A status in which an earlier identity is recorded only beside a current, different one. */
  predicate WellRecorded(current: string, previous: string) {
    previous != "" ==> current != "" && current != previous
  }

  predicate KeepsNoOp(plan: Plan, isNoOp: bool) {
    isNoOp && plan.previous == ""
  }

  /** Two fields can name every identity in ids. */
  ghost predicate FitTwoFields(ids: set<string>) {
    exists a: string, b: string :: ids <= {"", a, b}
  }

  /** A render is refused exactly when the recorded identities and its own do
      not fit the two fields, and every plan that is not refused records all
      of them, the render's as the current one. */
  lemma RefusedIffTooMany(recorded: string, previous: string, rendered: string, legacy: bool)
    requires WellRecorded(recorded, previous)
    ensures var p := PlanIdentities(recorded, previous, rendered, legacy);
            p.refused <==> !FitTwoFields({recorded, previous, rendered})
    ensures var p := PlanIdentities(recorded, previous, rendered, legacy);
            !p.refused ==> {recorded, previous, rendered} <= {"", p.current, p.previous}
                           && (rendered != "" ==> p.current == rendered)
    ensures var p := PlanIdentities(recorded, previous, rendered, legacy);
            p.changed <==> p.current != recorded || p.previous != previous
    ensures var p := PlanIdentities(recorded, previous, rendered, legacy);
            WellRecorded(p.current, p.previous)
  {
    var p, ids := PlanIdentities(recorded, previous, rendered, legacy), {recorded, previous, rendered};
    if p.refused {
      forall a: string, b: string
        ensures !(ids <= {"", a, b})
      {
        assert recorded in ids && previous in ids && rendered in ids;
      }
    } else {
      assert ids <= {"", p.current, p.previous};
    }
  }

  /** A render that equals what was last applied is a no-op exactly when no
      earlier identity is recorded and the render brings no second one. */
  lemma NoOpIffSettled(recorded: string, previous: string, rendered: string, legacy: bool, same: bool)
    requires WellRecorded(recorded, previous)
    ensures KeepsNoOp(PlanIdentities(recorded, previous, rendered, legacy), same) <==>
              same && previous == "" && (rendered == "" || recorded == "" || rendered == recorded)
  {
  }

  /** The prune of a plan asks with every identity the plan records, the
      current one first; only a ModulePackage's first identity adds "none". */
  lemma PruneAsksEveryIdentity(recorded: string, previous: string, rendered: string, legacy: bool)
    requires WellRecorded(recorded, previous)
    ensures var p := PlanIdentities(recorded, previous, rendered, legacy);
            Filter(p.prune, NonEmpty()) == Filter([p.current, p.previous], NonEmpty())
    ensures var p := PlanIdentities(recorded, previous, rendered, legacy);
            "" in p.prune <==> legacy && recorded == "" && rendered != ""
  {
    var p := PlanIdentities(recorded, previous, rendered, legacy);
    FilterMembers([recorded, previous], NonEmpty());
    FilterTwo(p.current, p.previous);
    FilterTwo(recorded, previous);
    if p.changed && recorded == "" && legacy {
      FilterTwo(rendered, "");
      assert p.prune == [rendered, ""];
    } else if p.changed && recorded == "" {
      assert Filter([rendered], NonEmpty()) == [rendered] by { assert [rendered][..0] == []; }
    } else if !p.changed {
      FilterTrivial(p.prune, NonEmpty());
    }
  }

  lemma FilterTwo(a: string, b: string)
    ensures Filter([a, b], NonEmpty()) == (if a != "" then [a] else []) + (if b != "" then [b] else [])
    ensures "" !in Filter([a, b], NonEmpty())
  {
    var two := [a, b];
    FilterStep(two, 0, NonEmpty());
    FilterStep(two, 1, NonEmpty());
    assert two[..0] == [] && two[..2] == two && two[0] == a && two[1] == b;
  }

  /** How a status patch ends. A Lost patch is an error to the caller that the
      API server committed all the same. */
  datatype Reply = Committed | Refused | Lost

  /** The two identity fields of one object: as the reconcile holds them, and
      as the API server stores them. */
  class IdentityFields {
    var current: string
    var previous: string
    var storedCurrent: string
    var storedPrevious: string

    constructor (current: string, previous: string)
      ensures this.current == storedCurrent == current && this.previous == storedPrevious == previous
    {
      this.current, this.previous, storedCurrent, storedPrevious := current, previous, current, previous;
    }

    /** Writes a changed plan and commits it before the first write of an
        apply. On true the API server stores the plan; on false nothing may be
        applied. */
    method Store(plan: Plan, reply: Reply) returns (ok: bool)
      requires current == storedCurrent && previous == storedPrevious
      requires exists rendered: string, legacy: bool :: plan == PlanIdentities(current, previous, rendered, legacy)
      modifies this
      ensures current == plan.current && previous == plan.previous
      ensures ok <==> (plan.changed ==> reply.Committed?)
      ensures ok ==> storedCurrent == plan.current && storedPrevious == plan.previous
      ensures plan.changed && reply.Refused? ==>
                storedCurrent == old(storedCurrent) && storedPrevious == old(storedPrevious)
      ensures plan.changed && reply.Lost? ==> storedCurrent == plan.current && storedPrevious == plan.previous
    {
      if !plan.changed {
        return true;
      }
      current, previous := plan.current, plan.previous;
      if !reply.Refused? {
        storedCurrent, storedPrevious := current, previous;
      }
      ok := reply.Committed?;
    }

    /** A reconcile that applies nothing records an identity only where none is. */
    method FillEmpty(plan: Plan)
      modifies this`current
      ensures current == if old(current) == "" then plan.current else old(current)
    {
      if current == "" {
        current := plan.current;
      }
    }
  }
}

/** Every run of one ModuleInstance's reconciles, as far as identities and the
    labels on its objects go. A reconcile is cut into its writes, so a run may
    stop it anywhere, and other writers interleave with it. */
module IdentityRuns {
  import opened InstanceIdentity
  import opened Seqs

  /** An object on the cluster: the UUID label it carries ("" for none), and
      whether this instance wrote that label last. */
  datatype Live = Live(uuid: string, mine: bool)

  datatype Status = Status(current: string, previous: string, inventory: set<string>)

  datatype Phase =
    | Idle
    | Writing(plan: Plan, rendered: string, objects: set<string>, pending: set<string>, next: set<string>, doomed: bool)
    | Pruning(plan: Plan, next: set<string>, stale: set<string>)

  datatype State = State(stored: Status, cluster: map<string, Live>, phase: Phase)

  /** What the guard and drift detection found about the rendered objects. */
  datatype Findings = Findings(
    withheld: set<string>, letGo: set<string>, refused: set<string>,
    takenIn: set<string>, missing: set<string>, expired: set<string>)

  predicate Mine(cluster: map<string, Live>, o: string) {
    o in cluster && cluster[o].mine
  }

  /** The guard reads every object that is not withheld. An allowed object
      outside the inventory that this instance wrote exists, so it is taken
      in; drift detection never sees a taken-in object. */
  ghost predicate Sorted(s: State, objects: set<string>, f: Findings) {
    && f.withheld <= objects
    && f.letGo + f.refused + f.takenIn + f.missing <= objects - f.withheld
    && f.letGo !! f.refused !! f.takenIn !! f.missing
    && f.takenIn !! s.stored.inventory
    && f.expired <= f.missing
    && (forall o | o in objects - f.withheld - f.letGo - f.refused - s.stored.inventory && Mine(s.cluster, o) ::
          o in f.takenIn)
  }

  function Filled(stored: Status, plan: Plan): Status {
    stored.(current := if stored.current == "" then plan.current else stored.current)
  }

  /** The identities are stored, then the writes start; a patch that failed
      ends the reconcile, and the deferred patch may commit the fields after all. */
  ghost predicate StoresAndWrites(s: State, s': State, plan: Plan, rendered: string, objects: set<string>,
                                  pending: set<string>, next: set<string>, doomed: bool)
  {
    var stored := s.stored.(current := plan.current, previous := plan.previous);
    || s' == s.(stored := stored, phase := Writing(plan, rendered, objects, pending, next, doomed))
    || s' == s
    || s' == s.(stored := stored)
  }

  /** One reconcile up to its first write: a refusal, a failed guard, a no-op
      commit, or the start of a restore or of a full apply. */
  ghost predicate Begin(s: State, s': State, rendered: string, objects: set<string>,
                        sameDigests: bool, guardFailed: bool, f: Findings)
  {
    && s.phase.Idle?
    && var plan := PlanIdentities(s.stored.current, s.stored.previous, rendered, false);
       var noOp := KeepsNoOp(plan, sameDigests && f.withheld == {});
       if plan.refused then s' == s
       else if guardFailed then
         s' == s || (noOp && s' == s.(stored := Filled(s.stored, plan)))
       else
         && Sorted(s, objects, f)
         && if noOp then
              if f.refused - s.stored.inventory != {} then s' == s
              else if f.takenIn == {} && f.missing == f.expired then
                s' == s
                || s' == s.(stored := Filled(s.stored, plan).(inventory := s.stored.inventory - f.expired - f.letGo))
              else
                StoresAndWrites(s, s', plan, rendered, objects, f.missing - f.expired + f.takenIn,
                                objects - f.expired - f.letGo, false)
            else if f.refused != {} then s' == s
            else
              StoresAndWrites(s, s', plan, rendered, objects, objects - f.letGo - f.withheld,
                              objects - f.letGo, f.withheld != {})
  }

  /** An apply writes the render's identity on one object. */
  ghost predicate WriteOne(s: State, s': State, o: string) {
    && s.phase.Writing? && o in s.phase.pending
    && s' == s.(cluster := s.cluster[o := Live(s.phase.rendered, true)],
                phase := s.phase.(pending := s.phase.pending - {o}))
  }

  ghost predicate FinishWrites(s: State, s': State, prune: bool) {
    && s.phase.Writing? && s.phase.pending == {} && !s.phase.doomed
    && s' == s.(phase := Pruning(s.phase.plan, s.phase.next,
                                 if prune then s.stored.inventory - s.phase.objects else {}))
  }

  /** The prune deletes one stale object or leaves it. */
  ghost predicate PruneOne(s: State, s': State, o: string) {
    && s.phase.Pruning? && o in s.phase.stale
    && (s'.cluster == s.cluster || s'.cluster == s.cluster - {o})
    && s'.stored == s.stored && s'.phase == s.phase.(stale := s.phase.stale - {o})
  }

  /** The deferred commit of a reconcile whose apply and prune succeeded; its patch may fail. */
  ghost predicate Commit(s: State, s': State) {
    && s.phase.Pruning? && s.phase.stale == {}
    && s'.cluster == s.cluster && s'.phase.Idle?
    && (s'.stored == s.stored || s'.stored == Status(s.phase.plan.current, "", s.phase.next))
  }

  /** A failed write, a failed prune or a crash, anywhere. */
  ghost predicate Stop(s: State, s': State) {
    s' == s.(phase := Idle)
  }

  /** Users and other instances create, relabel and delete objects at any time. */
  ghost predicate Interfere(s: State, s': State) {
    && s'.stored == s.stored && s'.phase == s.phase
    && forall o | Mine(s'.cluster, o) :: o in s.cluster && s'.cluster[o] == s.cluster[o]
  }

  ghost predicate Next(s: State, s': State) {
    || (exists r: string, objects: set<string>, sameDigests: bool, failed: bool, f: Findings ::
          Begin(s, s', r, objects, sameDigests, failed, f))
    || (exists o: string :: WriteOne(s, s', o))
    || (exists prune: bool :: FinishWrites(s, s', prune))
    || (exists o: string :: PruneOne(s, s', o))
    || Commit(s, s') || Stop(s, s') || Interfere(s, s')
  }

  ghost predicate Init(s: State) {
    && s.stored == Status("", "", {}) && s.phase.Idle?
    && forall o | o in s.cluster :: !s.cluster[o].mine
  }

  ghost predicate Run(run: seq<State>) {
    && run != [] && Init(run[0])
    && forall i | 0 <= i < |run| - 1 :: Next(run[i], run[i + 1])
  }

  // ---- a reconcile that nothing disturbs ----------------------------------

  /** Steps of the protocol from one state to another. */
  ghost predicate Leads(run: seq<State>, s: State, t: State) {
    && run != [] && run[0] == s && run[|run| - 1] == t
    && forall i | 0 <= i < |run| - 1 :: Next(run[i], run[i + 1])
  }

  lemma OneMore(run: seq<State>, s: State, t: State, u: State) returns (longer: seq<State>)
    requires Leads(run, s, t) && Next(t, u)
    ensures Leads(longer, s, u)
  {
    hide Next;
    longer := run + [u];
  }

  /** The cluster after these objects were written and those were removed. */
  function Settled(cluster: map<string, Live>, written: set<string>, id: string, removed: set<string>):
    map<string, Live>
  {
    map o | o in cluster.Keys + written && o !in removed :: if o in written then Live(id, true) else cluster[o]
  }

  function AfterWrites(s: State, done: set<string>): State
    requires s.phase.Writing?
  {
    s.(cluster := Settled(s.cluster, done, s.phase.rendered, {}), phase := s.phase.(pending := s.phase.pending - done))
  }

  lemma NothingWritten(s: State)
    requires s.phase.Writing?
    ensures AfterWrites(s, {}) == s
  {
    assert Settled(s.cluster, {}, s.phase.rendered, {}) == s.cluster && s.phase.pending - {} == s.phase.pending;
  }

  lemma SettledMore(cluster: map<string, Live>, written: set<string>, id: string, o: string)
    ensures Settled(cluster, written, id, {})[o := Live(id, true)] == Settled(cluster, written + {o}, id, {})
  {
  }

  lemma OneMoreWritten(s: State, done: set<string>, o: string)
    requires s.phase.Writing? && o in s.phase.pending && o !in done
    ensures Next(AfterWrites(s, done), AfterWrites(s, done + {o}))
  {
    SettledMore(s.cluster, done, s.phase.rendered, o);
    assert s.phase.pending - done - {o} == s.phase.pending - (done + {o});
    hide Settled;
    assert WriteOne(AfterWrites(s, done), AfterWrites(s, done + {o}), o);
    hide WriteOne;
  }

  lemma {:induction false} WritesAll(s: State, todo: set<string>) returns (run: seq<State>)
    requires s.phase.Writing? && todo <= s.phase.pending
    ensures Leads(run, s, AfterWrites(s, todo))
    decreases |todo|
  {
    hide Next;
    hide AfterWrites;
    if todo == {} {
      NothingWritten(s);
      run := [s];
    } else {
      var o :| o in todo;
      run := WritesAll(s, todo - {o});
      OneMoreWritten(s, todo - {o}, o);
      assert todo - {o} + {o} == todo;
      run := OneMore(run, s, AfterWrites(s, todo - {o}), AfterWrites(s, todo));
    }
  }

  lemma {:induction false} PrunesAll(s: State, todo: set<string>) returns (run: seq<State>)
    requires s.phase.Pruning? && todo <= s.phase.stale
    ensures Leads(run, s, s.(cluster := s.cluster - todo, phase := s.phase.(stale := s.phase.stale - todo)))
    decreases |todo|
  {
    if todo == {} {
      assert s.cluster - {} == s.cluster && s.phase.stale - {} == s.phase.stale;
      run := [s];
    } else {
      var o :| o in todo;
      run := PrunesAll(s, todo - {o});
      var t := run[|run| - 1];
      var u := t.(cluster := t.cluster - {o}, phase := t.phase.(stale := t.phase.stale - {o}));
      assert PruneOne(t, u, o);
      run := OneMore(run, s, t, u);
      assert u.phase.stale == s.phase.stale - todo && u.cluster == s.cluster - todo;
    }
  }

  /** An undisturbed reconcile that began to write and is not doomed writes
      every object with the render's identity, removes every inventory object
      that the render lacks, and then records its identity alone and its new
      inventory. */
  lemma ReconcileCompletes(s: State) returns (run: seq<State>)
    requires s.phase.Writing? && !s.phase.doomed && s.phase.pending <= s.phase.objects
    ensures Leads(run, s,
              State(Status(s.phase.plan.current, "", s.phase.next),
                    Settled(s.cluster, s.phase.pending, s.phase.rendered, s.stored.inventory - s.phase.objects), Idle))
  {
    run := WritesAll(s, s.phase.pending);
    var t := run[|run| - 1];
    assert t.phase.pending == {};
    var stale := s.stored.inventory - s.phase.objects;
    var u := t.(phase := Pruning(t.phase.plan, t.phase.next, stale));
    assert FinishWrites(t, u, true);
    run := OneMore(run, s, t, u);
    var pruned := PrunesAll(u, stale);
    var v := pruned[|pruned| - 1];
    run := Joined(run, s, u, pruned, v);
    assert v.phase.stale == {};
    var w := State(Status(v.phase.plan.current, "", v.phase.next), v.cluster, Idle);
    assert Commit(v, w);
    run := OneMore(run, s, v, w);
    assert w.cluster == Settled(s.cluster, s.phase.pending, s.phase.rendered, stale);
  }

  lemma {:induction false} Joined(a: seq<State>, s: State, t: State, b: seq<State>, u: State) returns (run: seq<State>)
    requires Leads(a, s, t) && Leads(b, t, u)
    ensures Leads(run, s, u)
  {
    hide Next;
    run := a + b[1..];
    forall i | 0 <= i < |run| - 1
      ensures Next(run[i], run[i + 1])
    {
      if i >= |a| - 1 {
        assert run[i] == b[i - (|a| - 1)] && run[i + 1] == b[i - (|a| - 1) + 1];
      }
    }
  }

  /** Each of objects whose label this instance wrote carries one of ids, or none. */
  ghost predicate Covered(cluster: map<string, Live>, objects: set<string>, ids: set<string>) {
    forall o | o in objects && Mine(cluster, o) :: cluster[o].uuid in ids + {""}
  }

  ghost predicate Inv(s: State) {
    && WellRecorded(s.stored.current, s.stored.previous)
    && Covered(s.cluster, s.stored.inventory, {s.stored.current, s.stored.previous})
    && (!s.phase.Idle? ==>
          && s.stored.current == s.phase.plan.current && s.stored.previous == s.phase.plan.previous
          && {s.stored.current, s.stored.previous} <= Elems(s.phase.plan.prune) + {""})
    && (s.phase.Writing? ==>
          && s.phase.rendered in {"", s.stored.current}
          && (!s.phase.doomed ==> Covered(s.cluster, s.phase.next - s.phase.pending, {s.stored.current})))
    && (s.phase.Pruning? ==>
          && Covered(s.cluster, s.phase.next, {s.stored.current})
          && s.phase.stale <= s.stored.inventory)
  }

  lemma PlanKeepsInv(current: string, previous: string, rendered: string)
    requires WellRecorded(current, previous)
    ensures var p := PlanIdentities(current, previous, rendered, false);
            && {p.current, p.previous} <= Elems(p.prune) + {""}
            && (!p.refused ==> rendered in {"", p.current})
  {
    var p := PlanIdentities(current, previous, rendered, false);
    FilterMembers([current, previous], NonEmpty());
    assert current in [current, previous] && previous in [current, previous];
  }

  lemma BeginKeepsInv(s: State, s': State, rendered: string, objects: set<string>,
                      sameDigests: bool, guardFailed: bool, f: Findings)
    requires Inv(s) && Begin(s, s', rendered, objects, sameDigests, guardFailed, f)
    ensures Inv(s')
  {
    RefusedIffTooMany(s.stored.current, s.stored.previous, rendered, false);
    PlanKeepsInv(s.stored.current, s.stored.previous, rendered);
  }

  lemma NextKeepsInv(s: State, s': State)
    requires Inv(s) && Next(s, s')
    ensures Inv(s')
  {
    if r: string, objects: set<string>, sameDigests: bool, failed: bool, f: Findings
      :| Begin(s, s', r, objects, sameDigests, failed, f) {
      BeginKeepsInv(s, s', r, objects, sameDigests, failed, f);
    }
  }

  lemma {:induction false} RunsKeepInv(run: seq<State>, i: nat)
    requires Run(run) && i < |run|
    ensures Inv(run[i])
  {
    if i > 0 {
      RunsKeepInv(run, i - 1);
      NextKeepsInv(run[i - 1], run[i]);
    }
  }

  /** Over every run: an inventory object whose label this instance wrote
      carries no UUID label or one of the two recorded identities, so the list
      a deletion cleanup judges with names whatever identity it carries. */
  lemma RecordedIdentitiesCoverInventory(run: seq<State>, i: nat, o: string)
    requires Run(run) && i < |run| && o in run[i].stored.inventory && Mine(run[i].cluster, o)
    ensures var s := run[i];
            s.cluster[o].uuid == "" || s.cluster[o].uuid in Filter([s.stored.current, s.stored.previous], NonEmpty())
  {
    RunsKeepInv(run, i);
    var ids := [run[i].stored.current, run[i].stored.previous];
    FilterMembers(ids, NonEmpty());
    assert ids[0] in ids && ids[1] in ids;
  }

  /** In every state in which a prune runs, its list names whatever identity a
      stale object carries: no stale object of this instance is taken for
      another's. */
  lemma PruneKnowsEveryStaleLabel(run: seq<State>, i: nat, o: string)
    requires Run(run) && i < |run| && run[i].phase.Pruning? && o in run[i].phase.stale && Mine(run[i].cluster, o)
    ensures run[i].cluster[o].uuid in run[i].phase.plan.prune + [""]
  {
    RunsKeepInv(run, i);
  }

  ghost predicate WroteAs(cluster: map<string, Live>, o: string, id: string) {
    Mine(cluster, o) && cluster[o].uuid == id
  }

  /** No object of the inventory carries id as a label this instance wrote. */
  ghost predicate Unused(s: State, id: string) {
    forall o | o in s.stored.inventory :: !WroteAs(s.cluster, o, id)
  }

  /** A reconcile that applies nothing records the render's identity where none
      is, and never moves one. */
  lemma NoOpFillsEmpty(s: State, s': State, rendered: string, objects: set<string>, guardFailed: bool, f: Findings)
    requires Begin(s, s', rendered, objects, true, guardFailed, f) && s'.phase.Idle? && f.withheld == {}
    requires s.stored.previous == "" && (rendered == "" || s.stored.current in {"", rendered})
    ensures s' == s || s'.stored.current == (if s.stored.current == "" then rendered else s.stored.current)
    ensures s'.stored.previous == "" && s'.stored.inventory <= s.stored.inventory && s'.cluster == s.cluster
  {
  }

  lemma BeginKeepsPrevious(s: State, s': State, rendered: string, objects: set<string>,
                           sameDigests: bool, guardFailed: bool, f: Findings)
    requires WellRecorded(s.stored.current, s.stored.previous)
    requires Begin(s, s', rendered, objects, sameDigests, guardFailed, f)
    ensures s.stored.previous in {"", s'.stored.current, s'.stored.previous}
  {
  }

  /** The earlier identity is dropped only by the commit of a reconcile whose
      apply and prune succeeded, and then no object of the new inventory
      carries it as this instance's label. */
  lemma PreviousDroppedOnlyWhenUnused(run: seq<State>, i: nat)
    requires Run(run) && i + 1 < |run|
    requires run[i].stored.previous != ""
               && run[i].stored.previous !in {run[i + 1].stored.current, run[i + 1].stored.previous}
    ensures Commit(run[i], run[i + 1])
    ensures Unused(run[i + 1], run[i].stored.previous)
  {
    var s, s' := run[i], run[i + 1];
    RunsKeepInv(run, i);
    RunsKeepInv(run, i + 1);
    if r: string, objects: set<string>, sameDigests: bool, failed: bool, f: Findings
      :| Begin(s, s', r, objects, sameDigests, failed, f) {
      BeginKeepsPrevious(s, s', r, objects, sameDigests, failed, f);
    }
  }
}
