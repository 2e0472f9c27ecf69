/** The deletion side of the Kubernetes ownership library as the controller
    sees it. The verdicts and the order are parameters held to the laws the
    controller relies on; the sequence of reads and deletes of one plan is
    written out as the controller's tests pin it. */
module Lifecycle {
  import opened Options

  /** An inventory entry: what names an object. */
  datatype Entry = Entry(group: string, version: string, kind: string, namespace: string, name: string)

  /** A live object as a read returned it. */
  datatype Live = Live(entry: Entry, uid: string, managedBy: string, owner: string, adopt: string,
          deletedAt: Option<int>)

  datatype SkipReason = AlreadyAbsent | SafetyExcluded | NotOPMManaged | OwnerMismatch | AdoptedElsewhere

  datatype FailureClass = Forbidden | Conflict | Other

  datatype ApiError = ApiError(class_: FailureClass, text: string)

  datatype ReadAnswer = Found(live: Live) | ReadNotFound | ReadFailed(error: ApiError)

  datatype DeleteAnswer = Accepted | DeleteNotFound | DeleteFailed(error: ApiError)

  /** The API server of one deletion: its answers to the reads and deletes of
      plan k. They may differ from plan to plan. A delete carries the UID that
      was read. */
  datatype Api = Api(read: (nat, Entry) -> ReadAnswer, delete: (nat, Entry, string) -> DeleteAnswer)

  datatype Verdict = Proceed | Skip(reason: SkipReason, message: string)

  datatype Policy = Policy(prune: bool, forceOrphan: bool)

  datatype Plan = Plan(entries: seq<Entry>, policy: Policy, identity: string)

  /** The library's record of one step; NoOutcome is its zero value. */
  datatype Outcome =
    | NoOutcome
    | Deleted
    | Skipped(reason: SkipReason, message: string)
    | Failed(class_: FailureClass, message: string)

  datatype Awaiting = AwaitNothing | AwaitRead | AwaitDelete

  datatype State = State(next: nat, awaiting: Awaiting, outcomes: seq<Outcome>)

  datatype Event = NoEvent | ReadEvent(read: ReadAnswer) | DeleteEvent(delete: DeleteAnswer)

  datatype Action = Done | Read(step: nat) | Delete(step: nat, uid: string) | SkipStep(step: nat)

  datatype Identity = Available | Missing | Unavailable

  datatype HoldReason = PruneDisabled | InventoryEmpty | ForceOrphan | IdentityUnavailable
    | CleanupComplete | CleanupIncomplete | CleanupForbidden

  datatype HoldVerdict = HoldVerdict(release: bool, because: HoldReason)

  /** canDelete judges one live object for one identity, excluded names the
      kinds that are never deleted, order is the plan order, mayRelease the
      hold verdict. */
  datatype Library = Library(
    canDelete: (Entry, Live, string) -> Verdict,
    excluded: Entry -> bool,
    order: seq<Entry> -> seq<Entry>,
    mayRelease: (Plan, State, Identity) -> HoldVerdict)

  const ZERO := State(0, AwaitNothing, [])

  predicate IdentityDependent(reason: SkipReason) {
    reason == OwnerMismatch || reason == AdoptedElsewhere
  }

  /** The plan came to its end: every step has an outcome and none failed. */
  predicate Complete(plan: Plan, state: State) {
    && state.next == |plan.entries| == |state.outcomes|
    && forall i | 0 <= i < |state.outcomes| :: state.outcomes[i].Deleted? || state.outcomes[i].Skipped?
  }

  /** Only owner-mismatch, adopted-elsewhere and proceed depend on the identity asked with. */
  ghost predicate IdentityLaw(lib: Library) {
    forall e, live, id, id' ::
      var v := lib.canDelete(e, live, id);
      v.Skip? && !IdentityDependent(v.reason) ==> lib.canDelete(e, live, id') == v
  }

  ghost predicate ExclusionLaw(lib: Library) {
    forall e, live, id | lib.excluded(e) ::
      lib.canDelete(e, live, id).Skip? && lib.canDelete(e, live, id).reason == SafetyExcluded
  }

  ghost predicate OrderLaw(lib: Library) {
    forall s :: multiset(lib.order(s)) == multiset(s)
  }

  /** The hold verdict looks at the policy, then at the plan, then at the
      identity, then at the state; a release after a run means a complete plan. */
  ghost predicate HoldLaw(lib: Library) {
    forall plan, state, identity ::
      var v := lib.mayRelease(plan, state, identity);
      if !plan.policy.prune then v == HoldVerdict(true, PruneDisabled)
      else if plan.entries == [] then v == HoldVerdict(true, InventoryEmpty)
      else if identity != Available then
        v == if plan.policy.forceOrphan then HoldVerdict(true, ForceOrphan) else HoldVerdict(false, IdentityUnavailable)
      else
        && (v.release ==> v.because == CleanupComplete && Complete(plan, state))
        && (!v.release ==> v.because in {CleanupIncomplete, CleanupForbidden})
  }

  ghost predicate Lawful(lib: Library) {
    IdentityLaw(lib) && ExclusionLaw(lib) && OrderLaw(lib) && HoldLaw(lib)
  }

  predicate Fits(plan: Plan, state: State, ev: Event) {
    && |state.outcomes| == state.next <= |plan.entries|
    && (state.awaiting.AwaitNothing? ==> ev.NoEvent?)
    && (state.awaiting.AwaitRead? ==> ev.ReadEvent? && state.next < |plan.entries|)
    && (state.awaiting.AwaitDelete? ==> ev.DeleteEvent? && state.next < |plan.entries|)
  }

  function Finish(state: State, outcome: Outcome): State {
    State(state.next + 1, AwaitNothing, state.outcomes + [outcome])
  }

  const ABSENT := Skipped(AlreadyAbsent, "already absent")
  const MISREAD := Failed(Other, "the read returned another object")

  /** What the answer to a read means for a step: its outcome, or None when
      the object is to be deleted. */
  function Judge(lib: Library, e: Entry, id: string, answer: ReadAnswer): Option<Outcome> {
    match answer
    case ReadNotFound => Some(ABSENT)
    case ReadFailed(err) => Some(Failed(err.class_, err.text))
    case Found(live) =>
      if live.entry != e then Some(MISREAD)
      else match lib.canDelete(e, live, id)
           case Proceed => None
           case Skip(reason, message) => Some(Skipped(reason, message))
  }

  function Deletion(answer: DeleteAnswer): Outcome {
    match answer
    case Accepted => Deleted
    case DeleteNotFound => ABSENT
    case DeleteFailed(err) => Failed(err.class_, err.text)
  }

  /** One call of lifecycle.Advance: it settles the event, then names the next
      action. One call can finish two steps: the one the event answers, and a
      kind that is skipped up front. */
  function Advance(lib: Library, plan: Plan, state: State, ev: Event): (State, Action)
    requires Fits(plan, state, ev)
  {
    match state.awaiting
    case AwaitRead =>
      (match Judge(lib, plan.entries[state.next], plan.identity, ev.read)
       case None => (state.(awaiting := AwaitDelete),
                     Delete(state.next, if ev.read.Found? then ev.read.live.uid else ""))
       case Some(outcome) => NameNext(lib, plan, Finish(state, outcome)))
    case AwaitDelete => NameNext(lib, plan, Finish(state, Deletion(ev.delete)))
    case AwaitNothing => NameNext(lib, plan, state)
  }

  function NameNext(lib: Library, plan: Plan, state: State): (State, Action)
    requires state.awaiting.AwaitNothing? && state.next <= |plan.entries|
  {
    if !plan.policy.prune || state.next == |plan.entries| then (state, Done)
    else if lib.excluded(plan.entries[state.next]) then
      (Finish(state, Skipped(SafetyExcluded, "")), SkipStep(state.next))
    else (state.(awaiting := AwaitRead), Read(state.next))
  }

  /** One library that obeys every law, so the laws can be met together. */
  function SampleLibrary(protectedKind: string): Library {
    Library(
      (e: Entry, live: Live, id: string) =>
        if e.kind == protectedKind then Skip(SafetyExcluded, "")
        else if live.managedBy != "opm" then Skip(NotOPMManaged, "")
        else if id != "" && live.owner !in {"", id} then Skip(OwnerMismatch, live.owner)
        else if live.adopt !in {"", id} then Skip(AdoptedElsewhere, live.adopt)
        else Proceed,
      (e: Entry) => e.kind == protectedKind,
      (s: seq<Entry>) => s,
      (plan: Plan, state: State, identity: Identity) =>
        if !plan.policy.prune then HoldVerdict(true, PruneDisabled)
        else if plan.entries == [] then HoldVerdict(true, InventoryEmpty)
        else if identity != Available then
          if plan.policy.forceOrphan then HoldVerdict(true, ForceOrphan) else HoldVerdict(false, IdentityUnavailable)
        else if Complete(plan, state) then HoldVerdict(true, CleanupComplete)
        else HoldVerdict(false, CleanupIncomplete))
  }

  lemma SampleLibraryIsLawful(protectedKind: string)
    ensures Lawful(SampleLibrary(protectedKind))
  {
    var lib := SampleLibrary(protectedKind);
    assert IdentityLaw(lib) && ExclusionLaw(lib) && OrderLaw(lib);
    assert HoldLaw(lib);
  }
}
