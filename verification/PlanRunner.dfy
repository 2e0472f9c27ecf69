/** One deletion plan, driven from its zero state to done
    (internal/apply/deletion.go). */
module PlanRunner {
  import opened Lifecycle
  import opened Options
  import opened Seqs

  datatype ActionKind = NoAction | ReadAction | DeleteAction

  /** The raw error of a step; Replaced marks a Conflict on the UID precondition. */
  datatype StepError = NoError | Plain(error: ApiError) | Replaced(error: ApiError)

  datatype StepResult = StepResult(entry: Entry, outcome: Outcome, failed: ActionKind, live: Option<Live>,
          err: StepError)

  datatype DeletionRun = DeletionRun(plan: Plan, state: State, steps: seq<StepResult>)

  /** What a deletion is asked with: the library, the answers of the API
      server, the policy. */
  datatype Setting = Setting(lib: Library, api: Api, policy: Policy)

  // ---- one plan -----------------------------------------------------------

  function Blank(e: Entry): StepResult {
    StepResult(e, NoOutcome, NoAction, None, NoError)
  }

  function LiveOf(answer: ReadAnswer): Option<Live> {
    if answer.Found? then Some(answer.live) else None
  }

  function DeleteError(answer: DeleteAnswer): StepError {
    match answer
    case DeleteFailed(err) => if err.class_.Conflict? then Replaced(err) else Plain(err)
    case _ => NoError
  }

  /** What plan k does to entry e for identity id. */
  function StepOf(s: Setting, k: nat, id: string, e: Entry): StepResult {
    if !s.policy.prune then Blank(e)
    else if s.lib.excluded(e) then Blank(e).(outcome := Skipped(SafetyExcluded, ""))
    else
      var answer := s.api.read(k, e);
      match Judge(s.lib, e, id, answer)
      case Some(outcome) =>
        StepResult(e, outcome, if outcome.Failed? then ReadAction else NoAction, LiveOf(answer),
                   if answer.ReadFailed? then Plain(answer.error) else NoError)
      case None =>
        var reply := s.api.delete(k, e, answer.live.uid);
        StepResult(e, Deletion(reply), if reply.DeleteFailed? then DeleteAction else NoAction,
                   LiveOf(answer), DeleteError(reply))
  }

  /** Plan k sends a DELETE for e. */
  ghost predicate Sends(s: Setting, k: nat, id: string, e: Entry) {
    s.policy.prune && !s.lib.excluded(e) && Judge(s.lib, e, id, s.api.read(k, e)).None?
  }

  function StepMap(s: Setting, k: nat, id: string): Entry -> StepResult {
    (e: Entry) => StepOf(s, k, id, e)
  }

  function OutcomeOf(): StepResult -> Outcome {
    (r: StepResult) => r.outcome
  }

  function EntryOf(): StepResult -> Entry {
    (r: StepResult) => r.entry
  }

  /** A finished plan over entries. */
  function RunOf(s: Setting, k: nat, entries: seq<Entry>, id: string): DeletionRun {
    var plan := Plan(s.lib.order(entries), s.policy, id);
    var steps := Map(plan.entries, StepMap(s, k, id));
    DeletionRun(plan,
                if s.policy.prune then State(|steps|, AwaitNothing, Map(steps, OutcomeOf())) else ZERO,
                steps)
  }

  /** One step after an outcome was appended to it: only the outcome of the
      step the call answered carries the error the call was handed. */
  function Recorded(step: StepResult, outcome: Outcome, answered: Awaiting, ev: Event): StepResult
    requires answered.AwaitRead? ==> ev.ReadEvent?
    requires answered.AwaitDelete? ==> ev.DeleteEvent?
  {
    var plain := step.(outcome := outcome);
    if !outcome.Failed? then plain
    else match answered
         case AwaitRead => plain.(failed := ReadAction, err := if ev.read.ReadFailed? then Plain(ev.read.error)
             else NoError)
         case AwaitDelete => plain.(failed := DeleteAction, err := DeleteError(ev.delete))
         case AwaitNothing => plain
  }

  /** Copies the outcomes one call of Advance appended into the step results. */
  method Record(steps: seq<StepResult>, before: State, after: State, ev: Event) returns (out: seq<StepResult>)
    requires |before.outcomes| <= |after.outcomes| <= |steps|
    requires before.awaiting.AwaitRead? ==> ev.ReadEvent?
    requires before.awaiting.AwaitDelete? ==> ev.DeleteEvent?
    ensures |out| == |steps|
    ensures forall i | 0 <= i < |steps| ::
              out[i] == if !(|before.outcomes| <= i < |after.outcomes|) then steps[i]
                        else Recorded(steps[i], after.outcomes[i], if i == before.next then before.awaiting
                            else AwaitNothing, ev)
  {
    out := steps;
    for n := |before.outcomes| to |after.outcomes|
      invariant |out| == |steps|
      invariant forall i | 0 <= i < |steps| ::
                  out[i] == if !(|before.outcomes| <= i < n) then steps[i]
                            else Recorded(steps[i], after.outcomes[i], if i == before.next then before.awaiting
                                else AwaitNothing, ev)
    {
      out := out[n := out[n].(outcome := after.outcomes[n])];
      if !after.outcomes[n].Failed? || n != before.next {
        continue;
      }
      match before.awaiting {
        case AwaitRead =>
          out := out[n := out[n].(failed := ReadAction, err := if ev.read.ReadFailed? then Plain(ev.read.error)
              else NoError)];
        case AwaitDelete =>
          out := out[n := out[n].(failed := DeleteAction, err := DeleteError(ev.delete))];
        case AwaitNothing =>
      }
    }
  }

  function Rank(a: Awaiting): nat {
    match a case AwaitNothing => 2 case AwaitRead => 1 case AwaitDelete => 0
  }

  /** The event at hand is the API server's answer to what the state awaits for entry e. */
  ghost predicate Awaited(s: Setting, k: nat, id: string, e: Entry, step: StepResult, awaiting: Awaiting, ev: Event) {
    var answer := s.api.read(k, e);
    match awaiting
    case AwaitNothing => step == Blank(e) && ev.NoEvent?
    case AwaitRead =>
      s.policy.prune && !s.lib.excluded(e) && step == Blank(e).(live := LiveOf(answer)) && ev == ReadEvent(answer)
    case AwaitDelete =>
      && s.policy.prune && !s.lib.excluded(e) && step == Blank(e).(live := LiveOf(answer))
      && Judge(s.lib, e, id, answer).None? && ev == DeleteEvent(s.api.delete(k, e, answer.live.uid))
  }

  /** The finished steps are as StepOf says and the later ones untouched. */
  ghost predicate Settled(s: Setting, k: nat, plan: Plan, steps: seq<StepResult>, state: State) {
    && plan.policy == s.policy && |steps| == |plan.entries| && |state.outcomes| == state.next <= |steps|
    && (forall i | 0 <= i < state.next ::
          steps[i] == StepOf(s, k, plan.identity, plan.entries[i]) && state.outcomes[i] == steps[i].outcome)
    && (forall i | state.next < i < |steps| :: steps[i] == Blank(plan.entries[i]))
    && (!s.policy.prune ==> state == ZERO)
  }

  /** Where a plan stands when its step in hand has its answer. */
  ghost predicate Driven(s: Setting, k: nat, plan: Plan, steps: seq<StepResult>, state: State, ev: Event) {
    && Settled(s, k, plan, steps, state) && Fits(plan, state, ev)
    && (state.next < |steps| ==> Awaited(s, k, plan.identity, plan.entries[state.next], steps[state.next],
         state.awaiting, ev))
  }

  /** Where a plan stands when its next action is named and not yet performed. */
  ghost predicate Named(s: Setting, k: nat, plan: Plan, steps: seq<StepResult>, state: State, act: Action) {
    && Settled(s, k, plan, steps, state)
    && (act.Done? || act.SkipStep? ==>
          state.awaiting.AwaitNothing? && (state.next < |steps| ==>
              steps[state.next] == Blank(plan.entries[state.next])))
    && (act.Done? && s.policy.prune ==> state.next == |steps|)
    && (act.Read? || act.Delete? ==>
          && act.step == state.next < |steps|
          && var e := plan.entries[state.next];
             var answer := s.api.read(k, e);
             && s.policy.prune && !s.lib.excluded(e)
             && (act.Read? ==> state.awaiting.AwaitRead? && steps[state.next] == Blank(e))
             && (act.Delete? ==>
                   && state.awaiting.AwaitDelete? && steps[state.next] == Blank(e).(live := LiveOf(answer))
                   && Judge(s.lib, e, plan.identity, answer).None? && act.uid == answer.live.uid))
  }

  lemma SettledStep(s: Setting, k: nat, id: string, e: Entry, step: StepResult, awaiting: Awaiting, ev: Event,
          outcome: Outcome)
    requires Awaited(s, k, id, e, step, awaiting, ev) && !awaiting.AwaitNothing?
    requires if awaiting.AwaitRead? then Judge(s.lib, e, id, ev.read) == Some(outcome)
               else Deletion(ev.delete) == outcome
    ensures Recorded(step, outcome, awaiting, ev) == StepOf(s, k, id, e)
  {
  }

  /** The answer is handed to Advance, and what it concludes is recorded. */
  method Ask(s: Setting, k: nat, plan: Plan, steps: seq<StepResult>, state: State, ev: Event)
    returns (steps': seq<StepResult>, state': State, act: Action)
    requires Driven(s, k, plan, steps, state, ev)
    ensures Named(s, k, plan, steps', state', act)
    ensures !act.Done? ==>
              || state.next < state'.next
              || (state.next == state'.next && Rank(state'.awaiting) < Rank(state.awaiting))
  {
    var (next, action) := Advance(s.lib, plan, state, ev);
    steps' := Record(steps, state, next, ev);
    state', act := next, action;
    if !state.awaiting.AwaitNothing? && next.next > state.next {
      SettledStep(s, k, plan.identity, plan.entries[state.next], steps[state.next], state.awaiting, ev,
          next.outcomes[state.next]);
    }
  }

  /** The named action is sent to the API server. */
  method Perform(s: Setting, k: nat, plan: Plan, steps: seq<StepResult>, ghost state: State, act: Action)
    returns (steps': seq<StepResult>, ev: Event)
    requires Named(s, k, plan, steps, state, act)
    ensures Driven(s, k, plan, steps', state, ev)
  {
    steps', ev := steps, NoEvent;
    match act {
      case Done =>
      case Read(i) =>
        ev := ReadEvent(s.api.read(k, plan.entries[i]));
        steps' := steps[i := steps[i].(live := LiveOf(ev.read))];
      case Delete(i, uid) =>
        ev := DeleteEvent(s.api.delete(k, plan.entries[i], uid));
      case SkipStep(i) =>
    }
  }

  /** Drives one plan from the zero state to done: every step ends as StepOf says. */
  method RunPlan(s: Setting, k: nat, entries: seq<Entry>, id: string) returns (run: DeletionRun)
    ensures run == RunOf(s, k, entries, id)
  {
    var plan := Plan(s.lib.order(entries), s.policy, id);
    var n := |plan.entries|;
    var steps: seq<StepResult> := seq(n, i requires 0 <= i < n => Blank(plan.entries[i]));
    var state, ev, act := ZERO, NoEvent, SkipStep(0);
    while !act.Done?
      invariant Driven(s, k, plan, steps, state, ev)
      invariant act.Done? && s.policy.prune ==> state.next == n && state.awaiting.AwaitNothing?
      decreases !act.Done?, n - state.next, Rank(state.awaiting)
    {
      steps, state, act := Ask(s, k, plan, steps, state, ev);
      steps, ev := Perform(s, k, plan, steps, state, act);
    }
    run := DeletionRun(plan, state, steps);
    assert steps == Map(plan.entries, StepMap(s, k, id)) by {
      forall i | 0 <= i < n
        ensures steps[i] == StepOf(s, k, id, plan.entries[i])
      {
        if !s.policy.prune && i > 0 { assert steps[i] == Blank(plan.entries[i]); }
      }
    }
    assert s.policy.prune ==> state.outcomes == Map(steps, OutcomeOf());
  }
}
