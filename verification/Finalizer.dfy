/** The deletion cleanup of a ModuleInstance or a ModulePackage: when the
    cleanup finalizer comes off (internal/reconcile/deletion.go). One call is
    one reconcile; the only memory between two is what the API server stores. */
module Finalizer {
  import opened Cleanup
  import opened DeletionChain
  import InstanceIdentity
  import opened Lifecycle
  import opened Options
  import opened PlanRunner
  import opened Seqs

  datatype Reason =
    | DeletionInProgress | DeletionBlocked | DeletionSAMissing | ImpersonationFailed | OtherReason(text: string)

  /** The Ready condition: whether its status is False, and its reason. */
  datatype Ready = Ready(isFalse: bool, reason: Reason)

  /** What the API server stores of a deleting object. */
  datatype Stored = Stored(finalizer: bool, ready: Ready, entries: seq<Entry>, identities: seq<string>)

  /** The deleting ServiceAccount: usable; answered NotFound for exactly this
      ServiceAccount; not found otherwise; any other impersonation error. */
  datatype Account = Usable | Gone | NotFound | Broken

  /** Everything one reconcile reads: the spec and annotation, the answers of
      the API server, the clock. */
  datatype Attempt = Attempt(
    prune: bool, forceOrphan: bool, deleteData: bool,
    account: Account, impersonates: bool,
    api: Api, claimRead: Entry -> ReadAnswer, recheck: Entry -> ReadAnswer,
    now: int, deletedAt: int, wait: DeletionWait,
    statusPatch: InstanceIdentity.Reply, finalizerPatch: InstanceIdentity.Reply)

  datatype DeletionWait = DeletionWait(blockedAfter: int, minRecheck: int, maxRecheck: int) {
    /** A quarter of the age of the oldest terminating object, within bounds. */
    function RecheckAfter(age: nat): (after: int)
      ensures minRecheck <= maxRecheck ==> minRecheck <= after <= maxRecheck
      ensures 4 * minRecheck <= age < 4 * maxRecheck ==> 4 * after <= age < 4 * after + 4
      ensures age < 4 * minRecheck && minRecheck <= maxRecheck ==> after == minRecheck
      ensures age >= 4 * maxRecheck || minRecheck > maxRecheck ==> after == maxRecheck
    {
      var quarter := age / 4;
      var atLeast := if quarter < minRecheck then minRecheck else quarter;
      if atLeast < maxRecheck then atLeast else maxRecheck
    }
  }

  const STALLED_RECHECK := 1800

  datatype Result = Finished | Requeue(after: int) | Retry

  /** The record that an earlier reconcile of this deletion reached a release verdict. */
  function RecordedWait(st: Stored): Option<Reason> {
    if st.ready.isFalse && (st.ready.reason == DeletionInProgress || st.ready.reason == DeletionBlocked)
    then Some(st.ready.reason) else None
  }

  function SettingOf(lib: Library, a: Attempt): Setting {
    Setting(lib, a.api, Policy(a.prune, a.forceOrphan))
  }

  function RunsOf(lib: Library, st: Stored, a: Attempt): seq<DeletionRun> {
    Chain(SettingOf(lib, a), 0, Planned(st.entries, a.deleteData), AskedWith(st.identities))
  }

  predicate IdentityLost(a: Attempt) {
    a.account != Usable
  }

  function HeldAs(a: Attempt): Identity {
    match a.account case Usable => Available case Gone => Missing case NotFound => Missing case Broken => Unavailable
  }

  function VerdictOf(lib: Library, run: DeletionRun): HoldVerdict {
    lib.mayRelease(run.plan, run.state, Available)
  }

  ghost predicate AllReleased(lib: Library, runs: seq<DeletionRun>) {
    forall i | 0 <= i < |runs| :: VerdictOf(lib, runs[i]).release
  }

  ghost predicate SomeForbidden(lib: Library, runs: seq<DeletionRun>) {
    exists i :: 0 <= i < |runs| && !VerdictOf(lib, runs[i]).release
        && VerdictOf(lib, runs[i]).because == CleanupForbidden
  }

  function WasDeleted(): StepResult -> bool {
    (r: StepResult) => r.outcome.Deleted?
  }

  /** The steps whose DELETE was accepted, over every plan. */
  function DeletedSteps(runs: seq<DeletionRun>): seq<StepResult> {
    Filter(StepsOf(runs), WasDeleted())
  }

  /** The deleted object of a step is still there: it is read again under the
      same name, and not as another object. */
  function Remains(recheck: Entry -> ReadAnswer): StepResult -> bool {
    (r: StepResult) => recheck(r.entry).Found? && !(r.live.Some? && recheck(r.entry).live.uid != r.live.value.uid)
  }

  function LiveNow(recheck: Entry -> ReadAnswer): StepResult -> Option<Live> {
    (r: StepResult) => LiveOf(recheck(r.entry))
  }

  ghost predicate CheckFails(a: Attempt, steps: seq<StepResult>) {
    exists r :: r in steps && a.recheck(r.entry).ReadFailed?
  }

  /** Every object the plans deleted was then read as gone or replaced. */
  ghost predicate AllGone(a: Attempt, steps: seq<StepResult>) {
    forall r | r in steps ::
      || a.recheck(r.entry).ReadNotFound?
      || (a.recheck(r.entry).Found? && r.live.Some? && a.recheck(r.entry).live.uid != r.live.value.uid)
  }

  /** Some remaining object has been terminating for BlockedAfter. */
  ghost predicate TerminatingTooLong(a: Attempt, steps: seq<StepResult>) {
    exists r :: && r in steps && Remains(a.recheck)(r)
                && a.recheck(r.entry).live.deletedAt.Some?
                && a.now - a.recheck(r.entry).live.deletedAt.value >= a.wait.blockedAfter
  }

  /** age is how long the oldest remaining object has been terminating; one
      without a deletionTimestamp counts as deleted now. */
  ghost predicate OldestAge(a: Attempt, steps: seq<StepResult>, age: nat) {
    && (forall r | r in steps && Remains(a.recheck)(r) && a.recheck(r.entry).live.deletedAt.Some? ::
          a.now - a.recheck(r.entry).live.deletedAt.value <= age)
    && (age == 0 || exists r :: && r in steps && Remains(a.recheck)(r)
                                && a.recheck(r.entry).live.deletedAt == Some(a.now - age))
  }

  /** When the finalizer is due to come off. */
  ghost predicate ReleaseDue(lib: Library, st: Stored, a: Attempt) {
    || !a.prune
    || Planned(st.entries, a.deleteData) == []
    || (IdentityLost(a) && a.forceOrphan)
    || (IdentityLost(a) && a.account == Gone && RecordedWait(st).Some?)
    || (!IdentityLost(a) && AllReleased(lib, RunsOf(lib, st, a)) && AllGone(a, DeletedSteps(RunsOf(lib, st, a))))
  }

  /** Every object that some plan of the runs deleted was then read as gone or replaced. */
  ghost predicate DeletedAreGone(a: Attempt, runs: seq<DeletionRun>) {
    forall i, r | 0 <= i < |runs| && r in runs[i].steps && r.outcome.Deleted? ::
      || a.recheck(r.entry).ReadNotFound?
      || (a.recheck(r.entry).Found? && r.live.Some? && a.recheck(r.entry).live.uid != r.live.value.uid)
  }

  /** A release is due exactly with prune off, with nothing stored that may be
      deleted, by force-orphan without a usable account, with the account
      itself gone after a recorded wait, or when every plan's hold verdict
      releases and every object a plan deleted was read as gone or replaced. */
  lemma ReleaseDueIff(lib: Library, st: Stored, a: Attempt)
    ensures ReleaseDue(lib, st, a) <==>
              || !a.prune
              || (forall e | e in st.entries :: !a.deleteData && e.group == "" && e.kind == "PersistentVolumeClaim")
              || (!a.account.Usable? && a.forceOrphan)
              || (a.account.Gone? && st.ready.isFalse && st.ready.reason in {DeletionInProgress, DeletionBlocked})
              || (a.account.Usable? && DeletedAreGone(a, RunsOf(lib, st, a))
                  && forall run | run in RunsOf(lib, st, a) ::
                       lib.mayRelease(run.plan, run.state, Available).release)
  {
    hide Chain;
    var runs, planned := RunsOf(lib, st, a), Planned(st.entries, a.deleteData);
    DeletedStepsAre(runs);
    forall e
      ensures e in planned <==> e in st.entries && (a.deleteData || e.group != "" || e.kind != "PersistentVolumeClaim")
    {
      PlannedMeans(st.entries, a.deleteData, e);
    }
    if planned != [] { assert planned[0] in planned; }
    hide DeletedSteps;
    assert AllGone(a, DeletedSteps(runs)) <==> DeletedAreGone(a, runs);
    assert AllReleased(lib, runs) <==>
        forall run | run in runs :: lib.mayRelease(run.plan, run.state, Available).release;
  }

  /** The Ready condition of a recheck that could not be done: the record stays. */
  function HeldReady(recorded: Reason, a: Attempt): Ready {
    Ready(true, if recorded == DeletionBlocked || a.now - a.deletedAt >= a.wait.blockedAfter then DeletionBlocked
        else DeletionInProgress)
  }

  /** The Ready condition a reconcile that keeps the finalizer marks. */
  ghost function Marked(lib: Library, st: Stored, a: Attempt): Ready {
    var runs := RunsOf(lib, st, a);
    var recorded := RecordedWait(st);
    var deleted := DeletedSteps(runs);
    if !IdentityLost(a) && AllReleased(lib, runs) && !CheckFails(a, deleted) then
      Ready(true, if TerminatingTooLong(a, deleted) then DeletionBlocked else DeletionInProgress)
    else if recorded.Some? then HeldReady(recorded.value, a)
    else if IdentityLost(a) then Ready(true, if a.account == Broken then ImpersonationFailed else DeletionSAMissing)
    else if !AllReleased(lib, runs) && SomeForbidden(lib, runs) && a.impersonates then Ready(true, ImpersonationFailed)
    else st.ready
  }

  /** An object that a plan deleted is still there under its UID, and has been
      terminating for BlockedAfter. */
  ghost predicate BlockedBy(a: Attempt, runs: seq<DeletionRun>) {
    exists i, r ::
      && 0 <= i < |runs| && r in runs[i].steps && r.outcome.Deleted?
      && a.recheck(r.entry).Found? && (r.live.Some? ==> a.recheck(r.entry).live.uid == r.live.value.uid)
      && a.recheck(r.entry).live.deletedAt.Some?
      && a.now - a.recheck(r.entry).live.deletedAt.value >= a.wait.blockedAfter
  }

  ghost predicate RecheckFails(a: Attempt, runs: seq<DeletionRun>) {
    exists i, r :: 0 <= i < |runs| && r in runs[i].steps && r.outcome.Deleted? && a.recheck(r.entry).ReadFailed?
  }

  /** The condition a reconcile marks while it keeps the finalizer. After plans
      that all release, Blocked exactly when some deleted object is terminating
      for too long. When the objects cannot be rechecked, or a plan holds, a
      recorded wait stays recorded, Blocked for good once it was or once the
      deletion is that old. Without a record a lost account stalls the deletion
      under its own reason, so does a Forbidden hold under impersonation, and
      anything else leaves the condition alone. */
  lemma MarkedMeans(lib: Library, st: Stored, a: Attempt)
    ensures var runs := RunsOf(lib, st, a);
            var released := forall run | run in runs :: lib.mayRelease(run.plan, run.state, Available).release;
            var recorded := st.ready.isFalse && st.ready.reason in {DeletionInProgress, DeletionBlocked};
            Marked(lib, st, a) ==
              if a.account.Usable? && released && !RecheckFails(a, runs) then
                Ready(true, if BlockedBy(a, runs) then DeletionBlocked else DeletionInProgress)
              else if recorded then
                Ready(true, if st.ready.reason == DeletionBlocked || a.now - a.deletedAt >= a.wait.blockedAfter
                            then DeletionBlocked else DeletionInProgress)
              else if a.account.Broken? then Ready(true, ImpersonationFailed)
              else if !a.account.Usable? then Ready(true, DeletionSAMissing)
              else if a.impersonates && HoldVerdict(false, CleanupForbidden) in
                   set run | run in runs :: lib.mayRelease(run.plan, run.state, Available) then
                Ready(true, ImpersonationFailed)
              else st.ready
  {
    hide Chain;
    var runs := RunsOf(lib, st, a);
    DeletedStepsAre(runs);
    hide DeletedSteps;
    hide RunsOf;
    var deleted := DeletedSteps(runs);
    assert AllReleased(lib, runs) <==>
        forall run | run in runs :: lib.mayRelease(run.plan, run.state, Available).release;
    assert SomeForbidden(lib, runs) <==>
        HoldVerdict(false, CleanupForbidden) in set run | run in runs :: lib.mayRelease(run.plan, run.state, Available);
    assert CheckFails(a, deleted) <==> RecheckFails(a, runs);
    assert TerminatingTooLong(a, deleted) <==> BlockedBy(a, runs);
  }

  /** One reconcile of the cleanup, as the stored object sees it. */
  ghost predicate Reconciled(lib: Library, st: Stored, a: Attempt, st': Stored) {
    && (st'.finalizer <==> st.finalizer && !(ReleaseDue(lib, st, a) && !a.finalizerPatch.Refused?))
    && st'.ready == (if ReleaseDue(lib, st, a) || a.statusPatch.Refused? then st.ready else Marked(lib, st, a))
    && st'.identities == st.identities
    && st'.entries == (if OrphanExit(st, a) && !a.statusPatch.Refused? then [] else st.entries)
  }

  ghost predicate OrphanExit(st: Stored, a: Attempt) {
    a.prune && Planned(st.entries, a.deleteData) != [] && IdentityLost(a) && a.forceOrphan
  }

  // ---- the reconcile ------------------------------------------------------

  /** It releases only when every plan releases; otherwise it is the first
      Forbidden hold, or else the first hold. */
  method HoldVerdictOf(lib: Library, runs: seq<DeletionRun>) returns (verdict: HoldVerdict)
    requires runs != []
    ensures verdict.release <==> AllReleased(lib, runs)
    ensures !verdict.release ==> exists i ::
              && 0 <= i < |runs| && verdict == VerdictOf(lib, runs[i])
              && forall j | 0 <= j < i ::
                   VerdictOf(lib, runs[j]).release ||
                   (verdict.because == CleanupForbidden && VerdictOf(lib, runs[j]).because != CleanupForbidden)
    ensures !verdict.release ==> (verdict.because == CleanupForbidden <==> SomeForbidden(lib, runs))
  {
    var held: Option<HoldVerdict> := None;
    ghost var at := 0;
    var last := VerdictOf(lib, runs[0]);
    for n := 0 to |runs|
      invariant held.None? <==> forall j | 0 <= j < n :: VerdictOf(lib, runs[j]).release
      invariant n > 0 ==> last == VerdictOf(lib, runs[n - 1])
      invariant held.Some? ==>
                  && at < n && held.value == VerdictOf(lib, runs[at]) && !held.value.release
                  && forall j | 0 <= j < at ::
                       VerdictOf(lib, runs[j]).release ||
                       (held.value.because == CleanupForbidden && VerdictOf(lib, runs[j]).because != CleanupForbidden)
      invariant held.Some? && held.value.because != CleanupForbidden ==>
                  forall j | 0 <= j < n && !VerdictOf(lib, runs[j]).release ::
                      VerdictOf(lib, runs[j]).because != CleanupForbidden
    {
      last := VerdictOf(lib, runs[n]);
      if last.release {
        continue;
      }
      if held.None? || (held.value.because != CleanupForbidden && last.because == CleanupForbidden) {
        held, at := Some(last), n;
      }
    }
    verdict := if held.Some? then held.value else last;
  }

  lemma DeletedStepsAre(runs: seq<DeletionRun>)
    ensures forall r :: r in DeletedSteps(runs) <==>
              exists i :: 0 <= i < |runs| && r in runs[i].steps && r.outcome.Deleted?
  {
    FilterMembers(StepsOf(runs), WasDeleted());
    forall r
      ensures r in StepsOf(runs) <==> exists i :: 0 <= i < |runs| && r in runs[i].steps
    {
      MemberOfSteps(runs, r);
    }
  }

  method CollectDeleted(runs: seq<DeletionRun>) returns (out: seq<StepResult>)
    ensures out == DeletedSteps(runs)
    ensures forall r :: r in out <==> exists i :: 0 <= i < |runs| && r in runs[i].steps && r.outcome.Deleted?
  {
    DeletedStepsAre(runs);
    out := [];
    for i := 0 to |runs|
      invariant out == Filter(StepsOf(runs[..i]), WasDeleted())
    {
      assert runs[..i + 1][..i] == runs[..i];
      var steps := runs[i].steps;
      ghost var before := out;
      for j := 0 to |steps|
        invariant out == before + Filter(steps[..j], WasDeleted())
      {
        FilterStep(steps, j, WasDeleted());
        if steps[j].outcome.Deleted? {
          out := out + [steps[j]];
        }
      }
      FilterAll(steps, WasDeleted());
      FilterAppend(StepsOf(runs[..i]), steps, WasDeleted());
    }
    assert runs[..|runs|] == runs;
  }

  /** Reads the object of each step again. None: a read failed, so whether the
      objects are gone is not known. */
  method StillThere(a: Attempt, steps: seq<StepResult>) returns (left: Option<seq<Live>>)
    ensures left.None? <==> CheckFails(a, steps)
    ensures left.Some? ==>
              && |left.value| == |Filter(steps, Remains(a.recheck))|
              && forall i | 0 <= i < |left.value| ::
                   Some(left.value[i]) == LiveNow(a.recheck)(Filter(steps, Remains(a.recheck))[i])
  {
    var out: seq<Live> := [];
    for i := 0 to |steps|
      invariant forall j | 0 <= j < i :: !a.recheck(steps[j].entry).ReadFailed?
      invariant |out| == |Filter(steps[..i], Remains(a.recheck))|
      invariant forall j | 0 <= j < |out| ::
                  Some(out[j]) == LiveNow(a.recheck)(Filter(steps[..i], Remains(a.recheck))[j])
    {
      FilterStep(steps, i, Remains(a.recheck));
      var step := steps[i];
      match a.recheck(step.entry) {
        case ReadNotFound =>
          continue;
        case ReadFailed(_) =>
          return None;
        case Found(live) =>
          if step.live.Some? && live.uid != step.live.value.uid {
            continue;
          }
          out := out + [live];
      }
    }
    FilterAll(steps, Remains(a.recheck));
    left := Some(out);
  }

  /** The earliest deletion of objects; one without a deletionTimestamp counts as deleted now. */
  method OldestDeletion(objects: seq<Live>, now: int) returns (oldest: int)
    ensures oldest <= now
    ensures forall i | 0 <= i < |objects| && objects[i].deletedAt.Some? :: oldest <= objects[i].deletedAt.value
    ensures oldest == now || exists i :: 0 <= i < |objects| && objects[i].deletedAt == Some(oldest)
  {
    oldest := now;
    for n := 0 to |objects|
      invariant oldest <= now
      invariant forall i | 0 <= i < n && objects[i].deletedAt.Some? :: oldest <= objects[i].deletedAt.value
      invariant oldest == now || exists i :: 0 <= i < n && objects[i].deletedAt == Some(oldest)
    {
      match objects[n].deletedAt {
        case Some(ts) =>
          if ts < oldest {
            oldest := ts;
          }
        case None =>
      }
    }
  }

  /** The deleting object of one reconcile: as stored, and as held in memory. */
  class Target {
    var stored: Stored
    var ready: Ready
    var entries: seq<Entry>

    constructor (st: Stored)
      ensures stored == st && ready == st.ready && entries == st.entries
    {
      stored, ready, entries := st, st.ready, st.entries;
    }

    method PatchStatus(reply: InstanceIdentity.Reply) returns (ok: bool)
      modifies this`stored
      ensures ok <==> reply.Committed?
      ensures stored == if reply.Refused? then old(stored) else old(stored).(ready := ready, entries := entries)
    {
      if !reply.Refused? {
        stored := stored.(ready := ready, entries := entries);
      }
      ok := reply.Committed?;
    }

    method ReleaseFinalizer(reply: InstanceIdentity.Reply) returns (result: Result)
      modifies this`stored
      ensures result == if reply.Committed? then Finished else Retry
      ensures stored == if reply.Refused? then old(stored) else old(stored).(finalizer := false)
    {
      if !reply.Refused? {
        stored := stored.(finalizer := false);
      }
      result := if reply.Committed? then Finished else Retry;
    }

    method HoldRecheck(a: Attempt, recorded: Reason) returns (result: Result)
      modifies this
      ensures result == Retry && entries == old(entries) && ready == HeldReady(recorded, a)
      ensures stored == if a.statusPatch.Refused? then old(stored)
                else old(stored).(ready := HeldReady(recorded, a), entries := entries)
    {
      if recorded == DeletionBlocked || a.now - a.deletedAt >= a.wait.blockedAfter {
        ready := Ready(true, DeletionBlocked);
      } else {
        ready := Ready(true, DeletionInProgress);
      }
      var _ := PatchStatus(a.statusPatch);
      result := Retry;
    }

    method StallDeletion(a: Attempt, reason: Reason) returns (result: Result)
      modifies this
      ensures result == Requeue(STALLED_RECHECK) && entries == old(entries) && ready == Ready(true, reason)
      ensures stored == if a.statusPatch.Refused? then old(stored)
                else old(stored).(ready := Ready(true, reason), entries := entries)
    {
      ready := Ready(true, reason);
      var _ := PatchStatus(a.statusPatch);
      result := Requeue(STALLED_RECHECK);
    }

    /** After a release verdict: the finalizer stays until every deleted object is gone. */
    method AwaitGone(a: Attempt, steps: seq<StepResult>, recorded: Option<Reason>) returns (result: Result)
      requires a.wait.blockedAfter > 0
      modifies this
      ensures AllGone(a, steps) ==>
                && stored == (if a.finalizerPatch.Refused? then old(stored) else old(stored).(finalizer := false))
                && result == if a.finalizerPatch.Committed? then Finished else Retry
      ensures !AllGone(a, steps) ==> result != Finished && entries == old(entries)
      ensures !AllGone(a, steps) && CheckFails(a, steps) && recorded.None? ==> stored == old(stored)
      ensures !AllGone(a, steps) && (CheckFails(a, steps) || !a.statusPatch.Committed?) ==> result == Retry
      ensures result.Requeue? && a.wait.minRecheck <= a.wait.maxRecheck ==>
                a.wait.minRecheck <= result.after <= a.wait.maxRecheck
      ensures !AllGone(a, steps) && !CheckFails(a, steps) && a.statusPatch.Committed? ==>
                if TerminatingTooLong(a, steps) then result == Requeue(a.wait.maxRecheck)
                else exists age :: OldestAge(a, steps, age) && result == Requeue(a.wait.RecheckAfter(age))
      ensures !AllGone(a, steps) && (CheckFails(a, steps) ==> recorded.Some?) ==>
                var mark := if CheckFails(a, steps) then HeldReady(recorded.value, a)
                            else Ready(true, if TerminatingTooLong(a, steps) then DeletionBlocked
                                else DeletionInProgress);
                stored == if a.statusPatch.Refused? then old(stored)
                    else old(stored).(ready := mark, entries := entries)
    {
      FilterMembers(steps, Remains(a.recheck));
      var left := StillThere(a, steps);
      if left.None? {
        if recorded.Some? {
          result := HoldRecheck(a, recorded.value);
          return;
        }
        return Retry;
      }
      if |left.value| == 0 {
        result := ReleaseFinalizer(a.finalizerPatch);
        return;
      }
      ghost var remaining := Filter(steps, Remains(a.recheck));
      assert remaining[0] in remaining;
      var oldest := OldestDeletion(left.value, a.now);
      var age := a.now - oldest;
      AgeOfRemaining(a, steps, left.value, oldest);
      assert OldestAge(a, steps, age);
      if age < a.wait.blockedAfter {
        ready := Ready(true, DeletionInProgress);
        var ok := PatchStatus(a.statusPatch);
        return if ok then Requeue(a.wait.RecheckAfter(age)) else Retry;
      }
      ready := Ready(true, DeletionBlocked);
      var ok := PatchStatus(a.statusPatch);
      return if ok then Requeue(a.wait.maxRecheck) else Retry;
    }

    /** A missing or failed identity: nothing is read or deleted. */
    method ActOnLostIdentity(lib: Library, a: Attempt, verdict: HoldVerdict, recorded: Option<Reason>)
      returns (result: Result)
      requires IdentityLost(a) && entries == stored.entries && ready == stored.ready && stored.finalizer
      requires recorded == RecordedWait(stored)
      requires verdict.because in {InventoryEmpty, ForceOrphan, IdentityUnavailable}
      modifies this
      ensures var due := verdict.because != IdentityUnavailable || (recorded.Some? && a.account == Gone);
              && (result == Finished <==> due && a.finalizerPatch.Committed?)
              && (!due ==> result == if recorded.Some? then Retry else Requeue(STALLED_RECHECK))
              && (result.Requeue? ==> result.after == STALLED_RECHECK)
              && stored.finalizer == !(due && !a.finalizerPatch.Refused?)
              && stored.identities == old(stored.identities)
              && stored.entries == (if verdict.because == ForceOrphan && !a.statusPatch.Refused? then []
                   else old(stored.entries))
              && stored.ready == if due || a.statusPatch.Refused? then old(stored.ready)
                                 else if recorded.Some? then HeldReady(recorded.value, a)
                                 else Ready(true, if a.account == Broken then ImpersonationFailed
                                     else DeletionSAMissing)
    {
      match verdict.because {
        case InventoryEmpty =>
          result := ReleaseFinalizer(a.finalizerPatch);
          return;
        case ForceOrphan =>
          entries := [];
          var _ := PatchStatus(a.statusPatch);
          result := ReleaseFinalizer(a.finalizerPatch);
          return;
        case _ =>
      }
      if recorded.Some? && a.account != Gone {
        result := HoldRecheck(a, recorded.value);
        return;
      }
      if recorded.Some? {
        result := ReleaseFinalizer(a.finalizerPatch);
        return;
      }
      if HeldAs(a) == Missing {
        result := StallDeletion(a, DeletionSAMissing);
        return;
      }
      result := StallDeletion(a, ImpersonationFailed);
    }

    /** A hold verdict of a cleanup that ran its plans. */
    method ActOnHold(a: Attempt, verdict: HoldVerdict) returns (result: Result)
      requires entries == stored.entries && ready == stored.ready
      modifies this
      ensures result == if verdict.because == CleanupForbidden && a.impersonates then Requeue(STALLED_RECHECK)
                else Retry
      ensures stored == if verdict.because == CleanupForbidden && a.impersonates && !a.statusPatch.Refused?
                        then old(stored).(ready := Ready(true, ImpersonationFailed)) else old(stored)
    {
      if verdict.because == CleanupForbidden && a.impersonates {
        result := StallDeletion(a, ImpersonationFailed);
        return;
      }
      result := Retry;
    }

    /** The plans run, and every one of them is asked for its verdict. */
    method RunPlans(lib: Library, a: Attempt, recorded: Option<Reason>) returns (result: Result)
      requires Lawful(lib) && a.wait.blockedAfter > 0 && a.prune && !IdentityLost(a)
      requires stored.finalizer && ready == stored.ready && entries == stored.entries
                 && recorded == RecordedWait(stored)
      modifies this
      ensures Reconciled(lib, old(stored), a, stored)
      ensures result == Finished <==> ReleaseDue(lib, old(stored), a) && a.finalizerPatch.Committed?
      ensures result.Requeue? && a.wait.minRecheck <= a.wait.maxRecheck ==>
                result.after == STALLED_RECHECK || a.wait.minRecheck <= result.after <= a.wait.maxRecheck
    {
      hide StepOf;
      hide RunOf;
      hide Chain;
      hide DeletedSteps;
      hide AllGone;
      hide CheckFails;
      hide TerminatingTooLong;
      hide SomeForbidden;
      hide AllReleased;
      hide Planned;
      var runs, report, _ := RunCleanup(SettingOf(lib, a), a.claimRead, entries, stored.identities, a.deleteData);
      EmptyPlanIsReleased(lib, stored, a);
      ChainStarts(SettingOf(lib, a), Planned(stored.entries, a.deleteData), stored.identities);
      var verdict := HoldVerdictOf(lib, runs);
      if !verdict.release {
        if recorded.Some? {
          result := HoldRecheck(a, recorded.value);
          return;
        }
        result := ActOnHold(a, verdict);
        return;
      }
      var steps := CollectDeleted(runs);
      NothingGoneUnchecked(a, steps);
      result := AwaitGone(a, steps, recorded);
    }

    /** One reconcile of the deletion cleanup. It ends the deletion exactly
        when the release is due and the finalizer patch succeeds; otherwise it
        asks to be called again. */
    method RunDeletionCleanup(lib: Library, a: Attempt) returns (result: Result)
      requires Lawful(lib) && a.wait.blockedAfter > 0
      requires stored.finalizer && ready == stored.ready && entries == stored.entries
      modifies this
      ensures Reconciled(lib, old(stored), a, stored)
      ensures result == Finished <==> ReleaseDue(lib, old(stored), a) && a.finalizerPatch.Committed?
      ensures result.Requeue? && a.wait.minRecheck <= a.wait.maxRecheck ==>
                result.after == STALLED_RECHECK || a.wait.minRecheck <= result.after <= a.wait.maxRecheck
    {
      hide StepOf;
      var recorded := RecordedWait(stored);
      var policy := Policy(a.prune, a.forceOrphan);
      var planned, claims := SplitKeptClaims(entries, a.deleteData);
      var firstPlan := Plan(lib.order(planned), policy, if |stored.identities| == 0 then "" else stored.identities[0]);
      OrderEmpty(lib, planned);
      var early := lib.mayRelease(firstPlan, ZERO, Available);
      if early.because == PruneDisabled || (early.because == InventoryEmpty && |claims| == 0) {
        result := ReleaseFinalizer(a.finalizerPatch);
        return;
      }
      if IdentityLost(a) {
        var verdict := lib.mayRelease(firstPlan, ZERO, HeldAs(a));
        result := ActOnLostIdentity(lib, a, verdict, recorded);
        return;
      }
      result := RunPlans(lib, a, recorded);
    }
  }

  lemma AgeOfRemaining(a: Attempt, steps: seq<StepResult>, left: seq<Live>, oldest: int)
    requires a.wait.blockedAfter > 0
    requires |left| == |Filter(steps, Remains(a.recheck))|
    requires forall i | 0 <= i < |left| :: Some(left[i]) == LiveNow(a.recheck)(Filter(steps, Remains(a.recheck))[i])
    requires oldest <= a.now
    requires forall i | 0 <= i < |left| && left[i].deletedAt.Some? :: oldest <= left[i].deletedAt.value
    requires oldest == a.now || exists i :: 0 <= i < |left| && left[i].deletedAt == Some(oldest)
    ensures a.now - oldest >= a.wait.blockedAfter <==> TerminatingTooLong(a, steps)
    ensures OldestAge(a, steps, a.now - oldest)
  {
    var remaining := Filter(steps, Remains(a.recheck));
    FilterMembers(steps, Remains(a.recheck));
    forall r | r in steps && Remains(a.recheck)(r) && a.recheck(r.entry).live.deletedAt.Some?
      ensures oldest <= a.recheck(r.entry).live.deletedAt.value
    {
      assert r in remaining;
      var i :| 0 <= i < |remaining| && remaining[i] == r;
      assert left[i] == a.recheck(r.entry).live;
    }
    if oldest != a.now {
      var i :| 0 <= i < |left| && left[i].deletedAt == Some(oldest);
      assert remaining[i] in remaining && a.recheck(remaining[i].entry).live == left[i];
    }
    if a.now - oldest >= a.wait.blockedAfter {
      var i :| 0 <= i < |left| && left[i].deletedAt == Some(oldest);
      assert remaining[i] in remaining && a.recheck(remaining[i].entry).live == left[i];
    }
    if TerminatingTooLong(a, steps) {
      var r :| && r in steps && Remains(a.recheck)(r) && a.recheck(r.entry).live.deletedAt.Some?
               && a.now - a.recheck(r.entry).live.deletedAt.value >= a.wait.blockedAfter;
      assert r in remaining;
      var i :| 0 <= i < |remaining| && remaining[i] == r;
      assert left[i] == a.recheck(r.entry).live;
    }
  }

  lemma OrderEmpty(lib: Library, entries: seq<Entry>)
    requires OrderLaw(lib)
    ensures lib.order(entries) == [] <==> entries == []
  {
    assert multiset(lib.order(entries)) == multiset(entries);
    assert |multiset(entries)| == |entries| && |multiset(lib.order(entries))| == |lib.order(entries)|;
  }

  lemma ChainStarts(s: Setting, entries: seq<Entry>, identities: seq<string>)
    ensures Chain(s, 0, entries, AskedWith(identities)) != []
  {
  }

  lemma NothingGoneUnchecked(a: Attempt, steps: seq<StepResult>)
    ensures AllGone(a, steps) ==> !CheckFails(a, steps)
  {
  }

  /** A cleanup that plans nothing runs one empty plan, which releases. */
  lemma EmptyPlanIsReleased(lib: Library, st: Stored, a: Attempt)
    requires Lawful(lib)
    ensures Planned(st.entries, a.deleteData) == [] ==>
              AllReleased(lib, RunsOf(lib, st, a)) && DeletedSteps(RunsOf(lib, st, a)) == []
    ensures Planned(st.entries, a.deleteData) == [] ==> AllGone(a, DeletedSteps(RunsOf(lib, st, a)))
  {
    hide StepOf;
    if Planned(st.entries, a.deleteData) == [] {
      var s, ids := SettingOf(lib, a), AskedWith(st.identities);
      var run := RunOf(s, 0, [], ids[0]);
      OrderEmpty(lib, []);
      assert run.steps == [] && Again(run) == [];
      assert Chain(s, 1, Again(run), ids[1..]) == [];
      assert RunsOf(lib, st, a) == [run];
      assert [run][..0] == [];
      assert StepsOf([run]) == StepsOf([]) + run.steps == [];
    }
  }

  // ---- runs of reconciles -------------------------------------------------

  /** The reconciles of one deletion, each on what the one before left stored. */
  ghost predicate Trace(lib: Library, states: seq<Stored>, attempts: seq<Attempt>) {
    && |states| == |attempts| + 1
    && forall i | 0 <= i < |attempts| :: TraceStep(lib, states, attempts, i)
  }

  ghost predicate TraceStep(lib: Library, states: seq<Stored>, attempts: seq<Attempt>, i: nat)
    requires i < |attempts| && |states| == |attempts| + 1
  {
    states[i].finalizer && Reconciled(lib, states[i], attempts[i], states[i + 1])
  }

  /** Every planned entry was judged, and every step of every plan ended as
      deleted or skipped: no DELETE is left to send. */
  ghost predicate EverythingSent(lib: Library, st: Stored, a: Attempt) {
    && a.prune && a.account.Usable?
    && (forall r | r in StepsOf(RunsOf(lib, st, a)) :: r.outcome.Deleted? || r.outcome.Skipped?)
    && (forall e | e in Planned(st.entries, a.deleteData) :: Judged(StepsOf(RunsOf(lib, st, a)), e))
  }

  ghost predicate Judged(steps: seq<StepResult>, e: Entry) {
    exists r :: r in steps && r.entry == e
  }

  ghost predicate SentBefore(lib: Library, states: seq<Stored>, attempts: seq<Attempt>, i: nat)
    requires |states| == |attempts| + 1 && i <= |attempts|
  {
    exists j: nat | j < i :: EverythingSent(lib, states[j], attempts[j]) && states[i].entries in [states[j].entries, []]
  }

  lemma {:induction false} MemberOfSteps(runs: seq<DeletionRun>, r: StepResult)
    ensures r in StepsOf(runs) <==> exists i :: 0 <= i < |runs| && r in runs[i].steps
  {
    if runs != [] {
      var init := runs[..|runs| - 1];
      MemberOfSteps(init, r);
      assert runs == init + [runs[|runs| - 1]];
      if i :| 0 <= i < |runs| && r in runs[i].steps && i < |runs| - 1 {
        assert init[i] == runs[i];
      }
      if i :| 0 <= i < |init| && r in init[i].steps {
        assert r in runs[i].steps;
      }
      if r in runs[|runs| - 1].steps {
        assert 0 <= |runs| - 1 < |runs|;
      }
    }
  }

  /** A plan whose verdict releases has ended every step as deleted or skipped. */
  lemma ReleasedPlanIsComplete(lib: Library, s: Setting, k: nat, entries: seq<Entry>, id: string)
    requires Lawful(lib) && s.lib == lib && s.policy.prune
    requires VerdictOf(lib, RunOf(s, k, entries, id)).release
    ensures forall r | r in RunOf(s, k, entries, id).steps :: r.outcome.Deleted? || r.outcome.Skipped?
  {
    hide StepOf;
    var run := RunOf(s, k, entries, id);
    forall i | 0 <= i < |run.steps|
      ensures run.steps[i].outcome.Deleted? || run.steps[i].outcome.Skipped?
    {
      assert Complete(run.plan, run.state);
      assert run.state.outcomes[i] == run.steps[i].outcome;
    }
  }

  lemma {:induction false} ReleasedChainIsComplete(lib: Library, s: Setting, k: nat, entries: seq<Entry>,
          ids: seq<string>)
    requires Lawful(lib) && s.lib == lib && s.policy.prune
    requires AllReleased(lib, Chain(s, k, entries, ids))
    ensures forall i, r | 0 <= i < |Chain(s, k, entries, ids)| && r in Chain(s, k, entries, ids)[i].steps ::
              r.outcome.Deleted? || r.outcome.Skipped?
    decreases |ids|
  {
    hide RunOf;
    var runs := Chain(s, k, entries, ids);
    if runs != [] {
      var run := RunOf(s, k, entries, ids[0]);
      var rest := Chain(s, k + 1, Again(run), ids[1..]);
      assert runs == [run] + rest;
      assert runs[0] == run && forall i | 0 <= i < |rest| :: rest[i] == runs[i + 1];
      ReleasedPlanIsComplete(lib, s, k, entries, ids[0]);
      ReleasedChainIsComplete(lib, s, k + 1, Again(run), ids[1..]);
    }
  }

  /** The first plan judges every planned entry. */
  lemma PlannedAreJudged(lib: Library, st: Stored, a: Attempt, e: Entry)
    requires OrderLaw(lib) && e in Planned(st.entries, a.deleteData)
    ensures Judged(StepsOf(RunsOf(lib, st, a)), e)
  {
    hide StepOf;
    var s, planned, ids := SettingOf(lib, a), Planned(st.entries, a.deleteData), AskedWith(st.identities);
    var run := RunOf(s, 0, planned, ids[0]);
    assert RunsOf(lib, st, a)[0] == run;
    RunEntries(s, 0, planned, ids[0]);
    assert e in multiset(planned);
    assert e in run.plan.entries by { assert e in multiset(run.plan.entries); }
    var i :| 0 <= i < |run.plan.entries| && run.plan.entries[i] == e;
    MemberOfSteps(RunsOf(lib, st, a), run.steps[i]);
    assert run.steps[i].entry == e;
  }

  /** A release verdict on every plan means that everything was sent. */
  lemma ReleaseMeansEverythingSent(lib: Library, st: Stored, a: Attempt)
    requires Lawful(lib) && a.prune && !IdentityLost(a) && AllReleased(lib, RunsOf(lib, st, a))
    ensures EverythingSent(lib, st, a)
  {
    hide StepOf;
    hide RunOf;
    var runs := RunsOf(lib, st, a);
    ReleasedChainIsComplete(lib, SettingOf(lib, a), 0, Planned(st.entries, a.deleteData), AskedWith(st.identities));
    forall r | r in StepsOf(runs)
      ensures r.outcome.Deleted? || r.outcome.Skipped?
    {
      MemberOfSteps(runs, r);
    }
    forall e | e in Planned(st.entries, a.deleteData)
      ensures Judged(StepsOf(runs), e)
    {
      PlannedAreJudged(lib, st, a, e);
    }
  }

  /** The wait record is sound: Ready carries DeletionInProgress or
      DeletionBlocked only when an earlier reconcile of this deletion sent
      everything. */
  lemma {:induction false} WaitRecordIsSound(lib: Library, states: seq<Stored>, attempts: seq<Attempt>, i: nat)
    requires Lawful(lib) && Trace(lib, states, attempts) && i <= |attempts|
    requires RecordedWait(states[0]).None? && RecordedWait(states[i]).Some?
    ensures SentBefore(lib, states, attempts, i)
  {
    hide StepOf;
    hide RunOf;
    hide Chain;
    hide EverythingSent;
    var st, a := states[i - 1], attempts[i - 1];
    assert TraceStep(lib, states, attempts, i - 1);
    if RecordedWait(st).Some? {
      WaitRecordIsSound(lib, states, attempts, i - 1);
      var j: nat :| j < i - 1 && EverythingSent(lib, states[j], attempts[j]) && st.entries in [states[j].entries, []];
      assert states[i].entries in [states[j].entries, []];
    } else {
      ReleaseMeansEverythingSent(lib, st, a);
      assert EverythingSent(lib, states[i - 1], attempts[i - 1]);
    }
  }

  /** The wait record is never erased: no stall reason, failed read or failed
      patch of a later reconcile replaces it by another. */
  lemma {:induction false} WaitRecordPersists(lib: Library, states: seq<Stored>, attempts: seq<Attempt>, i: nat, j: nat)
    requires Trace(lib, states, attempts) && i <= j <= |attempts|
    requires RecordedWait(states[i]).Some?
    ensures RecordedWait(states[j]).Some?
    decreases j
  {
    hide RunsOf;
    if i < j {
      WaitRecordPersists(lib, states, attempts, i, j - 1);
      assert TraceStep(lib, states, attempts, j - 1);
    }
  }

  /** What the plans that ask with ids, from plan k on, can have made of an entry. */
  ghost predicate Settled(lib: Library, a: Attempt, k: nat, ids: seq<string>, e: Entry) {
    || lib.excluded(e)
    || (exists i: nat | i < |ids| :: SettledBy(lib, a, k + i, ids[i], e))
    || (forall i: nat | i < |ids| :: RefusedAs(lib, a, k + i, ids[i], e))
  }

  /** The entry is absent, is left for every identity alike, or was deleted and
      the object of that UID was then read as gone. */
  ghost predicate SettledBy(lib: Library, a: Attempt, k: nat, id: string, e: Entry) {
    || a.api.read(k, e).ReadNotFound?
    || (a.api.read(k, e).Found? && a.api.read(k, e).live.entry == e
        && var live := a.api.read(k, e).live;
           match lib.canDelete(e, live, id)
           case Skip(reason, _) => reason !in {OwnerMismatch, AdoptedElsewhere}
           case Proceed =>
             match a.api.delete(k, e, live.uid)
             case DeleteNotFound => true
             case Accepted =>
               a.recheck(e).ReadNotFound? || (a.recheck(e).Found? && a.recheck(e).live.uid != live.uid)
             case DeleteFailed(_) => false)
  }

  /** The object belongs to another owner or adopter than this identity. */
  ghost predicate RefusedAs(lib: Library, a: Attempt, k: nat, id: string, e: Entry) {
    && a.api.read(k, e).Found? && a.api.read(k, e).live.entry == e
    && lib.canDelete(e, a.api.read(k, e).live, id).Skip?
    && lib.canDelete(e, a.api.read(k, e).live, id).reason in {OwnerMismatch, AdoptedElsewhere}
  }

  lemma StepSettles(lib: Library, a: Attempt, k: nat, id: string, e: Entry)
    requires a.prune && !lib.excluded(e)
    requires var r := StepOf(SettingOf(lib, a), k, id, e);
             && (r.outcome.Deleted? || r.outcome.Skipped?)
             && (r.outcome.Deleted? ==>
                   || a.recheck(r.entry).ReadNotFound?
                   || (a.recheck(r.entry).Found? && r.live.Some? && a.recheck(r.entry).live.uid != r.live.value.uid))
    ensures if DependsOnIdentity(StepOf(SettingOf(lib, a), k, id, e).outcome) then RefusedAs(lib, a, k, id, e)
            else SettledBy(lib, a, k, id, e)
  {
  }

  lemma {:induction false} ChainSettles(lib: Library, a: Attempt, k: nat, entries: seq<Entry>, ids: seq<string>,
          e: Entry)
    requires OrderLaw(lib) && a.prune && e in entries
    requires var runs := Chain(SettingOf(lib, a), k, entries, ids);
             DeletedAreGone(a, runs) && forall i, r | 0 <= i < |runs| && r in runs[i].steps ::
               r.outcome.Deleted? || r.outcome.Skipped?
    ensures Settled(lib, a, k, ids, e)
    decreases |ids|
  {
    if ids != [] && !lib.excluded(e) {
      var s := SettingOf(lib, a);
      var run := RunOf(s, k, entries, ids[0]);
      var rest := Chain(s, k + 1, Again(run), ids[1..]);
      RunEntries(s, k, entries, ids[0]);
      var m :| 0 <= m < |run.plan.entries| && run.plan.entries[m] == e;
      var runs := Chain(s, k, entries, ids);
      assert runs == [run] + rest;
      assert run.steps[m] in runs[0].steps;
      StepSettles(lib, a, k, ids[0], e);
      if DependsOnIdentity(StepOf(s, k, ids[0], e).outcome) {
        hide StepOf;
        hide RunOf;
        assert forall i | 0 <= i < |rest| :: rest[i] == runs[i + 1];
        ChainSettles(lib, a, k + 1, Again(run), ids[1..], e);
        LaterSettles(lib, a, k, ids, e);
      } else {
        assert SettledBy(lib, a, k + 0, ids[0], e);
      }
    }
  }

  lemma LaterSettles(lib: Library, a: Attempt, k: nat, ids: seq<string>, e: Entry)
    requires ids != [] && RefusedAs(lib, a, k, ids[0], e) && Settled(lib, a, k + 1, ids[1..], e)
    ensures Settled(lib, a, k, ids, e)
  {
    hide SettledBy;
    hide RefusedAs;
    var later := ids[1..];
    if i: nat :| i < |later| && SettledBy(lib, a, k + 1 + i, later[i], e) {
      assert SettledBy(lib, a, k + (i + 1), ids[i + 1], e);
    } else if forall i: nat | i < |later| :: RefusedAs(lib, a, k + 1 + i, later[i], e) {
      forall i: nat | i < |ids|
        ensures RefusedAs(lib, a, k + i, ids[i], e)
      {
        if i > 0 { assert RefusedAs(lib, a, k + 1 + (i - 1), later[i - 1], e); }
      }
    }
  }

  /** A release after the plans leaves nothing behind that an identity of the
      instance owns: each stored entry, kept claims apart, is absent, excluded,
      left for every identity alike, deleted and then read as gone, or refused
      for every recorded identity, each of which was asked. */
  lemma ReleaseSettlesEveryEntry(lib: Library, st: Stored, a: Attempt, e: Entry)
    requires Lawful(lib) && a.prune && a.account.Usable? && ReleaseDue(lib, st, a)
    requires e in st.entries && (a.deleteData || e.group != "" || e.kind != "PersistentVolumeClaim")
    ensures Settled(lib, a, 0, if st.identities == [] then [""] else st.identities, e)
  {
    hide StepOf;
    hide RunOf;
    PlannedMeans(st.entries, a.deleteData, e);
    ReleaseDueIff(lib, st, a);
    var runs := RunsOf(lib, st, a);
    assert AllReleased(lib, runs);
    ReleasedChainIsComplete(lib, SettingOf(lib, a), 0, Planned(st.entries, a.deleteData), AskedWith(st.identities));
    ChainSettles(lib, a, 0, Planned(st.entries, a.deleteData), AskedWith(st.identities), e);
  }

  /** Over every run of cleanup reconciles, whatever the API server answers,
      the finalizer comes off only with prune off, with nothing planned, by
      force-orphan without the identity, with everything sent and every
      deleted object then read as gone, or, once an earlier reconcile sent
      everything for these entries, when the ServiceAccount itself is gone. */
  lemma FinalizerComesOffOnlyWhen(lib: Library, states: seq<Stored>, attempts: seq<Attempt>, i: nat)
    requires Lawful(lib) && Trace(lib, states, attempts) && i < |attempts|
    requires RecordedWait(states[0]).None? && !states[i + 1].finalizer
    ensures var st, a := states[i], attempts[i];
            || !a.prune
            || (forall e | e in st.entries :: !a.deleteData && e.group == "" && e.kind == "PersistentVolumeClaim")
            || (!a.account.Usable? && a.forceOrphan)
            || (EverythingSent(lib, st, a) && DeletedAreGone(a, RunsOf(lib, st, a))
                && forall e | e in st.entries && (a.deleteData || e.group != "" || e.kind != "PersistentVolumeClaim") ::
                     Settled(lib, a, 0, if st.identities == [] then [""] else st.identities, e))
            || (a.account.Gone? && exists j: nat | j < i ::
                  EverythingSent(lib, states[j], attempts[j]) && states[j].entries == st.entries)
  {
    hide StepOf;
    hide RunOf;
    hide Chain;
    hide EverythingSent;
    hide AllGone;
    hide DeletedSteps;
    hide DeletedAreGone;
    hide Settled;
    var st, a := states[i], attempts[i];
    assert TraceStep(lib, states, attempts, i);
    ReleaseDueIff(lib, st, a);
    forall e
      ensures e in Planned(st.entries, a.deleteData) <==>
                e in st.entries && (a.deleteData || e.group != "" || e.kind != "PersistentVolumeClaim")
    {
      PlannedMeans(st.entries, a.deleteData, e);
    }
    if a.prune && Planned(st.entries, a.deleteData) != [] && !(IdentityLost(a) && a.forceOrphan) {
      if IdentityLost(a) {
        WaitRecordIsSound(lib, states, attempts, i);
        var j: nat :| j < i && EverythingSent(lib, states[j], attempts[j]) && st.entries in [states[j].entries, []];
        assert st.entries != [] by { assert Filter<Entry>([], NoClaim()) == []; }
      } else {
        ReleaseMeansEverythingSent(lib, st, a);
        forall e | e in st.entries && (a.deleteData || e.group != "" || e.kind != "PersistentVolumeClaim")
          ensures Settled(lib, a, 0, if st.identities == [] then [""] else st.identities, e)
        {
          ReleaseSettlesEveryEntry(lib, st, a, e);
        }
      }
    }
  }
}
