/** The directories under the platform root, and every interleaving of leases
    with the one reconciler that writes, records and prunes them
    (internal/platform/layout.go, internal/controller/platform_controller.go). */
module PlatformDirectories {
  import opened Options
  import opened PackageIdentity
  import opened PlatformStore
  import opened Seqs

  /** What an entry under the root holds: a whole module, or less. */
  datatype Module = Partial | Complete(files: string)

  function Staging(dir: string, suffix: string): (name: string)
    ensures |name| > 1 && name[0] == '.'
  {
    ".staging-" + dir + "-" + suffix
  }

  function Aside(dir: string, suffix: string): (name: string)
    ensures |name| > 1 && name[0] == '.'
  {
    ".aside-" + dir + "-" + suffix
  }

  lemma NamesDiffer(dir: string, suffix: string)
    ensures Staging(dir, suffix) != Aside(dir, suffix)
    ensures !IsPackage(Staging(dir, suffix)) && !IsPackage(Aside(dir, suffix))
  {
    assert Staging(dir, suffix)[1] == 's' && Aside(dir, suffix)[1] == 'a';
  }

  predicate IsPackage(name: string) {
    |name| > 4 && name[..4] == "gen-"
  }

  /** Which file system calls of one Write fail; a failed removal leaves a partial entry. */
  datatype WriteFaults = WriteFaults(create: bool, fill: bool, inspect: bool, aside: bool, swap: bool, restore: bool,
          remove: bool)

  function DirNames(ids: seq<Identity>, digest: string -> string): set<string> {
    set id | id in ids :: DirName(id, digest)
  }

  // ---- the reconciler and the renders -------------------------------------

  /** Where the reconciler stands: a staged module; the old directory moved
      aside or absent; the swap failed; swapped in; recorded in the store; with
      the names to keep; at the prune's listing. */
  datatype Phase =
    | Idle
    | Staged(id: Identity, suffix: string)
    | Moved(id: Identity, suffix: string, had: bool)
    | Unswapped(id: Identity, suffix: string, had: bool)
    | Swapped(id: Identity)
    | Recorded(id: Identity)
    | Keeping(id: Identity, keep: set<string>)
    | Pruning(id: Identity, keep: set<string>, todo: set<string>)

  /** open are the unreleased leases; lost the directories whose swap failed
      and could not be undone. */
  datatype State = State(store: Contents, open: map<nat, Identity>, disk: map<string, Module>, phase: Phase,
          lost: set<string>)

  datatype Step =
    | TakeLease(lease: nat) | GiveBack(lease: nat) | ClearStore
    | Stage(id: Identity, suffix: string, files: string) | StageFails(name: string, cleaned: bool)
    | MoveAside(ok: bool, cleaned: bool) | Swap(ok: bool, cleaned: bool) | Restore(ok: bool)
    | Build(ok: bool) | ReadLeases | ListRoot(ok: bool) | RemoveEntry(name: string, ok: bool) | EndPrune

  const START := State(Contents(None, map[]), map[], map[], Idle, {})

  function Remove(disk: map<string, Module>, name: string, ok: bool): map<string, Module> {
    if name !in disk then disk else if ok then disk - {name} else disk[name := Partial]
  }

  predicate Enabled(digest: string -> string, s: State, step: Step) {
    match step
    case TakeLease(n) => n !in s.open && s.store.held.Some?
    case GiveBack(n) => n in s.open
    case ClearStore => true
    case Stage(id, suffix, _) =>
      s.phase.Idle? && Staging(DirName(id, digest), suffix) !in s.disk && Aside(DirName(id, digest), suffix) !in s.disk
    case StageFails(name, _) => s.phase.Idle? && !IsPackage(name)
    case MoveAside(_, _) => s.phase.Staged?
    case Swap(_, _) => s.phase.Moved?
    case Restore(_) => s.phase.Unswapped?
    case Build(_) => s.phase.Swapped?
    case ReadLeases => s.phase.Recorded?
    case ListRoot(_) => s.phase.Keeping?
    case RemoveEntry(e, _) => s.phase.Pruning? && e in s.phase.todo
    case EndPrune => s.phase.Pruning? && s.phase.todo == {}
  }

  /** The steps of the renders and the deletion of the Platform. */
  function StoreStep(s: State, step: Step): State
    requires step.TakeLease? || step.GiveBack? || step.ClearStore?
  {
    match step
    case TakeLease(n) =>
      if s.store.held.None? then s
      else s.(store := s.store.Lease(), open := s.open[n := s.store.held.value.identity])
    case GiveBack(n) =>
      if n !in s.open then s else s.(store := s.store.Release(s.open[n]), open := s.open - {n})
    case ClearStore => s.(store := s.store.(held := None))
  }

  /** The steps of Layout.Write. */
  function WriteStep(digest: string -> string, s: State, step: Step): State
    requires step.Stage? || step.StageFails? || step.MoveAside? || step.Swap? || step.Restore?
    requires Enabled(digest, s, step)
  {
    match step
    case Stage(id, suffix, files) =>
      s.(disk := s.disk[Staging(DirName(id, digest), suffix) := Complete(files)], phase := Staged(id, suffix))
    case StageFails(name, cleaned) => s.(disk := Remove(s.disk[name := Partial], name, cleaned))
    case MoveAside(ok, cleaned) =>
      var (id, suffix) := (s.phase.id, s.phase.suffix);
      var dir := DirName(id, digest);
      if !ok then s.(disk := Remove(s.disk, Staging(dir, suffix), cleaned), phase := Idle)
      else if dir !in s.disk then s.(phase := Moved(id, suffix, false))
      else s.(disk := s.disk[Aside(dir, suffix) := s.disk[dir]] - {dir}, phase := Moved(id, suffix, true))
    case Swap(ok, cleaned) =>
      var (id, suffix) := (s.phase.id, s.phase.suffix);
      var dir, staging := DirName(id, digest), Staging(DirName(id, digest), suffix);
      if ok && staging in s.disk then
        s.(disk := Remove(s.disk[dir := s.disk[staging]] - {staging}, Aside(dir, suffix), cleaned),
           phase := Swapped(id), lost := s.lost - {dir})
      else s.(disk := Remove(s.disk, staging, cleaned), phase := Unswapped(id, suffix, s.phase.had))
    case Restore(ok) =>
      var (id, suffix) := (s.phase.id, s.phase.suffix);
      var dir, aside := DirName(id, digest), Aside(DirName(id, digest), suffix);
      if ok && aside in s.disk then s.(disk := s.disk[dir := s.disk[aside]] - {aside}, phase := Idle)
      else s.(phase := Idle, lost := if s.phase.had then s.lost + {dir} else s.lost)
  }

  /** The steps from a written module to the end of the prune. */
  function RecordStep(digest: string -> string, s: State, step: Step): State
    requires step.Build? || step.ReadLeases? || step.ListRoot? || step.RemoveEntry? || step.EndPrune?
    requires Enabled(digest, s, step)
  {
    match step
    case Build(ok) =>
      if ok then s.(store := s.store.(held := Some(Generated(s.phase.id, DirName(s.phase.id, digest)))),
          phase := Recorded(s.phase.id))
      else s.(phase := Idle)
    case ReadLeases =>
      s.(phase := Keeping(s.phase.id, {DirName(s.phase.id, digest)} + set id | id in s.store.leases ::
          DirName(id, digest)))
    case ListRoot(ok) => s.(phase := if ok then Pruning(s.phase.id, s.phase.keep, s.disk.Keys) else Idle)
    case RemoveEntry(e, ok) =>
      s.(disk := if e in s.phase.keep then s.disk else Remove(s.disk, e, ok),
         phase := s.phase.(todo := s.phase.todo - {e}))
    case EndPrune => s.(phase := Idle)
  }

  function Apply(digest: string -> string, s: State, step: Step): State
    requires Enabled(digest, s, step)
  {
    if step.TakeLease? || step.GiveBack? || step.ClearStore? then StoreStep(s, step)
    else if step.Stage? || step.StageFails? || step.MoveAside? || step.Swap?
        || step.Restore? then WriteStep(digest, s, step)
    else RecordStep(digest, s, step)
  }

  /** The state after a list of steps from s; None when one of them is not enabled. */
  function After(digest: string -> string, s: State, steps: seq<Step>): Option<State>
    decreases |steps|
  {
    if steps == [] then Some(s)
    else
      match After(digest, s, steps[..|steps| - 1])
      case None => None
      case Some(t) =>
        if Enabled(digest, t, steps[|steps| - 1]) then Some(Apply(digest, t, steps[|steps| - 1])) else None
  }

  function Exec(digest: string -> string, steps: seq<Step>): Option<State> {
    After(digest, START, steps)
  }

  /** The steps are enabled from s on and end with this store, these leases,
      these entries on disk, this phase and these lost directories. */
  ghost predicate Leads(digest: string -> string, s: State, steps: seq<Step>,
                        store: Contents, open: map<nat, Identity>, disk: map<string, Module>, phase: Phase,
                        lost: set<string>)
  {
    After(digest, s, steps) == Some(State(store, open, disk, phase, lost))
  }

  // ---- what every interleaving keeps --------------------------------------

  ghost function Holders(open: map<nat, Identity>, id: Identity): set<nat> {
    set n | n in open && open[n] == id
  }

  /** The store's count of an identity is the number of its unreleased leases. */
  ghost predicate CountsExact(s: State) {
    && (forall id :: CountIn(s.store.leases, id) == |Holders(s.open, id)|)
    && (forall id | id in s.store.leases :: s.store.leases[id] > 0)
  }

  /** A render reads, or may begin to read, the directory of id. */
  ghost predicate InUse(s: State, id: Identity) {
    (s.store.held.Some? && s.store.held.value.identity == id) || (exists n :: n in s.open && s.open[n] == id)
  }

  ghost predicate Present(s: State, name: string) {
    name in s.disk && s.disk[name].Complete?
  }

  /** Between the two renames of a swap, with the old directory aside. */
  ghost predicate InSwap(digest: string -> string, s: State, name: string) {
    && (s.phase.Moved? || s.phase.Unswapped?) && s.phase.had && DirName(s.phase.id, digest) == name
    && Present(s, Aside(name, s.phase.suffix))
  }

  ghost predicate InUsePresent(digest: string -> string, s: State) {
    forall id | InUse(s, id) ::
      var name := DirName(id, digest);
      Present(s, name) || name in s.lost || InSwap(digest, s, name)
  }

  /** What the reconciler relies on at each place. */
  ghost predicate PhaseInv(digest: string -> string, s: State) {
    match s.phase
    case Idle => true
    case Staged(id, suffix) =>
      Present(s, Staging(DirName(id, digest), suffix)) && Aside(DirName(id, digest), suffix) !in s.disk
    case Moved(id, suffix, had) => Present(s, Staging(DirName(id, digest), suffix)) && DirName(id, digest) !in s.disk
    case Unswapped(id, suffix, had) => DirName(id, digest) !in s.disk
    case Swapped(id) => Present(s, DirName(id, digest))
    case Recorded(id) => HoldsOnly(s, id) && Present(s, DirName(id, digest))
    case Keeping(id, keep) => HoldsOnly(s, id) && Keeps(digest, s, id, keep)
    case Pruning(id, keep, _) => HoldsOnly(s, id) && Keeps(digest, s, id, keep)
  }

  ghost predicate HoldsOnly(s: State, id: Identity) {
    s.store.held.Some? ==> s.store.held.value.identity == id
  }

  /** The names to keep hold the current identity and every leased one. */
  ghost predicate Keeps(digest: string -> string, s: State, id: Identity, keep: set<string>) {
    && DirName(id, digest) in keep
    && forall n | n in s.open :: DirName(s.open[n], digest) in keep
  }

  ghost predicate Inv(digest: string -> string, s: State) {
    CountsExact(s) && PhaseInv(digest, s) && InUsePresent(digest, s)
  }

  lemma TakeLeaseCounts(s: State, n: nat)
    requires CountsExact(s) && n !in s.open && s.store.held.Some?
    ensures CountsExact(StoreStep(s, TakeLease(n)))
  {
    var id, t := s.store.held.value.identity, StoreStep(s, TakeLease(n));
    assert Holders(t.open, id) == Holders(s.open, id) + {n};
    assert forall other | other != id :: Holders(t.open, other) == Holders(s.open, other);
  }

  lemma GiveBackCounts(s: State, n: nat)
    requires CountsExact(s) && n in s.open
    ensures CountsExact(StoreStep(s, GiveBack(n)))
  {
    var id, t := s.open[n], StoreStep(s, GiveBack(n));
    assert n in Holders(s.open, id);
    assert Holders(t.open, id) == Holders(s.open, id) - {n};
    assert forall other | other != id :: Holders(t.open, other) == Holders(s.open, other);
  }

  lemma StoreStepKeepsPhase(digest: string -> string, s: State, step: Step)
    requires Inv(digest, s) && Enabled(digest, s, step) && (step.TakeLease? || step.GiveBack? || step.ClearStore?)
    ensures PhaseInv(digest, StoreStep(s, step))
    ensures forall id :: InUse(StoreStep(s, step), id) ==> InUse(s, id)
  {
    hide CountsExact;
    hide InUsePresent;
    hide DirName;
    var t := StoreStep(s, step);
    forall id | InUse(t, id)
      ensures InUse(s, id)
    {
      if n :| n in t.open && t.open[n] == id {
        assert n in s.open ==> s.open[n] == id;
      }
    }
  }

  lemma StoreStepKeepsInv(digest: string -> string, s: State, step: Step)
    requires Inv(digest, s) && Enabled(digest, s, step) && (step.TakeLease? || step.GiveBack? || step.ClearStore?)
    ensures Inv(digest, StoreStep(s, step))
  {
    StoreStepKeepsPhase(digest, s, step);
    hide PhaseInv;
    hide InUse;
    var t := StoreStep(s, step);
    match step {
      case TakeLease(n) => TakeLeaseCounts(s, n);
      case GiveBack(n) => GiveBackCounts(s, n);
      case ClearStore => assert forall id :: Holders(t.open, id) == Holders(s.open, id);
    }
  }

  lemma WriteStepKeepsInv(digest: string -> string, s: State, step: Step)
    requires Inv(digest, s) && Enabled(digest, s, step)
    requires step.Stage? || step.StageFails? || step.MoveAside? || step.Swap? || step.Restore?
    ensures Inv(digest, WriteStep(digest, s, step))
  {
    hide DirName;
    var t := WriteStep(digest, s, step);
    assert t.store == s.store && t.open == s.open;
    forall id | InUse(t, id)
      ensures var name := DirName(id, digest); Present(t, name) || name in t.lost || InSwap(digest, t, name)
    {
      assert InUse(s, id);
    }
  }

  lemma RecordStepKeepsInv(digest: string -> string, s: State, step: Step)
    requires Inv(digest, s) && Enabled(digest, s, step)
    requires step.Build? || step.ReadLeases? || step.ListRoot? || step.RemoveEntry? || step.EndPrune?
    ensures Inv(digest, RecordStep(digest, s, step))
  {
    var t := RecordStep(digest, s, step);
    assert t.open == s.open;
    forall id | InUse(t, id)
      ensures var name := DirName(id, digest); Present(t, name) || name in t.lost || InSwap(digest, t, name)
    {
      if !InUse(s, id) {
        assert step.Build?;
      }
    }
    if step.ReadLeases? {
      forall n | n in s.open
        ensures s.open[n] in s.store.leases
      {
        assert n in Holders(s.open, s.open[n]);
      }
    }
  }

  lemma {:induction false} RunsKeepInv(digest: string -> string, steps: seq<Step>)
    requires Exec(digest, steps).Some?
    ensures Inv(digest, Exec(digest, steps).value)
    decreases |steps|
  {
    hide StoreStep;
    hide WriteStep;
    hide RecordStep;
    if steps == [] {
      assert forall id :: Holders(START.open, id) == {};
    } else {
      hide Inv;
      hide Enabled;
      var before, step := steps[..|steps| - 1], steps[|steps| - 1];
      RunsKeepInv(digest, before);
      var s := Exec(digest, before).value;
      if step.TakeLease? || step.GiveBack? || step.ClearStore? {
        StoreStepKeepsInv(digest, s, step);
      } else if step.Stage? || step.StageFails? || step.MoveAside? || step.Swap? || step.Restore? {
        WriteStepKeepsInv(digest, s, step);
      } else {
        RecordStepKeepsInv(digest, s, step);
      }
    }
  }

  /** In every interleaving the count of an identity is the number of its
      unreleased leases, and an identity is listed as leased exactly while one
      is unreleased. */
  lemma LeaseCountsAreExact(digest: string -> string, steps: seq<Step>, id: Identity)
    requires Exec(digest, steps).Some?
    ensures var s := Exec(digest, steps).value;
            && CountIn(s.store.leases, id) == |Holders(s.open, id)|
            && (id in s.store.leases <==> exists n :: n in s.open && s.open[n] == id)
  {
    hide Exec;
    RunsKeepInv(digest, steps);
    var s := Exec(digest, steps).value;
    if n :| n in s.open && s.open[n] == id {
      assert n in Holders(s.open, id);
    }
    if id in s.store.leases {
      var n :| n in Holders(s.open, id);
    }
  }

  /** The prune never removes or damages the directory of a leased or currently
      held identity, whatever lease or release comes between its steps. */
  lemma PruneSparesInUse(digest: string -> string, steps: seq<Step>, name: string, ok: bool, id: Identity)
    requires Exec(digest, steps).Some? && Enabled(digest, Exec(digest, steps).value, RemoveEntry(name, ok))
    requires InUse(Exec(digest, steps).value, id) && DirName(id, digest) == name
    ensures Apply(digest, Exec(digest, steps).value, RemoveEntry(name, ok)).disk == Exec(digest, steps).value.disk
  {
    hide Exec;
    RunsKeepInv(digest, steps);
  }

  /** In every interleaving the directory of a leased or held identity is there
      with a whole module, except between the two renames of a swap of that
      very directory, and except after such a swap failed and could not be undone. */
  lemma InUseDirectoriesStay(digest: string -> string, steps: seq<Step>, id: Identity)
    requires Exec(digest, steps).Some? && InUse(Exec(digest, steps).value, id)
    ensures var s, name := Exec(digest, steps).value, DirName(id, digest);
            Present(s, name) || name in s.lost || InSwap(digest, s, name)
  {
    hide Exec;
    RunsKeepInv(digest, steps);
  }

  /** A lost directory is a package's and not on disk; only a directory that
      was there is set aside in a swap. */
  ghost predicate LostInv(digest: string -> string, s: State) {
    && s.lost !! s.disk.Keys && (forall name | name in s.lost :: IsPackage(name))
    && (s.phase.Moved? || s.phase.Unswapped? ==>
          var dir := DirName(s.phase.id, digest);
          if s.phase.had then dir !in s.lost else Aside(dir, s.phase.suffix) !in s.disk)
  }

  /** In every interleaving a directory counts as lost only while it is not on disk. */
  lemma {:induction false} LostIsAbsent(digest: string -> string, steps: seq<Step>)
    requires Exec(digest, steps).Some?
    ensures LostInv(digest, Exec(digest, steps).value)
    ensures Exec(digest, steps).value.lost !! Exec(digest, steps).value.disk.Keys
    decreases |steps|
  {
    if steps != [] {
      hide Enabled;
      hide Apply;
      hide Inv;
      var before, step := steps[..|steps| - 1], steps[|steps| - 1];
      LostIsAbsent(digest, before);
      RunsKeepInv(digest, before);
      StepKeepsLost(digest, Exec(digest, before).value, step);
    }
  }

  lemma StepKeepsLost(digest: string -> string, s: State, step: Step)
    requires Inv(digest, s) && Enabled(digest, s, step) && LostInv(digest, s)
    ensures LostInv(digest, Apply(digest, s, step))
  {
    hide InUsePresent;
    hide CountsExact;
    if s.phase.Staged? || s.phase.Moved? || s.phase.Unswapped? {
      NamesDiffer(DirName(s.phase.id, digest), s.phase.suffix);
    }
    match step {
      case Stage(id, suffix, _) => NamesDiffer(DirName(id, digest), suffix);
      case _ =>
    }
  }

  /** What the reconciler does between a Write and its prune: a build that
      succeeds is recorded under its identity and directory; one that fails, or
      a listing that fails, ends the reconcile and changes nothing. The Platform
      can be deleted at any time; its leases stay. */
  lemma RecordsWhatItBuilt(digest: string -> string, s: State, ok: bool)
    ensures s.phase.Swapped? ==>
              Enabled(digest, s, Build(ok)) && Apply(digest, s, Build(ok)) ==
                  if ok then
                    s.(store := Contents(Some(Generated(s.phase.id, DirName(s.phase.id, digest))), s.store.leases),
                                phase := Recorded(s.phase.id))
                  else s.(phase := Idle)
    ensures s.phase.Keeping? ==>
              Enabled(digest, s, ListRoot(ok)) && Apply(digest, s, ListRoot(ok)) ==
                  s.(phase := if ok then Pruning(s.phase.id, s.phase.keep, s.disk.Keys) else Idle)
    ensures Enabled(digest, s, ClearStore)
    ensures Apply(digest, s, ClearStore) == s.(store := Contents(None, s.store.leases))
  {
  }

  // ---- the layout, as the steps it takes -----------------------------------

  /** What a Write makes of the entries, and whether it succeeds. */
  function Written(entries: map<string, Module>, dir: string, suffix: string, files: string,
          faults: WriteFaults): (map<string, Module>, bool)
  {
    var staging, aside := Staging(dir, suffix), Aside(dir, suffix);
    var cleaned := !faults.remove;
    if faults.create || staging in entries then (entries, false)
    else if faults.fill then (Remove(entries[staging := Partial], staging, cleaned), false)
    else
      var staged := entries[staging := Complete(files)];
      if faults.inspect || (dir in staged && faults.aside) then (Remove(staged, staging, cleaned), false)
      else
        var moved := if dir in staged then staged[aside := staged[dir]] - {dir} else staged;
        if faults.swap || staging !in moved then
          var left := Remove(moved, staging, cleaned);
          (if aside in left && !faults.restore then left[dir := left[aside]] - {aside} else left, false)
        else (Remove(moved[dir := moved[staging]] - {staging}, aside, cleaned), true)
  }

  /** The protocol's steps that a Write takes. */
  function WriteTrace(entries: map<string, Module>, id: Identity, dir: string, suffix: string, files: string,
          faults: WriteFaults): seq<Step> {
    var staging, cleaned := Staging(dir, suffix), !faults.remove;
    if faults.create || staging in entries then []
    else if faults.fill then [StageFails(staging, cleaned)]
    else if faults.inspect || (dir in entries
        && faults.aside) then [Stage(id, suffix, files), MoveAside(false, cleaned)]
    else [Stage(id, suffix, files), MoveAside(true, cleaned), Swap(!faults.swap, cleaned)]
         + if faults.swap then [Restore(!faults.restore)] else []
  }

  /** A module directory is replaced as a whole or not at all. */
  lemma WrittenWhole(entries: map<string, Module>, id: Identity, digest: string -> string, suffix: string,
          files: string, faults: WriteFaults)
    ensures var dir := DirName(id, digest);
            var (after, ok) := Written(entries, dir, suffix, files, faults);
            && (forall p | IsPackage(p) && p != dir ::
                  (p in after <==> p in entries) && (p in after ==> after[p] == entries[p]))
            && (ok ==> dir in after && after[dir] == Complete(files))
            && (!ok && Aside(dir, suffix) !in entries && !(faults.swap && faults.restore) ==>
                  (dir in after <==> dir in entries) && (dir in after ==> after[dir] == entries[dir]))
            && (!ok && Aside(dir, suffix) !in entries && dir in after ==> dir in entries && after[dir] == entries[dir])
  {
    NamesDiffer(DirName(id, digest), suffix);
    hide DirName;
    hide Staging;
    hide Aside;
  }

  /** A Write loses a directory exactly when it was there, the swap failed and
      could not be undone, and gets one back exactly when it succeeds. */
  function LostBy(s: State, dir: string, staging: string, faults: WriteFaults, ok: bool): set<string> {
    if ok then s.lost - {dir}
    else if !faults.create && staging !in s.disk && !faults.fill && !faults.inspect && !faults.aside
         && faults.swap && faults.restore && dir in s.disk then s.lost + {dir}
    else s.lost
  }

  /** As long as its random suffix is new, a Write is a sequence of the
      protocol's steps: it ends swapped in, or idle when it failed. */
  lemma WriteIsSteps(digest: string -> string, s: State, id: Identity, suffix: string, files: string,
          faults: WriteFaults)
    requires s.phase.Idle? && Aside(DirName(id, digest), suffix) !in s.disk
    ensures var dir := DirName(id, digest);
            var (after, ok) := Written(s.disk, dir, suffix, files, faults);
            Leads(digest, s, WriteTrace(s.disk, id, dir, suffix, files, faults), s.store, s.open, after,
                  if ok then Swapped(id) else Idle, LostBy(s, dir, Staging(dir, suffix), faults, ok))
  {
    var dir := DirName(id, digest);
    NamesDiffer(dir, suffix);
    hide DirName;
    hide Staging;
    hide Aside;
    hide After;
    var staging, cleaned := Staging(dir, suffix), !faults.remove;
    Starts(digest, s);
    if faults.create || staging in s.disk {
    } else if faults.fill {
      var trace, t := Take(digest, s, [], s, StageFails(staging, cleaned));
      assert trace == [StageFails(staging, cleaned)];
    } else {
      var trace, t := Take(digest, s, [], s, Stage(id, suffix, files));
      assert trace == [Stage(id, suffix, files)];
      if faults.inspect || (dir in s.disk && faults.aside) {
        trace, t := Take(digest, s, trace, t, MoveAside(false, cleaned));
        assert trace == WriteTrace(s.disk, id, dir, suffix, files, faults);
      } else {
        SwapIsSteps(digest, s, trace, t, id, suffix, files, faults);
      }
    }
  }

  lemma SwapIsSteps(digest: string -> string, s: State, begun: seq<Step>, t: State, id: Identity, suffix: string,
          files: string,
                    faults: WriteFaults)
    requires After(digest, s, begun) == Some(t) && begun == [Stage(id, suffix, files)] && t.phase == Staged(id, suffix)
    requires var dir := DirName(id, digest);
             && Staging(dir, suffix) !in s.disk && Aside(dir, suffix) !in s.disk && t.store == s.store
                  && t.open == s.open && t.lost == s.lost
             && t.disk == s.disk[Staging(dir, suffix) := Complete(files)]
             && !faults.create && !faults.fill && !faults.inspect && !(dir in s.disk && faults.aside)
    ensures var dir := DirName(id, digest);
            var (after, ok) := Written(s.disk, dir, suffix, files, faults);
            Leads(digest, s, WriteTrace(s.disk, id, dir, suffix, files, faults), s.store, s.open, after,
                  if ok then Swapped(id) else Idle, LostBy(s, dir, Staging(dir, suffix), faults, ok))
  {
    var dir := DirName(id, digest);
    NamesDiffer(dir, suffix);
    hide DirName;
    hide Staging;
    hide Aside;
    hide After;
    var cleaned := !faults.remove;
    var trace, u := Take(digest, s, begun, t, MoveAside(true, cleaned));
    trace, u := Take(digest, s, trace, u, Swap(!faults.swap, cleaned));
    if faults.swap {
      trace, u := Take(digest, s, trace, u, Restore(!faults.restore));
    }
    assert trace == WriteTrace(s.disk, id, dir, suffix, files, faults);
  }

  lemma Take(digest: string -> string, s: State, trace: seq<Step>, t: State, step: Step)
    returns (longer: seq<Step>, u: State)
    requires After(digest, s, trace) == Some(t) && Enabled(digest, t, step)
    ensures longer == trace + [step] && u == Apply(digest, t, step) && After(digest, s, longer) == Some(u)
  {
    longer, u := trace + [step], Apply(digest, t, step);
    assert longer[..|trace|] == trace;
  }

  /** The entries after a prune has come to done: a kept one as it was, another
      one gone, or partial when its removal failed. */
  function Pruned(entries: map<string, Module>, keep: set<string>, fails: string -> bool,
          done: set<string>): map<string, Module> {
    map e | e in entries && (e !in done || e in keep || fails(e)) :: if e in done && e !in keep then Partial
        else entries[e]
  }

  lemma PrunedStep(entries: map<string, Module>, keep: set<string>, fails: string -> bool, done: set<string>, e: string)
    requires e in entries && e !in done
    ensures var before, after := Pruned(entries, keep, fails, done), Pruned(entries, keep, fails, done + {e});
            e in before && after == if e in keep then before else Remove(before, e, !fails(e))
  {
  }

  class Layout {
    var entries: map<string, Module>

    method RemoveAll(name: string, fails: bool) returns (ok: bool)
      modifies this
      ensures ok == !(fails && name in old(entries))
      ensures entries == Remove(old(entries), name, !fails)
    {
      ok := !(fails && name in entries);
      entries := if ok then entries - {name} else entries[name := Partial];
    }

    method Rename(from: string, to: string, fails: bool) returns (ok: bool)
      modifies this
      ensures ok == (from in old(entries) && !fails)
      ensures entries == if ok then old(entries)[to := old(entries)[from]] - (if from == to then {} else {from})
                         else old(entries)
    {
      ok := from in entries && !fails;
      if ok {
        entries := entries[to := entries[from]] - (if from == to then {} else {from});
      }
    }

    /** A module directory is replaced as a whole or not at all: whatever
        fails, no package directory is left partial and no other one changes;
        only a swap that fails and cannot be undone loses the directory. The
        suffix is random, so no moved-aside copy has it yet. */
    method Write(id: Identity, digest: string -> string, files: string, suffix: string, faults: WriteFaults)
      returns (ok: bool)
      modifies this
      ensures (entries, ok) == Written(old(entries), DirName(id, digest), suffix, files, faults)
      ensures var dir := DirName(id, digest);
              && (forall p | IsPackage(p) && p != dir ::
                    (p in entries <==> p in old(entries)) && (p in entries ==> entries[p] == old(entries)[p]))
              && (ok ==> dir in entries && entries[dir] == Complete(files))
              && (!ok && Aside(dir, suffix) !in old(entries) && !(faults.swap && faults.restore) ==>
                    (dir in entries <==> dir in old(entries)) && (dir in entries ==> entries[dir] == old(entries)[dir]))
              && (!ok && Aside(dir, suffix) !in old(entries) && dir in entries ==>
                    dir in old(entries) && entries[dir] == old(entries)[dir])
    {
      var dir := DirName(id, digest);
      var staging, aside := Staging(dir, suffix), Aside(dir, suffix);
      WrittenWhole(entries, id, digest, suffix, files, faults);
      NamesDiffer(dir, suffix);
      hide DirName;
      hide Staging;
      hide Aside;
      hide IsPackage;
      if faults.create || staging in entries {
        return false;
      }
      entries := entries[staging := if faults.fill then Partial else Complete(files)];
      if faults.fill {
        var _ := RemoveAll(staging, faults.remove);
        return false;
      }
      if faults.inspect {
        var _ := RemoveAll(staging, faults.remove);
        return false;
      }
      if dir in entries {
        var moved := Rename(dir, aside, faults.aside);
        if !moved {
          var _ := RemoveAll(staging, faults.remove);
          return false;
        }
      }
      var swapped := Rename(staging, dir, faults.swap);
      if !swapped {
        var _ := RemoveAll(staging, faults.remove);
        var _ := Rename(aside, dir, faults.restore);
        return false;
      }
      var _ := RemoveAll(aside, faults.remove);
      ok := true;
    }

    /** Removes every entry but the directories the identities name; a removal
        that fails leaves a partial entry and does not stop the others. */
    method Prune(keep: seq<Identity>, digest: string -> string, fails: string -> bool) returns (ok: bool)
      modifies this
      ensures entries == Pruned(old(entries), DirNames(keep, digest), fails, old(entries).Keys)
      ensures ok <==> forall e | e in old(entries) && fails(e) :: e in DirNames(keep, digest)
    {
      var kept: set<string> := {};
      for i := 0 to |keep|
        invariant kept == DirNames(keep[..i], digest)
      {
        kept := kept + {DirName(keep[i], digest)};
        assert keep[..i + 1] == keep[..i] + [keep[i]];
      }
      assert keep[..|keep|] == keep;
      hide Remove;
      ok := true;
      ghost var before := entries;
      var todo := entries.Keys;
      assert Pruned(before, kept, fails, {}) == before;
      hide Pruned;
      hide DirNames;
      while todo != {}
        invariant todo <= before.Keys
        invariant entries == Pruned(before, kept, fails, before.Keys - todo)
        invariant ok <==> forall e | e in before.Keys - todo && fails(e) :: e in kept
      {
        var e :| e in todo;
        PrunedStep(before, kept, fails, before.Keys - todo, e);
        assert before.Keys - todo + {e} == before.Keys - (todo - {e});
        todo := todo - {e};
        if e in kept {
          continue;
        }
        var removed := RemoveAll(e, fails(e));
        ok := ok && removed;
      }
    }
  }

  /** The steps that remove the entries in this order. */
  function Removals(order: seq<string>, fails: string -> bool): seq<Step> {
    if order == [] then []
    else Removals(order[..|order| - 1], fails) + [RemoveEntry(order[|order| - 1], !fails(order[|order| - 1]))]
  }

  lemma {:induction false} RemovalsLead(digest: string -> string, s: State, order: seq<string>, fails: string -> bool)
    requires s.phase.Pruning? && s.phase.todo == s.disk.Keys && Distinct(order) && forall e | e in order :: e in s.disk
    ensures After(digest, s, Removals(order, fails)) ==
            Some(s.(disk := Pruned(s.disk, s.phase.keep, fails, Elems(order)),
                phase := s.phase.(todo := s.disk.Keys - Elems(order))))
  {
    if order == [] {
      assert Elems(order) == {} && s.disk.Keys - Elems(order) == s.disk.Keys;
      assert Pruned(s.disk, s.phase.keep, fails, {}) == s.disk;
    } else {
      var init, e := order[..|order| - 1], order[|order| - 1];
      assert order == init + [e];
      assert forall i | 0 <= i < |init| :: init[i] == order[i];
      RemovalsLead(digest, s, init, fails);
      assert Elems(order) == Elems(init) + {e};
      var t := After(digest, s, Removals(init, fails)).value;
      assert e !in Elems(init) by { assert forall i | 0 <= i < |init| :: order[i] != order[|order| - 1]; }
      PrunedStep(s.disk, s.phase.keep, fails, Elems(init), e);
      hide After;
      hide Pruned;
      hide Remove;
      hide Distinct;
      hide Elems;
      var trace, u := Take(digest, s, Removals(init, fails), t, RemoveEntry(e, !fails(e)));
      assert u.phase.todo == s.disk.Keys - Elems(order);
    }
  }

  /** A Prune is a sequence of the protocol's removals, in whatever order it
      comes to the entries of its listing. */
  lemma PruneIsSteps(digest: string -> string, s: State, order: seq<string>, fails: string -> bool)
    requires s.phase.Pruning? && s.phase.todo == s.disk.Keys == Elems(order) && Distinct(order)
    ensures Leads(digest, s, Removals(order, fails) + [EndPrune], s.store, s.open,
                  Pruned(s.disk, s.phase.keep, fails, s.disk.Keys), Idle, s.lost)
  {
    assert forall e | e in order :: e in Elems(order);
    RemovalsLead(digest, s, order, fails);
    var t := After(digest, s, Removals(order, fails)).value;
    hide After;
    var trace, u := Take(digest, s, Removals(order, fails), t, EndPrune);
  }

  /** A prune from its reading of the leases on, with nothing in between and no
      failed removal, leaves exactly the directories of the recorded identity
      and of the leased ones. */
  lemma PruneLeavesInUseOnly(digest: string -> string, s: State, order: seq<string>)
    requires s.phase.Recorded? && s.disk.Keys == Elems(order) && Distinct(order)
    ensures var t := After(digest, s, [ReadLeases, ListRoot(true)] + (Removals(order, _ => false) + [EndPrune]));
            && t.Some? && t.value.phase.Idle? && t.value.store == s.store && t.value.open == s.open
            && forall e :: e in t.value.disk <==>
                 && e in s.disk
                 && (e == DirName(s.phase.id, digest)
                     || exists id :: id in s.store.leases && DirName(id, digest) == e)
  {
    Starts(digest, s);
    var begun, t := Take(digest, s, [], s, ReadLeases);
    begun, t := Take(digest, s, begun, t, ListRoot(true));
    assert begun == [ReadLeases, ListRoot(true)];
    var rest := Removals(order, _ => false) + [EndPrune];
    PruneIsSteps(digest, t, order, _ => false);
    AfterAppend(digest, s, begun, rest);
  }

  lemma {:induction false} AfterAppend(digest: string -> string, s: State, a: seq<Step>, b: seq<Step>)
    requires After(digest, s, a).Some?
    ensures After(digest, s, a + b) == After(digest, After(digest, s, a).value, b)
    decreases |b|
  {
    hide Apply;
    hide Enabled;
    if b == [] {
      assert a + b == a;
    } else {
      assert (a + b)[..|a + b| - 1] == a + b[..|b| - 1];
      AfterAppend(digest, s, a, b[..|b| - 1]);
    }
  }

  lemma Starts(digest: string -> string, s: State)
    ensures After(digest, s, []) == Some(s)
  {
  }
}
