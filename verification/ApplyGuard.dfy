/** The apply guard and what a reconcile may write (internal/apply/guard.go,
    internal/apply/drift.go, internal/reconcile/ownership.go,
    internal/reconcile/moduleinstance.go). */
module ApplyGuard {
  import opened Options
  import opened Seqs

  /** What names an object for the ownership library and in the inventory. */
  datatype Object = Object(group: string, kind: string, namespace: string, name: string)

  /** A rendered object. ref stands for its pointer, crd is the group and kind
      that a CustomResourceDefinition defines, ttl whether its spec sets
      ttlSecondsAfterFinished. */
  datatype Resource = Resource(ref: nat, obj: Object, crd: Option<(string, string)>, ttl: bool)

  datatype Live = Live(uid: string, state: string)

  datatype ReadAnswer =
    | Found(live: Live) | NotFound | NoKindMatch | NoGroupMatch(group: string) | ReadFailed(text: string)

  datatype ApplyVerdict = Allowed | AdoptedElsewhere(message: string) | Refusal(message: string)

  datatype Judged = Judged(resource: Resource, message: string, inInventory: bool)

  datatype Pin = Pin(obj: Object, uid: string)

  /** The library's apply verdict, the reads of one reconcile, and whether the
      dry-run would create an object. */
  datatype Env = Env(
    canApply: (Object, Option<Live>, bool, string) -> ApplyVerdict,
    read: Resource -> ReadAnswer,
    creates: Resource -> bool)

  datatype Input = Input(resources: seq<Resource>, inventory: seq<Object>, identity: string)

  /** A kind the API server does not serve yet while a CRD of the list defines it. */
  function PendingCRDKind(answer: ReadAnswer, r: Resource, resources: seq<Resource>): bool {
    match answer
    case NoKindMatch => exists d :: d in resources && d.crd == Some((r.obj.group, r.obj.kind))
    case NoGroupMatch(group) => exists d :: d in resources && d.crd.Some? && d.crd.value.0 == group
    case _ => false
  }

  predicate Unreadable(env: Env, input: Input, r: Resource) {
    var answer := env.read(r);
    !answer.Found? && !answer.NotFound? && !PendingCRDKind(answer, r, input.resources)
  }

  /** Neither found nor absent, and not of a kind or group that the API server
      does not serve yet while a CustomResourceDefinition of the list defines it. */
  ghost predicate FailsToRead(answer: ReadAnswer, r: Resource, resources: seq<Resource>) {
    || answer.ReadFailed?
    || (answer.NoKindMatch? && forall d | d in resources && d.crd.Some? :: d.crd.value != (r.obj.group, r.obj.kind))
    || (answer.NoGroupMatch? && forall d | d in resources && d.crd.Some? :: d.crd.value.0 != answer.group)
  }

  lemma UnreadableIff(env: Env, input: Input)
    ensures forall r :: Unreadable(env, input, r) <==> FailsToRead(env.read(r), r, input.resources)
  {
  }

  ghost predicate AllRead(env: Env, input: Input) {
    forall r | r in input.resources :: !Unreadable(env, input, r)
  }

  function LiveOf(env: Env, r: Resource): Option<Live> {
    match env.read(r) case Found(live) => Some(live) case _ => None
  }

  predicate Inventoried(input: Input, r: Resource) {
    r.obj in input.inventory
  }

  function VerdictOf(env: Env, input: Input, r: Resource): ApplyVerdict {
    env.canApply(r.obj, LiveOf(env, r), Inventoried(input, r), input.identity)
  }

  // The four classes of an apply list.

  function IsAllowed(env: Env, input: Input): Resource -> bool {
    (r: Resource) => VerdictOf(env, input, r).Allowed?
  }

  function IsTakenIn(env: Env, input: Input): Resource -> bool {
    (r: Resource) => VerdictOf(env, input, r).Allowed? && env.read(r).Found? && !Inventoried(input, r)
  }

  function IsLetGo(env: Env, input: Input): Resource -> bool {
    (r: Resource) => VerdictOf(env, input, r).AdoptedElsewhere?
  }

  function IsRefused(env: Env, input: Input): Resource -> bool {
    (r: Resource) => VerdictOf(env, input, r).Refusal?
  }

  function AsJudged(env: Env, input: Input): Resource -> Judged {
    (r: Resource) => Judged(r, if VerdictOf(env, input, r).Allowed? then ""
        else VerdictOf(env, input, r).message, Inventoried(input, r))
  }

  function AsPin(env: Env): Resource -> Pin {
    (r: Resource) => Pin(r.obj, if env.read(r).Found? then env.read(r).live.uid else "")
  }

  datatype GuardResult = GuardResult(allowed: seq<Resource>, takenIn: seq<Resource>, pins: seq<Pin>,
                                     letGo: seq<Judged>, refused: seq<Judged>)

  datatype GuardAnswer = Sorted(result: GuardResult) | NoIdentity | GuardReadError(obj: Object)

  /** The apply list sorted by the verdict, each class in the order of the list. */
  function SortedBy(env: Env, input: Input, list: seq<Resource>): GuardResult {
    GuardResult(
      Filter(list, IsAllowed(env, input)),
      Filter(list, IsTakenIn(env, input)),
      Map(Filter(list, IsTakenIn(env, input)), AsPin(env)),
      Map(Filter(list, IsLetGo(env, input)), AsJudged(env, input)),
      Map(Filter(list, IsRefused(env, input)), AsJudged(env, input)))
  }

  lemma SortedStep(env: Env, input: Input, list: seq<Resource>, i: nat)
    requires i < |list|
    ensures var before, after, r := SortedBy(env, input, list[..i]), SortedBy(env, input, list[..i + 1]), list[i];
            match VerdictOf(env, input, r)
            case Allowed =>
              if env.read(r).Found? && !Inventoried(input, r) then
                after == before.(allowed := before.allowed + [r], takenIn := before.takenIn + [r],
                                 pins := before.pins + [Pin(r.obj, env.read(r).live.uid)])
              else after == before.(allowed := before.allowed + [r])
            case AdoptedElsewhere(message) =>
              after == before.(letGo := before.letGo + [Judged(r, message, Inventoried(input, r))])
            case Refusal(message) =>
              after == before.(refused := before.refused + [Judged(r, message, Inventoried(input, r))])
  {
    FilterStep(list, i, IsAllowed(env, input));
    FilterStep(list, i, IsTakenIn(env, input));
    FilterStep(list, i, IsLetGo(env, input));
    FilterStep(list, i, IsRefused(env, input));
  }

  /** Reads every object once and sorts the list by the verdict; the first
      failed read ends it with no result. */
  method Guard(env: Env, input: Input) returns (answer: GuardAnswer)
    ensures answer.NoIdentity? <==> input.resources != [] && input.identity == ""
    ensures answer.Sorted? <==> !answer.NoIdentity? && AllRead(env, input)
    ensures answer.Sorted? ==> answer.result == SortedBy(env, input, input.resources)
    ensures answer.GuardReadError? <==>
              input.identity != "" && exists r :: r in input.resources && FailsToRead(env.read(r), r, input.resources)
    ensures answer.GuardReadError? ==> exists i ::
              && 0 <= i < |input.resources| && Unreadable(env, input, input.resources[i])
              && answer.obj == input.resources[i].obj
              && forall j | 0 <= j < i :: !Unreadable(env, input, input.resources[j])
  {
    hide SortedBy;
    hide VerdictOf;
    UnreadableIff(env, input);
    if |input.resources| == 0 {
      NothingSorted(env, input);
      return Sorted(GuardResult([], [], [], [], []));
    }
    if input.identity == "" {
      return NoIdentity;
    }
    var inventoried := set o | o in input.inventory;
    var result := GuardResult([], [], [], [], []);
    NothingSorted(env, input);
    assert input.resources[..0] == [];
    for i := 0 to |input.resources|
      invariant forall j | 0 <= j < i :: !Unreadable(env, input, input.resources[j])
      invariant result == SortedBy(env, input, input.resources[..i])
    {
      SortedStep(env, input, input.resources, i);
      var r := input.resources[i];
      var live: Option<Live> := None;
      var read := env.read(r);
      if read.Found? {
        live := Some(read.live);
      } else if !read.NotFound? && !PendingCRDKind(read, r, input.resources) {
        assert r in input.resources;
        return GuardReadError(r.obj);
      }
      var inInventory := r.obj in inventoried;
      var verdict := env.canApply(r.obj, live, inInventory, input.identity);
      assert verdict == VerdictOf(env, input, r) by { VerdictIs(env, input, r); }
      match verdict {
        case Allowed =>
          result := result.(allowed := result.allowed + [r]);
          if live.Some? && !inInventory {
            result := result.(takenIn := result.takenIn + [r], pins := result.pins + [Pin(r.obj, live.value.uid)]);
          }
        case AdoptedElsewhere(message) =>
          result := result.(letGo := result.letGo + [Judged(r, message, inInventory)]);
        case Refusal(message) =>
          result := result.(refused := result.refused + [Judged(r, message, inInventory)]);
      }
    }
    assert input.resources[..|input.resources|] == input.resources;
    answer := Sorted(result);
  }

  lemma NothingSorted(env: Env, input: Input)
    ensures SortedBy(env, input, []) == GuardResult([], [], [], [], [])
  {
  }

  lemma VerdictIs(env: Env, input: Input, r: Resource)
    ensures VerdictOf(env, input, r) ==
            env.canApply(r.obj, if env.read(r).Found? then Some(env.read(r).live)
                else None, Inventoried(input, r), input.identity)
  {
  }

  /** Guard splits the list exactly: every object is in one of allowed, let go
      and refused, the taken-in ones are allowed, and each has its own pin. */
  lemma GuardSplitsExactly(env: Env, input: Input, list: seq<Resource>)
    ensures var g := SortedBy(env, input, list);
            && |g.allowed| + |g.letGo| + |g.refused| == |list|
            && |g.pins| == |g.takenIn|
            && (forall i | 0 <= i < |g.pins| ::
                  g.pins[i] == Pin(g.takenIn[i].obj,
                      if env.read(g.takenIn[i]).Found? then env.read(g.takenIn[i]).live.uid else "")
                  && env.read(g.takenIn[i]).Found? && !Inventoried(input, g.takenIn[i]))
            && g.takenIn == Filter(g.allowed, IsTakenIn(env, input))
            && forall r | r in list ::
                 (if r in g.allowed then 1 else 0) + (if r in ObjectsOf(g.letGo) then 1 else 0)
                 + (if r in ObjectsOf(g.refused) then 1 else 0) == 1
  {
    var g := SortedBy(env, input, list);
    CountSplit(env, input, list);
    FilterMembers(list, IsAllowed(env, input));
    FilterMembers(list, IsTakenIn(env, input));
    JudgedMembers(env, input, list, IsLetGo(env, input));
    JudgedMembers(env, input, list, IsRefused(env, input));
    TakenInOfAllowed(env, input, list);
    forall i | 0 <= i < |g.takenIn|
      ensures env.read(g.takenIn[i]).Found? && !Inventoried(input, g.takenIn[i])
    {
      assert g.takenIn[i] in g.takenIn;
      assert IsTakenIn(env, input)(g.takenIn[i]);
    }
  }

  lemma {:induction false} CountSplit(env: Env, input: Input, list: seq<Resource>)
    ensures |Filter(list, IsAllowed(env, input))| + |Filter(list, IsLetGo(env, input))|
            + |Filter(list, IsRefused(env, input))| == |list|
  {
    if list != [] {
      CountSplit(env, input, list[..|list| - 1]);
    }
  }

  lemma {:induction false} TakenInOfAllowed(env: Env, input: Input, list: seq<Resource>)
    ensures Filter(list, IsTakenIn(env, input)) == Filter(Filter(list, IsAllowed(env, input)), IsTakenIn(env, input))
  {
    if list != [] {
      var init, last := list[..|list| - 1], list[|list| - 1];
      TakenInOfAllowed(env, input, init);
      var allowed := Filter(init, IsAllowed(env, input));
      if IsAllowed(env, input)(last) {
        assert (allowed + [last])[..|allowed|] == allowed;
      }
    }
  }

  lemma JudgedMembers(env: Env, input: Input, list: seq<Resource>, p: Resource -> bool)
    ensures forall r :: r in ObjectsOf(Map(Filter(list, p), AsJudged(env, input))) <==> r in list && p(r)
  {
    var kept := Filter(list, p);
    FilterMembers(list, p);
    assert ObjectsOf(Map(kept, AsJudged(env, input))) == kept;
  }

  function ObjectOf(): Judged -> Resource {
    (j: Judged) => j.resource
  }

  function ObjectsOf(judged: seq<Judged>): seq<Resource> {
    Map(judged, ObjectOf())
  }

  // ---- drift and restore --------------------------------------------------

  /** A batch Job that sets ttlSecondsAfterFinished. */
  predicate ExpiresAfterFinish(r: Resource) {
    r.obj.group == "batch" && r.obj.kind == "Job" && r.ttl
  }

  function Expires(): Resource -> bool { (r: Resource) => ExpiresAfterFinish(r) }
  function Stays(): Resource -> bool { (r: Resource) => !ExpiresAfterFinish(r) }

  method Restorable(missing: seq<Resource>) returns (out: seq<Resource>)
    ensures out == Filter(missing, Stays())
    ensures forall r :: r in out <==> r in missing && !(r.obj.group == "batch" && r.obj.kind == "Job" && r.ttl)
  {
    FilterMembers(missing, Stays());
    out := [];
    for i := 0 to |missing|
      invariant out == Filter(missing[..i], Stays())
    {
      FilterStep(missing, i, Stays());
      if ExpiresAfterFinish(missing[i]) {
        continue;
      }
      out := out + [missing[i]];
    }
    FilterAll(missing, Stays());
  }

  method Expired(missing: seq<Resource>) returns (out: seq<Resource>)
    ensures out == Filter(missing, Expires())
    ensures forall r :: r in out <==> r in missing && r.obj.group == "batch" && r.obj.kind == "Job" && r.ttl
  {
    FilterMembers(missing, Expires());
    out := [];
    for i := 0 to |missing|
      invariant out == Filter(missing[..i], Expires())
    {
      FilterStep(missing, i, Expires());
      if ExpiresAfterFinish(missing[i]) {
        out := out + [missing[i]];
      }
    }
    FilterAll(missing, Expires());
  }

  function Creates(env: Env): Resource -> bool { (r: Resource) => env.creates(r) }

  /** The missing set of the dry-run; none when the dry-run failed. */
  method Missing(env: Env, resources: seq<Resource>, failed: bool) returns (missing: seq<Resource>)
    ensures missing == if failed then [] else Filter(resources, Creates(env))
  {
    missing := [];
    if failed {
      return;
    }
    for i := 0 to |resources|
      invariant missing == Filter(resources[..i], Creates(env))
    {
      FilterStep(resources, i, Creates(env));
      if env.creates(resources[i]) {
        missing := missing + [resources[i]];
      }
    }
    FilterAll(resources, Creates(env));
  }

  function NotIn(drop: seq<Resource>): Resource -> bool { (r: Resource) => r !in drop }

  method WithoutObjects(list: seq<Resource>, drop: seq<Resource>) returns (out: seq<Resource>)
    ensures out == Filter(list, NotIn(drop))
  {
    if |drop| == 0 {
      FilterTrivial(list, NotIn(drop));
      return list;
    }
    out := [];
    for i := 0 to |list|
      invariant out == Filter(list[..i], NotIn(drop))
    {
      FilterStep(list, i, NotIn(drop));
      if list[i] !in drop {
        out := out + [list[i]];
      }
    }
    FilterAll(list, NotIn(drop));
  }

  datatype Entry = Entry(obj: Object, version: string)

  function NotNaming(drop: seq<Resource>): Entry -> bool {
    (e: Entry) => forall r :: r in drop ==> r.obj != e.obj
  }

  /** The entries that name none of the objects, in order. */
  method WithoutEntries(entries: seq<Entry>, drop: seq<Resource>) returns (kept: seq<Entry>)
    ensures kept == Filter(entries, NotNaming(drop))
  {
    if |drop| == 0 {
      FilterTrivial(entries, NotNaming(drop));
      return entries;
    }
    var dropped := set r | r in drop :: r.obj;
    kept := [];
    for i := 0 to |entries|
      invariant kept == Filter(entries[..i], NotNaming(drop))
    {
      FilterStep(entries, i, NotNaming(drop));
      assert entries[i].obj in dropped <==> !NotNaming(drop)(entries[i]);
      if entries[i].obj !in dropped {
        kept := kept + [entries[i]];
      }
    }
    FilterAll(entries, NotNaming(drop));
  }

  function Uninventoried(): Judged -> bool { (j: Judged) => !j.inInventory }

  method RefusedToWrite(refused: seq<Judged>, keepsInventoried: bool) returns (out: seq<Judged>)
    ensures out == if keepsInventoried then Filter(refused, Uninventoried()) else refused
  {
    if !keepsInventoried {
      return refused;
    }
    out := [];
    for i := 0 to |refused|
      invariant out == Filter(refused[..i], Uninventoried())
    {
      FilterStep(refused, i, Uninventoried());
      if !refused[i].inInventory {
        out := out + [refused[i]];
      }
    }
    FilterAll(refused, Uninventoried());
  }

  // ---- what one reconcile writes ------------------------------------------

  /** Where a reconcile goes after its render and its guard. */
  datatype Course =
    | GuardFails                                // no verdict: the apply failed
    | Refuses(refusing: seq<Judged>)            // an object it would write is refused
    | NoChange(inventory: seq<Entry>)           // a no-op, with the inventory it keeps
    | NoClient                                  // the identity that applies is missing
    | Writes(list: seq<Resource>, pins: seq<Pin>, restoring: bool, inventory: seq<Entry>)

  /** The missing set: what the dry-run of the allowed objects would create,
      the taken-in ones apart. */
  function MissingOf(env: Env, input: Input, dryRunFailed: bool): seq<Resource> {
    var g := SortedBy(env, input, input.resources);
    if dryRunFailed then [] else Filter(Filter(g.allowed, NotIn(g.takenIn)), Creates(env))
  }

  /** The objects a restore writes. */
  function RestoreList(env: Env, input: Input, dryRunFailed: bool): seq<Resource> {
    Filter(MissingOf(env, input, dryRunFailed), Stays()) + SortedBy(env, input, input.resources).takenIn
  }

  /** The entries left when finished Jobs and let-go objects are forgotten. */
  function Remembered(env: Env, input: Input, dryRunFailed: bool, entries: seq<Entry>): seq<Entry> {
    Filter(Filter(entries, NotNaming(Filter(MissingOf(env, input, dryRunFailed), Expires()))),
           NotNaming(Filter(input.resources, IsLetGo(env, input))))
  }

  method PlanRestore(isNoOp: bool, missing: seq<Resource>, takenIn: seq<Resource>, applyList: seq<Resource>)
    returns (toApply: seq<Resource>, noOp: bool, restoring: bool)
    ensures !isNoOp ==> toApply == applyList && !noOp && !restoring
    ensures isNoOp ==> (restoring <==> Filter(missing, Stays()) + takenIn != []) && noOp == !restoring
    ensures restoring ==> toApply == Filter(missing, Stays()) + takenIn
  {
    if !isNoOp {
      return applyList, false, false;
    }
    var restorable := Restorable(missing);
    if |restorable| == 0 && |takenIn| == 0 {
      return applyList, true, false;
    }
    toApply, noOp, restoring := restorable + takenIn, false, true;
  }

  lemma FilterNothing(entries: seq<Entry>)
    ensures Filter(entries, NotNaming([])) == entries
  {
    FilterTrivial(entries, NotNaming([]));
  }

  lemma SortedFields(env: Env, input: Input)
    ensures var g := SortedBy(env, input, input.resources);
            && g.allowed == Filter(input.resources, IsAllowed(env, input))
            && g.takenIn == Filter(input.resources, IsTakenIn(env, input))
            && g.refused == Map(Filter(input.resources, IsRefused(env, input)), AsJudged(env, input))
            && ObjectsOf(g.letGo) == Filter(input.resources, IsLetGo(env, input))
  {
    assert ObjectsOf(Map(Filter(input.resources, IsLetGo(env, input)), AsJudged(env, input)))
        == Filter(input.resources, IsLetGo(env, input));
  }

  /** A judged refusal stands for a refused object and says whether it is inventoried. */
  lemma RefusedMeans(env: Env, input: Input, refused: seq<Judged>)
    requires refused == Map(Filter(input.resources, IsRefused(env, input)), AsJudged(env, input))
    ensures forall j | j in refused ::
              j.resource in input.resources && IsRefused(env, input)(j.resource)
                  && j.inInventory == Inventoried(input, j.resource)
    ensures forall r | r in input.resources && IsRefused(env, input)(r) :: AsJudged(env, input)(r) in refused
    ensures refused == [] <==> Filter(input.resources, IsRefused(env, input)) == []
  {
    var kept := Filter(input.resources, IsRefused(env, input));
    FilterMembers(input.resources, IsRefused(env, input));
    forall j | j in refused
      ensures j.resource in input.resources && IsRefused(env, input)(j.resource)
                && j.inInventory == Inventoried(input, j.resource)
    {
      var i :| 0 <= i < |refused| && refused[i] == j;
      assert kept[i] in kept && j == AsJudged(env, input)(kept[i]);
    }
    forall r | r in input.resources && IsRefused(env, input)(r)
      ensures AsJudged(env, input)(r) in refused
    {
      var i :| 0 <= i < |kept| && kept[i] == r;
      assert refused[i] == AsJudged(env, input)(r);
    }
  }

  /** An object that the reconcile would write is refused; on unchanged digests
      only one outside the inventory counts. */
  ghost predicate SomeRefusing(env: Env, input: Input, sameDigests: bool) {
    exists r :: r in input.resources && IsRefused(env, input)(r) && (sameDigests ==> !Inventoried(input, r))
  }

  lemma RefusingMeans(env: Env, input: Input, refused: seq<Judged>, refusing: seq<Judged>, sameDigests: bool)
    requires refused == Map(Filter(input.resources, IsRefused(env, input)), AsJudged(env, input))
    requires refusing == if sameDigests then Filter(refused, Uninventoried()) else refused
    ensures refusing != [] <==> SomeRefusing(env, input, sameDigests)
    ensures forall j | j in refusing ::
              IsRefused(env, input)(j.resource) && (sameDigests ==> !Inventoried(input, j.resource))
    ensures refusing == [] && !sameDigests ==> Filter(input.resources, IsRefused(env, input)) == []
    ensures refusing == [] && sameDigests ==>
              forall r | r in input.resources && IsRefused(env, input)(r) :: Inventoried(input, r)
  {
    FilterMembers(refused, Uninventoried());
    RefusedMeans(env, input, refused);
    if refusing != [] { assert refusing[0] in refusing && refusing[0] in refused; }
    hide VerdictOf;
    if r :| r in input.resources && IsRefused(env, input)(r) && (sameDigests ==> !Inventoried(input, r)) {
      assert AsJudged(env, input)(r) in refused;
      assert AsJudged(env, input)(r) in refusing;
    }
  }

  /** What the guard means for one reconcile; sorted is none when it reached no verdict. */
  datatype Guarded = Guarded(noIdentity: bool, unread: bool, sorted: Option<GuardResult>)

  method GuardApply(env: Env, input: Input, hasClient: bool) returns (g: Guarded)
    ensures g.noIdentity <==> hasClient && input.resources != [] && input.identity == ""
    ensures g.unread <==> hasClient && !g.noIdentity && !AllRead(env, input)
    ensures !AllRead(env, input) ==> input.resources != []
    ensures g.sorted == if hasClient && !g.noIdentity && !g.unread then Some(SortedBy(env, input, input.resources))
              else None
  {
    hide SortedBy;
    if !hasClient {
      return Guarded(false, false, None);
    }
    var answer := Guard(env, input);
    match answer {
      case Sorted(result) => g := Guarded(false, false, Some(result));
      case NoIdentity => g := Guarded(true, false, None);
      case GuardReadError(_) => g := Guarded(false, true, None);
    }
  }

  /** A failed guard fails the apply when the reconcile would write, or when
      nothing can be judged at all. */
  predicate FailsApply(g: Guarded, sameDigests: bool) {
    g.noIdentity || (g.unread && !sameDigests)
  }

  /** From the guard to the apply. sameDigests says that the digests match the
      last applied ones; hasClient that the identity that applies could be
      built; entries are the inventory entries of the render, stored those of
      the status. The inventories are what a course that succeeds records. */
  method ChooseCourse(env: Env, input: Input, sameDigests: bool, hasClient: bool, dryRunFailed: bool,
                      entries: seq<Entry>, stored: seq<Entry>) returns (course: Course)
    requires input.inventory == Map(stored, (e: Entry) => e.obj)
    ensures course.Writes? ==> hasClient && course.restoring == sameDigests && AllRead(env, input)
    ensures course.Writes? && !sameDigests ==>
              && course.list == Filter(input.resources, IsAllowed(env, input))
              && Filter(input.resources, IsRefused(env, input)) == []
              && course.inventory == Filter(entries, NotNaming(Filter(input.resources, IsLetGo(env, input))))
    ensures course.Writes? && sameDigests ==>
              && course.list == RestoreList(env, input, dryRunFailed) != []
              && course.inventory == Remembered(env, input, dryRunFailed, entries)
    ensures course.Writes? ==> course.pins == SortedBy(env, input, input.resources).pins
    ensures course.NoChange? ==>
              && sameDigests
              && if hasClient && AllRead(env, input) then
                   RestoreList(env, input, dryRunFailed) == []
                       && course.inventory == Remembered(env, input, dryRunFailed, stored)
                 else course.inventory == stored
    ensures (course.Writes? || course.NoChange?) && sameDigests && hasClient && AllRead(env, input) ==>
              forall r | r in input.resources && IsRefused(env, input)(r) :: Inventoried(input, r)
    ensures course.Refuses? ==>
              && hasClient && course.refusing != []
              && forall j | j in course.refusing :: IsRefused(env, input)(j.resource)
                   && (sameDigests ==> !Inventoried(input, j.resource))
    ensures course.NoClient? <==> !hasClient && !sameDigests
    ensures course.Refuses? <==>
              && hasClient && (input.resources != [] ==> input.identity != "") && AllRead(env, input)
              && SomeRefusing(env, input, sameDigests)
    ensures course.GuardFails? <==>
              && hasClient && input.resources != []
              && (input.identity == "" || (!sameDigests && !AllRead(env, input)))
  {
    hide SortedBy;
    hide VerdictOf;
    hide AllRead;
    SortedFields(env, input);
    var guarded := GuardApply(env, input, hasClient);
    if FailsApply(guarded, sameDigests) {
      return GuardFails;
    }
    var judged := guarded.sorted.Some?;
    var sorted := if judged then guarded.sorted.value else GuardResult(input.resources, [], [], [], []);
    var allowed, takenIn, pins := sorted.allowed, sorted.takenIn, sorted.pins;
    var letGo, refused := sorted.letGo, sorted.refused;
    FilterNothing(stored);
    var compared := WithoutObjects(allowed, takenIn);
    var missing := Missing(env, compared, !judged || dryRunFailed);
    var expired: seq<Resource> := [];
    if sameDigests {
      expired := Expired(missing);
    }
    var toApply, noOp, restoring := PlanRestore(sameDigests, missing, takenIn, allowed);
    var refusing := RefusedToWrite(refused, sameDigests);
    if judged {
      RefusingMeans(env, input, refused, refusing, sameDigests);
    } else {
      assert refused == [] && refusing == [];
    }
    hide SomeRefusing;
    hide Inventoried;
    hide IsRefused;
    if |refusing| > 0 {
      return Refuses(refusing);
    }
    var gone := ObjectsOf(letGo);
    if noOp {
      var kept := WithoutEntries(stored, expired);
      kept := WithoutEntries(kept, gone);
      return NoChange(kept);
    }
    if !hasClient {
      return NoClient;
    }
    var recorded := WithoutEntries(entries, expired);
    if !sameDigests { FilterTrivial(entries, NotNaming(expired)); }
    recorded := WithoutEntries(recorded, gone);
    course := Writes(toApply, pins, restoring, recorded);
  }

  /** On the digests of the last success a reconcile writes exactly the
      allowed objects that the dry-run would create, finished Jobs apart, and
      the ones taken in. */
  lemma RestoreWrites(env: Env, input: Input, dryRunFailed: bool, r: Resource)
    ensures r in RestoreList(env, input, dryRunFailed) <==>
            && r in input.resources && IsAllowed(env, input)(r)
            && ((env.read(r).Found? && !Inventoried(input, r))
                 || (!dryRunFailed && env.creates(r)
                     && !(r.obj.group == "batch" && r.obj.kind == "Job" && r.ttl)))
  {
    hide VerdictOf;
    var allowed, takenIn := Filter(input.resources, IsAllowed(env, input)),
        Filter(input.resources, IsTakenIn(env, input));
    var compared := Filter(allowed, NotIn(takenIn));
    var missing := if dryRunFailed then [] else Filter(compared, Creates(env));
    FilterMembers(input.resources, IsAllowed(env, input));
    FilterMembers(input.resources, IsTakenIn(env, input));
    FilterMembers(allowed, NotIn(takenIn));
    FilterMembers(compared, Creates(env));
    FilterMembers(missing, Stays());
  }

  /** So no object that is there and inventoried, was let go or was refused is
      ever written on unchanged digests. */
  lemma RestoreSparesTheRest(env: Env, input: Input, dryRunFailed: bool, r: Resource)
    requires r in RestoreList(env, input, dryRunFailed)
    ensures !IsLetGo(env, input)(r) && !IsRefused(env, input)(r)
    ensures Inventoried(input, r) ==>
              env.creates(r) && !(r.obj.group == "batch" && r.obj.kind == "Job" && r.ttl)
  {
    RestoreWrites(env, input, dryRunFailed, r);
  }

  /** The inventory of a restore keeps every rendered entry but those of
      finished Jobs and of objects another instance adopted. */
  lemma RecordedInventory(entries: seq<Entry>, expired: seq<Resource>, letGo: seq<Resource>, e: Entry)
    ensures e in Filter(Filter(entries, NotNaming(expired)), NotNaming(letGo)) <==>
            e in entries && forall r | r in expired + letGo :: r.obj != e.obj
  {
    FilterMembers(entries, NotNaming(expired));
    FilterMembers(Filter(entries, NotNaming(expired)), NotNaming(letGo));
  }
}
