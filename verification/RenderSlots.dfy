/** The render slot pool (internal/render/slots.go): the semaphore and the keys
    whose bounded render is in flight, and every interleaving of the Run calls
    on one pool, of their render goroutines, and of deadlines and cancellations. */
module RenderSlots {
  import opened Options

  /** The pool: how many slots it has, how many are taken, the keys running. */
  datatype Pool = Pool(size: nat, taken: nat, running: set<string>) {
    predicate IsRunning(key: string) {
      key != "" && key in running
    }

    function Take(): Pool {
      this.(taken := taken + 1)
    }

    function Free(): Pool
      requires taken > 0
    {
      this.(taken := taken - 1)
    }

    function Mark(key: string): Pool {
      if key == "" then this else this.(running := running + {key})
    }

    function Clear(key: string): Pool {
      if key == "" then this else this.(running := running - {key})
    }
  }

  class Slots {
    const size: nat
    var taken: nat
    var running: set<string>

    ghost predicate Valid()
      reads this
    {
      taken <= size
    }

    ghost function Contents(): Pool
      reads this
    {
      Pool(size, taken, running)
    }

    constructor (n: int)
      requires n >= 1
      ensures Valid() && Contents() == Pool(n, 0, {})
    {
      size, taken, running := n, 0, {};
    }

    /** One attempt of Acquire's select on the semaphore. */
    method TryAcquire() returns (ok: bool, release: Release?)
      requires Valid()
      modifies this
      ensures Valid() && ok == (old(taken) < size)
      ensures Contents() == if ok then old(Contents()).Take() else old(Contents())
      ensures ok ==> release != null && fresh(release) && release.slots == this && !release.done
    {
      ok, release := taken < size, null;
      if ok {
        taken := taken + 1;
        release := new Release(this);
      }
    }

    method IsRunning(key: string) returns (r: bool)
      ensures r == Contents().IsRunning(key)
    {
      if key == "" {
        return false;
      }
      r := key in running;
    }

    method MarkRunning(key: string)
      requires Valid()
      modifies this`running
      ensures Valid() && Contents() == old(Contents()).Mark(key)
    {
      if key == "" {
        return;
      }
      running := running + {key};
    }

    method ClearRunning(key: string)
      requires Valid()
      modifies this`running
      ensures Valid() && Contents() == old(Contents()).Clear(key)
    {
      if key == "" {
        return;
      }
      running := running - {key};
    }
  }

  /** What Acquire returns: it gives the slot back once, whoever calls it how often. */
  class Release {
    const slots: Slots
    var done: bool

    constructor (s: Slots)
      ensures slots == s && !done
    {
      slots, done := s, false;
    }

    method Call()
      requires !done ==> slots.taken > 0
      modifies this, slots`taken
      ensures done
      ensures slots.Contents() == if old(done) then old(slots.Contents()) else old(slots.Contents()).Free()
    {
      if !done {
        done := true;
        slots.taken := slots.taken - 1;
      }
    }
  }

  // ---- the calls of Run ---------------------------------------------------

  datatype RunResult = Nil | TimedOut | StillRunning | CtxError | Panicked

  /** Where Run stands: before the running check, before Acquire's first look
      at the context, in Acquire's select, with a slot, with the key marked,
      running fn itself, in the select, after the deadline branch, before the
      look at the parent, waiting for fn after all, returned. */
  datatype Caller = Entered | Acquiring | Waiting | Acquired | Marked | Inline
    | Selecting | Expired | Checking | Awaiting | Ended(result: RunResult)

  /** Where fn stands: a bounded one clears its key, frees its slot and then
      says that it returned. */
  datatype Body = NotStarted | Executing | Returned | KeyCleared | Freed | Sent | Received

  datatype RenderErr = NoErr | DeadlineExceeded | Canceled

  /** One call of Run; bounded says that its timeout is positive. taken and
      freed count its operations on the semaphore. */
  datatype Call = Call(key: string, bounded: bool, caller: Caller, body: Body, panicked: bool,
                       parentDone: bool, renderErr: RenderErr, taken: nat, freed: nat)

  datatype State = State(pool: Pool, calls: seq<Call>)

  /** One atomic step of one goroutine, or an event of a context. */
  datatype Step =
    | Enter(key: string, bounded: bool)
    | Check(i: nat) | LookAtContext(i: nat) | TakeSlot(i: nat) | GiveUp(i: nat)
    | Begin(i: nat) | Launch(i: nat)
    | BodyReturns(i: nat, panics: bool) | ClearKey(i: nat) | FreeSlot(i: nat) | Send(i: nat)
    | EndInline(i: nat) | Hear(i: nat) | SeeDone(i: nat) | NotReturned(i: nat) | CheckParent(i: nat)
    | LogAbandoned(i: nat)
    | CancelParent(i: nat) | Expire(i: nat) | Propagate(i: nat, err: RenderErr)

  function NewCall(key: string, bounded: bool): Call {
    Call(key, bounded, Entered, NotStarted, false, false, NoErr, 0, 0)
  }

  /** The render context exists once Run has gone past its slot; Run's end
      cancels it, so it moves no more after that. */
  predicate HasRenderContext(c: Call) {
    c.bounded && !(c.caller.Entered? || c.caller.Acquiring? || c.caller.Waiting? || c.caller.Acquired?)
  }

  /** What Run makes of a render that returned while it waited. The two
      context errors never change once set, so one look at both is enough. */
  function ReturnedAs(c: Call): RunResult {
    if c.panicked then Panicked
    else if c.renderErr == DeadlineExceeded && !c.parentDone then TimedOut
    else Nil
  }

  predicate Enabled(s: State, step: Step) {
    step.Enter? ||
    (step.i < |s.calls| &&
     var c := s.calls[step.i];
     match step
     case Check(_) => c.caller.Entered?
     case LookAtContext(_) => c.caller.Acquiring?
     case TakeSlot(_) => c.caller.Waiting? && s.pool.taken < s.pool.size
     case GiveUp(_) => c.caller.Waiting? && c.parentDone
     case Begin(_) => c.caller.Acquired?
     case Launch(_) => c.caller.Marked?
     case BodyReturns(_, _) => c.body.Executing?
     case ClearKey(_) => c.bounded && c.body.Returned?
     case FreeSlot(_) => (if c.bounded then c.body.KeyCleared? else c.body.Returned?) && s.pool.taken > 0
     case Send(_) => c.bounded && c.body.Freed?
     case EndInline(_) => c.caller.Inline? && c.body.Freed?
     case Hear(_) => c.caller in {Selecting, Expired, Awaiting} && c.body.Sent?
     case SeeDone(_) => c.caller.Selecting? && c.renderErr != NoErr
     case NotReturned(_) => c.caller.Expired? && !c.body.Sent?
     case CheckParent(_) => c.caller.Checking?
     case LogAbandoned(_) => c.caller == Ended(TimedOut) && c.body.Sent?
     case CancelParent(_) => true
     case Expire(_) => HasRenderContext(c) && !c.caller.Ended? && c.renderErr == NoErr
     case Propagate(_, err) =>
       HasRenderContext(c) && !c.caller.Ended? && c.renderErr == NoErr && c.parentDone && err != NoErr)
  }

  /** What a step does to the call that takes it. */
  function Stepped(pool: Pool, c: Call, step: Step): Call {
    match step
    case Enter(_, _) => c
    case Check(_) => c.(caller := if pool.IsRunning(c.key) then Ended(StillRunning) else Acquiring)
    case LookAtContext(_) => c.(caller := if c.parentDone then Ended(CtxError) else Waiting)
    case TakeSlot(_) => c.(caller := Acquired, taken := c.taken + 1)
    case GiveUp(_) => c.(caller := Ended(CtxError))
    case Begin(_) => if c.bounded then c.(caller := Marked) else c.(caller := Inline, body := Executing)
    case Launch(_) => c.(caller := Selecting, body := Executing)
    case BodyReturns(_, panics) => c.(body := Returned, panicked := panics)
    case ClearKey(_) => c.(body := KeyCleared)
    case FreeSlot(_) => c.(body := Freed, freed := c.freed + 1)
    case Send(_) => c.(body := Sent)
    case EndInline(_) => c.(caller := Ended(if c.panicked then Panicked else Nil))
    case Hear(_) => c.(body := Received, caller := Ended(ReturnedAs(c)))
    case SeeDone(_) => c.(caller := Expired)
    case NotReturned(_) => c.(caller := Checking)
    case CheckParent(_) => c.(caller := if c.parentDone then Awaiting else Ended(TimedOut))
    case LogAbandoned(_) => c.(body := Received)
    case CancelParent(_) => c.(parentDone := true)
    case Expire(_) => c.(renderErr := DeadlineExceeded)
    case Propagate(_, err) => c.(renderErr := err)
  }

  /** What a step does to the pool. */
  function PoolAfter(pool: Pool, c: Call, step: Step): Pool {
    match step
    case TakeSlot(_) => pool.Take()
    case Begin(_) => if c.bounded then pool.Mark(c.key) else pool
    case ClearKey(_) => pool.Clear(c.key)
    case FreeSlot(_) => if pool.taken > 0 then pool.Free() else pool
    case _ => pool
  }

  function Apply(s: State, step: Step): State
    requires Enabled(s, step)
  {
    if step.Enter? then s.(calls := s.calls + [NewCall(step.key, step.bounded)])
    else
      var c := s.calls[step.i];
      State(PoolAfter(s.pool, c, step), s.calls[step.i := Stepped(s.pool, c, step)])
  }

  /** The state after a list of steps; None when one of them is not enabled. */
  function Exec(n: nat, steps: seq<Step>): Option<State>
    decreases |steps|
  {
    if steps == [] then Some(State(Pool(n, 0, {}), []))
    else
      match Exec(n, steps[..|steps| - 1])
      case None => None
      case Some(s) => if Enabled(s, steps[|steps| - 1]) then Some(Apply(s, steps[|steps| - 1])) else None
  }

  // ---- the slots ----------------------------------------------------------

  function Count(calls: seq<Call>, p: Call -> bool): nat {
    if calls == [] then 0 else Count(calls[..|calls| - 1], p) + if p(calls[|calls| - 1]) then 1 else 0
  }

  lemma {:induction false} CountUpdate(calls: seq<Call>, i: nat, c: Call, p: Call -> bool)
    requires i < |calls|
    ensures Count(calls[i := c], p) + (if p(calls[i]) then 1 else 0) == Count(calls, p) + if p(c) then 1 else 0
  {
    var n := |calls| - 1;
    if i == n {
      assert calls[i := c][..n] == calls[..n];
    } else {
      assert calls[i := c][..n] == calls[..n][i := c];
      CountUpdate(calls[..n], i, c, p);
    }
  }

  lemma {:induction false} CountLess(calls: seq<Call>, p: Call -> bool, q: Call -> bool)
    requires forall c | c in calls :: p(c) ==> q(c)
    ensures Count(calls, p) <= Count(calls, q)
  {
    if calls != [] {
      CountLess(calls[..|calls| - 1], p, q);
    }
  }

  lemma {:induction false} CountSome(calls: seq<Call>, p: Call -> bool)
    requires Count(calls, p) > 0
    ensures exists i :: 0 <= i < |calls| && p(calls[i])
  {
    var n := |calls| - 1;
    if p(calls[n]) {
      assert 0 <= n < |calls|;
    } else {
      CountSome(calls[..n], p);
      var i :| 0 <= i < n && p(calls[..n][i]);
      assert p(calls[i]);
    }
  }

  function Holds(): Call -> bool {
    (c: Call) => c.taken != c.freed
  }

  function Executes(): Call -> bool {
    (c: Call) => c.body.Executing?
  }

  predicate Started(c: Call) {
    !c.body.NotStarted?
  }

  /** fn has returned, by itself or with a panic. */
  predicate BodyDone(c: Call) {
    Started(c) && !c.body.Executing?
  }

  /** The semaphore operations of a call match where its body stands: a slot
      is taken before fn starts and given back once, after fn returned. */
  predicate SlotMatchesBody(c: Call) {
    && (match c.caller
        case Entered | Acquiring | Waiting => c.body.NotStarted? && c.taken == 0
        case Acquired | Marked => c.body.NotStarted? && c.taken == 1
        case Ended(result) =>
          if result.StillRunning? || result.CtxError? then c.body.NotStarted? && c.taken == 0
          else Started(c) && c.taken == 1
        case _ => Started(c) && c.taken == 1)
    && c.freed == (if c.body in {Freed, Sent, Received} then 1 else 0)
  }

  /** How far the caller and fn can be apart. */
  predicate CallerMatchesBody(c: Call) {
    && (c.caller in {Marked, Selecting, Expired, Checking, Awaiting, Ended(TimedOut)} ==> c.bounded)
    && (c.caller in {Selecting, Expired, Checking, Awaiting} ==> !c.body.Received?)
    && (c.caller in {Ended(Nil), Ended(Panicked)} ==> c.body.Received? || (!c.bounded && c.body.Freed?))
    && (c.caller == Ended(Nil) ==> !c.panicked && (c.renderErr != DeadlineExceeded || c.parentDone))
    && (c.caller == Ended(Panicked) ==> c.panicked)
    && (c.caller.Inline? ==> !c.bounded)
    && (!c.bounded && Started(c) ==> c.caller.Inline? || c.body.Freed?)
    && (c.body in {KeyCleared, Sent, Received} ==> c.bounded)
    && (c.renderErr == Canceled ==> c.parentDone)
    && (c.renderErr != NoErr ==> HasRenderContext(c))
    && (c.caller in {Expired, Checking} ==> c.renderErr != NoErr)
    && (c.caller.Checking? && !c.parentDone ==> c.renderErr == DeadlineExceeded)
    && (c.caller == Ended(TimedOut) ==> c.renderErr == DeadlineExceeded)
  }

  predicate CallInv(c: Call) {
    SlotMatchesBody(c) && CallerMatchesBody(c)
  }

  ghost predicate Inv(s: State) {
    && s.pool.taken == Count(s.calls, Holds()) <= s.pool.size
    && forall i | 0 <= i < |s.calls| :: CallInv(s.calls[i])
  }

  lemma StepKeepsCall(s: State, step: Step)
    requires Enabled(s, step) && !step.Enter? && CallInv(s.calls[step.i])
    ensures CallInv(Stepped(s.pool, s.calls[step.i], step))
  {
    var c := s.calls[step.i];
    assert step.EndInline? ==> c.renderErr == NoErr;
  }

  lemma StepMovesOneSlot(s: State, step: Step)
    requires Enabled(s, step) && !step.Enter? && CallInv(s.calls[step.i])
    ensures var c := s.calls[step.i];
            var pool := PoolAfter(s.pool, c, step);
            && pool.size == s.pool.size
            && pool.taken + (if Holds()(c) then 1 else 0) ==
                 s.pool.taken + (if Holds()(Stepped(s.pool, c, step)) then 1 else 0)
            && pool.taken <= if step.TakeSlot? then s.pool.size else s.pool.taken
  {
    var c := s.calls[step.i];
    assert step.FreeSlot? ==> c.taken == 1 && c.freed == 0;
    assert step.TakeSlot? ==> c.taken == 0 && c.freed == 0;
  }

  lemma StepKeepsInv(s: State, step: Step)
    requires Inv(s) && Enabled(s, step)
    ensures Inv(Apply(s, step)) && Apply(s, step).pool.size == s.pool.size
  {
    hide CallInv;
    hide Stepped;
    hide PoolAfter;
    if step.Enter? {
      var t := Apply(s, step);
      assert t.calls[..|s.calls|] == s.calls;
      NewCallInv(step.key, step.bounded);
    } else {
      var c := s.calls[step.i];
      StepKeepsCall(s, step);
      StepMovesOneSlot(s, step);
      CountUpdate(s.calls, step.i, Stepped(s.pool, c, step), Holds());
    }
  }

  lemma NewCallInv(key: string, bounded: bool)
    ensures CallInv(NewCall(key, bounded))
  {
  }

  lemma {:induction false} RunsKeepInv(n: nat, steps: seq<Step>)
    requires Exec(n, steps).Some?
    ensures Inv(Exec(n, steps).value) && Exec(n, steps).value.pool.size == n
    decreases |steps|
  {
    hide Enabled;
    hide Apply;
    if steps != [] {
      RunsKeepInv(n, steps[..|steps| - 1]);
      StepKeepsInv(Exec(n, steps[..|steps| - 1]).value, steps[|steps| - 1]);
    }
  }

  /** In every interleaving the executing render bodies, abandoned ones
      included, never outnumber the slots. */
  lemma ExecutingWithinPool(n: nat, steps: seq<Step>)
    requires Exec(n, steps).Some?
    ensures Count(Exec(n, steps).value.calls, Executes()) <= n
  {
    hide Exec;
    RunsKeepInv(n, steps);
    CountLess(Exec(n, steps).value.calls, Executes(), Holds());
  }

  /** The semaphore counts exactly the slots not given back; a call gives
      back at most the one slot it took, and only after its body returned. */
  lemma SlotsAreConserved(n: nat, steps: seq<Step>, i: nat)
    requires Exec(n, steps).Some? && i < |Exec(n, steps).value.calls|
    ensures var s := Exec(n, steps).value;
            && s.pool.taken == Count(s.calls, Holds()) <= n
            && s.calls[i].freed <= s.calls[i].taken <= 1
            && (Started(s.calls[i]) ==> s.calls[i].taken == 1)
            && (s.calls[i].freed == 1 ==> s.calls[i].body !in {NotStarted, Executing})
            && (s.calls[i].body in {Freed, Sent, Received} ==> s.calls[i].freed == 1)
  {
    hide Exec;
    RunsKeepInv(n, steps);
  }

  /** The next step of a goroutine that holds a slot, fn's return included. */
  function Onward(c: Call, i: nat): Step {
    if c.caller.Acquired? then Begin(i)
    else if c.caller.Marked? then Launch(i)
    else if c.body.Executing? then BodyReturns(i, false)
    else if c.bounded && c.body.Returned? then ClearKey(i)
    else FreeSlot(i)
  }

  /** How many steps of its own a holder is from giving its slot back. */
  function Distance(c: Call): nat {
    if c.caller.Acquired? then 5
    else if c.caller.Marked? then 4
    else if c.body.Executing? then 3
    else if c.bounded && c.body.Returned? then 2
    else 1
  }

  lemma HolderIsCounted(calls: seq<Call>, i: nat)
    requires i < |calls| && Holds()(calls[i])
    ensures Count(calls, Holds()) > 0
  {
    CountUpdate(calls, i, NewCall("", false), Holds());
  }

  /** The next step of a holder is enabled, and gives the slot back or leads nearer to that. */
  lemma OnwardLeadsOn(s: State, i: nat)
    requires Inv(s) && i < |s.calls| && Holds()(s.calls[i])
    ensures var step := Onward(s.calls[i], i);
            && Enabled(s, step) && i < |Apply(s, step).calls|
            && var d := Apply(s, step).calls[i];
               if Distance(s.calls[i]) == 1 then d.taken == d.freed == 1
               else Holds()(d) && Distance(d) < Distance(s.calls[i])
  {
    HolderIsCounted(s.calls, i);
    assert CallInv(s.calls[i]);
  }

  lemma Extend(n: nat, steps: seq<Step>, step: Step) returns (longer: seq<Step>)
    requires Exec(n, steps).Some? && Enabled(Exec(n, steps).value, step)
    ensures longer == steps + [step] && Exec(n, longer) == Some(Apply(Exec(n, steps).value, step))
  {
    longer := steps + [step];
    assert longer[..|steps|] == steps;
  }

  /** No slot is lost: from every state of every interleaving, every holder
      gets in at most five steps of its own to having given its slot back. */
  lemma {:induction false} HeldSlotComesBack(n: nat, steps: seq<Step>, i: nat) returns (longer: seq<Step>)
    requires Exec(n, steps).Some? && i < |Exec(n, steps).value.calls| && Holds()(Exec(n, steps).value.calls[i])
    ensures steps <= longer && |longer| <= |steps| + Distance(Exec(n, steps).value.calls[i])
    ensures forall k | |steps| <= k < |longer| :: !longer[k].Enter? && longer[k].i == i
    ensures Exec(n, longer).Some? && i < |Exec(n, longer).value.calls|
    ensures Exec(n, longer).value.calls[i].taken == Exec(n, longer).value.calls[i].freed == 1
    decreases Distance(Exec(n, steps).value.calls[i])
  {
    hide Exec;
    RunsKeepInv(n, steps);
    var s := Exec(n, steps).value;
    OnwardLeadsOn(s, i);
    hide Inv;
    hide Enabled;
    hide Apply;
    longer := Extend(n, steps, Onward(s.calls[i], i));
    if Distance(s.calls[i]) > 1 {
      var next := longer;
      longer := HeldSlotComesBack(n, next, i);
      assert steps <= next <= longer;
      assert forall k | |steps| <= k < |next| :: longer[k] == next[k];
    }
  }

  /** What Run's result tells its caller: nil, that fn has returned within its
      deadline, or while the parent was cancelled, and its slot is free; a
      timeout, that fn was started and its deadline passed; a panic, that fn
      panicked and its slot is free; any other error, that fn was never started
      and no slot was taken. */
  lemma ResultClassifies(n: nat, steps: seq<Step>, i: nat)
    requires Exec(n, steps).Some? && i < |Exec(n, steps).value.calls| && Exec(n, steps).value.calls[i].caller.Ended?
    ensures var c := Exec(n, steps).value.calls[i];
            match c.caller.result
            case Nil =>
              c.body !in {NotStarted, Executing} && !c.panicked && c.freed == 1
                  && (c.renderErr != DeadlineExceeded || c.parentDone)
            case Panicked => c.body !in {NotStarted, Executing} && c.panicked && c.freed == 1
            case TimedOut => c.bounded && !c.body.NotStarted? && c.renderErr == DeadlineExceeded
            case _ => c.body.NotStarted? && c.taken == 0
  {
    hide Exec;
    RunsKeepInv(n, steps);
    assert CallInv(Exec(n, steps).value.calls[i]);
  }

  // ---- how a Run ends -----------------------------------------------------

  /** The state after more steps, all of them of call i's caller or goroutine. */
  ghost predicate OwnSteps(steps: seq<Step>, longer: seq<Step>, i: nat) {
    steps <= longer && forall k | |steps| <= k < |longer| :: !longer[k].Enter? && longer[k].i == i
  }

  /** One step of call i, and what it makes of that call. */
  lemma OneStep(n: nat, steps: seq<Step>, i: nat, step: Step) returns (longer: seq<Step>)
    requires Exec(n, steps).Some? && i < |Exec(n, steps).value.calls| && Enabled(Exec(n, steps).value, step)
    requires !step.Enter? && step.i == i
    ensures longer == steps + [step] && Exec(n, longer).Some? && |Exec(n, longer).value.calls| > i
    ensures var s := Exec(n, steps).value; Exec(n, longer).value.calls[i] == Stepped(s.pool, s.calls[i], step)
  {
    longer := Extend(n, steps, step);
  }

  /** A render that outlives its deadline does not hold its caller: in every
      interleaving, with the parent alive, Run returns a timeout by at most
      three steps of its own, without fn's return; fn goes on in its slot. */
  lemma DeadlineEndsRun(n: nat, steps: seq<Step>, i: nat) returns (longer: seq<Step>)
    requires Exec(n, steps).Some? && i < |Exec(n, steps).value.calls|
    requires var c := Exec(n, steps).value.calls[i];
             && c.caller in {Selecting, Expired, Checking} && c.body.Executing?
             && c.renderErr == DeadlineExceeded && !c.parentDone
    ensures OwnSteps(steps, longer, i) && |longer| <= |steps| + 3
    ensures forall k | |steps| <= k < |longer| :: !longer[k].BodyReturns?
    ensures Exec(n, longer).Some? && i < |Exec(n, longer).value.calls|
    ensures var c := Exec(n, longer).value.calls[i];
            c.caller == Ended(TimedOut) && c.body.Executing? && c.taken == 1 && c.freed == 0
  {
    hide Exec;
    RunsKeepInv(n, steps);
    var c := Exec(n, steps).value.calls[i];
    assert CallInv(c);
    longer := steps;
    if c.caller.Selecting? {
      longer := OneStep(n, longer, i, SeeDone(i));
    }
    if c.caller in {Selecting, Expired} {
      longer := OneStep(n, longer, i, NotReturned(i));
    }
    longer := OneStep(n, longer, i, CheckParent(i));
  }

  predicate WaitsCancelled(c: Call) {
    && c.parentDone
    && (c.caller in {Selecting, Expired, Checking, Awaiting}
        || (c.caller in {Ended(Nil), Ended(Panicked)} && c.body == Received))
  }

  predicate NeverStarts(c: Call) {
    && c.parentDone && c.body.NotStarted? && c.taken == 0
    && c.caller in {Entered, Acquiring, Ended(StillRunning), Ended(CtxError)}
  }

  lemma StepKeepsCancelled(s: State, step: Step, i: nat)
    requires Inv(s) && Enabled(s, step) && i < |s.calls|
    ensures i < |Apply(s, step).calls|
    ensures WaitsCancelled(s.calls[i]) ==> WaitsCancelled(Apply(s, step).calls[i])
    ensures NeverStarts(s.calls[i]) ==> NeverStarts(Apply(s, step).calls[i])
  {
    if !step.Enter? && step.i == i {
      assert CallInv(s.calls[i]);
      CallKeepsCancelled(s, step);
    }
    hide Stepped;
    hide WaitsCancelled;
    hide NeverStarts;
  }

  lemma CallKeepsCancelled(s: State, step: Step)
    requires !step.Enter? && Enabled(s, step) && CallInv(s.calls[step.i])
    ensures WaitsCancelled(s.calls[step.i]) ==> WaitsCancelled(Stepped(s.pool, s.calls[step.i], step))
    ensures NeverStarts(s.calls[step.i]) ==> NeverStarts(Stepped(s.pool, s.calls[step.i], step))
  {
  }

  lemma {:induction false} RunsKeepCancelled(n: nat, steps: seq<Step>, longer: seq<Step>, i: nat)
    requires Exec(n, steps).Some? && Exec(n, longer).Some? && steps <= longer && i < |Exec(n, steps).value.calls|
    ensures i < |Exec(n, longer).value.calls|
    ensures var c, d := Exec(n, steps).value.calls[i], Exec(n, longer).value.calls[i];
            (WaitsCancelled(c) ==> WaitsCancelled(d)) && (NeverStarts(c) ==> NeverStarts(d))
    decreases |longer|
  {
    hide Enabled;
    hide Apply;
    hide WaitsCancelled;
    hide NeverStarts;
    if |steps| == |longer| {
      assert steps == longer;
    } else {
      var before := longer[..|longer| - 1];
      RunsKeepCancelled(n, steps, before, i);
      RunsKeepInv(n, before);
      StepKeepsCancelled(Exec(n, before).value, longer[|longer| - 1], i);
    }
  }

  /** A parent that was cancelled while fn runs makes Run wait for it: however
      the run goes on, the call ends only after its body is done. */
  lemma CancelledRunWaits(n: nat, steps: seq<Step>, longer: seq<Step>, i: nat)
    requires Exec(n, steps).Some? && Exec(n, longer).Some? && steps <= longer
    requires i < |Exec(n, steps).value.calls|
    requires Exec(n, steps).value.calls[i].caller in {Selecting, Expired, Checking, Awaiting}
    requires Exec(n, steps).value.calls[i].parentDone
    ensures i < |Exec(n, longer).value.calls|
    ensures var c := Exec(n, longer).value.calls[i];
            c.caller.Ended? ==> c.body == Received && c.caller != Ended(TimedOut)
  {
    hide Exec;
    RunsKeepCancelled(n, steps, longer, i);
  }

  /** A Run whose context is done before it asks for a slot takes none and never calls fn. */
  lemma CancelledRunNeverStarts(n: nat, steps: seq<Step>, longer: seq<Step>, i: nat)
    requires Exec(n, steps).Some? && Exec(n, longer).Some? && steps <= longer
    requires i < |Exec(n, steps).value.calls| && Exec(n, steps).value.calls[i].caller in {Entered, Acquiring}
    requires Exec(n, steps).value.calls[i].parentDone
    ensures i < |Exec(n, longer).value.calls|
    ensures var c := Exec(n, longer).value.calls[i]; c.body.NotStarted? && c.taken == 0
  {
    hide Exec;
    RunsKeepInv(n, steps);
    assert CallInv(Exec(n, steps).value.calls[i]);
    RunsKeepCancelled(n, steps, longer, i);
  }

  /** The next step of a call whose fn has returned, up to the end of Run. */
  function Homeward(c: Call, i: nat): Step {
    if c.bounded && c.body.Returned? then ClearKey(i)
    else if c.body in {Returned, KeyCleared} then FreeSlot(i)
    else if c.bounded && c.body.Freed? then Send(i)
    else if c.bounded then Hear(i)
    else EndInline(i)
  }

  function StepsHome(c: Call): nat {
    if c.body.Returned? then if c.bounded then 4 else 2
    else if c.body.KeyCleared? then 3
    else if c.body.Freed? then if c.bounded then 2 else 1
    else 1
  }

  ghost predicate OnTheWayHome(c: Call) {
    && c.caller in {Inline, Selecting, Expired, Awaiting}
    && c.body !in {NotStarted, Executing}
  }

  lemma HomewardLeadsOn(s: State, i: nat)
    requires Inv(s) && i < |s.calls| && OnTheWayHome(s.calls[i])
    ensures var c, step := s.calls[i], Homeward(s.calls[i], i);
            && Enabled(s, step) && !step.Enter? && step.i == i
            && var d := Stepped(s.pool, c, step);
               if StepsHome(c) == 1 then
                 d.caller == Ended(if c.panicked then Panicked
                                   else if c.renderErr == DeadlineExceeded && !c.parentDone then TimedOut else Nil)
               else
                 && OnTheWayHome(d) && StepsHome(d) < StepsHome(c)
                 && d.panicked == c.panicked && d.renderErr == c.renderErr && d.parentDone == c.parentDone
  {
    var c := s.calls[i];
    assert CallInv(c);
    if c.taken != c.freed { HolderIsCounted(s.calls, i); }
  }

  /** A Run whose render has returned ends by at most four steps of its own, by
      fn's panic, as a timeout when the deadline has passed with the parent
      alive, and as nil otherwise. */
  lemma {:induction false} ReturnedRunEnds(n: nat, steps: seq<Step>, i: nat) returns (longer: seq<Step>)
    requires Exec(n, steps).Some? && i < |Exec(n, steps).value.calls|
    requires Exec(n, steps).value.calls[i].caller in {Inline, Selecting, Expired, Awaiting}
    requires Exec(n, steps).value.calls[i].body !in {NotStarted, Executing}
    ensures OwnSteps(steps, longer, i) && |longer| <= |steps| + StepsHome(Exec(n, steps).value.calls[i]) <= |steps| + 4
    ensures Exec(n, longer).Some? && i < |Exec(n, longer).value.calls|
    ensures var c := Exec(n, steps).value.calls[i];
            Exec(n, longer).value.calls[i].caller ==
                Ended(if c.panicked then Panicked
                      else if c.renderErr == DeadlineExceeded && !c.parentDone then TimedOut else Nil)
    decreases StepsHome(Exec(n, steps).value.calls[i])
  {
    hide Exec;
    RunsKeepInv(n, steps);
    var s := Exec(n, steps).value;
    HomewardLeadsOn(s, i);
    hide Inv;
    hide Enabled;
    hide Stepped;
    var next := OneStep(n, steps, i, Homeward(s.calls[i], i));
    longer := next;
    if StepsHome(s.calls[i]) > 1 {
      longer := ReturnedRunEnds(n, next, i);
      assert steps <= next <= longer;
      assert forall k | |steps| <= k < |next| :: longer[k] == next[k];
    }
  }

  /** A render that returns or panics while Run waits for it ends the call so. */
  lemma RenderEndsRun(n: nat, steps: seq<Step>, i: nat, panics: bool) returns (longer: seq<Step>)
    requires Exec(n, steps).Some? && i < |Exec(n, steps).value.calls|
    requires var c := Exec(n, steps).value.calls[i];
             c.caller in {Inline, Selecting, Expired, Awaiting} && c.body.Executing?
    ensures OwnSteps(steps + [BodyReturns(i, panics)], longer, i) && |longer| <= |steps| + 5
    ensures Exec(n, longer).Some? && i < |Exec(n, longer).value.calls|
    ensures var c := Exec(n, steps).value.calls[i];
            Exec(n, longer).value.calls[i].caller ==
                Ended(if panics then Panicked
                      else if c.renderErr == DeadlineExceeded && !c.parentDone then TimedOut else Nil)
  {
    hide Exec;
    RunsKeepInv(n, steps);
    longer := OneStep(n, steps, i, BodyReturns(i, panics));
    longer := ReturnedRunEnds(n, longer, i);
  }

  /** A Run that waits for a slot ends by one step of its own when its context
      is done, with the pool as it was. */
  lemma CancelledWaitEnds(n: nat, steps: seq<Step>, i: nat)
    requires Exec(n, steps).Some? && i < |Exec(n, steps).value.calls|
    requires Exec(n, steps).value.calls[i].caller in {Acquiring, Waiting} && Exec(n, steps).value.calls[i].parentDone
    ensures var s := Exec(n, steps).value;
            var step := if s.calls[i].caller.Waiting? then GiveUp(i) else LookAtContext(i);
            Enabled(s, step) && Apply(s, step) == s.(calls := s.calls[i := s.calls[i].(caller := Ended(CtxError))])
  {
    hide Exec;
  }

  /** Any context may end at any time: the parent's always; the render's own
      once there is one, by its deadline, or with the parent. */
  lemma ContextsEnd(s: State, i: nat, err: RenderErr)
    requires i < |s.calls|
    ensures var c := s.calls[i];
            && Enabled(s, CancelParent(i))
            && Apply(s, CancelParent(i)) == s.(calls := s.calls[i := c.(parentDone := true)])
            && (c.bounded && c.caller in {Marked, Selecting, Expired, Checking, Awaiting} && c.renderErr == NoErr ==>
                  && Enabled(s, Expire(i))
                  && Apply(s, Expire(i)) == s.(calls := s.calls[i := c.(renderErr := DeadlineExceeded)])
                  && (c.parentDone && err != NoErr ==>
                        && Enabled(s, Propagate(i, err))
                        && Apply(s, Propagate(i, err)) == s.(calls := s.calls[i := c.(renderErr := err)])))
  {
  }

  /** An abandoned render that says it returned is heard, and only logged. */
  lemma AbandonedRenderIsHeard(s: State, i: nat)
    requires i < |s.calls| && s.calls[i].caller == Ended(TimedOut) && s.calls[i].body.Sent?
    ensures Enabled(s, LogAbandoned(i))
    ensures Apply(s, LogAbandoned(i)) == s.(calls := s.calls[i := s.calls[i].(body := Received)])
  {
  }

  // ---- the keys -----------------------------------------------------------

  predicate InProgress(c: Call) {
    !c.caller.Ended?
  }

  predicate PastCheck(c: Call) {
    c.caller in {Acquiring, Waiting, Acquired}
  }

  /** A bounded render from its mark to the clearing of its key. */
  predicate Bounded(c: Call) {
    c.bounded && (c.caller.Marked? || c.body in {Executing, Returned})
  }

  predicate Active(c: Call) {
    Bounded(c) || (!c.bounded && c.body in {Executing, Returned})
  }

  ghost predicate SameKey(s: State, i: nat, j: nat)
    requires i < |s.calls| && j < |s.calls|
  {
    i != j && s.calls[i].key == s.calls[j].key != ""
  }

  /** The workqueue's guarantee: it never has two Runs of one key in progress. */
  ghost predicate OnePerKey(s: State) {
    forall i: nat, j: nat | i < |s.calls| && j < |s.calls| && SameKey(s, i, j) ::
      !(InProgress(s.calls[i]) && InProgress(s.calls[j]))
  }

  ghost predicate AlwaysOnePerKey(n: nat, steps: seq<Step>)
    decreases |steps|
  {
    && Exec(n, steps).Some? && OnePerKey(Exec(n, steps).value)
    && (steps != [] ==> AlwaysOnePerKey(n, steps[..|steps| - 1]))
  }

  ghost predicate Marks(s: State, k: string) {
    exists i: nat | i < |s.calls| :: Bounded(s.calls[i]) && s.calls[i].key == k
  }

  /** Only keys of unreturned bounded renders are in the running set. */
  ghost predicate RunningIsMarked(s: State) {
    "" !in s.pool.running && forall k | k in s.pool.running :: Marks(s, k)
  }

  ghost predicate KeyInv(s: State) {
    && (forall i: nat | i < |s.calls| && Bounded(s.calls[i]) && s.calls[i].key != "" ::
         s.calls[i].key in s.pool.running)
    && (forall i: nat, j: nat | i < |s.calls| && j < |s.calls| && SameKey(s, i, j) ::
          !((Active(s.calls[i]) || PastCheck(s.calls[i])) && Active(s.calls[j])))
  }

  lemma StepKeepsMarked(s: State, step: Step)
    requires Inv(s) && RunningIsMarked(s) && Enabled(s, step)
    ensures RunningIsMarked(Apply(s, step))
  {
    var t := Apply(s, step);
    forall k | k in t.pool.running
      ensures Marks(t, k)
    {
      if k in s.pool.running {
        var i: nat :| i < |s.calls| && Bounded(s.calls[i]) && s.calls[i].key == k;
        assert CallInv(s.calls[i]);
        assert t.calls[i].key == k && Bounded(t.calls[i]);
      } else {
        assert CallInv(s.calls[step.i]);
        assert t.calls[step.i].key == k && Bounded(t.calls[step.i]);
      }
    }
  }

  /** How one step moves a call between the stages of its key. */
  lemma StepOfKey(s: State, step: Step)
    requires Enabled(s, step) && !step.Enter? && CallInv(s.calls[step.i])
    ensures var c := s.calls[step.i];
            var d := Stepped(s.pool, c, step);
            && d.key == c.key && d.bounded == c.bounded
            && (PastCheck(d) ==> PastCheck(c) || (c.caller.Entered? && !s.pool.IsRunning(c.key)))
            && (Active(d) ==> Active(c) || PastCheck(c))
            && (Active(c) && !c.bounded ==> InProgress(c))
            && (PastCheck(c) || c.caller.Entered? ==> InProgress(c))
            && (PoolAfter(s.pool, c, step).running ==
                if step.ClearKey? && c.key != "" then s.pool.running - {c.key}
                else if Bounded(d) && !Bounded(c) && c.key != "" then s.pool.running + {c.key}
                else s.pool.running)
            && (step.ClearKey? ==> Bounded(c) && !Bounded(d))
  {
  }

  /** Of two calls of one key, one on its way and one active, no step makes a pair. */
  lemma PairStaysApart(s: State, step: Step, i: nat, j: nat)
    requires Inv(s) && KeyInv(s) && OnePerKey(s) && Enabled(s, step)
    requires i < |s.calls| && j < |s.calls| && SameKey(s, i, j)
    ensures var t := Apply(s, step);
            !((Active(t.calls[i]) || PastCheck(t.calls[i])) && Active(t.calls[j]))
  {
    hide CallInv;
    hide Stepped;
    hide PoolAfter;
    hide Enabled;
    hide Bounded;
    hide Active;
    hide PastCheck;
    hide InProgress;
    EnabledInRange(s, step);
    assert SameKey(s, j, i);
    OnTheWayInProgress(s);
    if !step.Enter? {
      StepOfKey(s, step);
    }
  }

  lemma StepKeepsKeys(s: State, step: Step)
    requires Inv(s) && KeyInv(s) && OnePerKey(s) && Enabled(s, step)
    ensures KeyInv(Apply(s, step))
  {
    hide CallInv;
    hide Stepped;
    hide PoolAfter;
    hide Enabled;
    hide OnePerKey;
    hide Bounded;
    hide Active;
    hide PastCheck;
    hide InProgress;
    var t := Apply(s, step);
    EnabledInRange(s, step);
    NewCallIsIdle(step);
    forall i: nat, j: nat | i < |t.calls| && j < |t.calls| && SameKey(t, i, j)
      ensures !((Active(t.calls[i]) || PastCheck(t.calls[i])) && Active(t.calls[j]))
    {
      if i < |s.calls| && j < |s.calls| {
        if !step.Enter? { StepOfKey(s, step); }
        assert SameKey(s, i, j);
        PairStaysApart(s, step, i, j);
      }
    }
    if !step.Enter? {
      StepOfKey(s, step);
      forall i: nat | i < |t.calls| && Bounded(t.calls[i]) && t.calls[i].key != ""
        ensures t.calls[i].key in t.pool.running
      {
        if i != step.i {
          assert t.calls[i].key == s.calls[step.i].key ==> SameKey(s, i, step.i);
          BoundedIsActive(s.calls[i], s.calls[step.i]);
        }
      }
    }
  }

  lemma EnabledInRange(s: State, step: Step)
    requires Enabled(s, step)
    ensures step.Enter? || step.i < |s.calls|
  {
  }

  lemma NewCallIsIdle(step: Step)
    ensures step.Enter? ==> var c := NewCall(step.key, step.bounded); !Active(c) && !Bounded(c) && !PastCheck(c)
  {
  }

  lemma BoundedIsActive(c: Call, d: Call)
    ensures (Bounded(c) ==> Active(c)) && (Bounded(d) ==> Active(d))
  {
  }

  lemma OnTheWayInProgress(s: State)
    requires Inv(s)
    ensures forall j: nat | j < |s.calls| && PastCheck(s.calls[j]) :: InProgress(s.calls[j])
    ensures forall j: nat | j < |s.calls| && Active(s.calls[j]) && !Bounded(s.calls[j]) :: InProgress(s.calls[j])
  {
  }

  lemma {:induction false} RunsKeepMarked(n: nat, steps: seq<Step>)
    requires Exec(n, steps).Some?
    ensures RunningIsMarked(Exec(n, steps).value)
    decreases |steps|
  {
    hide Enabled;
    hide Apply;
    if steps != [] {
      var before := steps[..|steps| - 1];
      RunsKeepInv(n, before);
      RunsKeepMarked(n, before);
      StepKeepsMarked(Exec(n, before).value, steps[|steps| - 1]);
    }
  }

  lemma {:induction false} RunsKeepKeys(n: nat, steps: seq<Step>)
    requires AlwaysOnePerKey(n, steps)
    ensures KeyInv(Exec(n, steps).value)
    decreases |steps|
  {
    hide Enabled;
    hide Apply;
    hide OnePerKey;
    if steps != [] {
      var before := steps[..|steps| - 1];
      RunsKeepInv(n, before);
      RunsKeepKeys(n, before);
      StepKeepsKeys(Exec(n, before).value, steps[|steps| - 1]);
    }
  }

  /** With at most one Run per key in progress, at most one body of a key
      executes, and no other call of that key is on its way to start one. */
  lemma OneBodyPerKey(n: nat, steps: seq<Step>, i: nat, j: nat)
    requires AlwaysOnePerKey(n, steps)
    requires i < |Exec(n, steps).value.calls| && j < |Exec(n, steps).value.calls| && SameKey(Exec(n, steps).value, i, j)
    requires Exec(n, steps).value.calls[i].body.Executing?
    ensures !Exec(n, steps).value.calls[j].body.Executing? && !PastCheck(Exec(n, steps).value.calls[j])
  {
    hide Exec;
    RunsKeepKeys(n, steps);
    RunsKeepInv(n, steps);
    var s := Exec(n, steps).value;
    assert CallInv(s.calls[i]) && CallInv(s.calls[j]);
    assert SameKey(s, j, i);
  }

  /** While the render of a key still runs, a Run with that key takes no slot
      and starts nothing: it returns that the previous render still runs. */
  lemma RunningRenderTurnsAway(n: nat, steps: seq<Step>, i: nat, j: nat)
    requires AlwaysOnePerKey(n, steps)
    requires i < |Exec(n, steps).value.calls| && j < |Exec(n, steps).value.calls| && SameKey(Exec(n, steps).value, i, j)
    requires Exec(n, steps).value.calls[i].body.Executing? && Exec(n, steps).value.calls[j].caller.Entered?
    ensures var s := Exec(n, steps).value;
            Apply(s, Check(j)) == s.(calls := s.calls[j := s.calls[j].(caller := Ended(StillRunning))])
  {
    hide Exec;
    RunsKeepKeys(n, steps);
    RunsKeepInv(n, steps);
    var s := Exec(n, steps).value;
    assert CallInv(s.calls[i]) && CallInv(s.calls[j]);
    assert OnePerKey(s);
  }

  /** Run turns a call away only while a bounded render of its key has not returned. */
  lemma TurnedAwayOnlyWhileRunning(n: nat, steps: seq<Step>, j: nat)
    requires Exec(n, steps).Some? && j < |Exec(n, steps).value.calls| && Exec(n, steps).value.calls[j].caller.Entered?
    requires Apply(Exec(n, steps).value, Check(j)).calls[j].caller == Ended(StillRunning)
    ensures Marks(Exec(n, steps).value, Exec(n, steps).value.calls[j].key)
  {
    hide Exec;
    RunsKeepMarked(n, steps);
  }

  /** A bounded call that has taken m steps towards its body. */
  function Stage(key: string, m: nat): Call {
    var c := NewCall(key, true);
    if m == 0 then c
    else if m == 1 then c.(caller := Acquiring)
    else if m == 2 then c.(caller := Waiting)
    else if m == 3 then c.(caller := Acquired, taken := 1)
    else if m == 4 then c.(caller := Marked, taken := 1)
    else c.(caller := Selecting, body := Executing, taken := 1)
  }

  function StageStep(m: nat, i: nat): Step {
    if m == 0 then Check(i)
    else if m == 1 then LookAtContext(i)
    else if m == 2 then TakeSlot(i)
    else if m == 3 then Begin(i)
    else Launch(i)
  }

  /** Two calls of one key on a pool of two slots, after m and n steps. */
  function BothAt(key: string, m: nat, n: nat): State {
    State(Pool(2, (if m >= 3 then 1 else 0) + (if n >= 3 then 1 else 0), if m >= 4 || n >= 4 then {key} else {}),
          [Stage(key, m), Stage(key, n)])
  }

  lemma BothStep(key: string, m: nat, n: nat, i: nat)
    requires key != "" && i < 2 && m <= n + 1 && n <= m
    requires if i == 0 then m == n < 5 else n < m <= 5
    ensures var step := StageStep(if i == 0 then m else n, i);
            && Enabled(BothAt(key, m, n), step)
            && Apply(BothAt(key, m, n), step) == if i == 0 then BothAt(key, m + 1, n) else BothAt(key, m, n + 1)
  {
    var s := BothAt(key, m, n);
    var step := StageStep(if i == 0 then m else n, i);
    assert Stepped(s.pool, s.calls[i], step) == Stage(key, if i == 0 then m + 1 else n + 1);
    if i == 0 {
      assert s.calls[0 := Stage(key, m + 1)] == [Stage(key, m + 1), Stage(key, n)];
    } else {
      assert s.calls[1 := Stage(key, n + 1)] == [Stage(key, m), Stage(key, n + 1)];
    }
  }

  lemma BothEnter(key: string)
    ensures var start, enter := State(Pool(2, 0, {}), []), Enter(key, true);
            && Enabled(start, enter) && Enabled(Apply(start, enter), enter)
            && Apply(Apply(start, enter), enter) == BothAt(key, 0, 0)
  {
  }

  lemma {:induction false} BothReach(key: string, m: nat) returns (steps: seq<Step>)
    requires key != "" && m <= 5
    ensures Exec(2, steps) == Some(BothAt(key, m, m))
  {
    hide Stepped;
    hide PoolAfter;
    hide Apply;
    hide Enabled;
    hide BothAt;
    if m == 0 {
      BothEnter(key);
      steps := Extend(2, [], Enter(key, true));
      steps := Extend(2, steps, Enter(key, true));
    } else {
      hide Exec;
      steps := BothReach(key, m - 1);
      BothStep(key, m - 1, m - 1, 0);
      steps := Extend(2, steps, StageStep(m - 1, 0));
      BothStep(key, m, m - 1, 1);
      steps := Extend(2, steps, StageStep(m - 1, 1));
    }
  }

  /** Without the workqueue's guarantee two bodies of one key can execute at
      once: the check and the mark are two steps. */
  lemma TwoRunsOfOneKeyOverlap(key: string)
    requires key != ""
    ensures exists steps :: Exec(2, steps).Some? && |Exec(2, steps).value.calls| == 2
              && (forall i | 0 <= i < 2 :: Exec(2, steps).value.calls[i].key == key
                   && Exec(2, steps).value.calls[i].body.Executing?)
  {
    var steps := BothReach(key, 5);
  }
}
