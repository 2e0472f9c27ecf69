/** The guard and the restore plan give the identity protocol what its steps
    assume: the findings about the rendered objects, and the objects a
    reconcile writes (internal/reconcile/moduleinstance.go). */
module GuardRefinement {
  import G = ApplyGuard
  import I = IdentityRuns
  import J = InstanceIdentity
  import opened Seqs

  function NamesOf(resources: seq<G.Resource>, name: G.Object -> string): set<string> {
    set r | r in resources :: name(r.obj)
  }

  /** Each rendered object occurs once. */
  ghost predicate OneNameEach(resources: seq<G.Resource>, name: G.Object -> string) {
    forall a, b | a in resources && b in resources && name(a.obj) == name(b.obj) :: a == b
  }

  /** The guard reads the cluster and the inventory of the state. */
  ghost predicate Reads(env: G.Env, input: G.Input, s: I.State, name: G.Object -> string) {
    forall r | r in input.resources ::
      && (G.Inventoried(input, r) <==> name(r.obj) in s.stored.inventory)
      && (I.Mine(s.cluster, name(r.obj)) ==> env.read(r).Found?)
  }

  function FindingsOf(env: G.Env, input: G.Input, dryRunFailed: bool, withheld: set<string>,
          name: G.Object -> string): I.Findings
  {
    var missing := G.MissingOf(env, input, dryRunFailed);
    I.Findings(
      withheld,
      NamesOf(Filter(input.resources, G.IsLetGo(env, input)), name),
      NamesOf(Filter(input.resources, G.IsRefused(env, input)), name),
      NamesOf(Filter(input.resources, G.IsTakenIn(env, input)), name),
      NamesOf(missing, name),
      NamesOf(Filter(missing, G.Expires()), name))
  }

  lemma MissingMembers(env: G.Env, input: G.Input, dryRunFailed: bool)
    ensures forall r :: r in G.MissingOf(env, input, dryRunFailed) <==>
              !dryRunFailed && r in input.resources && G.IsAllowed(env, input)(r) && !G.IsTakenIn(env, input)(r)
                  && env.creates(r)
  {
    hide G.VerdictOf;
    var g := G.SortedBy(env, input, input.resources);
    G.SortedFields(env, input);
    FilterMembers(input.resources, G.IsAllowed(env, input));
    FilterMembers(input.resources, G.IsTakenIn(env, input));
    FilterMembers(g.allowed, G.NotIn(g.takenIn));
    FilterMembers(Filter(g.allowed, G.NotIn(g.takenIn)), G.Creates(env));
  }

  /** A name is in a class exactly when its object is. */
  lemma NamesOfSome(resources: seq<G.Resource>, some: seq<G.Resource>, name: G.Object -> string)
    requires OneNameEach(resources, name) && forall r | r in some :: r in resources
    ensures forall r | r in resources :: name(r.obj) in NamesOf(some, name) <==> r in some
    ensures NamesOf(some, name) <= NamesOf(resources, name)
  {
  }

  /** The classes of one object, read off the findings by its name. */
  ghost predicate Classified(env: G.Env, input: G.Input, dryRunFailed: bool, f: I.Findings, name: G.Object -> string) {
    && f.letGo + f.refused + f.takenIn + f.missing + f.expired <= NamesOf(input.resources, name)
    && forall r | r in input.resources ::
         && (name(r.obj) in f.letGo <==> G.IsLetGo(env, input)(r))
         && (name(r.obj) in f.refused <==> G.IsRefused(env, input)(r))
         && (name(r.obj) in f.takenIn <==> G.IsTakenIn(env, input)(r))
         && (name(r.obj) in f.missing <==>
               !dryRunFailed && G.IsAllowed(env, input)(r) && !G.IsTakenIn(env, input)(r) && env.creates(r))
         && (name(r.obj) in f.expired <==> name(r.obj) in f.missing && G.ExpiresAfterFinish(r))
  }

  lemma FindingsClassify(env: G.Env, input: G.Input, dryRunFailed: bool, withheld: set<string>,
          name: G.Object -> string)
    requires OneNameEach(input.resources, name)
    ensures Classified(env, input, dryRunFailed, FindingsOf(env, input, dryRunFailed, withheld, name), name)
  {
    hide G.VerdictOf;
    hide G.MissingOf;
    var all := input.resources;
    var missing := G.MissingOf(env, input, dryRunFailed);
    MissingMembers(env, input, dryRunFailed);
    FilterMembers(all, G.IsLetGo(env, input));
    FilterMembers(all, G.IsRefused(env, input));
    FilterMembers(all, G.IsTakenIn(env, input));
    FilterMembers(missing, G.Expires());
    NamesOfSome(all, Filter(all, G.IsLetGo(env, input)), name);
    NamesOfSome(all, Filter(all, G.IsRefused(env, input)), name);
    NamesOfSome(all, Filter(all, G.IsTakenIn(env, input)), name);
    NamesOfSome(all, missing, name);
    NamesOfSome(all, Filter(missing, G.Expires()), name);
    hide NamesOf;
  }

  /** What the guard and the dry-run found is sorted as the identity protocol
      assumes. */
  lemma GuardGivesFindings(env: G.Env, input: G.Input, dryRunFailed: bool, s: I.State,
                           objects: set<string>, withheld: set<string>, name: G.Object -> string)
    requires OneNameEach(input.resources, name) && Reads(env, input, s, name)
    requires objects == withheld + NamesOf(input.resources, name) && withheld !! NamesOf(input.resources, name)
    ensures I.Sorted(s, objects, FindingsOf(env, input, dryRunFailed, withheld, name))
  {
    FindingsClassify(env, input, dryRunFailed, withheld, name);
    hide G.VerdictOf;
    var f := FindingsOf(env, input, dryRunFailed, withheld, name);
    assert f.withheld == withheld;
    hide FindingsOf;
    forall o | o in NamesOf(input.resources, name)
      ensures exists r :: r in input.resources && name(r.obj) == o
    {
    }
    forall o | o in objects - f.withheld - f.letGo - f.refused - s.stored.inventory && I.Mine(s.cluster, o)
      ensures o in f.takenIn
    {
      var r :| r in input.resources && name(r.obj) == o;
    }
  }

  /** A restore writes the missing objects that do not expire and the taken-in
      ones; an apply that is not refused writes every rendered object but the
      withheld and the let-go ones: what the protocol's steps write. */
  lemma CoursesWriteWhatStepsWrite(env: G.Env, input: G.Input, dryRunFailed: bool,
                                   objects: set<string>, withheld: set<string>, name: G.Object -> string, o: string)
    requires OneNameEach(input.resources, name)
    requires objects == withheld + NamesOf(input.resources, name) && withheld !! NamesOf(input.resources, name)
    ensures var f := FindingsOf(env, input, dryRunFailed, withheld, name);
            && (o in NamesOf(G.RestoreList(env, input, dryRunFailed), name) <==> o in f.missing - f.expired + f.takenIn)
            && (f.refused == {} ==>
                  (o in NamesOf(Filter(input.resources, G.IsAllowed(env, input)), name) <==>
                      o in objects - f.letGo - f.withheld))
  {
    FindingsClassify(env, input, dryRunFailed, withheld, name);
    hide G.VerdictOf;
    var f := FindingsOf(env, input, dryRunFailed, withheld, name);
    assert f.withheld == withheld;
    hide FindingsOf;
    var restored, allowed := G.RestoreList(env, input, dryRunFailed), Filter(input.resources, G.IsAllowed(env, input));
    FilterMembers(input.resources, G.IsAllowed(env, input));
    forall r: G.Resource
      ensures r in restored ==> r in input.resources
    {
      G.RestoreWrites(env, input, dryRunFailed, r);
    }
    NamesOfSome(input.resources, restored, name);
    NamesOfSome(input.resources, allowed, name);
    hide G.RestoreList;
    if o in NamesOf(input.resources, name) {
      var r :| r in input.resources && name(r.obj) == o;
      G.RestoreWrites(env, input, dryRunFailed, r);
    }
  }

  /** Names differ wherever objects do. */
  ghost predicate Injective(name: G.Object -> string) {
    forall x, y :: name(x) == name(y) ==> x == y
  }

  function EntryNames(entries: seq<G.Entry>, name: G.Object -> string): set<string> {
    set e | e in entries :: name(e.obj)
  }

  lemma EntriesWithout(entries: seq<G.Entry>, drop: seq<G.Resource>, name: G.Object -> string)
    requires Injective(name)
    ensures EntryNames(Filter(entries, G.NotNaming(drop)), name) == EntryNames(entries, name) - NamesOf(drop, name)
  {
    FilterMembers(entries, G.NotNaming(drop));
    forall o | o in EntryNames(entries, name) - NamesOf(drop, name)
      ensures o in EntryNames(Filter(entries, G.NotNaming(drop)), name)
    {
      var e :| e in entries && name(e.obj) == o;
      assert forall r | r in drop :: name(r.obj) in NamesOf(drop, name);
      assert e in Filter(entries, G.NotNaming(drop));
    }
  }

  /** The inventory that a course records has the names that the protocol's
      steps commit: a restore the rendered objects, a no-op the stored ones,
      each without the finished Jobs and the let-go objects; an apply the
      rendered objects without the let-go ones. */
  lemma CoursesRecordWhatStepsRecord(env: G.Env, input: G.Input, dryRunFailed: bool, s: I.State, objects: set<string>,
                                     withheld: set<string>, entries: seq<G.Entry>, stored: seq<G.Entry>,
                                     name: G.Object -> string)
    requires Injective(name)
    requires EntryNames(entries, name) == objects && EntryNames(stored, name) == s.stored.inventory
    ensures var f := FindingsOf(env, input, dryRunFailed, withheld, name);
            && EntryNames(G.Remembered(env, input, dryRunFailed, entries), name) == objects - f.expired - f.letGo
            && EntryNames(G.Remembered(env, input, dryRunFailed, stored), name)
                 == s.stored.inventory - f.expired - f.letGo
            && EntryNames(Filter(entries, G.NotNaming(Filter(input.resources, G.IsLetGo(env, input)))), name)
                 == objects - f.letGo
  {
    var expired := Filter(G.MissingOf(env, input, dryRunFailed), G.Expires());
    var letGo := Filter(input.resources, G.IsLetGo(env, input));
    hide G.MissingOf;
    hide G.IsLetGo;
    hide EntryNames;
    hide NamesOf;
    EntriesWithout(entries, letGo, name);
    forall list | list in {entries, stored}
      ensures EntryNames(G.Remembered(env, input, dryRunFailed, list), name)
                == EntryNames(list, name) - NamesOf(expired, name) - NamesOf(letGo, name)
    {
      EntriesWithout(list, expired, name);
      EntriesWithout(Filter(list, G.NotNaming(expired)), letGo, name);
    }
  }

  /** The state in which an apply of these objects has begun: the identities
      are stored, and this inventory is to be recorded. */
  function Begun(s: I.State, plan: J.Plan, rendered: string, objects: set<string>, pending: set<string>,
                 next: set<string>, doomed: bool): I.State
  {
    s.(stored := s.stored.(current := plan.current, previous := plan.previous),
       phase := I.Writing(plan, rendered, objects, pending, next, doomed))
  }

  /** The refused objects of a list, by name and in the inventory. */
  lemma RefusedNames(env: G.Env, input: G.Input, s: I.State, f: I.Findings, dryRunFailed: bool,
                     name: G.Object -> string)
    requires Reads(env, input, s, name) && Classified(env, input, dryRunFailed, f, name)
    ensures var refused := Filter(input.resources, G.IsRefused(env, input));
            && (f.refused == {} <==> refused == [])
            && (f.refused - s.stored.inventory == {} <==> forall r | r in refused :: G.Inventoried(input, r))
  {
    var hit := G.IsRefused(env, input);
    var refused := Filter(input.resources, hit);
    FilterMembers(input.resources, hit);
    assert forall r | r in input.resources :: name(r.obj) in f.refused <==> hit(r);
    assert forall r | r in input.resources :: G.Inventoried(input, r) <==> name(r.obj) in s.stored.inventory;
    assert f.refused <= NamesOf(input.resources, name);
    hide *;
    SomeNamed(input.resources, refused, f.refused, name);
    if refused != [] { assert refused[0] in refused; }
    if o :| o in f.refused - s.stored.inventory {
      var r :| r in refused && name(r.obj) == o;
      assert !G.Inventoried(input, r);
    }
    forall r | r in refused && !G.Inventoried(input, r)
      ensures f.refused - s.stored.inventory != {}
    {
      assert name(r.obj) in f.refused - s.stored.inventory;
    }
  }

  lemma SomeNamed(all: seq<G.Resource>, some: seq<G.Resource>, names: set<string>, name: G.Object -> string)
    requires names <= NamesOf(all, name)
    requires forall r | r in all :: name(r.obj) in names <==> r in some
    requires forall r | r in some :: r in all
    ensures forall o :: o in names <==> exists r :: r in some && name(r.obj) == o
  {
    forall o | o in names
      ensures exists r :: r in some && name(r.obj) == o
    {
      var r :| r in all && name(r.obj) == o;
    }
  }

  /** A reconcile whose guard reached a verdict does in the protocol what its
      course says, on the names of the objects: it starts to write exactly what
      the course writes, to record exactly what the course records, a refusing
      course changes nothing, and a no-op records what the course keeps. */
  lemma StepsFollowCourse(env: G.Env, input: G.Input, dryRunFailed: bool, s: I.State, s': I.State, rendered: string,
                          sameDigests: bool, objects: set<string>, withheld: set<string>,
                          entries: seq<G.Entry>, stored: seq<G.Entry>, name: G.Object -> string)
    requires Injective(name) && OneNameEach(input.resources, name) && Reads(env, input, s, name) && s.phase.Idle?
    requires objects == withheld + NamesOf(input.resources, name) && withheld !! NamesOf(input.resources, name)
    requires EntryNames(entries, name) == objects && EntryNames(stored, name) == s.stored.inventory
    ensures var f := FindingsOf(env, input, dryRunFailed, withheld, name);
            var plan := J.PlanIdentities(s.stored.current, s.stored.previous, rendered, false);
            var refused := Filter(input.resources, G.IsRefused(env, input));
            var kept := Filter(entries, G.NotNaming(Filter(input.resources, G.IsLetGo(env, input))));
            I.Begin(s, s', rendered, objects, sameDigests, false, f) <==>
              if plan.refused then s' == s
              else if sameDigests && withheld == {} && plan.previous == "" then
                if exists r :: r in refused && !G.Inventoried(input, r) then s' == s
                else if G.RestoreList(env, input, dryRunFailed) == [] then
                  var left := EntryNames(G.Remembered(env, input, dryRunFailed, stored), name);
                  s' == s || s' == s.(stored := I.Filled(s.stored, plan).(inventory := left))
                else
                  Starts(s, s', plan, rendered, objects, NamesOf(G.RestoreList(env, input, dryRunFailed), name),
                         EntryNames(G.Remembered(env, input, dryRunFailed, entries), name), false)
              else if refused != [] then s' == s
              else
                Starts(s, s', plan, rendered, objects, NamesOf(Filter(input.resources, G.IsAllowed(env, input)), name),
                       EntryNames(kept, name), withheld != {})
  {
    var f := FindingsOf(env, input, dryRunFailed, withheld, name);
    var allowed := NamesOf(Filter(input.resources, G.IsAllowed(env, input)), name);
    var restored := NamesOf(G.RestoreList(env, input, dryRunFailed), name);
    GuardGivesFindings(env, input, dryRunFailed, s, objects, withheld, name);
    FindingsClassify(env, input, dryRunFailed, withheld, name);
    CoursesRecordWhatStepsRecord(env, input, dryRunFailed, s, objects, withheld, entries, stored, name);
    RefusedNames(env, input, s, f, dryRunFailed, name);
    assert f.withheld == withheld;
    forall o: string
      ensures o in restored <==> o in f.missing - f.expired + f.takenIn
      ensures f.refused == {} ==> (o in allowed <==> o in objects - f.letGo - f.withheld)
    {
      CoursesWriteWhatStepsWrite(env, input, dryRunFailed, objects, withheld, name, o);
    }
    NoNames(G.RestoreList(env, input, dryRunFailed), name);
    assert restored == f.missing - f.expired + f.takenIn;
    assert f.refused == {} ==> allowed == objects - f.letGo - f.withheld;
    assert I.Sorted(s, objects, f);
    hide *;
    BeginIs(s, s', rendered, objects, sameDigests, f);
  }

  lemma NoNames(some: seq<G.Resource>, name: G.Object -> string)
    ensures some == [] <==> NamesOf(some, name) == {}
  {
    if some != [] { assert name(some[0].obj) in NamesOf(some, name); }
  }

  /** The identities are stored before the first write; the patch may fail. */
  ghost predicate Starts(s: I.State, s': I.State, plan: J.Plan, rendered: string, objects: set<string>,
                         pending: set<string>, next: set<string>, doomed: bool)
  {
    || s' == Begun(s, plan, rendered, objects, pending, next, doomed)
    || s' == s
    || s' == s.(stored := s.stored.(current := plan.current, previous := plan.previous))
  }

  lemma BeginIs(s: I.State, s': I.State, rendered: string, objects: set<string>, sameDigests: bool, f: I.Findings)
    requires s.phase.Idle? && I.Sorted(s, objects, f)
    ensures var plan := J.PlanIdentities(s.stored.current, s.stored.previous, rendered, false);
            I.Begin(s, s', rendered, objects, sameDigests, false, f) <==>
              if plan.refused then s' == s
              else if sameDigests && f.withheld == {} && plan.previous == "" then
                if f.refused - s.stored.inventory != {} then s' == s
                else if f.missing - f.expired + f.takenIn == {} then
                  s' == s || s' == s.(stored := I.Filled(s.stored, plan).(
                                          inventory := s.stored.inventory - f.expired - f.letGo))
                else
                  Starts(s, s', plan, rendered, objects, f.missing - f.expired + f.takenIn,
                         objects - f.expired - f.letGo, false)
              else if f.refused != {} then s' == s
              else Starts(s, s', plan, rendered, objects, objects - f.letGo - f.withheld, objects - f.letGo,
                          f.withheld != {})
  {
    hide J.PlanIdentities;
    assert f.expired <= f.missing;
    assert f.missing == f.missing - f.expired + f.expired;
  }
}
