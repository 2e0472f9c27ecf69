/** The platform store and the module directories it records
    (internal/platform/store.go, internal/platform/layout.go). */
module PlatformStore {
  import opened Options
  import opened Order
  import opened PackageIdentity
  import opened Seqs

  datatype Generated = Generated(identity: Identity, dir: string)

  const ZERO := Identity(0, "")

  function CountIn(leases: map<Identity, nat>, id: Identity): nat {
    if id in leases then leases[id] else 0
  }

  /** The store as a value; what each method makes of it. */
  datatype Contents = Contents(held: Option<Generated>, leases: map<Identity, nat>) {
    function Identity(): Identity {
      if held.Some? then held.value.identity else ZERO
    }

    function Lease(): Contents {
      if held.None? then this
      else this.(leases := leases[held.value.identity := CountIn(leases, held.value.identity) + 1])
    }

    function Release(id: Identity): Contents {
      if CountIn(leases, id) <= 1 then this.(leases := leases - {id})
      else this.(leases := leases[id := leases[id] - 1])
    }
  }

  ghost function Holding(open: set<LeaseHandle>, id: Identity): set<LeaseHandle> {
    set h | h in open && h.identity == id
  }

  ghost predicate CountOf(leases: map<Identity, nat>, open: set<LeaseHandle>, id: Identity) {
    if id in leases then leases[id] == |Holding(open, id)| > 0 else Holding(open, id) == {}
  }

  /** The count of an identity is the number of its unreleased leases. */
  ghost predicate Counts(leases: map<Identity, nat>, open: set<LeaseHandle>) {
    forall id :: CountOf(leases, open, id)
  }

  lemma HoldingAfter(open: set<LeaseHandle>, h: LeaseHandle, id: Identity)
    ensures Holding(open + {h}, id) == if h.identity == id then Holding(open, id) + {h} else Holding(open, id)
    ensures Holding(open - {h}, id) == if h.identity == id then Holding(open, id) - {h} else Holding(open, id)
    ensures h in open && h.identity == id ==> h in Holding(open, id)
    ensures h !in open ==> h !in Holding(open, id)
  {
  }

  lemma CountsAfterLease(c: Contents, open: set<LeaseHandle>, h: LeaseHandle)
    requires Counts(c.leases, open) && h !in open && c.held.Some? && h.identity == c.held.value.identity
    ensures Counts(c.Lease().leases, open + {h})
  {
    hide Holding;
    forall id
      ensures CountOf(c.Lease().leases, open + {h}, id)
    {
      HoldingAfter(open, h, id);
      assert CountOf(c.leases, open, id);
    }
  }

  lemma CountsAfterRelease(c: Contents, open: set<LeaseHandle>, h: LeaseHandle)
    requires Counts(c.leases, open) && h in open
    ensures Counts(c.Release(h.identity).leases, open - {h})
  {
    hide Holding;
    forall id
      ensures CountOf(c.Release(h.identity).leases, open - {h}, id)
    {
      HoldingAfter(open, h, id);
      assert CountOf(c.leases, open, id);
    }
  }

  lemma CountsKeys(leases: map<Identity, nat>, open: set<LeaseHandle>)
    requires Counts(leases, open)
    ensures forall id :: id in leases <==> Holding(open, id) != {}
  {
    forall id
      ensures id in leases <==> Holding(open, id) != {}
    {
      assert CountOf(leases, open, id);
    }
  }

  class Store {
    var generated: Option<Generated>
    var identity: Identity
    var leases: map<Identity, nat>
    /** The leases handed out and not released. */
    ghost var open: set<LeaseHandle>

    ghost predicate Valid()
      reads this, open
    {
      && identity == Value().Identity()
      && (forall h | h in open :: h.store == this && !h.released)
      && Counts(leases, open)
    }

    ghost function Value(): Contents
      reads this
    {
      Contents(generated, leases)
    }

    constructor ()
      ensures Valid() && open == {} && Value() == Contents(None, map[])
    {
      generated, identity, leases, open := None, ZERO, map[], {};
    }

    method SetGenerated(g: Generated)
      requires Valid()
      modifies this
      ensures Valid() && open == old(open) && Value() == Contents(Some(g), old(leases))
    {
      hide Counts;
      generated, identity := Some(g), g.identity;
    }

    /** Leases outstanding on the dropped identity are kept. */
    method Clear()
      requires Valid()
      modifies this
      ensures Valid() && open == old(open) && Value() == Contents(None, old(leases))
    {
      hide Counts;
      generated, identity := None, ZERO;
    }

    method Lease() returns (rec: Option<Generated>, release: LeaseHandle?)
      requires Valid()
      modifies this
      ensures Valid() && Value() == old(Value()).Lease() && rec == old(generated)
      ensures rec.None? ==> release == null && open == old(open)
      ensures rec.Some? ==>
                && release != null && fresh(release) && release.identity == rec.value.identity
                && open == old(open) + {release}
    {
      hide Counts;
      rec, release := generated, null;
      if generated.Some? {
        var id := generated.value.identity;
        release := new LeaseHandle(this, id);
        CountsAfterLease(Value(), open, release);
        leases := leases[id := CountIn(leases, id) + 1];
        open := open + {release};
      }
    }

    /** The identities with an unreleased lease, in the order of their names. */
    method Leased(digest: string -> string) returns (out: seq<Identity>)
      requires Valid()
      ensures forall id :: id in out <==> Holding(open, id) != {}
      ensures IsSortedBy(out, NameBy(digest))
      ensures NamesApart(leases.Keys, digest) ==> Ascending(out, NameBy(digest))
    {
      hide Distinct;
      hide Counts;
      out := [];
      DistinctEmpty<Identity>();
      assert forall id :: id in leases <==> Holding(open, id) != {} by { CountsKeys(leases, open); }
      var rest := leases.Keys;
      while rest != {}
        invariant rest <= leases.Keys
        invariant forall id :: id in out <==> id in leases.Keys - rest
        invariant Distinct(out)
      {
        var id :| id in rest;
        DistinctAppend(out, id);
        out := out + [id];
        rest := rest - {id};
      }
      OrderedByName(out, leases.Keys, digest);
      out := SortBy(out, NameBy(digest));
    }
  }

  function NameBy(digest: string -> string): Identity -> string {
    (id: Identity) => DirName(id, digest)
  }

  ghost predicate NamesApart(ids: set<Identity>, digest: string -> string) {
    forall a, b | a in ids && b in ids && DirName(a, digest) == DirName(b, digest) :: a == b
  }

  lemma OrderedByName(out: seq<Identity>, ids: set<Identity>, digest: string -> string)
    requires Distinct(out) && forall id | id in out :: id in ids
    ensures forall id :: id in SortBy(out, NameBy(digest)) <==> id in out
    ensures IsSortedBy(SortBy(out, NameBy(digest)), NameBy(digest))
    ensures NamesApart(ids, digest) ==> Ascending(SortBy(out, NameBy(digest)), NameBy(digest))
  {
    SortMembers(out, NameBy(digest));
    SortSorts(out, NameBy(digest));
    if NamesApart(ids, digest) {
      assert forall i | 0 <= i < |out| :: out[i] in out;
      SortAscending(out, NameBy(digest));
    }
  }

  /** The release function of one lease: it counts once, however often it is called. */
  class LeaseHandle {
    const store: Store
    const identity: Identity
    var released: bool

    constructor (s: Store, id: Identity)
      ensures store == s && identity == id && !released
    {
      store, identity, released := s, id, false;
    }

    method Release()
      requires store.Valid() && (released || this in store.open)
      modifies this, store
      ensures store.Valid() && released
      ensures store.open == old(store.open) - {this}
      ensures store.Value() == if old(released) then old(store.Value()) else old(store.Value()).Release(identity)
    {
      hide Counts;
      if released {
        assert this !in store.open;
        return;
      }
      released := true;
      CountsAfterRelease(store.Value(), store.open, this);
      LeaseIsCounted(store.leases, store.open, this);
      store.open := store.open - {this};
      if store.leases[identity] <= 1 {
        store.leases := store.leases - {identity};
        return;
      }
      store.leases := store.leases[identity := store.leases[identity] - 1];
    }
  }

  lemma LeaseIsCounted(leases: map<Identity, nat>, open: set<LeaseHandle>, h: LeaseHandle)
    requires Counts(leases, open) && h in open
    ensures h.identity in leases
  {
    assert h in Holding(open, h.identity);
    assert CountOf(leases, open, h.identity);
  }
}
