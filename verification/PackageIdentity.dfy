/** The identity of one generated platform package
    (internal/platform/identity.go): the Platform's generation and the set of
    its active claims' catalog coordinates. */
module PackageIdentity {
  import opened Order
  import opened Seqs
  import opened Text

  datatype Coordinate = Coordinate(catalog: string, version: string) {
    function Name(): string {
      catalog + "@" + version
    }
  }

  /** claims is the comma-joined canonical form of the active set. */
  datatype Identity = Identity(generation: nat, claims: string)

  function NameOf(): Coordinate -> string {
    (c: Coordinate) => c.Name()
  }

  function Canonical(coords: seq<string>): seq<string> {
    Compact(Sorted(coords))
  }

  function IdentityOf(generation: nat, claims: seq<Coordinate>): Identity {
    Identity(generation, Join(Canonical(Map(claims, NameOf())), ","))
  }

  method NewPackageIdentity(generation: nat, claims: seq<Coordinate>) returns (id: Identity)
    ensures id == IdentityOf(generation, claims)
  {
    var coords: seq<string> := [];
    for i := 0 to |claims|
      invariant coords == Map(claims[..i], NameOf())
    {
      coords := coords + [claims[i].Name()];
    }
    assert claims[..|claims|] == claims;
    coords := Sorted(coords);
    coords := Compact(coords);
    id := Identity(generation, Join(coords, ","));
  }

  /** strings.Split at every comma. */
  function Split(s: string): (parts: seq<string>)
    ensures parts != []
  {
    if s == "" then [""]
    else
      var init := Split(s[..|s| - 1]);
      var n := |init| - 1;
      if s[|s| - 1] == ',' then init + [""] else init[n := init[n] + [s[|s| - 1]]]
  }

  /** PackageIdentity.Claims. */
  function ClaimsOf(id: Identity): seq<string> {
    if id.claims == "" then [] else Split(id.claims)
  }

  /** PackageIdentity.String; digest is the hex form of the first 8 bytes of
      the SHA-256 of the claim list. */
  function DirName(id: Identity, digest: string -> string): (name: string)
    ensures |name| > 4 && name[..4] == "gen-"
  {
    "gen-" + Itoa(id.generation) + if id.claims == "" then "" else "-" + digest(id.claims)
  }

  // ---- splitting what was joined ------------------------------------------

  function Commas(s: string): nat {
    if s == "" then 0 else Commas(s[..|s| - 1]) + if s[|s| - 1] == ',' then 1 else 0
  }

  ghost predicate NoComma(coords: seq<string>) {
    forall i | 0 <= i < |coords| :: ',' !in coords[i]
  }

  lemma {:induction false} CommasAdd(a: string, b: string)
    ensures Commas(a + b) == Commas(a) + Commas(b)
  {
    if b == "" {
      assert a + b == a;
    } else {
      assert (a + b)[..|a + b| - 1] == a + b[..|b| - 1];
      CommasAdd(a, b[..|b| - 1]);
    }
  }

  lemma {:induction false} NoCommas(s: string)
    ensures Commas(s) == 0 <==> ',' !in s
  {
    if s != "" {
      NoCommas(s[..|s| - 1]);
      assert s == s[..|s| - 1] + [s[|s| - 1]];
    }
  }

  lemma {:induction false} SplitCounts(s: string)
    ensures |Split(s)| == Commas(s) + 1
  {
    if s != "" {
      SplitCounts(s[..|s| - 1]);
    }
  }

  lemma {:induction false} JoinCommas(items: seq<string>)
    ensures Commas(Join(items, ",")) >= |items| - 1
    ensures !NoComma(items) ==> Commas(Join(items, ",")) > |items| - 1
  {
    if items == [] {
    } else if |items| == 1 {
      NoCommas(items[0]);
    } else {
      var init, last := items[..|items| - 1], items[|items| - 1];
      JoinCommas(init);
      NoCommas(last);
      CommasAdd(Join(init, ",") + ",", last);
      CommasAdd(Join(init, ","), ",");
      assert ","[..0] == "" && Commas(",") == 1;
      if !NoComma(items) && ',' !in last {
        var i :| 0 <= i < |items| && ',' in items[i];
        assert init[i] == items[i];
      }
    }
  }

  lemma {:induction false} SplitAround(a: string, w: string)
    ensures Split(a + "," + w) == Split(a) + Split(w)
  {
    if w == "" {
      assert a + "," + w == a + ",";
      assert (a + ",")[..|a|] == a;
    } else {
      var init, last := w[..|w| - 1], w[|w| - 1];
      assert (a + "," + w)[..|a| + |w|] == a + "," + init;
      SplitAround(a, init);
    }
  }

  lemma {:induction false} SplitWord(w: string)
    requires ',' !in w
    ensures Split(w) == [w]
  {
    if w != "" {
      SplitWord(w[..|w| - 1]);
      assert w == w[..|w| - 1] + [w[|w| - 1]];
    }
  }

  lemma {:induction false} SplitJoin(items: seq<string>)
    requires items != [] && NoComma(items)
    ensures Split(Join(items, ",")) == items
  {
    if |items| == 1 {
      SplitWord(items[0]);
    } else {
      var init := items[..|items| - 1];
      assert forall i | 0 <= i < |init| :: init[i] == items[i];
      SplitJoin(init);
      SplitAround(Join(init, ","), items[|items| - 1]);
      SplitWord(items[|items| - 1]);
      assert items == init + [items[|items| - 1]];
    }
  }

  // ---- the canonical form -------------------------------------------------

  lemma CanonicalForm(coords: seq<string>)
    ensures Ascending(Canonical(coords), Itself())
    ensures forall x :: x in Canonical(coords) <==> x in coords
  {
    SortedIsSorted(coords);
    CompactAscending(Sorted(coords));
  }

  lemma JoinEmpty(items: seq<string>)
    requires forall i | 0 <= i < |items| :: items[i] != ""
    ensures Join(items, ",") == "" <==> items == []
  {
  }

  lemma CanonicalNamesNotEmpty(claims: seq<Coordinate>)
    ensures forall i | 0 <= i < |Canonical(Map(claims, NameOf()))| :: Canonical(Map(claims, NameOf()))[i] != ""
  {
    var names := Map(claims, NameOf());
    CanonicalForm(names);
    forall i | 0 <= i < |Canonical(names)|
      ensures Canonical(names)[i] != ""
    {
      assert Canonical(names)[i] in names;
      var k :| 0 <= k < |names| && names[k] == Canonical(names)[i];
      assert names[k] == claims[k].Name();
    }
  }

  /** Claims gives back the canonical coordinates exactly when none of them
      contains a comma. */
  lemma ClaimsRoundTripIffNoComma(generation: nat, claims: seq<Coordinate>)
    ensures var coords := Canonical(Map(claims, NameOf()));
            ClaimsOf(IdentityOf(generation, claims)) == coords <==> NoComma(Map(claims, NameOf()))
  {
    var names := Map(claims, NameOf());
    var coords := Canonical(names);
    CanonicalForm(names);
    CanonicalNamesNotEmpty(claims);
    JoinEmpty(coords);
    assert NoComma(names) <==> NoComma(coords) by {
      assert (forall x | x in names :: ',' !in x) <==> NoComma(names);
      assert (forall x | x in coords :: ',' !in x) <==> NoComma(coords);
    }
    if coords != [] {
      JoinCommas(coords);
      SplitCounts(Join(coords, ","));
      if NoComma(coords) { SplitJoin(coords); }
    }
  }

  /** The order and the repeats of the claims do not matter. */
  lemma EqualSetsEqualIdentity(generation: nat, a: seq<Coordinate>, b: seq<Coordinate>)
    requires forall x :: x in Map(a, NameOf()) <==> x in Map(b, NameOf())
    ensures IdentityOf(generation, a) == IdentityOf(generation, b)
  {
    CanonicalForm(Map(a, NameOf()));
    CanonicalForm(Map(b, NameOf()));
    AscendingUnique(Canonical(Map(a, NameOf())), Canonical(Map(b, NameOf())), Itself());
  }

  /** The identity is canonical: without commas two identities agree exactly
      when the generations and the sets of coordinates agree. */
  lemma IdentityIsCanonical(g: nat, a: seq<Coordinate>, h: nat, b: seq<Coordinate>)
    requires NoComma(Map(a, NameOf())) && NoComma(Map(b, NameOf()))
    ensures IdentityOf(g, a) == IdentityOf(h, b) <==>
            g == h && forall x :: x in Map(a, NameOf()) <==> x in Map(b, NameOf())
  {
    ClaimsRoundTripIffNoComma(g, a);
    ClaimsRoundTripIffNoComma(h, b);
    CanonicalForm(Map(a, NameOf()));
    CanonicalForm(Map(b, NameOf()));
    if g == h && forall x :: x in Map(a, NameOf()) <==> x in Map(b, NameOf()) {
      EqualSetsEqualIdentity(g, a, b);
    }
  }

  // ---- with commas --------------------------------------------------------

  /** What a joined list splits into: the pieces between the commas of its items. */
  function Pieces(items: seq<string>): seq<string> {
    if items == [] then [] else Pieces(items[..|items| - 1]) + Split(items[|items| - 1])
  }

  lemma {:induction false} SplitJoinPieces(items: seq<string>)
    requires items != []
    ensures Split(Join(items, ",")) == Pieces(items)
  {
    if |items| > 1 {
      var init := items[..|items| - 1];
      SplitJoinPieces(init);
      SplitAround(Join(init, ","), items[|items| - 1]);
    } else {
      assert items[..0] == [];
    }
  }

  lemma JoinSnoc(front: seq<string>, last: string)
    ensures Join(front + [last], ",") == Join(front, ",") + (if front == [] then "" else ",") + last
  {
    assert (front + [last])[..|front|] == front;
  }

  lemma JoinLonger(parts: seq<string>, c: char)
    requires parts != []
    ensures var n := |parts| - 1; Join(parts[n := parts[n] + [c]], ",") == Join(parts, ",") + [c]
  {
    var front, p := parts[..|parts| - 1], parts[|parts| - 1];
    assert parts == front + [p] && parts[|parts| - 1 := p + [c]] == front + [p + [c]];
    JoinSnoc(front, p);
    JoinSnoc(front, p + [c]);
  }

  /** Joining undoes splitting. */
  lemma {:induction false} JoinSplit(s: string)
    ensures Join(Split(s), ",") == s
  {
    if s != "" {
      var init, last := s[..|s| - 1], s[|s| - 1];
      JoinSplit(init);
      if last == ',' {
        JoinSnoc(Split(init), "");
      } else {
        JoinLonger(Split(init), last);
      }
      hide Join;
      assert s == init + [last];
    }
  }

  /** For any coordinates two identities agree exactly when the generations and
      the pieces between the commas of the two canonical lists agree. */
  lemma IdentityAgreesIffPieces(g: nat, a: seq<Coordinate>, h: nat, b: seq<Coordinate>)
    ensures IdentityOf(g, a) == IdentityOf(h, b) <==>
            g == h && Pieces(Canonical(Map(a, NameOf()))) == Pieces(Canonical(Map(b, NameOf())))
  {
    hide Canonical;
    PiecesDecide(a);
    PiecesDecide(b);
  }

  /** The claims of an identity and their pieces decide each other. */
  lemma PiecesDecide(a: seq<Coordinate>)
    ensures var coords := Canonical(Map(a, NameOf()));
            && Pieces(coords) == (if Join(coords, ",") == "" then [] else Split(Join(coords, ",")))
            && Join(coords, ",") == Join(Pieces(coords), ",")
  {
    var coords := Canonical(Map(a, NameOf()));
    CanonicalNamesNotEmpty(a);
    JoinEmpty(coords);
    if coords != [] {
      SplitJoinPieces(coords);
      JoinSplit(Join(coords, ","));
    }
  }

  /** A coordinate's name tells it from every coordinate with a plain version
      exactly when its own version holds no '@'. */
  lemma NameTellsApartIff(version: string)
    ensures (forall catalog, d: Coordinate | '@' !in d.version && Coordinate(catalog, version).Name() == d.Name() ::
               d == Coordinate(catalog, version)) <==> '@' !in version
  {
    assert forall d: Coordinate :: d.Name() == Marked(d.catalog, '@', d.version);
    SplitsAloneIff('@', version);
    if '@' in version {
      var q, u := AnotherSplit("", '@', version);
      assert Coordinate("", version).Name() == Coordinate(q, u).Name();
    }
  }

  lemma CanonicalUnique(coords: seq<string>, list: seq<string>)
    requires Ascending(list, Itself()) && forall x :: x in coords <==> x in list
    ensures Canonical(coords) == list
  {
    CanonicalForm(coords);
    AscendingUnique(Canonical(coords), list, Itself());
  }

  // ---- which lists collide ------------------------------------------------

  /** The pieces of these names are themselves a canonical list of names. */
  ghost predicate PiecesLookLikeNames(names: seq<string>) {
    var pieces := Pieces(Canonical(names));
    Ascending(pieces, Itself()) && forall i | 0 <= i < |pieces| :: '@' in pieces[i]
  }

  lemma {:induction false} SplitNoComma(s: string)
    ensures NoComma(Split(s))
  {
    if s != "" {
      SplitNoComma(s[..|s| - 1]);
    }
  }

  lemma {:induction false} PiecesNoComma(items: seq<string>)
    ensures NoComma(Pieces(items))
    ensures NoComma(items) ==> Pieces(items) == items
  {
    if items != [] {
      var init, last := items[..|items| - 1], items[|items| - 1];
      PiecesNoComma(init);
      SplitNoComma(last);
      assert items == init + [last];
      if NoComma(items) {
        assert NoComma(init) by { assert forall i | 0 <= i < |init| :: init[i] == items[i]; }
        SplitWord(last);
      }
    }
  }

  /** A text with an '@' is the name of a coordinate. */
  lemma CoordinateOf(s: string) returns (c: Coordinate)
    requires '@' in s
    ensures c.Name() == s
  {
    var i :| 0 <= i < |s| && s[i] == '@';
    c := Coordinate(s[..i], s[i + 1..]);
  }

  lemma {:induction false} CoordinatesOf(names: seq<string>) returns (claims: seq<Coordinate>)
    requires forall i | 0 <= i < |names| :: '@' in names[i]
    ensures Map(claims, NameOf()) == names
  {
    claims := [];
    if names != [] {
      var init := CoordinatesOf(names[..|names| - 1]);
      var c := CoordinateOf(names[|names| - 1]);
      claims := init + [c];
      assert names == names[..|names| - 1] + [c.Name()];
    }
  }

  lemma NamesHoldMark(claims: seq<Coordinate>, name: string)
    requires name in Map(claims, NameOf())
    ensures '@' in name
  {
    var k :| 0 <= k < |claims| && Map(claims, NameOf())[k] == name;
    assert claims[k].Name()[|claims[k].catalog|] == '@';
  }

  lemma SomeComma(names: seq<string>)
    ensures NoComma(names) <==> forall x | x in names :: ',' !in x
  {
  }

  /** The identity of a list tells it from every list without commas exactly
      when it holds no comma itself, or its pieces are not a canonical list of
      names. */
  lemma IdentityTellsApartIff(g: nat, a: seq<Coordinate>)
    ensures (forall b | NoComma(Map(b, NameOf())) && IdentityOf(g, a) == IdentityOf(g, b) ::
               forall x :: x in Map(a, NameOf()) <==> x in Map(b, NameOf()))
            <==> NoComma(Map(a, NameOf())) || !PiecesLookLikeNames(Map(a, NameOf()))
  {
    var names := Map(a, NameOf());
    hide Canonical;
    if NoComma(names) {
      forall b | NoComma(Map(b, NameOf())) && IdentityOf(g, a) == IdentityOf(g, b)
        ensures forall x :: x in names <==> x in Map(b, NameOf())
      {
        IdentityIsCanonical(g, a, g, b);
      }
    } else if PiecesLookLikeNames(names) {
      var pieces := Pieces(Canonical(names));
      PiecesNoComma(Canonical(names));
      var b := CoordinatesOf(pieces);
      CanonicalUnique(pieces, pieces);
      PiecesNoComma(pieces);
      IdentityAgreesIffPieces(g, a, g, b);
      SomeComma(names);
      SomeComma(pieces);
      assert IdentityOf(g, a) == IdentityOf(g, b) && NoComma(Map(b, NameOf()));
    } else {
      forall b | NoComma(Map(b, NameOf())) && IdentityOf(g, a) == IdentityOf(g, b)
        ensures false
      {
        PlainPieces(g, a, b);
      }
    }
  }

  lemma PlainPieces(g: nat, a: seq<Coordinate>, b: seq<Coordinate>)
    requires NoComma(Map(b, NameOf())) && IdentityOf(g, a) == IdentityOf(g, b)
    ensures PiecesLookLikeNames(Map(a, NameOf()))
  {
    var names := Map(b, NameOf());
    IdentityAgreesIffPieces(g, a, g, b);
    CanonicalForm(names);
    SomeComma(names);
    SomeComma(Canonical(names));
    PiecesNoComma(Canonical(names));
    hide Canonical;
    forall i | 0 <= i < |Canonical(names)|
      ensures '@' in Canonical(names)[i]
    {
      assert Canonical(names)[i] in names;
      NamesHoldMark(b, Canonical(names)[i]);
    }
  }

  lemma {:induction false} JoinHolds(items: seq<string>, mark: char)
    requires items != [] && mark in items[0]
    ensures mark in Join(items, ",")
  {
    if |items| > 1 {
      JoinHolds(items[..|items| - 1], mark);
    }
  }

  /** Every list of two or more claims shares its identity with a single claim:
      the one whose version goes on after the first comma. */
  lemma CommaCollides(g: nat, a: seq<Coordinate>) returns (c: Coordinate)
    requires |Canonical(Map(a, NameOf()))| > 1
    ensures IdentityOf(g, a) == IdentityOf(g, [c]) && ',' in c.Name()
  {
    var coords := Canonical(Map(a, NameOf()));
    CanonicalForm(Map(a, NameOf()));
    assert coords[0] in coords;
    NamesHoldMark(a, coords[0]);
    JoinHolds(coords, '@');
    c := CoordinateOf(Join(coords, ","));
    var one := Map([c], NameOf());
    assert one == [c.Name()];
    hide Canonical;
    CanonicalUnique(one, one);
    var n := |Join(coords[..|coords| - 1], ",")|;
    assert Join(coords, ",")[n] == ',';
  }

  /** Any change of either input changes the directory name, as far as the
      digest tells claim lists apart. */
  lemma DirNamesDiffer(a: Identity, b: Identity, digest: string -> string)
    requires digest(a.claims) == digest(b.claims) ==> a.claims == b.claims
    requires DirName(a, digest) == DirName(b, digest)
    ensures a == b
  {
    var x := if a.claims == "" then "" else "-" + digest(a.claims);
    var y := if b.claims == "" then "" else "-" + digest(b.claims);
    assert Itoa(a.generation) + x == DirName(a, digest)[4..] && Itoa(b.generation) + y == DirName(b, digest)[4..];
    DigitsEndOnce(Itoa(a.generation), x, Itoa(b.generation), y);
    ValueOfItoa(a.generation);
    ValueOfItoa(b.generation);
    if a.claims != "" && b.claims != "" {
      assert x[1..] == digest(a.claims) && y[1..] == digest(b.claims);
    }
  }
}
