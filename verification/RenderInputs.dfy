/** The render input key and its encoding (internal/status/digests.go). */
module RenderKey {
  import opened Options
  import opened Text

  /** The digests of a render, and the ones recorded at the last apply. */
  datatype DigestSet = DigestSet(source: string, config: string, render: string, inventory: string)

  predicate IsNoOp(current: DigestSet, lastApplied: DigestSet) {
    if lastApplied.source == "" || lastApplied.config == "" || lastApplied.render == ""
        || lastApplied.inventory == "" then false
    else
      && current.source == lastApplied.source && current.config == lastApplied.config
      && current.render == lastApplied.render && current.inventory == lastApplied.inventory
  }

  /** Only four digests that are all recorded and all equal make a no-op. */
  lemma NoOpIff(current: DigestSet, lastApplied: DigestSet)
    ensures IsNoOp(current, lastApplied) <==>
              && current == lastApplied
              && lastApplied.source != "" && lastApplied.config != "" && lastApplied.render != ""
              && lastApplied.inventory != ""
  {
  }

  const ENCODING := "opm-render-inputs/v1"

  datatype Key = Key(source: string, config: string, package: string, skew: string, controller: string,
          library: string) {
    function Parts(): seq<string> {
      [source, config, package, skew, controller, library]
    }

    predicate Complete() {
      "" !in Parts()
    }
  }

  /** One part: its length in decimal, a colon, its bytes. */
  function Part(s: string): string {
    Itoa(|s|) + ":" + s
  }

  function Encode(parts: seq<string>): string {
    if parts == [] then "" else Encode(parts[..|parts| - 1]) + Part(parts[|parts| - 1])
  }

  /** The bytes the digest of a key is taken over. */
  function Preimage(k: Key): string {
    Encode([ENCODING] + k.Parts())
  }

  /** Writes the tag and the parts to the hasher, one by one; written is what it was given. */
  method Digest(k: Key, hash: string -> string) returns (digest: string, ghost written: string)
    ensures written == Preimage(k) && digest == "sha256:" + hash(Preimage(k))
  {
    var parts := [ENCODING] + k.Parts();
    var buffer := "";
    assert parts[..0] == [];
    for i := 0 to |parts|
      invariant buffer == Encode(parts[..i])
    {
      assert parts[..i + 1][..i] == parts[..i];
      buffer := buffer + Itoa(|parts[i]|) + ":" + parts[i];
      assert buffer == Encode(parts[..i]) + Part(parts[i]);
    }
    assert parts[..|parts|] == parts;
    written := buffer;
    digest := "sha256:" + hash(buffer);
  }

  // ---- decoding -----------------------------------------------------------

  /** How many digits s starts with. */
  function LeadingDigits(s: string): (n: nat)
    ensures n <= |s| && AllDigits(s[..n])
  {
    if s == "" || !IsDigit(s[0]) then 0
    else
      var n := LeadingDigits(s[1..]);
      assert s[..n + 1] == [s[0]] + s[1..][..n];
      n + 1
  }

  /** The first part of an encoding and what follows it. */
  function TakePart(s: string): (r: Option<(string, string)>)
    ensures r.Some? ==> |r.value.1| < |s|
  {
    var n := LeadingDigits(s);
    if n == |s| || s[n] != ':' then None
    else
      var size := Value(s[..n]);
      if n + 1 + size > |s| then None else Some((s[n + 1..n + 1 + size], s[n + 1 + size..]))
  }

  function Decode(s: string): Option<seq<string>>
    decreases |s|
  {
    if s == "" then Some([])
    else
      match TakePart(s)
      case None => None
      case Some((part, rest)) =>
        (match Decode(rest)
         case None => None
         case Some(parts) => Some([part] + parts))
  }

  lemma {:induction false} LeadingDigitsOf(digits: string, rest: string)
    requires AllDigits(digits) && (rest == "" || !IsDigit(rest[0]))
    ensures LeadingDigits(digits + rest) == |digits|
  {
    if digits == "" {
      assert digits + rest == rest;
    } else {
      assert (digits + rest)[1..] == digits[1..] + rest;
      LeadingDigitsOf(digits[1..], rest);
    }
  }

  lemma TakePartOf(s: string, rest: string)
    ensures TakePart(Part(s) + rest) == Some((s, rest))
  {
    var digits, all := Itoa(|s|), Part(s) + rest;
    assert all == digits + (":" + s + rest);
    LeadingDigitsOf(digits, ":" + s + rest);
    ValueOfItoa(|s|);
    var n := |digits|;
    assert all[..n] == digits && all[n] == ':';
    assert all[n + 1..n + 1 + |s|] == s && all[n + 1 + |s|..] == rest;
  }

  lemma {:induction false} EncodeFirst(parts: seq<string>)
    requires parts != []
    ensures Encode(parts) == Part(parts[0]) + Encode(parts[1..])
  {
    if |parts| == 1 {
      assert parts[..0] == [] && parts[1..] == [];
      assert Encode(parts) == Part(parts[0]);
    } else {
      var init := parts[..|parts| - 1];
      EncodeFirst(init);
      assert parts[1..][..|parts| - 2] == init[1..];
    }
  }

  /** Decoding gives back what was encoded, whatever bytes the parts hold. */
  lemma {:induction false} DecodeOfEncode(parts: seq<string>)
    ensures Decode(Encode(parts)) == Some(parts)
    decreases |parts|
  {
    if parts != [] {
      EncodeFirst(parts);
      TakePartOf(parts[0], Encode(parts[1..]));
      assert |Part(parts[0])| > 0;
      DecodeOfEncode(parts[1..]);
      assert parts == [parts[0]] + parts[1..];
    }
  }

  /** No two different keys encode alike. */
  lemma EncodingIsInjective(a: Key, b: Key)
    requires Preimage(a) == Preimage(b)
    ensures a == b
  {
    var pa, pb := [ENCODING] + a.Parts(), [ENCODING] + b.Parts();
    DecodeOfEncode(pa);
    DecodeOfEncode(pb);
    assert pa[1..] == a.Parts() && pb[1..] == b.Parts();
    assert a.source == a.Parts()[0] && a.config == a.Parts()[1] && a.package == a.Parts()[2];
    assert a.skew == a.Parts()[3] && a.controller == a.Parts()[4] && a.library == a.Parts()[5];
  }
}

/** When a reconcile may skip its render, over every history of one
    ModuleInstance (internal/reconcile/inputs.go, internal/reconcile/moduleinstance.go). */
module RenderSkip {
  import opened JsonNumbers
  import opened Options
  import opened RenderKey
  import opened Text

  /** What a render is a function of. values is the raw text of spec.values,
      package what the platform package holds. */
  datatype Inputs = Inputs(path: string, version: string, values: Option<string>,
                           package: string, skew: string, controller: string, library: string)

  datatype Rendered = Rendered(render: string, inventory: string)

  /** How the controller names inputs: json reads a text into an untyped value
      and writes that back with sorted keys, identity is the string that stands
      for a platform package in its status. */
  datatype Naming = Naming(json: string -> Option<string>, identity: string -> string)

  /** The hash and the render, both as functions of their inputs. */
  datatype World = World(hash: string -> string, naming: Naming, render: Inputs -> Rendered)

  /** No collisions, and a render's digests are never empty. */
  ghost predicate Sound(w: World) {
    && (forall a, b | w.hash(a) == w.hash(b) :: a == b)
    && (forall i :: w.render(i).render != "" && w.render(i).inventory != "")
  }

  function ModuleSourceDigest(w: World, path: string, version: string): string {
    "sha256:" + w.hash(path + "@" + version)
  }

  /** The text the config digest is taken over. */
  function ConfigText(n: Naming, values: Option<string>): string {
    match values
    case None => ""
    case Some(raw) => if raw == "" then "" else match n.json(raw) case None => raw case Some(canonical) => canonical
  }

  /** Without values the digest is that of the empty text, a text that is not
      JSON is taken as it is, and texts of one canonical form are taken alike. */
  lemma ConfigTextMeans(n: Naming, raw: string, other: string)
    ensures ConfigText(n, None) == ConfigText(n, Some("")) == ""
    ensures raw != "" && n.json(raw).None? ==> ConfigText(n, Some(raw)) == raw
    ensures raw != "" && n.json(raw).Some? ==> ConfigText(n, Some(raw)) == n.json(raw).value
    ensures raw != "" && other != "" && n.json(raw) == n.json(other) && n.json(raw).Some? ==>
              ConfigText(n, Some(raw)) == ConfigText(n, Some(other))
  {
  }

  function ConfigDigest(w: World, values: Option<string>): string {
    "sha256:" + w.hash(ConfigText(w.naming, values))
  }

  function KeyOf(w: World, i: Inputs): Key {
    Key(ModuleSourceDigest(w, i.path, i.version), ConfigDigest(w, i.values), w.naming.identity(i.package), i.skew,
        i.controller, i.library)
  }

  function KeyDigest(w: World, k: Key): string {
    "sha256:" + w.hash(Preimage(k))
  }

  function DigestsOf(w: World, i: Inputs): DigestSet {
    DigestSet(ModuleSourceDigest(w, i.path, i.version), ConfigDigest(w, i.values), w.render(i).render,
        w.render(i).inventory)
  }

  datatype Recorded = Recorded(digest: string, renderedAt: int)

  function InputsAfter(w: World, field: Option<Recorded>, key: Option<Key>, now: int): Option<Recorded> {
    match key
    case None => field
    case Some(k) => if !k.Complete() then None else Some(Recorded(KeyDigest(w, k), now))
  }

  /** status.lastAppliedInputs, written through its pointer. */
  class AppliedInputs {
    var field: Option<Recorded>

    constructor (stored: Option<Recorded>)
      ensures field == stored
    {
      field := stored;
    }

    method Record(w: World, key: Option<Key>, now: int)
      modifies this
      ensures field == InputsAfter(w, old(field), key, now)
    {
      if key.None? {
        return;
      }
      if !key.value.Complete() {
        field := None;
        return;
      }
      var digest, _ := Digest(key.value, w.hash);
      field := Some(Recorded(digest, now));
    }
  }

  /** The key a no-op records: none while the skip is disabled. */
  function NoOpInputs(interval: int, key: Option<Key>): Option<Key> {
    if interval <= 0 then None else key
  }

  datatype Ready = NotSet | Succeeded | OtherReason

  predicate MaySkip(w: World, interval: int, now: int, ready: Ready, generation: int, observed: int,
                    recorded: Option<Recorded>, key: Key)
  {
    && !(interval <= 0 || recorded.None?)
    && !(now - recorded.value.renderedAt < 0 || now - recorded.value.renderedAt >= interval)
    && ready.Succeeded?
    && generation == observed
    && key.Complete() && KeyDigest(w, key) == recorded.value.digest
  }

  // ---- histories ----------------------------------------------------------

  /** The status of the instance, and everything around it that moves.
      lastApplied are the four digests recorded at the last success. */
  datatype State = State(inputs: Inputs, generation: int, interval: int,
                         ready: Ready, observed: int, lastApplied: DigestSet, recorded: Option<Recorded>)

  datatype Outcome = Success | NoOp | Failure | Panic | Suspended

  /** Edits of the spec, the platform, the versions or the interval, and
      attempts. An attempt renders the spec it loaded against the platform
      record it leases, which can be another one than the Platform says. Its
      conditions and its other status fields reach the API server each or not. */
  datatype Step =
    | EditSpec(path: string, version: string, values: Option<string>)
    | ChangePlatform(package: string, skew: string)
    | Upgrade(controller: string, library: string)
    | SetInterval(interval: int)
    | Attempt(rendered: Inputs, outcome: Outcome, now: int, conditions: bool, fields: bool)

  const NO_DIGESTS := DigestSet("", "", "", "")

  /** A new instance: no condition, and no generation observed. */
  predicate Fresh(s: State) {
    s.ready.NotSet? && s.observed < s.generation && s.lastApplied == NO_DIGESTS && s.recorded.None?
  }

  predicate Enabled(w: World, s: State, step: Step) {
    step.Attempt? ==>
      && step.rendered == s.inputs.(package := step.rendered.package, skew := step.rendered.skew)
      && (step.outcome.NoOp? ==> IsNoOp(DigestsOf(w, step.rendered), s.lastApplied))
  }

  function Fields(w: World, s: State, step: Step): State
    requires step.Attempt?
  {
    var key := Some(KeyOf(w, step.rendered));
    match step.outcome
    case Success => s.(observed := s.generation, lastApplied := DigestsOf(w, step.rendered),
                       recorded := InputsAfter(w, s.recorded, key, step.now))
    case NoOp => s.(observed := s.generation,
        recorded := InputsAfter(w, s.recorded, NoOpInputs(s.interval, key), step.now))
    case _ => s.(observed := s.generation)
  }

  function Apply(w: World, s: State, step: Step): State
    requires Enabled(w, s, step)
  {
    match step
    case EditSpec(p, v, values) => s.(inputs := s.inputs.(path := p, version := v, values := values),
        generation := s.generation + 1)
    case ChangePlatform(p, k) => s.(inputs := s.inputs.(package := p, skew := k))
    case Upgrade(c, l) => s.(inputs := s.inputs.(controller := c, library := l))
    case SetInterval(i) => s.(interval := i)
    case Attempt(_, outcome, _, conditions, fields) =>
      var t := if fields then Fields(w, s, step) else s;
      if conditions then t.(ready := if outcome.Success? || outcome.NoOp? then Succeeded else OtherReason) else t
  }

  function Exec(w: World, start: State, steps: seq<Step>): Option<State>
    decreases |steps|
  {
    if steps == [] then Some(start)
    else
      match Exec(w, start, steps[..|steps| - 1])
      case None => None
      case Some(s) => if Enabled(w, s, steps[|steps| - 1]) then Some(Apply(w, s, steps[|steps| - 1])) else None
  }

  /** The render that confirmed the recorded key and time. */
  ghost predicate Confirms(w: World, s: State, step: Step) {
    && s.recorded.Some? && step.Attempt? && (step.outcome.Success? || step.outcome.NoOp?)
    && step.now == s.recorded.value.renderedAt
    && KeyOf(w, step.rendered).Complete() && KeyDigest(w, KeyOf(w, step.rendered)) == s.recorded.value.digest
    && IsNoOp(DigestsOf(w, step.rendered), s.lastApplied)
  }

  ghost predicate Confirmed(w: World, s: State, steps: seq<Step>) {
    s.recorded.Some? ==> exists j :: 0 <= j < |steps| && Confirms(w, s, steps[j])
  }

  lemma MatchesItself(w: World, i: Inputs)
    requires Sound(w)
    ensures IsNoOp(DigestsOf(w, i), DigestsOf(w, i))
  {
  }

  lemma StepKeepsConfirmed(w: World, s: State, steps: seq<Step>, step: Step)
    requires Sound(w) && Confirmed(w, s, steps) && Enabled(w, s, step)
    ensures Confirmed(w, Apply(w, s, step), steps + [step])
  {
    hide IsNoOp;
    hide DigestsOf;
    hide KeyOf;
    hide KeyDigest;
    var t, longer := Apply(w, s, step), steps + [step];
    if step.Attempt? { MatchesItself(w, step.rendered); }
    if t.recorded.Some? {
      if t.recorded == s.recorded && t.lastApplied == s.lastApplied {
        var j :| 0 <= j < |steps| && Confirms(w, s, steps[j]);
        assert longer[j] == steps[j];
      } else {
        assert longer[|steps|] == step && Confirms(w, t, step);
      }
    }
  }

  lemma {:induction false} RunsKeepConfirmed(w: World, start: State, steps: seq<Step>)
    requires Sound(w) && Fresh(start) && Exec(w, start, steps).Some?
    ensures Confirmed(w, Exec(w, start, steps).value, steps)
    decreases |steps|
  {
    if steps != [] {
      hide Enabled;
      hide Apply;
      var before, step := steps[..|steps| - 1], steps[|steps| - 1];
      RunsKeepConfirmed(w, start, before);
      StepKeepsConfirmed(w, Exec(w, start, before).value, before, step);
      assert before + [step] == steps;
    }
  }

  // ---- what a key tells apart ---------------------------------------------

  /** The key gives a and b the same name. */
  ghost predicate SameNames(n: Naming, a: Inputs, b: Inputs) {
    && Marked(a.path, '@', a.version) == Marked(b.path, '@', b.version)
    && ConfigText(n, a.values) == ConfigText(n, b.values)
    && n.identity(a.package) == n.identity(b.package)
    && a.skew == b.skew && a.controller == b.controller && a.library == b.library
  }

  ghost predicate Nameable(n: Naming, i: Inputs) {
    n.identity(i.package) != "" && i.skew != "" && i.controller != "" && i.library != ""
  }

  /** Two keys have one digest exactly when they give their inputs the same
      names, which for versions without an '@' means one module, and a key is
      complete exactly when every input has a name. */
  lemma KeyNamesInputs(w: World, a: Inputs, b: Inputs)
    requires Sound(w)
    ensures KeyDigest(w, KeyOf(w, a)) == KeyDigest(w, KeyOf(w, b)) <==> SameNames(w.naming, a, b)
    ensures KeyOf(w, a).Complete() <==> Nameable(w.naming, a)
    ensures SameNames(w.naming, a, b) && '@' !in a.version && '@' !in b.version ==>
              a.path == b.path && a.version == b.version
  {
    var ka, kb := KeyOf(w, a), KeyOf(w, b);
    if KeyDigest(w, ka) == KeyDigest(w, kb) {
      Unprefixed(w.hash(Preimage(ka)), w.hash(Preimage(kb)));
      EncodingIsInjective(ka, kb);
      Unprefixed(w.hash(a.path + "@" + a.version), w.hash(b.path + "@" + b.version));
      Unprefixed(w.hash(ConfigText(w.naming, a.values)), w.hash(ConfigText(w.naming, b.values)));
    }
    CompleteMeans(ka);
    if SameNames(w.naming, a, b) && '@' !in a.version && '@' !in b.version {
      SplitsAtLast(a.path, '@', a.version, b.path, b.version);
    }
  }

  lemma CompleteMeans(k: Key)
    ensures k.Complete() <==> k.source != "" && k.config != "" && k.package != "" && k.skew != ""
                              && k.controller != "" && k.library != ""
  {
    var parts := k.Parts();
    assert parts[0] == k.source && parts[1] == k.config && parts[2] == k.package;
    assert parts[3] == k.skew && parts[4] == k.controller && parts[5] == k.library;
  }

  lemma Unprefixed(a: string, b: string)
    requires "sha256:" + a == "sha256:" + b
    ensures a == b
  {
    assert ("sha256:" + a)[7..] == a && ("sha256:" + b)[7..] == b;
  }

  /** The modules, values and packages that a run may come across. */
  datatype Domain = Domain(modules: iset<(string, string)>, values: iset<Option<string>>, packages: iset<string>) {
    ghost predicate Has(i: Inputs) {
      (i.path, i.version) in modules && i.values in values && i.package in packages
    }

    ghost predicate Allows(step: Step) {
      match step
      case EditSpec(path, version, newValues) => (path, version) in modules && newValues in values
      case ChangePlatform(package, _) => package in packages
      case Attempt(rendered, _, _, _, _) => rendered.package in packages
      case _ => true
    }
  }

  ghost predicate Within(d: Domain, start: State, steps: seq<Step>) {
    && Fresh(start) && d.Has(start.inputs)
    && forall j | 0 <= j < |steps| :: d.Allows(steps[j])
  }

  /** In a domain the key names its inputs. */
  ghost predicate NamesInputs(n: Naming, d: Domain) {
    forall a, b | d.Has(a) && d.Has(b) && Nameable(n, a) && SameNames(n, a, b) :: a == b
  }

  /** In a domain the key names the render of its inputs. */
  ghost predicate NamesRender(w: World, d: Domain) {
    forall a, b | d.Has(a) && d.Has(b) && Nameable(w.naming, a) && SameNames(w.naming, a, b) ::
      w.render(a) == w.render(b)
  }

  lemma {:induction false} RunsStayWithin(w: World, d: Domain, start: State, steps: seq<Step>, j: nat)
    requires Exec(w, start, steps).Some? && Within(d, start, steps)
    ensures d.Has(Exec(w, start, steps).value.inputs)
    ensures j < |steps| && steps[j].Attempt? ==> d.Has(steps[j].rendered)
    decreases |steps|
  {
    if steps != [] {
      var before := steps[..|steps| - 1];
      assert forall k | 0 <= k < |before| :: before[k] == steps[k];
      assert d.Allows(steps[|before|]);
      RunsStayWithin(w, d, start, before, j);
    }
  }

  /** A success or a no-op rendered these inputs less than the interval ago. */
  ghost predicate RenderedLately(s: State, step: Step, now: int) {
    && step.Attempt? && (step.outcome.Success? || step.outcome.NoOp?)
    && now - s.interval < step.now <= now
  }

  /** When a reconcile may skip, a success or no-op of inputs with the same
      names was rendered less than the interval ago, and its digests match the
      last applied ones. */
  lemma SkipHasConfirmed(w: World, start: State, steps: seq<Step>, s: State, now: int) returns (j: nat)
    requires Sound(w) && Fresh(start) && Exec(w, start, steps) == Some(s)
    requires MaySkip(w, s.interval, now, s.ready, s.generation, s.observed, s.recorded, KeyOf(w, s.inputs))
    ensures j < |steps| && RenderedLately(s, steps[j], now) && IsNoOp(DigestsOf(w, steps[j].rendered), s.lastApplied)
    ensures Nameable(w.naming, s.inputs) && SameNames(w.naming, s.inputs, steps[j].rendered)
  {
    hide Exec;
    hide KeyOf;
    RunsKeepConfirmed(w, start, steps);
    j :| 0 <= j < |steps| && Confirms(w, s, steps[j]);
    KeyNamesInputs(w, s.inputs, steps[j].rendered);
  }

  /** Skip soundness: where the key names its inputs, in every state s an
      instance reaches, when a reconcile may skip, rendering the current inputs
      would give four digests that match the last applied ones, and a success
      or no-op of these very inputs was rendered less than the interval ago. */
  lemma SkipIsSound(w: World, d: Domain, start: State, steps: seq<Step>, s: State, now: int)
    requires Sound(w) && NamesInputs(w.naming, d) && Within(d, start, steps) && Exec(w, start, steps) == Some(s)
    requires MaySkip(w, s.interval, now, s.ready, s.generation, s.observed, s.recorded, KeyOf(w, s.inputs))
    ensures DigestsOf(w, s.inputs) == s.lastApplied
    ensures s.lastApplied.source != "" && s.lastApplied.config != ""
    ensures s.lastApplied.render != "" && s.lastApplied.inventory != ""
    ensures exists j :: 0 <= j < |steps| && RenderedLately(s, steps[j], now) && steps[j].rendered == s.inputs
  {
    NoOpIff(DigestsOf(w, s.inputs), s.lastApplied);
    hide Exec;
    hide MaySkip;
    var j := SkipHasConfirmed(w, start, steps, s, now);
    RunsStayWithin(w, d, start, steps, j);
    assert steps[j].rendered == s.inputs;
  }

  /** With the skip disabled a no-op leaves the record of the inputs alone;
      otherwise every stored success or no-op of named inputs renews it. */
  lemma RecordIsRenewed(w: World, s: State, step: Step)
    requires Sound(w) && Enabled(w, s, step) && step.Attempt? && step.fields
    ensures step.outcome.NoOp? && s.interval <= 0 ==> Apply(w, s, step).recorded == s.recorded
    ensures step.outcome.Failure? || step.outcome.Panic? || step.outcome.Suspended? ==>
              Apply(w, s, step).recorded == s.recorded && Apply(w, s, step).lastApplied == s.lastApplied
    ensures step.outcome.Success? || (step.outcome.NoOp? && s.interval > 0) ==>
              Apply(w, s, step).recorded ==
                  if !Nameable(w.naming, step.rendered) then None
                  else Some(Recorded(KeyDigest(w, KeyOf(w, step.rendered)), step.now))
  {
    KeyNamesInputs(w, step.rendered, step.rendered);
    hide KeyOf;
  }

  /** Edits, platform changes, upgrades and a new interval lead from any state
      to any inputs, with one more generation, and nothing else recorded. */
  lemma EventsReach(w: World, start: State, steps: seq<Step>, to: Inputs, interval: int) returns (longer: seq<Step>)
    requires Exec(w, start, steps).Some?
    ensures steps <= longer
    ensures Exec(w, start, longer) ==
              Some(Exec(w, start, steps).value.(inputs := to, interval := interval,
                       generation := Exec(w, start, steps).value.generation + 1))
  {
    longer := Extend(w, start, steps, EditSpec(to.path, to.version, to.values));
    longer := Extend(w, start, longer, ChangePlatform(to.package, to.skew));
    longer := Extend(w, start, longer, Upgrade(to.controller, to.library));
    longer := Extend(w, start, longer, SetInterval(interval));
  }

  /** A reconcile renders against whatever platform record it leases, with any
      outcome but a no-op, which needs matching digests. */
  lemma AttemptsRender(w: World, s: State, package: string, skew: string, outcome: Outcome, now: int)
    ensures var rendered := s.inputs.(package := package, skew := skew);
            Enabled(w, s, Attempt(rendered, outcome, now, true, true)) <==>
                outcome.NoOp? ==> IsNoOp(DigestsOf(w, rendered), s.lastApplied)
  {
  }

  /** Unchanged inputs are skipped: right after a success or a no-op whose
      conditions and fields were stored, a reconcile of the same inputs may skip
      for as long as the interval lasts. */
  lemma UnchangedInputsSkip(w: World, s: State, step: Step, now: int)
    requires Sound(w) && Enabled(w, s, step) && step.Attempt? && step.rendered == s.inputs
    requires (step.outcome.Success? || step.outcome.NoOp?) && step.conditions && step.fields
    requires Nameable(w.naming, s.inputs) && 0 <= now - step.now < s.interval
    ensures var t := Apply(w, s, step);
            MaySkip(w, t.interval, now, t.ready, t.generation, t.observed, t.recorded, KeyOf(w, t.inputs))
  {
    KeyNamesInputs(w, s.inputs, s.inputs);
    hide KeyOf;
  }

  /** Attempt j succeeded or changed nothing, and no later attempt's conditions were stored. */
  ghost predicate LastStored(steps: seq<Step>, j: nat) {
    && j < |steps| && steps[j].Attempt? && steps[j].conditions && (steps[j].outcome.Success? || steps[j].outcome.NoOp?)
    && forall k | j < k < |steps| && steps[k].Attempt? :: !steps[k].conditions
  }

  /** The spec was not edited since attempt j, whose fields were stored. */
  ghost predicate SpecObserved(steps: seq<Step>, j: nat) {
    j < |steps| && steps[j].Attempt? && steps[j].fields && forall k | j < k < |steps| :: !steps[k].EditSpec?
  }

  lemma {:induction false} RunsTrackStatus(w: World, start: State, steps: seq<Step>)
    requires Fresh(start) && Exec(w, start, steps).Some?
    ensures var s := Exec(w, start, steps).value;
            && s.observed <= s.generation
            && (s.ready.Succeeded? ==> exists j :: LastStored(steps, j))
            && (s.observed == s.generation ==> exists j :: SpecObserved(steps, j))
    decreases |steps|
  {
    if steps != [] {
      var before, n := steps[..|steps| - 1], |steps| - 1;
      RunsTrackStatus(w, start, before);
      var s, t := Exec(w, start, before).value, Exec(w, start, steps).value;
      assert forall k | 0 <= k < n :: before[k] == steps[k];
      if t.ready.Succeeded? {
        if steps[n].Attempt? && steps[n].conditions {
          assert LastStored(steps, n);
        } else {
          var j: nat :| LastStored(before, j);
          assert LastStored(steps, j);
        }
      }
      if t.observed == t.generation {
        if steps[n].Attempt? && steps[n].fields {
          assert SpecObserved(steps, n);
        } else {
          var j: nat :| SpecObserved(before, j);
          assert SpecObserved(steps, j);
        }
      }
    }
  }

  /** A skip hides no failure and no edit: the last attempt whose conditions
      were stored succeeded or changed nothing, and an attempt was recorded
      since the last edit of the spec, also of its parts outside the key. */
  lemma SkipHidesNoFailureAndNoEdit(w: World, start: State, steps: seq<Step>, s: State, now: int)
    requires Fresh(start) && Exec(w, start, steps) == Some(s)
    requires MaySkip(w, s.interval, now, s.ready, s.generation, s.observed, s.recorded, KeyOf(w, s.inputs))
    ensures exists j :: LastStored(steps, j)
    ensures exists j :: SpecObserved(steps, j)
  {
    hide Exec;
    RunsTrackStatus(w, start, steps);
  }

  lemma Extend(w: World, start: State, steps: seq<Step>, step: Step) returns (longer: seq<Step>)
    requires Exec(w, start, steps).Some? && Enabled(w, Exec(w, start, steps).value, step)
    ensures Exec(w, start, longer) == Some(Apply(w, Exec(w, start, steps).value, step)) && longer == steps + [step]
  {
    longer := steps + [step];
    assert longer[..|steps|] == steps;
  }

  /** A source digest tells its module from every module of a plain version
      exactly when its own version holds no '@'. */
  lemma SourceDigestTellsApartIff(w: World, version: string)
    requires Sound(w)
    ensures (forall p, q, u | '@' !in u && ModuleSourceDigest(w, p, version) == ModuleSourceDigest(w, q, u) ::
               p == q && version == u) <==> '@' !in version
  {
    forall p, q, u
      ensures ModuleSourceDigest(w, p, version) == ModuleSourceDigest(w, q, u) <==>
                Marked(p, '@', version) == Marked(q, '@', u)
    {
      if ModuleSourceDigest(w, p, version) == ModuleSourceDigest(w, q, u) {
        Unprefixed(w.hash(p + "@" + version), w.hash(q + "@" + u));
      }
    }
    SplitsAloneIff('@', version);
    if '@' in version {
      var q, u := AnotherSplit("", '@', version);
      assert ModuleSourceDigest(w, "", version) == ModuleSourceDigest(w, q, u);
    }
  }

  ghost predicate SkipHides(w: World, s: State, now: int) {
    && MaySkip(w, s.interval, now, s.ready, s.generation, s.observed, s.recorded, KeyOf(w, s.inputs))
    && !IsNoOp(DigestsOf(w, s.inputs), s.lastApplied)
  }

  /** Some reachable state of a run in the domain has a skip that hides a render. */
  ghost predicate SomeSkipHides(w: World, d: Domain) {
    exists start, steps, now ::
      Within(d, start, steps) && Exec(w, start, steps).Some? && SkipHides(w, Exec(w, start, steps).value, now)
  }

  /** A skip can hide the render of any inputs that share their names with
      others: those were applied, then spec and platform moved, and of the
      failed attempt that followed only the status fields were stored. */
  lemma SharedNamesBreakSkip(w: World, d: Domain, a: Inputs, b: Inputs)
    requires Sound(w) && d.Has(a) && d.Has(b) && w.render(a) != w.render(b)
    requires Nameable(w.naming, a) && SameNames(w.naming, a, b)
    ensures SomeSkipHides(w, d)
  {
    KeyNamesInputs(w, a, b);
    assert KeyOf(w, a) == KeyOf(w, b);
    var start := State(a, 1, 10, NotSet, 0, NO_DIGESTS, None);
    assert Exec(w, start, []) == Some(start);
    var steps := Extend(w, start, [], Attempt(a, Success, 0, true, true));
    assert Exec(w, start, steps).value == start.(ready := Succeeded, observed := 1, lastApplied := DigestsOf(w, a),
                                                 recorded := Some(Recorded(KeyDigest(w, KeyOf(w, a)), 0)));
    hide Exec;
    steps := Extend(w, start, steps, EditSpec(b.path, b.version, b.values));
    steps := Extend(w, start, steps, ChangePlatform(b.package, b.skew));
    assert Exec(w, start, steps).value.inputs == b;
    steps := Extend(w, start, steps, Attempt(b, Failure, 1, false, true));
    assert SkipHides(w, Exec(w, start, steps).value, 2);
    assert Within(d, start, steps);
  }

  lemma NoSkipHides(w: World, d: Domain, start: State, steps: seq<Step>, s: State, now: int)
    requires Sound(w) && NamesRender(w, d) && Within(d, start, steps) && Exec(w, start, steps) == Some(s)
    ensures !SkipHides(w, s, now)
  {
    hide Exec;
    hide MaySkip;
    if MaySkip(w, s.interval, now, s.ready, s.generation, s.observed, s.recorded, KeyOf(w, s.inputs)) {
      var j := SkipHasConfirmed(w, start, steps, s, now);
      RunsStayWithin(w, d, start, steps, j);
      assert w.render(s.inputs) == w.render(steps[j].rendered);
      assert DigestsOf(w, s.inputs) == DigestsOf(w, steps[j].rendered);
    }
  }

  /** In one world skips are sound in every run of a domain exactly when
      inputs of one key render alike. */
  lemma SkipIsSoundInWorldIff(w: World, d: Domain)
    requires Sound(w)
    ensures !SomeSkipHides(w, d) <==> NamesRender(w, d)
  {
    if NamesRender(w, d) {
      if start: State, steps: seq<Step>, now: int :|
        Within(d, start, steps) && Exec(w, start, steps).Some? && SkipHides(w, Exec(w, start, steps).value, now) {
        NoSkipHides(w, d, start, steps, Exec(w, start, steps).value, now);
      }
    } else {
      var a, b :| d.Has(a) && d.Has(b) && Nameable(w.naming, a) && SameNames(w.naming, a, b)
            && w.render(a) != w.render(b);
      SharedNamesBreakSkip(w, d, a, b);
    }
  }

  /** A world without collisions whose render of some inputs is like no other. */
  function TellingWorld(n: Naming, some: Inputs): World {
    World(s => s, n, (i: Inputs) => Rendered(if i == some then "its render" else "another", "inventory"))
  }

  /** Whatever modules render to, skips are sound in every run of a domain
      exactly when the key names its inputs there. */
  lemma SkipIsSoundInDomainIff(n: Naming, d: Domain)
    ensures (forall w | Sound(w) && w.naming == n :: !SomeSkipHides(w, d)) <==> NamesInputs(n, d)
  {
    hide SomeSkipHides;
    if NamesInputs(n, d) {
      forall w | Sound(w) && w.naming == n
        ensures !SomeSkipHides(w, d)
      {
        SkipIsSoundInWorldIff(w, d);
      }
    } else {
      var a, b :| d.Has(a) && d.Has(b) && Nameable(n, a) && SameNames(n, a, b) && a != b;
      var w := TellingWorld(n, a);
      assert w.render(a).render[0] != w.render(b).render[0];
      SharedNamesBreakSkip(w, d, a, b);
      assert Sound(w) && w.naming == n;
    }
  }

  /** The modules of one version and of every version without an '@'. */
  ghost function Through(version: string): iset<(string, string)> {
    iset m: (string, string) | m.1 == version || '@' !in m.1
  }

  ghost predicate ToldApart(n: Naming, values: iset<Option<string>>) {
    forall x, y | x in values && y in values && ConfigText(n, x) == ConfigText(n, y) :: x == y
  }

  ghost predicate Identified(n: Naming, packages: iset<string>) {
    forall p, q | p in packages && q in packages && n.identity(p) != "" && n.identity(p) == n.identity(q) :: p == q
  }

  /** Skips are sound in every sound world and every run through a version,
      with given values and packages, exactly when the version holds no '@',
      no two of the values have one canonical form, and no two of the packages
      one identity. */
  lemma SkipIsSoundIff(n: Naming, version: string, values: iset<Option<string>>, packages: iset<string>)
    requires (exists x :: x in values) && exists p :: p in packages && n.identity(p) != ""
    ensures (forall w | Sound(w) && w.naming == n :: !SomeSkipHides(w, Domain(Through(version), values, packages)))
            <==> '@' !in version && ToldApart(n, values) && Identified(n, packages)
  {
    var d := Domain(Through(version), values, packages);
    SkipIsSoundInDomainIff(n, d);
    SplitsAloneIff('@', version);
    hide SomeSkipHides;
    var x :| x in values;
    var p :| p in packages && n.identity(p) != "";
    var a := Inputs("m", version, x, p, "s", "c", "l");
    if '@' in version {
      var q, u := AnotherSplit("m", '@', version);
      assert SameNames(n, a, a.(path := q, version := u));
    } else if y, z :| y in values && z in values && ConfigText(n, y) == ConfigText(n, z) && y != z {
      assert SameNames(n, a.(values := y), a.(values := z));
    } else if q, r :| q in packages && r in packages && n.identity(q) != "" && n.identity(q) == n.identity(r)
                     && q != r {
      assert SameNames(n, a.(package := q), a.(package := r));
    } else {
      forall b, c | d.Has(b) && d.Has(c) && Nameable(n, b) && SameNames(n, b, c)
        ensures b == c
      {
        SplitsAtLast(b.path, '@', b.version, c.path, c.version);
      }
    }
  }

  /** spec.values of one integer of at most this size. */
  ghost function IntegerValues(bound: nat): iset<Option<string>> {
    iset n: int | IsInt64(n) && Size(n) <= bound :: Some(Document(n))
  }

  /** Numbers are read as floats, so with integers as values skips are sound
      exactly up to 2^53. */
  lemma SkipIsSoundForIntegersIff(n: Naming, version: string, bound: nat, packages: iset<string>)
    requires RoundsNumbers(n.json) && Identified(n, packages) && exists p :: p in packages && n.identity(p) != ""
    ensures (forall w | Sound(w) && w.naming == n ::
               !SomeSkipHides(w, Domain(Through(version), IntegerValues(bound), packages)))
            <==> '@' !in version && bound <= MANTISSA
  {
    hide SomeSkipHides;
    hide ToldApart;
    hide RoundsNumbers;
    var values := IntegerValues(bound);
    assert Some(Document(0)) in values;
    SkipIsSoundIff(n, version, values, packages);
    IntegersNamedIff(n, bound);
  }

  lemma IntegersNamedIff(n: Naming, bound: nat)
    requires RoundsNumbers(n.json)
    ensures ToldApart(n, IntegerValues(bound)) <==> bound <= MANTISSA
  {
    IntegersToldApartIff(n.json, bound);
    forall k, m | IsInt64(k) && IsInt64(m)
      ensures ConfigText(n, Some(Document(k))) == ConfigText(n, Some(Document(m))) <==>
                n.json(Document(k)) == n.json(Document(m))
      ensures Document(k) == Document(m) ==> k == m
    {
      WrittenAlike(n, k, m);
    }
    hide NearestInt;
    hide Document;
    hide ConfigText;
    hide RoundsNumbers;
  }

  lemma WrittenAlike(n: Naming, k: int, m: int)
    requires RoundsNumbers(n.json) && IsInt64(k) && IsInt64(m)
    ensures ConfigText(n, Some(Document(k))) == ConfigText(n, Some(Document(m))) <==>
              n.json(Document(k)) == n.json(Document(m))
    ensures Document(k) == Document(m) ==> k == m
  {
    assert n.json(Document(k)).Some? && n.json(Document(m)).Some?;
    hide NearestInt;
    hide RoundsNumbers;
    if Document(k) == Document(m) { DocumentsDiffer(k, m); }
  }

  /** For every version with an '@': two modules of one source digest. */
  lemma AtSignBreaksSkip(w: World, d: Domain, a: Inputs, b: Inputs)
    requires Sound(w) && d.Has(a) && d.Has(b) && KeyOf(w, a).Complete() && w.render(a) != w.render(b)
    requires '@' !in b.version && Marked(a.path, '@', a.version) == Marked(b.path, '@', b.version)
    requires b == a.(path := b.path, version := b.version)
    ensures SomeSkipHides(w, d)
  {
    KeyNamesInputs(w, a, b);
    SharedNamesBreakSkip(w, d, a, b);
  }

  /** The first integers that share a config digest are 2^53 and the next one:
      whenever they render differently, at any module and version, a skip can
      hide one of the renders. */
  lemma LargeIntegersBreakSkip(w: World, d: Domain, a: Inputs)
    requires Sound(w) && RoundsNumbers(w.naming.json) && KeyOf(w, a).Complete()
    requires var x, y := Some(Document(MANTISSA)), Some(Document(MANTISSA + 1));
             d.Has(a.(values := x)) && d.Has(a.(values := y)) && w.render(a.(values := x)) != w.render(a.(values := y))
    ensures SomeSkipHides(w, d)
  {
    var b, c := a.(values := Some(Document(MANTISSA))), a.(values := Some(Document(MANTISSA + 1)));
    KeyNamesInputs(w, a, a);
    FirstLost();
    WrittenAlike(w.naming, MANTISSA, MANTISSA + 1);
    hide Document;
    hide NearestInt;
    hide KeyOf;
    hide ConfigText;
    hide SomeSkipHides;
    hide Sound;
    assert SameNames(w.naming, b, c);
    SharedNamesBreakSkip(w, d, b, c);
  }
}
