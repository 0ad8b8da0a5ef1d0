/** `detect/merge.rs`: `suppress`, which takes generated parts out of a profile and never the config's. */
module Suppress {
  import opened Text
  import opened Templates
  import opened Schema
  import opened Profiles
  import opened Overlay

  datatype Warning =
    | NothingDetected(who: string, path: string)
    | UnknownPath(who: string, path: string)
    | CompanionNeeds(who: string, path: string)
    | AlreadyMerged(name: string, detected: string, into: string)
    | Unmatched(name: string)

  /** The profile and the suppress path a warning is about. */
  function About(w: Warning): Option<(string, string)> {
    match w
    case NothingDetected(who, path) => Some((who, path))
    case UnknownPath(who, path) => Some((who, path))
    case CompanionNeeds(who, path) => Some((who, path))
    case _ => None
  }

  function WholePart(path: string): (key: Option<Key>)
    ensures key.Some? ==> !key.value.KDefault? && !key.value.KWidget?
  {
    match path
    case "companion" => Some(KCompanion)
    case "label" => Some(KLabel)
    case "show" => Some(KShow)
    case "search_attrs" => Some(KSearchAttrs)
    case _ => None
  }

  /** The parts a path stands for; attribute names match in any case. */
  predicate PathNames(path: string, key: Key) {
    match key
    case KDefault(a) => WholePart(path) == None && NamesAttr(path, "defaults", a)
    case KWidget(a) => WholePart(path) == None && NamesAttr(path, "widget", a)
    case _ => WholePart(path) == Some(key)
  }

  predicate NamesAttr(path: string, head: string, attr: string) {
    SplitOnce(path, '.').Some? && SplitOnce(path, '.').value.0 == head && EqCi(attr, SplitOnce(path, '.').value.1)
  }

  function Removed(p: EntryProfile, key: Key): EntryProfile {
    match key
    case KDefault(a) => p.(defaults := p.defaults - {a})
    case KWidget(a) => p.(widgets := p.widgets - {a})
    case KCompanion => p.(companion := None)
    case KLabel => p.(template := None)
    case KShow => p.(show := [])
    case KSearchAttrs => p.(searchAttrs := [])
    case _ => p
  }

  predicate Removable(f: Fields, key: Key) {
    key in f && f[key].Generated()
  }

  /** One generated part is gone, with its record, and nothing else has changed. */
  ghost predicate PartGone(path: string, p: EntryProfile, f: Fields, q: EntryProfile, g: Fields) {
    exists key: Key :: PathNames(path, key) && Removable(f, key) && q == Removed(p, key) && g == f - {key}
  }

  /** One attribute of a generated companion is gone: neither its RDN attribute nor one its classes require. */
  ghost predicate CompanionAttrGone(s: SchemaModel, path: string, p: EntryProfile, f: Fields, q: EntryProfile,
                                    g: Fields)
    requires s.Valid()
  {
    Removable(f, KCompanion) && p.companion.Some? && g == f
    && exists a :: a in p.companion.value.attributes && NamesAttr(path, "companion", a)
         && !EqCi(a, p.companion.value.rdnAttr) && !Required(s, p.companion.value, a)
         && q == p.(companion := Some(WithoutAttr(p.companion.value, a)))
  }

  /** The path names an attribute of a generated companion that it can do without. */
  ghost predicate CompanionAttrFree(s: SchemaModel, path: string, p: EntryProfile, f: Fields)
    requires s.Valid()
  {
    Removable(f, KCompanion) && p.companion.Some?
    && exists a :: a in p.companion.value.attributes && NamesAttr(path, "companion", a)
         && !EqCi(a, p.companion.value.rdnAttr) && !Required(s, p.companion.value, a)
  }

  /** A path to a whole part has no dot in it. */
  lemma WholePartHasNoDot(path: string)
    ensures WholePart(path).Some? ==> SplitOnce(path, '.') == None
  {
    if WholePart(path).Some? {
      assert '.' !in path;
      BeforeUnchanged(path, '.');
    }
  }

  function WithoutAttr(c: Companion, a: string): Companion {
    c.(attributes := c.attributes - {a})
  }

  ghost predicate Required(s: SchemaModel, c: Companion, a: string)
    requires s.Valid()
  {
    exists m :: s.Must(c.objectClasses, m) && EqCi(m, a)
  }

  /** What every step after the overlay keeps. */
  ghost predicate Steady(p: EntryProfile, f: Fields, q: EntryProfile, g: Fields) {
    Keeps(p, f, q, g) && (Exact(p, f) ==> Exact(q, g)) && (RangesGenerated(p, f) ==> RangesGenerated(q, g))
    && q.name == p.name
  }

  lemma SteadyTwice(p: EntryProfile, f: Fields, q: EntryProfile, g: Fields, r: EntryProfile, h: Fields)
    requires Steady(p, f, q, g) && Steady(q, g, r, h)
    ensures Steady(p, f, r, h)
  {
    KeepsTwice(p, f, q, g, r, h);
  }

  lemma RemovedAt(p: EntryProfile, key: Key, k: Key)
    ensures PartOf(Removed(p, key), k) ==
              if k != key then PartOf(p, k)
              else if key.Tracked() then None
              else if key.KShow? || key.KSearchAttrs? then Some(Names([]))
              else PartOf(p, k)
  {
  }

  lemma RemovalSteady(p: EntryProfile, f: Fields, key: Key)
    requires Removable(f, key)
    ensures Steady(p, f, Removed(p, key), f - {key})
  {
    var q, g := Removed(p, key), f - {key};
    forall k | Firm(f, k) && PartOf(p, k).Some? ensures PartOf(q, k) == PartOf(p, k) && Firm(g, k) {
      RemovedAt(p, key, k);
    }
    if Exact(p, f) {
      forall k: Key | k.Tracked() ensures k in g <==> PartOf(q, k).Some? {
        RemovedAt(p, key, k);
        assert k in f <==> PartOf(p, k).Some?;
      }
    }
    if RangesGenerated(p, f) {
      RemovedRanges(p, f, key);
    }
  }

  lemma RemovedRanges(p: EntryProfile, f: Fields, key: Key)
    requires RangesGenerated(p, f)
    ensures RangesGenerated(Removed(p, key), f - {key})
  {
    var q := Removed(p, key);
    assert forall a :: a in q.defaults ==> a in p.defaults && key != KDefault(a) && q.defaults[a] == p.defaults[a];
  }

  lemma CompanionSteady(s: SchemaModel, path: string, p: EntryProfile, f: Fields, q: EntryProfile, g: Fields)
    requires s.Valid() && CompanionAttrGone(s, path, p, f, q, g)
    ensures Steady(p, f, q, g)
  {
    var c := q.companion;
    forall k: Key ensures k != KCompanion ==> PartOf(p.(companion := c), k) == PartOf(p, k) {
      SetCompanionAt(p, c, k);
    }
    if Exact(p, f) {
      forall k: Key | k.Tracked() ensures k in g <==> PartOf(q, k).Some? {
        SetCompanionAt(p, c, k);
        assert k in f <==> PartOf(p, k).Some?;
      }
    }
  }

  lemma SetCompanionAt(p: EntryProfile, c: Option<Companion>, k: Key)
    ensures k != KCompanion ==> PartOf(p.(companion := c), k) == PartOf(p, k)
  {
  }

  // ---------------------------------------------------------------- what becomes of each part

  predicate NamedInCompanion(taken: seq<string>, attr: string) {
    exists path :: path in taken && NamesAttr(path, "companion", attr)
  }

  /** A companion that lost nothing but attributes named by paths taken, and not its RDN attribute. */
  ghost predicate Thinner(taken: seq<string>, a: Companion, b: Companion) {
    && b == a.(attributes := b.attributes)
    && (forall x {:trigger x in b.attributes} :: x in b.attributes ==>
          x in a.attributes && b.attributes[x] == a.attributes[x])
    && forall x {:trigger x in b.attributes} :: x in a.attributes && x !in b.attributes ==>
         NamedInCompanion(taken, x) && !EqCi(x, a.rdnAttr)
  }

  /** A part that is still there is as it was, but a range may have joined a shared number space, and a generated
      companion may have lost attributes. */
  ghost predicate Stays(taken: seq<string>, src: Option<Source>, a: Part, b: Part) {
    || b == a
    || (a.ADefault? && a.value.DetectedRange? && b == ADefault(DetectedRange(a.value.spec.(unified := true))))
    || (a.ACompanion? && b.ACompanion? && src.Some? && src.value.Generated()
        && Thinner(taken, a.companion, b.companion))
  }

  /** What a part leaves when it is taken out. */
  function Blank(key: Key): Option<Part> {
    match key case KShow => Some(Names([])) case KSearchAttrs => Some(Names([])) case _ => None
  }

  /** The parts that rule D may fill in. */
  predicate Fillable(key: Key) {
    key == KCompanion || key == KDefault("uidNumber") || key == KDefault("gidNumber")
  }

  predicate NamedBy(taken: seq<string>, key: Key) {
    exists path :: path in taken && PathNames(path, key)
  }

  /** A part stays with its record, unless it was generated and one of the paths taken names it;
      where there is none, one may be assumed. */
  ghost predicate Trailed(taken: seq<string>, key: Key, a: Option<Part>, src: Option<Source>,
                          b: Option<Part>, src1: Option<Source>) {
    || (a.Some? && b.Some? && src1 == src && Stays(taken, src, a.value, b.value))
    || ((a == None || (src.Some? && src.value.Generated() && NamedBy(taken, key)))
        && if src1 == None then b == Blank(key) else src1.value.Assumed? && Fillable(key))
  }

  /** From `(p, f)` to `(q, g)` nothing happened but removals by the paths taken, and what rule D does. */
  ghost predicate Trail(taken: seq<string>, p: EntryProfile, f: Fields, q: EntryProfile, g: Fields) {
    && q.name == p.name && q.boundary == p.boundary
    && forall key: Key {:trigger PartOf(q, key)} {:trigger key in g} ::
         Trailed(taken, key, PartOf(p, key), SourceAt(f, key), PartOf(q, key), SourceAt(g, key))
  }

  lemma TrailSelf(taken: seq<string>, p: EntryProfile, f: Fields)
    requires Exact(p, f)
    ensures Trail(taken, p, f, p, f)
  {
    forall key: Key ensures Trailed(taken, key, PartOf(p, key), SourceAt(f, key), PartOf(p, key), SourceAt(f, key)) {
      assert key.Tracked() ==> (key in f <==> PartOf(p, key).Some?);
    }
  }

  lemma TrailedMore(taken: seq<string>, more: seq<string>, key: Key, a: Option<Part>, src: Option<Source>,
                    b: Option<Part>, src1: Option<Source>)
    requires Trailed(taken, key, a, src, b, src1) && forall path :: path in taken ==> path in more
    ensures Trailed(more, key, a, src, b, src1)
  {
  }

  lemma TrailMore(taken: seq<string>, more: seq<string>, p: EntryProfile, f: Fields, q: EntryProfile, g: Fields)
    requires Trail(taken, p, f, q, g) && forall path :: path in taken ==> path in more
    ensures Trail(more, p, f, q, g)
  {
    forall key: Key ensures Trailed(more, key, PartOf(p, key), SourceAt(f, key), PartOf(q, key), SourceAt(g, key)) {
      assert Trailed(taken, key, PartOf(p, key), SourceAt(f, key), PartOf(q, key), SourceAt(g, key)) by {
        assert PartOf(q, key) == PartOf(q, key);
      }
      TrailedMore(taken, more, key, PartOf(p, key), SourceAt(f, key), PartOf(q, key), SourceAt(g, key));
    }
  }

  lemma StaysTwice(taken: seq<string>, src: Option<Source>, a: Part, b: Part, c: Part)
    requires Stays(taken, src, a, b) && Stays(taken, src, b, c)
    ensures Stays(taken, src, a, c)
  {
    if a.ACompanion? && b != a && c != b {
      assert Thinner(taken, a.companion, b.companion) && Thinner(taken, b.companion, c.companion);
      assert forall x :: x in a.companion.attributes && x !in c.companion.attributes ==>
          x !in b.companion.attributes || x in b.companion.attributes;
    }
  }

  lemma TrailedTwice(taken: seq<string>, key: Key, a: Option<Part>, src: Option<Source>, b: Option<Part>,
                     src1: Option<Source>, c: Option<Part>, src2: Option<Source>)
    requires Trailed(taken, key, a, src, b, src1) && Trailed(taken, key, b, src1, c, src2)
    ensures Trailed(taken, key, a, src, c, src2)
  {
    if a.Some? && b.Some? && c.Some? && src == src1 == src2
       && Stays(taken, src, a.value, b.value) && Stays(taken, src, b.value, c.value) {
      StaysTwice(taken, src, a.value, b.value, c.value);
    }
  }

  lemma TrailTwice(taken: seq<string>, p: EntryProfile, f: Fields, q: EntryProfile, g: Fields,
                   r: EntryProfile, h: Fields)
    requires Trail(taken, p, f, q, g) && Trail(taken, q, g, r, h)
    ensures Trail(taken, p, f, r, h)
  {
    forall key: Key ensures Trailed(taken, key, PartOf(p, key), SourceAt(f, key), PartOf(r, key), SourceAt(h, key)) {
      assert Trailed(taken, key, PartOf(p, key), SourceAt(f, key), PartOf(q, key), SourceAt(g, key)) by {
        assert PartOf(q, key) == PartOf(q, key);
      }
      assert Trailed(taken, key, PartOf(q, key), SourceAt(g, key), PartOf(r, key), SourceAt(h, key)) by {
        assert PartOf(r, key) == PartOf(r, key);
      }
      TrailedTwice(taken, key, PartOf(p, key), SourceAt(f, key), PartOf(q, key), SourceAt(g, key),
                   PartOf(r, key), SourceAt(h, key));
    }
  }

  lemma PartGoneTrail(taken: seq<string>, path: string, p: EntryProfile, f: Fields, q: EntryProfile, g: Fields)
    requires Exact(p, f) && path in taken && PartGone(path, p, f, q, g)
    ensures Trail(taken, p, f, q, g)
  {
    var gone: Key :| PathNames(path, gone) && Removable(f, gone) && q == Removed(p, gone) && g == f - {gone};
    forall key: Key ensures Trailed(taken, key, PartOf(p, key), SourceAt(f, key), PartOf(q, key), SourceAt(g, key)) {
      RemovedAt(p, gone, key);
      assert key.Tracked() ==> (key in f <==> PartOf(p, key).Some?);
    }
  }

  lemma CompanionAttrGoneTrail(s: SchemaModel, taken: seq<string>, path: string, p: EntryProfile, f: Fields,
                               q: EntryProfile, g: Fields)
    requires s.Valid() && Exact(p, f) && path in taken && CompanionAttrGone(s, path, p, f, q, g)
    ensures Trail(taken, p, f, q, g)
  {
    ThinnerByOne(s, taken, path, p, f, q, g);
    forall key: Key ensures Trailed(taken, key, PartOf(p, key), SourceAt(f, key), PartOf(q, key), SourceAt(g, key)) {
      SetCompanionAt(p, q.companion, key);
      assert key.Tracked() ==> (key in f <==> PartOf(p, key).Some?);
    }
  }

  lemma ThinnerByOne(s: SchemaModel, taken: seq<string>, path: string, p: EntryProfile, f: Fields,
                     q: EntryProfile, g: Fields)
    requires s.Valid() && path in taken && CompanionAttrGone(s, path, p, f, q, g)
    ensures q.companion.Some? && Thinner(taken, p.companion.value, q.companion.value)
    ensures q == p.(companion := q.companion)
  {
    var a :| a in p.companion.value.attributes && NamesAttr(path, "companion", a)
             && !EqCi(a, p.companion.value.rdnAttr) && !Required(s, p.companion.value, a)
             && q == p.(companion := Some(WithoutAttr(p.companion.value, a)));
    assert NamedInCompanion(taken, a);
  }

  /** One more path taken. */
  lemma TrailNext(s: SchemaModel, taken: seq<string>, path: string, p: EntryProfile, f: Fields,
                  q: EntryProfile, g: Fields, r: EntryProfile, h: Fields)
    requires s.Valid() && Trail(taken, p, f, q, g) && Exact(q, g)
    requires PartGone(path, q, g, r, h) || CompanionAttrGone(s, path, q, g, r, h)
    ensures Trail(taken + [path], p, f, r, h)
  {
    var more := taken + [path];
    TrailMore(taken, more, p, f, q, g);
    if PartGone(path, q, g, r, h) {
      PartGoneTrail(more, path, q, g, r, h);
    } else {
      CompanionAttrGoneTrail(s, more, path, q, g, r, h);
    }
    TrailTwice(more, p, f, q, g, r, h);
  }

  /** `suppress_companion_attr`. */
  method SuppressCompanionAttr(s: SchemaModel, p: EntryProfile, f: Fields, path: string)
    returns (q: EntryProfile, w: Option<Warning>)
    requires s.Valid() && SplitOnce(path, '.').Some? && SplitOnce(path, '.').value.0 == "companion"
    ensures w.Some? ==> q == p && About(w.value) == Some((p.name, path))
    ensures w == None ==> CompanionAttrGone(s, path, p, f, q, f)
    ensures w == None <==> CompanionAttrFree(s, path, p, f)
  {
    var attr := SplitOnce(path, '.').value.1;
    q := p;
    if p.companion == None || !Removable(f, KCompanion) {
      return q, Some(NothingDetected(p.name, path));
    }
    var c := p.companion.value;
    if k :| k in c.attributes && EqCi(k, attr) {
      var must, _ := EffectiveAttributes(s, c.objectClasses);
      if EqCi(k, c.rdnAttr) || exists m :: m in must && EqCi(m, k) {
        return q, Some(CompanionNeeds(p.name, path));
      }
      q := p.(companion := Some(WithoutAttr(c, k)));
      w := None;
    } else {
      w := Some(NothingDetected(p.name, path));
    }
  }

  /** The part of `p` that a path stands for; with one spelling per attribute there is at most one. */
  method FindPart(p: EntryProfile, path: string) returns (r: Result<Key, Warning>)
    ensures r.Ok? ==> PathNames(path, r.value)
    ensures r.Ok? && OneSpelling(p.defaults.Keys) && OneSpelling(p.widgets.Keys) ==>
              forall key :: PathNames(path, key) && PartOf(p, key).Some? ==> key == r.value
    ensures r.Err? ==> About(r.error) == Some((p.name, path))
    ensures r.Err? ==> forall key :: PathNames(path, key) ==> PartOf(p, key) == None
  {
    if WholePart(path).Some? {
      return Ok(WholePart(path).value);
    }
    var split := SplitOnce(path, '.');
    if split.Some? && split.value.0 == "defaults" {
      if k :| k in p.defaults && EqCi(k, split.value.1) {
        return Ok(KDefault(k));
      }
      return Err(NothingDetected(p.name, path));
    }
    if split.Some? && split.value.0 == "widget" {
      if k :| k in p.widgets && EqCi(k, split.value.1) {
        return Ok(KWidget(k));
      }
      return Err(NothingDetected(p.name, path));
    }
    r := Err(UnknownPath(p.name, path));
  }

  lemma NothingRemovable(p: EntryProfile, f: Fields, path: string, found: Result<Key, Warning>)
    requires Exact(p, f) && (found.Ok? ==> PathNames(path, found.value) && !Removable(f, found.value))
    requires found.Ok? ==> forall key :: PathNames(path, key) && PartOf(p, key).Some? ==> key == found.value
    requires found.Err? ==> forall key :: PathNames(path, key) ==> PartOf(p, key) == None
    ensures forall key :: PathNames(path, key) ==> !Removable(f, key)
  {
    forall key: Key | PathNames(path, key) ensures !Removable(f, key) {
      assert key.Tracked() ==> (key in f <==> PartOf(p, key).Some?);
      assert !key.Tracked() ==> PartOf(p, key).Some?;
    }
  }

  /** `suppress`: takes out one generated part, or changes nothing and says why. */
  method SuppressPath(s: SchemaModel, p: EntryProfile, f: Fields, path: string)
    returns (q: EntryProfile, g: Fields, w: Option<Warning>)
    requires s.Valid()
    ensures Steady(p, f, q, g)
    ensures w.Some? ==> q == p && g == f && About(w.value) == Some((p.name, path))
    ensures w == None ==> PartGone(path, p, f, q, g) || CompanionAttrGone(s, path, p, f, q, g)
    ensures w.Some? && Exact(p, f) && OneSpelling(p.defaults.Keys) && OneSpelling(p.widgets.Keys) ==>
              forall key :: PathNames(path, key) ==> !Removable(f, key)
    ensures w.Some? ==> !CompanionAttrFree(s, path, p, f)
  {
    WholePartHasNoDot(path);
    q, g := p, f;
    var found := FindPart(p, path);
    if found.Ok? && Removable(f, found.value) {
      RemovalSteady(p, f, found.value);
      q, g, w := Removed(p, found.value), f - {found.value}, None;
      return;
    }
    if Exact(p, f) && OneSpelling(p.defaults.Keys) && OneSpelling(p.widgets.Keys) {
      NothingRemovable(p, f, path, found);
    }
    if found.Ok? {
      w := Some(NothingDetected(p.name, path));
    } else if SplitOnce(path, '.').Some? && SplitOnce(path, '.').value.0 == "companion" {
      q, w := SuppressCompanionAttr(s, p, f, path);
      if w == None { CompanionSteady(s, path, p, f, q, g); }
    } else {
      w := Some(found.error);
    }
  }

  /** Every suppress path seen so far, taken or waiting. */
  ghost function Paths(prov: Provenance): multiset<string> {
    multiset(prov.suppressed) + multiset(prov.pending)
  }

  /** The record after one path: taken with the part it took, or left waiting. */
  function Noted(prov: Provenance, g: Fields, path: string, taken: bool): (r: Provenance)
    requires !taken ==> g == prov.fields
    ensures Paths(r) == Paths(prov) + multiset{path} && r.fields == g
    ensures r.name == prov.name && r.origin == prov.origin
  {
    if taken then prov.(fields := g, suppressed := prov.suppressed + [path])
    else prov.(pending := prov.pending + [path])
  }

  /** `apply_suppress`: each path of the block takes effect now or waits until rule D has run. */
  method ApplySuppress(s: SchemaModel, p: EntryProfile, prov: Provenance, paths: seq<string>)
    returns (q: EntryProfile, prov2: Provenance)
    requires s.Valid() && Exact(p, prov.fields)
    ensures Steady(p, prov.fields, q, prov2.fields)
    ensures Trail(prov2.suppressed, p, prov.fields, q, prov2.fields)
    ensures prov2.name == prov.name && prov2.origin == prov.origin
    ensures Paths(prov2) == Paths(prov) + multiset(paths)
  {
    q, prov2 := p, prov;
    TrailSelf(prov.suppressed, p, prov.fields);
    for i := 0 to |paths|
      invariant Steady(p, prov.fields, q, prov2.fields)
      invariant Trail(prov2.suppressed, p, prov.fields, q, prov2.fields)
      invariant prov2.name == prov.name && prov2.origin == prov.origin
      invariant Paths(prov2) == Paths(prov) + multiset(paths[..i])
    {
      assert paths[..i + 1] == paths[..i] + [paths[i]];
      var r, g, w := SuppressPath(s, q, prov2.fields, paths[i]);
      SteadyTwice(p, prov.fields, q, prov2.fields, r, g);
      if w == None { TrailNext(s, prov2.suppressed, paths[i], p, prov.fields, q, prov2.fields, r, g); }
      q := r;
      prov2 := Noted(prov2, g, paths[i], w == None);
    }
    assert paths[..|paths|] == paths;
  }

  /** `merge_one`: the merged profile `(p0, f0)`, and from it what the block's suppress paths leave. */
  method MergeOne(s: SchemaModel, place: ShowRule, d: DetectedProfile, o: Override, rename: map<string, string>)
    returns (p: EntryProfile, prov: Provenance, ghost p0: EntryProfile, ghost f0: Fields)
    requires s.Valid()
    ensures AsMerged(d, o, rename, BlockStructural(s, o), p0, f0) && Trail(prov.suppressed, p0, f0, p, prov.fields)
    ensures Exact(p, prov.fields)
    ensures o.NoRanges() ==> Wins(o, p, prov.fields) && RangesGenerated(p, prov.fields)
    ensures p.name == prov.name == o.name && prov.origin == MergedInto(d.name, d.sampled)
    ensures Paths(prov) == multiset(o.suppress)
  {
    var q, f, laid := MergeFields(s, place, d, o, rename);
    MergedHolds(d, o, rename, BlockStructural(s, o), laid, q, f);
    MergedExactly(d, o, rename, BlockStructural(s, o), laid, q, f);
    p0, f0 := q, f;
    prov := Provenance(o.name, MergedInto(d.name, d.sampled), f, [], []);
    p, prov := ApplySuppress(s, q, prov, o.suppress);
    if o.NoRanges() {
      KeepsWins(o, p0, f, p, prov.fields);
    }
  }

  /** A config block that matched nothing detected, as a profile of its own: the block `(p0, f0)`, less what its
      suppress paths take, which is nothing generated. */
  method ConfigOnly(s: SchemaModel, o: Override)
    returns (r: Option<(EntryProfile, Provenance)>, ghost p0: EntryProfile, ghost f0: Fields)
    requires s.Valid()
    ensures r == None <==> o.objectClasses == None
    ensures r.Some? ==>
              && AsConfigured(o, p0, f0) && Trail(r.value.1.suppressed, p0, f0, r.value.0, r.value.1.fields)
              && Exact(r.value.0, r.value.1.fields) && r.value.0.name == r.value.1.name == o.name
              && r.value.1.origin == OnlyConfig
    ensures r.Some? && o.NoRanges() ==>
              Wins(o, r.value.0, r.value.1.fields) && RangesGenerated(r.value.0, r.value.1.fields)
    ensures r.Some? ==> Paths(r.value.1) == multiset(o.suppress)
  {
    var p := o.ToEntryProfile();
    if p == None {
      p0, f0 := EntryProfile(o.name, [], "", "", [], [], None, map[], map[], None, true), map[];
      r := None;
      return;
    }
    var f := ConfigFields(p.value);
    ConfigExact(p.value);
    ConfiguredWhole(o, p.value);
    p0, f0 := p.value, f;
    if o.NoRanges() { ConfigFieldsExact(o, p.value); }
    var q, prov := ApplySuppress(s, p.value, Provenance(o.name, OnlyConfig, f, [], []), o.suppress);
    if o.NoRanges() { KeepsWins(o, p.value, f, q, prov.fields); }
    r := Some((q, prov));
  }
}
