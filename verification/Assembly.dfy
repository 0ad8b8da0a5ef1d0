/** `detect/load.rs`: the stages of profile detection put together, and what is known of every profile in the end. */
module Assembly {
  import opened Text
  import opened Templates
  import opened Schema
  import opened Profiles
  import opened Overlay
  import opened Suppress
  import opened Matching
  import opened Merge
  import opened Assume

  /** Everything the block behind this slot sets is in the profile as set, and recorded as the config's. */
  ghost predicate BlockWins(os: seq<Override>, slot: Slot, p: EntryProfile, f: Fields, names: set<string>, all: bool) {
    match slot
    case Both(oi, _) => oi < |os| && (os[oi].NoRanges() ==> WinsBut(os[oi], p, f, names, all))
    case Alone(oi) => oi < |os| && (os[oi].NoRanges() ==> WinsBut(os[oi], p, f, names, all))
    case Own(_) => true
  }

  /** The config wins, unless its part is a widget that picks from a profile not among `names`;
      with `all` it wins then too. */
  ghost predicate WinsBut(o: Override, p: EntryProfile, f: Fields, names: set<string>, all: bool) {
    forall key {:trigger ConfigPart(o, key)} {:trigger PartOf(p, key)} ::
      ConfigPart(o, key).Some? && Last(o, key) && (all || !DanglingPart(ConfigPart(o, key).value, names)) ==>
        PartOf(p, key) == ConfigPart(o, key) && Firm(f, key)
  }

  lemma StillWins(o: Override, p: EntryProfile, prov: Provenance, q: EntryProfile, prov2: Provenance,
                  names: set<string>, incomplete: bool)
    requires Wins(o, p, prov.fields) && Checked(p, prov, q, prov2, names, incomplete)
    ensures WinsBut(o, q, prov2.fields, names, !incomplete)
  {
    forall key | ConfigPart(o, key).Some? && Last(o, key)
        && (!incomplete || !DanglingPart(ConfigPart(o, key).value, names))
      ensures PartOf(q, key) == ConfigPart(o, key) && Firm(prov2.fields, key)
    {
      assert PartOf(p, key) == ConfigPart(o, key);
      assert Firm(prov.fields, key);
    }
  }

  lemma BlockStillWins(ds: seq<DetectedProfile>, os: seq<Override>, slot: Slot, p: EntryProfile, prov: Provenance,
                       q: EntryProfile, prov2: Provenance, names: set<string>, incomplete: bool)
    requires Stands(ds, os, slot, p, prov) && Checked(p, prov, q, prov2, names, incomplete)
    ensures BlockWins(os, slot, q, prov2.fields, names, !incomplete)
  {
    if slot.Both? && os[slot.oi].NoRanges() { StillWins(os[slot.oi], p, prov, q, prov2, names, incomplete); }
    if slot.Alone? && os[slot.oi].NoRanges() { StillWins(os[slot.oi], p, prov, q, prov2, names, incomplete); }
  }

  lemma SameProfileNames(ps: seq<EntryProfile>, qs: seq<EntryProfile>)
    requires |ps| == |qs| && forall i :: 0 <= i < |ps| ==> qs[i].name == ps[i].name
    ensures ProfileNames(qs) == ProfileNames(ps)
  {
    forall n ensures n in ProfileNames(qs) <==> n in ProfileNames(ps) {
      if n in ProfileNames(qs) {
        var q :| q in qs && Lower(q.name) == n;
        var i :| 0 <= i < |qs| && qs[i] == q;
        assert ps[i] in ps;
      }
      if n in ProfileNames(ps) {
        var p :| p in ps && Lower(p.name) == n;
        var i :| 0 <= i < |ps| && ps[i] == p;
        assert qs[i] in qs;
      }
    }
  }

  predicate NothingDangles(p: EntryProfile, names: set<string>) {
    (forall a :: a in p.widgets ==> !Dangling(p.widgets[a], names))
    && (p.companion.Some? ==> CompanionFine(p.companion.value))
  }

  lemma CleanedFine(ps: seq<EntryProfile>, qs: seq<EntryProfile>)
    requires |ps| == |qs| && ProfileNames(qs) == ProfileNames(ps)
    requires forall i :: 0 <= i < |ps| ==> qs[i] == Cleaned(ps[i], ProfileNames(ps))
    ensures forall i :: 0 <= i < |qs| ==> NothingDangles(qs[i], ProfileNames(qs))
  {
  }

  // ---------------------------------------------------------------- what validation leaves

  /** A widget that picks from a profile that does not exist, or a companion that cannot be written. */
  predicate Broken(part: Part, ps: seq<EntryProfile>) {
    match part
    case AWidget(Linked(_, Profile(name))) =>
      !(|name| > 1 && name[0] == '_' && name[|name| - 1] == '_') && forall q :: q in ps ==> !EqCi(q.name, name)
    case ACompanion(c) =>
      || c.objectClasses == [] || Trim(c.rdnAttr) == "" || Trim(c.searchBase) == ""
      || (forall k :: k in c.attributes ==> !EqCi(k, c.rdnAttr))
      || exists k :: k in c.attributes && !Usable(c.attributes[k])
    case _ => false
  }

  lemma NamesOf(ps: seq<EntryProfile>, name: string)
    ensures Lower(name) in ProfileNames(ps) <==> exists q :: q in ps && EqCi(q.name, name)
  {
  }

  lemma FaultyIsBroken(p: EntryProfile, key: Key, ps: seq<EntryProfile>)
    ensures Faulty(p, key, ProfileNames(ps)) <==> PartOf(p, key).Some? && Broken(PartOf(p, key).value, ps)
  {
    if key.KWidget? && key.attr in p.widgets {
      var spec := p.widgets[key.attr];
      if spec.Linked? && spec.candidate.Profile? { NamesOf(ps, spec.candidate.name); }
    }
  }

  /** Validation keeps everything but broken parts, and drops those that are generated, or widgets while detection is
      incomplete; if it succeeds none is left. */
  ghost predicate Sifted(p: EntryProfile, f: Fields, q: EntryProfile, g: Fields, ps: seq<EntryProfile>, ok: bool,
                         incomplete: bool) {
    && q.name == p.name && q.boundary == p.boundary
    && forall key: Key {:trigger PartOf(q, key)} {:trigger key in g} ::
         SiftedAt(f, PartOf(p, key), PartOf(q, key), g, key, ps, ok, incomplete)
  }

  ghost predicate SiftedAt(f: Fields, a: Option<Part>, b: Option<Part>, g: Fields, key: Key, ps: seq<EntryProfile>,
                           ok: bool, incomplete: bool) {
    && ((b == a && SourceAt(g, key) == SourceAt(f, key))
        || (a.Some? && Broken(a.value, ps) && b == None && key !in g
            && (Removable(f, key) || (incomplete && key.KWidget?))))
    && (ok && b.Some? ==> !Broken(b.value, ps))
  }

  lemma CheckedSifts(p: EntryProfile, prov: Provenance, q: EntryProfile, prov2: Provenance, ps: seq<EntryProfile>,
                     ok: bool, incomplete: bool)
    requires Checked(p, prov, q, prov2, ProfileNames(ps), incomplete)
    requires ok ==> q == Cleaned(p, ProfileNames(ps))
    ensures Sifted(p, prov.fields, q, prov2.fields, ps, ok, incomplete)
  {
    forall key: Key
      ensures SiftedAt(prov.fields, PartOf(p, key), PartOf(q, key), prov2.fields, key, ps, ok, incomplete)
    {
      FaultyIsBroken(p, key, ps);
      FaultyIsBroken(q, key, ps);
      if ok { CleanedAt(p, key, ProfileNames(ps)); }
      assert PartOf(q, key) == PartOf(q, key);
    }
  }

  lemma CleanedAt(p: EntryProfile, key: Key, names: set<string>)
    ensures !Faulty(Cleaned(p, names), key, names)
  {
  }

  // ---------------------------------------------------------------- each profile in the end

  /** Where a profile ends up: as the stages before validation finished it, less what validation drops. */
  ghost predicate Outcome(s: SchemaModel, ds: seq<DetectedProfile>, os: seq<Override>, rename: map<string, string>,
                          slot: Slot, p: EntryProfile, prov: Provenance, ps: seq<EntryProfile>, ok: bool,
                          incomplete: bool)
    requires s.Valid()
  {
    exists p1, prov1 :: Finished(s, ds, os, rename, slot, p1, prov1) && prov == prov1.(fields := prov.fields)
                        && Sifted(p1, prov1.fields, p, prov.fields, ps, ok, incomplete)
  }

  /** What becomes of the part `a`, recorded as `src`, that a profile starts with under `key`: it stays with its
      record; or one of the suppress paths taken names it; or it is broken and dropped. Where none is left one
      may be assumed. */
  ghost predicate Fate(taken: seq<string>, key: Key, a: Option<Part>, src: Option<Source>,
                       b: Option<Part>, src1: Option<Source>, ps: seq<EntryProfile>) {
    || (a.Some? && b.Some? && src1 == src && Stays(taken, src, a.value, b.value))
    || ((a == None || (src.Some? && src.value.Generated() && NamedBy(taken, key)))
        && if src1 == None then b == Blank(key) else src1.value.Assumed? && Fillable(key))
    || (a.Some? && b == None && src1 == None && Crumbles(taken, src, a.value, ps))
  }

  /** Perhaps after the paths taken, the part is broken. */
  ghost predicate Crumbles(taken: seq<string>, src: Option<Source>, a: Part, ps: seq<EntryProfile>) {
    exists part :: Stays(taken, src, a, part) && Broken(part, ps)
  }

  lemma FateOf(taken: seq<string>, key: Key, a: Option<Part>, src: Option<Source>, mid: Option<Part>,
               f: Fields, b: Option<Part>, g: Fields, ps: seq<EntryProfile>, ok: bool, incomplete: bool)
    requires Trailed(taken, key, a, src, mid, SourceAt(f, key)) && SiftedAt(f, mid, b, g, key, ps, ok, incomplete)
    ensures Fate(taken, key, a, src, b, SourceAt(g, key), ps)
  {
    if a.Some? && mid.Some? && SourceAt(f, key) == src && Stays(taken, src, a.value, mid.value) {
      if Broken(mid.value, ps) { assert Crumbles(taken, src, a.value, ps); }
    }
  }

  /** The parts of a profile made of a block and a detected profile, by what the block says. */
  ghost predicate MergedFate(s: SchemaModel, d: DetectedProfile, o: Override, rename: map<string, string>,
                             p: EntryProfile, prov: Provenance, ps: seq<EntryProfile>, key: Key)
    requires s.Valid()
  {
    var b, src1 := PartOf(p, key), SourceAt(prov.fields, key);
    if ConfigPart(o, key).Some? && Last(o, key) then
      o.NoRanges() ==>
        exists src ::
          OverDetected(d, o, key, src) && Fate(prov.suppressed, key, ConfigPart(o, key), Some(src), b, src1, ps)
    else if SetInAnyCase(o, key) then
      DetectedOnce(d, key) ==> Fate(prov.suppressed, key, None, None, b, src1, ps)
    else
      key.KShow?
      || Fate(prov.suppressed, key, Adapted(DetectedPart(d, rename, key), p.searchBase, BlockStructural(s, o)),
              DetectedSource(d, key), b, src1, ps)
  }

  /** The parts of a profile made of a block alone. */
  ghost predicate BlockFate(o: Override, p: EntryProfile, prov: Provenance, ps: seq<EntryProfile>, key: Key) {
    var set_ := ConfigPart(o, key);
    Fate(prov.suppressed, key, if set_.Some? then set_ else Unset(key),
         if set_.Some? && set_ != Unset(key) then Some(Config) else None,
         PartOf(p, key), SourceAt(prov.fields, key), ps)
  }

  /** A default is the detected one; a range among them may have joined a shared number space. */
  predicate SameOrShared(a: DefaultValue, b: DefaultValue) {
    b == a || (a.DetectedRange? && b == DetectedRange(a.spec.(unified := true)))
  }

  predicate IsAssumed(f: Fields, key: Key) {
    key in f && f[key].Assumed?
  }

  /** A detected profile that no block took over comes out as it was detected, field by field: less broken widgets and a
      broken companion, and with a number or a private group where rule D assumes one. */
  ghost predicate ShowsDetected(d: DetectedProfile, rename: map<string, string>, p: EntryProfile, f: Fields,
                                ps: seq<EntryProfile>) {
    && p.name == d.name && !p.boundary && p.objectClasses == d.objectClasses.0 && p.rdnAttr == d.rdnAttr.0
    && p.searchBase == d.container && p.show == d.show && p.searchAttrs == d.searchAttrs && p.template == d.template
    && ShowsDefaults(d, p, f) && ShowsWidgets(d, rename, p, ps) && ShowsCompanion(d, p, f, ps)
    && forall key: Key {:trigger SourceAt(f, key)} ::
         DetectedPart(d, rename, key).Some? && PartOf(p, key).Some? ==> SourceAt(f, key) == DetectedSource(d, key)
  }

  ghost predicate ShowsDefaults(d: DetectedProfile, p: EntryProfile, f: Fields) {
    && (forall a :: a in d.defaults ==> a in p.defaults && SameOrShared(d.defaults[a].0, p.defaults[a]))
    && forall a :: a in p.defaults && a !in d.defaults ==>
         (a == "uidNumber" || a == "gidNumber") && IsAssumed(f, KDefault(a))
  }

  ghost predicate ShowsWidgets(d: DetectedProfile, rename: map<string, string>, p: EntryProfile,
                               ps: seq<EntryProfile>) {
    && (forall a :: a in p.widgets ==> a in d.widgets && p.widgets[a] == Following(d.widgets[a].0, rename))
    && forall a :: a in d.widgets && a !in p.widgets ==> Broken(AWidget(Following(d.widgets[a].0, rename)), ps)
  }

  ghost predicate ShowsCompanion(d: DetectedProfile, p: EntryProfile, f: Fields, ps: seq<EntryProfile>) {
    if d.companion.Some? then
      p.companion == Some(d.companion.value.0)
      || (p.companion == None && Broken(ACompanion(d.companion.value.0), ps))
    else p.companion.Some? ==> IsAssumed(f, KCompanion)
  }

  /** What is known in the end of a profile made for `slot`. */
  ghost predicate Accounted(s: SchemaModel, ds: seq<DetectedProfile>, os: seq<Override>, rename: map<string, string>,
                            slot: Slot, p: EntryProfile, prov: Provenance, ps: seq<EntryProfile>)
    requires s.Valid()
  {
    && (forall path :: path in prov.suppressed ==> path in SlotPaths(os, slot))
    && match slot
       case Own(di) => di < |ds| && ShowsDetected(ds[di], rename, p, prov.fields, ps)
       case Alone(oi) =>
         oi < |os| && p.name == os[oi].name && p.boundary && forall key :: BlockFate(os[oi], p, prov, ps, key)
       case Both(oi, di) =>
         && oi < |os| && di < |ds| && p.name == os[oi].name && p.boundary
         && forall key :: MergedFate(s, ds[di], os[oi], rename, p, prov, ps, key)
  }

  // ---------------------------------------------------------------- from the outcome to each part

  lemma OutcomeAccounted(s: SchemaModel, ds: seq<DetectedProfile>, os: seq<Override>, rename: map<string, string>,
                         slot: Slot, p1: EntryProfile, prov1: Provenance, p: EntryProfile, prov: Provenance,
                         ps: seq<EntryProfile>, ok: bool, incomplete: bool)
    requires s.Valid() && Finished(s, ds, os, rename, slot, p1, prov1) && prov == prov1.(fields := prov.fields)
    requires Sifted(p1, prov1.fields, p, prov.fields, ps, ok, incomplete)
    ensures Accounted(s, ds, os, rename, slot, p, prov, ps)
  {
    var left :| Made(s, ds, os, rename, slot, p1, prov1, left);
    PathsOfSlot(os, slot, prov1, left);
    var p0, f0 :| StartsAs(s, ds, os, rename, slot, p0, f0) && Trail(prov1.suppressed, p0, f0, p1, prov1.fields);
    match slot
    case Own(di) =>
      OwnAccounted(ds[di], rename, p0, f0, p1, prov1.fields, p, prov.fields, ps, ok, incomplete);
    case Alone(oi) =>
      forall key: Key ensures BlockFate(os[oi], p, prov, ps, key) {
        FateAt(prov1.suppressed, p0, f0, p1, prov1.fields, p, prov.fields, ps, ok, incomplete, key);
      }
    case Both(oi, di) =>
      forall key: Key ensures MergedFate(s, ds[di], os[oi], rename, p, prov, ps, key) {
        FateAt(prov1.suppressed, p0, f0, p1, prov1.fields, p, prov.fields, ps, ok, incomplete, key);
        BaseStays(prov1.suppressed, p0, f0, p1, prov1.fields, p, prov.fields, ps, ok, incomplete);
        MergedFateOf(s, ds[di], os[oi], rename, p0, f0, p, prov, ps, key);
      }
  }

  lemma PathsOfSlot(os: seq<Override>, slot: Slot, prov: Provenance, left: seq<string>)
    requires Paths(prov) + multiset(left) == multiset(SlotPaths(os, slot))
    ensures forall path :: path in prov.suppressed ==> path in SlotPaths(os, slot)
    ensures slot.Own? ==> prov.suppressed == []
  {
    forall path | path in prov.suppressed ensures path in SlotPaths(os, slot) {
      assert path in multiset(prov.suppressed);
      assert path in multiset(SlotPaths(os, slot));
    }
    assert slot.Own? ==> |multiset(prov.suppressed)| <= |multiset(SlotPaths(os, slot))|;
  }

  lemma FateAt(taken: seq<string>, p0: EntryProfile, f0: Fields, p1: EntryProfile, f1: Fields, p: EntryProfile,
               f: Fields, ps: seq<EntryProfile>, ok: bool, incomplete: bool, key: Key)
    requires Trail(taken, p0, f0, p1, f1) && Sifted(p1, f1, p, f, ps, ok, incomplete)
    ensures Fate(taken, key, PartOf(p0, key), SourceAt(f0, key), PartOf(p, key), SourceAt(f, key), ps)
  {
    assert Trailed(taken, key, PartOf(p0, key), SourceAt(f0, key), PartOf(p1, key), SourceAt(f1, key)) by {
      assert PartOf(p1, key) == PartOf(p1, key);
    }
    assert SiftedAt(f1, PartOf(p1, key), PartOf(p, key), f, key, ps, ok, incomplete) by {
      assert PartOf(p, key) == PartOf(p, key);
    }
    FateOf(taken, key, PartOf(p0, key), SourceAt(f0, key), PartOf(p1, key), f1, PartOf(p, key), f, ps, ok, incomplete);
  }

  /** No path names the search base, and it is never broken. */
  lemma BaseStays(taken: seq<string>, p0: EntryProfile, f0: Fields, p1: EntryProfile, f1: Fields, p: EntryProfile,
                  f: Fields, ps: seq<EntryProfile>, ok: bool, incomplete: bool)
    requires Trail(taken, p0, f0, p1, f1) && Sifted(p1, f1, p, f, ps, ok, incomplete)
    ensures p.searchBase == p0.searchBase
  {
    FateAt(taken, p0, f0, p1, f1, p, f, ps, ok, incomplete, KSearchBase);
    PlainStays(taken, KSearchBase, PartOf(p0, KSearchBase), SourceAt(f0, KSearchBase), PartOf(p, KSearchBase),
               SourceAt(f, KSearchBase), ps);
  }

  lemma PlainStays(taken: seq<string>, key: Key, a: Option<Part>, src: Option<Source>, b: Option<Part>,
                   src1: Option<Source>, ps: seq<EntryProfile>)
    requires Fate(taken, key, a, src, b, src1, ps) && (key.KObjectClasses? || key.KRdnAttr? || key.KSearchBase?)
    requires a.Some? && (a.value.Names? || a.value.Text?)
    ensures b == a && src1 == src
  {
  }

  lemma MergedFateOf(s: SchemaModel, d: DetectedProfile, o: Override, rename: map<string, string>, p0: EntryProfile,
                     f0: Fields, p: EntryProfile, prov: Provenance, ps: seq<EntryProfile>, key: Key)
    requires s.Valid() && AsMerged(d, o, rename, BlockStructural(s, o), p0, f0) && p.searchBase == p0.searchBase
    requires Fate(prov.suppressed, key, PartOf(p0, key), SourceAt(f0, key), PartOf(p, key), SourceAt(prov.fields, key),
                  ps)
    ensures MergedFate(s, d, o, rename, p, prov, ps, key)
  {
    assert MergedAt(d, o, rename, BlockStructural(s, o), p0, f0, key) by { assert PartOf(p0, key) == PartOf(p0, key); }
  }

  lemma OwnAccounted(d: DetectedProfile, rename: map<string, string>, p0: EntryProfile, f0: Fields, p1: EntryProfile,
                     f1: Fields, p: EntryProfile, f: Fields, ps: seq<EntryProfile>, ok: bool, incomplete: bool)
    requires p0.name == d.name && !p0.boundary && AsDetected(d, rename, p0, f0)
    requires Trail([], p0, f0, p1, f1) && Sifted(p1, f1, p, f, ps, ok, incomplete)
    ensures ShowsDetected(d, rename, p, f, ps)
  {
    forall key: Key ensures DetectedFate(d, rename, p, f, ps, key) {
      FateAt([], p0, f0, p1, f1, p, f, ps, ok, incomplete, key);
      assert PartOf(p0, key) == DetectedPart(d, rename, key) && SourceAt(f0, key) == DetectedSource(d, key);
      UntouchedFate(key, PartOf(p0, key), SourceAt(f0, key), PartOf(p, key), SourceAt(f, key), ps);
    }
    DetectedShown(d, rename, p, f, ps);
  }

  /** With no path taken a part stays as it is, or is broken and dropped. */
  ghost predicate Untouched(key: Key, a: Option<Part>, src: Option<Source>, b: Option<Part>, src1: Option<Source>,
                            ps: seq<EntryProfile>) {
    || (a.Some? && src1 == src
        && (b == a
            || (a.value.ADefault? && b.Some? && b.value.ADefault? && SameOrShared(a.value.value, b.value.value))))
    || (a == None && if src1 == None then b == Blank(key) else src1.value.Assumed? && Fillable(key))
    || (a.Some? && b == None && src1 == None && Broken(a.value, ps))
  }

  ghost predicate DetectedFate(d: DetectedProfile, rename: map<string, string>, p: EntryProfile, f: Fields,
                               ps: seq<EntryProfile>, key: Key) {
    Untouched(key, DetectedPart(d, rename, key), DetectedSource(d, key), PartOf(p, key), SourceAt(f, key), ps)
  }

  lemma UntouchedFate(key: Key, a: Option<Part>, src: Option<Source>, b: Option<Part>, src1: Option<Source>,
                      ps: seq<EntryProfile>)
    requires Fate([], key, a, src, b, src1, ps)
    ensures Untouched(key, a, src, b, src1, ps)
  {
    if a.Some? {
      forall part | Stays([], src, a.value, part)
        ensures part == a.value || (a.value.ADefault? && part.ADefault? && SameOrShared(a.value.value, part.value))
      {
        if a.value.ACompanion? && part.ACompanion? && Thinner([], a.value.companion, part.companion) {
          assert part.companion.attributes == a.value.companion.attributes;
        }
      }
    }
  }

  ghost predicate AllDetectedFate(d: DetectedProfile, rename: map<string, string>, p: EntryProfile, f: Fields,
                                  ps: seq<EntryProfile>) {
    forall key: Key {:trigger DetectedFate(d, rename, p, f, ps, key)} :: DetectedFate(d, rename, p, f, ps, key)
  }

  lemma DetectedShown(d: DetectedProfile, rename: map<string, string>, p: EntryProfile, f: Fields,
                      ps: seq<EntryProfile>)
    requires p.name == d.name && !p.boundary && AllDetectedFate(d, rename, p, f, ps)
    ensures ShowsDetected(d, rename, p, f, ps)
  {
    ShownPlain(d, rename, p, f, ps);
    ShownDefaults(d, rename, p, f, ps);
    ShownWidgets(d, rename, p, f, ps);
    ShownRecords(d, rename, p, f, ps);
  }

  lemma ShownPlain(d: DetectedProfile, rename: map<string, string>, p: EntryProfile, f: Fields, ps: seq<EntryProfile>)
    requires AllDetectedFate(d, rename, p, f, ps)
    ensures p.objectClasses == d.objectClasses.0 && p.rdnAttr == d.rdnAttr.0 && p.searchBase == d.container
    ensures p.show == d.show && p.searchAttrs == d.searchAttrs && p.template == d.template
    ensures ShowsCompanion(d, p, f, ps)
  {
    assert DetectedFate(d, rename, p, f, ps, KObjectClasses) && DetectedFate(d, rename, p, f, ps, KRdnAttr);
    assert DetectedFate(d, rename, p, f, ps, KSearchBase) && DetectedFate(d, rename, p, f, ps, KShow);
    assert DetectedFate(d, rename, p, f, ps, KSearchAttrs) && DetectedFate(d, rename, p, f, ps, KLabel);
    assert DetectedFate(d, rename, p, f, ps, KCompanion);
  }

  lemma ShownDefaults(d: DetectedProfile, rename: map<string, string>, p: EntryProfile, f: Fields,
                      ps: seq<EntryProfile>)
    requires AllDetectedFate(d, rename, p, f, ps)
    ensures ShowsDefaults(d, p, f)
  {
    forall a | a in d.defaults ensures a in p.defaults && SameOrShared(d.defaults[a].0, p.defaults[a]) {
      assert DetectedFate(d, rename, p, f, ps, KDefault(a));
    }
    forall a | a in p.defaults && a !in d.defaults
      ensures (a == "uidNumber" || a == "gidNumber") && IsAssumed(f, KDefault(a))
    {
      assert DetectedFate(d, rename, p, f, ps, KDefault(a));
    }
  }

  lemma ShownWidgets(d: DetectedProfile, rename: map<string, string>, p: EntryProfile, f: Fields,
                     ps: seq<EntryProfile>)
    requires AllDetectedFate(d, rename, p, f, ps)
    ensures ShowsWidgets(d, rename, p, ps)
  {
    forall a
      ensures a in p.widgets ==> a in d.widgets && p.widgets[a] == Following(d.widgets[a].0, rename)
      ensures a in d.widgets && a !in p.widgets ==> Broken(AWidget(Following(d.widgets[a].0, rename)), ps)
    {
      assert DetectedFate(d, rename, p, f, ps, KWidget(a));
    }
  }

  lemma ShownRecords(d: DetectedProfile, rename: map<string, string>, p: EntryProfile, f: Fields,
                     ps: seq<EntryProfile>)
    requires AllDetectedFate(d, rename, p, f, ps)
    ensures forall key: Key {:trigger SourceAt(f, key)} ::
              DetectedPart(d, rename, key).Some? && PartOf(p, key).Some? ==> SourceAt(f, key) == DetectedSource(d, key)
  {
    forall key: Key | DetectedPart(d, rename, key).Some? && PartOf(p, key).Some?
      ensures SourceAt(f, key) == DetectedSource(d, key)
    {
      assert DetectedFate(d, rename, p, f, ps, key);
    }
  }

  /** `assemble`, detection enabled: the whole pipeline. Profiles and provenance stay aligned and exact whatever
      happens, and each profile is accounted for, part by part. Everything a config block sets is in its profile as set;
      only while detection is incomplete may a widget be missing, and only one that picks from a profile that does
      not exist. */
  method Assemble(s: SchemaModel, place: ShowRule, ds: seq<DetectedProfile>, os: seq<Override>,
                  groupOu: Option<string>, failed: bool, incomplete: bool)
    returns (out: Merged, ok: bool, ghost m: Match, ghost slots: seq<Slot>, ghost rest: seq<nat>,
             ghost rename: map<string, string>)
    requires s.Valid()
    ensures MergedFrom(s, ds, os, m, slots, rest, rename) && |out.profiles| == |out.provenance| == |slots|
    ensures forall i :: 0 <= i < |out.profiles| ==> Exact(out.profiles[i], out.provenance[i].fields)
    ensures forall i {:trigger slots[i]} :: 0 <= i < |slots| ==>
              Outcome(s, ds, os, rename, slots[i], out.profiles[i], out.provenance[i], out.profiles, ok,
                      failed || incomplete)
              && Accounted(s, ds, os, rename, slots[i], out.profiles[i], out.provenance[i], out.profiles)
    ensures forall i {:trigger slots[i]} :: 0 <= i < |slots| ==>
              BlockWins(os, slots[i], out.profiles[i], out.provenance[i].fields, ProfileNames(out.profiles),
                        !failed && !incomplete)
    ensures ok ==> forall i :: 0 <= i < |out.profiles| ==> NothingDangles(out.profiles[i], ProfileNames(out.profiles))
  {
    ghost var st;
    out, m, slots, rest, rename, st := MergeWithAssumptions(s, place, ds, os, groupOu, failed);
    ghost var ps, provs := out.profiles, out.provenance;
    ok := out.Validate(failed || incomplete);
    forall i | 0 <= i < |ps|
      ensures out.profiles[i].name == ps[i].name && Exact(out.profiles[i], out.provenance[i].fields)
    {
      assert Checked(ps[i], provs[i], out.profiles[i], out.provenance[i], ProfileNames(ps), failed || incomplete);
    }
    SameProfileNames(ps, out.profiles);
    forall i | 0 <= i < |slots|
      ensures Outcome(s, ds, os, rename, slots[i], out.profiles[i], out.provenance[i], out.profiles, ok,
                      failed || incomplete)
      ensures Accounted(s, ds, os, rename, slots[i], out.profiles[i], out.provenance[i], out.profiles)
      ensures BlockWins(os, slots[i], out.profiles[i], out.provenance[i].fields, ProfileNames(out.profiles),
                        !failed && !incomplete)
    {
      assert Stands(ds, os, slots[i], ps[i], provs[i]) && Finished(s, ds, os, rename, slots[i], ps[i], provs[i]);
      assert Checked(ps[i], provs[i], out.profiles[i], out.provenance[i], ProfileNames(ps), failed || incomplete);
      BlockStillWins(ds, os, slots[i], ps[i], provs[i], out.profiles[i], out.provenance[i], ProfileNames(ps),
                     failed || incomplete);
      CheckedSifts(ps[i], provs[i], out.profiles[i], out.provenance[i], out.profiles, ok, failed || incomplete);
      OutcomeAccounted(s, ds, os, rename, slots[i], ps[i], provs[i], out.profiles[i], out.provenance[i], out.profiles,
                       ok, failed || incomplete);
    }
    if ok {
      CleanedFine(ps, out.profiles);
    }
  }
}
