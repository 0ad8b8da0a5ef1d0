/** `detect/merge.rs`: the merge of all profiles, the retry of waiting suppress paths, and validation. */
module Merge {
  import opened Text
  import opened Templates
  import opened Schema
  import opened Profiles
  import opened Overlay
  import opened Suppress
  import opened Matching

  /** What holds of a result for the slot it was made from, at every stage before validation. */
  ghost predicate Stands(ds: seq<DetectedProfile>, os: seq<Override>, slot: Slot, p: EntryProfile, prov: Provenance) {
    Exact(p, prov.fields) && p.name == prov.name
    && match slot
       case Both(oi, di) =>
         oi < |os| && di < |ds| && p.name == os[oi].name && prov.origin == MergedInto(ds[di].name, ds[di].sampled)
         && (os[oi].NoRanges() ==> Wins(os[oi], p, prov.fields) && RangesGenerated(p, prov.fields))
       case Alone(oi) =>
         oi < |os| && p.name == os[oi].name && prov.origin == OnlyConfig
         && (os[oi].NoRanges() ==> Wins(os[oi], p, prov.fields) && RangesGenerated(p, prov.fields))
       case Own(di) =>
         di < |ds| && p.name == ds[di].name && prov.origin == OnlyDetected(ds[di].sampled)
         && RangesGenerated(p, prov.fields)
  }

  ghost predicate AllStand(ds: seq<DetectedProfile>, os: seq<Override>, slots: seq<Slot>,
                           ps: seq<EntryProfile>, provs: seq<Provenance>) {
    |ps| == |provs| == |slots| && forall i {:trigger slots[i]} {:trigger ps[i]} :: 0 <= i < |ps| ==>
        Stands(ds, os, slots[i], ps[i], provs[i])
  }

  /** What a result starts from: the detected profile or the block as it stands, or the merge of the two. */
  ghost predicate StartsAs(s: SchemaModel, ds: seq<DetectedProfile>, os: seq<Override>, rename: map<string, string>,
                           slot: Slot, p: EntryProfile, f: Fields)
    requires s.Valid()
  {
    match slot
    case Both(oi, di) =>
      oi < |os| && di < |ds| && AsMerged(ds[di], os[oi], rename, BlockStructural(s, os[oi]), p, f)
    case Alone(oi) => oi < |os| && AsConfigured(os[oi], p, f)
    case Own(di) => di < |ds| && p.name == ds[di].name && !p.boundary && AsDetected(ds[di], rename, p, f)
  }

  /** The suppress paths of the block behind a result. */
  function SlotPaths(os: seq<Override>, slot: Slot): seq<string> {
    match slot
    case Both(oi, _) => if oi < |os| then os[oi].suppress else []
    case Alone(oi) => if oi < |os| then os[oi].suppress else []
    case Own(_) => []
  }

  /** The result still is what it starts from, but for the suppress paths of its block taken so far and what rule D
      may do; `left` are the paths that ended as warnings. */
  ghost predicate Made(s: SchemaModel, ds: seq<DetectedProfile>, os: seq<Override>, rename: map<string, string>,
                       slot: Slot, p: EntryProfile, prov: Provenance, left: seq<string>)
    requires s.Valid()
  {
    && Paths(prov) + multiset(left) == multiset(SlotPaths(os, slot))
    && exists p0, f0 :: StartsAs(s, ds, os, rename, slot, p0, f0) && Trail(prov.suppressed, p0, f0, p, prov.fields)
  }

  ghost predicate AllMade(s: SchemaModel, ds: seq<DetectedProfile>, os: seq<Override>, rename: map<string, string>,
                          slots: seq<Slot>, ps: seq<EntryProfile>, provs: seq<Provenance>)
    requires s.Valid()
  {
    |ps| == |provs| == |slots| && forall i {:trigger slots[i]} {:trigger ps[i]} :: 0 <= i < |ps| ==>
        Made(s, ds, os, rename, slots[i], ps[i], provs[i], [])
  }

  lemma AllMadeNext(s: SchemaModel, ds: seq<DetectedProfile>, os: seq<Override>, rename: map<string, string>,
                    slots: seq<Slot>, ps: seq<EntryProfile>, provs: seq<Provenance>, slot: Slot, p: EntryProfile,
                    prov: Provenance)
    requires s.Valid() && AllMade(s, ds, os, rename, slots, ps, provs)
    requires Made(s, ds, os, rename, slot, p, prov, [])
    ensures AllMade(s, ds, os, rename, slots + [slot], ps + [p], provs + [prov])
  {
  }

  /** A further trail keeps what was made, with the paths it takes. */
  lemma MadeThen(s: SchemaModel, ds: seq<DetectedProfile>, os: seq<Override>, rename: map<string, string>,
                 slot: Slot, p: EntryProfile, prov: Provenance, q: EntryProfile, prov2: Provenance, left: seq<string>)
    requires s.Valid() && Made(s, ds, os, rename, slot, p, prov, [])
    requires Trail(prov2.suppressed, p, prov.fields, q, prov2.fields) && prov.suppressed <= prov2.suppressed
    requires Paths(prov2) + multiset(left) == Paths(prov)
    ensures Made(s, ds, os, rename, slot, q, prov2, left)
  {
    var p0, f0 :| StartsAs(s, ds, os, rename, slot, p0, f0) && Trail(prov.suppressed, p0, f0, p, prov.fields);
    forall path | path in prov.suppressed ensures path in prov2.suppressed {
      var i :| 0 <= i < |prov.suppressed| && prov.suppressed[i] == path;
      assert prov2.suppressed[i] == path;
    }
    TrailMore(prov.suppressed, prov2.suppressed, p0, f0, p, prov.fields);
    TrailTwice(prov2.suppressed, p0, f0, p, prov.fields, q, prov2.fields);
    var none: seq<string> := [];
    assert Paths(prov) + multiset(none) == Paths(prov);
  }

  lemma MadeSelf(s: SchemaModel, ds: seq<DetectedProfile>, os: seq<Override>, rename: map<string, string>,
                 slot: Slot, p0: EntryProfile, f0: Fields, p: EntryProfile, prov: Provenance)
    requires s.Valid() && StartsAs(s, ds, os, rename, slot, p0, f0) && Trail(prov.suppressed, p0, f0, p, prov.fields)
    requires Paths(prov) == multiset(SlotPaths(os, slot))
    ensures Made(s, ds, os, rename, slot, p, prov, [])
  {
    assert Paths(prov) + multiset([]) == Paths(prov);
  }

  lemma StandsSteady(ds: seq<DetectedProfile>, os: seq<Override>, slot: Slot,
                     p: EntryProfile, prov: Provenance, q: EntryProfile, prov2: Provenance)
    requires Stands(ds, os, slot, p, prov) && Steady(p, prov.fields, q, prov2.fields)
    requires prov2.name == prov.name && prov2.origin == prov.origin
    ensures Stands(ds, os, slot, q, prov2)
  {
    if slot.Both? && os[slot.oi].NoRanges() { KeepsWins(os[slot.oi], p, prov.fields, q, prov2.fields); }
    if slot.Alone? && os[slot.oi].NoRanges() { KeepsWins(os[slot.oi], p, prov.fields, q, prov2.fields); }
  }

  lemma AllStandNext(ds: seq<DetectedProfile>, os: seq<Override>, slots: seq<Slot>, ps: seq<EntryProfile>,
                     provs: seq<Provenance>, slot: Slot, p: EntryProfile, prov: Provenance)
    requires AllStand(ds, os, slots, ps, provs) && Stands(ds, os, slot, p, prov)
    ensures AllStand(ds, os, slots + [slot], ps + [p], provs + [prov])
  {
  }

  lemma AllStandSet(ds: seq<DetectedProfile>, os: seq<Override>, slots: seq<Slot>, ps: seq<EntryProfile>,
                    provs: seq<Provenance>, i: nat, p: EntryProfile, prov: Provenance)
    requires AllStand(ds, os, slots, ps, provs) && i < |ps| && Stands(ds, os, slots[i], p, prov)
    ensures AllStand(ds, os, slots, ps[i := p], provs[i := prov])
  {
  }

  /** The new names of detected profiles that a block took over. */
  method Renames(ds: seq<DetectedProfile>, os: seq<Override>,
                 taken: seq<Option<nat>>) returns (rename: map<string, string>)
    requires |taken| == |os| && forall oi :: 0 <= oi < |os| && taken[oi].Some? ==> taken[oi].value < |ds|
    ensures RenamesFor(ds, os, taken, rename)
  {
    rename := map[];
    for oi := 0 to |os|
      invariant forall j {:trigger taken[j]} :: 0 <= j < oi && taken[j].Some? ==>
                  Lower(ds[taken[j].value].name) in rename
      invariant forall k :: k in rename ==> exists j :: 0 <= j < oi && RenamedBy(ds, os, taken, j, k, rename[k])
    {
      if taken[oi].Some? {
        rename := rename[Lower(ds[taken[oi].value].name) := os[oi].name];
        assert RenamedBy(ds, os, taken, oi, Lower(ds[taken[oi].value].name), os[oi].name);
      }
    }
  }

  /** Exactly the names that blocks took over lead to a new name, each to that of such a block. */
  ghost predicate RenamesFor(ds: seq<DetectedProfile>, os: seq<Override>, taken: seq<Option<nat>>,
                             rename: map<string, string>) {
    && |taken| == |os|
    && (forall oi {:trigger taken[oi]} :: 0 <= oi < |os| && taken[oi].Some? && taken[oi].value < |ds| ==>
          Lower(ds[taken[oi].value].name) in rename)
    && forall k :: k in rename ==> exists oi :: 0 <= oi < |os| && RenamedBy(ds, os, taken, oi, k, rename[k])
  }

  predicate RenamedBy(ds: seq<DetectedProfile>, os: seq<Override>, taken: seq<Option<nat>>, oi: nat, key: string,
                      name: string) {
    oi < |os| == |taken| && taken[oi].Some? && taken[oi].value < |ds|
    && Lower(ds[taken[oi].value].name) == key && os[oi].name == name
  }

  // ---------------------------------------------------------------- validation of one profile

  function ProfileNames(ps: seq<EntryProfile>): set<string> {
    set p | p in ps :: Lower(p.name)
  }

  predicate IsSentinel(name: string) {
    |name| > 1 && name[0] == '_' && name[|name| - 1] == '_'
  }

  /** The widget picks from a profile that does not exist. */
  predicate Dangling(spec: WidgetSpec, names: set<string>) {
    spec.Linked? && spec.candidate.Profile? && !IsSentinel(spec.candidate.name) && Lower(spec.candidate.name) !in names
  }

  /** `check_companion`. */
  predicate CompanionFine(c: Companion) {
    c.objectClasses != [] && Trim(c.rdnAttr) != "" && Trim(c.searchBase) != ""
    && (exists k :: k in c.attributes && EqCi(k, c.rdnAttr))
    && forall k :: k in c.attributes ==> Parsed(c.attributes[k]).Ok? && !Parsed(c.attributes[k]).value.AutoNumber?
  }

  /** A failing config part is an error, except a widget while detection is incomplete. */
  predicate Acceptable(p: EntryProfile, f: Fields, names: set<string>, incomplete: bool) {
    (forall a :: a in p.widgets && Dangling(p.widgets[a], names) ==> Removable(f, KWidget(a)) || incomplete)
    && (p.companion.Some? && !CompanionFine(p.companion.value) ==> Removable(f, KCompanion))
  }

  function WidgetsCleaned(p: EntryProfile, names: set<string>): EntryProfile {
    p.(widgets := map a | a in p.widgets && !Dangling(p.widgets[a], names) :: p.widgets[a])
  }

  function CompanionCleaned(p: EntryProfile): EntryProfile {
    p.(companion := if p.companion.Some? && !CompanionFine(p.companion.value) then None else p.companion)
  }

  function Cleaned(p: EntryProfile, names: set<string>): EntryProfile {
    CompanionCleaned(WidgetsCleaned(p, names))
  }

  function DanglingKeys(p: EntryProfile, names: set<string>): set<Key> {
    set a | a in p.widgets && Dangling(p.widgets[a], names) :: KWidget(a)
  }

  predicate DanglingPart(part: Part, names: set<string>) {
    part.AWidget? && Dangling(part.spec, names)
  }

  /** A step that leaves every part alone that is neither generated nor a dangling widget. */
  ghost predicate KeepsBut(p: EntryProfile, f: Fields, q: EntryProfile, g: Fields, names: set<string>) {
    forall key {:trigger PartOf(q, key)} {:trigger Firm(f, key)} ::
      Firm(f, key) && PartOf(p, key).Some? && !DanglingPart(PartOf(p, key).value, names) ==>
        PartOf(q, key) == PartOf(p, key) && Firm(g, key)
  }

  /** The part under `key` fails validation. */
  predicate Faulty(p: EntryProfile, key: Key, names: set<string>) {
    match key
    case KWidget(a) => a in p.widgets && Dangling(p.widgets[a], names)
    case KCompanion => p.companion.Some? && !CompanionFine(p.companion.value)
    case _ => false
  }

  /** Validation drops nothing but failing parts, with their records, and only generated ones, or widgets while
      detection is incomplete. */
  ghost predicate DropsFaulty(p: EntryProfile, f: Fields, q: EntryProfile, g: Fields, names: set<string>,
                              incomplete: bool) {
    && q.boundary == p.boundary
    && forall key: Key {:trigger PartOf(q, key)} {:trigger key in g} ::
         Same(p, f, q, g, key)
         || (Faulty(p, key, names) && PartOf(q, key) == None && key !in g
             && (Removable(f, key) || (incomplete && key.KWidget?)))
  }

  lemma WidgetsDropFaulty(p: EntryProfile, f: Fields, names: set<string>, incomplete: bool)
    requires incomplete || forall a :: a in p.widgets && Dangling(p.widgets[a], names) ==> Removable(f, KWidget(a))
    ensures DropsFaulty(p, f, WidgetsCleaned(p, names), f - DanglingKeys(p, names), names, incomplete)
  {
    var q, g := WidgetsCleaned(p, names), f - DanglingKeys(p, names);
    forall key: Key
      ensures Same(p, f, q, g, key)
              || (Faulty(p, key, names) && PartOf(q, key) == None && key !in g
                  && (Removable(f, key) || (incomplete && key.KWidget?)))
    {
      WidgetsCleanedAt(p, f, names, key);
      assert key.KWidget? ==> key == KWidget(key.attr);
    }
  }

  lemma CompanionDropped(p: EntryProfile, f: Fields, q: EntryProfile, g: Fields, names: set<string>, incomplete: bool)
    requires DropsFaulty(p, f, q, g, names, incomplete) && q.companion == p.companion
    requires Faulty(q, KCompanion, names) && Removable(g, KCompanion)
    ensures DropsFaulty(p, f, Removed(q, KCompanion), g - {KCompanion}, names, incomplete)
  {
    var r, h := Removed(q, KCompanion), g - {KCompanion};
    assert Same(p, f, q, g, KCompanion) by { assert PartOf(q, KCompanion) == PartOf(q, KCompanion); }
    forall key: Key
      ensures Same(p, f, r, h, key)
              || (Faulty(p, key, names) && PartOf(r, key) == None && key !in h
                  && (Removable(f, key) || (incomplete && key.KWidget?)))
    {
      RemovedAt(q, KCompanion, key);
      assert PartOf(q, key) == PartOf(q, key);
    }
  }

  lemma WidgetsCleanedKeepsBut(p: EntryProfile, f: Fields, names: set<string>)
    ensures KeepsBut(p, f, WidgetsCleaned(p, names), f - DanglingKeys(p, names), names)
  {
    var q, g := WidgetsCleaned(p, names), f - DanglingKeys(p, names);
    forall key | Firm(f, key) && PartOf(p, key).Some? && !DanglingPart(PartOf(p, key).value, names)
      ensures PartOf(q, key) == PartOf(p, key) && Firm(g, key)
    {
      WidgetsCleanedAt(p, f, names, key);
    }
  }

  lemma KeepsButThen(p: EntryProfile, f: Fields, q: EntryProfile, g: Fields, r: EntryProfile, h: Fields,
                     names: set<string>)
    requires KeepsBut(p, f, q, g, names) && Keeps(q, g, r, h)
    ensures KeepsBut(p, f, r, h, names)
  {
    forall key | Firm(f, key) && PartOf(p, key).Some? && !DanglingPart(PartOf(p, key).value, names)
      ensures PartOf(r, key) == PartOf(p, key) && Firm(h, key)
    {
      assert PartOf(q, key) == PartOf(p, key);
    }
  }

  method ValidateOne(p: EntryProfile, f: Fields, names: set<string>, incomplete: bool)
    returns (ok: bool, q: EntryProfile, g: Fields)
    requires Exact(p, f)
    ensures ok == Acceptable(p, f, names, incomplete) && Exact(q, g)
    ensures ok ==> q == Cleaned(p, names)
    ensures KeepsBut(p, f, q, g, names) && (!incomplete ==> Keeps(p, f, q, g)) && q.name == p.name
    ensures DropsFaulty(p, f, q, g, names, incomplete)
  {
    q, g := p, f;
    if !incomplete && exists a :: a in p.widgets && Dangling(p.widgets[a], names) && !Removable(f, KWidget(a)) {
      KeepsSelf(p, f);
      return false, q, g;
    }
    q, g := WidgetsCleaned(p, names), f - DanglingKeys(p, names);
    WidgetsCleanedExact(p, f, names);
    WidgetsCleanedKeepsBut(p, f, names);
    WidgetsDropFaulty(p, f, names, incomplete);
    if !incomplete { WidgetsCleanedKeeps(p, f, names); }
    if q.companion == None || CompanionFine(q.companion.value) {
      return true, q, g;
    }
    if !Removable(g, KCompanion) {
      assert KCompanion in g <==> KCompanion in f;
      return false, q, g;
    }
    RemovalSteady(q, g, KCompanion);
    CompanionDropped(p, f, q, g, names, incomplete);
    KeepsButThen(p, f, q, g, Removed(q, KCompanion), g - {KCompanion}, names);
    if !incomplete { KeepsTwice(p, f, q, g, Removed(q, KCompanion), g - {KCompanion}); }
    q, g, ok := Removed(q, KCompanion), g - {KCompanion}, true;
  }

  lemma KeepsSelf(p: EntryProfile, f: Fields)
    ensures Keeps(p, f, p, f)
  {
  }

  lemma WidgetsCleanedAt(p: EntryProfile, f: Fields, names: set<string>, key: Key)
    ensures var q, g := WidgetsCleaned(p, names), f - DanglingKeys(p, names);
            if key.KWidget? && key.attr in p.widgets && Dangling(p.widgets[key.attr], names)
            then PartOf(q, key) == None && key !in g
            else PartOf(q, key) == PartOf(p, key) && (key in g <==> key in f) && (key in g ==> g[key] == f[key])
  {
    if key.KWidget? && key.attr in p.widgets && Dangling(p.widgets[key.attr], names) {
      assert key in DanglingKeys(p, names);
    }
  }

  lemma WidgetsCleanedExact(p: EntryProfile, f: Fields, names: set<string>)
    requires Exact(p, f)
    ensures Exact(WidgetsCleaned(p, names), f - DanglingKeys(p, names))
    ensures Removable(f - DanglingKeys(p, names), KCompanion) == Removable(f, KCompanion)
  {
    var q, g := WidgetsCleaned(p, names), f - DanglingKeys(p, names);
    forall key: Key | key.Tracked() ensures key in g <==> PartOf(q, key).Some? {
      WidgetsCleanedAt(p, f, names, key);
      assert key in f <==> PartOf(p, key).Some?;
    }
    WidgetsCleanedAt(p, f, names, KCompanion);
  }

  lemma WidgetsCleanedKeeps(p: EntryProfile, f: Fields, names: set<string>)
    requires forall a :: a in p.widgets && Dangling(p.widgets[a], names) ==> Removable(f, KWidget(a))
    ensures Keeps(p, f, WidgetsCleaned(p, names), f - DanglingKeys(p, names))
  {
    var q, g := WidgetsCleaned(p, names), f - DanglingKeys(p, names);
    forall key | Firm(f, key) && PartOf(p, key).Some? ensures PartOf(q, key) == PartOf(p, key) && Firm(g, key) {
      WidgetsCleanedAt(p, f, names, key);
      assert key.KWidget? ==> key == KWidget(key.attr);
    }
  }

  // ---------------------------------------------------------------- paths that still wait

  function Abouts(ws: seq<Warning>): seq<Option<(string, string)>> {
    seq(|ws|, i requires 0 <= i < |ws| => About(ws[i]))
  }

  function LeftOf(who: string, paths: seq<string>): seq<Option<(string, string)>> {
    seq(|paths|, i requires 0 <= i < |paths| => Some((who, paths[i])))
  }

  function AllLeft(ps: seq<EntryProfile>, left: seq<seq<string>>): seq<Option<(string, string)>>
    requires |ps| == |left|
  {
    if ps == [] then [] else AllLeft(ps[..|ps| - 1], left[..|ps| - 1]) + LeftOf(ps[|ps| - 1].name, left[|ps| - 1])
  }

  /** No path waits any more: each was taken, in addition to those taken before, or is among `left`. */
  ghost predicate Settled(before: Provenance, after: Provenance, left: seq<string>) {
    && after.pending == [] && before.suppressed <= after.suppressed
    && multiset(after.suppressed) + multiset(left) == multiset(before.suppressed) + multiset(before.pending)
  }

  lemma AddBoth(a: multiset<string>, b: multiset<string>, c: multiset<string>, d: multiset<string>, x: string)
    requires a + b == c + d
    ensures (a + multiset{x}) + b == c + (d + multiset{x}) && a + (b + multiset{x}) == c + (d + multiset{x})
  {
    assert (a + multiset{x}) + b == (a + b) + multiset{x};
    assert a + (b + multiset{x}) == (a + b) + multiset{x};
    assert c + (d + multiset{x}) == (c + d) + multiset{x};
  }

  lemma SettledNext(prov: Provenance, i: nat, now: Provenance, left: seq<string>, g: Fields)
    requires i < |prov.pending| && Settled(prov.(pending := prov.pending[..i]), now, left)
    ensures var path := prov.pending[i];
            && Settled(prov.(pending := prov.pending[..i + 1]),
                       now.(fields := g, suppressed := now.suppressed + [path]), left)
            && Settled(prov.(pending := prov.pending[..i + 1]), now, left + [path])
  {
    var path := prov.pending[i];
    assert prov.pending[..i + 1] == prov.pending[..i] + [path];
    assert multiset(now.suppressed + [path]) == multiset(now.suppressed) + multiset{path};
    assert multiset(left + [path]) == multiset(left) + multiset{path};
    assert multiset(prov.pending[..i] + [path]) == multiset(prov.pending[..i]) + multiset{path};
    var taken := now.suppressed + [path];
    assert taken[..|prov.suppressed|] == now.suppressed[..|prov.suppressed|];
    assert prov.suppressed <= taken;
    AddBoth(multiset(now.suppressed), multiset(left), multiset(prov.suppressed), multiset(prov.pending[..i]), path);
  }

  /** The first `i` profiles have no path waiting any more; the others are as they were. */
  ghost predicate Flushed(ps0: seq<EntryProfile>, provs0: seq<Provenance>, ps: seq<EntryProfile>,
                          provs: seq<Provenance>, left: seq<seq<string>>, i: nat) {
    && |ps| == |provs| == |ps0| == |provs0| && |left| == i <= |ps|
    && (forall j :: i <= j < |ps| ==> ps[j] == ps0[j] && provs[j] == provs0[j])
    && forall j {:trigger left[j]} :: 0 <= j < i ==> FlushedAs(ps0[j], provs0[j], ps[j], provs[j], left[j])
  }

  /** No path waits any more, and nothing happened to the profile but removals by the paths taken. */
  ghost predicate FlushedAs(p: EntryProfile, prov: Provenance, q: EntryProfile, prov2: Provenance, left: seq<string>) {
    Settled(prov, prov2, left) && Trail(prov2.suppressed, p, prov.fields, q, prov2.fields)
  }

  lemma FlushedNext(ps0: seq<EntryProfile>, provs0: seq<Provenance>, ps: seq<EntryProfile>, provs: seq<Provenance>,
                    left: seq<seq<string>>, i: nat, q: EntryProfile, prov: Provenance, more: seq<string>)
    requires i < |ps| && Flushed(ps0, provs0, ps, provs, left, i) && FlushedAs(ps[i], provs[i], q, prov, more)
    ensures Flushed(ps0, provs0, ps[i := q], provs[i := prov], left + [more], i + 1)
  {
    forall j {:trigger (left + [more])[j]} | 0 <= j < i + 1
      ensures FlushedAs(ps0[j], provs0[j], ps[i := q][j], provs[i := prov][j], (left + [more])[j])
    {
      if j < i { assert (left + [more])[j] == left[j]; }
    }
  }

  lemma AboutsNext(ws: seq<Warning>, w: Warning, ws0: seq<Warning>, who: string, left: seq<string>, path: string)
    requires About(w) == Some((who, path)) && Abouts(ws) == Abouts(ws0) + LeftOf(who, left)
    ensures Abouts(ws + [w]) == Abouts(ws0) + LeftOf(who, left + [path])
  {
    assert Abouts(ws + [w]) == Abouts(ws) + [About(w)];
    assert LeftOf(who, left + [path]) == LeftOf(who, left) + [Some((who, path))];
  }

  lemma AllLeftNext(ps: seq<EntryProfile>, i: nat, left: seq<seq<string>>, more: seq<string>,
                    before: seq<Option<(string, string)>>)
    requires i < |ps| && |left| == i
    ensures before + AllLeft(ps[..i], left) + LeftOf(ps[i].name, more) == before + AllLeft(ps[..i + 1], left + [more])
  {
    assert ps[..i + 1][..i] == ps[..i] && (left + [more])[..i] == left;
  }

  class Merged {
    var profiles: seq<EntryProfile>
    var provenance: seq<Provenance>
    var disabled: seq<string>
    var warnings: seq<Warning>

    constructor ()
      ensures profiles == [] && provenance == [] && disabled == [] && warnings == []
    {
      profiles, provenance, disabled, warnings := [], [], [], [];
    }

    /** One block of `merge_core`'s loop over the config. */
    method AddBlock(s: SchemaModel, place: ShowRule, ds: seq<DetectedProfile>, os: seq<Override>, oi: nat,
                    t: Option<nat>,
                    rename: map<string, string>, ghost slots: seq<Slot>)
      requires s.Valid() && oi < |os| && (t.Some? ==> t.value < |ds|)
      requires AllStand(ds, os, slots, profiles, provenance)
      requires AllMade(s, ds, os, rename, slots, profiles, provenance)
      modifies this
      ensures AllStand(ds, os, slots + SlotOf(os[oi], t, oi), profiles, provenance)
      ensures AllMade(s, ds, os, rename, slots + SlotOf(os[oi], t, oi), profiles, provenance)
      ensures disabled == old(disabled) + if os[oi].Enabled() then [] else [os[oi].name]
    {
      var o := os[oi];
      if !o.Enabled() {
        disabled := disabled + [o.name];
        assert slots + [] == slots;
        return;
      }
      if t.Some? {
        var p, prov;
        ghost var p0, f0;
        p, prov, p0, f0 := MergeOne(s, place, ds[t.value], o, rename);
        MadeSelf(s, ds, os, rename, Both(oi, t.value), p0, f0, p, prov);
        AllMadeNext(s, ds, os, rename, slots, profiles, provenance, Both(oi, t.value), p, prov);
        AllStandNext(ds, os, slots, profiles, provenance, Both(oi, t.value), p, prov);
        profiles, provenance := profiles + [p], provenance + [prov];
      } else {
        var r;
        ghost var p0, f0;
        r, p0, f0 := ConfigOnly(s, o);
        if r.Some? {
          MadeSelf(s, ds, os, rename, Alone(oi), p0, f0, r.value.0, r.value.1);
          AllMadeNext(s, ds, os, rename, slots, profiles, provenance, Alone(oi), r.value.0, r.value.1);
          AllStandNext(ds, os, slots, profiles, provenance, Alone(oi), r.value.0, r.value.1);
          profiles, provenance := profiles + [r.value.0], provenance + [r.value.1];
        } else {
          warnings := warnings + [Unmatched(o.name)];
          assert slots + [] == slots;
        }
      }
    }

    /** A detected profile that no block took over. */
    method AddDetected(ghost s: SchemaModel, ds: seq<DetectedProfile>, ghost os: seq<Override>, di: nat,
                       rename: map<string, string>, ghost slots: seq<Slot>)
      requires s.Valid() && di < |ds| && AllStand(ds, os, slots, profiles, provenance)
      requires AllMade(s, ds, os, rename, slots, profiles, provenance)
      modifies this
      ensures AllStand(ds, os, slots + [Own(di)], profiles, provenance) && disabled == old(disabled)
      ensures AllMade(s, ds, os, rename, slots + [Own(di)], profiles, provenance)
    {
      var d := ds[di];
      var p := Rewritten(d.ToEntryProfile(), rename);
      var prov := Provenance(d.name, OnlyDetected(d.sampled), DetectedFields(d), [], []);
      RewrittenExact(d, rename);
      DetectedFieldsExact(d);
      TakenOverWhole(d, rename);
      TrailSelf([], p, prov.fields);
      MadeSelf(s, ds, os, rename, Own(di), p, prov.fields, p, prov);
      AllMadeNext(s, ds, os, rename, slots, profiles, provenance, Own(di), p, prov);
      AllStandNext(ds, os, slots, profiles, provenance, Own(di), p, prov);
      profiles, provenance := profiles + [p], provenance + [prov];
    }

    method AddBlocks(s: SchemaModel, place: ShowRule, ds: seq<DetectedProfile>, os: seq<Override>,
                     taken: seq<Option<nat>>, rename: map<string, string>)
      requires s.Valid() && |taken| == |os| && profiles == [] && provenance == [] && disabled == []
      requires forall oi :: 0 <= oi < |os| && taken[oi].Some? ==> taken[oi].value < |ds|
      modifies this
      ensures AllStand(ds, os, ConfigSlots(os, taken, |os|), profiles, provenance)
      ensures AllMade(s, ds, os, rename, ConfigSlots(os, taken, |os|), profiles, provenance)
      ensures disabled == DisabledNames(os, |os|)
    {
      for oi := 0 to |os|
        invariant AllStand(ds, os, ConfigSlots(os, taken, oi), profiles, provenance)
        invariant AllMade(s, ds, os, rename, ConfigSlots(os, taken, oi), profiles, provenance)
        invariant disabled == DisabledNames(os, oi)
      {
        AddBlock(s, place, ds, os, oi, taken[oi], rename, ConfigSlots(os, taken, oi));
      }
    }

    method AddRest(ghost s: SchemaModel, ds: seq<DetectedProfile>, ghost os: seq<Override>, order: seq<nat>,
                   rename: map<string, string>, ghost slots: seq<Slot>)
      requires s.Valid() && Indices(ds, order) && AllStand(ds, os, slots, profiles, provenance)
      requires AllMade(s, ds, os, rename, slots, profiles, provenance)
      modifies this
      ensures AllStand(ds, os, slots + OwnSlots(order), profiles, provenance) && disabled == old(disabled)
      ensures AllMade(s, ds, os, rename, slots + OwnSlots(order), profiles, provenance)
    {
      assert slots + OwnSlots([]) == slots;
      for i := 0 to |order|
        invariant AllStand(ds, os, slots + OwnSlots(order[..i]), profiles, provenance) && disabled == old(disabled)
        invariant AllMade(s, ds, os, rename, slots + OwnSlots(order[..i]), profiles, provenance)
      {
        AddDetected(s, ds, os, order[i], rename, slots + OwnSlots(order[..i]));
        OwnSlotsNext(order, i);
        assert slots + OwnSlots(order[..i]) + [Own(order[i])] == slots + OwnSlots(order[..i + 1]);
      }
      assert order[..|order|] == order;
    }

    /** `flush_pending` for one profile: every waiting path is taken now or, in `left`, ends as a warning about it. */
    method FlushOne(s: SchemaModel, p: EntryProfile, prov: Provenance)
      returns (q: EntryProfile, prov2: Provenance, ghost left: seq<string>)
      requires s.Valid() && Exact(p, prov.fields)
      modifies this`warnings
      ensures Steady(p, prov.fields, q, prov2.fields) && q.name == p.name
      ensures Trail(prov2.suppressed, p, prov.fields, q, prov2.fields)
      ensures prov2.name == prov.name && prov2.origin == prov.origin
      ensures Settled(prov, prov2, left)
      ensures |warnings| >= |old(warnings)| && warnings[..|old(warnings)|] == old(warnings)
      ensures Abouts(warnings) == Abouts(old(warnings)) + LeftOf(p.name, left)
    {
      q, prov2, left := p, prov.(pending := []), [];
      TrailSelf(prov.suppressed, p, prov.fields);
      for i := 0 to |prov.pending|
        invariant Steady(p, prov.fields, q, prov2.fields) && q.name == p.name
        invariant Trail(prov2.suppressed, p, prov.fields, q, prov2.fields)
        invariant prov2.name == prov.name && prov2.origin == prov.origin
        invariant Settled(prov.(pending := prov.pending[..i]), prov2, left)
        invariant |warnings| >= |old(warnings)| && warnings[..|old(warnings)|] == old(warnings)
        invariant Abouts(warnings) == Abouts(old(warnings)) + LeftOf(p.name, left)
      {
        var path := prov.pending[i];
        var r, g, w := SuppressPath(s, q, prov2.fields, path);
        SteadyTwice(p, prov.fields, q, prov2.fields, r, g);
        if w == None { TrailNext(s, prov2.suppressed, path, p, prov.fields, q, prov2.fields, r, g); }
        SettledNext(prov, i, prov2, left, g);
        q := r;
        if w == None {
          prov2 := prov2.(fields := g, suppressed := prov2.suppressed + [path]);
        } else {
          AboutsNext(warnings, w.value, old(warnings), p.name, left, path);
          warnings := warnings + [w.value];
          left := left + [path];
        }
      }
      assert prov.pending[..|prov.pending|] == prov.pending;
    }

    /** For each profile `left` has the paths that ended as warnings. */
    method FlushPending(s: SchemaModel, ghost ds: seq<DetectedProfile>, ghost os: seq<Override>, ghost slots: seq<Slot>)
      returns (ghost left: seq<seq<string>>)
      requires s.Valid() && AllStand(ds, os, slots, profiles, provenance)
      modifies this
      ensures AllStand(ds, os, slots, profiles, provenance)
      ensures |profiles| == |provenance| == old(|profiles|) == old(|provenance|) == |left| && disabled == old(disabled)
      ensures forall i {:trigger left[i]} :: 0 <= i < |left| ==>
                FlushedAs(old(profiles)[i], old(provenance)[i], profiles[i], provenance[i], left[i])
      ensures Abouts(warnings) == Abouts(old(warnings)) + AllLeft(old(profiles), left)
    {
      left := [];
      ghost var ps0, provs0, ws0 := profiles, provenance, warnings;
      assert Abouts(ws0) + AllLeft(ps0[..0], []) == Abouts(ws0);
      for i := 0 to |profiles|
        invariant AllStand(ds, os, slots, profiles, provenance) && disabled == old(disabled)
        invariant Flushed(ps0, provs0, profiles, provenance, left, i)
        invariant Abouts(warnings) == Abouts(ws0) + AllLeft(ps0[..i], left)
      {
        var p, prov := profiles[i], provenance[i];
        assert Stands(ds, os, slots[i], p, prov);
        var q, prov2, more := FlushOne(s, p, prov);
        StandsSteady(ds, os, slots[i], p, prov, q, prov2);
        AllStandSet(ds, os, slots, profiles, provenance, i, q, prov2);
        AllLeftNext(ps0, i, left, more, Abouts(ws0));
        FlushedNext(ps0, provs0, profiles, provenance, left, i, q, prov2, more);
        profiles, provenance := profiles[i := q], provenance[i := prov2];
        left := left + [more];
      }
      assert ps0[..|ps0|] == ps0;
    }

    /** `validate`: succeeds exactly when every profile is acceptable, and then leaves no dangling reference.
        While detection is incomplete no config part is lost but a dangling widget, and otherwise none at all. */
    method Validate(incomplete: bool) returns (ok: bool)
      requires |profiles| == |provenance|
      requires forall i :: 0 <= i < |profiles| ==> Exact(profiles[i], provenance[i].fields)
      modifies this
      ensures |profiles| == |provenance| == old(|profiles|) && disabled == old(disabled)
      ensures forall i {:trigger profiles[i]} :: 0 <= i < |profiles| ==>
                Checked(old(profiles)[i], old(provenance)[i], profiles[i], provenance[i],
                        ProfileNames(old(profiles)), incomplete)
      ensures ok <==> forall i :: 0 <= i < old(|profiles|) ==>
                        Acceptable(old(profiles[i]), old(provenance[i]).fields, ProfileNames(old(profiles)), incomplete)
      ensures ok ==> forall i {:trigger profiles[i]} :: 0 <= i < |profiles| ==>
                       profiles[i] == Cleaned(old(profiles[i]), ProfileNames(old(profiles)))
    {
      ghost var ps0, provs0 := profiles, provenance;
      var names := ProfileNames(profiles);
      for i := 0 to |profiles|
        invariant disabled == old(disabled)
        invariant Validated(ps0, provs0, profiles, provenance, names, incomplete, i)
      {
        var fine, q, g := ValidateOne(profiles[i], provenance[i].fields, names, incomplete);
        ValidatedNext(ps0, provs0, profiles, provenance, names, incomplete, i, fine, q, g);
        profiles := profiles[i := q];
        provenance := provenance[i := provenance[i].(fields := g)];
        if !fine {
          assert !Acceptable(ps0[i], provs0[i].fields, names, incomplete);
          return false;
        }
      }
      forall i | 0 <= i < |ps0| ensures Acceptable(ps0[i], provs0[i].fields, names, incomplete) {
        assert profiles[i] == Cleaned(ps0[i], names);
      }
      ok := true;
    }
  }

  /** What validation does to one profile, accepted or not. */
  ghost predicate Checked(p: EntryProfile, prov: Provenance, q: EntryProfile, prov2: Provenance,
                          names: set<string>, incomplete: bool) {
    && Exact(q, prov2.fields) && prov2 == prov.(fields := prov2.fields) && q.name == p.name
    && DropsFaulty(p, prov.fields, q, prov2.fields, names, incomplete)
    && KeepsBut(p, prov.fields, q, prov2.fields, names)
    && (!incomplete ==> Keeps(p, prov.fields, q, prov2.fields))
  }

  /** The first `i` profiles have been accepted and cleaned; the others are as they were. */
  ghost predicate Validated(ps0: seq<EntryProfile>, provs0: seq<Provenance>, ps: seq<EntryProfile>,
                            provs: seq<Provenance>, names: set<string>, incomplete: bool, i: nat) {
    && |ps| == |provs| == |ps0| == |provs0| && i <= |ps|
    && (forall j :: i <= j < |ps| ==> ps[j] == ps0[j] && provs[j] == provs0[j])
    && (forall j {:trigger ps[j]} :: 0 <= j < |ps| ==>
          Checked(ps0[j], provs0[j], ps[j], provs[j], names, incomplete))
    && forall j {:trigger ps[j]} :: 0 <= j < i ==>
         Acceptable(ps0[j], provs0[j].fields, names, incomplete) && ps[j] == Cleaned(ps0[j], names)
  }

  lemma ValidatedNext(ps0: seq<EntryProfile>, provs0: seq<Provenance>, ps: seq<EntryProfile>, provs: seq<Provenance>,
                      names: set<string>, incomplete: bool, i: nat, fine: bool, q: EntryProfile, g: Fields)
    requires i < |ps| && Validated(ps0, provs0, ps, provs, names, incomplete, i)
    requires Checked(ps[i], provs[i], q, provs[i].(fields := g), names, incomplete)
    requires fine ==> Acceptable(ps[i], provs[i].fields, names, incomplete) && q == Cleaned(ps[i], names)
    ensures var ps1, provs1 := ps[i := q], provs[i := provs[i].(fields := g)];
            && |ps1| == |provs1| == |ps0|
            && (forall j {:trigger ps1[j]} :: 0 <= j < |ps1| ==>
                  Checked(ps0[j], provs0[j], ps1[j], provs1[j], names, incomplete))
            && (fine ==> Validated(ps0, provs0, ps1, provs1, names, incomplete, i + 1))
  {
    ReplacedOne(ps0, provs0, ps, provs, ps[i := q], provs[i := provs[i].(fields := g)], names, incomplete, i, fine);
  }

  lemma ReplacedOne(ps0: seq<EntryProfile>, provs0: seq<Provenance>, ps: seq<EntryProfile>, provs: seq<Provenance>,
                    ps1: seq<EntryProfile>, provs1: seq<Provenance>, names: set<string>, incomplete: bool, i: nat,
                    fine: bool)
    requires i < |ps| == |ps1| == |provs1| && Validated(ps0, provs0, ps, provs, names, incomplete, i)
    requires forall j :: 0 <= j < |ps| && j != i ==> ps1[j] == ps[j] && provs1[j] == provs[j]
    requires Checked(ps0[i], provs0[i], ps1[i], provs1[i], names, incomplete)
    requires fine ==> Acceptable(ps0[i], provs0[i].fields, names, incomplete) && ps1[i] == Cleaned(ps0[i], names)
    ensures forall j {:trigger ps1[j]} :: 0 <= j < |ps1| ==>
              Checked(ps0[j], provs0[j], ps1[j], provs1[j], names, incomplete)
    ensures fine ==> Validated(ps0, provs0, ps1, provs1, names, incomplete, i + 1)
  {
    forall j | 0 <= j < |ps1|
      ensures Checked(ps0[j], provs0[j], ps1[j], provs1[j], names, incomplete)
      ensures j > i ==> ps1[j] == ps0[j] && provs1[j] == provs0[j]
      ensures fine && j <= i ==>
                Acceptable(ps0[j], provs0[j].fields, names, incomplete) && ps1[j] == Cleaned(ps0[j], names)
    {
      if j != i { assert ps1[j] == ps[j] && provs1[j] == provs[j]; }
    }
  }

  lemma OwnSlotsNext(order: seq<nat>, i: nat)
    requires i < |order|
    ensures OwnSlots(order[..i + 1]) == OwnSlots(order[..i]) + [Own(order[i])]
  {
  }

  /** What `merge_core` returns, for the match it used: the blocks in file order, then the free detected profiles. */
  ghost predicate MergedFrom(s: SchemaModel, ds: seq<DetectedProfile>, os: seq<Override>, m: Match, slots: seq<Slot>,
                             rest: seq<nat>, rename: map<string, string>)
    requires s.Valid()
  {
    Matched(s, ds, os, m) && slots == ConfigSlots(os, m.taken, |os|) + OwnSlots(rest)
    && InOrder(ds, rest) && multiset(rest) == multiset(Unowned(m.owner, |ds|)) && RenamesFor(ds, os, m.taken, rename)
  }

  function DisabledNames(os: seq<Override>, n: nat): seq<string>
    requires n <= |os|
  {
    if n == 0 then [] else DisabledNames(os, n - 1) + if os[n - 1].Enabled() then [] else [os[n - 1].name]
  }

  /** Exactly the names of the blocks that are switched off. */
  lemma {:induction false} DisabledAre(os: seq<Override>, n: nat)
    requires n <= |os|
    ensures forall name :: name in DisabledNames(os, n) <==>
              exists oi :: 0 <= oi < n && os[oi].enabled == Some(false) && os[oi].name == name
  {
    if n > 0 { DisabledAre(os, n - 1); }
  }

  method MergeCore(s: SchemaModel, place: ShowRule, ds: seq<DetectedProfile>, os: seq<Override>)
    returns (out: Merged, ghost m: Match, ghost slots: seq<Slot>, ghost rest: seq<nat>,
             ghost rename: map<string, string>)
    requires s.Valid()
    ensures fresh(out) && MergedFrom(s, ds, os, m, slots, rest, rename)
    ensures AllStand(ds, os, slots, out.profiles, out.provenance)
    ensures AllMade(s, ds, os, rename, slots, out.profiles, out.provenance)
    ensures out.disabled == DisabledNames(os, |os|)
  {
    var taken, owner, warnings;
    taken, owner, warnings, m := MatchProfiles(s, ds, os);
    out := new Merged();
    var renames := Renames(ds, os, taken);
    rename := renames;
    out.AddBlocks(s, place, ds, os, taken, renames);
    out.warnings := warnings + out.warnings;
    UnownedIndices(ds, owner);
    var order := Sorted(ds, Unowned(owner, |ds|));
    SortedInOrder(ds, Unowned(owner, |ds|));
    out.AddRest(s, ds, os, order, renames, ConfigSlots(os, taken, |os|));
    rest := order;
    slots := ConfigSlots(os, taken, |os|) + OwnSlots(order);
  }
}
