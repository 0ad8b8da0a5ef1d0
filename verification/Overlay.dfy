/** `detect/merge.rs`: laying one config block over one detected profile. */
module Overlay {
  import opened Text
  import opened Templates
  import opened Schema
  import opened Profiles
  import Ranges

  /** Where a detected `show` puts the password fields (`detect/infer.rs`); its result is not looked into. */
  type ShowRule = (DetectedProfile, EntryProfile) -> seq<string>

  datatype Kind = Defaults | Widgets

  function At(kind: Kind, attr: string): Key {
    match kind case Defaults => KDefault(attr) case Widgets => KWidget(attr)
  }

  /** Record that `key` is now the config's, over a detected value if there was one. */
  function MarkConfig(f: Fields, key: Key, had: bool): Fields {
    f[key := if key in f && f[key].Detected? && had then ConfigOverDetected(f[key].evidence) else Config]
  }

  /** How a part of the config's is recorded over what was recorded before. */
  function MarkOf(src: Option<Source>): Source {
    match src case Some(Detected(evidence)) => ConfigOverDetected(evidence) case _ => Config
  }

  predicate Shadowed(names: set<string>, attr: string) {
    exists c :: c in names && EqCi(c, attr)
  }

  /** The fields of one kind record the keys of `m`. */
  ghost predicate Recorded<V>(m: map<string, V>, f: Fields, kind: Kind) {
    forall a {:trigger a in m} {:trigger At(kind, a)} :: a in m <==> At(kind, a) in f
  }

  /** Only fields of one kind differ. */
  ghost predicate OthersSame(f: Fields, g: Fields, kind: Kind) {
    forall key {:trigger key in g} {:trigger g[key]} :: (forall a :: key != At(kind, a)) ==>
      (key in f <==> key in g) && (key in f ==> f[key] == g[key])
  }

  /** Each attribute laid over so far is the config's; every other one is as detected. */
  ghost predicate Laid<V>(m0: map<string, V>, f0: Fields, config: map<string, V>, done: set<string>,
                          m: map<string, V>, f: Fields, kind: Kind) {
    forall a {:trigger a in m} :: a in m && At(kind, a) in f ==>
      if a in done && a in config then m[a] == config[a] && !f[At(kind, a)].Generated()
      else a in m0 && m[a] == m0[a] && At(kind, a) in f0 && f[At(kind, a)] == f0[At(kind, a)]
  }

  /** Of the spellings `done` the last is among `names`; and no other, if `only`. */
  ghost predicate LastStands(done: set<string>, names: set<string>, only: bool) {
    forall k {:trigger k in names} :: k in done ==>
      (LastSpelling(done, k) ==> k in names) && (only && k in names ==> LastSpelling(done, k))
  }

  /** How the record `src` of a config attribute follows from what was detected under its name, if anything was. */
  ghost predicate MarkedAs<V>(detected: map<string, V>, fields: Fields, kind: Kind, k: string, src: Source) {
    if Shadowed(detected.Keys, k)
    then exists w :: w in detected && EqCi(w, k) && src == MarkOf(SourceAt(fields, At(kind, w)))
    else src == Config
  }

  /** Each attribute laid over so far is recorded as over the detected one of its name;
      the detected ones that none of them replaced are as they were. */
  ghost predicate Marked<V>(detected: map<string, V>, fields: Fields, done: set<string>,
                            m: map<string, V>, f: Fields, kind: Kind) {
    && (forall k {:trigger At(kind, k)} :: k in done ==>
          At(kind, k) in f && MarkedAs(detected, fields, kind, k, f[At(kind, k)]))
    && (forall a {:trigger a in detected} :: a in detected && !Shadowed(done, a) ==>
          a in m && SourceAt(f, At(kind, a)) == SourceAt(fields, At(kind, a)))
    && forall a {:trigger a in m} :: a in m ==> a in done || a in detected
  }

  /** `merge_attrs`: the config's attributes, in the order of their names, replace those of the same name in any case;
      of several spellings in the config the last one stays. */
  method MergeAttrs<V(==)>(detected: map<string, V>, config: map<string, V>, fields: Fields, kind: Kind)
    returns (m: map<string, V>, f: Fields)
    requires Recorded(detected, fields, kind)
    ensures Recorded(m, f, kind) && OthersSame(fields, f, kind)
    ensures Laid(detected, fields, config, config.Keys, m, f, kind)
    ensures LastStands(config.Keys, m.Keys, OneSpelling(detected.Keys))
    ensures OneSpelling(config.Keys) ==> Marked(detected, fields, config.Keys, m, f, kind)
    ensures OneSpelling(detected.Keys) ==> OneSpelling(m.Keys)
    ensures OneSpelling(detected.Keys) ==> (config.Keys <= m.Keys <==> OneSpelling(config.Keys))
    ensures forall a :: a in detected && !Shadowed(config.Keys, a) ==> a in m
  {
    m, f := detected, fields;
    var todo := config.Keys;
    MergingStart(detected, fields, config, kind);
    while todo != {}
      invariant Merging(detected, fields, config, todo, m, f, kind)
      decreases |todo|
    {
      ghost var least := LeastExists(todo);
      var k :| k in todo && forall j :: j in todo ==> StrLe(k, j);
      ghost var m0, f0 := m, f;
      if was :| was in m && EqCi(was, k) {
        m := m - {was};
        f := (f - {At(kind, was)})[At(kind, k) := f[At(kind, was)]];
        f := MarkConfig(f, At(kind, k), true);
        m := m[k := config[k]];
        StepOf(m0, f0, m, f, k, config[k], Some(was), kind);
        MergingNext(detected, fields, config, todo, m0, f0, m, f, k, Some(was), kind);
      } else {
        f := MarkConfig(f, At(kind, k), false);
        m := m[k := config[k]];
        StepOf(m0, f0, m, f, k, config[k], None, kind);
        MergingNext(detected, fields, config, todo, m0, f0, m, f, k, None, kind);
      }
      todo := todo - {k};
    }
    assert config.Keys - todo == config.Keys;
    AllStandIff(config.Keys, m.Keys, OneSpelling(detected.Keys));
  }

  /** Where `merge_attrs` stands with `todo` left. */
  ghost predicate Merging<V>(detected: map<string, V>, fields: Fields, config: map<string, V>, todo: set<string>,
                             m: map<string, V>, f: Fields, kind: Kind) {
    && todo <= config.Keys && AllBefore(config.Keys - todo, todo)
    && Recorded(m, f, kind) && OthersSame(fields, f, kind)
    && Laid(detected, fields, config, config.Keys - todo, m, f, kind)
    && LastStands(config.Keys - todo, m.Keys, OneSpelling(detected.Keys))
    && Unshadowed(detected.Keys, config.Keys, m.Keys)
    && (OneSpelling(detected.Keys) ==> OneSpelling(m.Keys))
    && (OneSpelling(config.Keys) ==> Marked(detected, fields, config.Keys - todo, m, f, kind))
  }

  ghost predicate AllBefore(done: set<string>, todo: set<string>) {
    forall d, t :: d in done && t in todo ==> StrLe(d, t)
  }

  lemma NextBefore(all: set<string>, todo: set<string>, k: string)
    requires AllBefore(all - todo, todo) && k in todo && forall j :: j in todo ==> StrLe(k, j)
    ensures AllBefore(all - (todo - {k}), todo - {k})
  {
  }

  lemma AllStandIff(config: set<string>, names: set<string>, only: bool)
    requires LastStands(config, names, only)
    ensures only ==> (config <= names <==> OneSpelling(config))
  {
    AllLastMeansOne(config);
    if only && config <= names {
      forall k | k in config ensures LastSpelling(config, k) { assert k in names; }
    }
    if OneSpelling(config) {
      forall k | k in config ensures k in names { assert LastSpelling(config, k); }
    }
  }

  ghost predicate Unshadowed(before: set<string>, config: set<string>, after: set<string>) {
    forall a {:trigger a in before} :: a in before && !Shadowed(config, a) ==> a in after
  }

  /** What one round of `merge_attrs` does: `k` replaces `was`, the entry it found under that name. */
  ghost predicate StepFor<V>(m0: map<string, V>, f0: Fields, m: map<string, V>, f: Fields,
                             k: string, v: V, was: Option<string>, kind: Kind) {
    (was.Some? ==> was.value in m0 && EqCi(was.value, k))
    && (was == None ==> forall a :: a in m0 ==> !EqCi(a, k))
    && (forall a {:trigger a in m} {:trigger a in m0} :: a in m <==> a == k || (a in m0 && was != Some(a)))
    && k in m && m[k] == v && (forall a {:trigger m[a]} :: a in m && a != k ==> m[a] == m0[a])
    && At(kind, k) in f && f[At(kind, k)] == MarkOf(if was == None then None else SourceAt(f0, At(kind, was.value)))
    && (forall key {:trigger key in f} {:trigger key in f0} ::
          key in f <==> key == At(kind, k) || (key in f0 && !(was.Some? && key == At(kind, was.value))))
    && (forall key {:trigger f[key]} :: key in f && key != At(kind, k) ==> f[key] == f0[key])
  }

  lemma StepOf<V>(m0: map<string, V>, f0: Fields, m: map<string, V>, f: Fields,
                  k: string, v: V, was: Option<string>, kind: Kind)
    requires Recorded(m0, f0, kind)
    requires was == None ==>
               m == m0[k := v] && f == MarkConfig(f0, At(kind, k), false) && forall a :: a in m0 ==> !EqCi(a, k)
    requires was.Some? ==>
               was.value in m0 && EqCi(was.value, k) && At(kind, was.value) in f0
               && m == (m0 - {was.value})[k := v]
               && f == MarkConfig((f0 - {At(kind, was.value)})[At(kind, k) := f0[At(kind, was.value)]], At(kind, k),
                                  true)
    ensures StepFor(m0, f0, m, f, k, v, was, kind)
  {
    if was == None {
      assert k !in m0;
      assert At(kind, k) !in f0;
    } else {
      var f1 := (f0 - {At(kind, was.value)})[At(kind, k) := f0[At(kind, was.value)]];
      assert !MarkConfig(f1, At(kind, k), true)[At(kind, k)].Generated();
    }
  }

  lemma StepKeeps<V>(detected: map<string, V>, fields: Fields, config: map<string, V>, done: set<string>,
                     m0: map<string, V>, f0: Fields, m: map<string, V>, f: Fields,
                     k: string, was: Option<string>, kind: Kind)
    requires k in config && done <= config.Keys && StepFor(m0, f0, m, f, k, config[k], was, kind)
    requires Recorded(m0, f0, kind) && OthersSame(fields, f0, kind)
    requires Laid(detected, fields, config, done, m0, f0, kind)
    requires k !in done && AllBefore(done, {k}) && LastStands(done, m0.Keys, OneSpelling(detected.Keys))
    requires Unshadowed(detected.Keys, config.Keys, m0.Keys)
    requires OneSpelling(detected.Keys) ==> OneSpelling(m0.Keys)
    ensures Recorded(m, f, kind) && OthersSame(fields, f, kind)
    ensures Laid(detected, fields, config, done + {k}, m, f, kind)
    ensures LastStands(done + {k}, m.Keys, OneSpelling(detected.Keys))
    ensures Unshadowed(detected.Keys, config.Keys, m.Keys)
    ensures OneSpelling(detected.Keys) ==> OneSpelling(m.Keys)
  {
    StepRecords(m0, f0, m, f, k, config[k], was, kind);
    StepLays(detected, fields, config, done, m0, f0, m, f, k, was, kind);
    StepHolds(detected.Keys, config.Keys, m0, f0, m, f, k, config[k], was, kind);
    if OneSpelling(m0.Keys) {
      StepSpells(m0, f0, m, f, k, config[k], was, kind);
    }
    StepLast(done, m0.Keys, m.Keys, k, was, OneSpelling(detected.Keys));
  }

  lemma MergingStart<V>(detected: map<string, V>, fields: Fields, config: map<string, V>, kind: Kind)
    requires Recorded(detected, fields, kind)
    ensures Merging(detected, fields, config, config.Keys, detected, fields, kind)
  {
    assert config.Keys - config.Keys == {};
  }

  lemma MergingNext<V>(detected: map<string, V>, fields: Fields, config: map<string, V>, todo: set<string>,
                       m0: map<string, V>, f0: Fields, m: map<string, V>, f: Fields,
                       k: string, was: Option<string>, kind: Kind)
    requires Merging(detected, fields, config, todo, m0, f0, kind)
    requires k in todo && (forall j :: j in todo ==> StrLe(k, j)) && StepFor(m0, f0, m, f, k, config[k], was, kind)
    ensures Merging(detected, fields, config, todo - {k}, m, f, kind)
  {
    var done := config.Keys - todo;
    NextBefore(config.Keys, todo, k);
    NextDone(config.Keys, todo, k);
    StepKeeps(detected, fields, config, done, m0, f0, m, f, k, was, kind);
    if OneSpelling(config.Keys) { StepMarks(detected, fields, config, done, m0, f0, m, f, k, was, kind); }
  }

  lemma NextDone(all: set<string>, todo: set<string>, k: string)
    requires k in todo && todo <= all
    ensures all - (todo - {k}) == all - todo + {k}
  {
  }

  lemma StepMarks<V>(detected: map<string, V>, fields: Fields, config: map<string, V>, done: set<string>,
                     m0: map<string, V>, f0: Fields, m: map<string, V>, f: Fields,
                     k: string, was: Option<string>, kind: Kind)
    requires k in config && k !in done && done <= config.Keys && OneSpelling(config.Keys)
    requires StepFor(m0, f0, m, f, k, config[k], was, kind) && Marked(detected, fields, done, m0, f0, kind)
    ensures Marked(detected, fields, done + {k}, m, f, kind)
  {
    assert !Shadowed(done, k);
    NewMark(detected, fields, done, m0, f0, m, f, k, config[k], was, kind);
    forall d | d in done
      ensures At(kind, d) in f && MarkedAs(detected, fields, kind, d, f[At(kind, d)])
    {
      assert d in config.Keys && !EqCi(d, k);
      OldMark(m0, f0, m, f, k, config[k], was, kind, d);
    }
    forall a | a in detected && !Shadowed(done + {k}, a)
      ensures a in m && SourceAt(f, At(kind, a)) == SourceAt(fields, At(kind, a))
    {
      NotShadowed(done, k, a);
      OldMark(m0, f0, m, f, k, config[k], was, kind, a);
    }
  }

  lemma NewMark<V>(detected: map<string, V>, fields: Fields, done: set<string>,
                   m0: map<string, V>, f0: Fields, m: map<string, V>, f: Fields,
                   k: string, v: V, was: Option<string>, kind: Kind)
    requires !Shadowed(done, k) && Marked(detected, fields, done, m0, f0, kind)
    requires StepFor(m0, f0, m, f, k, v, was, kind)
    ensures At(kind, k) in f && MarkedAs(detected, fields, kind, k, f[At(kind, k)])
  {
    if was.Some? {
      assert !Shadowed(done, was.value);
      assert was.value in detected;
    }
    forall w | w in detected && EqCi(w, k) ensures w in m0 {
      assert !Shadowed(done, w);
    }
  }

  /** A step leaves the record of every other name alone. */
  lemma OldMark<V>(m0: map<string, V>, f0: Fields, m: map<string, V>, f: Fields,
                   k: string, v: V, was: Option<string>, kind: Kind, a: string)
    requires StepFor(m0, f0, m, f, k, v, was, kind) && !EqCi(a, k)
    ensures SourceAt(f, At(kind, a)) == SourceAt(f0, At(kind, a)) && (a in m <==> a in m0)
  {
    assert At(kind, a) != At(kind, k) && !(was.Some? && was.value == a);
    assert At(kind, a) in f <==> At(kind, a) in f0;
    assert a in m <==> a in m0;
  }

  lemma NotShadowed(done: set<string>, k: string, a: string)
    ensures Shadowed(done + {k}, a) <==> Shadowed(done, a) || EqCi(k, a)
  {
    if Shadowed(done, a) {
      var c :| c in done && EqCi(c, a);
      assert c in done + {k};
    }
    if EqCi(k, a) { assert k in done + {k}; }
  }

  lemma StepHolds<V>(detected: set<string>, config: set<string>, m0: map<string, V>, f0: Fields,
                     m: map<string, V>, f: Fields, k: string, v: V, was: Option<string>, kind: Kind)
    requires k in config && StepFor(m0, f0, m, f, k, v, was, kind)
    ensures Unshadowed(detected, config, m0.Keys) ==> Unshadowed(detected, config, m.Keys)
  {
  }

  lemma StepLast(done: set<string>, names0: set<string>, names: set<string>, k: string,
                 was: Option<string>, only: bool)
    requires k !in done && AllBefore(done, {k}) && LastStands(done, names0, only)
    requires was.Some? ==> EqCi(was.value, k)
    requires forall a {:trigger a in names} :: a in names <==> a == k || (a in names0 && was != Some(a))
    requires only ==> OneSpelling(names)
    ensures LastStands(done + {k}, names, only)
  {
    StrLeTotal(k, k);
    forall d | d in done + {k}
      ensures LastSpelling(done + {k}, d) ==> d in names
      ensures only && d in names ==> LastSpelling(done + {k}, d)
    {
      if d != k {
        assert StrLe(d, k);
        if StrLe(k, d) { StrLeAnti(d, k); }
        assert LastSpelling(done, d) ==> d in names0;
      }
    }
  }

  lemma StepRecords<V>(m0: map<string, V>, f0: Fields, m: map<string, V>, f: Fields,
                       k: string, v: V, was: Option<string>, kind: Kind)
    requires StepFor(m0, f0, m, f, k, v, was, kind) && Recorded(m0, f0, kind)
    ensures Recorded(m, f, kind)
    ensures forall fields :: OthersSame(fields, f0, kind) ==> OthersSame(fields, f, kind)
  {
    forall fields | OthersSame(fields, f0, kind) ensures OthersSame(fields, f, kind) {
      forall key | forall a :: key != At(kind, a)
        ensures (key in fields <==> key in f) && (key in fields ==> fields[key] == f[key])
      {
        assert key in f <==> key in f0;
      }
    }
  }

  lemma StepLays<V>(detected: map<string, V>, fields: Fields, config: map<string, V>, done: set<string>,
                    m0: map<string, V>, f0: Fields, m: map<string, V>, f: Fields,
                    k: string, was: Option<string>, kind: Kind)
    requires k in config && StepFor(m0, f0, m, f, k, config[k], was, kind) && Recorded(m0, f0, kind)
    requires Laid(detected, fields, config, done, m0, f0, kind)
    ensures Laid(detected, fields, config, done + {k}, m, f, kind)
  {
    forall a | a in m && At(kind, a) in f && a != k
      ensures a in m0 && m[a] == m0[a] && At(kind, a) in f0 && f[At(kind, a)] == f0[At(kind, a)]
    {
      OtherStays(m0, f0, m, f, k, config[k], was, kind, a);
    }
    LaidMore(detected, fields, config, done, m0, f0, m, f, k, kind);
  }

  lemma LaidMore<V>(detected: map<string, V>, fields: Fields, config: map<string, V>, done: set<string>,
                    m0: map<string, V>, f0: Fields, m: map<string, V>, f: Fields, k: string, kind: Kind)
    requires Laid(detected, fields, config, done, m0, f0, kind)
    requires k in config && k in m && m[k] == config[k] && At(kind, k) in f && !f[At(kind, k)].Generated()
    requires forall a {:trigger a in m} :: a in m && At(kind, a) in f && a != k ==>
               a in m0 && m[a] == m0[a] && At(kind, a) in f0 && f[At(kind, a)] == f0[At(kind, a)]
    ensures Laid(detected, fields, config, done + {k}, m, f, kind)
  {
  }

  lemma OtherStays<V>(m0: map<string, V>, f0: Fields, m: map<string, V>, f: Fields,
                      k: string, v: V, was: Option<string>, kind: Kind, a: string)
    requires StepFor(m0, f0, m, f, k, v, was, kind) && a in m && At(kind, a) in f && a != k
    ensures a in m0 && m[a] == m0[a] && At(kind, a) in f0 && f[At(kind, a)] == f0[At(kind, a)]
  {
    assert At(kind, a) != At(kind, k);
  }

  lemma StepSpells<V>(m0: map<string, V>, f0: Fields, m: map<string, V>, f: Fields,
                      k: string, v: V, was: Option<string>, kind: Kind)
    requires StepFor(m0, f0, m, f, k, v, was, kind) && OneSpelling(m0.Keys)
    ensures OneSpelling(m.Keys)
  {
    forall a, b | a in m.Keys && b in m.Keys && EqCi(a, b) ensures a == b {
      if a != k { assert a in m0.Keys; }
      if b != k { assert b in m0.Keys; }
      if was.Some? { assert was.value in m0.Keys; }
    }
  }

  // ---------------------------------------------------------------- the parts that are one value each

  /** One `if let Some(v)` of `merge_one`: the part under `key` is the config's when the config sets it. */
  function OverlayPart(p: EntryProfile, f: Fields, o: Override, key: Key): (EntryProfile, Fields) {
    if ConfigPart(o, key) == None then (p, f)
    else
      match key
      case KObjectClasses => (p.(objectClasses := o.objectClasses.value), MarkConfig(f, key, true))
      case KRdnAttr => (p.(rdnAttr := o.rdnAttr.value), MarkConfig(f, key, true))
      case KSearchBase => (p.(searchBase := o.searchBase.value), MarkConfig(f, key, true))
      case KShow => (p.(show := o.show.value), MarkConfig(f, key, true))
      case KSearchAttrs => (p.(searchAttrs := o.searchAttrs.value), MarkConfig(f, key, true))
      case KLabel => (p.(template := o.template), MarkConfig(f, key, p.template.Some?))
      case KCompanion => (p.(companion := o.companion), MarkConfig(f, key, p.companion.Some?))
      case _ => (p, f)
  }

  /** The part under `key` and its record are as before. */
  ghost predicate Same(p: EntryProfile, f: Fields, q: EntryProfile, g: Fields, key: Key) {
    PartOf(q, key) == PartOf(p, key) && (key in f <==> key in g) && (key in f ==> g[key] == f[key])
  }

  /** The config sets the attribute of `key`, perhaps spelled in another case. */
  ghost predicate SetInAnyCase(o: Override, key: Key) {
    match key
    case KDefault(a) => o.defaults.Some? && Shadowed(o.defaults.value.Keys, a)
    case KWidget(a) => o.widgets.Some? && Shadowed(o.widgets.value.Keys, a)
    case _ => false
  }

  /** What becomes of one part when the block `o` is laid over `(p, f)`: the config's part if it sets one;
      otherwise the part as it was, unless the config spells its attribute in another case. */
  ghost predicate Verdict(o: Override, applied: bool, p: EntryProfile, f: Fields, q: EntryProfile, g: Fields,
                          key: Key) {
    (SetInAnyCase(o, key) && PartOf(q, key) == None && key !in g && !(ConfigPart(o, key).Some? && Last(o, key)))
    || (if applied && ConfigPart(o, key).Some?
        then PartOf(q, key) == ConfigPart(o, key) && key in g && !g[key].Generated()
             && (!key.KDefault? && !key.KWidget? ==> g[key] == MarkedOver(p, f, key))
        else Same(p, f, q, g, key))
  }

  /** The record of a single part that the config sets over `(p, f)`. */
  function MarkedOver(p: EntryProfile, f: Fields, key: Key): Source {
    if PartOf(p, key).Some? then MarkOf(SourceAt(f, key)) else Config
  }

  ghost predicate LaidOver(o: Override, done: iset<Key>, p: EntryProfile, f: Fields, q: EntryProfile, g: Fields) {
    forall key {:trigger PartOf(q, key)} {:trigger key in g} {:trigger ConfigPart(o, key)} ::
      Verdict(o, key in done, p, f, q, g, key)
  }

  ghost function PlainKeys(): iset<Key> {
    iset key: Key | !key.KCompanion? && !key.KDefault? && !key.KWidget?
  }

  ghost function DefaultKeys(): iset<Key> {
    iset key: Key | key.KDefault?
  }

  ghost function WidgetKeys(): iset<Key> {
    iset key: Key | key.KWidget?
  }

  lemma LaidOverNothing(o: Override, p: EntryProfile, f: Fields)
    ensures LaidOver(o, iset{}, p, f, p, f)
  {
    var none: iset<Key> := iset{};
    forall key ensures Verdict(o, key in none, p, f, p, f, key) {
      assert key !in none && Same(p, f, p, f, key);
    }
  }

  lemma LaidOverTwice(o: Override, d: iset<Key>, e: iset<Key>, p: EntryProfile, f: Fields,
                      q: EntryProfile, g: Fields, r: EntryProfile, h: Fields)
    requires d !! e && LaidOver(o, d, p, f, q, g) && LaidOver(o, e, q, g, r, h)
    ensures LaidOver(o, d + e, p, f, r, h)
  {
    var both := d + e;
    forall key ensures Verdict(o, key in both, p, f, r, h, key) {
      assert Verdict(o, key in d, p, f, q, g, key) by { assert PartOf(q, key) == PartOf(q, key); }
      assert Verdict(o, key in e, q, g, r, h, key) by { assert PartOf(r, key) == PartOf(r, key); }
    }
  }

  lemma OverlayPartOf(o: Override, p: EntryProfile, f: Fields, key: Key)
    requires !key.KDefault? && !key.KWidget?
    ensures var r := OverlayPart(p, f, o, key);
            LaidOver(o, iset{key}, p, f, r.0, r.1)
    ensures OverlayPart(p, f, o, key).0.defaults == p.defaults && OverlayPart(p, f, o, key).0.widgets == p.widgets
    ensures AttrRecordsKept(f, OverlayPart(p, f, o, key).1)
  {
    var r := OverlayPart(p, f, o, key);
    var q, g := r.0, r.1;
    var one := iset{key};
    forall k ensures Verdict(o, k in one, p, f, q, g, k) {
      OverlayPartAt(o, p, f, key, k);
    }
    forall k: Key | k.KDefault? || k.KWidget? ensures SourceAt(g, k) == SourceAt(f, k) {
      OverlayPartAt(o, p, f, key, k);
    }
  }

  lemma OverlayPartAt(o: Override, p: EntryProfile, f: Fields, key: Key, k: Key)
    requires !key.KDefault? && !key.KWidget?
    ensures var (q, g) := OverlayPart(p, f, o, key);
            if k == key && ConfigPart(o, key).Some?
            then PartOf(q, k) == ConfigPart(o, k) && k in g && g[k] == MarkedOver(p, f, key)
            else Same(p, f, q, g, k)
  {
  }

  /** The records of defaults and widgets are as they were. */
  ghost predicate AttrRecordsKept(f: Fields, g: Fields) {
    forall key: Key {:trigger SourceAt(g, key)} :: key.KDefault? || key.KWidget? ==>
      SourceAt(g, key) == SourceAt(f, key)
  }

  method OverlayNext(o: Override, ghost done: iset<Key>, ghost p0: EntryProfile, ghost f0: Fields,
                     p: EntryProfile, f: Fields, key: Key) returns (q: EntryProfile, g: Fields)
    requires !key.KDefault? && !key.KWidget? && key !in done && LaidOver(o, done, p0, f0, p, f)
    ensures LaidOver(o, done + iset{key}, p0, f0, q, g) && q.defaults == p.defaults && q.widgets == p.widgets
    ensures AttrRecordsKept(f, g)
  {
    var next := OverlayPart(p, f, o, key);
    q, g := next.0, next.1;
    OverlayPartOf(o, p, f, key);
    LaidOverTwice(o, done, iset{key}, p0, f0, p, f, q, g);
  }

  /** The parts that are one value each; the companion comes later. */
  method OverlayPlain(o: Override, p0: EntryProfile, f0: Fields) returns (p: EntryProfile, f: Fields)
    ensures LaidOver(o, PlainKeys(), p0, f0, p, f) && p.defaults == p0.defaults && p.widgets == p0.widgets
    ensures AttrRecordsKept(f0, f)
  {
    p, f := p0, f0;
    LaidOverNothing(o, p, f);
    p, f := OverlayNext(o, iset{}, p0, f0, p, f, KObjectClasses);
    p, f := OverlayNext(o, iset{} + iset{KObjectClasses}, p0, f0, p, f, KRdnAttr);
    p, f := OverlayNext(o, iset{} + iset{KObjectClasses} + iset{KRdnAttr}, p0, f0, p, f, KSearchBase);
    p, f := OverlayNext(o, iset{} + iset{KObjectClasses} + iset{KRdnAttr} + iset{KSearchBase}, p0, f0, p, f, KShow);
    p, f := OverlayNext(o, iset{} + iset{KObjectClasses} + iset{KRdnAttr} + iset{KSearchBase} + iset{KShow}, p0, f0,
                        p, f, KSearchAttrs);
    p, f := OverlayNext(o, iset{} + iset{KObjectClasses} + iset{KRdnAttr} + iset{KSearchBase} + iset{KShow}
        + iset{KSearchAttrs}, p0, f0, p, f, KLabel);
    assert iset{} + iset{KObjectClasses} + iset{KRdnAttr} + iset{KSearchBase} + iset{KShow} + iset{KSearchAttrs}
        + iset{KLabel} == PlainKeys();
  }

  // ---------------------------------------------------------------- defaults and widgets

  lemma LaidDefaults(o: Override, p: EntryProfile, f: Fields, m: map<string, DefaultValue>, g: Fields)
    requires o.defaults.Some? && Recorded(p.defaults, f, Defaults) && Recorded(m, g, Defaults)
               && OthersSame(f, g, Defaults)
    requires Laid(p.defaults, f, o.defaults.value, o.defaults.value.Keys, m, g, Defaults)
    requires LastStands(o.defaults.value.Keys, m.Keys, false)
    requires Unshadowed(p.defaults.Keys, o.defaults.value.Keys, m.Keys)
    ensures LaidOver(o, DefaultKeys(), p, f, p.(defaults := m), g)
  {
    var q := p.(defaults := m);
    forall key ensures Verdict(o, key in DefaultKeys(), p, f, q, g, key) {
      if key.KDefault? {
        LaidDefaultAt(o, p, f, m, g, key.attr);
      } else {
        LaidDefaultsElsewhere(p, f, m, g, key);
      }
    }
  }

  lemma LaidDefaultsElsewhere(p: EntryProfile, f: Fields, m: map<string, DefaultValue>, g: Fields, key: Key)
    requires OthersSame(f, g, Defaults) && !key.KDefault?
    ensures Same(p, f, p.(defaults := m), g, key)
  {
    assert forall a :: key != At(Defaults, a);
    assert key in f <==> key in g;
  }

  lemma LaidDefaultAt(o: Override, p: EntryProfile, f: Fields, m: map<string, DefaultValue>, g: Fields, a: string)
    requires o.defaults.Some? && Recorded(p.defaults, f, Defaults) && Recorded(m, g, Defaults)
    requires Laid(p.defaults, f, o.defaults.value, o.defaults.value.Keys, m, g, Defaults)
    requires LastStands(o.defaults.value.Keys, m.Keys, false)
    requires Unshadowed(p.defaults.Keys, o.defaults.value.Keys, m.Keys)
    ensures Verdict(o, true, p, f, p.(defaults := m), g, KDefault(a))
  {
    assert At(Defaults, a) == KDefault(a);
    if a in o.defaults.value { assert a in o.defaults.value.Keys && EqCi(a, a); }
    assert a in p.defaults.Keys && !Shadowed(o.defaults.value.Keys, a) ==> a in m.Keys;
    assert a in m ==> a in m.Keys;
  }

  lemma LaidWidgets(o: Override, p: EntryProfile, f: Fields, m: map<string, WidgetSpec>, g: Fields)
    requires o.widgets.Some? && Recorded(p.widgets, f, Widgets) && Recorded(m, g, Widgets) && OthersSame(f, g, Widgets)
    requires Laid(p.widgets, f, o.widgets.value, o.widgets.value.Keys, m, g, Widgets)
    requires LastStands(o.widgets.value.Keys, m.Keys, false)
    requires Unshadowed(p.widgets.Keys, o.widgets.value.Keys, m.Keys)
    ensures LaidOver(o, WidgetKeys(), p, f, p.(widgets := m), g)
  {
    var q := p.(widgets := m);
    forall key ensures Verdict(o, key in WidgetKeys(), p, f, q, g, key) {
      if key.KWidget? {
        LaidWidgetAt(o, p, f, m, g, key.attr);
      } else {
        LaidWidgetsElsewhere(p, f, m, g, key);
      }
    }
  }

  lemma LaidWidgetsElsewhere(p: EntryProfile, f: Fields, m: map<string, WidgetSpec>, g: Fields, key: Key)
    requires OthersSame(f, g, Widgets) && !key.KWidget?
    ensures Same(p, f, p.(widgets := m), g, key)
  {
    assert forall a :: key != At(Widgets, a);
    assert key in f <==> key in g;
  }

  lemma LaidWidgetAt(o: Override, p: EntryProfile, f: Fields, m: map<string, WidgetSpec>, g: Fields, a: string)
    requires o.widgets.Some? && Recorded(p.widgets, f, Widgets) && Recorded(m, g, Widgets)
    requires Laid(p.widgets, f, o.widgets.value, o.widgets.value.Keys, m, g, Widgets)
    requires LastStands(o.widgets.value.Keys, m.Keys, false)
    requires Unshadowed(p.widgets.Keys, o.widgets.value.Keys, m.Keys)
    ensures Verdict(o, true, p, f, p.(widgets := m), g, KWidget(a))
  {
    assert At(Widgets, a) == KWidget(a);
    if a in o.widgets.value { assert a in o.widgets.value.Keys && EqCi(a, a); }
    assert a in p.widgets.Keys && !Shadowed(o.widgets.value.Keys, a) ==> a in m.Keys;
    assert a in m ==> a in m.Keys;
  }

  /** Config defaults laid over detected number ranges are recorded as such. */
  function MarkRanges(f: Fields, ranges: set<string>): Fields {
    map key | key in f ::
      if key.KDefault? && Lower(key.attr) in ranges && f[key].ConfigOverDetected?
      then ConfigOverDetectedRange else f[key]
  }

  /** No default is recorded as laid over yet. */
  ghost predicate NoneOver(f: Fields) {
    forall a :: KDefault(a) in f ==> !f[KDefault(a)].ConfigOverDetected?
  }

  lemma MarkRangesOver(o: Override, p: EntryProfile, f: Fields, q: EntryProfile, g: Fields, ranges: set<string>)
    requires NoneOver(f) && LaidOver(o, DefaultKeys(), p, f, q, g)
    ensures LaidOver(o, DefaultKeys(), p, f, q, MarkRanges(g, ranges))
  {
    var h := MarkRanges(g, ranges);
    forall key ensures Verdict(o, key in DefaultKeys(), p, f, q, h, key) {
      assert Verdict(o, key in DefaultKeys(), p, f, q, g, key) by { assert PartOf(q, key) == PartOf(q, key); }
      if key in g && key.KDefault? && g[key].ConfigOverDetected? {
        assert key == KDefault(key.attr);
      }
    }
  }

  /** How a config default is recorded over what was detected under its name: over a range, over another default that
      was detected, or, with nothing or only an assumption there, as the config's. */
  ghost predicate DefaultMarked(defaults: map<string, DefaultValue>, f: Fields, a: string, src: Source) {
    if Shadowed(defaults.Keys, a) then
      exists w :: w in defaults && EqCi(w, a)
        && var mark := MarkOf(SourceAt(f, KDefault(w)));
           src == if mark.ConfigOverDetected? && defaults[w].DetectedRange? then ConfigOverDetectedRange else mark
    else src == Config
  }

  lemma MarkRangesAt(p: EntryProfile, f: Fields, h: Fields, ranges: set<string>, a: string)
    requires OneSpelling(p.defaults.Keys)
    requires ranges == set b | b in p.defaults && p.defaults[b].DetectedRange? :: Lower(b)
    requires KDefault(a) in h && MarkedAs(p.defaults, f, Defaults, a, h[KDefault(a)])
    ensures DefaultMarked(p.defaults, f, a, MarkRanges(h, ranges)[KDefault(a)])
  {
    if Shadowed(p.defaults.Keys, a) {
      var w :| w in p.defaults && EqCi(w, a) && h[KDefault(a)] == MarkOf(SourceAt(f, At(Defaults, w)));
      assert At(Defaults, w) == KDefault(w);
      assert Lower(a) in ranges <==> p.defaults[w].DetectedRange? by {
        if Lower(a) in ranges {
          var b :| b in p.defaults && p.defaults[b].DetectedRange? && Lower(b) == Lower(a);
          assert b in p.defaults.Keys && w in p.defaults.Keys && EqCi(b, w);
        }
      }
    }
  }

  /** Every default of the block is recorded so. */
  ghost predicate DefaultsMarked(o: Override, defaults: map<string, DefaultValue>, f: Fields, g: Fields) {
    o.defaults.Some? && OneSpelling(o.defaults.value.Keys) && OneSpelling(defaults.Keys) ==>
      forall a {:trigger a in o.defaults.value} :: a in o.defaults.value ==>
        KDefault(a) in g && DefaultMarked(defaults, f, a, g[KDefault(a)])
  }

  ghost predicate WidgetsMarked(o: Override, widgets: map<string, WidgetSpec>, f: Fields, g: Fields) {
    o.widgets.Some? && OneSpelling(o.widgets.value.Keys) ==>
      forall a {:trigger a in o.widgets.value} :: a in o.widgets.value ==>
        KWidget(a) in g && MarkedAs(widgets, f, Widgets, a, g[KWidget(a)])
  }

  lemma DefaultsMarkedOf(o: Override, p: EntryProfile, f: Fields, m: map<string, DefaultValue>, h: Fields,
                         ranges: set<string>)
    requires o.defaults.Some?
    requires ranges == set b | b in p.defaults && p.defaults[b].DetectedRange? :: Lower(b)
    requires OneSpelling(o.defaults.value.Keys) ==> Marked(p.defaults, f, o.defaults.value.Keys, m, h, Defaults)
    ensures DefaultsMarked(o, p.defaults, f, MarkRanges(h, ranges))
  {
    if OneSpelling(o.defaults.value.Keys) && OneSpelling(p.defaults.Keys) {
      forall a | a in o.defaults.value
        ensures KDefault(a) in MarkRanges(h, ranges)
        ensures DefaultMarked(p.defaults, f, a, MarkRanges(h, ranges)[KDefault(a)])
      {
        assert At(Defaults, a) == KDefault(a) && a in o.defaults.value.Keys;
        MarkRangesAt(p, f, h, ranges, a);
      }
    }
  }

  lemma WidgetsMarkedOf(o: Override, p: EntryProfile, f: Fields, m: map<string, WidgetSpec>, h: Fields)
    requires o.widgets.Some?
    requires OneSpelling(o.widgets.value.Keys) ==> Marked(p.widgets, f, o.widgets.value.Keys, m, h, Widgets)
    ensures WidgetsMarked(o, p.widgets, f, h)
  {
    if OneSpelling(o.widgets.value.Keys) {
      forall a | a in o.widgets.value
        ensures KWidget(a) in h && MarkedAs(p.widgets, f, Widgets, a, h[KWidget(a)])
      {
        assert At(Widgets, a) == KWidget(a) && a in o.widgets.value.Keys;
      }
    }
  }

  method OverlayDefaults(o: Override, p: EntryProfile, f: Fields) returns (q: EntryProfile, g: Fields)
    requires Recorded(p.defaults, f, Defaults) && NoneOver(f)
    ensures LaidOver(o, DefaultKeys(), p, f, q, g) && q.widgets == p.widgets
    ensures o.defaults.Some? ==> LastStands(o.defaults.value.Keys, q.defaults.Keys, OneSpelling(p.defaults.Keys))
    ensures OneSpelling(p.defaults.Keys) ==> OneSpelling(q.defaults.Keys)
    ensures DefaultsMarked(o, p.defaults, f, g) && OtherRecordsKept(f, g, Defaults)
  {
    if o.defaults == None {
      q, g := p, f;
      NothingSet(o, DefaultKeys(), p, f);
      return;
    }
    var ranges := set a | a in p.defaults && p.defaults[a].DetectedRange? :: Lower(a);
    var m, h := MergeAttrs(p.defaults, o.defaults.value, f, Defaults);
    q, g := p.(defaults := m), MarkRanges(h, ranges);
    DefaultsMarkedOf(o, p, f, m, h, ranges);
    DefaultsLaid(o, p, f, m, h, ranges);
  }

  lemma DefaultsLaid(o: Override, p: EntryProfile, f: Fields, m: map<string, DefaultValue>, h: Fields,
                     ranges: set<string>)
    requires o.defaults.Some? && NoneOver(f)
    requires Recorded(p.defaults, f, Defaults) && Recorded(m, h, Defaults) && OthersSame(f, h, Defaults)
    requires Laid(p.defaults, f, o.defaults.value, o.defaults.value.Keys, m, h, Defaults)
    requires LastStands(o.defaults.value.Keys, m.Keys, false)
    requires Unshadowed(p.defaults.Keys, o.defaults.value.Keys, m.Keys)
    ensures LaidOver(o, DefaultKeys(), p, f, p.(defaults := m), MarkRanges(h, ranges))
    ensures OtherRecordsKept(f, MarkRanges(h, ranges), Defaults)
  {
    LaidDefaults(o, p, f, m, h);
    MarkRangesOver(o, p, f, p.(defaults := m), h, ranges);
    OthersKept(f, h, Defaults);
  }

  /** Only records of one kind differ. */
  ghost predicate OtherRecordsKept(f: Fields, g: Fields, kind: Kind) {
    forall key: Key {:trigger SourceAt(g, key)} ::
      !(if kind.Defaults? then key.KDefault? else key.KWidget?) ==> SourceAt(g, key) == SourceAt(f, key)
  }

  lemma OthersKept(f: Fields, g: Fields, kind: Kind)
    requires OthersSame(f, g, kind)
    ensures OtherRecordsKept(f, g, kind)
  {
    forall key: Key | !(if kind.Defaults? then key.KDefault? else key.KWidget?)
      ensures SourceAt(g, key) == SourceAt(f, key)
    {
      assert forall a :: key != At(kind, a);
      assert key in f <==> key in g;
    }
  }

  method OverlayWidgets(o: Override, p: EntryProfile, f: Fields) returns (q: EntryProfile, g: Fields)
    requires Recorded(p.widgets, f, Widgets)
    ensures LaidOver(o, WidgetKeys(), p, f, q, g) && q.defaults == p.defaults
    ensures o.widgets.Some? ==> LastStands(o.widgets.value.Keys, q.widgets.Keys, OneSpelling(p.widgets.Keys))
    ensures OneSpelling(p.widgets.Keys) ==> OneSpelling(q.widgets.Keys)
    ensures WidgetsMarked(o, p.widgets, f, g) && OtherRecordsKept(f, g, Widgets)
  {
    if o.widgets == None {
      q, g := p, f;
      NothingSet(o, WidgetKeys(), p, f);
      return;
    }
    var m, h := MergeAttrs(p.widgets, o.widgets.value, f, Widgets);
    q, g := p.(widgets := m), h;
    LaidWidgets(o, p, f, m, g);
    WidgetsMarkedOf(o, p, f, m, g);
    OthersKept(f, g, Widgets);
  }

  lemma NothingSet(o: Override, done: iset<Key>, p: EntryProfile, f: Fields)
    requires forall key :: key in done ==> ConfigPart(o, key) == None
    ensures LaidOver(o, done, p, f, p, f)
  {
    forall key ensures Verdict(o, key in done, p, f, p, f, key) {
      assert Same(p, f, p, f, key);
    }
  }

  // ---------------------------------------------------------------- the merge of one profile

  function Renamed(spec: WidgetSpec, rename: map<string, string>): WidgetSpec {
    if spec.Linked? && spec.candidate.Profile? && Lower(spec.candidate.name) in rename
    then spec.(candidate := Profile(rename[Lower(spec.candidate.name)])) else spec
  }

  /** `rewrite_candidates`: widgets follow the profiles that took another name. */
  function Rewritten(p: EntryProfile, rename: map<string, string>): EntryProfile {
    p.(widgets := map a | a in p.widgets :: Renamed(p.widgets[a], rename))
  }

  /** A detected range counts the values of the merged profile's own container and structural class. */
  function Retarget(v: DefaultValue, base: string, structural: Option<string>): DefaultValue {
    if v.DetectedRange?
    then DetectedRange(v.spec.(container := base, structural := OrElse(structural, v.spec.structural))) else v
  }

  function Retargeted(p: EntryProfile, structural: Option<string>): EntryProfile {
    p.(defaults := map a | a in p.defaults :: Retarget(p.defaults[a], p.searchBase, structural))
  }

  ghost function AllKeys(): (ks: iset<Key>)
    ensures forall key: Key :: key in ks
  {
    PlainKeys() + DefaultKeys() + WidgetKeys() + iset{KCompanion}
  }

  /** Ranges retargeted and `show` placed, when the config leaves `show` to detection. */
  ghost predicate Adjusted(o: Override, structural: Option<string>, q: EntryProfile, r: EntryProfile) {
    && (forall key: Key {:trigger PartOf(r, key)} ::
          !key.KDefault? && !(key.KShow? && o.show == None) ==> PartOf(r, key) == PartOf(q, key))
    && (forall a {:trigger a in r.defaults} :: a in r.defaults <==> a in q.defaults)
    && (forall a {:trigger r.defaults[a]} :: a in r.defaults ==>
          r.defaults[a] == Retarget(q.defaults[a], r.searchBase, structural))
  }

  /** The structural class of the block's own object classes; a block without any leaves the detected one. */
  function BlockStructural(s: SchemaModel, o: Override): Option<string>
    requires s.Valid()
  {
    if o.objectClasses == None then None else StructuralOf(s, o.objectClasses.value)
  }

  lemma LaidExact(o: Override, done: iset<Key>, p: EntryProfile, f: Fields, q: EntryProfile, g: Fields)
    requires LaidOver(o, done, p, f, q, g) && Exact(p, f)
    ensures Exact(q, g) && Recorded(q.defaults, g, Defaults) && Recorded(q.widgets, g, Widgets)
  {
    forall key: Key | key.Tracked() ensures key in g <==> PartOf(q, key).Some? {
      assert Verdict(o, key in done, p, f, q, g, key) by { assert PartOf(q, key) == PartOf(q, key); }
      assert key in f <==> PartOf(p, key).Some?;
    }
    ExactRecords(q, g);
  }

  lemma ExactRecords(p: EntryProfile, f: Fields)
    requires Exact(p, f)
    ensures Recorded(p.defaults, f, Defaults) && Recorded(p.widgets, f, Widgets)
  {
    forall a ensures (a in p.defaults <==> At(Defaults, a) in f) && (a in p.widgets <==> At(Widgets, a) in f) {
      assert PartOf(p, KDefault(a)).Some? <==> a in p.defaults;
      assert PartOf(p, KWidget(a)).Some? <==> a in p.widgets;
    }
  }

  lemma StillNoneOver(o: Override, p: EntryProfile, f: Fields, q: EntryProfile, g: Fields)
    requires LaidOver(o, PlainKeys(), p, f, q, g) && NoneOver(f)
    ensures NoneOver(g)
  {
    forall a | KDefault(a) in g ensures !g[KDefault(a)].ConfigOverDetected? {
      assert Verdict(o, KDefault(a) in PlainKeys(), p, f, q, g, KDefault(a));
    }
  }

  lemma RewrittenAt(p: EntryProfile, rename: map<string, string>, key: Key)
    ensures PartOf(p, key).Some? <==> PartOf(Rewritten(p, rename), key).Some?
  {
  }

  lemma RewrittenExact(d: DetectedProfile, rename: map<string, string>)
    ensures Exact(Rewritten(d.ToEntryProfile(), rename), DetectedFields(d)) && NoneOver(DetectedFields(d))
  {
    DetectedFieldsExact(d);
    var p, f := d.ToEntryProfile(), DetectedFields(d);
    forall key: Key | key.Tracked() ensures key in f <==> PartOf(Rewritten(p, rename), key).Some? {
      RewrittenAt(p, rename, key);
      assert key in f <==> PartOf(p, key).Some?;
    }
  }

  lemma RewrittenPart(d: DetectedProfile, rename: map<string, string>, key: Key)
    ensures PartOf(Rewritten(d.ToEntryProfile(), rename), key) == DetectedPart(d, rename, key)
  {
  }

  lemma RecordedKey(d: DetectedProfile, key: Key)
    ensures key in DetectedKeys(d) <==> DetectedEvidence(d, key).Some?
  {
    match key
    case KDefault(a) =>
      assert a in d.defaults <==> key in (set b | b in d.defaults :: KDefault(b));
    case KWidget(a) =>
      assert a in d.widgets <==> key in (set b | b in d.widgets :: KWidget(b));
    case _ =>
  }

  lemma RecordedEvidence(d: DetectedProfile, key: Key)
    ensures DetectedEvidence(d, key).Some? ==> EvidenceOf(d, key) == DetectedEvidence(d, key).value
  {
  }

  lemma DetectedFieldAt(d: DetectedProfile, key: Key)
    ensures SourceAt(DetectedFields(d), key) == DetectedSource(d, key)
  {
    RecordedKey(d, key);
    RecordedEvidence(d, key);
  }

  /** A detected profile is taken over whole: every part and every record is the detected one. */
  lemma TakenOverWhole(d: DetectedProfile, rename: map<string, string>)
    ensures AsDetected(d, rename, Rewritten(d.ToEntryProfile(), rename), DetectedFields(d))
    ensures Rewritten(d.ToEntryProfile(), rename).name == d.name && !Rewritten(d.ToEntryProfile(), rename).boundary
  {
    var p, f := Rewritten(d.ToEntryProfile(), rename), DetectedFields(d);
    forall key: Key
      ensures PartOf(p, key) == DetectedPart(d, rename, key) && SourceAt(f, key) == DetectedSource(d, key)
    {
      RewrittenPart(d, rename, key);
      DetectedFieldAt(d, key);
    }
  }

  /** Of several spellings a block gives an attribute only the last is laid over what was detected in one spelling. */
  ghost predicate LaidLast(d: DetectedProfile, o: Override, q: EntryProfile) {
    && (o.defaults.Some? ==> LastStands(o.defaults.value.Keys, q.defaults.Keys, OneSpelling(d.defaults.Keys)))
    && (o.widgets.Some? ==> LastStands(o.widgets.value.Keys, q.widgets.Keys, OneSpelling(d.widgets.Keys)))
    && (OneSpelling(d.defaults.Keys) ==> OneSpelling(q.defaults.Keys))
    && (OneSpelling(d.widgets.Keys) ==> OneSpelling(q.widgets.Keys))
  }

  /** The parts, the defaults and the widgets of the block, laid over in this order, and then the companion. */
  method OverlayAll(o: Override, p0: EntryProfile, f0: Fields) returns (p: EntryProfile, f: Fields)
    requires Exact(p0, f0) && NoneOver(f0)
    ensures LaidOver(o, AllKeys(), p0, f0, p, f)
    ensures o.defaults.Some? ==> LastStands(o.defaults.value.Keys, p.defaults.Keys, OneSpelling(p0.defaults.Keys))
    ensures o.widgets.Some? ==> LastStands(o.widgets.value.Keys, p.widgets.Keys, OneSpelling(p0.widgets.Keys))
    ensures OneSpelling(p0.defaults.Keys) ==> OneSpelling(p.defaults.Keys)
    ensures OneSpelling(p0.widgets.Keys) ==> OneSpelling(p.widgets.Keys)
    ensures DefaultsMarked(o, p0.defaults, f0, f) && WidgetsMarked(o, p0.widgets, f0, f)
  {
    var p1, f1 := OverlayPlain(o, p0, f0);
    LaidExact(o, PlainKeys(), p0, f0, p1, f1);
    StillNoneOver(o, p0, f0, p1, f1);
    var p2, f2 := OverlayDefaults(o, p1, f1);
    LaidOverTwice(o, PlainKeys(), DefaultKeys(), p0, f0, p1, f1, p2, f2);
    LaidExact(o, DefaultKeys(), p1, f1, p2, f2);
    var p3, f3 := OverlayWidgets(o, p2, f2);
    LaidOverTwice(o, PlainKeys() + DefaultKeys(), WidgetKeys(), p0, f0, p2, f2, p3, f3);
    p, f := OverlayNext(o, PlainKeys() + DefaultKeys() + WidgetKeys(), p0, f0, p3, f3, KCompanion);
    DefaultMarksCarry(o, p0.defaults, f0, f1, f2, f3, f);
    WidgetMarksCarry(o, p0.widgets, f0, f1, f2, f3, f);
  }

  lemma DefaultMarksCarry(o: Override, defaults: map<string, DefaultValue>, f0: Fields, f1: Fields, f2: Fields,
                          f3: Fields, f: Fields)
    requires AttrRecordsKept(f0, f1) && DefaultsMarked(o, defaults, f1, f2)
    requires OtherRecordsKept(f2, f3, Widgets) && AttrRecordsKept(f3, f)
    ensures DefaultsMarked(o, defaults, f0, f)
  {
    if o.defaults.Some? && OneSpelling(o.defaults.value.Keys) && OneSpelling(defaults.Keys) {
      forall a | a in o.defaults.value ensures KDefault(a) in f && DefaultMarked(defaults, f0, a, f[KDefault(a)]) {
        assert KDefault(a) in f2 && DefaultMarked(defaults, f1, a, f2[KDefault(a)]);
        assert SourceAt(f3, KDefault(a)) == SourceAt(f2, KDefault(a)) == SourceAt(f, KDefault(a));
        forall w ensures SourceAt(f1, KDefault(w)) == SourceAt(f0, KDefault(w)) { }
      }
    }
  }

  lemma WidgetMarksCarry(o: Override, widgets: map<string, WidgetSpec>, f0: Fields, f1: Fields, f2: Fields,
                         f3: Fields, f: Fields)
    requires AttrRecordsKept(f0, f1) && OtherRecordsKept(f1, f2, Defaults)
    requires WidgetsMarked(o, widgets, f2, f3) && AttrRecordsKept(f3, f)
    ensures WidgetsMarked(o, widgets, f0, f)
  {
    if o.widgets.Some? && OneSpelling(o.widgets.value.Keys) {
      forall a | a in o.widgets.value ensures KWidget(a) in f && MarkedAs(widgets, f0, Widgets, a, f[KWidget(a)]) {
        assert KWidget(a) in f3 && MarkedAs(widgets, f2, Widgets, a, f3[KWidget(a)]);
        assert SourceAt(f, KWidget(a)) == SourceAt(f3, KWidget(a));
        forall w ensures SourceAt(f2, At(Widgets, w)) == SourceAt(f0, At(Widgets, w)) {
          assert SourceAt(f2, KWidget(w)) == SourceAt(f1, KWidget(w)) == SourceAt(f0, KWidget(w));
        }
      }
    }
  }

  /** `merge_one` up to `suppress`: every part follows its verdict, then ranges and `show` are adjusted. */
  method MergeFields(s: SchemaModel, place: ShowRule, d: DetectedProfile, o: Override, rename: map<string, string>)
    returns (p: EntryProfile, f: Fields, ghost laid: EntryProfile)
    requires s.Valid()
    ensures LaidOver(o, AllKeys(), Rewritten(d.ToEntryProfile(), rename), DetectedFields(d), laid, f)
    ensures LaidLast(d, o, laid) && Adjusted(o, BlockStructural(s, o), laid, p) && p.name == o.name && p.boundary
    ensures DefaultsMarked(o, Rewritten(d.ToEntryProfile(), rename).defaults, DetectedFields(d), f)
    ensures WidgetsMarked(o, Rewritten(d.ToEntryProfile(), rename).widgets, DetectedFields(d), f)
  {
    var p0 := Rewritten(d.ToEntryProfile(), rename);
    RewrittenExact(d, rename);
    assert p0.defaults.Keys == d.defaults.Keys && p0.widgets.Keys == d.widgets.Keys;
    p, f := OverlayAll(o, p0, DetectedFields(d));
    laid := p;
    var structural: Option<string> := None;
    if o.objectClasses.Some? {
      structural := StructuralClass(s, o.objectClasses.value);
    }
    p := Retargeted(p, structural).(name := o.name, boundary := true);
    if o.show == None {
      p := p.(show := place(d, p));
    }
    AdjustedOf(o, laid, structural, p);
  }

  lemma AdjustedOf(o: Override, q: EntryProfile, structural: Option<string>, r: EntryProfile)
    requires r == Retargeted(q, structural).(name := r.name, boundary := r.boundary, show := r.show)
    requires o.show.Some? ==> r.show == q.show
    ensures Adjusted(o, structural, q, r)
  {
  }

  /** Everything the block sets is in `p` as it sets it, every spelling included. */
  ghost predicate AllWin(o: Override, p: EntryProfile) {
    forall key {:trigger ConfigPart(o, key)} :: ConfigPart(o, key).Some? ==> PartOf(p, key) == ConfigPart(o, key)
  }

  /** The config wins in every spelling exactly when its block spells no attribute twice. */
  lemma AllWinIff(d: DetectedProfile, o: Override, structural: Option<string>, laid: EntryProfile,
                  p: EntryProfile, f: Fields)
    requires Wins(o, p, f) && LaidLast(d, o, laid) && Adjusted(o, structural, laid, p)
    requires OneSpelling(d.defaults.Keys) && OneSpelling(d.widgets.Keys)
    ensures AllWin(o, p) <==> o.SpelledOnce()
  {
    if o.defaults.Some? { AllLastMeansOne(o.defaults.value.Keys); }
    if o.widgets.Some? { AllLastMeansOne(o.widgets.value.Keys); }
    if AllWin(o, p) {
      forall key: Key | ConfigPart(o, key).Some? ensures Last(o, key) {
        assert PartOf(p, key) == ConfigPart(o, key);
        AdjustedAt(o, structural, laid, p, key);
      }
      AllLastSpelledOnce(o);
    } else if o.SpelledOnce() {
      forall key: Key | ConfigPart(o, key).Some? ensures PartOf(p, key) == ConfigPart(o, key) {
        assert Last(o, key);
      }
    }
  }

  lemma AllLastSpelledOnce(o: Override)
    requires forall key: Key {:trigger ConfigPart(o, key)} :: ConfigPart(o, key).Some? ==> Last(o, key)
    ensures o.SpelledOnce()
  {
    if o.defaults.Some? {
      AllLastMeansOne(o.defaults.value.Keys);
      forall a | a in o.defaults.value.Keys ensures LastSpelling(o.defaults.value.Keys, a) {
        assert ConfigPart(o, KDefault(a)).Some?;
      }
    }
    if o.widgets.Some? {
      AllLastMeansOne(o.widgets.value.Keys);
      forall a | a in o.widgets.value.Keys ensures LastSpelling(o.widgets.value.Keys, a) {
        assert ConfigPart(o, KWidget(a)).Some?;
      }
    }
  }

  /** The merged profile is exactly recorded, the config wins, and no range is taken for the config's. */
  lemma MergedHolds(d: DetectedProfile, o: Override, rename: map<string, string>, structural: Option<string>,
                    laid: EntryProfile, p: EntryProfile, f: Fields)
    requires LaidOver(o, AllKeys(), Rewritten(d.ToEntryProfile(), rename), DetectedFields(d), laid, f)
    requires Adjusted(o, structural, laid, p)
    ensures Exact(p, f)
    ensures o.NoRanges() ==> Wins(o, p, f) && RangesGenerated(p, f)
  {
    var p0, f0 := Rewritten(d.ToEntryProfile(), rename), DetectedFields(d);
    RewrittenExact(d, rename);
    LaidExact(o, AllKeys(), p0, f0, laid, f);
    forall key: Key | key.Tracked() ensures key in f <==> PartOf(p, key).Some? {
      AdjustedAt(o, structural, laid, p, key);
      assert PartOf(laid, key).Some? <==> key in f;
    }
    if o.NoRanges() {
      forall key | ConfigPart(o, key).Some? && Last(o, key)
        ensures PartOf(p, key) == ConfigPart(o, key) && Firm(f, key)
      {
        assert Verdict(o, key in AllKeys(), p0, f0, laid, f, key);
        AdjustedAt(o, structural, laid, p, key);
      }
      forall a | a in p.defaults && p.defaults[a].DetectedRange?
        ensures KDefault(a) in f && f[KDefault(a)].Generated()
      {
        RangeFromDetection(d, o, p0, f0, laid, f, a);
      }
    }
  }

  lemma AdjustedAt(o: Override, structural: Option<string>, q: EntryProfile, r: EntryProfile, key: Key)
    requires Adjusted(o, structural, q, r)
    ensures key.Tracked() ==> (PartOf(r, key).Some? <==> PartOf(q, key).Some?)
    ensures o.NoRanges() && ConfigPart(o, key).Some? && PartOf(q, key) == ConfigPart(o, key) ==>
              PartOf(r, key) == PartOf(q, key)
  {
    if key.KDefault? {
      var a := key.attr;
      assert a in r.defaults <==> a in q.defaults;
      if a in r.defaults { assert r.defaults[a] == r.defaults[a]; }
    }
  }

  lemma RangeFromDetection(d: DetectedProfile, o: Override, p0: EntryProfile, f0: Fields, laid: EntryProfile,
                           f: Fields, a: string)
    requires o.NoRanges() && f0 == DetectedFields(d) && LaidOver(o, AllKeys(), p0, f0, laid, f)
    requires Recorded(laid.defaults, f, Defaults) && a in laid.defaults && laid.defaults[a].DetectedRange?
    ensures KDefault(a) in f && f[KDefault(a)].Generated()
  {
    DetectedFieldsExact(d);
    assert At(Defaults, a) == KDefault(a);
    assert Verdict(o, KDefault(a) in AllKeys(), p0, f0, laid, f, KDefault(a)) by {
      assert PartOf(laid, KDefault(a)).Some?;
    }
  }

  // ---------------------------------------------------------------- the merged profile, part by part

  /** A detected range counts the entries of the merged profile: those at its base, of the block's structural class if
      the block decides that. */
  function Adapted(part: Option<Part>, base: string, structural: Option<string>): Option<Part> {
    match part
    case Some(ADefault(DetectedRange(r))) =>
      Some(ADefault(DetectedRange(Ranges.RangeSpec(r.attr, base, OrElse(structural, r.structural), r.unified,
                                            r.excludePrivate))))
    case _ => part
  }

  /** How the record of a part that the block sets tells what was detected there: an attribute in any case. */
  ghost predicate OverDetected(d: DetectedProfile, o: Override, key: Key, src: Source) {
    match key
    case KDefault(a) =>
      !src.Generated()
      && (OneSpelling(d.defaults.Keys) && (o.defaults.Some? ==> OneSpelling(o.defaults.value.Keys)) ==>
            if Shadowed(d.defaults.Keys, a) then
              exists w :: w in d.defaults && EqCi(w, a) && src == OverDefault(d, w)
            else src == Config)
    case KWidget(a) =>
      !src.Generated()
      && ((o.widgets.Some? ==> OneSpelling(o.widgets.value.Keys)) ==>
            if Shadowed(d.widgets.Keys, a) then
              exists w :: w in d.widgets && EqCi(w, a) && src == MarkOf(DetectedSource(d, KWidget(w)))
            else src == Config)
    case _ => src == MarkOf(DetectedSource(d, key))
  }

  function OverDefault(d: DetectedProfile, w: string): Source
    requires w in d.defaults
  {
    var mark := MarkOf(DetectedSource(d, KDefault(w)));
    if mark.ConfigOverDetected? && d.defaults[w].0.DetectedRange? then ConfigOverDetectedRange else mark
  }

  /** The detection spells each attribute of this kind once. */
  ghost predicate DetectedOnce(d: DetectedProfile, key: Key) {
    (key.KDefault? ==> OneSpelling(d.defaults.Keys)) && (key.KWidget? ==> OneSpelling(d.widgets.Keys))
  }

  /** What the merge of a detected profile and a block has under `key`: what the block sets, in its last spelling;
      nothing under another spelling of that; and what was detected where the block says nothing, but that a number
      range is adapted and the placing of password fields in `show` is not looked into. */
  ghost predicate MergedAt(d: DetectedProfile, o: Override, rename: map<string, string>, structural: Option<string>,
                           p: EntryProfile, f: Fields, key: Key) {
    if ConfigPart(o, key).Some? && Last(o, key) then
      (o.NoRanges() ==> PartOf(p, key) == ConfigPart(o, key)) && key in f && OverDetected(d, o, key, f[key])
    else if SetInAnyCase(o, key) then
      DetectedOnce(d, key) ==> PartOf(p, key) == None && key !in f
    else
      SourceAt(f, key) == DetectedSource(d, key)
      && (!key.KShow? ==> PartOf(p, key) == Adapted(DetectedPart(d, rename, key), p.searchBase, structural))
  }

  ghost predicate AsMerged(d: DetectedProfile, o: Override, rename: map<string, string>, structural: Option<string>,
                           p: EntryProfile, f: Fields) {
    && p.name == o.name && p.boundary
    && forall key: Key {:trigger PartOf(p, key)} {:trigger key in f} ::
         MergedAt(d, o, rename, structural, p, f, key)
  }

  /** Every part and record of a merged profile, for every block and every detected profile. */
  lemma MergedExactly(d: DetectedProfile, o: Override, rename: map<string, string>, structural: Option<string>,
                      laid: EntryProfile, p: EntryProfile, f: Fields)
    requires LaidOver(o, AllKeys(), Rewritten(d.ToEntryProfile(), rename), DetectedFields(d), laid, f)
    requires LaidLast(d, o, laid) && Adjusted(o, structural, laid, p) && p.name == o.name && p.boundary
    requires DefaultsMarked(o, Rewritten(d.ToEntryProfile(), rename).defaults, DetectedFields(d), f)
    requires WidgetsMarked(o, Rewritten(d.ToEntryProfile(), rename).widgets, DetectedFields(d), f)
    ensures AsMerged(d, o, rename, structural, p, f)
  {
    TakenOverWhole(d, rename);
    var p0, f0 := Rewritten(d.ToEntryProfile(), rename), DetectedFields(d);
    forall key: Key ensures MergedAt(d, o, rename, structural, p, f, key) {
      assert Verdict(o, true, p0, f0, laid, f, key) by {
        assert key in AllKeys() && PartOf(laid, key) == PartOf(laid, key);
      }
      assert PartOf(p0, key) == DetectedPart(d, rename, key) && SourceAt(f0, key) == DetectedSource(d, key);
      MergedKey(d, o, rename, structural, p0, f0, laid, p, f, key);
    }
  }

  lemma MergedKey(d: DetectedProfile, o: Override, rename: map<string, string>, structural: Option<string>,
                  p0: EntryProfile, f0: Fields, laid: EntryProfile, p: EntryProfile, f: Fields, key: Key)
    requires Verdict(o, true, p0, f0, laid, f, key) && LaidLast(d, o, laid) && Adjusted(o, structural, laid, p)
    requires PartOf(p0, key) == DetectedPart(d, rename, key) && SourceAt(f0, key) == DetectedSource(d, key)
    requires p0 == Rewritten(d.ToEntryProfile(), rename) && f0 == DetectedFields(d)
    requires DefaultsMarked(o, p0.defaults, f0, f) && WidgetsMarked(o, p0.widgets, f0, f)
    ensures MergedAt(d, o, rename, structural, p, f, key)
  {
    if ConfigPart(o, key).Some? && Last(o, key) {
      AdjustedAt(o, structural, laid, p, key);
      RecordOver(d, o, rename, f, key);
    } else {
      AdjustedPart(o, structural, laid, p, key);
      MergedUnset(d, o, rename, structural, p0, f0, laid, p, f, key);
    }
  }

  lemma MergedUnset(d: DetectedProfile, o: Override, rename: map<string, string>, structural: Option<string>,
                    p0: EntryProfile, f0: Fields, laid: EntryProfile, p: EntryProfile, f: Fields, key: Key)
    requires Verdict(o, true, p0, f0, laid, f, key) && LaidLast(d, o, laid)
    requires PartOf(p0, key) == DetectedPart(d, rename, key) && SourceAt(f0, key) == DetectedSource(d, key)
    requires !key.KShow? ==> PartOf(p, key) == Adapted(PartOf(laid, key), p.searchBase, structural)
    requires !(ConfigPart(o, key).Some? && Last(o, key))
    ensures MergedAt(d, o, rename, structural, p, f, key)
  {
    if SetInAnyCase(o, key) && DetectedOnce(d, key) {
      SpelledOtherwise(d, o, p0, f0, laid, p, f, key);
    }
  }

  lemma SpelledOtherwise(d: DetectedProfile, o: Override, p0: EntryProfile, f0: Fields, laid: EntryProfile,
                         p: EntryProfile, f: Fields, key: Key)
    requires Verdict(o, true, p0, f0, laid, f, key) && LaidLast(d, o, laid) && DetectedOnce(d, key)
    requires SourceAt(f0, key).Some? ==> PartOf(p0, key).Some?
    requires SetInAnyCase(o, key) && !(ConfigPart(o, key).Some? && Last(o, key))
    requires PartOf(laid, key) == None ==> PartOf(p, key) == None
    ensures PartOf(p, key) == None && key !in f
  {
    OtherSpellingGone(d, o, laid, key);
  }

  /** Ranges are adapted, all else is as laid. */
  lemma AdjustedPart(o: Override, structural: Option<string>, q: EntryProfile, r: EntryProfile, key: Key)
    requires Adjusted(o, structural, q, r)
    ensures !key.KShow? ==> PartOf(r, key) == Adapted(PartOf(q, key), r.searchBase, structural)
  {
    if key.KDefault? {
      assert key.attr in r.defaults <==> key.attr in q.defaults;
      if key.attr in r.defaults { assert r.defaults[key.attr] == r.defaults[key.attr]; }
    } else {
      assert !key.KShow? ==> PartOf(r, key) == PartOf(q, key);
    }
  }

  lemma RecordOver(d: DetectedProfile, o: Override, rename: map<string, string>, f: Fields, key: Key)
    requires ConfigPart(o, key).Some? && key in f && !f[key].Generated()
    requires var p0 := Rewritten(d.ToEntryProfile(), rename);
             && DefaultsMarked(o, p0.defaults, DetectedFields(d), f)
             && WidgetsMarked(o, p0.widgets, DetectedFields(d), f)
             && (!key.KDefault? && !key.KWidget? ==> f[key] == MarkedOver(p0, DetectedFields(d), key))
    ensures OverDetected(d, o, key, f[key])
  {
    var p0, f0 := Rewritten(d.ToEntryProfile(), rename), DetectedFields(d);
    RewrittenPart(d, rename, key);
    DetectedFieldAt(d, key);
    match key
    case KDefault(a) =>
      assert p0.defaults.Keys == d.defaults.Keys;
      forall w ensures SourceAt(f0, KDefault(w)) == DetectedSource(d, KDefault(w)) { DetectedFieldAt(d, KDefault(w)); }
      assert a in o.defaults.value;
    case KWidget(a) =>
      assert p0.widgets.Keys == d.widgets.Keys;
      forall w ensures SourceAt(f0, At(Widgets, w)) == DetectedSource(d, KWidget(w)) {
        DetectedFieldAt(d, KWidget(w));
      }
      assert a in o.widgets.value;
    case _ =>
  }

  lemma OtherSpellingGone(d: DetectedProfile, o: Override, laid: EntryProfile, key: Key)
    requires LaidLast(d, o, laid) && DetectedOnce(d, key) && SetInAnyCase(o, key)
    requires !(ConfigPart(o, key).Some? && Last(o, key))
    ensures PartOf(laid, key) == None
  {
    if key.KDefault? {
      SpellingGone(o.defaults.value.Keys, laid.defaults.Keys, key.attr);
    } else {
      SpellingGone(o.widgets.value.Keys, laid.widgets.Keys, key.attr);
    }
  }

  lemma SpellingGone(config: set<string>, names: set<string>, a: string)
    requires LastStands(config, names, true) && OneSpelling(names) && Shadowed(config, a)
    requires !(a in config && LastSpelling(config, a))
    ensures a !in names
  {
    if a !in config {
      var last := LastOf(config, a);
      assert last in names;
    }
  }

  /** Among the spellings of one attribute there is a last one. */
  lemma LastOf(config: set<string>, a: string) returns (last: string)
    requires Shadowed(config, a)
    ensures last in config && EqCi(last, a) && LastSpelling(config, last)
  {
    var same := set c | c in config && EqCi(c, a);
    var c :| c in config && EqCi(c, a);
    assert c in same;
    last := Greatest(same);
    forall b | b in config && EqCi(b, last) ensures StrLe(b, last) { assert b in same; }
  }

  lemma {:induction false} Greatest(names: set<string>) returns (n: string)
    requires names != {}
    ensures n in names && forall m :: m in names ==> StrLe(m, n)
    decreases |names|
  {
    n :| n in names;
    StrLeTotal(n, n);
    var rest := names - {n};
    if rest != {} {
      var r := Greatest(rest);
      StrLeTotal(n, r);
      if StrLe(r, n) {
        forall m | m in rest ensures StrLe(m, n) { StrLeTrans(m, r, n); }
      } else {
        n := r;
      }
    }
  }
}
