/** Entry profiles, config blocks, detected profiles and where each part of a profile comes from
    (`config/mod.rs`, `detect/model.rs`, `detect/merge.rs`). */
module Profiles {
  import opened Text
  import opened Templates

  datatype CandidateRef = Profile(name: string) | Inline

  /** A widget binding: a kind, and for pickers, memberships and lookups the profile it picks from. */
  datatype WidgetSpec = Linked(kind: string, candidate: CandidateRef) | Unlinked(kind: string)

  datatype Companion =
    Companion(objectClasses: seq<string>, rdnAttr: string, searchBase: string, attributes: map<string, string>)

  datatype EntryProfile = EntryProfile(
    name: string, objectClasses: seq<string>, rdnAttr: string, searchBase: string,
    show: seq<string>, searchAttrs: seq<string>, template: Option<string>,
    defaults: map<string, DefaultValue>, widgets: map<string, WidgetSpec>,
    companion: Option<Companion>, boundary: bool)

  datatype Override = Override(
    name: string, enabled: Option<bool>, suppress: seq<string>,
    objectClasses: Option<seq<string>>, rdnAttr: Option<string>, searchBase: Option<string>,
    show: Option<seq<string>>, searchAttrs: Option<seq<string>>, template: Option<string>,
    defaults: Option<map<string, DefaultValue>>, widgets: Option<map<string, WidgetSpec>>,
    companion: Option<Companion>)
  {
    predicate Enabled() {
      enabled != Some(false)
    }

    function ToEntryProfile(): Option<EntryProfile> {
      if objectClasses == None then None
      else Some(EntryProfile(name, objectClasses.value, OrElse(rdnAttr, ""), OrElse(searchBase, ""),
                             OrElse(show, []), OrElse(searchAttrs, []), template,
                             OrElse(defaults, map[]), OrElse(widgets, map[]), companion, true))
    }

    /** A config file has no way to write a detected range. */
    ghost predicate NoRanges() {
      defaults.Some? ==> forall a :: a in defaults.value ==> !defaults.value[a].DetectedRange?
    }

    /** No attribute is given twice in differing case. */
    ghost predicate SpelledOnce() {
      (defaults.Some? ==> OneSpelling(defaults.value.Keys)) && (widgets.Some? ==> OneSpelling(widgets.value.Keys))
    }
  }

  function OrElse<T>(o: Option<T>, other: T): T {
    match o case None => other case Some(v) => v
  }

  predicate OneSpelling(names: set<string>) {
    forall a, b :: a in names && b in names && EqCi(a, b) ==> a == b
  }

  /** No spelling of this attribute comes later in the order of the names. */
  ghost predicate LastSpelling(names: set<string>, a: string) {
    forall b :: b in names && EqCi(b, a) ==> StrLe(b, a)
  }

  lemma AllLastMeansOne(names: set<string>)
    ensures OneSpelling(names) <==> forall a :: a in names ==> LastSpelling(names, a)
  {
    if forall a :: a in names ==> LastSpelling(names, a) {
      forall a, b | a in names && b in names && EqCi(a, b) ensures a == b {
        assert LastSpelling(names, a) && LastSpelling(names, b);
        StrLeAnti(a, b);
      }
    }
    if OneSpelling(names) {
      forall a, b | a in names && b in names && EqCi(b, a) ensures StrLe(b, a) { StrLeTotal(a, a); }
    }
  }

  datatype Evidence = Evidence(matched: nat, sampled: nat)

  datatype DetectedProfile = DetectedProfile(
    name: string, structural: string, container: string, sampled: nat, partial: bool,
    objectClasses: (seq<string>, Evidence), rdnAttr: (string, Evidence),
    show: seq<string>, searchAttrs: seq<string>, template: Option<string>,
    defaults: map<string, (DefaultValue, Evidence)>, widgets: map<string, (WidgetSpec, Evidence)>,
    companion: Option<(Companion, Evidence)>, assumed: map<Key, string>,
    usersWithoutPrivateGroup: Option<nat>)
  {
    function ToEntryProfile(): EntryProfile {
      EntryProfile(name, objectClasses.0, rdnAttr.0, container, show, searchAttrs, template,
                   map a | a in defaults :: defaults[a].0, map a | a in widgets :: widgets[a].0,
                   if companion == None then None else Some(companion.value.0), false)
    }
  }

  /** One part of a profile; stands for the keys `defaults.<attr>`, `widget.<attr>`, `label` and so on. */
  datatype Key =
    | KObjectClasses | KRdnAttr | KSearchBase | KShow | KSearchAttrs | KLabel | KCompanion
    | KDefault(attr: string) | KWidget(attr: string)
  {
    /** The parts that can be there or not. */
    predicate Tracked() {
      KLabel? || KCompanion? || KDefault? || KWidget?
    }
  }

  datatype Source =
    | Config
    | Detected(evidence: Evidence)
    | Assumed(reason: string)
    | ConfigOverDetected(evidence: Evidence)
    | ConfigOverDetectedRange
  {
    predicate Generated() {
      Detected? || Assumed?
    }
  }

  type Fields = map<Key, Source>

  datatype Origin =
    | OnlyConfig
    | OnlyDetected(sampled: nat)
    | MergedInto(detected: string, sampled: nat)

  datatype Provenance =
    Provenance(name: string, origin: Origin, fields: Fields, suppressed: seq<string>, pending: seq<string>)

  datatype Part =
    | Names(names: seq<string>) | Text(text: string) | ADefault(value: DefaultValue)
    | AWidget(spec: WidgetSpec) | ACompanion(companion: Companion)

  /** The part of `p` under `key`, if it has one. */
  function PartOf(p: EntryProfile, key: Key): Option<Part> {
    match key
    case KObjectClasses => Some(Names(p.objectClasses))
    case KRdnAttr => Some(Text(p.rdnAttr))
    case KSearchBase => Some(Text(p.searchBase))
    case KShow => Some(Names(p.show))
    case KSearchAttrs => Some(Names(p.searchAttrs))
    case KLabel => if p.template == None then None else Some(Text(p.template.value))
    case KCompanion => if p.companion == None then None else Some(ACompanion(p.companion.value))
    case KDefault(a) => if a in p.defaults then Some(ADefault(p.defaults[a])) else None
    case KWidget(a) => if a in p.widgets then Some(AWidget(p.widgets[a])) else None
  }

  /** The part that a config block sets under `key`, if it sets it. */
  function ConfigPart(o: Override, key: Key): Option<Part> {
    match key
    case KObjectClasses => if o.objectClasses == None then None else Some(Names(o.objectClasses.value))
    case KRdnAttr => if o.rdnAttr == None then None else Some(Text(o.rdnAttr.value))
    case KSearchBase => if o.searchBase == None then None else Some(Text(o.searchBase.value))
    case KShow => if o.show == None then None else Some(Names(o.show.value))
    case KSearchAttrs => if o.searchAttrs == None then None else Some(Names(o.searchAttrs.value))
    case KLabel => if o.template == None then None else Some(Text(o.template.value))
    case KCompanion => if o.companion == None then None else Some(ACompanion(o.companion.value))
    case KDefault(a) => if o.defaults.Some? && a in o.defaults.value then Some(ADefault(o.defaults.value[a])) else None
    case KWidget(a) => if o.widgets.Some? && a in o.widgets.value then Some(AWidget(o.widgets.value[a])) else None
  }

  /** A reference to a profile follows it to its new name. */
  function Following(spec: WidgetSpec, rename: map<string, string>): WidgetSpec {
    match spec
    case Linked(kind, Profile(name)) => Linked(kind, Profile(NewName(name, rename)))
    case _ => spec
  }

  function NewName(name: string, rename: map<string, string>): string {
    if Lower(name) in rename then rename[Lower(name)] else name
  }

  /** The part that a detected profile has under `key`, if it has it. */
  function DetectedPart(d: DetectedProfile, rename: map<string, string>, key: Key): Option<Part> {
    match key
    case KObjectClasses => Some(Names(d.objectClasses.0))
    case KRdnAttr => Some(Text(d.rdnAttr.0))
    case KSearchBase => Some(Text(d.container))
    case KShow => Some(Names(d.show))
    case KSearchAttrs => Some(Names(d.searchAttrs))
    case KLabel => if d.template == None then None else Some(Text(d.template.value))
    case KCompanion => if d.companion == None then None else Some(ACompanion(d.companion.value.0))
    case KDefault(a) => if a in d.defaults then Some(ADefault(d.defaults[a].0)) else None
    case KWidget(a) => if a in d.widgets then Some(AWidget(Following(d.widgets[a].0, rename))) else None
  }

  /** How well the sample supports that part; empty lists count as not there. */
  function DetectedEvidence(d: DetectedProfile, key: Key): Option<Evidence> {
    var whole := Some(Evidence(d.sampled, d.sampled));
    match key
    case KObjectClasses => Some(d.objectClasses.1)
    case KRdnAttr => Some(d.rdnAttr.1)
    case KSearchBase => whole
    case KShow => if d.show == [] then None else whole
    case KSearchAttrs => if d.searchAttrs == [] then None else whole
    case KLabel => if d.template == None then None else whole
    case KCompanion => if d.companion == None then None else Some(d.companion.value.1)
    case KDefault(a) => if a in d.defaults then Some(d.defaults[a].1) else None
    case KWidget(a) => if a in d.widgets then Some(d.widgets[a].1) else None
  }

  /** How that part is recorded: as assumed if the detection says so, else as detected. */
  function DetectedSource(d: DetectedProfile, key: Key): Option<Source> {
    match DetectedEvidence(d, key)
    case None => None
    case Some(evidence) => Some(if key in d.assumed then Assumed(d.assumed[key]) else Detected(evidence))
  }

  function SourceAt(f: Fields, key: Key): Option<Source> {
    if key in f then Some(f[key]) else None
  }

  /** `(p, f)` is the detected profile `d` as it stands, part by part and record by record. */
  ghost predicate AsDetected(d: DetectedProfile, rename: map<string, string>, p: EntryProfile, f: Fields) {
    forall key: Key {:trigger PartOf(p, key)} {:trigger key in f} ::
      PartOf(p, key) == DetectedPart(d, rename, key) && SourceAt(f, key) == DetectedSource(d, key)
  }

  /** Of several spellings of one attribute, the one that counts. */
  ghost predicate Last(o: Override, key: Key) {
    match key
    case KDefault(a) => o.defaults.Some? ==> LastSpelling(o.defaults.value.Keys, a)
    case KWidget(a) => o.widgets.Some? ==> LastSpelling(o.widgets.value.Keys, a)
    case _ => true
  }

  // ---------------------------------------------------------------- what the pipeline keeps

  /** The recorded parts are exactly the parts the profile has. */
  ghost predicate Exact(p: EntryProfile, f: Fields) {
    forall key: Key {:trigger PartOf(p, key)} {:trigger key in f} :: key.Tracked() ==>
        (key in f <==> PartOf(p, key).Some?)
  }

  /** Nothing generated stands under `key`. */
  predicate Firm(f: Fields, key: Key) {
    key in f ==> !f[key].Generated()
  }

  /** Everything `o` sets is in the profile as `o` sets it, and is recorded as the config's;
      of several spellings of one attribute that is so for the last. */
  ghost predicate Wins(o: Override, p: EntryProfile, f: Fields) {
    forall key {:trigger ConfigPart(o, key)} {:trigger PartOf(p, key)} ::
      ConfigPart(o, key).Some? && Last(o, key) ==> PartOf(p, key) == ConfigPart(o, key) && Firm(f, key)
  }

  /** No detected number range is recorded as the config's. */
  ghost predicate RangesGenerated(p: EntryProfile, f: Fields) {
    forall a :: a in p.defaults && p.defaults[a].DetectedRange? ==> KDefault(a) in f && f[KDefault(a)].Generated()
  }

  /** A step from `(p, f)` to `(q, g)` that leaves every part alone that is not a generated one. */
  ghost predicate Keeps(p: EntryProfile, f: Fields, q: EntryProfile, g: Fields) {
    forall key {:trigger PartOf(q, key)} {:trigger Firm(f, key)} ::
      Firm(f, key) && PartOf(p, key).Some? ==> PartOf(q, key) == PartOf(p, key) && Firm(g, key)
  }

  lemma KeepsWins(o: Override, p: EntryProfile, f: Fields, q: EntryProfile, g: Fields)
    requires Wins(o, p, f) && Keeps(p, f, q, g)
    ensures Wins(o, q, g)
  {
    forall key | ConfigPart(o, key).Some? && Last(o, key)
      ensures PartOf(q, key) == ConfigPart(o, key) && Firm(g, key)
    {
      assert PartOf(p, key) == ConfigPart(o, key);
    }
  }

  lemma KeepsTwice(p: EntryProfile, f: Fields, q: EntryProfile, g: Fields, r: EntryProfile, h: Fields)
    requires Keeps(p, f, q, g) && Keeps(q, g, r, h)
    ensures Keeps(p, f, r, h)
  {
    forall key | Firm(f, key) && PartOf(p, key).Some? ensures PartOf(r, key) == PartOf(p, key) && Firm(h, key) {
      assert PartOf(q, key) == PartOf(p, key);
    }
  }

  // ---------------------------------------------------------------- recorded sources

  function DetectedKeys(d: DetectedProfile): set<Key> {
    {KObjectClasses, KRdnAttr, KSearchBase}
    + (if d.show == [] then {} else {KShow}) + (if d.searchAttrs == [] then {} else {KSearchAttrs})
    + (if d.template == None then {} else {KLabel}) + (if d.companion == None then {} else {KCompanion})
    + (set a | a in d.defaults :: KDefault(a)) + (set a | a in d.widgets :: KWidget(a))
  }

  function EvidenceOf(d: DetectedProfile, key: Key): Evidence {
    match key
    case KObjectClasses => d.objectClasses.1
    case KRdnAttr => d.rdnAttr.1
    case KCompanion => if d.companion == None then Evidence(d.sampled, d.sampled) else d.companion.value.1
    case KDefault(a) => if a in d.defaults then d.defaults[a].1 else Evidence(d.sampled, d.sampled)
    case KWidget(a) => if a in d.widgets then d.widgets[a].1 else Evidence(d.sampled, d.sampled)
    case _ => Evidence(d.sampled, d.sampled)
  }

  function DetectedFields(d: DetectedProfile): Fields {
    map key | key in DetectedKeys(d) ::
      if key in d.assumed then Assumed(d.assumed[key]) else Detected(EvidenceOf(d, key))
  }

  function ConfigKeys(p: EntryProfile): set<Key> {
    (if p.objectClasses == [] then {} else {KObjectClasses}) + (if p.rdnAttr == "" then {} else {KRdnAttr})
    + (if p.searchBase == "" then {} else {KSearchBase}) + (if p.show == [] then {} else {KShow})
    + (if p.searchAttrs == [] then {} else {KSearchAttrs}) + (if p.template == None then {} else {KLabel})
    + (if p.companion == None then {} else {KCompanion})
    + (set a | a in p.defaults :: KDefault(a)) + (set a | a in p.widgets :: KWidget(a))
  }

  function ConfigFields(p: EntryProfile): Fields {
    map key | key in ConfigKeys(p) :: Config
  }

  lemma DetectedKeyOf(d: DetectedProfile, key: Key)
    ensures key.Tracked() ==> (key in DetectedKeys(d) <==> PartOf(d.ToEntryProfile(), key).Some?)
  {
    match key
    case KDefault(a) =>
      assert a in d.defaults <==> key in (set b | b in d.defaults :: KDefault(b));
    case KWidget(a) =>
      assert a in d.widgets <==> key in (set b | b in d.widgets :: KWidget(b));
    case _ =>
  }

  lemma ConfigKeyOf(p: EntryProfile, key: Key)
    ensures key.Tracked() ==> (key in ConfigKeys(p) <==> PartOf(p, key).Some?)
  {
    match key
    case KDefault(a) =>
      assert a in p.defaults <==> key in (set b | b in p.defaults :: KDefault(b));
    case KWidget(a) =>
      assert a in p.widgets <==> key in (set b | b in p.widgets :: KWidget(b));
    case _ =>
  }

  lemma DetectedFieldsExact(d: DetectedProfile)
    ensures Exact(d.ToEntryProfile(), DetectedFields(d))
    ensures forall key :: key in DetectedFields(d) ==> DetectedFields(d)[key].Generated()
    ensures RangesGenerated(d.ToEntryProfile(), DetectedFields(d))
  {
    var p := d.ToEntryProfile();
    forall key: Key ensures key.Tracked() ==> (key in DetectedFields(d) <==> PartOf(p, key).Some?) {
      DetectedKeyOf(d, key);
    }
    forall a | a in p.defaults ensures KDefault(a) in DetectedFields(d) {
      assert PartOf(p, KDefault(a)).Some?;
    }
  }

  lemma ConfigExact(p: EntryProfile)
    ensures Exact(p, ConfigFields(p))
  {
    forall key: Key ensures key.Tracked() ==> (key in ConfigFields(p) <==> PartOf(p, key).Some?) {
      ConfigKeyOf(p, key);
    }
  }

  /** A config block on its own: all its parts are the config's, every spelling of an attribute included. */
  lemma ConfigFieldsExact(o: Override, p: EntryProfile)
    requires o.ToEntryProfile() == Some(p)
    ensures forall key :: ConfigPart(o, key).Some? ==>
              PartOf(p, key) == ConfigPart(o, key) && Firm(ConfigFields(p), key)
    ensures Wins(o, p, ConfigFields(p))
    ensures o.NoRanges() ==> RangesGenerated(p, ConfigFields(p))
  {
    forall key | ConfigPart(o, key).Some? ensures PartOf(p, key) == ConfigPart(o, key) {
      ConfigPartStands(o, p, key);
    }
  }

  /** What stands under `key` where a block says nothing. */
  function Unset(key: Key): Option<Part> {
    match key
    case KObjectClasses => Some(Names([]))
    case KRdnAttr => Some(Text(""))
    case KSearchBase => Some(Text(""))
    case KShow => Some(Names([]))
    case KSearchAttrs => Some(Names([]))
    case _ => None
  }

  /** `(p, f)` is the block `o` as it stands: what it sets, all of it recorded as the config's, and nothing else. */
  ghost predicate AsConfigured(o: Override, p: EntryProfile, f: Fields) {
    && p.name == o.name && p.boundary
    && forall key: Key {:trigger PartOf(p, key)} {:trigger key in f} ::
         var set_ := ConfigPart(o, key);
         && PartOf(p, key) == (if set_.Some? then set_ else Unset(key))
         && SourceAt(f, key) == (if set_.Some? && set_ != Unset(key) then Some(Config) else None)
  }

  lemma ConfigKeyAt(p: EntryProfile, key: Key)
    ensures key in ConfigKeys(p) <==> PartOf(p, key) != Unset(key)
  {
    match key
    case KDefault(a) =>
      assert a in p.defaults <==> key in (set b | b in p.defaults :: KDefault(b));
    case KWidget(a) =>
      assert a in p.widgets <==> key in (set b | b in p.widgets :: KWidget(b));
    case _ =>
  }

  lemma ConfigUnset(o: Override, p: EntryProfile, key: Key)
    requires o.ToEntryProfile() == Some(p) && ConfigPart(o, key) == None
    ensures PartOf(p, key) == Unset(key)
  {
  }

  /** A block on its own is taken over whole. */
  lemma ConfiguredWhole(o: Override, p: EntryProfile)
    requires o.ToEntryProfile() == Some(p)
    ensures AsConfigured(o, p, ConfigFields(p))
  {
    var f := ConfigFields(p);
    forall key: Key
      ensures var set_ := ConfigPart(o, key);
              && PartOf(p, key) == (if set_.Some? then set_ else Unset(key))
              && SourceAt(f, key) == (if set_.Some? && set_ != Unset(key) then Some(Config) else None)
    {
      ConfigKeyAt(p, key);
      if ConfigPart(o, key).Some? { ConfigPartStands(o, p, key); } else { ConfigUnset(o, p, key); }
    }
  }

  lemma ConfigPartStands(o: Override, p: EntryProfile, key: Key)
    requires o.ToEntryProfile() == Some(p) && ConfigPart(o, key).Some?
    ensures PartOf(p, key) == ConfigPart(o, key)
  {
  }
}
