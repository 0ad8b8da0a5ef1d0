/** `detect/assume.rs`: rule D, which fills in what useradd would do where there is too little data. */
module Assume {
  import opened Text
  import opened DnText
  import opened Templates
  import opened Ranges
  import opened Schema
  import opened Profiles
  import opened Overlay
  import opened Suppress
  import opened Matching
  import opened Merge

  predicate HasClass(p: EntryProfile, oc: string) {
    exists c :: c in p.objectClasses && EqCi(c, oc)
  }

  predicate HasDefault(p: EntryProfile, attr: string) {
    exists k :: k in p.defaults && EqCi(k, attr)
  }

  predicate GidFollowsUid(p: EntryProfile) {
    exists k :: k in p.defaults && EqCi(k, "gidNumber") && EqCi(ToConfigString(p.defaults[k]), "{uidNumber}")
  }

  /** `mark_unified`: detected ranges on `attr` share one number space. */
  function MarkUnified(p: EntryProfile, attr: string): EntryProfile {
    p.(defaults := map k | k in p.defaults ::
         if EqCi(k, attr) && p.defaults[k].DetectedRange?
         then DetectedRange(p.defaults[k].spec.(unified := true)) else p.defaults[k])
  }

  function PrivateGroupCompanion(base: string): Companion {
    Companion(["posixGroup"], "cn", base, map["cn" := "{uid}", "gidNumber" := "{uidNumber}", "memberUid" := "{uid}"])
  }

  function SetDefault(p: EntryProfile, attr: string, v: DefaultValue): EntryProfile {
    p.(defaults := p.defaults[attr := v])
  }

  /** Every part stays as it is, except that a detected range may become unified; what is new is assumed. */
  ghost predicate OnlyFills(p: EntryProfile, f: Fields, q: EntryProfile, g: Fields) {
    q.name == p.name && q.boundary == p.boundary
    && (forall key: Key {:trigger PartOf(q, key)} ::
          PartOf(p, key).Some? ==> SamePart(PartOf(p, key).value, PartOf(q, key)))
    && (forall key {:trigger key in g} :: key in f ==> key in g && g[key] == f[key])
    && (forall key {:trigger key in g} :: key in g && key !in f ==>
        g[key].Assumed? && Fillable(key) && PartOf(p, key) == None && PartOf(q, key).Some?)
    && (forall key: Key {:trigger PartOf(q, key)} :: PartOf(p, key) == None && PartOf(q, key).Some? ==>
        key in g && g[key].Assumed?)
  }

  lemma OnlyFillsTrail(taken: seq<string>, p: EntryProfile, f: Fields, q: EntryProfile, g: Fields)
    requires OnlyFills(p, f, q, g) && Exact(p, f)
    ensures Trail(taken, p, f, q, g)
  {
    forall key: Key ensures Trailed(taken, key, PartOf(p, key), SourceAt(f, key), PartOf(q, key), SourceAt(g, key)) {
      assert key.Tracked() ==> (key in f <==> PartOf(p, key).Some?);
      assert PartOf(q, key) == PartOf(q, key);
    }
  }

  predicate SamePart(a: Part, b: Option<Part>) {
    b == Some(a)
    || (a.ADefault? && a.value.DetectedRange? && b == Some(ADefault(DetectedRange(a.value.spec.(unified := true)))))
  }

  lemma FillsExact(p: EntryProfile, f: Fields, q: EntryProfile, g: Fields)
    requires OnlyFills(p, f, q, g) && Exact(p, f)
    ensures Exact(q, g)
  {
    forall key: Key | key.Tracked() ensures key in g <==> PartOf(q, key).Some? {
      assert key in f <==> PartOf(p, key).Some?;
      assert PartOf(q, key) == PartOf(q, key);
    }
  }

  lemma FillsSteady(p: EntryProfile, f: Fields, q: EntryProfile, g: Fields)
    requires OnlyFills(p, f, q, g) && Exact(p, f) && RangesGenerated(p, f)
    ensures Steady(p, f, q, g)
  {
    FillsExact(p, f, q, g);
    forall key | Firm(f, key) && PartOf(p, key).Some? ensures PartOf(q, key) == PartOf(p, key) && Firm(g, key) {
      FillsFirm(p, f, q, g, key);
    }
    forall a | a in q.defaults && q.defaults[a].DetectedRange? ensures KDefault(a) in g && g[KDefault(a)].Generated() {
      assert PartOf(q, KDefault(a)).Some?;
      if a in p.defaults { assert PartOf(p, KDefault(a)).Some?; }
    }
  }

  lemma FillsFirm(p: EntryProfile, f: Fields, q: EntryProfile, g: Fields, key: Key)
    requires OnlyFills(p, f, q, g) && RangesGenerated(p, f) && Firm(f, key) && PartOf(p, key).Some?
    ensures PartOf(q, key) == PartOf(p, key) && Firm(g, key)
  {
    assert SamePart(PartOf(p, key).value, PartOf(q, key));
    assert key.KDefault? ==> key == KDefault(key.attr);
    assert key in g ==> key in f;
  }

  lemma StandsFills(ds: seq<DetectedProfile>, os: seq<Override>, slot: Slot,
                    p: EntryProfile, prov: Provenance, q: EntryProfile, prov2: Provenance)
    requires Stands(ds, os, slot, p, prov) && OnlyFills(p, prov.fields, q, prov2.fields)
    requires prov2.name == prov.name && prov2.origin == prov.origin
    ensures Stands(ds, os, slot, q, prov2)
  {
    FillsExact(p, prov.fields, q, prov2.fields);
    if slot.Own? || os[slot.oi].NoRanges() {
      FillsSteady(p, prov.fields, q, prov2.fields);
      StandsSteady(ds, os, slot, p, prov, q, prov2);
    }
  }

  lemma FillsTwice(p: EntryProfile, f: Fields, q: EntryProfile, g: Fields, r: EntryProfile, h: Fields)
    requires OnlyFills(p, f, q, g) && OnlyFills(q, g, r, h)
    ensures OnlyFills(p, f, r, h)
  {
    forall key: Key | PartOf(p, key).Some? ensures SamePart(PartOf(p, key).value, PartOf(r, key)) {
      assert SamePart(PartOf(p, key).value, PartOf(q, key));
      assert SamePart(PartOf(q, key).value, PartOf(r, key));
    }
    forall key | key in h && key !in f ensures h[key].Assumed? && PartOf(p, key) == None && PartOf(r, key).Some? {
      if key in g {
        assert g[key] == h[key];
        assert SamePart(PartOf(q, key).value, PartOf(r, key));
      }
    }
    forall key: Key | PartOf(p, key) == None && PartOf(r, key).Some? ensures key in h && h[key].Assumed? {
      assert PartOf(q, key) == PartOf(q, key);
      if PartOf(q, key).Some? { assert key in h && h[key] == g[key]; }
    }
  }

  lemma SetDefaultAt(p: EntryProfile, attr: string, v: DefaultValue, key: Key)
    ensures PartOf(SetDefault(p, attr, v), key) == if key == KDefault(attr) then Some(ADefault(v)) else PartOf(p, key)
  {
  }

  lemma SetDefaultFills(p: EntryProfile, f: Fields, attr: string, v: DefaultValue, reason: string)
    requires attr !in p.defaults && Exact(p, f) && Fillable(KDefault(attr))
    ensures OnlyFills(p, f, SetDefault(p, attr, v), f[KDefault(attr) := Assumed(reason)])
  {
    assert PartOf(p, KDefault(attr)) == None && KDefault(attr) !in f;
    forall key
      ensures PartOf(SetDefault(p, attr, v), key) == if key == KDefault(attr) then Some(ADefault(v)) else PartOf(p, key)
    {
      SetDefaultAt(p, attr, v, key);
    }
  }

  lemma SetCompanionFills(p: EntryProfile, f: Fields, c: Companion, reason: string)
    requires p.companion == None && Exact(p, f)
    ensures OnlyFills(p, f, p.(companion := Some(c)), f[KCompanion := Assumed(reason)])
  {
    assert PartOf(p, KCompanion) == None && KCompanion !in f;
    forall key: Key ensures key != KCompanion ==> PartOf(p.(companion := Some(c)), key) == PartOf(p, key) {
      SetCompanionAt(p, Some(c), key);
    }
  }

  lemma MarkUnifiedFills(p: EntryProfile, f: Fields, attr: string)
    ensures OnlyFills(p, f, MarkUnified(p, attr), f)
  {
    forall key ensures if PartOf(p, key).Some? then SamePart(PartOf(p, key).value, PartOf(MarkUnified(p, attr), key))
                       else PartOf(MarkUnified(p, attr), key) == None {
      MarkUnifiedAt(p, attr, key);
    }
  }

  lemma MarkUnifiedAt(p: EntryProfile, attr: string, key: Key)
    ensures if PartOf(p, key).Some? then SamePart(PartOf(p, key).value, PartOf(MarkUnified(p, attr), key))
            else PartOf(MarkUnified(p, attr), key) == None
  {
  }

  // ---------------------------------------------------------------- the evidence

  function FindNamed(ds: seq<DetectedProfile>, name: string): seq<DetectedProfile> {
    if ds == [] then [] else if EqCi(ds[0].name, name) then [ds[0]] else FindNamed(ds[1..], name)
  }

  /** The detected user profiles sampled at or below `base`; an empty base covers everything. */
  function UsersUnder(base: string, ds: seq<DetectedProfile>): seq<DetectedProfile> {
    if ds == [] then []
    else
      (if (exists c :: c in ds[0].objectClasses.0 && EqCi(c, "posixAccount"))
          && (Trim(base) == "" || DnWithin(ds[0].container, base))
       then [ds[0]] else []) + UsersUnder(base, ds[1..])
  }

  /** What rule D weighs for a profile: its own sample, or every sampled user below its base. */
  function EvidenceFor(ds: seq<DetectedProfile>, p: EntryProfile, prov: Provenance): seq<DetectedProfile> {
    var own := match prov.origin
               case OnlyDetected(_) => FindNamed(ds, prov.name)
               case MergedInto(detected, _) => FindNamed(ds, detected)
               case OnlyConfig => [];
    if own != [] then own else UsersUnder(p.searchBase, ds)
  }

  function Sampled(evidence: seq<DetectedProfile>): nat {
    if evidence == [] then 0 else evidence[0].sampled + Sampled(evidence[1..])
  }

  /** Enough users to have shown a pattern, or one without a private group, speak against assuming one. */
  predicate Contrary(evidence: seq<DetectedProfile>) {
    Sampled(evidence) >= MIN_SAMPLE || exists d :: d in evidence && d.usersWithoutPrivateGroup != Some(0)
  }

  // ---------------------------------------------------------------- one profile

  const UID_REFERENCE := Template([LiveTemplates.Field("uidNumber")])

  /** Every detected range on `attr` shares one number space. */
  predicate AllUnified(p: EntryProfile, attr: string) {
    forall k :: k in p.defaults && EqCi(k, attr) && p.defaults[k].DetectedRange? ==> p.defaults[k].spec.unified
  }

  /** A range over the numbers of `st` entries at or below `base`. */
  predicate RangeOf(q: EntryProfile, attr: string, base: string, st: string, unified: bool) {
    attr in q.defaults
    && q.defaults[attr] == DetectedRange(RangeSpec(attr, base, st, unified, attr == "gidNumber"))
  }

  /** What decides the range for the user number is as it was. */
  predicate UserNumberKept(p: EntryProfile, q: EntryProfile) {
    (GidFollowsUid(q) <==> GidFollowsUid(p))
    && ("uidNumber" in p.defaults ==> "uidNumber" in q.defaults && q.defaults["uidNumber"] == p.defaults["uidNumber"])
  }

  /** The private group is assumed as a whole: the companion, and the group number that follows the user's. */
  ghost predicate PrivateGroupAssumed(p: EntryProfile, q: EntryProfile, base: string) {
    p.companion == None && !HasDefault(p, "gidNumber")
    && q.companion == Some(PrivateGroupCompanion(base))
    && "gidNumber" in q.defaults && q.defaults["gidNumber"] == UID_REFERENCE
    && GidFollowsUid(q) && AllUnified(q, "uidNumber")
  }

  /** The first half of the user rule: the private group, with both its parts or not at all. */
  method AssumePrivateGroup(p: EntryProfile, f: Fields, base: string, reason: string) returns (q: EntryProfile,
                            g: Fields)
    requires Exact(p, f) && p.companion == None && !HasDefault(p, "gidNumber")
    ensures OnlyFills(p, f, q, g) && q.companion == Some(PrivateGroupCompanion(base))
    ensures q.defaults == p.defaults["gidNumber" := UID_REFERENCE] && q.searchBase == p.searchBase
  {
    AbsentDefault(p, "gidNumber");
    SetDefaultFills(p, f, "gidNumber", UID_REFERENCE, reason);
    q, g := SetDefault(p, "gidNumber", UID_REFERENCE), f[KDefault("gidNumber") := Assumed(reason)];
    ghost var q1, g1 := q, g;
    FillsExact(p, f, q1, g1);
    SetCompanionFills(q, g, PrivateGroupCompanion(base), reason);
    q, g := q.(companion := Some(PrivateGroupCompanion(base))), g[KCompanion := Assumed(reason)];
    FillsTwice(p, f, q1, g1, q, g);
  }

  /** The second half: a range for the user number, in the groups' number space when the group follows the user. */
  method AssumeUserRange(p: EntryProfile, f: Fields, st: string, assumed: bool) returns (q: EntryProfile, g: Fields)
    requires Exact(p, f)
    ensures OnlyFills(p, f, q, g) && HasDefault(q, "uidNumber") && q.companion == p.companion
    ensures HasDefault(q, "gidNumber") <==> HasDefault(p, "gidNumber")
    ensures GidFollowsUid(q) <==> GidFollowsUid(p)
    ensures assumed && GidFollowsUid(p) ==> AllUnified(q, "uidNumber")
    ensures "gidNumber" in p.defaults && !p.defaults["gidNumber"].DetectedRange?
            ==> "gidNumber" in q.defaults && q.defaults["gidNumber"] == p.defaults["gidNumber"]
    ensures !HasDefault(p, "uidNumber") ==> RangeOf(q, "uidNumber", p.searchBase, st, GidFollowsUid(q))
  {
    q, g := p, f;
    if !HasDefault(p, "uidNumber") {
      AbsentDefault(p, "uidNumber");
      var range := DetectedRange(RangeSpec("uidNumber", p.searchBase, st, GidFollowsUid(p), false));
      SetDefaultFills(p, f, "uidNumber", range, "no uidNumber range");
      q, g := SetDefault(p, "uidNumber", range), f[KDefault("uidNumber") := Assumed("no uidNumber range")];
      RangeAdded(p, range);
    } else if assumed {
      MarkUnifiedFills(p, f, "uidNumber");
      q := MarkUnified(p, "uidNumber");
      Unifies(p, "uidNumber");
    } else {
      OnlyFillsSelf(p, f);
    }
  }

  method AssumeUser(ds: seq<DetectedProfile>, groupBase: Option<string>, detectionFailed: bool, st: string,
                    p: EntryProfile, prov: Provenance)
    returns (q: EntryProfile, g: Fields)
    requires Exact(p, prov.fields)
    ensures OnlyFills(p, prov.fields, q, g) && HasDefault(q, "uidNumber")
    ensures if !detectionFailed && !Contrary(EvidenceFor(ds, p, prov)) && !HasDefault(p, "gidNumber")
               && p.companion == None && groupBase.Some?
            then PrivateGroupAssumed(p, q, groupBase.value)
            else q.companion == p.companion && (HasDefault(q, "gidNumber") <==> HasDefault(p, "gidNumber"))
    ensures !HasDefault(p, "uidNumber") ==> RangeOf(q, "uidNumber", p.searchBase, st, GidFollowsUid(q))
  {
    q, g := p, prov.fields;
    var evidence := EvidenceFor(ds, p, prov);
    var assumed :=
      !detectionFailed && !Contrary(evidence) && !HasDefault(p, "gidNumber") && p.companion == None && groupBase.Some?;
    if assumed {
      var reason := if Sampled(evidence) == 0 then "no users yet" else "fewer than 3 users, all with a private group";
      q, g := AssumePrivateGroup(p, prov.fields, groupBase.value, reason);
      PrintedUid();
      OtherDefault(p, q);
      assert "gidNumber" in q.defaults && EqCi("gidNumber", "gidNumber");
    } else {
      OnlyFillsSelf(p, g);
    }
    ghost var q1, g1 := q, g;
    FillsExact(p, prov.fields, q1, g1);
    q, g := AssumeUserRange(q, g, st, assumed);
    FillsTwice(p, prov.fields, q1, g1, q, g);
  }

  method AssumeGroup(unifiedAny: bool, st: string, p: EntryProfile, f: Fields) returns (q: EntryProfile, g: Fields)
    requires Exact(p, f)
    ensures OnlyFills(p, f, q, g) && HasDefault(q, "gidNumber") && (unifiedAny ==> AllUnified(q, "gidNumber"))
    ensures q.companion == p.companion && UserNumberKept(p, q)
    ensures HasDefault(p, "gidNumber") && !unifiedAny ==> q == p
    ensures !HasDefault(p, "gidNumber") ==> RangeOf(q, "gidNumber", p.searchBase, st, unifiedAny)
  {
    q, g := p, f;
    if HasDefault(p, "gidNumber") {
      OnlyFillsSelf(p, f);
      if unifiedAny {
        MarkUnifiedFills(p, f, "gidNumber");
        q := MarkUnified(p, "gidNumber");
        Unifies(p, "gidNumber");
        assert !EqCi("uidNumber", "gidNumber") by { NumbersDiffer(); }
      }
    } else {
      AbsentDefault(p, "gidNumber");
      var range := DetectedRange(RangeSpec("gidNumber", p.searchBase, st, unifiedAny, true));
      SetDefaultFills(p, f, "gidNumber", range, "no gidNumber range");
      q, g := SetDefault(p, "gidNumber", range), f[KDefault("gidNumber") := Assumed("no gidNumber range")];
      GroupRangeAdded(p, range);
    }
  }

  lemma GroupRangeAdded(p: EntryProfile, range: DefaultValue)
    requires !HasDefault(p, "gidNumber") && range.DetectedRange?
    ensures var q := SetDefault(p, "gidNumber", range);
            HasDefault(q, "gidNumber") && (range.spec.unified ==> AllUnified(q, "gidNumber")) && UserNumberKept(p, q)
  {
    var q := SetDefault(p, "gidNumber", range);
    assert "gidNumber" in q.defaults && EqCi("gidNumber", "gidNumber");
    NumbersDiffer();
    RangeFollowsNothing(range);
  }

  /** A detected range never prints as a reference to the user number. */
  lemma RangeFollowsNothing(range: DefaultValue)
    requires range.DetectedRange?
    ensures !EqCi(ToConfigString(range), "{uidNumber}")
  {
    assert Lower(ToConfigString(range))[0] == '(' && Lower("{uidNumber}")[0] == '{';
  }

  lemma NumbersDiffer()
    ensures !EqCi("uidNumber", "gidNumber") && !EqCi("gidNumber", "uidNumber")
  {
    assert Lower("uidNumber")[0] == 'u' && Lower("gidNumber")[0] == 'g';
  }

  /** Setting the group number leaves the user number as it was. */
  lemma OtherDefault(p: EntryProfile, q: EntryProfile)
    requires q.defaults == p.defaults["gidNumber" := UID_REFERENCE]
    ensures HasDefault(q, "uidNumber") <==> HasDefault(p, "uidNumber")
  {
    assert Lower("uidNumber")[0] == 'u' && Lower("gidNumber")[0] == 'g';
    if HasDefault(p, "uidNumber") { var k :| k in p.defaults && EqCi(k, "uidNumber"); assert k in q.defaults; }
    if HasDefault(q, "uidNumber") { var k :| k in q.defaults && EqCi(k, "uidNumber"); assert k in p.defaults; }
  }

  lemma OnlyFillsSelf(p: EntryProfile, f: Fields)
    requires Exact(p, f)
    ensures OnlyFills(p, f, p, f)
  {
  }

  lemma AbsentDefault(p: EntryProfile, attr: string)
    requires !HasDefault(p, attr)
    ensures attr !in p.defaults
  {
    assert EqCi(attr, attr);
  }

  lemma PrintedUid()
    ensures ToConfigString(UID_REFERENCE) == "{uidNumber}" && Parsed("{uidNumber}") == Ok(UID_REFERENCE)
  {
    assert "{" + "uidNumber" + "}" == "{uidNumber}";
    assert "uidNumber"[0] == 'u';
    FieldReference("uidNumber");
  }

  lemma RangeAdded(p: EntryProfile, range: DefaultValue)
    requires !HasDefault(p, "uidNumber") && range.DetectedRange?
    ensures var q := SetDefault(p, "uidNumber", range);
            HasDefault(q, "uidNumber") && (HasDefault(q, "gidNumber") <==> HasDefault(p, "gidNumber"))
            && (range.spec.unified ==> AllUnified(q, "uidNumber"))
            && (GidFollowsUid(q) <==> GidFollowsUid(p))
  {
    var q := SetDefault(p, "uidNumber", range);
    assert "uidNumber" in q.defaults && EqCi("uidNumber", "uidNumber");
    assert Lower("uidNumber")[0] == 'u' && Lower("gidNumber")[0] == 'g';
    if GidFollowsUid(p) {
      var k :| k in p.defaults && EqCi(k, "gidNumber") && EqCi(ToConfigString(p.defaults[k]), "{uidNumber}");
      assert k in q.defaults && q.defaults[k] == p.defaults[k];
    }
    if GidFollowsUid(q) {
      var k :| k in q.defaults && EqCi(k, "gidNumber") && EqCi(ToConfigString(q.defaults[k]), "{uidNumber}");
      assert k in p.defaults && q.defaults[k] == p.defaults[k];
    }
    if HasDefault(p, "gidNumber") {
      var k :| k in p.defaults && EqCi(k, "gidNumber");
      assert k in q.defaults;
    }
  }

  lemma Unifies(p: EntryProfile, attr: string)
    ensures var q := MarkUnified(p, attr);
            AllUnified(q, attr) && (forall a :: HasDefault(q, a) <==> HasDefault(p, a))
                && (GidFollowsUid(q) <==> GidFollowsUid(p))
  {
    forall a ensures HasDefault(MarkUnified(p, attr), a) <==> HasDefault(p, a) {
      UnifiedHas(p, MarkUnified(p, attr), a);
    }
    UnifiedFollows(p, attr);
  }

  lemma UnifiedHas(p: EntryProfile, q: EntryProfile, a: string)
    requires q.defaults.Keys == p.defaults.Keys
    ensures HasDefault(q, a) <==> HasDefault(p, a)
  {
    assert forall k :: k in q.defaults <==> k in p.defaults.Keys;
    if HasDefault(p, a) { var k :| k in p.defaults && EqCi(k, a); assert k in q.defaults; }
  }

  /** A range prints the same, unified or not. */
  lemma UnifiedFollows(p: EntryProfile, attr: string)
    ensures GidFollowsUid(MarkUnified(p, attr)) <==> GidFollowsUid(p)
  {
    var q := MarkUnified(p, attr);
    if GidFollowsUid(p) {
      var k :| k in p.defaults && EqCi(k, "gidNumber") && EqCi(ToConfigString(p.defaults[k]), "{uidNumber}");
      assert k in q.defaults && ToConfigString(q.defaults[k]) == ToConfigString(p.defaults[k]);
    }
    if GidFollowsUid(q) {
      var k :| k in q.defaults && EqCi(k, "gidNumber") && EqCi(ToConfigString(q.defaults[k]), "{uidNumber}");
      assert k in p.defaults && ToConfigString(q.defaults[k]) == ToConfigString(p.defaults[k]);
    }
  }

  // ---------------------------------------------------------------- all profiles

  function SampledOf(prov: Provenance): nat {
    match prov.origin
    case OnlyConfig => 0
    case OnlyDetected(n) => n
    case MergedInto(_, n) => n
  }

  predicate GroupProfile(p: EntryProfile) {
    HasClass(p, "posixGroup") && p.searchBase != ""
  }

  /** `b` is preferred over `a`: the larger sample, then the smaller name. */
  predicate Preferred(a: EntryProfile, pa: Provenance, b: EntryProfile, pb: Provenance) {
    SampledOf(pb) > SampledOf(pa) || (SampledOf(pb) == SampledOf(pa) && StrLe(b.name, a.name))
  }

  /** Where assumed private groups go: the base of the best sampled group profile, else the groups container found. */
  method GroupBase(ps: seq<EntryProfile>, provs: seq<Provenance>, groupOu: Option<string>)
    returns (base: Option<string>)
    requires |ps| == |provs|
    ensures if exists i :: 0 <= i < |ps| && GroupProfile(ps[i])
            then exists i :: 0 <= i < |ps| && GroupProfile(ps[i]) && base == Some(ps[i].searchBase)
                   && forall j :: 0 <= j < |ps| && GroupProfile(ps[j]) ==> Preferred(ps[j], provs[j], ps[i], provs[i])
            else base == groupOu
  {
    var best: Option<nat> := None;
    for i := 0 to |ps|
      invariant best == None ==> forall j :: 0 <= j < i ==> !GroupProfile(ps[j])
      invariant best.Some? ==> best.value < i && GroupProfile(ps[best.value])
      invariant best.Some? ==> forall j :: 0 <= j < i && GroupProfile(ps[j]) ==>
                                  Preferred(ps[j], provs[j], ps[best.value], provs[best.value])
    {
      if GroupProfile(ps[i]) {
        PreferredSelf(ps[i], provs[i]);
        if best == None {
          best := Some(i);
        } else if Preferred(ps[best.value], provs[best.value], ps[i], provs[i]) {
          forall j | 0 <= j < i && GroupProfile(ps[j]) ensures Preferred(ps[j], provs[j], ps[i], provs[i]) {
            PreferredTrans(ps[j], provs[j], ps[best.value], provs[best.value], ps[i], provs[i]);
          }
          best := Some(i);
        } else {
          StrLeTotal(ps[i].name, ps[best.value].name);
        }
      }
    }
    base := if best.Some? then Some(ps[best.value].searchBase) else groupOu;
  }

  lemma PreferredSelf(p: EntryProfile, prov: Provenance)
    ensures Preferred(p, prov, p, prov)
  {
    StrLeTotal(p.name, p.name);
  }

  lemma PreferredTrans(a: EntryProfile, pa: Provenance, b: EntryProfile, pb: Provenance, c: EntryProfile,
                       pc: Provenance)
    requires Preferred(a, pa, b, pb) && Preferred(b, pb, c, pc)
    ensures Preferred(a, pa, c, pc)
  {
    if SampledOf(pa) == SampledOf(pb) == SampledOf(pc) { StrLeTrans(c.name, b.name, a.name); }
  }

  /** The structural class of a profile, or the first class it names. */
  function StructuralNameOf(s: SchemaModel, p: EntryProfile): string
    requires s.Valid()
  {
    match StructuralOf(s, p.objectClasses)
    case Some(st) => st
    case None => if p.objectClasses != [] then p.objectClasses[0] else ""
  }

  method StructuralName(s: SchemaModel, p: EntryProfile) returns (st: string)
    requires s.Valid()
    ensures st == StructuralNameOf(s, p)
  {
    var r := StructuralClass(s, p.objectClasses);
    st := if r.Some? then r.value else if p.objectClasses != [] then p.objectClasses[0] else "";
  }

  /** Rule D has only filled in what was missing, and touched nothing but the recorded sources. */
  ghost predicate FilledOne(p0: EntryProfile, prov0: Provenance, p: EntryProfile, prov: Provenance) {
    OnlyFills(p0, prov0.fields, p, prov.fields) && prov == prov0.(fields := prov.fields)
  }

  ghost predicate Filled(ps0: seq<EntryProfile>, provs0: seq<Provenance>, ps: seq<EntryProfile>,
                         provs: seq<Provenance>) {
    |ps0| == |provs0| == |ps| == |provs|
    && forall i {:trigger ps[i]} {:trigger provs[i]} :: 0 <= i < |ps| ==> FilledOne(ps0[i], provs0[i], ps[i], provs[i])
  }

  /** A missing user number becomes a range, in the groups' space just when the group number follows the user's. */
  ghost predicate UserRange(s: SchemaModel, p: EntryProfile, q: EntryProfile)
    requires s.Valid()
  {
    !HasDefault(p, "uidNumber")
    ==> RangeOf(q, "uidNumber", p.searchBase, StructuralNameOf(s, p), GidFollowsUid(q))
  }

  /** A missing group number becomes a range, in the users' space just when some user profile shares it. */
  ghost predicate GroupRange(s: SchemaModel, unifiedAny: bool, p: EntryProfile, q: EntryProfile)
    requires s.Valid()
  {
    !HasDefault(p, "gidNumber") ==> RangeOf(q, "gidNumber", p.searchBase, StructuralNameOf(s, p), unifiedAny)
  }

  /** What rule D makes of a profile in its first round: users get a number and perhaps a private group. */
  ghost predicate UserServed(s: SchemaModel, ds: seq<DetectedProfile>, base: Option<string>, failed: bool,
                             p: EntryProfile, prov: Provenance, q: EntryProfile)
    requires s.Valid()
  {
    if !HasClass(p, "posixAccount") then q == p
    else
      HasDefault(q, "uidNumber") && UserRange(s, p, q)
      && if !failed && !Contrary(EvidenceFor(ds, p, prov)) && !HasDefault(p, "gidNumber") && p.companion == None
          && base.Some?
         then PrivateGroupAssumed(p, q, base.value)
         else q.companion == p.companion && (HasDefault(q, "gidNumber") <==> HasDefault(p, "gidNumber"))
  }

  /** And in its second round: groups get a number, in the users' space once that is shared. */
  ghost predicate GroupServed(s: SchemaModel, unifiedAny: bool, p: EntryProfile, q: EntryProfile)
    requires s.Valid()
  {
    if !HasClass(p, "posixGroup") then q == p
    else
      q.companion == p.companion && UserNumberKept(p, q) && HasDefault(q, "gidNumber")
      && GroupRange(s, unifiedAny, p, q)
      && if unifiedAny then AllUnified(q, "gidNumber") else HasDefault(p, "gidNumber") ==> q == p
  }

  lemma FilledKeepsClasses(p0: EntryProfile, prov0: Provenance, p: EntryProfile, prov: Provenance)
    requires FilledOne(p0, prov0, p, prov)
    ensures p.objectClasses == p0.objectClasses
    ensures forall a :: HasDefault(p0, a) ==> HasDefault(p, a)
  {
    assert SamePart(PartOf(p0, KObjectClasses).value, PartOf(p, KObjectClasses));
    forall a | HasDefault(p0, a) ensures HasDefault(p, a) {
      var k :| k in p0.defaults && EqCi(k, a);
      assert SamePart(PartOf(p0, KDefault(k)).value, PartOf(p, KDefault(k)));
    }
  }

  lemma FilledSelf(p: EntryProfile, prov: Provenance)
    requires Exact(p, prov.fields)
    ensures FilledOne(p, prov, p, prov)
  {
    OnlyFillsSelf(p, prov.fields);
  }

  lemma NoneFilled(ds: seq<DetectedProfile>, os: seq<Override>, slots: seq<Slot>, ps: seq<EntryProfile>,
                   provs: seq<Provenance>)
    requires AllStand(ds, os, slots, ps, provs)
    ensures Filled(ps, provs, ps, provs)
  {
    forall i | 0 <= i < |ps| ensures FilledOne(ps[i], provs[i], ps[i], provs[i]) {
      assert Stands(ds, os, slots[i], ps[i], provs[i]);
      FilledSelf(ps[i], provs[i]);
    }
  }

  /** Rule D's first round, done for the profiles before `n`. */
  ghost predicate UserRound(s: SchemaModel, ds: seq<DetectedProfile>, base: Option<string>, failed: bool, n: nat,
                            ps0: seq<EntryProfile>, provs0: seq<Provenance>, ps: seq<EntryProfile>,
                            provs: seq<Provenance>)
    requires s.Valid()
  {
    Filled(ps0, provs0, ps, provs) && n <= |ps|
    && (forall j {:trigger ps[j]} {:trigger provs[j]} :: n <= j < |ps| ==> ps[j] == ps0[j] && provs[j] == provs0[j])
    && forall j {:trigger ps[j]} :: 0 <= j < n ==> UserServed(s, ds, base, failed, ps0[j], provs0[j], ps[j])
  }

  lemma UserRoundNext(s: SchemaModel, ds: seq<DetectedProfile>, base: Option<string>, failed: bool, n: nat,
                      ps0: seq<EntryProfile>, provs0: seq<Provenance>, ps: seq<EntryProfile>, provs: seq<Provenance>,
                      q: EntryProfile, prov: Provenance)
    requires s.Valid() && UserRound(s, ds, base, failed, n, ps0, provs0, ps, provs) && n < |ps|
    requires FilledOne(ps0[n], provs0[n], q, prov) && UserServed(s, ds, base, failed, ps0[n], provs0[n], q)
    ensures UserRound(s, ds, base, failed, n + 1, ps0, provs0, ps[n := q], provs[n := prov])
  {
  }

  /** The first round for one profile. */
  method ServeUser(s: SchemaModel, ds: seq<DetectedProfile>, base: Option<string>, failed: bool, p: EntryProfile,
                   prov: Provenance) returns (q: EntryProfile, prov2: Provenance)
    requires s.Valid() && Exact(p, prov.fields)
    ensures FilledOne(p, prov, q, prov2) && UserServed(s, ds, base, failed, p, prov, q)
  {
    q, prov2 := p, prov;
    if HasClass(p, "posixAccount") {
      var st := StructuralName(s, p);
      var g;
      q, g := AssumeUser(ds, base, failed, st, p, prov);
      prov2 := prov.(fields := g);
    } else {
      OnlyFillsSelf(p, prov.fields);
    }
  }

  /** The second round for one profile. */
  method ServeGroup(s: SchemaModel, unifiedAny: bool, p: EntryProfile, prov: Provenance)
    returns (q: EntryProfile, prov2: Provenance)
    requires s.Valid() && Exact(p, prov.fields)
    ensures FilledOne(p, prov, q, prov2) && GroupServed(s, unifiedAny, p, q)
  {
    q, prov2 := p, prov;
    if HasClass(p, "posixGroup") {
      var st := StructuralName(s, p);
      var g;
      q, g := AssumeGroup(unifiedAny, st, p, prov.fields);
      prov2 := prov.(fields := g);
    } else {
      OnlyFillsSelf(p, prov.fields);
    }
  }

  method AssumeUsers(m: Merged, s: SchemaModel, ds: seq<DetectedProfile>, ghost os: seq<Override>,
                     ghost slots: seq<Slot>,
                     base: Option<string>, failed: bool)
    requires s.Valid() && AllStand(ds, os, slots, m.profiles, m.provenance)
    modifies m
    ensures AllStand(ds, os, slots, m.profiles, m.provenance) && m.disabled == old(m.disabled)
    ensures UserRound(s, ds, base, failed, |m.profiles|, old(m.profiles), old(m.provenance), m.profiles, m.provenance)
  {
    ghost var ps0, provs0 := m.profiles, m.provenance;
    NoneFilled(ds, os, slots, ps0, provs0);
    for i := 0 to |m.profiles|
      invariant AllStand(ds, os, slots, m.profiles, m.provenance) && m.disabled == old(m.disabled)
      invariant UserRound(s, ds, base, failed, i, ps0, provs0, m.profiles, m.provenance)
    {
      var p, prov := m.profiles[i], m.provenance[i];
      assert Stands(ds, os, slots[i], p, prov);
      var q, prov2 := ServeUser(s, ds, base, failed, p, prov);
      StandsFills(ds, os, slots[i], p, prov, q, prov2);
      AllStandSet(ds, os, slots, m.profiles, m.provenance, i, q, prov2);
      UserRoundNext(s, ds, base, failed, i, ps0, provs0, m.profiles, m.provenance, q, prov2);
      m.profiles, m.provenance := m.profiles[i := q], m.provenance[i := prov2];
    }
  }

  /** Some user profile has its group number follow the user number. */
  predicate UnifiedAny(ps: seq<EntryProfile>) {
    exists p :: p in ps && HasClass(p, "posixAccount") && GidFollowsUid(p)
  }

  /** Rule D's second round, done for the profiles before `n`. */
  ghost predicate GroupRound(s: SchemaModel, unifiedAny: bool, n: nat, ps0: seq<EntryProfile>,
                             provs0: seq<Provenance>, ps: seq<EntryProfile>, provs: seq<Provenance>)
    requires s.Valid()
  {
    Filled(ps0, provs0, ps, provs) && n <= |ps|
    && (forall j {:trigger ps[j]} {:trigger provs[j]} :: n <= j < |ps| ==> ps[j] == ps0[j] && provs[j] == provs0[j])
    && forall j {:trigger ps[j]} :: 0 <= j < n ==> GroupServed(s, unifiedAny, ps0[j], ps[j])
  }

  lemma GroupRoundNext(s: SchemaModel, unifiedAny: bool, n: nat, ps0: seq<EntryProfile>, provs0: seq<Provenance>,
                       ps: seq<EntryProfile>, provs: seq<Provenance>, q: EntryProfile, prov: Provenance)
    requires s.Valid() && GroupRound(s, unifiedAny, n, ps0, provs0, ps, provs) && n < |ps|
    requires FilledOne(ps0[n], provs0[n], q, prov) && GroupServed(s, unifiedAny, ps0[n], q)
    ensures GroupRound(s, unifiedAny, n + 1, ps0, provs0, ps[n := q], provs[n := prov])
  {
  }

  method AssumeGroups(m: Merged, s: SchemaModel, ghost ds: seq<DetectedProfile>, ghost os: seq<Override>,
                      ghost slots: seq<Slot>)
    requires s.Valid() && AllStand(ds, os, slots, m.profiles, m.provenance)
    modifies m
    ensures AllStand(ds, os, slots, m.profiles, m.provenance) && m.disabled == old(m.disabled)
    ensures GroupRound(s, UnifiedAny(old(m.profiles)), |m.profiles|, old(m.profiles), old(m.provenance), m.profiles,
                       m.provenance)
  {
    ghost var ps0, provs0 := m.profiles, m.provenance;
    NoneFilled(ds, os, slots, ps0, provs0);
    var unifiedAny := UnifiedAny(m.profiles);
    for i := 0 to |m.profiles|
      invariant AllStand(ds, os, slots, m.profiles, m.provenance) && m.disabled == old(m.disabled)
      invariant GroupRound(s, unifiedAny, i, ps0, provs0, m.profiles, m.provenance)
    {
      var p, prov := m.profiles[i], m.provenance[i];
      assert Stands(ds, os, slots[i], p, prov);
      var q, prov2 := ServeGroup(s, unifiedAny, p, prov);
      StandsFills(ds, os, slots[i], p, prov, q, prov2);
      AllStandSet(ds, os, slots, m.profiles, m.provenance, i, q, prov2);
      GroupRoundNext(s, unifiedAny, i, ps0, provs0, m.profiles, m.provenance, q, prov2);
      m.profiles, m.provenance := m.profiles[i := q], m.provenance[i := prov2];
    }
  }

  /** One profile after both rounds: a user has a number and a group has one, each missing one is a range over the
      profile's own entries, and group ranges are in the users' space exactly when some user profile shares it. */
  ghost predicate RuledOne(s: SchemaModel, unifiedAny: bool, p0: EntryProfile, p: EntryProfile)
    requires s.Valid()
  {
    (HasClass(p, "posixAccount") ==> HasDefault(p, "uidNumber") && UserRange(s, p0, p))
    && (HasClass(p, "posixGroup") ==>
          HasDefault(p, "gidNumber") && (unifiedAny ==> AllUnified(p, "gidNumber"))
          && (p.companion == p0.companion ==> GroupRange(s, unifiedAny, p0, p)))
    && (p.companion != p0.companion ==> unifiedAny)
  }

  /** Rule D over all profiles: only missing parts have been filled in, and every profile is served. */
  ghost predicate RuleD(s: SchemaModel, ps0: seq<EntryProfile>, provs0: seq<Provenance>, ps: seq<EntryProfile>,
                        provs: seq<Provenance>)
    requires s.Valid()
  {
    Filled(ps0, provs0, ps, provs)
    && forall i {:trigger ps[i]} :: 0 <= i < |ps| ==> RuledOne(s, UnifiedAny(ps), ps0[i], ps[i])
  }

  lemma RoundsAreRuleD(s: SchemaModel, ds: seq<DetectedProfile>, base: Option<string>, failed: bool,
                       ps0: seq<EntryProfile>, provs0: seq<Provenance>, ps1: seq<EntryProfile>, provs1: seq<Provenance>,
                       ps2: seq<EntryProfile>, provs2: seq<Provenance>)
    requires s.Valid() && UserRound(s, ds, base, failed, |ps1|, ps0, provs0, ps1, provs1)
    requires GroupRound(s, UnifiedAny(ps1), |ps2|, ps1, provs1, ps2, provs2)
    ensures RuleD(s, ps0, provs0, ps2, provs2)
  {
    FilledTwice(ps0, provs0, ps1, provs1, ps2, provs2);
    UnifiedStays(s, UnifiedAny(ps1), ps1, provs1, ps2, provs2);
    forall i | 0 <= i < |ps2| ensures RuledOne(s, UnifiedAny(ps2), ps0[i], ps2[i]) {
      assert UserServed(s, ds, base, failed, ps0[i], provs0[i], ps1[i]);
      assert GroupServed(s, UnifiedAny(ps1), ps1[i], ps2[i]);
      assert FilledOne(ps0[i], provs0[i], ps1[i], provs1[i]) && FilledOne(ps1[i], provs1[i], ps2[i], provs2[i]);
      if ps1[i].companion != ps0[i].companion {
        FilledKeepsClasses(ps0[i], provs0[i], ps1[i], provs1[i]);
        assert ps1[i] in ps1 && HasClass(ps1[i], "posixAccount") && GidFollowsUid(ps1[i]);
      }
      ServedTwice(s, ds, base, failed, UnifiedAny(ps1), ps0[i], provs0[i], ps1[i], provs1[i], ps2[i], provs2[i]);
    }
  }

  /** The second round does not change which user profiles share their number space. */
  lemma UnifiedStays(s: SchemaModel, unifiedAny: bool, ps1: seq<EntryProfile>, provs1: seq<Provenance>,
                     ps2: seq<EntryProfile>, provs2: seq<Provenance>)
    requires s.Valid() && GroupRound(s, unifiedAny, |ps2|, ps1, provs1, ps2, provs2)
    ensures UnifiedAny(ps2) <==> UnifiedAny(ps1)
  {
    forall i | 0 <= i < |ps2|
      ensures ps2[i].objectClasses == ps1[i].objectClasses && (GidFollowsUid(ps2[i]) <==> GidFollowsUid(ps1[i]))
    {
      assert GroupServed(s, unifiedAny, ps1[i], ps2[i]) && FilledOne(ps1[i], provs1[i], ps2[i], provs2[i]);
      FilledKeepsClasses(ps1[i], provs1[i], ps2[i], provs2[i]);
    }
    if UnifiedAny(ps2) {
      var p :| p in ps2 && HasClass(p, "posixAccount") && GidFollowsUid(p);
      var i :| 0 <= i < |ps2| && ps2[i] == p;
      assert ps1[i] in ps1 && HasClass(ps1[i], "posixAccount") && GidFollowsUid(ps1[i]);
    }
    if UnifiedAny(ps1) {
      var p :| p in ps1 && HasClass(p, "posixAccount") && GidFollowsUid(p);
      var i :| 0 <= i < |ps1| && ps1[i] == p;
      assert ps2[i] in ps2 && HasClass(ps2[i], "posixAccount") && GidFollowsUid(ps2[i]);
    }
  }

  lemma ServedTwice(s: SchemaModel, ds: seq<DetectedProfile>, base: Option<string>, failed: bool, unifiedAny: bool,
                    p0: EntryProfile, prov0: Provenance, p1: EntryProfile, prov1: Provenance, p2: EntryProfile,
                    prov2: Provenance)
    requires s.Valid() && FilledOne(p0, prov0, p1, prov1) && FilledOne(p1, prov1, p2, prov2)
    requires UserServed(s, ds, base, failed, p0, prov0, p1) && GroupServed(s, unifiedAny, p1, p2)
    requires p1.companion != p0.companion ==> unifiedAny
    ensures RuledOne(s, unifiedAny, p0, p2)
  {
    FilledOnes(p0, prov0, p1, prov1, p2, prov2);
    assert SamePart(PartOf(p0, KSearchBase).value, PartOf(p1, KSearchBase));
    assert HasClass(p2, "posixAccount") == HasClass(p0, "posixAccount");
    assert HasClass(p2, "posixGroup") == HasClass(p1, "posixGroup");
    assert StructuralNameOf(s, p1) == StructuralNameOf(s, p0);
    if HasClass(p2, "posixAccount") {
      assert UserRange(s, p0, p2);
    }
  }

  /** `apply`. */
  method Apply(m: Merged, s: SchemaModel, ds: seq<DetectedProfile>, ghost os: seq<Override>, ghost slots: seq<Slot>,
               groupOu: Option<string>, failed: bool)
    requires s.Valid() && AllStand(ds, os, slots, m.profiles, m.provenance)
    modifies m
    ensures AllStand(ds, os, slots, m.profiles, m.provenance) && m.disabled == old(m.disabled)
    ensures RuleD(s, old(m.profiles), old(m.provenance), m.profiles, m.provenance)
  {
    ghost var ps0, provs0 := m.profiles, m.provenance;
    var base := GroupBase(m.profiles, m.provenance, groupOu);
    AssumeUsers(m, s, ds, os, slots, base, failed);
    ghost var ps1, provs1 := m.profiles, m.provenance;
    AssumeGroups(m, s, ds, os, slots);
    RoundsAreRuleD(s, ds, base, failed, ps0, provs0, ps1, provs1, m.profiles, m.provenance);
  }

  lemma FilledTwice(ps0: seq<EntryProfile>, provs0: seq<Provenance>, ps1: seq<EntryProfile>, provs1: seq<Provenance>,
                    ps2: seq<EntryProfile>, provs2: seq<Provenance>)
    requires Filled(ps0, provs0, ps1, provs1) && Filled(ps1, provs1, ps2, provs2)
    ensures Filled(ps0, provs0, ps2, provs2)
    ensures forall i {:trigger ps2[i]} :: 0 <= i < |ps2| ==>
              ps2[i].objectClasses == ps1[i].objectClasses == ps0[i].objectClasses
              && forall a :: HasDefault(ps1[i], a) ==> HasDefault(ps2[i], a)
  {
    forall i | 0 <= i < |ps2|
      ensures FilledOne(ps0[i], provs0[i], ps2[i], provs2[i])
      ensures ps2[i].objectClasses == ps1[i].objectClasses == ps0[i].objectClasses
      ensures forall a :: HasDefault(ps1[i], a) ==> HasDefault(ps2[i], a)
    {
      assert FilledOne(ps0[i], provs0[i], ps1[i], provs1[i]);
      FilledOnes(ps0[i], provs0[i], ps1[i], provs1[i], ps2[i], provs2[i]);
    }
  }

  lemma FilledOnes(p0: EntryProfile, prov0: Provenance, p1: EntryProfile, prov1: Provenance, p2: EntryProfile,
                   prov2: Provenance)
    requires FilledOne(p0, prov0, p1, prov1) && FilledOne(p1, prov1, p2, prov2)
    ensures FilledOne(p0, prov0, p2, prov2) && p2.objectClasses == p1.objectClasses == p0.objectClasses
    ensures forall a :: HasDefault(p1, a) ==> HasDefault(p2, a)
  {
    FillsTwice(p0, prov0.fields, p1, prov1.fields, p2, prov2.fields);
    FilledKeepsClasses(p0, prov0, p1, prov1);
    FilledKeepsClasses(p1, prov1, p2, prov2);
  }

  /** An assumed companion survives validation, for every group container that is not blank. */
  lemma AssumedCompanionFine(base: string)
    requires Trim(base) != ""
    ensures CompanionFine(PrivateGroupCompanion(base))
  {
    UsableReferences();
    FineWith(base, "{uid}", "{uidNumber}");
  }

  lemma FineWith(base: string, u: string, n: string)
    requires Trim(base) != "" && Usable(u) && Usable(n)
    ensures CompanionFine(Companion(["posixGroup"], "cn", base, map["cn" := u, "gidNumber" := n, "memberUid" := u]))
  {
    TrimNoSpaces("cn");
    assert EqCi("cn", "cn");
  }

  predicate Usable(value: string) {
    Parsed(value).Ok? && !Parsed(value).value.AutoNumber?
  }

  lemma UsableReferences()
    ensures Usable("{uid}") && Usable("{uidNumber}")
  {
    assert "{" + "uid" + "}" == "{uid}" && "{" + "uidNumber" + "}" == "{uidNumber}";
    assert "uid"[0] == 'u' && "uidNumber"[0] == 'u';
    FieldReference("uid");
    FieldReference("uidNumber");
  }

  /** `merge_with_assumptions`. */
  method MergeWithAssumptions(s: SchemaModel, place: ShowRule, ds: seq<DetectedProfile>, os: seq<Override>,
                              groupOu: Option<string>, failed: bool)
    returns (out: Merged, ghost m: Match, ghost slots: seq<Slot>, ghost rest: seq<nat>,
             ghost rename: map<string, string>, ghost st: Stages)
    requires s.Valid()
    ensures fresh(out) && MergedFrom(s, ds, os, m, slots, rest, rename)
    ensures AllStand(ds, os, slots, out.profiles, out.provenance) && out.disabled == DisabledNames(os, |os|)
    ensures Staged(s, ds, os, rename, slots, st, out.profiles, out.provenance)
    ensures AllFinished(s, ds, os, rename, slots, out.profiles, out.provenance)
  {
    out, m, slots, rest, rename := MergeCore(s, place, ds, os);
    ghost var ps0, provs0 := out.profiles, out.provenance;
    Apply(out, s, ds, os, slots, groupOu, failed);
    ghost var ps1, provs1 := out.profiles, out.provenance;
    ghost var left := out.FlushPending(s, ds, os, slots);
    st := Stages(ps0, provs0, ps1, provs1, left);
    forall i | 0 <= i < |out.provenance|
      ensures Finished(s, ds, os, rename, slots[i], out.profiles[i], out.provenance[i])
    {
      assert FlushedAs(ps1[i], provs1[i], out.profiles[i], out.provenance[i], left[i]);
      assert Stands(ds, os, slots[i], ps0[i], provs0[i]) && FilledOne(ps0[i], provs0[i], ps1[i], provs1[i]);
      assert Made(s, ds, os, rename, slots[i], ps0[i], provs0[i], []);
      FinishedOne(s, ds, os, rename, slots[i], ps0[i], provs0[i], ps1[i], provs1[i], out.profiles[i],
                  out.provenance[i], left[i]);
    }
  }

  /** The profiles after the merge and after rule D, and the paths that ended as warnings. */
  datatype Stages = Stages(ps0: seq<EntryProfile>, provs0: seq<Provenance>, ps1: seq<EntryProfile>,
                           provs1: seq<Provenance>, left: seq<seq<string>>)

  /** The stages follow each other: merged, filled in by rule D, and flushed. */
  ghost predicate Staged(s: SchemaModel, ds: seq<DetectedProfile>, os: seq<Override>, rename: map<string, string>,
                         slots: seq<Slot>, st: Stages, ps: seq<EntryProfile>, provs: seq<Provenance>)
    requires s.Valid()
  {
    && AllMade(s, ds, os, rename, slots, st.ps0, st.provs0) && RuleD(s, st.ps0, st.provs0, st.ps1, st.provs1)
    && |ps| == |provs| == |st.ps1| == |st.left|
    && forall i {:trigger ps[i]} :: 0 <= i < |ps| ==>
         FlushedAs(st.ps1[i], st.provs1[i], ps[i], provs[i], st.left[i])
  }

  /** A result of the merge with assumptions: no path waits, each either was taken or ended as a warning. */
  ghost predicate Finished(s: SchemaModel, ds: seq<DetectedProfile>, os: seq<Override>, rename: map<string, string>,
                           slot: Slot, p: EntryProfile, prov: Provenance)
    requires s.Valid()
  {
    prov.pending == [] && exists left :: Made(s, ds, os, rename, slot, p, prov, left)
  }

  ghost predicate AllFinished(s: SchemaModel, ds: seq<DetectedProfile>, os: seq<Override>,
                              rename: map<string, string>, slots: seq<Slot>, ps: seq<EntryProfile>,
                              provs: seq<Provenance>)
    requires s.Valid()
  {
    |ps| == |provs| == |slots|
    && forall i {:trigger ps[i]} :: 0 <= i < |ps| ==> Finished(s, ds, os, rename, slots[i], ps[i], provs[i])
  }

  lemma FinishedOne(s: SchemaModel, ds: seq<DetectedProfile>, os: seq<Override>, rename: map<string, string>,
                    slot: Slot, p0: EntryProfile, prov0: Provenance, p1: EntryProfile, prov1: Provenance,
                    p2: EntryProfile, prov2: Provenance, left: seq<string>)
    requires s.Valid() && Made(s, ds, os, rename, slot, p0, prov0, []) && Exact(p0, prov0.fields)
    requires FilledOne(p0, prov0, p1, prov1) && FlushedAs(p1, prov1, p2, prov2, left)
    ensures Finished(s, ds, os, rename, slot, p2, prov2)
  {
    OnlyFillsTrail(prov2.suppressed, p0, prov0.fields, p1, prov1.fields);
    TrailTwice(prov2.suppressed, p0, prov0.fields, p1, prov1.fields, p2, prov2.fields);
    SettledPaths(prov1, prov2, left);
    MadeThen(s, ds, os, rename, slot, p0, prov0, p2, prov2, left);
  }

  lemma SettledPaths(before: Provenance, after: Provenance, left: seq<string>)
    requires Settled(before, after, left)
    ensures Paths(after) + multiset(left) == Paths(before)
  {
    assert multiset(after.pending) == multiset{};
  }
}
