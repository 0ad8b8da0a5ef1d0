/** `schema/model.rs`: class lookup by name and alias, inheritance along SUP, the structural class. */
module Schema {
  import opened Text

  datatype ObjectClass =
    ObjectClass(names: seq<string>, sup: seq<string>, must: seq<string>, may: seq<string>, structural: bool)

  /** A parsed schema. The maps take a lower-cased name or alias to the position of its definition;
      of two definitions that share a name the later one wins. */
  datatype SchemaModel = SchemaModel(
    classes: seq<ObjectClass>,
    attrNames: seq<seq<string>>,
    ocByName: map<string, nat>,
    atByName: map<string, nat>)
  {
    ghost predicate Valid() {
      IndexOf(ClassNames(classes), ocByName) && IndexOf(attrNames, atByName)
    }

    /** The position of the class that `name` denotes. */
    function Resolve(name: string): (c: Option<nat>)
      requires Valid()
      ensures c.Some? ==> c.value < |classes| && Has(classes[c.value].names, Lower(name))
    {
      if Lower(name) in ocByName then Some(ocByName[Lower(name)]) else None
    }

    function CanonicalAttr(name: string): string
      requires Valid()
    {
      if Lower(name) in atByName && attrNames[atByName[Lower(name)]] != []
      then attrNames[atByName[Lower(name)]][0] else name
    }

    function Canonical(names: seq<string>): set<string>
      requires Valid()
    {
      set a | a in names :: CanonicalAttr(a)
    }

    predicate IsStructural(name: string)
      requires Valid()
    {
      Resolve(name).Some? && classes[Resolve(name).value].structural
    }

    // ------------------------------------------------------------ what inheritance means

    /** Class `c` names class `d` as a direct superclass, by whichever alias. */
    predicate Sup(c: nat, d: nat)
      requires Valid()
    {
      c < |classes| && exists s :: s in classes[c].sup && Resolve(s) == Some(d)
    }

    predicate IsPath(p: seq<nat>)
      requires Valid()
    {
      p != [] && (forall i :: 0 <= i < |p| ==> p[i] < |classes|)
      && forall i :: 0 <= i < |p| - 1 ==> Sup(p[i], p[i + 1])
    }

    ghost predicate Inherits(c: nat, d: nat)
      requires Valid()
    {
      exists p :: IsPath(p) && p[0] == c && p[|p| - 1] == d
    }

    /** `d` is a superclass of `c`, reached over at least one SUP edge. */
    ghost predicate Above(c: nat, d: nat)
      requires Valid()
    {
      exists e: nat :: Inherits(c, e) && Sup(e, d)
    }

    /** One of the given class names denotes a class that is `d` or inherits from it. */
    ghost predicate Brings(ocs: seq<string>, d: nat)
      requires Valid()
    {
      d < |classes| && exists o :: o in ocs && Resolve(o).Some? && Inherits(Resolve(o).value, d)
    }

    ghost predicate Must(ocs: seq<string>, a: string)
      requires Valid()
    {
      exists d: nat :: Brings(ocs, d) && a in Canonical(classes[d].must)
    }

    ghost predicate May(ocs: seq<string>, a: string)
      requires Valid()
    {
      exists d: nat :: Brings(ocs, d) && a in Canonical(classes[d].may)
    }

    /** `k` is how some class at or above `c` spells a superclass, or a name of such a superclass. */
    ghost predicate SuperName(c: nat, k: string)
      requires Valid()
    {
      exists d: nat, s :: d < |classes| && Inherits(c, d) && s in classes[d].sup && Spells(s, k)
    }

    ghost predicate Spells(s: string, k: string)
      requires Valid()
    {
      k == Lower(s) || (Resolve(s).Some? && Has(classes[Resolve(s).value].names, k))
    }

    /** No two superclasses of `c` share a name. */
    ghost predicate UniqueAbove(c: nat)
      requires Valid()
    {
      forall i: nat, j: nat, k {:trigger Carries(c, i, k), Carries(c, j, k)} ::
        Carries(c, i, k) && Carries(c, j, k) ==> i == j
    }

    /** `d` is a superclass of `c` with the name `k`. */
    ghost predicate Carries(c: nat, d: nat, k: string)
      requires Valid()
    {
      d < |classes| && Above(c, d) && Has(classes[d].names, k)
    }

    /** No two of the classes an entry with these object classes has share a name. */
    ghost predicate UniqueAmong(ocs: seq<string>)
      requires Valid()
    {
      forall i: nat, j: nat, k {:trigger BroughtAs(ocs, i, k), BroughtAs(ocs, j, k)} ::
        BroughtAs(ocs, i, k) && BroughtAs(ocs, j, k) ==> i == j
    }

    ghost predicate BroughtAs(ocs: seq<string>, d: nat, k: string)
      requires Valid()
    {
      Brings(ocs, d) && Has(classes[d].names, k)
    }

    ghost predicate Acyclic()
      requires Valid()
    {
      forall c: nat :: !Above(c, c)
    }
  }

  predicate Has(names: seq<string>, k: string) {
    exists n :: n in names && Lower(n) == k
  }

  function ClassNames(classes: seq<ObjectClass>): seq<seq<string>> {
    seq(|classes|, i requires 0 <= i < |classes| => classes[i].names)
  }

  ghost predicate IndexOf(names: seq<seq<string>>, index: map<string, nat>) {
    (forall k :: k in index ==> index[k] < |names| && Has(names[index[k]], k))
    && (forall k, i :: 0 <= i < |names| && Has(names[i], k) ==> k in index && i <= index[k])
  }

  method IndexNames(names: seq<seq<string>>) returns (index: map<string, nat>)
    ensures IndexOf(names, index)
  {
    index := map[];
    for i := 0 to |names|
      invariant IndexOf(names[..i], index)
    {
      ghost var before := index;
      for j := 0 to |names[i]|
        invariant forall k :: k in index <==> k in before || Has(names[i][..j], k)
        invariant forall k :: k in index ==> index[k] == if Has(names[i][..j], k) then i else before[k]
      {
        assert names[i][..j + 1] == names[i][..j] + [names[i][j]];
        HasMore(names[i][..j], names[i][j]);
        index := index[Lower(names[i][j]) := i];
      }
      assert names[i][..|names[i]|] == names[i];
      IndexGrows(names[..i], names[i], before, index);
      assert names[..i + 1] == names[..i] + [names[i]];
    }
    assert names[..|names|] == names;
  }

  lemma HasMore(names: seq<string>, n: string)
    ensures forall k :: Has(names + [n], k) <==> Has(names, k) || k == Lower(n)
  {
    forall k | Has(names, k) || k == Lower(n) ensures Has(names + [n], k) {
      if Has(names, k) {
        var m :| m in names && Lower(m) == k;
        assert m in names + [n];
      } else {
        assert n in names + [n];
      }
    }
  }

  lemma IndexGrows(names: seq<seq<string>>, more: seq<string>, before: map<string, nat>, index: map<string, nat>)
    requires IndexOf(names, before)
    requires forall k :: k in index <==> k in before || Has(more, k)
    requires forall k :: k in index ==> index[k] == if Has(more, k) then |names| else before[k]
    ensures IndexOf(names + [more], index)
  {
    var all := names + [more];
    forall k | k in index ensures index[k] < |all| && Has(all[index[k]], k) {
      assert k in before ==> all[before[k]] == names[before[k]];
    }
    forall k, i | 0 <= i < |all| && Has(all[i], k) ensures k in index && i <= index[k] {
      assert i < |names| ==> all[i] == names[i];
    }
  }

  method FromParsed(classes: seq<ObjectClass>, attrNames: seq<seq<string>>) returns (s: SchemaModel)
    ensures s.Valid() && s.classes == classes && s.attrNames == attrNames
  {
    var ocs := IndexNames(ClassNames(classes));
    var ats := IndexNames(attrNames);
    s := SchemaModel(classes, attrNames, ocs, ats);
  }

  /** `i` is the last of these definitions with the name `k`. */
  ghost predicate LastNamed(names: seq<seq<string>>, k: string, i: int) {
    0 <= i < |names| && Has(names[i], k) && forall j :: i < j < |names| ==> !Has(names[j], k)
  }

  /** A class is found under any of its names, in any case: the last class that has it, and none only if none has. */
  lemma ResolveExact(s: SchemaModel, name: string)
    requires s.Valid()
    ensures s.Resolve(name).Some? ==> LastNamed(ClassNames(s.classes), Lower(name), s.Resolve(name).value)
    ensures s.Resolve(name) == None ==> forall i :: 0 <= i < |s.classes| ==> !Has(s.classes[i].names, Lower(name))
    ensures s.IsStructural(name) <==>
              exists i :: LastNamed(ClassNames(s.classes), Lower(name), i) && s.classes[i].structural
  {
    var names, k := ClassNames(s.classes), Lower(name);
    forall i | LastNamed(names, k, i) ensures s.Resolve(name) == Some(i) { }
    forall i | 0 <= i < |names| ensures names[i] == s.classes[i].names { }
  }

  /** An attribute goes by the first name of the last definition that has the name it is referred to by; where no
      definition has it, or the definition lists no name, by the reference itself. */
  lemma CanonicalExact(s: SchemaModel, name: string)
    requires s.Valid()
    ensures forall i :: LastNamed(s.attrNames, Lower(name), i) ==> s.CanonicalAttr(name) == s.attrNames[i][0]
    ensures (forall i :: 0 <= i < |s.attrNames| ==> !Has(s.attrNames[i], Lower(name))) ==> s.CanonicalAttr(name) == name
  {
    forall i | LastNamed(s.attrNames, Lower(name), i)
      ensures s.attrNames[i] != [] && s.CanonicalAttr(name) == s.attrNames[i][0]
    {
      assert Lower(name) in s.atByName && s.atByName[Lower(name)] == i;
    }
  }

  /** The name a picked class is reported under: the first the schema lists for it. */
  lemma PrimaryExact(s: SchemaModel, o: string, i: nat)
    requires s.Valid() && LastNamed(ClassNames(s.classes), Lower(o), i)
    ensures s.Resolve(o).Some? && s.classes[i].names != [] && PrimaryName(s, o) == s.classes[i].names[0]
  {
    ResolveExact(s, o);
    var names := ClassNames(s.classes);
    assert names[i] == s.classes[i].names;
    assert Lower(o) in s.ocByName && s.ocByName[Lower(o)] == i;
  }

  // ---------------------------------------------------------------- paths

  lemma InheritsSelf(s: SchemaModel, c: nat)
    requires s.Valid() && c < |s.classes|
    ensures s.Inherits(c, c)
  {
    assert s.IsPath([c]) && [c][0] == c;
  }

  lemma InheritsStep(s: SchemaModel, c: nat, d: nat, e: nat)
    requires s.Valid() && s.Inherits(c, d) && s.Sup(d, e)
    ensures s.Inherits(c, e)
  {
    var p :| s.IsPath(p) && p[0] == c && p[|p| - 1] == d;
    var q := p + [e];
    assert s.IsPath(q) && q[0] == c && q[|q| - 1] == e;
  }

  lemma InheritsTrans(s: SchemaModel, c: nat, d: nat, e: nat)
    requires s.Valid() && s.Inherits(c, d) && s.Inherits(d, e)
    ensures s.Inherits(c, e)
  {
    var p :| s.IsPath(p) && p[0] == c && p[|p| - 1] == d;
    var q :| s.IsPath(q) && q[0] == d && q[|q| - 1] == e;
    var r := p + q[1..];
    assert forall i :: |p| <= i < |r| ==> r[i] == q[i - |p| + 1];
    assert r[|p| - 1] == q[0];
    forall i | 0 <= i < |r| - 1 ensures s.Sup(r[i], r[i + 1]) {
      if i >= |p| - 1 { assert r[i] == q[i - |p| + 1] && r[i + 1] == q[i - |p| + 2]; }
    }
    assert s.IsPath(r) && r[0] == c && r[|r| - 1] == e;
  }

  /** A set of classes that holds its members' superclasses holds everything they inherit from. */
  lemma {:induction false} ClosedHoldsPath(s: SchemaModel, inside: iset<nat>, p: seq<nat>)
    requires s.Valid() && s.IsPath(p) && p[0] in inside
    requires forall c, d :: c in inside && s.Sup(c, d) ==> d in inside
    ensures p[|p| - 1] in inside
  {
    if |p| > 1 {
      assert s.Sup(p[0], p[1]);
      ClosedHoldsPath(s, inside, p[1..]);
    }
  }

  lemma ClosedHolds(s: SchemaModel, inside: iset<nat>, c: nat, d: nat)
    requires s.Valid() && s.Inherits(c, d) && c in inside
    requires forall c, d :: c in inside && s.Sup(c, d) ==> d in inside
    ensures d in inside
  {
    var p :| s.IsPath(p) && p[0] == c && p[|p| - 1] == d;
    ClosedHoldsPath(s, inside, p);
  }

  /** What an entry's classes bring: those it names, and the superclasses of whatever they bring. */
  lemma BringsExactly(s: SchemaModel, ocs: seq<string>, d: nat)
    requires s.Valid() && d < |s.classes|
    ensures s.Brings(ocs, d) <==>
              (exists o :: o in ocs && s.Resolve(o) == Some(d)) || exists e: nat :: s.Brings(ocs, e) && s.Sup(e, d)
  {
    if s.Brings(ocs, d) {
      var o :| o in ocs && s.Resolve(o).Some? && s.Inherits(s.Resolve(o).value, d);
      LastStep(s, ocs, o, s.Resolve(o).value, d);
    }
    if o :| o in ocs && s.Resolve(o) == Some(d) { InheritsSelf(s, d); }
    forall e: nat | s.Brings(ocs, e) && s.Sup(e, d) ensures s.Brings(ocs, d) { BringsStep(s, ocs, e, d); }
  }

  lemma LastStep(s: SchemaModel, ocs: seq<string>, o: string, c: nat, d: nat)
    requires s.Valid() && o in ocs && s.Resolve(o) == Some(c) && s.Inherits(c, d)
    ensures c == d || exists e: nat :: s.Brings(ocs, e) && s.Sup(e, d)
  {
    var p :| s.IsPath(p) && p[0] == c && p[|p| - 1] == d;
    if |p| > 1 {
      var q, e := p[..|p| - 1], p[|p| - 2];
      assert s.Inherits(c, e) by { assert s.IsPath(q) && q[0] == c && q[|q| - 1] == e; }
      assert s.Brings(ocs, e) && s.Sup(e, p[|p| - 1]);
    }
  }

  lemma BringsStep(s: SchemaModel, ocs: seq<string>, e: nat, d: nat)
    requires s.Valid() && d < |s.classes| && s.Brings(ocs, e) && s.Sup(e, d)
    ensures s.Brings(ocs, d)
  {
    var o :| o in ocs && s.Resolve(o).Some? && s.Inherits(s.Resolve(o).value, e);
    InheritsStep(s, s.Resolve(o).value, e, d);
  }

  // ---------------------------------------------------------------- effective attributes

  /** Every name the search can come across. */
  function Universe(s: SchemaModel, ocs: seq<string>): set<string> {
    (set o | o in ocs :: Lower(o)) + (set c, n | c in s.classes && n in c.sup :: Lower(n))
  }

  /** The attributes gathered so far are those of the classes the visited names denote. */
  ghost predicate Gathered(s: SchemaModel, must: set<string>, may: set<string>, visited: set<string>)
    requires s.Valid()
  {
    (forall a :: a in must <==> exists k :: k in visited && Requires(s, k, a))
    && (forall a :: a in may <==> exists k :: k in visited && Allows(s, k, a))
  }

  predicate Requires(s: SchemaModel, k: string, a: string)
    requires s.Valid()
  {
    k in s.ocByName && a in s.Canonical(s.classes[s.ocByName[k]].must)
  }

  predicate Allows(s: SchemaModel, k: string, a: string)
    requires s.Valid()
  {
    k in s.ocByName && a in s.Canonical(s.classes[s.ocByName[k]].may)
  }

  /** Every one of these names has been visited. */
  predicate Met(names: seq<string>, visited: set<string>) {
    forall n :: n in names ==> Lower(n) in visited
  }

  /** A visited name whose superclasses have all been visited too. */
  predicate Expanded(s: SchemaModel, k: string, visited: set<string>)
    requires s.Valid()
  {
    k in s.ocByName ==> Met(s.classes[s.ocByName[k]].sup, visited)
  }

  ghost predicate Wanted(s: SchemaModel, ocs: seq<string>, k: string)
    requires s.Valid()
  {
    k in s.ocByName ==> s.Brings(ocs, s.ocByName[k])
  }

  /** Names visited since `before` are wanted, and their superclasses are visited too. */
  ghost predicate Grown(s: SchemaModel, ocs: seq<string>, before: set<string>, visited: set<string>)
    requires s.Valid()
  {
    before <= visited
    && forall k {:trigger Expanded(s, k, visited)} {:trigger Wanted(s, ocs, k)} ::
         k in visited && k !in before ==> Expanded(s, k, visited) && Wanted(s, ocs, k)
  }

  method InsertCanonical(s: SchemaModel, into: set<string>, names: seq<string>) returns (r: set<string>)
    requires s.Valid()
    ensures r == into + s.Canonical(names)
  {
    r := into;
    for i := 0 to |names|
      invariant r == into + s.Canonical(names[..i])
    {
      assert names[..i + 1] == names[..i] + [names[i]];
      r := r + {s.CanonicalAttr(names[i])};
    }
    assert names[..|names|] == names;
  }

  /** `collect_class`: depth first along SUP; a name is expanded only the first time it is met. */
  method CollectClass(s: SchemaModel, ghost ocs: seq<string>, name: string,
                      must0: set<string>, may0: set<string>, visited0: set<string>)
    returns (must: set<string>, may: set<string>, visited: set<string>)
    requires s.Valid() && Gathered(s, must0, may0, visited0)
    requires Lower(name) in Universe(s, ocs) && Wanted(s, ocs, Lower(name))
    ensures Gathered(s, must, may, visited) && Lower(name) in visited && Grown(s, ocs, visited0, visited)
    decreases Universe(s, ocs) - visited0, 1
  {
    must, may, visited := must0, may0, visited0;
    var key := Lower(name);
    if key in visited {
      return;
    }
    visited := visited + {key};
    if s.Resolve(name) == None {
      GatherOne(s, must0, may0, visited0, key, must, may);
      GrownKey(s, ocs, visited0, key, visited);
      return;
    }
    var c := s.Resolve(name).value;
    must := InsertCanonical(s, must, s.classes[c].must);
    may := InsertCanonical(s, may, s.classes[c].may);
    GatherOne(s, must0, may0, visited0, key, must, may);
    must, may, visited := CollectSups(s, ocs, c, must, may, visited);
    GrownKey(s, ocs, visited0, key, visited);
  }

  /** The loop of `collect_class` over the superclass references of class `c`. */
  method CollectSups(s: SchemaModel, ghost ocs: seq<string>, c: nat,
                     must0: set<string>, may0: set<string>, visited0: set<string>)
    returns (must: set<string>, may: set<string>, visited: set<string>)
    requires s.Valid() && c < |s.classes| && s.Brings(ocs, c) && Gathered(s, must0, may0, visited0)
    ensures Gathered(s, must, may, visited) && Grown(s, ocs, visited0, visited)
    ensures Met(s.classes[c].sup, visited)
    decreases Universe(s, ocs) - visited0, 2
  {
    must, may, visited := must0, may0, visited0;
    var sups := s.classes[c].sup;
    for i := 0 to |sups|
      invariant Gathered(s, must, may, visited) && Grown(s, ocs, visited0, visited)
      invariant Met(sups[..i], visited)
    {
      SupWanted(s, ocs, c, sups[i]);
      ghost var before := visited;
      must, may, visited := CollectClass(s, ocs, sups[i], must, may, visited);
      GrownTwice(s, ocs, visited0, before, visited);
      MetMore(sups, i, before, visited);
    }
    assert sups[..|sups|] == sups;
  }

  lemma MetMore(names: seq<string>, i: nat, before: set<string>, visited: set<string>)
    requires i < |names| && Met(names[..i], before) && before <= visited && Lower(names[i]) in visited
    ensures Met(names[..i + 1], visited)
  {
    assert names[..i + 1] == names[..i] + [names[i]];
  }

  lemma GrownTwice(s: SchemaModel, ocs: seq<string>, a: set<string>, b: set<string>, c: set<string>)
    requires s.Valid() && Grown(s, ocs, a, b) && Grown(s, ocs, b, c)
    ensures Grown(s, ocs, a, c)
  {
    forall k | k in c && k !in a ensures Expanded(s, k, c) && Wanted(s, ocs, k) {
      if k in b {
        assert Expanded(s, k, b);
      }
    }
  }

  lemma GrownKey(s: SchemaModel, ocs: seq<string>, a: set<string>, key: string, b: set<string>)
    requires s.Valid() && Grown(s, ocs, a + {key}, b) && Expanded(s, key, b) && Wanted(s, ocs, key)
    ensures Grown(s, ocs, a, b)
  {
    forall k | k in b && k !in a ensures Expanded(s, k, b) && Wanted(s, ocs, k) {
      assert k == key || k !in a + {key};
    }
  }

  lemma GatherOne(s: SchemaModel, must0: set<string>, may0: set<string>, visited0: set<string>, key: string,
                  must: set<string>, may: set<string>)
    requires s.Valid() && Gathered(s, must0, may0, visited0)
    requires key !in s.ocByName ==> must == must0 && may == may0
    requires key in s.ocByName ==>
               must == must0 + s.Canonical(s.classes[s.ocByName[key]].must)
               && may == may0 + s.Canonical(s.classes[s.ocByName[key]].may)
    ensures Gathered(s, must, may, visited0 + {key})
  {
    var visited := visited0 + {key};
    forall a ensures a in must <==> exists k :: k in visited && Requires(s, k, a) {
      if a in must {
        if a in must0 { var k :| k in visited0 && Requires(s, k, a); assert k in visited; }
        else { assert key in visited && Requires(s, key, a); }
      }
    }
    forall a ensures a in may <==> exists k :: k in visited && Allows(s, k, a) {
      if a in may {
        if a in may0 { var k :| k in visited0 && Allows(s, k, a); assert k in visited; }
        else { assert key in visited && Allows(s, key, a); }
      }
    }
  }

  lemma BringsSup(s: SchemaModel, ocs: seq<string>, c: nat, d: nat)
    requires s.Valid() && s.Brings(ocs, c) && s.Sup(c, d)
    ensures s.Brings(ocs, d)
  {
    var o :| o in ocs && s.Resolve(o).Some? && s.Inherits(s.Resolve(o).value, c);
    InheritsStep(s, s.Resolve(o).value, c, d);
  }

  lemma SupWanted(s: SchemaModel, ocs: seq<string>, c: nat, sup: string)
    requires s.Valid() && c < |s.classes| && sup in s.classes[c].sup && s.Brings(ocs, c)
    ensures Lower(sup) in Universe(s, ocs) && Wanted(s, ocs, Lower(sup))
  {
    assert s.classes[c] in s.classes;
    if s.Resolve(sup).Some? {
      BringsSup(s, ocs, c, s.Resolve(sup).value);
    }
  }

  lemma RootWanted(s: SchemaModel, ocs: seq<string>, o: string)
    requires s.Valid() && o in ocs
    ensures Lower(o) in Universe(s, ocs) && Wanted(s, ocs, Lower(o))
  {
    if s.Resolve(o).Some? {
      InheritsSelf(s, s.Resolve(o).value);
    }
  }

  /** `effective_attributes`, on every schema, cyclic ones included. */
  method EffectiveAttributes(s: SchemaModel, ocs: seq<string>) returns (must: set<string>, may: set<string>)
    requires s.Valid()
    ensures forall a :: a in must <==> s.Must(ocs, a)
    ensures forall a :: a in may <==> s.May(ocs, a) && !exists r :: r in must && EqCi(r, a)
  {
    var visited: set<string> := {};
    must, may := {}, {};
    for i := 0 to |ocs|
      invariant Gathered(s, must, may, visited) && Grown(s, ocs, {}, visited)
      invariant Met(ocs[..i], visited)
    {
      RootWanted(s, ocs, ocs[i]);
      ghost var before := visited;
      must, may, visited := CollectClass(s, ocs, ocs[i], must, may, visited);
      GrownTwice(s, ocs, {}, before, visited);
      MetMore(ocs, i, before, visited);
    }
    assert ocs[..|ocs|] == ocs;
    forall a ensures a in must <==> s.Must(ocs, a) {
      MustExactly(s, ocs, must, may, visited, a);
    }
    forall a ensures a in may <==> s.May(ocs, a) {
      MayExactly(s, ocs, must, may, visited, a);
    }
    may := set m | m in may && !exists r :: r in must && EqCi(r, m);
  }

  ghost predicate Denoted(s: SchemaModel, visited: set<string>, d: nat)
    requires s.Valid()
  {
    exists k :: k in visited && k in s.ocByName && s.ocByName[k] == d
  }

  lemma DenotedSup(s: SchemaModel, ocs: seq<string>, visited: set<string>, c: nat, d: nat)
    requires s.Valid() && Grown(s, ocs, {}, visited) && Denoted(s, visited, c) && s.Sup(c, d)
    ensures Denoted(s, visited, d)
  {
    var k :| k in visited && k in s.ocByName && s.ocByName[k] == c;
    assert Expanded(s, k, visited);
    var n :| n in s.classes[c].sup && s.Resolve(n) == Some(d);
    assert Lower(n) in visited;
  }

  /** The names visited denote exactly the classes the entry's object classes bring in. */
  lemma VisitedExactly(s: SchemaModel, ocs: seq<string>, visited: set<string>, d: nat)
    requires s.Valid() && Grown(s, ocs, {}, visited)
    requires Met(ocs, visited)
    ensures s.Brings(ocs, d) <==> Denoted(s, visited, d)
  {
    if s.Brings(ocs, d) {
      var o :| o in ocs && s.Resolve(o).Some? && s.Inherits(s.Resolve(o).value, d);
      var inside := iset c: nat | Denoted(s, visited, c);
      forall c, e | c in inside && s.Sup(c, e) ensures e in inside {
        DenotedSup(s, ocs, visited, c, e);
      }
      assert Lower(o) in visited;
      ClosedHolds(s, inside, s.Resolve(o).value, d);
    }
    if Denoted(s, visited, d) {
      var k :| k in visited && k in s.ocByName && s.ocByName[k] == d;
      assert Wanted(s, ocs, k);
    }
  }

  lemma MustExactly(s: SchemaModel, ocs: seq<string>, must: set<string>, may: set<string>, visited: set<string>,
                    a: string)
    requires s.Valid() && Gathered(s, must, may, visited) && Grown(s, ocs, {}, visited)
    requires Met(ocs, visited)
    ensures a in must <==> s.Must(ocs, a)
  {
    if a in must {
      var k :| k in visited && Requires(s, k, a);
      VisitedExactly(s, ocs, visited, s.ocByName[k]);
    }
    if s.Must(ocs, a) {
      var d: nat :| s.Brings(ocs, d) && a in s.Canonical(s.classes[d].must);
      VisitedExactly(s, ocs, visited, d);
      var k :| k in visited && k in s.ocByName && s.ocByName[k] == d;
      assert Requires(s, k, a);
    }
  }

  lemma MayExactly(s: SchemaModel, ocs: seq<string>, must: set<string>, may: set<string>, visited: set<string>,
                   a: string)
    requires s.Valid() && Gathered(s, must, may, visited) && Grown(s, ocs, {}, visited)
    requires Met(ocs, visited)
    ensures a in may <==> s.May(ocs, a)
  {
    if a in may {
      var k :| k in visited && Allows(s, k, a);
      VisitedExactly(s, ocs, visited, s.ocByName[k]);
    }
    if s.May(ocs, a) {
      var d: nat :| s.Brings(ocs, d) && a in s.Canonical(s.classes[d].may);
      VisitedExactly(s, ocs, visited, d);
      var k :| k in visited && k in s.ocByName && s.ocByName[k] == d;
      assert Allows(s, k, a);
    }
  }

  // ---------------------------------------------------------------- spellings do not matter

  ghost predicate Denotes(s: SchemaModel, ocs: seq<string>, d: nat)
    requires s.Valid()
  {
    exists o :: o in ocs && s.Resolve(o) == Some(d)
  }

  /** `t` is `s` with superclass references respelled: each class keeps the superclasses it denotes. */
  ghost predicate Respelled(s: SchemaModel, t: SchemaModel)
    requires s.Valid() && t.Valid()
  {
    |t.classes| == |s.classes| && t.attrNames == s.attrNames
    && t.ocByName == s.ocByName && t.atByName == s.atByName
    && (forall i :: 0 <= i < |s.classes| ==> t.classes[i] == s.classes[i].(sup := t.classes[i].sup))
    && (forall c: nat, d: nat :: s.Sup(c, d) == t.Sup(c, d))
  }

  lemma RespelledInherits(s: SchemaModel, t: SchemaModel, c: nat, d: nat)
    requires s.Valid() && t.Valid() && Respelled(s, t) && s.Inherits(c, d)
    ensures t.Inherits(c, d)
  {
    var p :| s.IsPath(p) && p[0] == c && p[|p| - 1] == d;
    assert t.IsPath(p) by {
      forall i | 0 <= i < |p| - 1 ensures t.Sup(p[i], p[i + 1]) { assert s.Sup(p[i], p[i + 1]); }
    }
  }

  lemma RespelledBrings(s: SchemaModel, t: SchemaModel, ocs: seq<string>, ocs2: seq<string>, d: nat)
    requires s.Valid() && t.Valid() && Respelled(s, t) && s.Brings(ocs, d)
    requires forall c :: Denotes(s, ocs, c) ==> Denotes(t, ocs2, c)
    ensures t.Brings(ocs2, d)
  {
    var o :| o in ocs && s.Resolve(o).Some? && s.Inherits(s.Resolve(o).value, d);
    var c := s.Resolve(o).value;
    assert Denotes(s, ocs, c);
    var o2 :| o2 in ocs2 && t.Resolve(o2) == Some(c);
    RespelledInherits(s, t, c, d);
  }

  /** The result depends on the classes meant, not on the order, repetition, case or alias in which
      the entry and the SUP references name them. */
  lemma SpellingDoesNotMatter(s: SchemaModel, t: SchemaModel, ocs: seq<string>, ocs2: seq<string>, a: string)
    requires s.Valid() && t.Valid() && Respelled(s, t)
    requires forall c :: Denotes(s, ocs, c) <==> Denotes(t, ocs2, c)
    ensures s.Must(ocs, a) <==> t.Must(ocs2, a)
    ensures s.May(ocs, a) <==> t.May(ocs2, a)
  {
    assert Respelled(t, s);
    forall d: nat ensures s.Brings(ocs, d) <==> t.Brings(ocs2, d) {
      if s.Brings(ocs, d) { RespelledBrings(s, t, ocs, ocs2, d); }
      if t.Brings(ocs2, d) { RespelledBrings(t, s, ocs2, ocs, d); }
    }
    SameClass(s, t);
  }

  lemma SameClass(s: SchemaModel, t: SchemaModel)
    requires s.Valid() && t.Valid() && Respelled(s, t)
    ensures forall d: nat :: d < |s.classes| ==>
              s.Canonical(s.classes[d].must) == t.Canonical(t.classes[d].must)
              && s.Canonical(s.classes[d].may) == t.Canonical(t.classes[d].may)
  {
    forall d: nat | d < |s.classes|
      ensures s.Canonical(s.classes[d].must) == t.Canonical(t.classes[d].must)
      ensures s.Canonical(s.classes[d].may) == t.Canonical(t.classes[d].may)
    {
      assert forall n :: s.CanonicalAttr(n) == t.CanonicalAttr(n);
      assert t.classes[d] == s.classes[d].(sup := t.classes[d].sup);
    }
  }

  // ---------------------------------------------------------------- superclasses

  /** A superclass reference that class `c` or one of its superclasses makes. */
  ghost predicate Referenced(s: SchemaModel, c: nat, r: string)
    requires s.Valid()
  {
    exists d: nat :: d < |s.classes| && s.Inherits(c, d) && r in s.classes[d].sup
  }

  /** Every name in `out` is one the closure asks for. */
  ghost predicate Sound(s: SchemaModel, c: nat, out: set<string>)
    requires s.Valid()
  {
    forall k :: k in out ==> s.SuperName(c, k)
  }

  /** The references of class `d` have been followed, or wait on the stack. */
  predicate Followed(s: SchemaModel, d: nat, out: set<string>, stack: seq<string>)
    requires s.Valid() && d < |s.classes|
  {
    forall r :: r in s.classes[d].sup ==> Lower(r) in out || r in stack
  }

  /** A superclass that a name in `out` stands for has all its names there, and its references followed. */
  ghost predicate Saturated(s: SchemaModel, c: nat, out: set<string>, stack: seq<string>)
    requires s.Valid()
  {
    forall k :: k in out && k in s.ocByName && s.Above(c, s.ocByName[k]) ==> Entered(s, s.ocByName[k], out, stack)
  }

  ghost predicate Entered(s: SchemaModel, d: nat, out: set<string>, stack: seq<string>)
    requires s.Valid() && d < |s.classes|
  {
    Followed(s, d, out, stack) && forall k :: Has(s.classes[d].names, k) ==> k in out
  }

  function LowerAll(names: seq<string>): set<string> {
    set n | n in names :: Lower(n)
  }

  predicate InUniverse(s: SchemaModel, stack: seq<string>) {
    forall r :: r in stack ==> Lower(r) in Universe(s, [])
  }

  lemma SupsInUniverse(s: SchemaModel, d: nat)
    requires d < |s.classes|
    ensures InUniverse(s, s.classes[d].sup)
  {
    assert s.classes[d] in s.classes;
  }

  /** The worklist: the last reference is taken; the class it denotes adds its names and its own references. */
  function Walk(s: SchemaModel, out: set<string>, stack: seq<string>): set<string>
    requires s.Valid() && InUniverse(s, stack)
    decreases Universe(s, []) - out, |stack|
  {
    if stack == [] then out
    else
      var r, rest := stack[|stack| - 1], stack[..|stack| - 1];
      assert r in stack && forall n :: n in rest ==> n in stack;
      if Lower(r) in out then Walk(s, out, rest)
      else if s.Resolve(r) == None then Walk(s, out + {Lower(r)}, rest)
      else
        var d := s.Resolve(r).value;
        SupsInUniverse(s, d);
        Walk(s, out + {Lower(r)} + LowerAll(s.classes[d].names), rest + s.classes[d].sup)
  }

  function SupersOf(s: SchemaModel, name: string): set<string>
    requires s.Valid()
  {
    if s.Resolve(name) == None then {}
    else SupsInUniverse(s, s.Resolve(name).value); Walk(s, {}, s.classes[s.Resolve(name).value].sup)
  }

  lemma StartStack(s: SchemaModel, c: nat)
    requires s.Valid() && c < |s.classes|
    ensures forall r :: r in s.classes[c].sup ==> Referenced(s, c, r) && Lower(r) in Universe(s, [])
  {
    InheritsSelf(s, c);
    assert s.classes[c] in s.classes;
  }

  lemma SplitLast(stack: seq<string>, rest: seq<string>, r: string)
    requires stack != [] && rest == stack[..|stack| - 1] && r == stack[|stack| - 1]
    ensures stack == rest + [r]
  {
  }

  /** Taking the last reference off the stack loses nothing once its name is in `out`. */
  lemma Popped(s: SchemaModel, c: nat, out: set<string>, r: string, before: seq<string>, stack: seq<string>)
    requires s.Valid() && c < |s.classes| && before == stack + [r] && Followed(s, c, out, before)
    ensures Lower(r) in out ==> Followed(s, c, out, stack)
    ensures Lower(r) in out && Saturated(s, c, out, before) ==> Saturated(s, c, out, stack)
    ensures r in before && forall n :: n in stack ==> n in before
  {
    if Lower(r) in out && Saturated(s, c, out, before) {
      forall k | k in out && k in s.ocByName && s.Above(c, s.ocByName[k])
        ensures Entered(s, s.ocByName[k], out, stack)
      {
        assert Entered(s, s.ocByName[k], out, before);
      }
    }
  }

  lemma SpelledIsSuper(s: SchemaModel, c: nat, r: string, k: string)
    requires s.Valid() && Referenced(s, c, r) && s.Spells(r, k)
    ensures s.SuperName(c, k)
  {
  }

  /** What a step needs of the new stack: the old one without its last reference, maybe grown. */
  ghost predicate Covers(out: set<string>, before: seq<string>, stack: seq<string>) {
    forall r :: r in before ==> Lower(r) in out || r in stack
  }

  lemma StillEntered(s: SchemaModel, d: nat, out0: set<string>, out: set<string>, before: seq<string>,
                     stack: seq<string>)
    requires s.Valid() && d < |s.classes| && out0 <= out && Covers(out, before, stack)
    ensures Followed(s, d, out0, before) ==> Followed(s, d, out, stack)
    ensures Entered(s, d, out0, before) ==> Entered(s, d, out, stack)
  {
  }

  lemma EnterUnknown(s: SchemaModel, c: nat, r: string, out0: set<string>, out: set<string>,
                     before: seq<string>, stack: seq<string>)
    requires s.Valid() && c < |s.classes| && s.Resolve(r) == None && Referenced(s, c, r)
    requires before == stack + [r] && out == out0 + {Lower(r)}
    requires Sound(s, c, out0) && Followed(s, c, out0, before)
    ensures Sound(s, c, out) && Followed(s, c, out, stack)
    ensures Saturated(s, c, out0, before) ==> Saturated(s, c, out, stack)
  {
    SpelledIsSuper(s, c, r, Lower(r));
    StillEntered(s, c, out0, out, before, stack);
    if Saturated(s, c, out0, before) {
      forall k | k in out && k in s.ocByName && s.Above(c, s.ocByName[k])
        ensures Entered(s, s.ocByName[k], out, stack)
      {
        StillEntered(s, s.ocByName[k], out0, out, before, stack);
      }
    }
  }

  lemma EnterClass(s: SchemaModel, c: nat, r: string, out0: set<string>, out: set<string>,
                   before: seq<string>, rest: seq<string>, stack: seq<string>)
    requires s.Valid() && c < |s.classes| && s.Resolve(r).Some? && Referenced(s, c, r)
    requires before == rest + [r] && stack == rest + s.classes[s.Resolve(r).value].sup
    requires out == out0 + {Lower(r)} + LowerAll(s.classes[s.Resolve(r).value].names)
    requires Sound(s, c, out0) && Followed(s, c, out0, before)
    ensures Sound(s, c, out) && Followed(s, c, out, stack)
    ensures s.UniqueAbove(c) && Saturated(s, c, out0, before) ==> Saturated(s, c, out, stack)
    ensures forall n :: n in stack ==> n in before || (Referenced(s, c, n) && Lower(n) in Universe(s, []))
  {
    NewNames(s, r, out0, out);
    forall k | k in out && k !in out0 ensures s.SuperName(c, k) {
      SpelledIsSuper(s, c, r, k);
    }
    StillEntered(s, c, out0, out, before, stack);
    ReferencedStep(s, c, r);
    if s.UniqueAbove(c) && Saturated(s, c, out0, before) {
      var d := s.Resolve(r).value;
      NewlyEntered(s, d, out, stack);
      ReferencedAbove(s, c, r);
      forall k | k in out && k in s.ocByName && s.Above(c, s.ocByName[k])
        ensures Entered(s, s.ocByName[k], out, stack)
      {
        if k in out0 {
          StillEntered(s, s.ocByName[k], out0, out, before, stack);
        } else {
          assert s.Carries(c, s.ocByName[k], k) && s.Carries(c, d, k);
        }
      }
    }
  }

  lemma ReferencedAbove(s: SchemaModel, c: nat, r: string)
    requires s.Valid() && Referenced(s, c, r) && s.Resolve(r).Some?
    ensures s.Above(c, s.Resolve(r).value)
  {
    var d: nat :| d < |s.classes| && s.Inherits(c, d) && r in s.classes[d].sup;
    assert s.Sup(d, s.Resolve(r).value);
  }

  lemma NewNames(s: SchemaModel, r: string, out0: set<string>, out: set<string>)
    requires s.Valid() && s.Resolve(r).Some?
    requires out == out0 + {Lower(r)} + LowerAll(s.classes[s.Resolve(r).value].names)
    ensures forall k :: k in out && k !in out0 ==> s.Spells(r, k) && Has(s.classes[s.Resolve(r).value].names, k)
  {
  }

  lemma NewlyEntered(s: SchemaModel, d: nat, out: set<string>, stack: seq<string>)
    requires s.Valid() && d < |s.classes| && LowerAll(s.classes[d].names) <= out
    requires forall n :: n in s.classes[d].sup ==> n in stack
    ensures Entered(s, d, out, stack)
  {
    forall k | Has(s.classes[d].names, k) ensures k in out {
      var n :| n in s.classes[d].names && Lower(n) == k;
      assert k in LowerAll(s.classes[d].names);
    }
  }

  lemma ReferencedStep(s: SchemaModel, c: nat, r: string)
    requires s.Valid() && Referenced(s, c, r) && s.Resolve(r).Some?
    ensures forall n :: n in s.classes[s.Resolve(r).value].sup ==> Referenced(s, c, n) && Lower(n) in Universe(s, [])
  {
    var d: nat :| d < |s.classes| && s.Inherits(c, d) && r in s.classes[d].sup;
    var e := s.Resolve(r).value;
    assert s.Sup(d, e);
    InheritsStep(s, c, d, e);
    assert s.classes[e] in s.classes;
  }

  /** An empty stack and a saturated set leave nothing of the closure out. */
  lemma SaturatedHolds(s: SchemaModel, c: nat, k: string, out: set<string>)
    requires s.Valid() && c < |s.classes| && Followed(s, c, out, []) && Saturated(s, c, out, []) && s.SuperName(c, k)
    ensures k in out
  {
    var d: nat, r :| d < |s.classes| && s.Inherits(c, d) && r in s.classes[d].sup && s.Spells(r, k);
    var inside := iset e: nat | e < |s.classes| && s.Inherits(c, e) && Followed(s, e, out, []);
    InheritsSelf(s, c);
    forall x: nat, y: nat | x in inside && s.Sup(x, y) ensures y in inside {
      var n :| n in s.classes[x].sup && s.Resolve(n) == Some(y);
      InheritsStep(s, c, x, y);
      assert s.Above(c, y);
      assert Lower(n) in out && Entered(s, y, out, []);
    }
    ClosedHolds(s, inside, c, d);
    assert Lower(r) in out;
    if s.Resolve(r).Some? {
      assert s.Sup(d, s.Resolve(r).value);
      assert Entered(s, s.Resolve(r).value, out, []);
    }
  }

  /** What holds of the worklist for class `c` at every moment. */
  ghost predicate Walking(s: SchemaModel, c: nat, out: set<string>, stack: seq<string>)
    requires s.Valid()
  {
    && c < |s.classes| && InUniverse(s, stack) && (forall r :: r in stack ==> Referenced(s, c, r))
    && Sound(s, c, out) && Followed(s, c, out, stack) && (s.UniqueAbove(c) ==> Saturated(s, c, out, stack))
  }

  lemma WalkingNext(s: SchemaModel, c: nat, out: set<string>, stack: seq<string>, rest: seq<string>, r: string)
    requires s.Valid() && stack == rest + [r] && Walking(s, c, out, stack)
    ensures Lower(r) in out ==> Walking(s, c, out, rest)
    ensures Lower(r) !in out && s.Resolve(r) == None ==> Walking(s, c, out + {Lower(r)}, rest)
    ensures Lower(r) !in out && s.Resolve(r).Some? ==>
              var d := s.Resolve(r).value;
              Walking(s, c, out + {Lower(r)} + LowerAll(s.classes[d].names), rest + s.classes[d].sup)
  {
    Popped(s, c, out, r, stack, rest);
    if Lower(r) !in out {
      if s.Resolve(r).Some? {
        var d := s.Resolve(r).value;
        EnterClass(s, c, r, out, out + {Lower(r)} + LowerAll(s.classes[d].names), stack, rest, rest + s.classes[d].sup);
      } else {
        EnterUnknown(s, c, r, out, out + {Lower(r)}, stack, rest);
      }
    }
  }

  lemma {:induction false} WalkHolds(s: SchemaModel, c: nat, out: set<string>, stack: seq<string>)
    requires s.Valid() && Walking(s, c, out, stack)
    ensures Walking(s, c, Walk(s, out, stack), [])
    decreases Universe(s, []) - out, |stack|
  {
    if stack != [] {
      var r, rest := stack[|stack| - 1], stack[..|stack| - 1];
      SplitLast(stack, rest, r);
      WalkingNext(s, c, out, stack, rest, r);
      assert r in stack;
      if Lower(r) in out {
        WalkHolds(s, c, out, rest);
      } else if s.Resolve(r) == None {
        WalkHolds(s, c, out + {Lower(r)}, rest);
      } else {
        var d := s.Resolve(r).value;
        WalkHolds(s, c, out + {Lower(r)} + LowerAll(s.classes[d].names), rest + s.classes[d].sup);
      }
    }
  }

  /** What the worklist gathers for one class. */
  lemma SupersExact(s: SchemaModel, name: string)
    requires s.Valid() && s.Resolve(name).Some?
    ensures Sound(s, s.Resolve(name).value, SupersOf(s, name))
    ensures s.UniqueAbove(s.Resolve(name).value) ==>
              forall k :: s.SuperName(s.Resolve(name).value, k) ==> k in SupersOf(s, name)
  {
    var c := s.Resolve(name).value;
    StartStack(s, c);
    WalkHolds(s, c, {}, s.classes[c].sup);
    if s.UniqueAbove(c) {
      forall k | s.SuperName(c, k) ensures k in SupersOf(s, name) {
        SaturatedHolds(s, c, k, SupersOf(s, name));
      }
    }
  }

  /** `superclasses`: the worklist computes the transitive SUP closure, as names and aliases. Nothing is ever added
      that does not belong, and nothing is missed unless two superclasses share a name. */
  method Superclasses(s: SchemaModel, name: string) returns (out: set<string>)
    requires s.Valid()
    ensures out == SupersOf(s, name)
    ensures s.Resolve(name) == None ==> out == {}
    ensures s.Resolve(name).Some? ==> Sound(s, s.Resolve(name).value, out)
    ensures s.Resolve(name).Some? && s.UniqueAbove(s.Resolve(name).value) ==>
              forall k :: s.SuperName(s.Resolve(name).value, k) ==> k in out
  {
    out := {};
    if s.Resolve(name) == None {
      return;
    }
    var c := s.Resolve(name).value;
    var stack := s.classes[c].sup;
    SupsInUniverse(s, c);
    ghost var all := Universe(s, []);
    while stack != []
      invariant InUniverse(s, stack) && Walk(s, out, stack) == SupersOf(s, name)
      decreases all - out, |stack|
    {
      var r := stack[|stack| - 1];
      var rest := stack[..|stack| - 1];
      assert r in stack && forall n :: n in rest ==> n in stack;
      stack := rest;
      if Lower(r) in out {
        continue;
      }
      out := out + {Lower(r)};
      if s.Resolve(r).Some? {
        var d := s.Resolve(r).value;
        SupsInUniverse(s, d);
        out := out + LowerAll(s.classes[d].names);
        stack := rest + s.classes[d].sup;
      }
    }
    SupersExact(s, name);
  }

  lemma WalkKnown(s: SchemaModel, out: set<string>, stack: seq<string>, rest: seq<string>, r: string)
    requires s.Valid() && stack == rest + [r] && InUniverse(s, stack) && Lower(r) in out
    ensures InUniverse(s, rest) && Walk(s, out, stack) == Walk(s, out, rest)
  {
    assert stack[..|stack| - 1] == rest && stack[|stack| - 1] == r;
    assert forall n :: n in rest ==> n in stack;
  }

  lemma WalkClass(s: SchemaModel, out: set<string>, stack: seq<string>, rest: seq<string>, r: string, d: nat,
                  next: seq<string>)
    requires s.Valid() && stack == rest + [r] && InUniverse(s, stack) && Lower(r) !in out && s.Resolve(r) == Some(d)
    requires next == rest + s.classes[d].sup
    ensures InUniverse(s, next)
    ensures Walk(s, out, stack) == Walk(s, out + {Lower(r)} + LowerAll(s.classes[d].names), next)
  {
    SupsInUniverse(s, d);
    assert stack[..|stack| - 1] == rest && stack[|stack| - 1] == r;
    assert forall n :: n in rest ==> n in stack;
  }

  /** Three classes, two of which share the name `k`: what the later one inherits from is missed, because
      entering the earlier one ticks `k` off. */
  lemma SharedNameIsMissed(p: string, k: string, z: string, c: string)
    requires Lower(p) == p && Lower(k) == k && Lower(z) == z && Lower(c) == c
    requires p != k && p != z && p != c && k != z && k != c && z != c
    ensures var s := Sharing(p, k, z, c);
            s.Valid() && s.Resolve(c) == Some(2) && s.SuperName(2, z) && z !in SupersOf(s, c)
  {
    SharingValid(p, k, z, c);
    var s := Sharing(p, k, z, c);
    SharedIsAbove(s, k, z);
    SharedIsTicked(s, p, k, z, c);
  }

  lemma SharedIsAbove(s: SchemaModel, k: string, z: string)
    requires s.Valid() && |s.classes| == 3 && k in s.classes[2].sup && s.Resolve(k) == Some(1) && z in s.classes[1].sup
    requires Lower(z) == z
    ensures s.SuperName(2, z)
  {
    InheritsSelf(s, 2);
    assert s.Sup(2, 1);
    InheritsStep(s, 2, 2, 1);
    assert s.Spells(z, z);
  }

  lemma SharedIsTicked(s: SchemaModel, p: string, k: string, z: string, c: string)
    requires s.Valid() && s.Resolve(c) == Some(2) && s.Resolve(p) == Some(0) && |s.classes| == 3
    requires s.classes[2].sup == [k, p] && s.classes[0].names == [p, k] && s.classes[0].sup == []
    requires Lower(p) == p && Lower(k) == k && z != p && z != k
    ensures z !in SupersOf(s, c)
  {
    var none: set<string> := {};
    var out := none + {p} + LowerAll([p, k]);
    SupsInUniverse(s, 2);
    WalkClass(s, none, [k, p], [k], p, 0, [k]);
    TickedBoth(p, k, z);
    WalkKnown(s, out, [k], [], k);
    WalkEnds(s, out);
  }

  lemma TickedBoth(p: string, k: string, z: string)
    requires Lower(p) == p && Lower(k) == k && z != p && z != k
    ensures k in {p} + LowerAll([p, k]) && z !in {p} + LowerAll([p, k])
  {
    assert k in [p, k];
  }

  lemma WalkEnds(s: SchemaModel, out: set<string>)
    requires s.Valid()
    ensures Walk(s, out, []) == out
  {
  }

  function Sharing(p: string, k: string, z: string, c: string): SchemaModel {
    SchemaModel([ObjectClass([p, k], [], [], [], false), ObjectClass([k], [z], [], [], false),
                 ObjectClass([c], [k, p], [], [], false)],
                [], map[p := 0, k := 1, c := 2], map[])
  }

  lemma SharingValid(p: string, k: string, z: string, c: string)
    requires Lower(p) == p && Lower(k) == k && Lower(z) == z && Lower(c) == c
    requires p != k && p != z && p != c && k != z && k != c && z != c
    ensures Sharing(p, k, z, c).Valid()
  {
    var s := Sharing(p, k, z, c);
    var names := ClassNames(s.classes);
    assert names == [[p, k], [k], [c]];
    HasTwo(p, k);
    HasOne(k);
    HasOne(c);
    forall n | n in s.ocByName ensures s.ocByName[n] < |names| && Has(names[s.ocByName[n]], n) {
      assert n == p || n == k || n == c;
    }
    forall n, i | 0 <= i < |names| && Has(names[i], n) ensures n in s.ocByName && i <= s.ocByName[n] {
      assert i == 0 || i == 1 || i == 2;
    }
  }

  lemma HasOne(a: string)
    requires Lower(a) == a
    ensures forall n :: Has([a], n) <==> n == a
  {
    assert a in [a];
  }

  lemma HasTwo(a: string, b: string)
    requires Lower(a) == a && Lower(b) == b
    ensures forall n :: Has([a, b], n) <==> n == a || n == b
  {
    assert a in [a, b] && b in [a, b];
  }

  // ---------------------------------------------------------------- the structural class

  /** A structural class among `ocs` has the class that `o` denotes above it. */
  ghost predicate Outranked(s: SchemaModel, ocs: seq<string>, o: string)
    requires s.Valid()
  {
    exists p :: p in ocs && s.IsStructural(p) && s.IsStructural(o) && s.Above(s.Resolve(p).value, s.Resolve(o).value)
  }

  /** What being among the superclass names means: some superclass bears that name. */
  lemma NamesMeanClasses(s: SchemaModel, c: nat, o: string)
    requires s.Valid() && s.Resolve(o).Some?
    ensures s.SuperName(c, Lower(o)) <==> exists d: nat :: s.Carries(c, d, Lower(o))
  {
    var e := s.Resolve(o).value;
    if s.SuperName(c, Lower(o)) {
      var d: nat, r :| d < |s.classes| && s.Inherits(c, d) && r in s.classes[d].sup && s.Spells(r, Lower(o));
      if Lower(r) == Lower(o) { assert s.Resolve(r) == Some(e); }
      assert s.Sup(d, s.Resolve(r).value);
      assert s.Carries(c, s.Resolve(r).value, Lower(o));
    }
    if d: nat :| s.Carries(c, d, Lower(o)) {
      var b: nat :| s.Inherits(c, b) && s.Sup(b, d);
      var r :| r in s.classes[b].sup && s.Resolve(r) == Some(d);
      assert s.Spells(r, Lower(o));
    }
  }

  /** Where no two classes of an entry share a name, a superclass name means the superclass. */
  lemma NamesMeanOne(s: SchemaModel, ocs: seq<string>, p: string, o: string)
    requires s.Valid() && s.UniqueAmong(ocs) && p in ocs && o in ocs && s.Resolve(p).Some? && s.Resolve(o).Some?
    ensures s.SuperName(s.Resolve(p).value, Lower(o)) <==> s.Above(s.Resolve(p).value, s.Resolve(o).value)
    ensures s.UniqueAbove(s.Resolve(p).value)
  {
    var c, e := s.Resolve(p).value, s.Resolve(o).value;
    NamesMeanClasses(s, c, o);
    InheritsSelf(s, e);
    assert s.BroughtAs(ocs, e, Lower(o));
    forall d: nat, k | s.Carries(c, d, k) ensures s.BroughtAs(ocs, d, k) {
      var b: nat :| s.Inherits(c, b) && s.Sup(b, d);
      InheritsStep(s, c, b, d);
    }
    if s.Above(c, e) { assert s.Carries(c, e, Lower(o)); }
  }

  /** The superclass names of the structural classes among `ocs`. */
  function AllSupers(s: SchemaModel, ocs: seq<string>): set<string>
    requires s.Valid()
  {
    if ocs == [] then {}
    else AllSupers(s, ocs[..|ocs| - 1])
         + (if s.IsStructural(ocs[|ocs| - 1]) then SupersOf(s, ocs[|ocs| - 1]) else {})
  }

  /** The first structural class whose name is not among `supers`, by its primary name. */
  function FirstUnranked(s: SchemaModel, ocs: seq<string>, supers: set<string>): Option<string>
    requires s.Valid()
  {
    if ocs == [] then None
    else if s.IsStructural(ocs[0]) && Lower(ocs[0]) !in supers then Some(PrimaryName(s, ocs[0]))
    else FirstUnranked(s, ocs[1..], supers)
  }

  function PrimaryName(s: SchemaModel, o: string): string
    requires s.Valid() && s.Resolve(o).Some?
  {
    var names := s.classes[s.Resolve(o).value].names;
    if names == [] then o else names[0]
  }

  function StructuralOf(s: SchemaModel, ocs: seq<string>): Option<string>
    requires s.Valid()
  {
    FirstUnranked(s, ocs, AllSupers(s, ocs))
  }

  /** A structural class among `ocs` has a superclass by the name of `o`. */
  ghost predicate NameOutranked(s: SchemaModel, ocs: seq<string>, o: string)
    requires s.Valid()
  {
    exists p :: p in ocs && s.IsStructural(p) && s.IsStructural(o) && s.SuperName(s.Resolve(p).value, Lower(o))
  }

  /** Every superclass name gathered from the first `i` belongs to a superclass of one of them. */
  ghost predicate NamesOutrank(s: SchemaModel, ocs: seq<string>, i: nat, supers: set<string>)
    requires s.Valid()
  {
    forall o :: s.IsStructural(o) && Lower(o) in supers ==> NameOutranked(s, ocs, o)
  }

  /** Which of the entry's structural classes the first `i` outrank is known from the names gathered. */
  ghost predicate RanksKnown(s: SchemaModel, ocs: seq<string>, i: nat, supers: set<string>)
    requires s.Valid() && i <= |ocs|
  {
    forall o :: o in ocs && s.IsStructural(o) ==> (Lower(o) in supers <==> Outranked(s, ocs[..i], o))
  }

  /** What is known after the first `i` classes. */
  ghost predicate Ranks(s: SchemaModel, ocs: seq<string>, i: nat, supers: set<string>)
    requires s.Valid() && i <= |ocs|
  {
    supers == AllSupers(s, ocs[..i]) && NamesOutrank(s, ocs, i, supers)
    && (s.UniqueAmong(ocs) ==> RanksKnown(s, ocs, i, supers))
  }

  lemma AllSupersNext(s: SchemaModel, ocs: seq<string>, i: nat)
    requires s.Valid() && i < |ocs|
    ensures AllSupers(s, ocs[..i + 1])
         == AllSupers(s, ocs[..i]) + (if s.IsStructural(ocs[i]) then SupersOf(s, ocs[i]) else {})
  {
    var next := ocs[..i + 1];
    assert next[..i] == ocs[..i] && next[i] == ocs[i];
  }

  lemma {:induction false} RanksAfter(s: SchemaModel, ocs: seq<string>, i: nat)
    requires s.Valid() && i <= |ocs|
    ensures Ranks(s, ocs, i, AllSupers(s, ocs[..i]))
  {
    if i == 0 {
      NoRanks(s, ocs);
    } else {
      RanksAfter(s, ocs, i - 1);
      RanksNext(s, ocs, i - 1, AllSupers(s, ocs[..i - 1]), AllSupers(s, ocs[..i]));
    }
  }

  lemma RanksNext(s: SchemaModel, ocs: seq<string>, i: nat, before: set<string>, after: set<string>)
    requires s.Valid() && i < |ocs| && Ranks(s, ocs, i, before) && after == AllSupers(s, ocs[..i + 1])
    ensures Ranks(s, ocs, i + 1, after)
  {
    AllSupersNext(s, ocs, i);
    if s.IsStructural(ocs[i]) {
      RanksMore(s, ocs, i, before, SupersOf(s, ocs[i]));
    } else {
      RanksSame(s, ocs, i, before);
    }
  }

  lemma NoRanks(s: SchemaModel, ocs: seq<string>)
    requires s.Valid()
    ensures Ranks(s, ocs, 0, AllSupers(s, ocs[..0]))
  {
    assert AllSupers(s, ocs[..0]) == {};
  }

  lemma RanksSame(s: SchemaModel, ocs: seq<string>, i: nat, supers: set<string>)
    requires s.Valid() && i < |ocs| && !s.IsStructural(ocs[i]) && Ranks(s, ocs, i, supers)
    ensures Ranks(s, ocs, i + 1, supers)
  {
    AllSupersNext(s, ocs, i);
    RanksKnownSame(s, ocs, i, supers);
  }

  lemma RanksMore(s: SchemaModel, ocs: seq<string>, i: nat, before: set<string>, more: set<string>)
    requires s.Valid() && i < |ocs| && s.IsStructural(ocs[i]) && Ranks(s, ocs, i, before) && more == SupersOf(s, ocs[i])
    ensures Ranks(s, ocs, i + 1, before + more)
  {
    SupersExact(s, ocs[i]);
    AllSupersNext(s, ocs, i);
    NamesOutrankMore(s, ocs, i, before, more);
    if s.UniqueAmong(ocs) { RanksKnownMore(s, ocs, i, before, more); }
  }

  lemma NamesOutrankMore(s: SchemaModel, ocs: seq<string>, i: nat, before: set<string>, more: set<string>)
    requires s.Valid() && i < |ocs| && s.IsStructural(ocs[i]) && NamesOutrank(s, ocs, i, before)
    requires Sound(s, s.Resolve(ocs[i]).value, more)
    ensures NamesOutrank(s, ocs, i + 1, before + more)
  {
    forall o | s.IsStructural(o) && Lower(o) in before + more ensures NameOutranked(s, ocs, o) {
      if Lower(o) in more { assert s.SuperName(s.Resolve(ocs[i]).value, Lower(o)) && ocs[i] in ocs; }
    }
  }

  lemma RanksKnownMore(s: SchemaModel, ocs: seq<string>, i: nat, before: set<string>, more: set<string>)
    requires s.Valid() && i < |ocs| && s.IsStructural(ocs[i]) && s.UniqueAmong(ocs) && RanksKnown(s, ocs, i, before)
    requires Sound(s, s.Resolve(ocs[i]).value, more)
    requires s.UniqueAbove(s.Resolve(ocs[i]).value) ==>
               forall k :: s.SuperName(s.Resolve(ocs[i]).value, k) ==> k in more
    ensures RanksKnown(s, ocs, i + 1, before + more)
  {
    forall o | o in ocs && s.IsStructural(o)
      ensures Lower(o) in before + more <==> Outranked(s, ocs[..i + 1], o)
    {
      NamesMeanOne(s, ocs, ocs[i], o);
      OutrankedNext(s, ocs, i, o);
    }
  }

  lemma OutrankedNext(s: SchemaModel, ocs: seq<string>, i: nat, o: string)
    requires s.Valid() && i < |ocs| && s.IsStructural(o)
    ensures Outranked(s, ocs[..i + 1], o) <==>
              Outranked(s, ocs[..i], o)
              || (s.IsStructural(ocs[i]) && s.Above(s.Resolve(ocs[i]).value, s.Resolve(o).value))
  {
    assert ocs[..i + 1] == ocs[..i] + [ocs[i]];
    if Outranked(s, ocs[..i], o) {
      var p :| p in ocs[..i] && s.IsStructural(p) && s.Above(s.Resolve(p).value, s.Resolve(o).value);
      assert p in ocs[..i + 1];
    }
    assert ocs[i] in ocs[..i + 1];
  }

  lemma RanksKnownSame(s: SchemaModel, ocs: seq<string>, i: nat, supers: set<string>)
    requires s.Valid() && i < |ocs| && !s.IsStructural(ocs[i])
    ensures RanksKnown(s, ocs, i, supers) ==> RanksKnown(s, ocs, i + 1, supers)
  {
    forall o | s.IsStructural(o) ensures Outranked(s, ocs[..i + 1], o) <==> Outranked(s, ocs[..i], o) {
      OutrankedNext(s, ocs, i, o);
    }
  }

  /** `ocs[i]` is structural and not outranked; every earlier structural class is. */
  ghost predicate First(s: SchemaModel, ocs: seq<string>, i: nat)
    requires s.Valid() && i < |ocs|
  {
    s.IsStructural(ocs[i]) && !Outranked(s, ocs, ocs[i])
    && forall j :: 0 <= j < i && s.IsStructural(ocs[j]) ==> Outranked(s, ocs, ocs[j])
  }

  ghost predicate Picked(s: SchemaModel, ocs: seq<string>, r: Option<string>)
    requires s.Valid()
  {
    match r
    case None => forall o :: o in ocs && s.IsStructural(o) ==> Outranked(s, ocs, o)
    case Some(name) =>
      exists i {:trigger First(s, ocs, i)} :: 0 <= i < |ocs| && First(s, ocs, i) && name == PrimaryName(s, ocs[i])
  }

  /** What holds on every schema: the class picked is given and structural, and each structural
      class before it, or every one if none is picked, is outranked by name. */
  ghost predicate PassedOver(s: SchemaModel, ocs: seq<string>, r: Option<string>)
    requires s.Valid()
  {
    match r
    case None => forall o :: o in ocs && s.IsStructural(o) ==> NameOutranked(s, ocs, o)
    case Some(name) =>
      exists i {:trigger ocs[i]} :: 0 <= i < |ocs| && s.IsStructural(ocs[i]) && name == PrimaryName(s, ocs[i])
        && forall j :: 0 <= j < i && s.IsStructural(ocs[j]) ==> NameOutranked(s, ocs, ocs[j])
  }

  lemma FirstIs(s: SchemaModel, ocs: seq<string>, i: nat, supers: set<string>, r: Option<string>)
    requires s.Valid() && i < |ocs| && s.IsStructural(ocs[i]) && Lower(ocs[i]) !in supers
    requires r == Some(PrimaryName(s, ocs[i])) && Ranks(s, ocs, |ocs|, supers)
    requires forall j :: 0 <= j < i && s.IsStructural(ocs[j]) ==> Lower(ocs[j]) in supers
    ensures PassedOver(s, ocs, r) && (s.UniqueAmong(ocs) ==> Picked(s, ocs, r))
  {
    assert ocs[..|ocs|] == ocs;
    if s.UniqueAmong(ocs) { assert First(s, ocs, i); }
  }

  lemma NoneIs(s: SchemaModel, ocs: seq<string>, supers: set<string>)
    requires s.Valid() && Ranks(s, ocs, |ocs|, supers)
    requires forall j :: 0 <= j < |ocs| && s.IsStructural(ocs[j]) ==> Lower(ocs[j]) in supers
    ensures PassedOver(s, ocs, None) && (s.UniqueAmong(ocs) ==> Picked(s, ocs, None))
  {
    assert ocs[..|ocs|] == ocs;
    forall o | o in ocs && s.IsStructural(o) ensures Lower(o) in supers {
      var j :| 0 <= j < |ocs| && ocs[j] == o;
    }
  }

  /** Where the search stops: at the first structural class that is not among `supers`, or at the end. */
  lemma {:induction false} StopsUnranked(s: SchemaModel, ocs: seq<string>, supers: set<string>) returns (i: nat)
    requires s.Valid()
    ensures i <= |ocs| && forall j :: 0 <= j < i && s.IsStructural(ocs[j]) ==> Lower(ocs[j]) in supers
    ensures if i == |ocs| then FirstUnranked(s, ocs, supers) == None
            else s.IsStructural(ocs[i]) && Lower(ocs[i]) !in supers
                 && FirstUnranked(s, ocs, supers) == Some(PrimaryName(s, ocs[i]))
    decreases ocs
  {
    i := 0;
    if ocs != [] && (s.IsStructural(ocs[0]) ==> Lower(ocs[0]) in supers) {
      var k := StopsUnranked(s, ocs[1..], supers);
      i := k + 1;
      forall j | 0 <= j < i && s.IsStructural(ocs[j]) ensures Lower(ocs[j]) in supers {
        if j > 0 { assert ocs[j] == ocs[1..][j - 1]; }
      }
    }
  }

  /** What is picked, on every schema and for every entry. */
  lemma StructuralPicked(s: SchemaModel, ocs: seq<string>)
    requires s.Valid()
    ensures PassedOver(s, ocs, StructuralOf(s, ocs))
    ensures s.UniqueAmong(ocs) ==> Picked(s, ocs, StructuralOf(s, ocs))
  {
    assert ocs[..|ocs|] == ocs;
    RanksAfter(s, ocs, |ocs|);
    var supers := AllSupers(s, ocs);
    var i := StopsUnranked(s, ocs, supers);
    if i == |ocs| {
      NoneIs(s, ocs, supers);
    } else {
      FirstIs(s, ocs, i, supers, Some(PrimaryName(s, ocs[i])));
    }
  }

  method GatherSupers(s: SchemaModel, ocs: seq<string>) returns (supers: set<string>)
    requires s.Valid()
    ensures supers == AllSupers(s, ocs)
  {
    supers := {};
    for i := 0 to |ocs|
      invariant supers == AllSupers(s, ocs[..i])
    {
      AllSupersNext(s, ocs, i);
      if s.IsStructural(ocs[i]) {
        var more := Superclasses(s, ocs[i]);
        supers := supers + more;
      }
    }
    assert ocs[..|ocs|] == ocs;
  }

  method FindUnranked(s: SchemaModel, ocs: seq<string>, supers: set<string>) returns (r: Option<string>)
    requires s.Valid()
    ensures r == FirstUnranked(s, ocs, supers)
  {
    for i := 0 to |ocs|
      invariant FirstUnranked(s, ocs[i..], supers) == FirstUnranked(s, ocs, supers)
    {
      if s.IsStructural(ocs[i]) && Lower(ocs[i]) !in supers {
        return Some(PrimaryName(s, ocs[i]));
      }
      assert ocs[i..][1..] == ocs[i + 1..];
    }
    r := None;
  }

  /** `structural_class`: the first structural class, in entry order, that no other given one inherits from.
      Any it passes over bears the name of a superclass of a given one. */
  method StructuralClass(s: SchemaModel, ocs: seq<string>) returns (r: Option<string>)
    requires s.Valid()
    ensures r == StructuralOf(s, ocs)
    ensures PassedOver(s, ocs, r)
    ensures s.UniqueAmong(ocs) ==> Picked(s, ocs, r)
  {
    var supers := GatherSupers(s, ocs);
    r := FindUnranked(s, ocs, supers);
    StructuralPicked(s, ocs);
  }

  ghost predicate GivesStructural(s: SchemaModel, ocs: seq<string>)
    requires s.Valid()
  {
    exists o :: o in ocs && s.IsStructural(o)
  }

  /** Some structural class of the entry is no superclass of another. */
  ghost predicate GivesUnranked(s: SchemaModel, ocs: seq<string>)
    requires s.Valid()
  {
    exists o :: o in ocs && s.IsStructural(o) && !Outranked(s, ocs, o)
  }

  /** Where no two classes of an entry share a name, a structural class is found exactly when some given one is no
      superclass of another; without SUP cycles, exactly when one is given. */
  lemma StructuralClassExists(s: SchemaModel, ocs: seq<string>)
    requires s.Valid() && s.UniqueAmong(ocs)
    ensures StructuralOf(s, ocs).Some? <==> GivesUnranked(s, ocs)
    ensures s.Acyclic() ==> (StructuralOf(s, ocs).Some? <==> GivesStructural(s, ocs))
  {
    StructuralPicked(s, ocs);
    PickedMeans(s, ocs, StructuralOf(s, ocs));
    if s.Acyclic() {
      SomeUnranked(s, ocs);
    }
  }

  lemma PickedMeans(s: SchemaModel, ocs: seq<string>, r: Option<string>)
    requires s.Valid() && Picked(s, ocs, r)
    ensures r.Some? <==> GivesUnranked(s, ocs)
  {
    if r.Some? {
      var i :| 0 <= i < |ocs| && First(s, ocs, i);
      assert ocs[i] in ocs && !Outranked(s, ocs, ocs[i]);
    }
  }

  /** Without SUP cycles some structural class is most specific. */
  lemma SomeUnranked(s: SchemaModel, ocs: seq<string>)
    requires s.Valid() && s.Acyclic()
    ensures GivesUnranked(s, ocs) <==> GivesStructural(s, ocs)
  {
    if o :| o in ocs && s.IsStructural(o) {
      var structurals := Structurals(s, ocs);
      StructuralsOf(s, ocs);
      var p := MostSpecific(s, structurals);
      UnrankedAmong(s, ocs, structurals, p);
    }
  }

  lemma UnrankedAmong(s: SchemaModel, ocs: seq<string>, structurals: seq<string>, p: string)
    requires s.Valid() && !Outranked(s, structurals, p) && p in ocs
    requires forall o :: o in structurals <==> o in ocs && s.IsStructural(o)
    ensures !Outranked(s, ocs, p)
  {
  }

  /** Without that, an entry may go without although there is no cycle: its one structural class `o` inherits
      from a class with `o` for an alias. */
  lemma AliasHidesClass(p: string, o: string)
    requires Lower(p) == p && Lower(o) == o && p != o
    ensures var s := Aliased(p, o);
            s.Valid() && s.Acyclic() && s.IsStructural(o) && StructuralOf(s, [o]) == None
  {
    AliasedValid(p, o);
    var s := Aliased(p, o);
    assert s.Resolve(o) == Some(1) && s.Resolve(p) == Some(0);
    AliasedAcyclic(s, p);
    AliasTicked(s, p, o);
    OneClass(s, o);
  }

  lemma OneClass(s: SchemaModel, o: string)
    requires s.Valid() && s.IsStructural(o) && Lower(o) in SupersOf(s, o)
    ensures StructuralOf(s, [o]) == None
  {
    assert [o][..0] == [] && [o][1..] == [];
    assert AllSupers(s, [o]) == SupersOf(s, o);
    assert FirstUnranked(s, [], AllSupers(s, [o])) == None;
  }

  function Aliased(p: string, o: string): SchemaModel {
    SchemaModel([ObjectClass([p, o], [], [], [], true), ObjectClass([o], [p], [], [], true)],
                [], map[p := 0, o := 1], map[])
  }

  lemma AliasedValid(p: string, o: string)
    requires Lower(p) == p && Lower(o) == o && p != o
    ensures Aliased(p, o).Valid()
  {
    var s := Aliased(p, o);
    var names := ClassNames(s.classes);
    assert names == [[p, o], [o]];
    HasTwo(p, o);
    HasOne(o);
    forall n, i | 0 <= i < |names| && Has(names[i], n) ensures n in s.ocByName && i <= s.ocByName[n] {
      assert i == 0 || i == 1;
    }
  }

  /** The only reference leads from the second class to the first. */
  lemma AliasedAcyclic(s: SchemaModel, p: string)
    requires s.Valid() && |s.classes| == 2 && s.classes[0].sup == [] && s.classes[1].sup == [p]
    requires s.Resolve(p) == Some(0)
    ensures s.Acyclic()
  {
    var first: iset<nat> := iset{0};
    forall c: nat, d: nat | s.Sup(c, d) ensures c == 1 && d == 0 { }
    forall c: nat ensures !s.Above(c, c) {
      if s.Above(c, c) {
        var e: nat :| s.Inherits(c, e) && s.Sup(e, c);
        ClosedHolds(s, first, c, e);
      }
    }
  }

  lemma AliasTicked(s: SchemaModel, p: string, o: string)
    requires s.Valid() && |s.classes| == 2 && s.Resolve(o) == Some(1) && s.Resolve(p) == Some(0) && Lower(o) == o
    requires s.classes[0].names == [p, o] && s.classes[0].sup == [] && s.classes[1].sup == [p]
    ensures o in SupersOf(s, o)
  {
    var none: set<string> := {};
    SupsInUniverse(s, 1);
    WalkClass(s, none, [p], [], p, 0, []);
    assert o in LowerAll([p, o]) by { assert o in [p, o]; }
    WalkEnds(s, none + {Lower(p)} + LowerAll([p, o]));
  }

  /** On a SUP cycle none may be found: two structural classes, each the other's superclass. */
  lemma CycleHidesBoth(a: string, b: string)
    requires Lower(a) == a && Lower(b) == b && a != b
    ensures var s := Cycle(a, b);
            s.Valid() && s.IsStructural(a) && s.IsStructural(b) && StructuralOf(s, [a, b]) == None
  {
    var s := Cycle(a, b);
    CycleValid(a, b);
    assert s.Resolve(a) == Some(0) && s.Resolve(b) == Some(1);
    OneSuper(s, a, b);
    OneSuper(s, b, a);
    assert [a, b][..1] == [a] && [a][..0] == [] && [a, b][1..] == [b] && [b][1..] == [];
    assert AllSupers(s, [a]) == SupersOf(s, a);
    assert b in AllSupers(s, [a, b]) && a in AllSupers(s, [a, b]);
    assert FirstUnranked(s, [b], AllSupers(s, [a, b])) == None;
  }

  function Cycle(a: string, b: string): SchemaModel {
    SchemaModel([ObjectClass([a], [b], [], [], true), ObjectClass([b], [a], [], [], true)],
                [], map[a := 0, b := 1], map[])
  }

  lemma CycleValid(a: string, b: string)
    requires Lower(a) == a && Lower(b) == b && a != b
    ensures Cycle(a, b).Valid()
  {
    var names := ClassNames(Cycle(a, b).classes);
    assert names == [[a], [b]];
    HasOne(a);
    HasOne(b);
  }

  lemma OneSuper(s: SchemaModel, a: string, b: string)
    requires s.Valid() && s.Resolve(a).Some? && s.classes[s.Resolve(a).value].sup == [b] && Lower(b) == b
    ensures b in SupersOf(s, a)
  {
    SupsInUniverse(s, s.Resolve(a).value);
    WalkGrows(s, {}, [b]);
  }

  /** The last reference on the stack ends up in the result, and nothing gathered is dropped. */
  lemma {:induction false} WalkGrows(s: SchemaModel, out: set<string>, stack: seq<string>)
    requires s.Valid() && InUniverse(s, stack)
    ensures out <= Walk(s, out, stack)
    ensures stack != [] ==> Lower(stack[|stack| - 1]) in Walk(s, out, stack)
    decreases Universe(s, []) - out, |stack|
  {
    if stack != [] {
      var r, rest := stack[|stack| - 1], stack[..|stack| - 1];
      assert r in stack && forall n :: n in rest ==> n in stack;
      if Lower(r) in out {
        WalkGrows(s, out, rest);
      } else if s.Resolve(r) == None {
        WalkGrows(s, out + {Lower(r)}, rest);
      } else {
        var d := s.Resolve(r).value;
        SupsInUniverse(s, d);
        WalkGrows(s, out + {Lower(r)} + LowerAll(s.classes[d].names), rest + s.classes[d].sup);
      }
    }
  }

  function Structurals(s: SchemaModel, ocs: seq<string>): seq<string>
    requires s.Valid()
  {
    if ocs == [] then []
    else if s.IsStructural(ocs[0]) then [ocs[0]] + Structurals(s, ocs[1..])
    else Structurals(s, ocs[1..])
  }

  lemma {:induction false} StructuralsOf(s: SchemaModel, ocs: seq<string>)
    requires s.Valid()
    ensures forall o :: o in Structurals(s, ocs) <==> o in ocs && s.IsStructural(o)
  {
    if ocs != [] {
      StructuralsOf(s, ocs[1..]);
      assert ocs == [ocs[0]] + ocs[1..];
    }
  }

  lemma {:induction false} MostSpecific(s: SchemaModel, os: seq<string>) returns (p: string)
    requires s.Valid() && s.Acyclic() && os != [] && forall o :: o in os ==> s.IsStructural(o)
    ensures p in os && !Outranked(s, os, p)
  {
    p := os[0];
    if |os| > 1 {
      var q := MostSpecific(s, os[1..]);
      assert os == [os[0]] + os[1..] && os[0] in os;
      assert forall o :: o in os ==> o == p || o in os[1..];
      if s.Above(s.Resolve(p).value, s.Resolve(q).value) {
        if Outranked(s, os, p) {
          var t :| t in os && s.IsStructural(t) && s.Above(s.Resolve(t).value, s.Resolve(p).value);
          AboveTrans(s, s.Resolve(t).value, s.Resolve(p).value, s.Resolve(q).value);
        }
      } else {
        p := q;
      }
    }
  }

  lemma AboveTrans(s: SchemaModel, a: nat, b: nat, c: nat)
    requires s.Valid() && s.Above(a, b) && s.Above(b, c)
    ensures s.Above(a, c)
  {
    var e: nat :| s.Inherits(a, e) && s.Sup(e, b);
    var f: nat :| s.Inherits(b, f) && s.Sup(f, c);
    InheritsStep(s, a, e, b);
    InheritsTrans(s, a, b, f);
  }
}
