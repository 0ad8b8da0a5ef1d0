/** `form/changeset.rs`: turning "original vs. edited" into MODIFY and MODRDN operations. */
module ChangeSets {
  import opened Text
  import opened Tables

  type Values = seq<string>

  datatype EditEntry = EditEntry(dn: string, attrs: Table<Values>)

  datatype ModOp =
    | Add(attr: string, values: Values)
    | Delete(attr: string, values: Values)  // no values: the whole attribute
    | Replace(attr: string, values: Values)

  datatype ModRdn = ModRdn(newRdn: string, deleteOld: bool, newSuperior: Option<string>)

  datatype ChangeSet = ChangeSet(dn: string, modrdn: Option<ModRdn>, mods: seq<ModOp>) {
    predicate IsEmpty() {
      modrdn.None? && mods == []
    }
  }

  datatype ChangeSetError = MultiValuedRdnUnsupported

  function Vals(t: Table<Values>, name: string): Values {
    match Find(t, name)
    case None => []
    case Some(vs) => vs
  }

  /** The leftmost RDN, split at the first comma whether or not it is escaped. */
  function RdnComponent(dn: string): Option<(string, string)> {
    match SplitOnce(Trim(Before(dn, ',')), '=')
    case None => None
    case Some((a, v)) => Some((Trim(a), Trim(v)))
  }

  predicate RdnIsMultivalued(dn: string) {
    '+' in Before(dn, ',')
  }

  predicate ValueSetEq(a: Values, b: Values) {
    |a| == |b| && (forall v :: v in a ==> v in b) && (forall v :: v in b ==> v in a)
  }

  /** The values of `xs` that are not among `ys`, in order. */
  function Missing(xs: Values, ys: Values): Values {
    if xs == [] then []
    else (if xs[0] in ys then [] else [xs[0]]) + Missing(xs[1..], ys)
  }

  predicate IsOrdered(xOrdered: set<string>, attr: string) {
    exists a :: a in xOrdered && EqCi(a, attr)
  }

  /** What one attribute contributes, given its old and new values. */
  function AttrMods(attr: string, orig: Values, new_: Values, ordered: bool): seq<ModOp> {
    if ordered && orig != [] && new_ != [] then
      if orig != new_ then [Replace(attr, new_)] else []
    else if ValueSetEq(orig, new_) then []
    else if new_ == [] then [Delete(attr, [])]
    else if orig == [] then [Add(attr, new_)]
    else if |orig| == 1 && |new_| == 1 then [Replace(attr, new_)]
    else
      var removed, added := Missing(orig, new_), Missing(new_, orig);
      (if removed != [] then [Delete(attr, removed)] else [])
      + (if added != [] then [Add(attr, added)] else [])
  }

  function PushName(seen: seq<string>, name: string): seq<string> {
    if exists n :: n in seen && EqCi(n, name) then seen else seen + [name]
  }

  function PushNames(seen: seq<string>, t: Table<Values>): seq<string>
    decreases t
  {
    if t == [] then seen else PushNames(PushName(seen, t[0].0), t[1..])
  }

  /** The union of both entries' names, the edited spelling first. */
  function AllNames(o: Table<Values>, e: Table<Values>): seq<string> {
    PushNames(PushNames([], e), o)
  }

  /** The RDN attribute and its new value, when the naming value is gone from the edit. */
  function RenameOf(o: EditEntry, e: Table<Values>): Option<(string, string)> {
    match RdnComponent(o.dn)
    case None => None
    case Some((a, v)) =>
      match Find(e, a)
      case None => None
      case Some(vs) => if v in vs || vs == [] then None else Some((a, vs[0]))
  }

  predicate IsExcluded(rename: Option<(string, string)>, attr: string) {
    rename.Some? && EqCi(attr, rename.value.0)
  }

  function Contribution(o: Table<Values>, e: Table<Values>, xOrdered: set<string>,
                        rename: Option<(string, string)>, n: string): seq<ModOp> {
    if IsExcluded(rename, n) then [] else AttrMods(n, Vals(o, n), Vals(e, n), IsOrdered(xOrdered, n))
  }

  function ModsFor(o: Table<Values>, e: Table<Values>, xOrdered: set<string>,
                   rename: Option<(string, string)>, names: seq<string>): seq<ModOp> {
    if names == [] then []
    else Contribution(o, e, xOrdered, rename, names[0]) + ModsFor(o, e, xOrdered, rename, names[1..])
  }

  lemma {:induction false} ModsForSnoc(o: Table<Values>, e: Table<Values>, x: set<string>,
                                       rename: Option<(string, string)>, names: seq<string>, n: string)
    ensures ModsFor(o, e, x, rename, names + [n]) == ModsFor(o, e, x, rename, names) + Contribution(o, e, x, rename, n)
  {
    if names == [] {
      assert names + [n] == [n];
    } else {
      assert (names + [n])[1..] == names[1..] + [n];
      ModsForSnoc(o, e, x, rename, names[1..], n);
    }
  }

  function Diffed(o: EditEntry, e: Table<Values>, xOrdered: set<string>): Result<ChangeSet, ChangeSetError> {
    if RdnIsMultivalued(o.dn) then Err(MultiValuedRdnUnsupported)
    else
      var rename := RenameOf(o, e);
      Ok(ChangeSet(o.dn,
                   if rename.None? then None
                   else Some(ModRdn(rename.value.0 + "=" + rename.value.1, true, None)),
                   ModsFor(o.attrs, e, xOrdered, rename, AllNames(o.attrs, e))))
  }

  method CollectNames(seen0: seq<string>, t: Table<Values>) returns (seen: seq<string>)
    ensures seen == PushNames(seen0, t)
  {
    seen := seen0;
    for i := 0 to |t|
      invariant PushNames(seen, t[i..]) == PushNames(seen0, t)
    {
      assert t[i..][1..] == t[i + 1..];
      if !exists n :: n in seen && EqCi(n, t[i].0) {
        seen := seen + [t[i].0];
      }
    }
  }

  method DetectRename(original: EditEntry, edited: EditEntry)
    returns (modrdn: Option<ModRdn>, excluded: Option<string>)
    ensures match RenameOf(original, edited.attrs)
            case None => modrdn == None && excluded == None
            case Some((a, v)) => modrdn == Some(ModRdn(a + "=" + v, true, None)) && excluded == Some(a)
  {
    modrdn, excluded := None, None;
    match RdnComponent(original.dn) {
      case None =>
      case Some((rdnAttr, rdnValue)) =>
        match Find(edited.attrs, rdnAttr) {
          case None =>
          case Some(newValues) =>
            if rdnValue !in newValues && newValues != [] {
              modrdn := Some(ModRdn(rdnAttr + "=" + newValues[0], true, None));
              excluded := Some(rdnAttr);
            }
        }
    }
  }

  method CollectMods(original: EditEntry, edited: EditEntry, xOrdered: set<string>, excluded: Option<string>,
                     seen: seq<string>, ghost rename: Option<(string, string)>)
    returns (mods: seq<ModOp>)
    requires excluded == match rename { case None => None case Some((a, _)) => Some(a) }
    ensures mods == ModsFor(original.attrs, edited.attrs, xOrdered, rename, seen)
  {
    mods := [];
    for i := 0 to |seen|
      invariant mods == ModsFor(original.attrs, edited.attrs, xOrdered, rename, seen[..i])
    {
      var attr := seen[i];
      ModsForSnoc(original.attrs, edited.attrs, xOrdered, rename, seen[..i], attr);
      assert seen[..i + 1] == seen[..i] + [attr];
      if excluded.Some? && EqCi(attr, excluded.value) {
        continue;
      }
      mods := mods + AttrMods(attr, Vals(original.attrs, attr), Vals(edited.attrs, attr), IsOrdered(xOrdered, attr));
    }
    assert seen[..|seen|] == seen;
  }

  method Diff(original: EditEntry, edited: EditEntry, xOrdered: set<string>)
    returns (r: Result<ChangeSet, ChangeSetError>)
    ensures r == Diffed(original, edited.attrs, xOrdered)
  {
    if RdnIsMultivalued(original.dn) {
      return Err(MultiValuedRdnUnsupported);
    }
    var modrdn, excluded := DetectRename(original, edited);
    var seen := CollectNames([], edited.attrs);
    seen := CollectNames(seen, original.attrs);
    ghost var rename := RenameOf(original, edited.attrs);
    var mods := CollectMods(original, edited, xOrdered, excluded, seen, rename);
    r := Ok(ChangeSet(original.dn, modrdn, mods));
  }

  // ----- the names loop -----

  predicate DistinctNames(names: seq<string>) {
    forall i, j :: 0 <= i < j < |names| ==> !EqCi(names[i], names[j])
  }

  predicate Named(names: seq<string>, m: string) {
    exists n :: n in names && EqCi(n, m)
  }

  lemma {:induction false} PushNamesCovers(seen: seq<string>, t: Table<Values>)
    requires DistinctNames(seen)
    ensures DistinctNames(PushNames(seen, t))
    ensures forall m :: Named(PushNames(seen, t), m) <==> Named(seen, m) || Find(t, m).Some?
    decreases t
  {
    if t != [] {
      var s1 := PushName(seen, t[0].0);
      assert forall m :: Named(s1, m) <==> Named(seen, m) || EqCi(t[0].0, m) by {
        forall m ensures Named(s1, m) <==> Named(seen, m) || EqCi(t[0].0, m) {
          if s1 != seen && EqCi(t[0].0, m) { assert t[0].0 in s1; }
          if Named(seen, m) { var n :| n in seen && EqCi(n, m); assert n in s1; }
        }
      }
      PushNamesCovers(s1, t[1..]);
    }
  }

  /** The loop visits every attribute of either entry exactly once. */
  lemma AllNamesCovers(o: Table<Values>, e: Table<Values>)
    ensures DistinctNames(AllNames(o, e))
    ensures forall m :: Named(AllNames(o, e), m) <==> Find(o, m).Some? || Find(e, m).Some?
  {
    PushNamesCovers([], e);
    PushNamesCovers(PushNames([], e), o);
  }

  // ----- at most one change per attribute -----

  function OpsOn(mods: seq<ModOp>, m: string): seq<ModOp> {
    if mods == [] then []
    else (if EqCi(mods[0].attr, m) then [mods[0]] else []) + OpsOn(mods[1..], m)
  }

  lemma {:induction false} OpsOnAppend(a: seq<ModOp>, b: seq<ModOp>, m: string)
    ensures OpsOn(a + b, m) == OpsOn(a, m) + OpsOn(b, m)
  {
    if a == [] {
      assert a + b == b;
    } else {
      assert (a + b)[1..] == a[1..] + b;
      OpsOnAppend(a[1..], b, m);
    }
  }

  lemma OpsOnAttrMods(attr: string, orig: Values, new_: Values, ordered: bool, m: string)
    ensures OpsOn(AttrMods(attr, orig, new_, ordered), m)
         == if EqCi(attr, m) then AttrMods(attr, orig, new_, ordered) else []
  {
    var mods := AttrMods(attr, orig, new_, ordered);
    assert |mods| <= 2;
    if |mods| == 2 {
      assert mods == [mods[0]] + [mods[1]];
      assert OpsOn([mods[1]], m) == if EqCi(attr, m) then [mods[1]] else [];
      OpsOnAppend([mods[0]], [mods[1]], m);
    } else if |mods| == 1 {
      assert mods == [mods[0]];
    }
  }

  lemma OpsOnContribution(o: Table<Values>, e: Table<Values>, x: set<string>,
                          rename: Option<(string, string)>, n: string, m: string)
    ensures OpsOn(Contribution(o, e, x, rename, n), m)
         == if EqCi(n, m) && !IsExcluded(rename, m) then AttrMods(n, Vals(o, m), Vals(e, m), IsOrdered(x, m)) else []
  {
    OpsOnAttrMods(n, Vals(o, n), Vals(e, n), IsOrdered(x, n), m);
    if EqCi(n, m) {
      FindCase(o, n, m);
      FindCase(e, n, m);
    }
  }

  lemma NamedStep(names: seq<string>, m: string)
    requires names != [] && DistinctNames(names)
    ensures Named(names, m) <==> EqCi(names[0], m) || Named(names[1..], m)
    ensures EqCi(names[0], m) ==> !Named(names[1..], m)
  {
    forall k | k in names[1..] ensures EqCi(names[0], m) ==> !EqCi(k, m) {
      var i :| 0 <= i < |names[1..]| && names[1..][i] == k;
      assert !EqCi(names[0], names[i + 1]);
    }
    if Named(names, m) && !EqCi(names[0], m) {
      var k :| k in names && EqCi(k, m);
      assert k in names[1..];
    }
    if Named(names[1..], m) {
      var k :| k in names[1..] && EqCi(k, m);
      assert k in names;
    }
  }

  lemma {:induction false} OpsOnModsFor(o: Table<Values>, e: Table<Values>, x: set<string>,
                                        rename: Option<(string, string)>, names: seq<string>, m: string)
    requires DistinctNames(names)
    ensures var ops := OpsOn(ModsFor(o, e, x, rename, names), m);
            if Named(names, m) && !IsExcluded(rename, m)
            then exists spelled :: EqCi(spelled, m)
                   && ops == AttrMods(spelled, Vals(o, m), Vals(e, m), IsOrdered(x, m))
            else ops == []
  {
    if names != [] {
      OpsOnAppend(Contribution(o, e, x, rename, names[0]), ModsFor(o, e, x, rename, names[1..]), m);
      OpsOnModsFor(o, e, x, rename, names[1..], m);
      OpsOnContribution(o, e, x, rename, names[0], m);
      NamedStep(names, m);
    }
  }

  predicate AtMostOneChange(ops: seq<ModOp>) {
    || ops == []
    || |ops| == 1
    || (|ops| == 2 && ops[0].Delete? && ops[0].values != [] && ops[1].Add?)
  }

  predicate Increasing(at: seq<nat>) {
    forall i, j :: 0 <= i < j < |at| ==> at[i] < at[j]
  }

  /** `vs` are the values of `xs` at the positions `at`. */
  predicate ReadAt(vs: Values, xs: Values, at: seq<nat>) {
    |at| == |vs| && forall i :: 0 <= i < |at| ==> at[i] < |xs| && vs[i] == xs[at[i]]
  }

  /** `at` has every position of a value that is not among `ys`, and no other. */
  predicate Where(xs: Values, ys: Values, at: seq<nat>) {
    forall k :: 0 <= k < |xs| ==> (k in at <==> xs[k] !in ys)
  }

  /** `vs` are the values of `xs` that are not among `ys`, in order. */
  ghost predicate Lost(vs: Values, xs: Values, ys: Values) {
    exists at :: Increasing(at) && ReadAt(vs, xs, at) && Where(xs, ys, at)
  }

  function Shifted(at: seq<nat>): seq<nat> {
    seq(|at|, i requires 0 <= i < |at| => at[i] + 1)
  }

  lemma ShiftedIn(at: seq<nat>, k: nat)
    ensures k in Shifted(at) <==> k > 0 && k - 1 in at
  {
    if k > 0 && k - 1 in at {
      var i :| 0 <= i < |at| && at[i] == k - 1;
      assert Shifted(at)[i] == k;
    }
  }

  lemma ShiftedIncreasing(at: seq<nat>)
    requires Increasing(at)
    ensures Increasing(Shifted(at)) && Increasing([0] + Shifted(at))
  {
  }

  lemma ShiftedRead(vs: Values, xs: Values, at: seq<nat>)
    requires xs != [] && ReadAt(vs, xs[1..], at)
    ensures ReadAt(vs, xs, Shifted(at)) && ReadAt([xs[0]] + vs, xs, [0] + Shifted(at))
  {
  }

  lemma ShiftedWhere(xs: Values, ys: Values, at: seq<nat>)
    requires xs != [] && Where(xs[1..], ys, at)
    ensures Where(xs, ys, if xs[0] in ys then Shifted(at) else [0] + Shifted(at))
  {
    forall k | 0 < k < |xs| ensures k in Shifted(at) <==> xs[k] !in ys {
      ShiftedIn(at, k);
      assert xs[k] == xs[1..][k - 1];
    }
    ShiftedIn(at, 0);
  }

  lemma MissingFirst(xs: Values, ys: Values)
    requires xs != []
    ensures Missing(xs, ys) == if xs[0] in ys then Missing(xs[1..], ys) else [xs[0]] + Missing(xs[1..], ys)
  {
  }

  lemma {:induction false} MissingLost(xs: Values, ys: Values)
    ensures Lost(Missing(xs, ys), xs, ys)
  {
    if xs == [] {
      assert Increasing([]) && ReadAt([], [], []) && Where([], ys, []);
    } else {
      MissingLost(xs[1..], ys);
      MissingFirst(xs, ys);
      LostLater(Missing(xs[1..], ys), xs, ys);
    }
  }

  lemma LostLater(vs: Values, xs: Values, ys: Values)
    requires xs != [] && Lost(vs, xs[1..], ys)
    ensures Lost(if xs[0] in ys then vs else [xs[0]] + vs, xs, ys)
  {
    var at :| Increasing(at) && ReadAt(vs, xs[1..], at) && Where(xs[1..], ys, at);
    ShiftedIncreasing(at);
    ShiftedRead(vs, xs, at);
    ShiftedWhere(xs, ys, at);
  }

  predicate LosesAny(a: Values, b: Values) {
    exists v :: v in a && v !in b
  }

  /** What is sent for one attribute that goes from the values `a` to the values `b`. */
  ghost predicate SentFor(ops: seq<ModOp>, a: Values, b: Values, ordered: bool) {
    if a == [] || b == [] || ordered || (|a| == 1 && |b| == 1) then
      if a == b then ops == []
      else
        && |ops| == 1 && ops[0].values == b
        && if b == [] then ops[0].Delete? else if a == [] then ops[0].Add? else ops[0].Replace?
    else
      && |ops| == (if LosesAny(a, b) then 1 else 0) + (if LosesAny(b, a) then 1 else 0)
      && (LosesAny(a, b) ==> ops[0].Delete? && Lost(ops[0].values, a, b))
      && (LosesAny(b, a) ==> ops[|ops| - 1].Add? && Lost(ops[|ops| - 1].values, b, a))
  }

  lemma AttrModsSent(attr: string, a: Values, b: Values, ordered: bool)
    ensures SentFor(AttrMods(attr, a, b, ordered), a, b, ordered)
  {
    var ops := AttrMods(attr, a, b, ordered);
    if a != [] && b != [] && !ordered && !(|a| == 1 && |b| == 1) {
      SplitSent(attr, a, b, ops);
    } else if |a| == 1 && |b| == 1 {
      assert a == b <==> a[0] == b[0];
      if ValueSetEq(a, b) { assert a[0] in b; }
    }
  }

  lemma SplitSent(attr: string, a: Values, b: Values, ops: seq<ModOp>)
    requires a != [] && b != [] && !(|a| == 1 && |b| == 1) && ops == AttrMods(attr, a, b, false)
    ensures SentFor(ops, a, b, false)
  {
    MissingAny(a, b);
    MissingAny(b, a);
    SplitOf(attr, Missing(a, b), Missing(b, a), ops);
    MissingLost(a, b);
    MissingLost(b, a);
  }

  lemma MissingAny(a: Values, b: Values)
    ensures Missing(a, b) != [] <==> LosesAny(a, b)
    ensures ValueSetEq(a, b) ==> !LosesAny(a, b)
  {
    MissingMembers(a, b);
    if Missing(a, b) != [] { assert Missing(a, b)[0] in a; }
  }

  lemma SplitOf(attr: string, removed: Values, added: Values, ops: seq<ModOp>)
    requires ops == (if removed != [] then [Delete(attr, removed)] else [])
                    + (if added != [] then [Add(attr, added)] else [])
    ensures |ops| == (if removed != [] then 1 else 0) + (if added != [] then 1 else 0)
    ensures removed != [] ==> ops[0] == Delete(attr, removed)
    ensures added != [] ==> ops[|ops| - 1] == Add(attr, added)
  {
  }

  /** Per attribute there is no change, one operation, or one Delete followed by one Add. A value list that was or
      becomes empty, one value for another, and an X-ORDERED attribute are one operation on the whole attribute; any
      other edit deletes exactly the values that are gone and adds exactly the new ones, and replaces nothing. */
  lemma OneChangePerAttribute(o: EditEntry, e: Table<Values>, x: set<string>, m: string)
    requires Diffed(o, e, x).Ok?
    ensures var ops := OpsOn(Diffed(o, e, x).value.mods, m);
            && AtMostOneChange(ops)
            && if IsExcluded(RenameOf(o, e), m) then ops == []
               else SentFor(ops, Vals(o.attrs, m), Vals(e, m), IsOrdered(x, m))
  {
    var names := AllNames(o.attrs, e);
    AllNamesCovers(o.attrs, e);
    OpsOnModsFor(o.attrs, e, x, RenameOf(o, e), names, m);
    if Named(names, m) && !IsExcluded(RenameOf(o, e), m) {
      var s :| EqCi(s, m) && OpsOn(Diffed(o, e, x).value.mods, m)
                 == AttrMods(s, Vals(o.attrs, m), Vals(e, m), IsOrdered(x, m));
      AttrModsSent(s, Vals(o.attrs, m), Vals(e, m), IsOrdered(x, m));
    }
  }

  // ----- order and spelling -----

  function NamesOf(t: Table<Values>): seq<string> {
    seq(|t|, i requires 0 <= i < |t| => t[i].0)
  }

  /** `name` stands at position `i` of `l` and at no earlier one in any case. */
  predicate FirstAt(l: seq<string>, i: nat, name: string) {
    i < |l| && l[i] == name && forall j :: 0 <= j < i ==> !EqCi(l[j], name)
  }

  /** `names` are the names of `l` in first-seen order, first at the positions `at`. */
  ghost predicate FirstSeen(l: seq<string>, names: seq<string>, at: seq<nat>) {
    && |at| == |names| && Increasing(at)
    && (forall k {:trigger names[k]} :: 0 <= k < |names| ==> FirstAt(l, at[k], names[k]))
    && forall j :: 0 <= j < |l| ==> Named(names, l[j])
  }

  lemma FirstSeenNext(l: seq<string>, names: seq<string>, at: seq<nat>, n: string) returns (next: seq<nat>)
    requires FirstSeen(l, names, at)
    ensures FirstSeen(l + [n], PushName(names, n), next)
  {
    var pushed := PushName(names, n);
    next := if Named(names, n) then at else at + [|l|];
    forall k {:trigger pushed[k]} | 0 <= k < |pushed| ensures FirstAt(l + [n], next[k], pushed[k]) {
      if k < |names| {
        assert FirstAt(l, at[k], names[k]);
      } else {
        forall j | 0 <= j < |l| ensures !EqCi(l[j], n) {
          if EqCi(l[j], n) { assert Named(names, l[j]) && Named(names, n); }
        }
      }
    }
    forall k | 0 <= k < |names| ensures at[k] < |l| { assert FirstAt(l, at[k], names[k]); }
    forall j | 0 <= j < |l + [n]| ensures Named(pushed, (l + [n])[j]) {
      NamedMore(names, n, (l + [n])[j]);
    }
  }

  lemma NamedMore(names: seq<string>, n: string, m: string)
    requires Named(names, m) || m == n
    ensures Named(PushName(names, n), m)
  {
    if Named(names, m) {
      var k :| k in names && EqCi(k, m);
      assert k in PushName(names, n);
    } else {
      assert EqCi(n, n) && n in names + [n];
    }
  }

  lemma {:induction false} PushNamesFirst(l: seq<string>, names: seq<string>, at: seq<nat>, t: Table<Values>,
                                          all: seq<string>) returns (next: seq<nat>)
    requires FirstSeen(l, names, at) && all == l + NamesOf(t)
    ensures FirstSeen(all, PushNames(names, t), next)
    decreases t
  {
    if t == [] {
      next := at;
      assert all == l;
    } else {
      NamesOfStep(l, t);
      var one := FirstSeenNext(l, names, at, t[0].0);
      next := PushNamesFirst(l + [t[0].0], PushName(names, t[0].0), one, t[1..], all);
    }
  }

  lemma NamesOfStep(l: seq<string>, t: Table<Values>)
    requires t != []
    ensures l + NamesOf(t) == l + [t[0].0] + NamesOf(t[1..])
  {
  }

  /** The operations follow `l`: each is spelled as its attribute is first spelled there, in that order. */
  ghost predicate Follows(l: seq<string>, ops: seq<ModOp>, at: seq<nat>) {
    && |at| == |ops| && (forall i, j :: 0 <= i < j < |at| ==> at[i] <= at[j])
    && forall i {:trigger ops[i]} :: 0 <= i < |ops| ==> FirstAt(l, at[i], ops[i].attr)
  }

  lemma ContributionAttr(o: Table<Values>, e: Table<Values>, x: set<string>, rename: Option<(string, string)>,
                         n: string)
    ensures forall op :: op in Contribution(o, e, x, rename, n) ==> op.attr == n
  {
  }

  lemma {:induction false} ModsForFollow(l: seq<string>, o: Table<Values>, e: Table<Values>, x: set<string>,
                                         rename: Option<(string, string)>, names: seq<string>, at: seq<nat>)
    returns (pos: seq<nat>)
    requires |at| == |names| && Increasing(at)
    requires forall k {:trigger names[k]} :: 0 <= k < |names| ==> FirstAt(l, at[k], names[k])
    ensures Follows(l, ModsFor(o, e, x, rename, names), pos)
    ensures forall i :: 0 <= i < |pos| ==> at != [] && at[0] <= pos[i]
    decreases names
  {
    if names == [] {
      pos := [];
    } else {
      var head := Contribution(o, e, x, rename, names[0]);
      forall k {:trigger names[1..][k]} | 0 <= k < |names[1..]| ensures FirstAt(l, at[1..][k], names[1..][k]) {
        assert names[1..][k] == names[k + 1];
      }
      var rest := ModsForFollow(l, o, e, x, rename, names[1..], at[1..]);
      assert FirstAt(l, at[0], names[0]);
      ContributionAttr(o, e, x, rename, names[0]);
      pos := FollowsMore(l, head, at[0], ModsFor(o, e, x, rename, names[1..]), rest);
    }
  }

  lemma FollowsMore(l: seq<string>, head: seq<ModOp>, p: nat, tail: seq<ModOp>, rest: seq<nat>)
    returns (pos: seq<nat>)
    requires (forall op :: op in head ==> FirstAt(l, p, op.attr)) && Follows(l, tail, rest)
    requires forall i :: 0 <= i < |rest| ==> p <= rest[i]
    ensures Follows(l, head + tail, pos) && forall i :: 0 <= i < |pos| ==> p <= pos[i]
  {
    pos := seq(|head|, _ => p) + rest;
  }

  /** The operations come in first-seen order of the attributes, those of the edit first, each attribute spelled as it
      is seen first. */
  lemma InFirstSeenOrder(o: EditEntry, e: Table<Values>, x: set<string>) returns (at: seq<nat>)
    requires Diffed(o, e, x).Ok?
    ensures Follows(NamesOf(e) + NamesOf(o.attrs), Diffed(o, e, x).value.mods, at)
  {
    var l := NamesOf(e);
    var none: seq<string> := [];
    assert none + l == l;
    var seen := PushNamesFirst(none, none, [], e, l);
    var all := PushNamesFirst(l, PushNames([], e), seen, o.attrs, l + NamesOf(o.attrs));
    at := ModsForFollow(l + NamesOf(o.attrs), o.attrs, e, x, RenameOf(o, e), AllNames(o.attrs, e), all);
  }

  /** The change set is for the entry's own DN. A rename names the attribute of the DN's first component and the first
      value listed for it, and drops the old value; it is planned when the value read from the DN is not listed while
      some value is. */
  lemma PlannedRename(o: EditEntry, e: Table<Values>, x: set<string>)
    ensures Diffed(o, e, x).Err? <==> '+' in Before(o.dn, ',')
    ensures Diffed(o, e, x).Ok? ==>
              && Diffed(o, e, x).value.dn == o.dn
              && match RdnComponent(o.dn)
                 case None => Diffed(o, e, x).value.modrdn == None
                 case Some((a, v)) =>
                   Diffed(o, e, x).value.modrdn
                     == if Vals(e, a) == [] || v in Vals(e, a) then None
                        else Some(ModRdn(a + "=" + Vals(e, a)[0], true, None))
  {
  }

  // ----- nothing to send -----

  /** What the diff counts as "no difference" in one attribute. */
  predicate SameValues(x: set<string>, m: string, a: Values, b: Values) {
    if IsOrdered(x, m) && a != [] && b != [] then a == b else SetOf(a) == SetOf(b)
  }

  lemma {:induction false} MissingMembers(xs: Values, ys: Values)
    ensures forall v :: v in Missing(xs, ys) <==> v in xs && v !in ys
  {
    if xs != [] {
      MissingMembers(xs[1..], ys);
      forall v ensures v in Missing(xs, ys) <==> v in xs && v !in ys {
        assert v in xs <==> v == xs[0] || v in xs[1..];
      }
    }
  }

  lemma AttrModsEmpty(attr: string, a: Values, b: Values, x: set<string>)
    ensures AttrMods(attr, a, b, IsOrdered(x, attr)) == [] <==> SameValues(x, attr, a, b)
  {
    MissingMembers(a, b);
    MissingMembers(b, a);
    assert forall v :: v in SetOf(a) <==> v in a;
    assert forall v :: v in SetOf(b) <==> v in b;
    if a != [] { assert a[0] in SetOf(a); }
    if b != [] { assert b[0] in SetOf(b); }
    if Missing(a, b) != [] { assert Missing(a, b)[0] in a; }
    if Missing(b, a) != [] { assert Missing(b, a)[0] in b; }
    if |a| == 1 && |b| == 1 && a[0] == b[0] { assert ValueSetEq(a, b); }
  }

  ghost predicate NothingDiffers(o: Table<Values>, e: Table<Values>, x: set<string>) {
    forall m: string :: SameValues(x, m, Vals(o, m), Vals(e, m))
  }

  /** Without a difference no operation is planned, whatever the rename leaves out. */
  lemma {:induction false} SameMeansEmptyMods(o: Table<Values>, e: Table<Values>, x: set<string>,
                                              rename: Option<(string, string)>, names: seq<string>)
    requires NothingDiffers(o, e, x)
    ensures ModsFor(o, e, x, rename, names) == []
  {
    if names != [] {
      AttrModsEmpty(names[0], Vals(o, names[0]), Vals(e, names[0]), x);
      SameMeansEmptyMods(o, e, x, rename, names[1..]);
    }
  }

  lemma EmptyModsMeanSame(o: Table<Values>, e: Table<Values>, x: set<string>)
    requires ModsFor(o, e, x, None, AllNames(o, e)) == []
    ensures NothingDiffers(o, e, x)
  {
    var names := AllNames(o, e);
    AllNamesCovers(o, e);
    forall m: string ensures SameValues(x, m, Vals(o, m), Vals(e, m)) {
      OpsOnModsFor(o, e, x, None, names, m);
      if Named(names, m) {
        var s :| EqCi(s, m) && [] == AttrMods(s, Vals(o, m), Vals(e, m), IsOrdered(x, m));
        AttrModsEmpty(s, Vals(o, m), Vals(e, m), x);
      }
    }
  }

  /** The value read from the DN is listed, or there is none to list. */
  predicate ListsRdnValue(dn: string, t: Table<Values>) {
    match RdnComponent(dn)
    case None => true
    case Some((a, v)) => Vals(t, a) == [] || v in Vals(t, a)
  }

  lemma NothingDiffersListsRdn(o: EditEntry, e: Table<Values>, x: set<string>)
    requires NothingDiffers(o.attrs, e, x)
    ensures ListsRdnValue(o.dn, o.attrs) <==> RenameOf(o, e).None?
  {
    if RdnComponent(o.dn).Some? {
      var (a, v) := RdnComponent(o.dn).value;
      var vs, ws := Vals(o.attrs, a), Vals(e, a);
      assert SameValues(x, a, vs, ws);
      assert v in SetOf(vs) <==> v in vs;
      assert v in SetOf(ws) <==> v in ws;
      if vs != [] { assert vs[0] in SetOf(vs); }
      if ws != [] { assert ws[0] in SetOf(ws); }
    }
  }

  /** The change set is empty exactly when no attribute differs and the value read from the DN is listed. */
  lemma EmptyIffNothingDiffers(o: EditEntry, e: Table<Values>, x: set<string>)
    requires Diffed(o, e, x).Ok?
    ensures Diffed(o, e, x).value.IsEmpty() <==> NothingDiffers(o.attrs, e, x) && ListsRdnValue(o.dn, o.attrs)
  {
    if NothingDiffers(o.attrs, e, x) {
      NothingDiffersListsRdn(o, e, x);
      SameMeansEmptyMods(o.attrs, e, x, RenameOf(o, e), AllNames(o.attrs, e));
    } else if RenameOf(o, e).None? && ModsFor(o.attrs, e, x, None, AllNames(o.attrs, e)) == [] {
      EmptyModsMeanSame(o.attrs, e, x);
    }
  }

  /** An entry nobody changed is planned for a rename, and for nothing else, exactly when
      the value read from its DN is not among the listed ones. */
  lemma UnchangedIsRenamed(o: EditEntry, e: Table<Values>, x: set<string>)
    requires Diffed(o, e, x).Ok? && NothingDiffers(o.attrs, e, x)
    ensures var d := Diffed(o, e, x).value;
            && d.mods == []
            && (d.modrdn.None? <==> ListsRdnValue(o.dn, o.attrs))
            && (d.modrdn.Some? ==>
                  var a := RdnComponent(o.dn).value.0;
                  Vals(e, a) != [] && d.modrdn == Some(ModRdn(a + "=" + Vals(e, a)[0], true, None)))
  {
    NothingDiffersListsRdn(o, e, x);
    SameMeansEmptyMods(o.attrs, e, x, RenameOf(o, e), AllNames(o.attrs, e));
  }

  lemma RdnComponentOf(a: string, v: string, q: string)
    requires a != "" && v != "" && !IsSpace(a[0]) && !IsSpace(a[|a| - 1]) && !IsSpace(v[0]) && !IsSpace(v[|v| - 1])
    requires ',' !in a && '=' !in a && ',' !in v
    ensures RdnComponent(a + "=" + v + "," + q) == Some((a, v))
    ensures RdnIsMultivalued(a + "=" + v + "," + q) <==> '+' in a || '+' in v
  {
    var first := a + "=" + v;
    assert a + "=" + v + "," + q == first + [','] + q;
    BeforeOf(first, ',', q);
    TrimNoSpaces(first);
    assert first == a + ['='] + v;
    BeforeOf(a, '=', v);
    TrimNoSpaces(a);
    TrimNoSpaces(v);
  }

  /** One family of them: every DN `a=p\,q` whose entry does not happen to hold the value `p\`. */
  lemma EscapedCommaRenames(a: string, p: string, q: string, attrs: Table<Values>, x: set<string>)
    requires a != "" && p != "" && !IsSpace(a[0]) && !IsSpace(a[|a| - 1]) && !IsSpace(p[0])
    requires ',' !in a && '+' !in a && '=' !in a && ',' !in p && '+' !in p
    requires Vals(attrs, a) != [] && p + "\\" !in Vals(attrs, a)
    ensures var d := Diffed(EditEntry(a + "=" + p + "\\," + q, attrs), attrs, x);
            d.Ok? && d.value.modrdn == Some(ModRdn(a + "=" + Vals(attrs, a)[0], true, None))
  {
    RdnComponentOf(a, p + "\\", q);
    assert a + "=" + p + "\\," + q == a + "=" + (p + "\\") + "," + q;
  }
}
