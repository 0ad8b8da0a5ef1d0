/** `form/validate.rs` (`plan_save`) and `ldap/worker.rs` (`mod_op_to_ldap3`): a change set
    becomes requests, and executing them turns the original entry into the edited one. */
module SavePath {
  import opened Text
  import opened Tables
  import opened ChangeSets
  import opened EntryServer

  datatype SavePlan =
    | Nothing
    | ModifyOnly(mods: seq<ModOp>)
    | Rename(modrdn: ModRdn, thenMods: seq<ModOp>)
    | RenameOnly(modrdn: ModRdn)

  function PlanSave(cs: ChangeSet): SavePlan {
    match cs.modrdn
    case None => if cs.mods == [] then Nothing else ModifyOnly(cs.mods)
    case Some(r) => if cs.mods == [] then RenameOnly(r) else Rename(r, cs.mods)
  }

  function ModOpToLdap(op: ModOp): Mod {
    match op
    case Add(a, vs) => ModAdd(a, SetOf(vs))
    case Delete(a, vs) => ModDelete(a, SetOf(vs))
    case Replace(a, vs) => ModReplace(a, SetOf(vs))
  }

  function Wire(mods: seq<ModOp>): seq<Mod> {
    seq(|mods|, i requires 0 <= i < |mods| => ModOpToLdap(mods[i]))
  }

  lemma WireAppend(a: seq<ModOp>, b: seq<ModOp>)
    ensures Wire(a + b) == Wire(a) + Wire(b)
  {
  }

  /** Rename first, then the mods under the new name. */
  function Execute(st: Stored, naming: Naming, plan: SavePlan): Outcome<(Stored, Naming)> {
    match plan
    case Nothing => Done((st, naming))
    case ModifyOnly(mods) =>
      (match Modify(st, naming, Wire(mods)) case Refused(rc) => Refused(rc) case Done(s) => Done((s, naming)))
    case RenameOnly(r) => ModifyDn(st, naming, r.newRdn, r.deleteOld)
    case Rename(r, mods) =>
      match ModifyDn(st, naming, r.newRdn, r.deleteOld)
      case Refused(rc) => Refused(rc)
      case Done((s, n)) =>
        match Modify(s, n, Wire(mods)) case Refused(rc) => Refused(rc) case Done(s2) => Done((s2, n))
  }

  /** The stored entry is what `t` lists: per attribute, the same set of values. */
  ghost predicate Shows(st: Stored, t: Table<Values>) {
    forall m: string :: Get(st, m) == SetOf(Vals(t, m))
  }

  /** `mods` is accepted and turns `attr` into exactly `goal`, touching nothing else. */
  ghost predicate Sets(st: Stored, mods: seq<Mod>, attr: string, goal: set<string>) {
    var r := ApplyMods(st, mods);
    r.Done? && forall m: string :: Get(r.state, m) == if EqCi(attr, m) then goal else Get(st, m)
  }

  lemma OneModSets(st: Stored, attr: string, mod: Mod, goal: set<string>)
    requires mod.attr == attr
    requires match mod
             case ModAdd(_, vs) => vs != {} && vs !! Get(st, attr) && goal == Get(st, attr) + vs
             case ModDelete(_, vs) =>
               Get(st, attr) != {} && vs <= Get(st, attr) && goal == if vs == {} then {} else Get(st, attr) - vs
             case ModReplace(_, vs) => goal == vs
    ensures Sets(st, [mod], attr, goal)
  {
    assert ApplyMods(st, [mod]) == Done(Put(st, attr, goal));
    forall m: string { PutGet(st, attr, goal, m); }
  }

  lemma TwoModsSet(st: Stored, attr: string, removed: set<string>, added: set<string>)
    requires removed != {} && removed <= Get(st, attr) && added != {} && added !! Get(st, attr)
    ensures Sets(st, [ModDelete(attr, removed), ModAdd(attr, added)], attr, Get(st, attr) - removed + added)
  {
    var del, add := ModDelete(attr, removed), ModAdd(attr, added);
    OneModSets(st, attr, del, Get(st, attr) - removed);
    var st1 := ApplyMods(st, [del]).state;
    assert Get(st1, attr) == Get(st, attr) - removed;
    OneModSets(st1, attr, add, Get(st1, attr) + added);
    ApplyModsAppend(st, [del], [add]);
    assert [del] + [add] == [del, add];
  }

  lemma SetOfMembers(vs: Values)
    ensures forall v :: v in SetOf(vs) <==> v in vs
    ensures SetOf(vs) == {} <==> vs == []
  {
    if vs != [] { assert vs[0] in SetOf(vs); }
  }

  lemma MissingSet(xs: Values, ys: Values)
    ensures SetOf(Missing(xs, ys)) == SetOf(xs) - SetOf(ys)
    ensures Missing(xs, ys) == [] <==> SetOf(xs) <= SetOf(ys)
  {
    MissingMembers(xs, ys);
    SetOfMembers(xs);
    SetOfMembers(ys);
    SetOfMembers(Missing(xs, ys));
  }

  lemma ValueSetEqMeansSet(a: Values, b: Values)
    ensures ValueSetEq(a, b) ==> SetOf(a) == SetOf(b)
  {
  }

  /** Delete what was lost, then add what was gained. */
  function SplitMods(attr: string, removed: set<string>, added: set<string>): seq<Mod> {
    (if removed != {} then [ModDelete(attr, removed)] else []) + (if added != {} then [ModAdd(attr, added)] else [])
  }

  lemma SplitModsSet(st: Stored, attr: string, goal: set<string>)
    requires Get(st, attr) != {}
    ensures Sets(st, SplitMods(attr, Get(st, attr) - goal, goal - Get(st, attr)), attr, goal)
  {
    var removed, added := Get(st, attr) - goal, goal - Get(st, attr);
    var mods := SplitMods(attr, removed, added);
    if removed != {} && added != {} {
      TwoModsSet(st, attr, removed, added);
      assert mods == [ModDelete(attr, removed), ModAdd(attr, added)];
      assert Get(st, attr) - removed + added == goal;
    } else if removed != {} {
      assert forall v :: v in goal && v !in Get(st, attr) ==> v in added;
      assert Get(st, attr) - removed == goal;
      OneModSets(st, attr, ModDelete(attr, removed), goal);
    } else if added != {} {
      assert forall v :: v in Get(st, attr) && v !in goal ==> v in removed;
      assert Get(st, attr) + added == goal;
      OneModSets(st, attr, ModAdd(attr, added), goal);
    } else {
      assert goal == Get(st, attr);
    }
  }

  lemma SplitWire(attr: string, removed: Values, added: Values)
    ensures Wire((if removed != [] then [Delete(attr, removed)] else [])
                 + (if added != [] then [Add(attr, added)] else []))
         == SplitMods(attr, SetOf(removed), SetOf(added))
  {
    SetOfMembers(removed);
    SetOfMembers(added);
  }

  /** One attribute's operations are accepted and leave exactly the new values. */
  lemma AttrModsSet(st: Stored, attr: string, orig: Values, new_: Values, ordered: bool)
    requires Get(st, attr) == SetOf(orig)
    ensures Sets(st, Wire(AttrMods(attr, orig, new_, ordered)), attr, SetOf(new_))
  {
    var mods := AttrMods(attr, orig, new_, ordered);
    SetOfMembers(orig);
    SetOfMembers(new_);
    if |orig| > 0 && |new_| > 0 && !ordered && (|orig| > 1 || |new_| > 1) && !ValueSetEq(orig, new_) {
      MissingSet(orig, new_);
      MissingSet(new_, orig);
      SplitWire(attr, Missing(orig, new_), Missing(new_, orig));
      SplitModsSet(st, attr, SetOf(new_));
    } else if mods == [] {
      ValueSetEqMeansSet(orig, new_);
    } else {
      assert Wire(mods) == [ModOpToLdap(mods[0])];
      OneModSets(st, attr, ModOpToLdap(mods[0]), SetOf(new_));
    }
  }

  /** All operations of a diff, over the entry they were computed from. */
  lemma {:induction false} ModsForSet(st: Stored, o: Table<Values>, e: Table<Values>, x: set<string>,
                                      rename: Option<(string, string)>, names: seq<string>)
    requires DistinctNames(names)
    requires forall n :: n in names && !IsExcluded(rename, n) ==> Get(st, n) == SetOf(Vals(o, n))
    ensures var r := ApplyMods(st, Wire(ModsFor(o, e, x, rename, names)));
            r.Done? && forall m: string ::
              Get(r.state, m) == if Named(names, m) && !IsExcluded(rename, m) then SetOf(Vals(e, m)) else Get(st, m)
    decreases names
  {
    if names != [] {
      var n := names[0];
      var head, tail := Contribution(o, e, x, rename, n), ModsFor(o, e, x, rename, names[1..]);
      WireAppend(head, tail);
      ApplyModsAppend(st, Wire(head), Wire(tail));
      if !IsExcluded(rename, n) {
        AttrModsSet(st, n, Vals(o, n), Vals(e, n), IsOrdered(x, n));
      }
      var st1 := ApplyMods(st, Wire(head)).state;
      forall k | k in names[1..] && !IsExcluded(rename, k) ensures Get(st1, k) == SetOf(Vals(o, k)) {
        NamedStep(names, k);
        assert Named(names[1..], k);
      }
      ModsForSet(st1, o, e, x, rename, names[1..]);
      var r := ApplyMods(st1, Wire(tail)).state;
      forall m: string
        ensures Get(r, m) == if Named(names, m) && !IsExcluded(rename, m) then SetOf(Vals(e, m)) else Get(st, m)
      {
        NamedStep(names, m);
        if EqCi(n, m) { FindCase(e, n, m); }
      }
    }
  }

  /** The mods of a diff are accepted one after the other, and afterwards every attribute
      the rename does not own holds exactly the edited values. */
  lemma ModsRealiseEdit(st: Stored, o: EditEntry, e: Table<Values>, x: set<string>)
    requires Diffed(o, e, x).Ok?
    requires forall m: string :: !IsExcluded(RenameOf(o, e), m) ==> Get(st, m) == SetOf(Vals(o.attrs, m))
    ensures var r := ApplyMods(st, Wire(Diffed(o, e, x).value.mods));
            r.Done? && forall m: string ::
              Get(r.state, m) == if IsExcluded(RenameOf(o, e), m) then Get(st, m) else SetOf(Vals(e, m))
  {
    var names := AllNames(o.attrs, e);
    AllNamesCovers(o.attrs, e);
    ModsForSet(st, o.attrs, e, x, RenameOf(o, e), names);
  }

  /** Saving without a rename: the server accepts exactly when the edit keeps the naming value,
      and then the entry is the edited one. */
  lemma ModifyRealisesEdit(st: Stored, naming: Naming, o: EditEntry, e: Table<Values>, x: set<string>)
    requires Diffed(o, e, x).Ok? && RenameOf(o, e).None?
    requires Shows(st, o.attrs)
    ensures var r := Modify(st, naming, Wire(Diffed(o, e, x).value.mods));
            if naming.value in Vals(e, naming.attr) then r.Done? && Shows(r.state, e)
            else r == Refused(NOT_ALLOWED_ON_RDN)
  {
    ModsRealiseEdit(st, o, e, x);
    SetOfMembers(Vals(e, naming.attr));
  }

  lemma TrimKeeps(s: string, c: char)
    requires c !in s
    ensures c !in Trim(s)
  {
    TrimStartKeeps(s, c);
    TrimEndKeeps(TrimStart(s), c);
  }

  lemma {:induction false} TrimStartKeeps(s: string, c: char)
    requires c !in s
    ensures c !in TrimStart(s)
  {
    if s != "" && IsSpace(s[0]) { TrimStartKeeps(s[1..], c); }
  }

  lemma {:induction false} TrimEndKeeps(s: string, c: char)
    requires c !in s
    ensures c !in TrimEnd(s)
  {
    if s != "" && IsSpace(s[|s| - 1]) { TrimEndKeeps(s[..|s| - 1], c); }
  }

  lemma NewRdnRead(dn: string, w: string)
    requires RdnComponent(dn).Some?
    ensures var a := RdnComponent(dn).value.0;
            && '=' !in a
            && ReadRdn(a + "=" + w) == if ReadRdnValue(w).None? then None else Some(Naming(a, ReadRdnValue(w).value))
  {
    var first := Trim(Before(dn, ','));
    BeforeIsPrefix(first, '=');
    TrimKeeps(Before(first, '='), '=');
    var a := RdnComponent(dn).value.0;
    BeforeOf(a, '=', w);
    assert a + "=" + w == a + ['='] + w;
  }

  /** The server reads the sent RDN back as the wanted value exactly when that value needs no escaping. */
  lemma NewRdnReadsBack(dn: string, w: string)
    requires RdnComponent(dn).Some?
    ensures var a := RdnComponent(dn).value.0;
            ReadRdn(a + "=" + w) == Some(Naming(a, w)) <==> PlainRdnValue(w)
  {
    NewRdnRead(dn, w);
    ReadRdnValueExact(w);
  }

  lemma RenamedEntry(st: Stored, a: string, u: string, rdn: string, w: string) returns (st1: Stored)
    requires ReadRdn(rdn) == Some(Naming(a, w))
    ensures ModifyDn(st, Naming(a, u), rdn, true) == Done((st1, Naming(a, w)))
    ensures forall m: string :: Get(st1, m) == if EqCi(m, a) then Get(st, a) - {u} + {w} else Get(st, m)
  {
    var kept := Put(st, a, Get(st, a) - {u});
    st1 := Put(kept, a, Get(kept, a) + {w});
    PutGet(st, a, Get(st, a) - {u}, a);
    forall m: string ensures Get(st1, m) == if EqCi(m, a) then Get(st, a) - {u} + {w} else Get(st, m) {
      PutGet(st, a, Get(st, a) - {u}, m);
      PutGet(kept, a, Get(kept, a) + {w}, m);
    }
  }

  /** Saving with a rename: the entry is named by what the server reads from the value sent, every other
      attribute becomes the edited one, and the RDN attribute only swaps its old naming value `u` for the
      new one, whatever else was edited in it. `u` is the server's reading of the DN, `v` the client's. */
  lemma RenameRealisesEdit(st: Stored, o: EditEntry, e: Table<Values>, x: set<string>,
                           a: string, v: string, u: string)
    requires Diffed(o, e, x).Ok? && RdnComponent(o.dn) == Some((a, v))
    requires RenameOf(o, e).Some? && ReadRdnValue(Vals(e, a)[0]).Some?
    requires Shows(st, o.attrs)
    ensures var w := ReadRdnValue(Vals(e, a)[0]).value;
            var r := Execute(st, Naming(a, u), PlanSave(Diffed(o, e, x).value));
            && r.Done? && r.state.1 == Naming(a, w)
            && (forall m: string :: Get(r.state.0, m) ==
                  if EqCi(m, a) then SetOf(Vals(o.attrs, a)) - {u} + {w} else SetOf(Vals(e, m)))
            && (Shows(r.state.0, e) <==> SetOf(Vals(e, a)) == SetOf(Vals(o.attrs, a)) - {u} + {w})
  {
    var w := ReadRdnValue(Vals(e, a)[0]).value;
    var cs := Diffed(o, e, x).value;
    NewRdnRead(o.dn, Vals(e, a)[0]);
    var goal := SetOf(Vals(o.attrs, a)) - {u} + {w};
    var st1 := RenamedEntry(st, a, u, cs.modrdn.value.newRdn, w);
    ModsRealiseEdit(st1, o, e, x);
    var st2 := ApplyMods(st1, Wire(cs.mods)).state;
    assert w in Get(st2, a);
    ExecuteRename(st, st1, st2, Naming(a, u), Naming(a, w), cs);
    ShowsUpTo(st2, e, a, goal);
  }

  lemma ExecuteRename(st: Stored, st1: Stored, st2: Stored, old_: Naming, new_: Naming, cs: ChangeSet)
    requires cs.modrdn.Some?
    requires ModifyDn(st, old_, cs.modrdn.value.newRdn, cs.modrdn.value.deleteOld) == Done((st1, new_))
    requires ApplyMods(st1, Wire(cs.mods)) == Done(st2) && new_.value in Get(st2, new_.attr)
    ensures Execute(st, old_, PlanSave(cs)) == Done((st2, new_))
  {
    if cs.mods == [] {
      assert Wire(cs.mods) == [];
    }
  }

  lemma ShowsUpTo(st: Stored, e: Table<Values>, a: string, goal: set<string>)
    requires forall m: string :: Get(st, m) == if EqCi(m, a) then goal else SetOf(Vals(e, m))
    ensures Shows(st, e) <==> SetOf(Vals(e, a)) == goal
  {
    assert Get(st, a) == goal;
    forall m: string | EqCi(m, a) ensures Vals(e, m) == Vals(e, a) { FindCase(e, m, a); }
  }

  lemma SameShows(st: Stored, o: Table<Values>, e: Table<Values>, x: set<string>)
    requires Shows(st, o) && NothingDiffers(o, e, x)
    ensures Shows(st, e)
  {
    forall m: string ensures Get(st, m) == SetOf(Vals(e, m)) {
      assert SameValues(x, m, Vals(o, m), Vals(e, m));
    }
  }

  /** The save of an edit that keeps the value the client reads from the DN, or has no naming value left. */
  lemma SaveWithoutRename(st: Stored, o: EditEntry, e: Table<Values>, x: set<string>, naming: Naming)
    requires Diffed(o, e, x).Ok? && RenameOf(o, e).None? && Shows(st, o.attrs)
    ensures var r := Execute(st, naming, PlanSave(Diffed(o, e, x).value));
            if NothingDiffers(o.attrs, e, x) || naming.value in Vals(e, naming.attr)
            then r.Done? && r.state.1 == naming && Shows(r.state.0, e)
            else r == Refused(NOT_ALLOWED_ON_RDN)
  {
    EmptyIffNothingDiffers(o, e, x);
    if NothingDiffers(o.attrs, e, x) {
      SameMeansEmptyMods(o.attrs, e, x, None, AllNames(o.attrs, e));
      SameShows(st, o.attrs, e, x);
    } else {
      NothingListed(o, e, x);
      ModifyRealisesEdit(st, naming, o, e, x);
    }
  }

  lemma NothingListed(o: EditEntry, e: Table<Values>, x: set<string>)
    requires Diffed(o, e, x).Ok? && RenameOf(o, e).None? && !NothingDiffers(o.attrs, e, x)
    ensures Diffed(o, e, x).value.mods != []
  {
    if Diffed(o, e, x).value.mods == [] {
      EmptyModsMeanSame(o.attrs, e, x);
    }
  }

  /** What executing the save plan of a diff does, for every entry and every edit. The client reads `v`
      from the DN and the server `u`; they differ when the DN is written with escapes. */
  lemma SaveRealisesEdit(st: Stored, o: EditEntry, e: Table<Values>, x: set<string>,
                         a: string, v: string, u: string)
    requires Diffed(o, e, x).Ok? && RdnComponent(o.dn) == Some((a, v))
    requires Shows(st, o.attrs)
    ensures var r := Execute(st, Naming(a, u), PlanSave(Diffed(o, e, x).value));
            if Vals(e, a) == [] || v in Vals(e, a) then
              if NothingDiffers(o.attrs, e, x) || u in Vals(e, a)
              then r.Done? && r.state.1 == Naming(a, u) && Shows(r.state.0, e)
              else r == Refused(NOT_ALLOWED_ON_RDN)
            else if ReadRdnValue(Vals(e, a)[0]).None? then r == Refused(INVALID_DN_SYNTAX)
            else
              var w := ReadRdnValue(Vals(e, a)[0]).value;
              && r.Done? && r.state.1 == Naming(a, w)
              && (w == Vals(e, a)[0] <==> PlainRdnValue(Vals(e, a)[0]))
              && (Shows(r.state.0, e) <==> SetOf(Vals(e, a)) == SetOf(Vals(o.attrs, a)) - {u} + {w})
  {
    if RenameOf(o, e).Some? {
      ReadRdnValueExact(Vals(e, a)[0]);
      if ReadRdnValue(Vals(e, a)[0]).Some? {
        RenameRealisesEdit(st, o, e, x, a, v, u);
      } else {
        NewRdnRead(o.dn, Vals(e, a)[0]);
      }
    } else {
      SaveWithoutRename(st, o, e, x, Naming(a, u));
    }
  }

  lemma ExecuteNamesAsRead(st: Stored, naming: Naming, cs: ChangeSet)
    requires cs.modrdn.Some?
    ensures var r := Execute(st, naming, PlanSave(cs));
            r.Done? ==> ReadRdn(cs.modrdn.value.newRdn) == Some(r.state.1)
  {
  }

  // ----- how a DN names its entry -----

  lemma {:induction false} BeforeAppend(p: string, q: string, c: char)
    requires c !in p
    ensures Before(p + q, c) == p + Before(q, c)
  {
    if p == "" {
      assert p + q == q;
    } else {
      assert (p + q)[1..] == p[1..] + q;
      BeforeAppend(p[1..], q, c);
    }
  }

  lemma {:induction false} BeforeTail(s: string, tail: string, c: char)
    requires tail == "" || tail[0] == c
    ensures Before(s + tail, c) == Before(s, c)
  {
    if s == "" {
      assert s + tail == tail;
    } else {
      assert (s + tail)[1..] == s[1..] + tail;
      BeforeTail(s[1..], tail, c);
    }
  }

  lemma {:induction false} TrimEndAppend(p: string, t: string)
    requires p != "" && !IsSpace(p[|p| - 1])
    ensures TrimEnd(p + t) == p + TrimEnd(t)
  {
    if t == "" {
      assert p + t == p;
    } else if IsSpace(t[|t| - 1]) {
      assert (p + t)[..|p + t| - 1] == p + t[..|t| - 1];
      TrimEndAppend(p, t[..|t| - 1]);
    }
  }

  lemma {:induction false} TrimEndEnds(s: string)
    ensures var t := TrimEnd(s);
            t != "" ==> !IsSpace(t[|t| - 1]) && t[0] == s[0]
  {
    if s != "" && IsSpace(s[|s| - 1]) { TrimEndEnds(s[..|s| - 1]); }
  }

  lemma {:induction false} TrimStartEnds(s: string)
    ensures TrimStart(s) != "" ==> !IsSpace(TrimStart(s)[0])
  {
    if s != "" && IsSpace(s[0]) { TrimStartEnds(s[1..]); }
  }

  lemma TrimEnds(s: string)
    ensures Trim(s) != "" ==> !IsSpace(Trim(s)[0]) && !IsSpace(Trim(s)[|Trim(s)| - 1])
  {
    TrimStartEnds(s);
    TrimEndEnds(TrimStart(s));
  }

  /** A reserved character that may only stand behind a backslash survives reading. */
  lemma {:induction false} ReadKeepsReserved(s: string, c: char)
    requires c == ',' || c == '+'
    requires ReadRest(s).Some? && c in s
    ensures c in ReadRest(s).value
  {
    if s[0] == '\\' {
      if IsEscapable(s[1]) {
        assert s == s[..2] + s[2..];
        if s[1] != c { ReadKeepsReserved(s[2..], c); }
      } else {
        assert s == s[..3] + s[3..];
        ReadKeepsReserved(s[3..], c);
      }
    } else {
      assert s == [s[0]] + s[1..];
      ReadKeepsReserved(s[1..], c);
    }
  }

  lemma {:induction false} ReadKeepsLastSpace(s: string)
    requires ReadRest(s).Some? && s != "" && IsSpace(s[|s| - 1])
    ensures var u := ReadRest(s).value; u != "" && IsSpace(u[|u| - 1])
  {
    if s[0] == '\\' {
      if IsEscapable(s[1]) {
        if |s| > 2 { ReadKeepsLastSpace(s[2..]); }
      } else {
        if |s| > 3 { ReadKeepsLastSpace(s[3..]); }
      }
    } else if |s| > 1 {
      ReadKeepsLastSpace(s[1..]);
    }
  }

  /** A DN whose first component is `a=s`, which the server reads as the value `u`. */
  predicate Written(a: string, s: string, u: string, tail: string) {
    && a != "" && !IsSpace(a[0]) && !IsSpace(a[|a| - 1]) && ',' !in a && '=' !in a && '+' !in a
    && (tail == "" || tail[0] == ',')
    && ReadRdnValue(s) == Some(u)
  }

  lemma ClientReads(a: string, s: string, u: string, tail: string)
    requires Written(a, s, u, tail)
    ensures var dn := a + "=" + s + tail;
            && RdnComponent(dn) == Some((a, Trim(TrimEnd(Before(s, ',')))))
            && (RdnIsMultivalued(dn) <==> '+' in Before(s, ','))
  {
    var dn := a + "=" + s + tail;
    var head, t := a + "=", Before(s, ',');
    assert dn == head + (s + tail);
    BeforeAppend(head, s + tail, ',');
    BeforeTail(s, tail, ',');
    assert Before(dn, ',') == head + t;
    TrimEndAppend(head, t);
    assert Trim(head + t) == head + TrimEnd(t);
    BeforeOf(a, '=', TrimEnd(t));
    assert head + TrimEnd(t) == a + ['='] + TrimEnd(t);
    TrimNoSpaces(a);
  }

  lemma CommaIsMisread(s: string, u: string)
    requires ReadRdnValue(s) == Some(u) && ',' in s
    ensures s != u && Trim(TrimEnd(Before(s, ','))) != u
  {
    ReadRdnValueExact(s);
    ReadKeepsReserved(s, ',');
    BeforeIsPrefix(s, ',');
    TrimEndKeeps(Before(s, ','), ',');
    TrimKeeps(TrimEnd(Before(s, ',')), ',');
  }

  lemma TrimmedReadsRight(s: string, u: string)
    requires ReadRdnValue(s) == Some(u)
    ensures Trim(TrimEnd(s)) == u <==> s == u && Trim(u) == u
  {
    TrimEnds(TrimEnd(s));
    TrimEnds(s);
    if s != "" && IsSpace(s[|s| - 1]) {
      ReadKeepsLastSpace(s);
    } else if s == "" || !IsSpace(s[0]) {
      TrimNoSpaces(s);
    }
  }

  /** The client reads the DN as the server does exactly when it is written without escapes and white
      space at the ends: escapes of any kind, in hex or of a comma, make it read something else. */
  lemma ClientReadsRight(a: string, s: string, u: string, tail: string)
    requires Written(a, s, u, tail)
    ensures RdnComponent(a + "=" + s + tail) == Some((a, u)) <==> s == u && Trim(u) == u
  {
    ClientReads(a, s, u, tail);
    if ',' in s {
      CommaIsMisread(s, u);
    } else {
      BeforeUnchanged(s, ',');
      TrimmedReadsRight(s, u);
    }
  }

  /** The operator left the RDN attribute alone: the entry is saved as edited, under its name, exactly when the
      client finds the value it reads from the DN, or the first listed value is one the server reads as the name. */
  lemma NameKept(st: Stored, o: EditEntry, e: Table<Values>, x: set<string>, a: string, v: string, u: string)
    requires Diffed(o, e, x).Ok? && RdnComponent(o.dn) == Some((a, v)) && Shows(st, o.attrs)
    requires Vals(e, a) == Vals(o.attrs, a) && u in Vals(o.attrs, a)
    ensures SavedAs(Execute(st, Naming(a, u), PlanSave(Diffed(o, e, x).value)), Naming(a, u), e)
       <==> v in Vals(e, a) || ReadRdnValue(Vals(e, a)[0]) == Some(u)
  {
    SaveRealisesEdit(st, o, e, x, a, v, u);
    assert SetOf(Vals(e, a)) - {u} + {u} == SetOf(Vals(e, a)) by { SetOfMembers(Vals(e, a)); }
  }

  /** Accepted, under that name, showing what was edited. */
  ghost predicate SavedAs(r: Outcome<(Stored, Naming)>, naming: Naming, e: Table<Values>) {
    r.Done? && r.state.1 == naming && Shows(r.state.0, e)
  }

  /** So an entry with one naming value, left alone by the operator, can be saved under its name exactly when
      that value needs no escaping, however the DN is written. Otherwise every save is refused or renames it. */
  lemma SingleNameKept(st: Stored, a: string, s: string, u: string, tail: string,
                       attrs: Table<Values>, e: Table<Values>, x: set<string>)
    requires Written(a, s, u, tail) && Shows(st, attrs)
    requires Vals(attrs, a) == [u] && Vals(e, a) == [u]
    ensures var d := Diffed(EditEntry(a + "=" + s + tail, attrs), e, x);
            d.Ok? && SavedAs(Execute(st, Naming(a, u), PlanSave(d.value)), Naming(a, u), e) <==> PlainRdnValue(u)
  {
    var o := EditEntry(a + "=" + s + tail, attrs);
    ClientReads(a, s, u, tail);
    ClientReadsRight(a, s, u, tail);
    ReadRdnValueExact(u);
    var v := RdnComponent(o.dn).value.1;
    if RdnIsMultivalued(o.dn) {
      BeforeIsPrefix(s, ',');
      assert '+' in s;
      ReadKeepsReserved(s, '+');
    } else {
      NameKept(st, o, e, x, a, v, u);
    }
  }
}
