/** `detect/merge.rs`: which config block belongs to which detected profile, and the order of the result. */
module Matching {
  import opened Text
  import opened DnText
  import opened Schema
  import opened Profiles
  import opened Suppress

  /** `taken` and `owner` are partial injections, each the inverse of the other. */
  ghost predicate Inverse(taken: seq<Option<nat>>, owner: seq<Option<nat>>) {
    (forall oi :: 0 <= oi < |taken| && taken[oi].Some? ==>
        taken[oi].value < |owner| && owner[taken[oi].value] == Some(oi))
    && (forall di :: 0 <= di < |owner| && owner[di].Some? ==>
        owner[di].value < |taken| && taken[owner[di].value] == Some(di))
  }

  /** The first detected profile of that name, in any case. */
  function NameTarget(ds: seq<DetectedProfile>, name: string): (t: Option<nat>)
    ensures t.Some? ==> t.value < |ds| && EqCi(ds[t.value].name, name)
    ensures forall i :: 0 <= i < |ds| && EqCi(ds[i].name, name) ==> t.Some? && t.value <= i
  {
    if ds == [] then None
    else if EqCi(ds[0].name, name) then Some(0)
    else
      match NameTarget(ds[1..], name)
      case None => None
      case Some(i) => Some(i + 1)
  }

  function Targets(ds: seq<DetectedProfile>, os: seq<Override>): (ts: seq<Option<nat>>)
    ensures |ts| == |os| && forall oi :: 0 <= oi < |os| ==> ts[oi] == NameTarget(ds, os[oi].name)
    ensures forall oi :: 0 <= oi < |ts| && ts[oi].Some? ==> ts[oi].value < |ds|
  {
    seq(|os|, oi requires 0 <= oi < |os| => NameTarget(ds, os[oi].name))
  }

  predicate Earlier(targets: seq<Option<nat>>, n: nat, di: nat)
    requires n <= |targets|
  {
    exists oj :: 0 <= oj < n && targets[oj] == Some(di)
  }

  /** Pass 1: each block takes the detected profile of its name, unless an earlier block did. */
  ghost predicate ByName(targets: seq<Option<nat>>, n: nat, taken: seq<Option<nat>>)
    requires n <= |targets| == |taken|
  {
    (forall oi :: n <= oi < |taken| ==> taken[oi] == None)
    && forall oi {:trigger taken[oi]} :: 0 <= oi < n ==>
         taken[oi] == if targets[oi].Some? && Earlier(targets, oi, targets[oi].value) then None else targets[oi]
  }

  /** A detected profile is owned as soon as some block bears its name. */
  ghost predicate OwnedByName(targets: seq<Option<nat>>, n: nat, owner: seq<Option<nat>>)
    requires n <= |targets|
  {
    forall di {:trigger owner[di]} :: 0 <= di < |owner| ==> (owner[di].Some? <==> Earlier(targets, n, di))
  }

  /** Block `oi` and detected profile `di`, both free, belong together from now on. */
  method Claim(taken0: seq<Option<nat>>, owner0: seq<Option<nat>>, oi: nat, di: nat)
    returns (taken: seq<Option<nat>>, owner: seq<Option<nat>>)
    requires Inverse(taken0, owner0) && oi < |taken0| && di < |owner0| && taken0[oi] == None && owner0[di] == None
    ensures Inverse(taken, owner) && taken == taken0[oi := Some(di)] && owner == owner0[di := Some(oi)]
  {
    owner := owner0[di := Some(oi)];
    taken := taken0[oi := Some(di)];
  }

  lemma NameStep(targets: seq<Option<nat>>, oi: nat, taken0: seq<Option<nat>>, owner0: seq<Option<nat>>,
                 taken: seq<Option<nat>>, owner: seq<Option<nat>>)
    requires oi < |targets| == |taken0| && ByName(targets, oi, taken0) && OwnedByName(targets, oi, owner0)
    requires targets[oi].Some? ==> targets[oi].value < |owner0|
    requires if targets[oi].Some? && owner0[targets[oi].value] == None
             then taken == taken0[oi := targets[oi]] && owner == owner0[targets[oi].value := Some(oi)]
             else taken == taken0 && owner == owner0
    ensures ByName(targets, oi + 1, taken) && OwnedByName(targets, oi + 1, owner)
  {
    forall di: nat ensures Earlier(targets, oi + 1, di) <==> Earlier(targets, oi, di) || targets[oi] == Some(di) {
      if Earlier(targets, oi, di) {
        var oj :| 0 <= oj < oi && targets[oj] == Some(di);
        assert oj < oi + 1;
      }
    }
  }

  method MatchNames(ds: seq<DetectedProfile>, os: seq<Override>)
    returns (taken: seq<Option<nat>>, owner: seq<Option<nat>>, warnings: seq<Warning>)
    ensures |taken| == |os| && |owner| == |ds| && Inverse(taken, owner)
    ensures ByName(Targets(ds, os), |os|, taken) && OwnedByName(Targets(ds, os), |os|, owner)
  {
    taken, owner, warnings := seq(|os|, _ => None), seq(|ds|, _ => None), [];
    ghost var targets := Targets(ds, os);
    for oi := 0 to |os|
      invariant |taken| == |os| && |owner| == |ds| && Inverse(taken, owner)
      invariant ByName(targets, oi, taken) && OwnedByName(targets, oi, owner)
    {
      var target := NameTarget(ds, os[oi].name);
      ghost var taken0, owner0 := taken, owner;
      if target.Some? {
        var di := target.value;
        if owner[di] == None {
          taken, owner := Claim(taken, owner, oi, di);
        } else {
          warnings := warnings + [AlreadyMerged(os[oi].name, ds[di].name, os[owner[di].value].name)];
        }
      }
      NameStep(targets, oi, taken0, owner0, taken, owner);
    }
  }

  /** Pass 2 looks for a detected profile in the block's container, of the block's structural class. */
  predicate Candidate(d: DetectedProfile, o: Override, structural: Option<string>) {
    o.searchBase.Some? && structural.Some?
    && DnEq(d.container, o.searchBase.value) && EqCi(d.structural, structural.value)
  }

  /** The candidates of one block, for the structural class the schema gives it. */
  predicate CandidatesOf(s: SchemaModel, ds: seq<DetectedProfile>, o: Override, cands: seq<bool>)
    requires s.Valid() && |cands| == |ds|
  {
    if o.searchBase == None || o.objectClasses == None then forall di :: 0 <= di < |ds| ==> !cands[di]
    else forall di :: 0 <= di < |ds| ==>
      cands[di] == Candidate(ds[di], o, StructuralOf(s, o.objectClasses.value))
  }

  method FindCandidates(s: SchemaModel, ds: seq<DetectedProfile>, o: Override) returns (cands: seq<bool>)
    requires s.Valid()
    ensures |cands| == |ds| && CandidatesOf(s, ds, o, cands)
  {
    cands := seq(|ds|, _ => false);
    if o.searchBase.Some? && o.objectClasses.Some? {
      var st := StructuralClass(s, o.objectClasses.value);
      cands := seq(|ds|, i requires 0 <= i < |ds| => Candidate(ds[i], o, st));
    }
  }

  type Matrix = seq<seq<bool>>

  /** A detected profile gone before block `oi` had its turn in pass 2. */
  predicate Spoken(owner0: seq<Option<nat>>, owner: seq<Option<nat>>, oi: nat, di: nat)
    requires di < |owner0| == |owner|
  {
    owner[di].Some? && (owner0[di].Some? || owner[di].value < oi)
  }

  /** What pass 2 does for one block: a match by name stands; otherwise it takes the first candidate
      still free, if there is one. */
  ghost predicate ByScope(cands: seq<bool>, t0: Option<nat>, t: Option<nat>,
                          owner0: seq<Option<nat>>, owner: seq<Option<nat>>, oi: nat)
    requires |cands| == |owner0| == |owner|
  {
    if t0.Some? then t == t0
    else
      (t.Some? ==> t.value < |cands| && cands[t.value])
      && forall di {:trigger cands[di]} {:trigger owner[di]} ::
           0 <= di < |cands| && cands[di] && (t.Some? ==> di < t.value) ==> Spoken(owner0, owner, oi, di)
  }

  ghost predicate KeptOwners(owner0: seq<Option<nat>>, owner: seq<Option<nat>>) {
    |owner0| == |owner| && forall di {:trigger owner[di]} :: 0 <= di < |owner0| && owner0[di].Some? ==>
        owner[di] == owner0[di]
  }

  /** The first candidate that no block owns. */
  method FirstFree(cands: seq<bool>, owner: seq<Option<nat>>) returns (first: Option<nat>, free: Option<nat>)
    requires |cands| == |owner|
    ensures free.Some? ==> free.value < |cands| && cands[free.value] && owner[free.value] == None
    ensures forall di :: 0 <= di < |cands| && cands[di] && (free.Some? ==> di < free.value) ==> owner[di].Some?
    ensures first.Some? ==> first.value < |cands| && cands[first.value] && (free == None ==> owner[first.value].Some?)
  {
    first, free := None, None;
    for di := 0 to |cands|
      invariant first.Some? ==> first.value < di && cands[first.value]
      invariant forall j :: 0 <= j < di && cands[j] ==> owner[j].Some?
    {
      if cands[di] {
        if first == None { first := Some(di); }
        if owner[di] == None {
          free := Some(di);
          return;
        }
      }
    }
  }

  /** Every block so far has been served as pass 2 promises, and no later block owns anything new. */
  ghost predicate Served(cands: Matrix, taken0: seq<Option<nat>>, owner0: seq<Option<nat>>,
                         taken: seq<Option<nat>>, owner: seq<Option<nat>>, n: nat)
  {
    n <= |cands| <= |taken0| == |taken| && KeptOwners(owner0, owner)
    && (forall oi {:trigger cands[oi]} :: 0 <= oi < n ==>
          |cands[oi]| == |owner| && ByScope(cands[oi], taken0[oi], taken[oi], owner0, owner, oi))
    && (forall oi {:trigger taken[oi]} :: n <= oi < |taken| ==> taken[oi] == taken0[oi])
    && (forall di {:trigger owner[di]} :: 0 <= di < |owner| && owner[di].Some? && owner0[di] == None ==>
        owner[di].value < n)
  }

  lemma ServeNext(cands: Matrix, row: seq<bool>, taken0: seq<Option<nat>>, owner0: seq<Option<nat>>,
                  taken: seq<Option<nat>>, owner: seq<Option<nat>>,
                  taken2: seq<Option<nat>>, owner2: seq<Option<nat>>, free: Option<nat>)
    requires |cands| < |taken0| && |row| == |owner| && Served(cands, taken0, owner0, taken, owner, |cands|)
    requires taken0[|cands|].Some? ==> taken2 == taken && owner2 == owner
    requires taken0[|cands|] == None ==>
               (free.Some? ==> free.value < |row| && row[free.value] && owner[free.value] == None
                               && taken2 == taken[|cands| := free] && owner2 == owner[free.value := Some(|cands|)])
               && (free == None ==> taken2 == taken && owner2 == owner)
               && forall di :: 0 <= di < |row| && row[di] && (free.Some? ==> di < free.value) ==> owner[di].Some?
    ensures Served(cands + [row], taken0, owner0, taken2, owner2, |cands| + 1)
  {
    var all, n := cands + [row], |cands|;
    assert KeptOwners(owner0, owner2);
    forall oi | 0 <= oi < n + 1
      ensures |all[oi]| == |owner2| && ByScope(all[oi], taken0[oi], taken2[oi], owner0, owner2, oi)
    {
      if oi < n {
        assert all[oi] == cands[oi];
        assert ByScope(cands[oi], taken0[oi], taken[oi], owner0, owner, oi);
        assert forall di :: 0 <= di < |owner| && owner[di].Some? ==> owner2[di] == owner[di];
      } else {
        assert forall di :: 0 <= di < |owner| && owner[di].Some? ==>
            Spoken(owner0, owner, n, di) && owner2[di] == owner[di];
      }
    }
  }

  method MatchScopes(s: SchemaModel, ds: seq<DetectedProfile>, os: seq<Override>,
                     taken0: seq<Option<nat>>, owner0: seq<Option<nat>>)
    returns (taken: seq<Option<nat>>, owner: seq<Option<nat>>, warnings: seq<Warning>, ghost cands: Matrix)
    requires s.Valid() && |taken0| == |os| && |owner0| == |ds| && Inverse(taken0, owner0)
    ensures |cands| == |taken| == |os| && |owner| == |ds| && Inverse(taken, owner)
    ensures Served(cands, taken0, owner0, taken, owner, |os|)
    ensures forall oi :: 0 <= oi < |os| && taken0[oi] == None ==> CandidatesOf(s, ds, os[oi], cands[oi])
  {
    taken, owner, warnings, cands := taken0, owner0, [], [];
    for oi := 0 to |os|
      invariant |cands| == oi && |owner| == |ds| && Inverse(taken, owner)
      invariant Served(cands, taken0, owner0, taken, owner, oi)
      invariant forall j :: 0 <= j < oi && taken0[j] == None ==> CandidatesOf(s, ds, os[j], cands[j])
    {
      ghost var t, w := taken, owner;
      if taken[oi] == None {
        var row := FindCandidates(s, ds, os[oi]);
        var first, free := FirstFree(row, owner);
        if free.Some? {
          taken, owner := Claim(taken, owner, oi, free.value);
        } else if first.Some? {
          warnings := warnings + [AlreadyMerged(os[oi].name, ds[first.value].name, os[owner[first.value].value].name)];
        }
        ServeNext(cands, row, taken0, owner0, t, w, taken, owner, free);
        cands := cands + [row];
      } else {
        ghost var row := seq(|ds|, _ => false);
        ServeNext(cands, row, taken0, owner0, t, w, taken, owner, None);
        cands := cands + [row];
      }
    }
  }

  /** A detected profile that some block names goes to the first such block, whatever pass 2 does. */
  lemma NamesComeFirst(targets: seq<Option<nat>>, taken0: seq<Option<nat>>, owner0: seq<Option<nat>>,
                       owner: seq<Option<nat>>, oi: nat)
    requires |taken0| == |targets| && Inverse(taken0, owner0) && KeptOwners(owner0, owner)
    requires ByName(targets, |targets|, taken0) && OwnedByName(targets, |targets|, owner0)
    requires oi < |targets| && targets[oi].Some? && targets[oi].value < |owner0|
    ensures var o := owner[targets[oi].value];
            o.Some? && o.value <= oi && targets[o.value] == targets[oi]
            && forall j :: 0 <= j < o.value ==> targets[j] != targets[oi]
  {
    var di := targets[oi].value;
    assert Earlier(targets, |targets|, di);
    var first := owner0[di].value;
    assert taken0[first] == Some(di);
    assert forall j :: 0 <= j < first && targets[j] == Some(di) ==> Earlier(targets, first, di);
  }

  // ---------------------------------------------------------------- the order of detected-only profiles

  /** More object classes first, then by name. */
  predicate Precedes(a: DetectedProfile, b: DetectedProfile) {
    |a.objectClasses.0| > |b.objectClasses.0|
    || (|a.objectClasses.0| == |b.objectClasses.0| && StrLe(a.name, b.name))
  }

  predicate InOrder(ds: seq<DetectedProfile>, xs: seq<nat>) {
    forall i, j {:trigger xs[i], xs[j]} :: 0 <= i < j < |xs| ==>
        xs[i] < |ds| && xs[j] < |ds| && Precedes(ds[xs[i]], ds[xs[j]])
  }

  predicate Indices(ds: seq<DetectedProfile>, xs: seq<nat>) {
    forall i :: 0 <= i < |xs| ==> xs[i] < |ds|
  }

  function Insert(ds: seq<DetectedProfile>, x: nat, xs: seq<nat>): (r: seq<nat>)
    requires x < |ds| && Indices(ds, xs)
    ensures Indices(ds, r) && multiset(r) == multiset(xs) + multiset{x}
  {
    if xs == [] || Precedes(ds[x], ds[xs[0]]) then [x] + xs
    else
      assert xs == [xs[0]] + xs[1..];
      [xs[0]] + Insert(ds, x, xs[1..])
  }

  /** A stable sort, as `sort_by` is. */
  function Sorted(ds: seq<DetectedProfile>, xs: seq<nat>): (r: seq<nat>)
    requires Indices(ds, xs)
    ensures Indices(ds, r) && multiset(r) == multiset(xs)
  {
    if xs == [] then []
    else
      assert xs == [xs[0]] + xs[1..];
      Insert(ds, xs[0], Sorted(ds, xs[1..]))
  }

  /** `x` may stand before all of `xs`. */
  predicate Heads(ds: seq<DetectedProfile>, x: nat, xs: seq<nat>)
    requires x < |ds| && Indices(ds, xs)
  {
    forall j :: 0 <= j < |xs| ==> Precedes(ds[x], ds[xs[j]])
  }

  lemma ConsInOrder(ds: seq<DetectedProfile>, x: nat, xs: seq<nat>)
    requires x < |ds| && Indices(ds, xs) && InOrder(ds, xs) && Heads(ds, x, xs)
    ensures InOrder(ds, [x] + xs)
  {
    var r := [x] + xs;
    forall i, j | 0 <= i < j < |r| ensures Precedes(ds[r[i]], ds[r[j]]) {
      assert r[j] == xs[j - 1];
      if i > 0 { assert r[i] == xs[i - 1]; }
    }
  }

  lemma {:induction false} InsertHeads(ds: seq<DetectedProfile>, h: nat, x: nat, xs: seq<nat>)
    requires h < |ds| && x < |ds| && Indices(ds, xs) && Heads(ds, h, xs) && Precedes(ds[h], ds[x])
    ensures Heads(ds, h, Insert(ds, x, xs))
  {
    if xs != [] && !Precedes(ds[x], ds[xs[0]]) {
      InsertHeads(ds, h, x, xs[1..]);
    }
  }

  lemma {:induction false} InsertInOrder(ds: seq<DetectedProfile>, x: nat, xs: seq<nat>)
    requires x < |ds| && Indices(ds, xs) && InOrder(ds, xs)
    ensures InOrder(ds, Insert(ds, x, xs))
  {
    if xs == [] {
    } else if Precedes(ds[x], ds[xs[0]]) {
      forall j | 0 <= j < |xs| ensures Precedes(ds[x], ds[xs[j]]) {
        if j > 0 { PrecedesTrans(ds[x], ds[xs[0]], ds[xs[j]]); }
      }
      ConsInOrder(ds, x, xs);
    } else {
      InsertInOrder(ds, x, xs[1..]);
      PrecedesTotal(ds[x], ds[xs[0]]);
      assert Heads(ds, xs[0], xs[1..]) by {
        forall j | 0 <= j < |xs[1..]| ensures Precedes(ds[xs[0]], ds[xs[1..][j]]) { assert xs[1..][j] == xs[j + 1]; }
      }
      InsertHeads(ds, xs[0], x, xs[1..]);
      ConsInOrder(ds, xs[0], Insert(ds, x, xs[1..]));
    }
  }

  lemma PrecedesTotal(a: DetectedProfile, b: DetectedProfile)
    ensures Precedes(a, b) || Precedes(b, a)
  {
    StrLeTotal(a.name, b.name);
  }

  lemma PrecedesTrans(a: DetectedProfile, b: DetectedProfile, c: DetectedProfile)
    requires Precedes(a, b) && Precedes(b, c)
    ensures Precedes(a, c)
  {
    if |a.objectClasses.0| == |b.objectClasses.0| == |c.objectClasses.0| { StrLeTrans(a.name, b.name, c.name); }
  }

  lemma {:induction false} SortedInOrder(ds: seq<DetectedProfile>, xs: seq<nat>)
    requires Indices(ds, xs)
    ensures InOrder(ds, Sorted(ds, xs))
  {
    if xs != [] {
      SortedInOrder(ds, xs[1..]);
      InsertInOrder(ds, xs[0], Sorted(ds, xs[1..]));
    }
  }

  /** The detected profiles that no block owns, in detection order. */
  function Unowned(owner: seq<Option<nat>>, n: nat): seq<nat>
    requires n <= |owner|
  {
    if n == 0 then [] else Unowned(owner, n - 1) + IfUnowned(owner[n - 1], n - 1)
  }

  function IfUnowned(o: Option<nat>, di: nat): seq<nat> {
    if o == None then [di] else []
  }

  function Count(xs: seq<nat>, x: nat): nat {
    if xs == [] then 0 else Count(xs[..|xs| - 1], x) + if xs[|xs| - 1] == x then 1 else 0
  }

  lemma {:induction false} CountIs(xs: seq<nat>, x: nat)
    ensures Count(xs, x) == multiset(xs)[x]
  {
    if xs != [] {
      CountIs(xs[..|xs| - 1], x);
      assert xs == xs[..|xs| - 1] + [xs[|xs| - 1]];
    }
  }

  lemma UnownedNext(owner: seq<Option<nat>>, n: nat)
    requires 0 < n <= |owner|
    ensures Unowned(owner, n)
         == if owner[n - 1] == None then Unowned(owner, n - 1) + [n - 1] else Unowned(owner, n - 1)
  {
  }

  lemma OneMore(a: seq<nat>, b: seq<nat>, more: bool, last: nat, x: nat)
    requires b == if more then a + [last] else a
    ensures multiset(b)[x] == multiset(a)[x] + if more && last == x then 1 else 0
  {
  }

  /** Each detected profile that no block owns is listed once, and no other. */
  lemma {:induction false} UnownedOnce(owner: seq<Option<nat>>, n: nat, xs: seq<nat>, di: nat)
    requires n <= |owner| && xs == Unowned(owner, n)
    ensures multiset(xs)[di] == if di < n && owner[di] == None then 1 else 0
  {
    if n > 0 {
      var init := Unowned(owner, n - 1);
      UnownedOnce(owner, n - 1, init, di);
      UnownedNext(owner, n);
      OneMore(init, xs, owner[n - 1] == None, n - 1, di);
    }
  }

  lemma UnownedIndices(ds: seq<DetectedProfile>, owner: seq<Option<nat>>)
    requires |owner| == |ds|
    ensures Indices(ds, Unowned(owner, |ds|))
  {
    var xs := Unowned(owner, |ds|);
    forall i | 0 <= i < |xs| ensures xs[i] < |ds| {
      assert xs[i] in multiset(xs);
      UnownedOnce(owner, |ds|, xs, xs[i]);
    }
  }

  // ---------------------------------------------------------------- where each profile ends up

  /** What a resulting profile was made from: a block and the profile it owns, a block alone, a detected one alone. */
  datatype Slot = Both(oi: nat, di: nat) | Alone(oi: nat) | Own(di: nat)

  /** The slots of the first `n` blocks, in file order. */
  function ConfigSlots(os: seq<Override>, taken: seq<Option<nat>>, n: nat): seq<Slot>
    requires n <= |os| == |taken|
  {
    if n == 0 then []
    else ConfigSlots(os, taken, n - 1) + SlotOf(os[n - 1], taken[n - 1], n - 1)
  }

  function SlotOf(o: Override, t: Option<nat>, oi: nat): seq<Slot> {
    if !o.Enabled() then []
    else if t.Some? then [Both(oi, t.value)]
    else if o.objectClasses.Some? then [Alone(oi)] else []
  }

  /** The block behind a slot. */
  function BlockOf(slot: Slot): Option<nat> {
    match slot case Both(oi, _) => Some(oi) case Alone(oi) => Some(oi) case Own(_) => None
  }

  predicate InFileOrder(slots: seq<Slot>, n: nat) {
    && (forall i :: 0 <= i < |slots| ==> BlockOf(slots[i]).Some? && BlockOf(slots[i]).value < n)
    && forall i, j :: 0 <= i < j < |slots| ==> BlockOf(slots[i]).value < BlockOf(slots[j]).value
  }

  /** A block that is not disabled gets a profile if it took one over, or if it names its classes. */
  predicate SlotDue(os: seq<Override>, taken: seq<Option<nat>>, slot: Slot)
    requires |os| == |taken|
  {
    match slot
    case Both(oi, di) => oi < |os| && os[oi].enabled != Some(false) && taken[oi] == Some(di)
    case Alone(oi) =>
      oi < |os| && os[oi].enabled != Some(false) && taken[oi] == None && os[oi].objectClasses.Some?
    case Own(_) => false
  }

  /** The blocks come in file order, each at most once, and exactly those that get a profile. */
  lemma {:induction false} SlotsInFileOrder(os: seq<Override>, taken: seq<Option<nat>>, n: nat)
    requires n <= |os| == |taken|
    ensures InFileOrder(ConfigSlots(os, taken, n), n)
    ensures forall slot :: slot in ConfigSlots(os, taken, n) <==>
              SlotDue(os, taken, slot) && BlockOf(slot).value < n
  {
    if n > 0 {
      SlotsInFileOrder(os, taken, n - 1);
      var init, last := ConfigSlots(os, taken, n - 1), SlotOf(os[n - 1], taken[n - 1], n - 1);
      OneMoreInOrder(init, last, n - 1);
      forall slot ensures slot in init + last <==> SlotDue(os, taken, slot) && BlockOf(slot).value < n {
        SlotOfBlock(os, taken, slot, n - 1);
      }
    }
  }

  lemma OneMoreInOrder(init: seq<Slot>, last: seq<Slot>, n: nat)
    requires InFileOrder(init, n) && |last| <= 1 && forall slot :: slot in last ==> BlockOf(slot) == Some(n)
    ensures InFileOrder(init + last, n + 1)
  {
  }

  lemma SlotOfBlock(os: seq<Override>, taken: seq<Option<nat>>, slot: Slot, oi: nat)
    requires |os| == |taken| && oi < |os|
    ensures slot in SlotOf(os[oi], taken[oi], oi) <==> SlotDue(os, taken, slot) && BlockOf(slot) == Some(oi)
  {
  }

  function OwnSlots(xs: seq<nat>): (r: seq<Slot>)
    ensures |r| == |xs| && forall i :: 0 <= i < |xs| ==> r[i] == Own(xs[i])
  {
    seq(|xs|, i requires 0 <= i < |xs| => Own(xs[i]))
  }

  /** How often detected profile `di` occurs among the slots. */
  function Uses(slots: seq<Slot>, di: nat): nat {
    if slots == [] then 0
    else Uses(slots[..|slots| - 1], di) + if Holds(slots[|slots| - 1], di) then 1 else 0
  }

  predicate Holds(slot: Slot, di: nat) {
    (slot.Both? && slot.di == di) || (slot.Own? && slot.di == di)
  }

  lemma {:induction false} UsesAppend(a: seq<Slot>, b: seq<Slot>, di: nat)
    ensures Uses(a + b, di) == Uses(a, di) + Uses(b, di)
  {
    if b == [] {
      assert a + b == a;
    } else {
      UsesAppend(a, b[..|b| - 1], di);
      assert (a + b)[..|a + b| - 1] == a + b[..|b| - 1];
    }
  }

  lemma {:induction false} ConfigUses(os: seq<Override>, taken: seq<Option<nat>>, owner: seq<Option<nat>>, n: nat,
                                      di: nat)
    requires n <= |os| == |taken| && Inverse(taken, owner) && di < |owner|
    ensures Uses(ConfigSlots(os, taken, n), di) ==
              if owner[di].Some? && owner[di].value < n && os[owner[di].value].Enabled() then 1 else 0
  {
    if n > 0 {
      var init, last := ConfigSlots(os, taken, n - 1), SlotOf(os[n - 1], taken[n - 1], n - 1);
      ConfigUses(os, taken, owner, n - 1, di);
      assert ConfigSlots(os, taken, n) == init + last;
      UsesAppend(init, last, di);
      SlotUses(os[n - 1], taken[n - 1], n - 1, di);
      assert taken[n - 1] == Some(di) <==> owner[di] == Some(n - 1);
    }
  }

  lemma SlotUses(o: Override, t: Option<nat>, oi: nat, di: nat)
    ensures Uses(SlotOf(o, t, oi), di) == if o.Enabled() && t == Some(di) then 1 else 0
  {
    var last := SlotOf(o, t, oi);
    assert last != [] ==> last[..|last| - 1] == [];
    assert Uses([], di) == 0;
  }

  lemma {:induction false} OwnUses(xs: seq<nat>, di: nat)
    ensures Uses(OwnSlots(xs), di) == Count(xs, di)
  {
    if xs != [] {
      var init := xs[..|xs| - 1];
      OwnUses(init, di);
      assert OwnSlots(xs)[..|xs| - 1] == OwnSlots(init);
    }
  }

  /** Conservation: a detected profile is in the result exactly once, as its owner's or on its own,
      unless the block that owns it is disabled; then it is gone. */
  lemma EachDetectedOnce(os: seq<Override>, taken: seq<Option<nat>>, owner: seq<Option<nat>>, rest: seq<nat>, di: nat)
    requires |taken| == |os| && Inverse(taken, owner) && di < |owner|
    requires multiset(rest) == multiset(Unowned(owner, |owner|))
    ensures Uses(ConfigSlots(os, taken, |os|) + OwnSlots(rest), di)
         == if owner[di].Some? && !os[owner[di].value].Enabled() then 0 else 1
  {
    UsesAppend(ConfigSlots(os, taken, |os|), OwnSlots(rest), di);
    ConfigUses(os, taken, owner, |os|, di);
    OwnUses(rest, di);
    CountIs(rest, di);
    UnownedOnce(owner, |owner|, Unowned(owner, |owner|), di);
  }

  /** Both passes: what pass 1 left and what pass 2 made of it. */
  datatype Match = Match(taken0: seq<Option<nat>>, owner0: seq<Option<nat>>, cands: Matrix,
                         taken: seq<Option<nat>>, owner: seq<Option<nat>>)

  ghost predicate Matched(s: SchemaModel, ds: seq<DetectedProfile>, os: seq<Override>, m: Match)
    requires s.Valid()
  {
    |m.taken0| == |m.taken| == |os| == |m.cands| && |m.owner0| == |m.owner| == |ds|
    && Inverse(m.taken0, m.owner0) && Inverse(m.taken, m.owner)
    && ByName(Targets(ds, os), |os|, m.taken0) && OwnedByName(Targets(ds, os), |os|, m.owner0)
    && Served(m.cands, m.taken0, m.owner0, m.taken, m.owner, |os|)
    && forall oi :: 0 <= oi < |os| && m.taken0[oi] == None ==>
        |m.cands[oi]| == |ds| && CandidatesOf(s, ds, os[oi], m.cands[oi])
  }

  method MatchProfiles(s: SchemaModel, ds: seq<DetectedProfile>, os: seq<Override>)
    returns (taken: seq<Option<nat>>, owner: seq<Option<nat>>, warnings: seq<Warning>, ghost m: Match)
    requires s.Valid()
    ensures Matched(s, ds, os, m.(taken := taken, owner := owner)) && m.taken == taken && m.owner == owner
    ensures |taken| == |os| && |owner| == |ds| && Inverse(taken, owner)
  {
    var taken0, owner0, w0 := MatchNames(ds, os);
    var w1;
    ghost var cands;
    taken, owner, w1, cands := MatchScopes(s, ds, os, taken0, owner0);
    warnings := w0 + w1;
    m := Match(taken0, owner0, cands, taken, owner);
  }
}
