/** `detect/range.rs` (rule C) and `next_in_range` of `config/defaults.rs`: which number to hand out next. */
module Ranges {
  import opened Text
  import opened Tables
  import opened DnText
  import opened Samples
  import opened Private

  const BLOCK_GAP := 1000
  const ASSUMED_MIN := 10000
  const OPEN_END := 60000

  datatype RangeSpec = RangeSpec(attr: string, container: string, structural: string, unified: bool,
                                 excludePrivate: bool)

  type Block = (nat, nat)

  datatype RangeReport = RangeReport(
    min: nat, max: nat, next: nat, inUse: Option<Block>, nextBlock: Option<nat>, exhausted: bool,
    matched: nat, sampled: nat, exceptions: seq<string>)

  // ----- the number space -----

  function ParseAll(vs: seq<string>): seq<nat> {
    if vs == [] then []
    else
      (match ParseUnsigned(Trim(vs[0]), U32_MAX) case None => [] case Some(n) => [n]) + ParseAll(vs[1..])
  }

  function Nums(e: SampleEntry, attr: string): seq<nat> {
    ParseAll(e.Values(attr))
  }

  lemma {:induction false} ParseAllBounded(vs: seq<string>)
    ensures forall n :: n in ParseAll(vs) ==> n <= U32_MAX
  {
    if vs != [] { ParseAllBounded(vs[1..]); }
  }

  /** What one entry adds to the number space. */
  function Contribution(spec: RangeSpec, e: SampleEntry): seq<nat> {
    if spec.unified then
      (if e.HasClass("posixAccount") then Nums(e, "uidNumber") else []) + Nums(e, "gidNumber")
    else if EqCi(spec.attr, "uidNumber") then Nums(e, "uidNumber")
    else if !e.HasClass("posixAccount") then Nums(e, spec.attr)
    else []
  }

  /** The entry lists `n` under `attr`. */
  predicate HasNumber(e: SampleEntry, attr: string, n: nat) {
    exists v :: v in e.Values(attr) && ParseUnsigned(Trim(v), U32_MAX) == Some(n)
  }

  /** What counts as in use: in a shared space every account's `uidNumber` and everybody's `gidNumber`; for users their
      `uidNumber`; else the attribute's numbers of whoever is no account. */
  predicate Counted(spec: RangeSpec, e: SampleEntry, n: nat) {
    if spec.unified then (e.HasClass("posixAccount") && HasNumber(e, "uidNumber", n)) || HasNumber(e, "gidNumber", n)
    else if EqCi(spec.attr, "uidNumber") then HasNumber(e, "uidNumber", n)
    else !e.HasClass("posixAccount") && HasNumber(e, spec.attr, n)
  }

  predicate InUse(spec: RangeSpec, entries: seq<SampleEntry>, n: nat) {
    exists e :: e in entries && Counted(spec, e, n)
  }

  lemma {:induction false} ParseAllMembers(vs: seq<string>, n: nat)
    ensures n in ParseAll(vs) <==> exists v :: v in vs && ParseUnsigned(Trim(v), U32_MAX) == Some(n)
  {
    if vs != [] {
      ParseAllMembers(vs[1..], n);
      assert forall v :: v in vs <==> v == vs[0] || v in vs[1..];
    }
  }

  lemma ContributionExact(spec: RangeSpec, e: SampleEntry, n: nat)
    ensures n in Contribution(spec, e) <==> Counted(spec, e, n)
  {
    ParseAllMembers(e.Values("uidNumber"), n);
    ParseAllMembers(e.Values("gidNumber"), n);
    ParseAllMembers(e.Values(spec.attr), n);
  }

  lemma InUseSnoc(spec: RangeSpec, entries: seq<SampleEntry>, e: SampleEntry, n: nat)
    ensures InUse(spec, entries + [e], n) <==> InUse(spec, entries, n) || Counted(spec, e, n)
  {
  }

  /** The collected space has exactly the numbers in use. */
  lemma {:induction false} SpaceExact(spec: RangeSpec, entries: seq<SampleEntry>, n: nat)
    ensures n in Raw(spec, entries) <==> InUse(spec, entries, n)
  {
    if entries != [] {
      var init, e := entries[..|entries| - 1], entries[|entries| - 1];
      SpaceExact(spec, init, n);
      ContributionExact(spec, e, n);
      assert entries == init + [e];
      InUseSnoc(spec, init, e, n);
    }
  }

  function Raw(spec: RangeSpec, entries: seq<SampleEntry>): seq<nat> {
    if entries == [] then []
    else Raw(spec, entries[..|entries| - 1]) + Contribution(spec, entries[|entries| - 1])
  }

  predicate IsPrivateIn(entries: seq<SampleEntry>, g: SampleEntry) {
    exists u :: u in entries && IsPrivateGroup(g, u)
  }

  /** Whether the numbers of `e` count as the profile's own. */
  predicate IsOwn(spec: RangeSpec, entries: seq<SampleEntry>, e: SampleEntry) {
    && e.Parent().Some? && DnEq(e.Parent().value, spec.container)
    && e.HasClass(spec.structural)
    && !(spec.excludePrivate && IsPrivateIn(entries, e))
  }

  function Tagged(ns: seq<nat>, dn: string): seq<(nat, string)> {
    seq(|ns|, i requires 0 <= i < |ns| => (ns[i], dn))
  }

  function OwnOf(spec: RangeSpec, all: seq<SampleEntry>, e: SampleEntry): seq<(nat, string)> {
    if IsOwn(spec, all, e) then Tagged(Nums(e, spec.attr), e.dn) else []
  }

  function OwnAmong(spec: RangeSpec, all: seq<SampleEntry>, some: seq<SampleEntry>): seq<(nat, string)> {
    if some == [] then [] else OwnAmong(spec, all, some[..|some| - 1]) + OwnOf(spec, all, some[|some| - 1])
  }

  function Mine(spec: RangeSpec, entries: seq<SampleEntry>): seq<(nat, string)> {
    OwnAmong(spec, entries, entries)
  }

  // ----- sorting -----

  predicate StrictlySorted(s: seq<nat>) {
    forall i, j :: 0 <= i < j < |s| ==> s[i] < s[j]
  }

  function Insert(s: seq<nat>, v: nat): seq<nat> {
    if s == [] || v < s[0] then [v] + s
    else if v == s[0] then s
    else [s[0]] + Insert(s[1..], v)
  }

  /** `sort_unstable` followed by `dedup`. */
  function SortDedup(s: seq<nat>): seq<nat> {
    if s == [] then [] else Insert(SortDedup(s[..|s| - 1]), s[|s| - 1])
  }

  lemma {:induction false} InsertSorted(s: seq<nat>, v: nat)
    requires StrictlySorted(s)
    ensures StrictlySorted(Insert(s, v))
    ensures forall x :: x in Insert(s, v) <==> x in s || x == v
  {
    if s != [] && s[0] < v {
      assert StrictlySorted(s[1..]);
      InsertSorted(s[1..], v);
      forall x | x in s[1..] ensures s[0] < x {
        var i :| 0 <= i < |s[1..]| && s[1..][i] == x;
        assert s[i + 1] == x;
      }
      ConsSorted(s[0], Insert(s[1..], v));
      assert s == [s[0]] + s[1..];
    }
  }

  lemma ConsSorted(x: nat, t: seq<nat>)
    requires StrictlySorted(t) && forall y :: y in t ==> x < y
    ensures StrictlySorted([x] + t)
  {
    forall j | 0 <= j < |t| ensures x < t[j] {
      assert t[j] in t;
    }
  }

  lemma {:induction false} SortDedupSpec(s: seq<nat>)
    ensures StrictlySorted(SortDedup(s))
    ensures forall x :: x in SortDedup(s) <==> x in s
  {
    if s != [] {
      var n := |s| - 1;
      SortDedupSpec(s[..n]);
      InsertSorted(SortDedup(s[..n]), s[n]);
      assert s == s[..n] + [s[n]];
    }
  }

  lemma SortDedupEmpty(s: seq<nat>)
    ensures SortDedup(s) == [] <==> s == []
  {
    SortDedupSpec(s);
    if s != [] { assert s[0] in SortDedup(s); }
  }

  lemma {:induction false} SortedUnique(a: seq<nat>, b: seq<nat>)
    requires StrictlySorted(a) && StrictlySorted(b) && forall x :: x in a <==> x in b
    ensures a == b
  {
    assert b != [] ==> b[0] in a;
    if a != [] {
      assert a[0] in b;
      assert a[0] == b[0];
      RestOfSorted(a);
      RestOfSorted(b);
      SortedUnique(a[1..], b[1..]);
      assert a == [a[0]] + a[1..] && b == [b[0]] + b[1..];
    }
  }

  lemma RestOfSorted(s: seq<nat>)
    requires StrictlySorted(s) && s != []
    ensures StrictlySorted(s[1..]) && forall x :: x in s[1..] <==> x in s && x != s[0]
  {
    assert s == [s[0]] + s[1..];
    forall x | x in s[1..] ensures x != s[0] {
      var i :| 0 <= i < |s[1..]| && s[1..][i] == x;
      assert s[i + 1] == x;
    }
  }

  // ----- blocks -----

  predicate InBlock(b: Block, n: nat) {
    b.0 <= n <= b.1
  }

  /** `v` extends the last block when it is close enough, else it opens a new one. */
  function Extend(blocks: seq<Block>, v: nat): seq<Block> {
    var n := |blocks| - 1;
    if n >= 0 && v - blocks[n].1 <= BLOCK_GAP then blocks[n := (blocks[n].0, v)] else blocks + [(v, v)]
  }

  function Blocks(sorted: seq<nat>): seq<Block> {
    if sorted == [] then [] else Extend(Blocks(sorted[..|sorted| - 1]), sorted[|sorted| - 1])
  }

  lemma BlocksStep(sorted: seq<nat>, i: nat)
    requires i < |sorted|
    ensures Blocks(sorted[..i + 1]) == Extend(Blocks(sorted[..i]), sorted[i])
  {
    assert sorted[..i + 1][..i] == sorted[..i];
  }

  method SplitBlocks(sorted: seq<nat>) returns (out: seq<Block>)
    ensures out == Blocks(sorted)
  {
    out := [];
    for i := 0 to |sorted|
      invariant out == Blocks(sorted[..i])
    {
      var v := sorted[i];
      BlocksStep(sorted, i);
      ghost var extended := Extend(out, v);
      if out != [] && v - out[|out| - 1].1 <= BLOCK_GAP {
        var n := |out| - 1;
        out := out[n := (out[n].0, v)];
        assert out == extended;
      } else {
        out := out + [(v, v)];
      }
    }
    assert sorted[..|sorted|] == sorted;
  }

  predicate Covered(blocks: seq<Block>, v: nat) {
    exists i :: 0 <= i < |blocks| && InBlock(blocks[i], v)
  }

  predicate HasSuccessor(s: seq<nat>, t: nat) {
    exists u :: u in s && t < u <= t + BLOCK_GAP
  }

  /** From its first to its last number, a block has no gap above 1000. */
  predicate IsRun(s: seq<nat>, b: Block) {
    b.0 in s && b.1 in s && b.0 <= b.1 && forall t {:trigger HasSuccessor(s, t)} :: t in s && b.0 <= t < b.1 ==>
        HasSuccessor(s, t)
  }

  predicate FarApart(blocks: seq<Block>) {
    forall i, j :: 0 <= i < j < |blocks| ==> blocks[i].1 + BLOCK_GAP < blocks[j].0
  }

  /** The blocks are the maximal runs of `s` with gaps of at most 1000. */
  predicate IsPartition(s: seq<nat>, blocks: seq<Block>) {
    && (forall i :: 0 <= i < |blocks| ==> IsRun(s, blocks[i]))
    && FarApart(blocks)
    && forall v {:trigger Covered(blocks, v)} :: v in s ==> Covered(blocks, v)
  }

  lemma {:induction false} BlocksPartition(s: seq<nat>)
    requires StrictlySorted(s)
    ensures IsPartition(s, Blocks(s))
  {
    if s != [] {
      var n := |s| - 1;
      BlocksPartition(s[..n]);
      forall x | x in s[..n] ensures x < s[n] {
        var i :| 0 <= i < n && s[i] == x;
      }
      ExtendKeeps(s[..n], Blocks(s[..n]), s[n]);
      assert s[..n] + [s[n]] == s;
    }
  }

  lemma RunGrows(s: seq<nat>, v: nat, b: Block)
    requires IsRun(s, b) && forall x :: x in s ==> x < v
    ensures IsRun(s + [v], b)
  {
    forall t | t in s + [v] && b.0 <= t < b.1 ensures HasSuccessor(s + [v], t) {
      assert b.1 in s && HasSuccessor(s, t);
      var u :| u in s && t < u <= t + BLOCK_GAP;
      assert u in s + [v];
    }
  }

  lemma RunExtends(s: seq<nat>, v: nat, b: Block)
    requires IsRun(s, b) && b.1 <= v <= b.1 + BLOCK_GAP && forall x :: x in s ==> x < v
    ensures IsRun(s + [v], (b.0, v))
  {
    assert v in s + [v];
    forall t | t in s + [v] && b.0 <= t < v ensures HasSuccessor(s + [v], t) {
      if t < b.1 {
        assert HasSuccessor(s, t);
        var u :| u in s && t < u <= t + BLOCK_GAP;
        assert u in s + [v];
      }
    }
  }

  lemma ExtendRuns(s: seq<nat>, blocks: seq<Block>, v: nat)
    requires IsPartition(s, blocks) && forall x :: x in s ==> x < v
    ensures forall i :: 0 <= i < |Extend(blocks, v)| ==> IsRun(s + [v], Extend(blocks, v)[i])
  {
    var out, n := Extend(blocks, v), |blocks| - 1;
    forall i | 0 <= i < |out| ensures IsRun(s + [v], out[i]) {
      if i < n {
        RunGrows(s, v, blocks[i]);
      } else if i == n {
        assert IsRun(s, blocks[n]);
        RunGrows(s, v, blocks[n]);
        if |out| == |blocks| { RunExtends(s, v, blocks[n]); }
      } else {
        assert v in s + [v];
      }
    }
  }

  lemma ExtendFar(s: seq<nat>, blocks: seq<Block>, v: nat)
    requires FarApart(blocks) && forall i :: 0 <= i < |blocks| ==> blocks[i].0 <= blocks[i].1 < v
    ensures FarApart(Extend(blocks, v))
  {
    var out, n := Extend(blocks, v), |blocks| - 1;
    forall i, j | 0 <= i < j < |out| ensures out[i].1 + BLOCK_GAP < out[j].0 {
      assert i < n || i == n;
      assert out[i].1 == blocks[i].1;
      if j <= n {
        assert out[j].0 == blocks[j].0;
      } else if i < n {
        assert blocks[i].1 + BLOCK_GAP < blocks[n].0;
      }
    }
  }

  lemma ExtendCovers(s: seq<nat>, blocks: seq<Block>, v: nat, x: nat)
    requires Covered(blocks, x) || x == v
    requires forall i :: 0 <= i < |blocks| ==> blocks[i].0 <= blocks[i].1 < v
    ensures Covered(Extend(blocks, v), x)
  {
    var out := Extend(blocks, v);
    if x == v {
      assert out[|out| - 1].0 <= v == out[|out| - 1].1;
      assert InBlock(out[|out| - 1], v);
    } else {
      var i :| 0 <= i < |blocks| && InBlock(blocks[i], x);
      assert InBlock(out[i], x);
    }
  }

  lemma ExtendKeeps(s: seq<nat>, blocks: seq<Block>, v: nat)
    requires IsPartition(s, blocks) && forall x :: x in s ==> x < v
    ensures IsPartition(s + [v], Extend(blocks, v))
  {
    forall i | 0 <= i < |blocks| ensures blocks[i].0 <= blocks[i].1 < v {
      assert IsRun(s, blocks[i]);
    }
    ExtendRuns(s, blocks, v);
    ExtendFar(s, blocks, v);
    forall x | x in s + [v] ensures Covered(Extend(blocks, v), x) {
      assert x == v || Covered(blocks, x);
      ExtendCovers(s, blocks, v, x);
    }
  }

  /** Nothing lies within 1000 above the end of a block. */
  lemma GapAbove(s: seq<nat>, blocks: seq<Block>, i: nat, u: nat)
    requires IsPartition(s, blocks) && i < |blocks| && u in s && blocks[i].1 < u
    ensures blocks[i].1 + BLOCK_GAP < u
  {
    assert IsRun(s, blocks[i]);
    assert Covered(blocks, u);
    var j :| 0 <= j < |blocks| && InBlock(blocks[j], u);
    assert j >= i;
  }

  // ----- the choice of a block -----

  function Count(vals: seq<nat>, b: Block): nat {
    if vals == [] then 0
    else Count(vals[..|vals| - 1], b) + if InBlock(b, vals[|vals| - 1]) then 1 else 0
  }

  /** More values, or as many in a lower block. */
  predicate Better(vals: seq<nat>, a: Block, b: Block) {
    Count(vals, a) > Count(vals, b) || (Count(vals, a) == Count(vals, b) && a.0 < b.0)
  }

  function Choose(blocks: seq<Block>, vals: seq<nat>): (k: nat)
    requires blocks != []
    ensures k < |blocks|
  {
    var n := |blocks| - 1;
    if n == 0 then 0
    else
      var k := Choose(blocks[..n], vals);
      if Better(vals, blocks[n], blocks[k]) then n else k
  }

  lemma {:induction false} ChooseIsBest(blocks: seq<Block>, vals: seq<nat>)
    requires blocks != []
    ensures forall j :: 0 <= j < |blocks| ==> !Better(vals, blocks[j], blocks[Choose(blocks, vals)])
  {
    var n := |blocks| - 1;
    if n > 0 {
      ChooseIsBest(blocks[..n], vals);
      var k := Choose(blocks[..n], vals);
      forall j | 0 <= j < |blocks| ensures !Better(vals, blocks[j], blocks[Choose(blocks, vals)]) {
        if j < n { assert blocks[..n][j] == blocks[j] && !Better(vals, blocks[..n][j], blocks[..n][k]); }
      }
    }
  }

  datatype Window = Window(block: Block, min: nat, max: nat, next: nat, nextBlock: Option<nat>)

  function Floor1000(n: nat): nat {
    n / 1000 * 1000
  }

  function Min(a: nat, b: nat): nat {
    if a <= b then a else b
  }

  /** The window of a block: from its floor up to the floor of the next block, or far enough on top. */
  function MakeWindow(b: Block, nextBlock: Option<nat>): Window
    requires nextBlock.Some? ==> nextBlock.value >= 1000
  {
    var min := Floor1000(b.0);
    var top := match nextBlock
      case Some(lo) => Floor1000(lo) - 1
      case None => if OPEN_END >= min + 9999 then OPEN_END else min + 9999;
    Window(b, min, Min(top, U32_MAX), b.1 + 1, nextBlock)
  }

  lemma MakeWindowBounds(b: Block, nextBlock: Option<nat>)
    requires b.0 <= b.1 <= U32_MAX
    requires nextBlock.Some? ==> b.1 + BLOCK_GAP < nextBlock.value <= U32_MAX
    ensures var w := MakeWindow(b, nextBlock);
            && w.min <= b.0 < w.min + 1000 && w.min <= w.max <= U32_MAX
            && (nextBlock.Some? ==> b.1 < w.max < nextBlock.value)
  {
  }

  function NextStart(blocks: seq<Block>, k: nat): Option<nat> {
    if k + 1 < |blocks| then Some(blocks[k + 1].0) else None
  }

  function WindowOf(sorted: seq<nat>, vals: seq<nat>): Window
    requires StrictlySorted(sorted) && sorted != []
  {
    BlocksPartition(sorted);
    var blocks := Blocks(sorted);
    assert Covered(blocks, sorted[0]);
    var k := Choose(blocks, vals);
    MakeWindow(blocks[k], NextStart(blocks, k))
  }

  function Firsts(ns: seq<(nat, string)>): seq<nat> {
    seq(|ns|, i requires 0 <= i < |ns| => ns[i].0)
  }

  function Outside(ns: seq<(nat, string)>, b: Block): seq<string> {
    if ns == [] then []
    else (if InBlock(b, ns[0].0) then [] else [ns[0].1]) + Outside(ns[1..], b)
  }

  /** The values that decide which block is the profile's: its own, or else everybody's. */
  function Deciding(spec: RangeSpec, entries: seq<SampleEntry>): seq<nat> {
    if Mine(spec, entries) == [] then SortDedup(Raw(spec, entries)) else Firsts(Mine(spec, entries))
  }

  function Reported(spec: RangeSpec, entries: seq<SampleEntry>): RangeReport {
    var sorted, mine := SortDedup(Raw(spec, entries)), Mine(spec, entries);
    SortDedupSpec(Raw(spec, entries));
    if sorted == [] then RangeReport(ASSUMED_MIN, OPEN_END, ASSUMED_MIN, None, None, false, 0, 0, [])
    else
      var w := WindowOf(sorted, Deciding(spec, entries));
      RangeReport(w.min, w.max, w.next, Some(w.block), w.nextBlock, w.next > w.max,
                  Count(Firsts(mine), w.block), |mine|,
                  if |mine| >= MIN_SAMPLE then Outside(mine, w.block) else [])
  }

  datatype PoolExhausted = PoolExhausted(min: nat, max: nat)

  function Allocate(spec: RangeSpec, entries: seq<SampleEntry>): Result<nat, PoolExhausted> {
    var r := Reported(spec, entries);
    if r.exhausted then Err(PoolExhausted(r.min, r.max)) else Ok(r.next)
  }

  method CollectSpace(spec: RangeSpec, entries: seq<SampleEntry>) returns (space: seq<nat>)
    ensures space == Raw(spec, entries)
  {
    space := [];
    for i := 0 to |entries|
      invariant space == Raw(spec, entries[..i])
    {
      var e := entries[i];
      assert entries[..i + 1][..i] == entries[..i];
      assert Raw(spec, entries[..i + 1]) == space + Contribution(spec, e);
      var isAccount := e.HasClass("posixAccount");
      if spec.unified {
        var users := if isAccount then Nums(e, "uidNumber") else [];
        space := space + (users + Nums(e, "gidNumber"));
      } else if EqCi(spec.attr, "uidNumber") {
        space := space + Nums(e, "uidNumber");
      } else if !isAccount {
        space := space + Nums(e, spec.attr);
      }
    }
    assert entries[..|entries|] == entries;
  }

  method DetectRange(spec: RangeSpec, entries: seq<SampleEntry>) returns (r: RangeReport)
    ensures r == Reported(spec, entries)
  {
    var index := NewIndex(entries);
    var space := CollectSpace(spec, entries);
    var sorted := SortDedup(space);
    SortDedupSpec(space);
    var mine := CollectOwn(spec, entries, index);
    if sorted == [] {
      return RangeReport(ASSUMED_MIN, OPEN_END, ASSUMED_MIN, None, None, false, 0, 0, []);
    }
    var w := WindowOf(sorted, if mine == [] then sorted else Firsts(mine));
    r := RangeReport(w.min, w.max, w.next, Some(w.block), w.nextBlock, w.next > w.max,
                     Count(Firsts(mine), w.block), |mine|,
                     if |mine| >= MIN_SAMPLE then Outside(mine, w.block) else []);
  }

  method CollectOwn(spec: RangeSpec, entries: seq<SampleEntry>, index: PrivateIndex) returns (mine: seq<(nat, string)>)
    requires Indexes(index.usersByUid, entries, "posixAccount", "uid")
    ensures mine == Mine(spec, entries)
  {
    mine := [];
    for i := 0 to |entries|
      invariant mine == OwnAmong(spec, entries, entries[..i])
    {
      var e := entries[i];
      assert entries[..i + 1][..i] == entries[..i];
      IsPrivateAgrees(index, entries, e);
      if e.Parent().Some? && DnEq(e.Parent().value, spec.container) && e.HasClass(spec.structural)
         && !(spec.excludePrivate && IsPrivate(index, e))
      {
        mine := mine + Tagged(Nums(e, spec.attr), e.dn);
      }
    }
    assert entries[..|entries|] == entries;
  }

  // ----- the window -----

  predicate Exhausted(w: Window) {
    w.next > w.max
  }

  lemma WindowBounds(sorted: seq<nat>, vals: seq<nat>) returns (k: nat)
    requires StrictlySorted(sorted) && sorted != [] && forall n :: n in sorted ==> n <= U32_MAX
    ensures var blocks, w := Blocks(sorted), WindowOf(sorted, vals);
            && IsPartition(sorted, blocks) && k < |blocks| && k == Choose(blocks, vals)
            && IsRun(sorted, blocks[k]) && w == MakeWindow(blocks[k], NextStart(blocks, k))
            && w.block.0 < w.min + 1000 && w.min <= w.block.0 && w.min <= w.max <= U32_MAX
            && (w.nextBlock.Some? ==> w.block.1 < w.max < w.nextBlock.value)
  {
    BlocksPartition(sorted);
    var blocks := Blocks(sorted);
    assert Covered(blocks, sorted[0]);
    k := Choose(blocks, vals);
    assert IsRun(sorted, blocks[k]);
    if k + 1 < |blocks| {
      assert IsRun(sorted, blocks[k + 1]);
    }
    MakeWindowBounds(blocks[k], NextStart(blocks, k));
  }

  /** The window meets the space only inside its block, is a valid 32-bit range,
      and only the topmost block can run out of numbers. */
  predicate WindowFits(sorted: seq<nat>, w: Window) {
    && IsRun(sorted, w.block) && w.next == w.block.1 + 1 && w.next !in sorted
    && (forall n :: n in sorted && w.min <= n <= w.max ==> InBlock(w.block, n))
    && w.min <= w.block.0 && w.min <= w.max <= U32_MAX
    && (Exhausted(w) <==> w.nextBlock.None? && w.max <= w.block.1)
  }

  lemma WindowExact(sorted: seq<nat>, vals: seq<nat>)
    requires StrictlySorted(sorted) && sorted != [] && forall n :: n in sorted ==> n <= U32_MAX
    ensures WindowFits(sorted, WindowOf(sorted, vals))
  {
    var k := WindowBounds(sorted, vals);
    FitsFromBounds(sorted, Blocks(sorted), k, WindowOf(sorted, vals));
  }

  lemma FitsFromBounds(s: seq<nat>, blocks: seq<Block>, k: nat, w: Window)
    requires IsPartition(s, blocks) && k < |blocks| && IsRun(s, blocks[k])
    requires w.block == blocks[k] && w.next == w.block.1 + 1 && w.nextBlock == NextStart(blocks, k)
    requires w.block.0 < w.min + 1000 && w.min <= w.block.0 && w.min <= w.max <= U32_MAX
    requires w.nextBlock.Some? ==> w.block.1 < w.max < w.nextBlock.value
    ensures WindowFits(s, w)
  {
    forall n | n in s && w.min <= n <= w.max ensures InBlock(w.block, n) {
      WindowMember(s, blocks, k, w, n);
    }
    NextIsFree(s, blocks, k);
  }

  lemma WindowMember(s: seq<nat>, blocks: seq<Block>, k: nat, w: Window, n: nat)
    requires IsPartition(s, blocks) && k < |blocks| && n in s && w.min <= n <= w.max
    requires blocks[k].0 < w.min + 1000 && w.block == blocks[k]
    requires k + 1 < |blocks| ==> w.max < blocks[k + 1].0
    ensures InBlock(w.block, n)
  {
    if !InBlock(blocks[k], n) { BlockOfMember(s, blocks, k, n); }
  }

  lemma NextIsFree(s: seq<nat>, blocks: seq<Block>, k: nat)
    requires IsPartition(s, blocks) && k < |blocks|
    ensures blocks[k].1 + 1 !in s
  {
    if blocks[k].1 + 1 in s { GapAbove(s, blocks, k, blocks[k].1 + 1); }
  }

  /** A member outside block `k` is more than 1000 below it, or at or above the next block. */
  lemma BlockOfMember(s: seq<nat>, blocks: seq<Block>, k: nat, n: nat)
    requires IsPartition(s, blocks) && k < |blocks| && n in s && !InBlock(blocks[k], n)
    ensures n + BLOCK_GAP < blocks[k].0 || (k + 1 < |blocks| && blocks[k + 1].0 <= n)
  {
    assert Covered(blocks, n);
    var j :| 0 <= j < |blocks| && InBlock(blocks[j], n);
    if j < k {
      assert blocks[j].1 + BLOCK_GAP < blocks[k].0;
    } else if k + 1 < j {
      assert IsRun(s, blocks[k + 1]);
      assert blocks[k + 1].1 + BLOCK_GAP < blocks[j].0;
    }
  }

  // ----- the report, in terms of the entries -----

  /** `e` sits right below the profile's container, has its class, and is no private group where those do not count. */
  predicate BelongsTo(spec: RangeSpec, entries: seq<SampleEntry>, e: SampleEntry) {
    && e.Parent().Some? && DnEq(e.Parent().value, spec.container) && e.HasClass(spec.structural)
    && (spec.excludePrivate ==> forall u :: u in entries ==> !IsPrivateGroup(e, u))
  }

  lemma TaggedMembers(ns: seq<nat>, dn: string, n: nat, d: string)
    ensures (n, d) in Tagged(ns, dn) <==> n in ns && d == dn
  {
    if n in ns {
      var i :| 0 <= i < |ns| && ns[i] == n;
      assert Tagged(ns, dn)[i] == (n, dn);
    }
  }

  lemma OneOwnMembers(spec: RangeSpec, all: seq<SampleEntry>, e: SampleEntry, n: nat, dn: string)
    ensures (n, dn) in OwnOf(spec, all, e) <==> Gives(spec, all, e, n, dn)
  {
    TaggedMembers(Nums(e, spec.attr), e.dn, n, dn);
    ParseAllMembers(e.Values(spec.attr), n);
  }

  predicate Gives(spec: RangeSpec, all: seq<SampleEntry>, e: SampleEntry, n: nat, dn: string) {
    e.dn == dn && BelongsTo(spec, all, e) && HasNumber(e, spec.attr, n)
  }

  predicate Given(spec: RangeSpec, all: seq<SampleEntry>, some: seq<SampleEntry>, n: nat, dn: string) {
    exists e :: e in some && Gives(spec, all, e, n, dn)
  }

  lemma GivenLast(spec: RangeSpec, all: seq<SampleEntry>, some: seq<SampleEntry>, n: nat, dn: string)
    requires some != []
    ensures Given(spec, all, some, n, dn) <==>
              Given(spec, all, some[..|some| - 1], n, dn) || Gives(spec, all, some[|some| - 1], n, dn)
  {
    assert some == some[..|some| - 1] + [some[|some| - 1]];
  }

  lemma {:induction false} OwnAmongMembers(spec: RangeSpec, all: seq<SampleEntry>, some: seq<SampleEntry>, n: nat,
                                           dn: string)
    ensures (n, dn) in OwnAmong(spec, all, some) <==> Given(spec, all, some, n, dn)
  {
    if some != [] {
      OwnAmongMembers(spec, all, some[..|some| - 1], n, dn);
      OneOwnMembers(spec, all, some[|some| - 1], n, dn);
      GivenLast(spec, all, some, n, dn);
    }
  }

  /** The profile's own numbers are those of the entries that belong to it. */
  lemma OwnNumbers(spec: RangeSpec, entries: seq<SampleEntry>, n: nat, dn: string)
    ensures (n, dn) in Mine(spec, entries) <==> Given(spec, entries, entries, n, dn)
  {
    OwnAmongMembers(spec, entries, entries, n, dn);
  }

  /** Own numbers are counted once for each entry and value that gives them. */
  lemma {:induction false} OwnPerEntry(spec: RangeSpec, all: seq<SampleEntry>, a: seq<SampleEntry>,
                                       b: seq<SampleEntry>)
    ensures OwnAmong(spec, all, a + b) == OwnAmong(spec, all, a) + OwnAmong(spec, all, b)
    decreases b
  {
    if b == [] {
      assert a + b == a;
    } else {
      var k := |b| - 1;
      OwnPerEntry(spec, all, a, b[..k]);
      assert (a + b)[..|a + b| - 1] == a + b[..k] && (a + b)[|a + b| - 1] == b[k];
      JoinTwice(OwnAmong(spec, all, a), OwnAmong(spec, all, b[..k]), OwnOf(spec, all, b[k]));
    }
  }

  ghost function Used(spec: RangeSpec, entries: seq<SampleEntry>): iset<nat> {
    iset n: nat | InUse(spec, entries, n)
  }

  /** A maximal run of numbers in use: no two neighbours in it are more than 1000 apart, nothing around it is closer. */
  ghost predicate MaximalRun(used: iset<nat>, b: Block) {
    && b.0 in used && b.1 in used && b.0 <= b.1
    && (forall n :: n in used && n < b.0 ==> n + 1000 < b.0)
    && (forall n :: n in used && b.1 < n ==> b.1 + 1000 < n)
    && forall n :: n in used && b.0 <= n < b.1 ==> FollowedIn(used, n)
  }

  ghost predicate FollowedIn(used: iset<nat>, n: nat) {
    exists u :: u in used && n < u <= n + 1000
  }

  /** The window around the chosen run: from the thousand it starts in up to the thousand before the next number in use;
      at the top up to 60000, or far enough for ten thousand numbers. */
  ghost predicate WindowAround(used: iset<nat>, r: RangeReport, b: Block) {
    && r.next == b.1 + 1 && (r.exhausted <==> r.max < r.next)
    && r.min % 1000 == 0 && r.min <= b.0 < r.min + 1000
    && match r.nextBlock
       case Some(above) =>
         && above in used && b.1 < above && (forall n :: n in used && b.1 < n ==> above <= n)
         && (r.max + 1) % 1000 == 0 && r.max < above <= r.max + 1000
       case None =>
         && (forall n :: n in used ==> n <= b.1)
         && r.max == Min(0xFFFF_FFFF, if r.min + 9999 <= 60000 then 60000 else r.min + 9999)
  }

  /** How many of the profile's own numbers lie in the run, out of how many, and from three on whose do not. */
  ghost predicate EvidenceFor(mine: seq<(nat, string)>, r: RangeReport, b: Block) {
    && r.sampled == |mine| && r.matched == Count(Firsts(mine), b)
    && (|mine| < 3 ==> r.exceptions == [])
    && (|mine| >= 3 ==>
          && |r.exceptions| == r.sampled - r.matched
          && forall dn :: dn in r.exceptions <==> exists n :: (n, dn) in mine && !(b.0 <= n <= b.1))
  }

  /** No run holds more of the deciding numbers; of those that hold as many the chosen one is the lowest. */
  ghost predicate BestRun(blocks: seq<Block>, vals: seq<nat>, b: Block) {
    forall c :: c in blocks && c != b ==>
      Count(vals, c) < Count(vals, b) || (Count(vals, c) == Count(vals, b) && b.0 < c.0)
  }

  lemma {:induction false} OutsideExact(mine: seq<(nat, string)>, b: Block)
    ensures |Outside(mine, b)| + Count(Firsts(mine), b) == |mine|
    ensures forall dn :: dn in Outside(mine, b) <==> exists n :: (n, dn) in mine && !(b.0 <= n <= b.1)
  {
    if mine != [] {
      OutsideExact(mine[1..], b);
      CountFirst(Firsts(mine), b);
      assert Firsts(mine)[1..] == Firsts(mine[1..]);
      assert forall p :: p in mine <==> p == mine[0] || p in mine[1..];
      assert mine[0] == (mine[0].0, mine[0].1);
    }
  }

  lemma {:induction false} CountFirst(vals: seq<nat>, b: Block)
    requires vals != []
    ensures Count(vals, b) == (if InBlock(b, vals[0]) then 1 else 0) + Count(vals[1..], b)
  {
    var k := |vals| - 1;
    if k > 0 {
      CountFirst(vals[..k], b);
      assert vals[..k][1..] == vals[1..][..k - 1];
    } else {
      assert vals[1..] == [] && vals[..0] == [];
    }
  }

  lemma BlockIsMaximal(used: iset<nat>, s: seq<nat>, blocks: seq<Block>, k: nat)
    requires (forall n :: n in s <==> n in used) && IsPartition(s, blocks) && k < |blocks|
    ensures MaximalRun(used, blocks[k])
  {
    var b := blocks[k];
    assert IsRun(s, b);
    NextBlockAbove(s, blocks, k);
    forall n | n in used && n < b.0 ensures n + 1000 < b.0 {
      BlockOfMember(s, blocks, k, n);
    }
    forall n | n in used && b.0 <= n < b.1 ensures FollowedIn(used, n) {
      assert n in s && HasSuccessor(s, n);
    }
    forall n | n in used && b.1 < n ensures b.1 + 1000 < n {
      GapAbove(s, blocks, k, n);
    }
  }

  lemma UsedAre(spec: RangeSpec, entries: seq<SampleEntry>)
    ensures var s := SortDedup(Raw(spec, entries));
            StrictlySorted(s) && forall n :: n in s <==> n in Used(spec, entries)
  {
    var s := SortDedup(Raw(spec, entries));
    SortDedupSpec(Raw(spec, entries));
    forall n ensures n in s <==> n in Used(spec, entries) { SpaceExact(spec, entries, n); }
  }

  lemma NextBlockAbove(s: seq<nat>, blocks: seq<Block>, k: nat)
    requires IsPartition(s, blocks) && k < |blocks|
    ensures k + 1 < |blocks| ==> blocks[k].1 < blocks[k + 1].0 && blocks[k + 1].0 in s
    ensures k + 1 < |blocks| ==> forall n :: n in s && blocks[k].1 < n ==> blocks[k + 1].0 <= n
    ensures k + 1 == |blocks| ==> forall n :: n in s ==> n <= blocks[k].1
  {
    assert IsRun(s, blocks[k]);
    if k + 1 < |blocks| { assert IsRun(s, blocks[k + 1]); }
    forall n | n in s && blocks[k].1 < n ensures k + 1 < |blocks| && blocks[k + 1].0 <= n {
      BlockOfMember(s, blocks, k, n);
    }
  }

  lemma WindowIsAround(used: iset<nat>, r: RangeReport, b: Block, above: Option<nat>)
    requires b.0 <= b.1 <= U32_MAX
    requires match above
             case Some(a) => 1000 <= a <= U32_MAX && a in used && b.1 < a && forall n :: n in used && b.1 < n ==> a <= n
             case None => forall n :: n in used ==> n <= b.1
    requires var w := MakeWindow(b, above);
             && r.min == w.min && r.max == w.max && r.next == w.next && r.nextBlock == w.nextBlock
             && r.exhausted == (w.next > w.max)
    ensures WindowAround(used, r, b)
  {
  }

  lemma BestOf(blocks: seq<Block>, vals: seq<nat>)
    requires blocks != [] && forall i, j :: 0 <= i < j < |blocks| ==> blocks[i].0 < blocks[j].0
    ensures BestRun(blocks, vals, blocks[Choose(blocks, vals)])
  {
    ChooseIsBest(blocks, vals);
    var b := blocks[Choose(blocks, vals)];
    forall c | c in blocks && c != b
      ensures Count(vals, c) < Count(vals, b) || (Count(vals, c) == Count(vals, b) && b.0 < c.0)
    {
      var j :| 0 <= j < |blocks| && blocks[j] == c;
      assert !Better(vals, blocks[j], b);
    }
  }

  lemma BlocksAscend(s: seq<nat>, blocks: seq<Block>)
    requires IsPartition(s, blocks)
    ensures forall i, j :: 0 <= i < j < |blocks| ==> blocks[i].0 < blocks[j].0
  {
    forall i, j | 0 <= i < j < |blocks| ensures blocks[i].0 < blocks[j].0 {
      assert IsRun(s, blocks[i]) && blocks[i].1 + BLOCK_GAP < blocks[j].0;
    }
  }

  /** The report is about the run `b` of the numbers `used`. */
  ghost predicate ReportsOn(used: iset<nat>, mine: seq<(nat, string)>, sorted: seq<nat>, r: RangeReport, b: Block) {
    && r.inUse == Some(b) && MaximalRun(used, b) && WindowAround(used, r, b) && EvidenceFor(mine, r, b)
    && BestRun(Blocks(sorted), if mine == [] then sorted else Firsts(mine), b)
  }

  /** The whole report on the entries given. With no number in use it is the useradd-style start; otherwise it is about
      one maximal run, the one with most of the profile's own numbers, or of all numbers if it has none. */
  lemma ReportExact(spec: RangeSpec, entries: seq<SampleEntry>)
    ensures var r, used := Reported(spec, entries), Used(spec, entries);
            if used == iset{} then r == RangeReport(10000, 60000, 10000, None, None, false, 0, 0, [])
            else r.inUse.Some?
                 && ReportsOn(used, Mine(spec, entries), SortDedup(Raw(spec, entries)), r, r.inUse.value)
  {
    var s := SortDedup(Raw(spec, entries));
    UsedAre(spec, entries);
    if s != [] {
      assert s[0] in Used(spec, entries);
      RawBounded(spec, entries);
      SortDedupSpec(Raw(spec, entries));
      ReportOf(Used(spec, entries), s, Mine(spec, entries), Reported(spec, entries));
    }
  }

  lemma ReportOf(used: iset<nat>, s: seq<nat>, mine: seq<(nat, string)>, r: RangeReport)
    requires StrictlySorted(s) && s != [] && forall n :: n in s ==> n <= U32_MAX
    requires forall n :: n in s <==> n in used
    requires var w := WindowOf(s, if mine == [] then s else Firsts(mine));
             r == RangeReport(w.min, w.max, w.next, Some(w.block), w.nextBlock, w.next > w.max,
                              Count(Firsts(mine), w.block), |mine|,
                              if |mine| >= MIN_SAMPLE then Outside(mine, w.block) else [])
    ensures r.inUse.Some? && ReportsOn(used, mine, s, r, r.inUse.value)
  {
    var vals := if mine == [] then s else Firsts(mine);
    RunOfWindow(used, s, vals, WindowOf(s, vals), mine, r);
    BestOfWindow(s, vals);
  }

  lemma BestOfWindow(s: seq<nat>, vals: seq<nat>)
    requires StrictlySorted(s) && s != [] && forall n :: n in s ==> n <= U32_MAX
    ensures BestRun(Blocks(s), vals, WindowOf(s, vals).block)
  {
    var k := WindowBounds(s, vals);
    BlocksAscend(s, Blocks(s));
    BestOf(Blocks(s), vals);
  }

  lemma RunOfWindow(used: iset<nat>, s: seq<nat>, vals: seq<nat>, w: Window, mine: seq<(nat, string)>, r: RangeReport)
    requires StrictlySorted(s) && s != [] && forall n :: n in s ==> n <= U32_MAX
    requires forall n :: n in s <==> n in used
    requires w == WindowOf(s, vals) && r.min == w.min && r.max == w.max && r.next == w.next
    requires r.nextBlock == w.nextBlock && r.exhausted == (w.next > w.max)
    requires r.sampled == |mine| && r.matched == Count(Firsts(mine), w.block)
    requires r.exceptions == if |mine| >= MIN_SAMPLE then Outside(mine, w.block) else []
    ensures MaximalRun(used, w.block) && WindowAround(used, r, w.block) && EvidenceFor(mine, r, w.block)
  {
    var blocks, k := ChosenBlock(s, vals);
    RunReported(used, s, blocks, k, mine, r);
  }

  lemma ChosenBlock(s: seq<nat>, vals: seq<nat>) returns (blocks: seq<Block>, k: nat)
    requires StrictlySorted(s) && s != [] && forall n :: n in s ==> n <= U32_MAX
    ensures IsPartition(s, blocks) && k < |blocks|
    ensures NextStart(blocks, k).Some? ==> NextStart(blocks, k).value >= 1000
    ensures WindowOf(s, vals) == MakeWindow(blocks[k], NextStart(blocks, k))
    ensures WindowOf(s, vals).block == blocks[k]
  {
    blocks := Blocks(s);
    k := WindowBounds(s, vals);
  }

  lemma EvidenceOfRun(mine: seq<(nat, string)>, r: RangeReport, b: Block)
    requires r.sampled == |mine| && r.matched == Count(Firsts(mine), b)
    requires r.exceptions == if |mine| >= MIN_SAMPLE then Outside(mine, b) else []
    ensures EvidenceFor(mine, r, b)
  {
    OutsideExact(mine, b);
  }

  lemma RunReported(used: iset<nat>, s: seq<nat>, blocks: seq<Block>, k: nat, mine: seq<(nat, string)>, r: RangeReport)
    requires (forall n :: n in s <==> n in used) && forall n :: n in s ==> n <= U32_MAX
    requires IsPartition(s, blocks) && k < |blocks|
    requires NextStart(blocks, k).Some? ==> NextStart(blocks, k).value >= 1000
    requires var w := MakeWindow(blocks[k], NextStart(blocks, k));
             && r.min == w.min && r.max == w.max && r.next == w.next && r.nextBlock == w.nextBlock
             && r.exhausted == (w.next > w.max)
    requires r.sampled == |mine| && r.matched == Count(Firsts(mine), blocks[k])
    requires r.exceptions == if |mine| >= MIN_SAMPLE then Outside(mine, blocks[k]) else []
    ensures MaximalRun(used, blocks[k]) && WindowAround(used, r, blocks[k]) && EvidenceFor(mine, r, blocks[k])
  {
    BlockIsMaximal(used, s, blocks, k);
    ReportedWindow(used, s, blocks, k, r);
    EvidenceOfRun(mine, r, blocks[k]);
  }

  lemma ReportedWindow(used: iset<nat>, s: seq<nat>, blocks: seq<Block>, k: nat, r: RangeReport)
    requires (forall n :: n in s <==> n in used) && forall n :: n in s ==> n <= U32_MAX
    requires IsPartition(s, blocks) && k < |blocks|
    requires NextStart(blocks, k).Some? ==> NextStart(blocks, k).value >= 1000
    requires var w := MakeWindow(blocks[k], NextStart(blocks, k));
             && r.min == w.min && r.max == w.max && r.next == w.next && r.nextBlock == w.nextBlock
             && r.exhausted == (w.next > w.max)
    ensures WindowAround(used, r, blocks[k])
  {
    assert IsRun(s, blocks[k]);
    NextBlockAbove(s, blocks, k);
    WindowIsAround(used, r, blocks[k], NextStart(blocks, k));
  }

  // ----- the other allocator -----

  function MaxWithin(existing: seq<nat>, min: nat, max: nat): Option<nat> {
    if existing == [] then None
    else
      var rest, n := MaxWithin(existing[1..], min, max), existing[0];
      if min <= n <= max && (rest.None? || rest.value < n) then Some(n) else rest
  }

  /** `next_in_range`; the successor is taken in 64 bits, wrapping. */
  function NextInRange(existing: seq<nat>, min: nat, max: nat): Result<nat, PoolExhausted> {
    var next := match MaxWithin(existing, min, max)
                case Some(m) => if m == U64_MAX then 0 else m + 1
                case None => min;
    if next > max then Err(PoolExhausted(min, max)) else Ok(next)
  }

  lemma {:induction false} MaxWithinSpec(existing: seq<nat>, min: nat, max: nat)
    ensures match MaxWithin(existing, min, max)
            case None => forall n :: n in existing ==> !(min <= n <= max)
            case Some(m) => m in existing && min <= m <= max && forall n :: n in existing && min <= n <= max ==> n <= m
  {
    if existing != [] {
      MaxWithinSpec(existing[1..], min, max);
      assert existing == [existing[0]] + existing[1..];
    }
  }

  /** `next_in_range` hands out a free number above all used ones of its window exactly when the
      window's last number is free; otherwise it refuses, or, at the very top of 64 bits, wraps to 0. */
  lemma NextInRangeExact(existing: seq<nat>, min: nat, max: nat)
    requires min <= max <= U64_MAX
    ensures var r := NextInRange(existing, min, max);
            if max in existing then
              if max == U64_MAX then r == Ok(0) else r == Err(PoolExhausted(min, max))
            else
              && r.Ok? && min <= r.value <= max && r.value !in existing
              && (forall n :: n in existing && min <= n <= max ==> n < r.value)
              && (r.value == min || r.value - 1 in existing)
  {
    MaxWithinSpec(existing, min, max);
  }

  lemma {:induction false} RawBounded(spec: RangeSpec, entries: seq<SampleEntry>)
    ensures forall n :: n in Raw(spec, entries) ==> n <= U32_MAX
  {
    if entries != [] {
      var e := entries[|entries| - 1];
      RawBounded(spec, entries[..|entries| - 1]);
      ParseAllBounded(e.Values("uidNumber"));
      ParseAllBounded(e.Values("gidNumber"));
      ParseAllBounded(e.Values(spec.attr));
    }
  }

  /** Both allocators agree whenever `allocate` succeeds. It refuses although `next_in_range` would
      still hand out a number exactly when the space overshoots a window whose last number is free. */
  lemma AllocatorsAgree(spec: RangeSpec, entries: seq<SampleEntry>)
    ensures var space, r := Raw(spec, entries), Reported(spec, entries);
            var next := NextInRange(space, r.min, r.max);
            && (Allocate(spec, entries).Ok? ==> next == Ok(Allocate(spec, entries).value))
            && (Allocate(spec, entries).Err? && next.Ok? <==> r.exhausted && r.max !in space)
  {
    var raw := Raw(spec, entries);
    var sorted, r := SortDedup(raw), Reported(spec, entries);
    SortDedupSpec(raw);
    RawBounded(spec, entries);
    SortDedupEmpty(raw);
    if sorted != [] {
      WindowExact(sorted, Deciding(spec, entries));
      WindowAgrees(raw, sorted, WindowOf(sorted, Deciding(spec, entries)));
    }
  }

  lemma WindowAgrees(space: seq<nat>, sorted: seq<nat>, w: Window)
    requires WindowFits(sorted, w) && forall n :: n in sorted <==> n in space
    ensures var next := NextInRange(space, w.min, w.max);
            if !Exhausted(w) then next == Ok(w.next) else next.Ok? <==> w.max !in space
  {
    NextInRangeExact(space, w.min, w.max);
    MaxWithinSpec(space, w.min, w.max);
    assert w.block.1 in sorted;
  }

  // ----- where the allocators disagree -----

  function Digit(d: nat): char
    requires d < 10
  {
    ('0' as int + d) as char
  }

  /** The text of `k` thousand. */
  function Thousands(k: nat): string
    requires 10 <= k < 100
  {
    [Digit(k / 10), Digit(k % 10), '0', '0', '0']
  }

  lemma DigitsSnoc(s: string, n: nat, d: nat)
    requires d < 10 && DigitsValue(s) == Some(n)
    ensures DigitsValue(s + [Digit(d)]) == Some(10 * n + d)
  {
    assert (s + [Digit(d)])[..|s|] == s;
  }

  lemma ThousandsValue(k: nat)
    requires 10 <= k < 100
    ensures DigitsValue(Thousands(k)) == Some(1000 * k)
  {
    var a, b := k / 10, k % 10;
    assert Digit(0) == '0' && "" + [Digit(a)] == [Digit(a)];
    DigitsSnoc("", 0, a);
    DigitsSnoc([Digit(a)], a, b);
    assert [Digit(a)] + [Digit(b)] == [Digit(a), Digit(b)];
    DigitsSnoc([Digit(a), Digit(b)], k, 0);
    assert [Digit(a), Digit(b)] + ['0'] == [Digit(a), Digit(b), '0'];
    DigitsSnoc([Digit(a), Digit(b), '0'], 10 * k, 0);
    assert [Digit(a), Digit(b), '0'] + ['0'] == [Digit(a), Digit(b), '0', '0'];
    DigitsSnoc([Digit(a), Digit(b), '0', '0'], 100 * k, 0);
    assert [Digit(a), Digit(b), '0', '0'] + ['0'] == Thousands(k);
  }

  lemma ThousandsRead(k: nat)
    requires 10 <= k < 100
    ensures ParseUnsigned(Trim(Thousands(k)), U32_MAX) == Some(1000 * k)
  {
    ThousandsValue(k);
    TrimNoSpaces(Thousands(k));
  }

  function ThousandTexts(from: nat, n: nat): seq<string>
    requires 10 <= from && from + n <= 100
  {
    seq(n, i requires 0 <= i < n => Thousands(from + i))
  }

  function ThousandNumbers(from: nat, n: nat): seq<nat> {
    seq(n, i => 1000 * (from + i))
  }

  lemma {:induction false} ThousandsParse(from: nat, n: nat)
    requires 10 <= from && from + n <= 100
    ensures ParseAll(ThousandTexts(from, n)) == ThousandNumbers(from, n)
    decreases n
  {
    if n > 0 {
      ThousandsRead(from);
      ThousandsParse(from + 1, n - 1);
      ThousandsNext(from, n);
    }
  }

  lemma ThousandsNext(from: nat, n: nat)
    requires 10 <= from && from + n <= 100 && n > 0
    ensures ThousandTexts(from, n)[0] == Thousands(from)
    ensures ThousandTexts(from, n)[1..] == ThousandTexts(from + 1, n - 1)
    ensures [1000 * from] + ThousandNumbers(from + 1, n - 1) == ThousandNumbers(from, n)
  {
  }

  /** Numbers no further apart than the gap form one block. */
  lemma {:induction false} CloseIsOneBlock(s: seq<nat>)
    requires s != [] && forall i :: 0 <= i < |s| - 1 ==> s[i] < s[i + 1] <= s[i] + BLOCK_GAP
    ensures Blocks(s) == [(s[0], s[|s| - 1])]
  {
    var init := s[..|s| - 1];
    if |s| > 1 {
      CloseIsOneBlock(init);
      assert Blocks(s) == Extend([(s[0], s[|s| - 2])], s[|s| - 1]);
    } else {
      assert Blocks(init) == [];
    }
  }

  /** One entry that carries 51000, 52000, ... and 61000. */
  function Crowded(dn: string): SampleEntry {
    SampleEntry(dn, [("uidNumber", ThousandTexts(51, 11))])
  }

  lemma OneEntrySpace(spec: RangeSpec, e: SampleEntry, ns: seq<nat>)
    requires spec.attr == "uidNumber" && !spec.unified && Nums(e, "uidNumber") == ns
    ensures Raw(spec, [e]) == ns
  {
    assert [e][..0] == [] && Raw(spec, []) + ns == ns;
  }

  lemma SortedStays(ns: seq<nat>)
    requires StrictlySorted(ns)
    ensures SortDedup(ns) == ns
  {
    SortDedupSpec(ns);
    SortedUnique(SortDedup(ns), ns);
  }

  lemma ThousandsSorted(from: nat, n: nat)
    ensures StrictlySorted(ThousandNumbers(from, n))
  {
  }

  lemma CrowdedSpace(spec: RangeSpec, dn: string)
    requires spec.attr == "uidNumber" && !spec.unified
    ensures Raw(spec, [Crowded(dn)]) == ThousandNumbers(51, 11)
    ensures SortDedup(ThousandNumbers(51, 11)) == ThousandNumbers(51, 11)
  {
    ThousandsParse(51, 11);
    assert Crowded(dn).Values("uidNumber") == ThousandTexts(51, 11);
    OneEntrySpace(spec, Crowded(dn), ThousandNumbers(51, 11));
    ThousandsSorted(51, 11);
    SortedStays(ThousandNumbers(51, 11));
  }

  lemma CrowdedWindow(vals: seq<nat>)
    ensures StrictlySorted(ThousandNumbers(51, 11))
    ensures var w := WindowOf(ThousandNumbers(51, 11), vals);
            w.min == 51000 && w.max == 60999 && w.next == 61001
  {
    var ns := ThousandNumbers(51, 11);
    CloseIsOneBlock(ns);
    assert ns[0] == 51000 && ns[10] == 61000;
    assert Choose([(51000, 61000)], vals) == 0;
  }

  lemma NextAbove(ns: seq<nat>, min: nat, max: nat, m: nat)
    requires m in ns && min <= m < max <= U32_MAX && forall n :: n in ns && n <= max ==> n <= m
    ensures NextInRange(ns, min, max) == Ok(m + 1)
  {
    MaxWithinSpec(ns, min, max);
  }

  lemma CrowdedNext()
    ensures NextInRange(ThousandNumbers(51, 11), 51000, 60999) == Ok(60001)
  {
    var ns := ThousandNumbers(51, 11);
    assert ns[9] == 60000;
    forall n | n in ns && n <= 60999 ensures n <= 60000 {
      var i :| 0 <= i < 11 && ns[i] == n;
      assert n == 1000 * (51 + i);
    }
    NextAbove(ns, 51000, 60999, 60000);
  }

  /** An example: the used numbers reach to 61000, over the window from 51000 to 60999. One allocator refuses,
      the other hands out 60001. */
  lemma AllocatorsDisagree(spec: RangeSpec, dn: string)
    requires spec.attr == "uidNumber" && !spec.unified
    ensures var entries := [Crowded(dn)];
            var r := Reported(spec, entries);
            && Allocate(spec, entries) == Err(PoolExhausted(51000, 60999))
            && NextInRange(Raw(spec, entries), r.min, r.max) == Ok(60001)
  {
    CrowdedSpace(spec, dn);
    CrowdedWindow(Deciding(spec, [Crowded(dn)]));
    CrowdedNext();
  }

  // ----- repeated allocation -----

  lemma {:induction false} CountMonotone(vals: seq<nat>, a: Block, b: Block)
    requires b.0 <= a.0 && a.1 <= b.1
    ensures Count(vals, a) <= Count(vals, b)
  {
    if vals != [] { CountMonotone(vals[..|vals| - 1], a, b); }
  }

  lemma CountSnoc(vals: seq<nat>, n: nat, b: Block)
    ensures Count(vals + [n], b) == Count(vals, b) + if InBlock(b, n) then 1 else 0
  {
    assert (vals + [n])[..|vals|] == vals;
  }

  ghost predicate Plus(s: seq<nat>, n: nat, t: seq<nat>) {
    forall x :: x in t <==> x in s || x == n
  }

  lemma NoSuccessorAbove(s: seq<nat>, blocks: seq<Block>, i: nat, n: nat, t: seq<nat>)
    requires IsPartition(s, blocks) && i < |blocks| && Plus(s, n, t)
    requires n <= blocks[i].1 || blocks[i].1 + BLOCK_GAP < n
    ensures !HasSuccessor(t, blocks[i].1)
  {
    forall u | u in t && blocks[i].1 < u ensures blocks[i].1 + BLOCK_GAP < u {
      if u in s { GapAbove(s, blocks, i, u); }
    }
  }

  /** After a number is added, a block without it still lies inside one old block. */
  lemma OldBlockAround(s: seq<nat>, blocks: seq<Block>, n: nat, t: seq<nat>, c: Block) returns (i: nat)
    requires IsPartition(s, blocks) && Plus(s, n, t) && IsRun(t, c) && !InBlock(c, n)
    ensures i < |blocks| && blocks[i].0 <= c.0 && c.1 <= blocks[i].1
  {
    assert Covered(blocks, c.0);
    i :| 0 <= i < |blocks| && InBlock(blocks[i], c.0);
    assert IsRun(s, blocks[i]);
    if blocks[i].1 < c.1 {
      GapAbove(s, blocks, i, c.1);
      NoSuccessorAbove(s, blocks, i, n, t);
    }
  }

  /** The block that holds the number handed out swallows the block it came from. */
  lemma BlockGrows(s: seq<nat>, b: Block, t: seq<nat>, blocks: seq<Block>, j: nat)
    requires IsRun(s, b) && b.1 + 1 !in s && Plus(s, b.1 + 1, t)
    requires IsPartition(t, blocks) && j < |blocks| && InBlock(blocks[j], b.1 + 1)
    ensures blocks[j].0 <= b.0
  {
    assert Covered(blocks, b.0);
    var i :| 0 <= i < |blocks| && InBlock(blocks[i], b.0);
    assert IsRun(t, blocks[i]);
    if i < j {
      assert blocks[i].1 + BLOCK_GAP < blocks[j].0;
      RunReaches(s, b, t, blocks[i].1);
      NoSuccessorAbove(t, blocks, i, blocks[i].0, t);
    }
  }

  lemma RunReaches(s: seq<nat>, b: Block, t: seq<nat>, e: nat)
    requires IsRun(s, b) && Plus(s, b.1 + 1, t) && e in t && b.0 <= e <= b.1
    ensures HasSuccessor(t, e)
  {
    if e == b.1 {
      assert b.1 + 1 in t;
    } else {
      assert HasSuccessor(s, e);
      var u :| u in s && e < u <= e + BLOCK_GAP;
      assert u in t;
    }
  }

  /** Handing out `b.1 + 1` from the best block `b` and counting it as an own value keeps the
      profile in the block that now holds it. */
  lemma ChosenFollows(s: seq<nat>, blocks: seq<Block>, vals: seq<nat>, k: nat,
                      t: seq<nat>, newBlocks: seq<Block>, newVals: seq<nat>)
    requires IsPartition(s, blocks) && k < |blocks| && IsPartition(t, newBlocks) && newBlocks != []
    requires var n := blocks[k].1 + 1; n !in s && Plus(s, n, t)
    requires forall j :: 0 <= j < |blocks| ==> Count(vals, blocks[j]) <= Count(vals, blocks[k])
    requires newVals == vals + [blocks[k].1 + 1] || newVals == [blocks[k].1 + 1]
    ensures InBlock(newBlocks[Choose(newBlocks, newVals)], blocks[k].1 + 1)
  {
    var n, c := blocks[k].1 + 1, Choose(newBlocks, newVals);
    assert n in t && Covered(newBlocks, n);
    var j :| 0 <= j < |newBlocks| && InBlock(newBlocks[j], n);
    assert IsRun(s, blocks[k]);
    BlockGrows(s, blocks[k], t, newBlocks, j);
    CountMonotone(vals, blocks[k], newBlocks[j]);
    if !InBlock(newBlocks[c], n) {
      assert IsRun(t, newBlocks[c]);
      var i := OldBlockAround(s, blocks, n, t, newBlocks[c]);
      CountMonotone(vals, newBlocks[c], blocks[i]);
      CountSnoc(vals, n, newBlocks[c]);
      CountSnoc(vals, n, newBlocks[j]);
      CountSnoc([], n, newBlocks[c]);
      CountSnoc([], n, newBlocks[j]);
      assert [] + [n] == [n];
      assert Better(newVals, newBlocks[j], newBlocks[c]);
      ChooseIsBest(newBlocks, newVals);
    }
  }

  /** `e` carries the number `n`: it brings no other new number, and `n` counts as the profile's own. */
  ghost predicate Carries(spec: RangeSpec, entries: seq<SampleEntry>, e: SampleEntry, n: nat) {
    && Counted(spec, e, n)
    && (forall x :: Counted(spec, e, x) ==> x == n || InUse(spec, entries, x))
    && Mine(spec, entries + [e]) == Mine(spec, entries) + [(n, e.dn)]
  }

  lemma FirstsSnoc(mine: seq<(nat, string)>, n: nat, dn: string)
    ensures Firsts(mine + [(n, dn)]) == Firsts(mine) + [n]
  {
  }

  lemma SpaceGrows(spec: RangeSpec, entries: seq<SampleEntry>, e: SampleEntry, n: nat)
    requires Carries(spec, entries, e, n)
    ensures Plus(SortDedup(Raw(spec, entries)), n, SortDedup(Raw(spec, entries + [e])))
  {
    SortDedupSpec(Raw(spec, entries));
    SortDedupSpec(Raw(spec, entries + [e]));
    forall x ensures x in Raw(spec, entries + [e]) <==> x in Raw(spec, entries) || x == n {
      SpaceExact(spec, entries, x);
      SpaceExact(spec, entries + [e], x);
      InUseSnoc(spec, entries, e, x);
    }
  }

  /** Two allocations in a row: the number was free and valid, and the next one is higher. */
  lemma NextAllocationIsHigher(spec: RangeSpec, entries: seq<SampleEntry>, e: SampleEntry)
    requires Allocate(spec, entries).Ok? && Carries(spec, entries, e, Allocate(spec, entries).value)
    ensures var n, again := Allocate(spec, entries).value, Allocate(spec, entries + [e]);
            !InUse(spec, entries, n) && n <= U32_MAX && (again.Ok? ==> n < again.value)
  {
    var n := Allocate(spec, entries).value;
    var raw, raw' := Raw(spec, entries), Raw(spec, entries + [e]);
    SortDedupSpec(raw);
    SortDedupSpec(raw');
    SortDedupEmpty(raw);
    RawBounded(spec, entries);
    RawBounded(spec, entries + [e]);
    SpaceGrows(spec, entries, e, n);
    DecidingGrows(spec, entries, e, n);
    AllocateIs(spec, entries);
    AllocateIs(spec, entries + [e]);
    if raw != [] { WindowExact(SortDedup(raw), Deciding(spec, entries)); }
    assert n in SortDedup(raw');
    SpaceExact(spec, entries, n);
    NextWindowIsHigher(SortDedup(raw), Deciding(spec, entries), n, SortDedup(raw'), Deciding(spec, entries + [e]));
  }

  lemma DecidingGrows(spec: RangeSpec, entries: seq<SampleEntry>, e: SampleEntry, n: nat)
    requires Carries(spec, entries, e, n)
    ensures var after := Deciding(spec, entries + [e]);
            after == [n] || after == Deciding(spec, entries) + [n]
  {
    FirstsSnoc(Mine(spec, entries), n, e.dn);
    if Mine(spec, entries) == [] {
      assert Firsts([]) + [n] == [n];
    }
  }

  lemma AllocateIs(spec: RangeSpec, entries: seq<SampleEntry>)
    ensures StrictlySorted(SortDedup(Raw(spec, entries)))
    ensures Allocate(spec, entries).Ok? ==>
              var s := SortDedup(Raw(spec, entries));
              if s == [] then Allocate(spec, entries).value == ASSUMED_MIN
              else var w := WindowOf(s, Deciding(spec, entries));
                   Allocate(spec, entries).value == w.next && w.next <= w.max
  {
    SortDedupSpec(Raw(spec, entries));
  }

  lemma NextWindowIsHigher(s: seq<nat>, vals: seq<nat>, n: nat, t: seq<nat>, newVals: seq<nat>)
    requires StrictlySorted(s) && StrictlySorted(t) && t != [] && Plus(s, n, t)
    requires forall x :: x in t ==> x <= U32_MAX
    requires s != [] ==> n == WindowOf(s, vals).next
    requires s != [] ==> newVals == [n] || newVals == vals + [n]
    ensures n < WindowOf(t, newVals).next
  {
    NextAfterChosen(t, newVals);
    BlocksPartition(t);
    if s == [] {
      BlockOfOnly(t, Blocks(t), Choose(Blocks(t), newVals), n);
    } else {
      ChosenHoldsNext(s, vals, n, t, newVals);
    }
  }

  lemma ChosenHoldsNext(s: seq<nat>, vals: seq<nat>, n: nat, t: seq<nat>, newVals: seq<nat>)
    requires StrictlySorted(s) && s != [] && Plus(s, n, t) && n == WindowOf(s, vals).next
    requires IsPartition(t, Blocks(t)) && Blocks(t) != []
    requires newVals == [n] || newVals == vals + [n]
    ensures InBlock(Blocks(t)[Choose(Blocks(t), newVals)], n)
  {
    NextAfterChosen(s, vals);
    BlocksPartition(s);
    var blocks := Blocks(s);
    var k := Choose(blocks, vals);
    ChosenHasMost(blocks, vals);
    NextIsFree(s, blocks, k);
    ChosenFollows(s, blocks, vals, k, t, Blocks(t), newVals);
  }

  lemma NextAfterChosen(sorted: seq<nat>, vals: seq<nat>)
    requires StrictlySorted(sorted) && sorted != []
    ensures Blocks(sorted) != []
    ensures WindowOf(sorted, vals).next == Blocks(sorted)[Choose(Blocks(sorted), vals)].1 + 1
  {
    BlocksPartition(sorted);
    assert Covered(Blocks(sorted), sorted[0]);
  }

  lemma ChosenHasMost(blocks: seq<Block>, vals: seq<nat>)
    requires blocks != []
    ensures forall j :: 0 <= j < |blocks| ==> Count(vals, blocks[j]) <= Count(vals, blocks[Choose(blocks, vals)])
  {
    ChooseIsBest(blocks, vals);
    forall j | 0 <= j < |blocks| ensures Count(vals, blocks[j]) <= Count(vals, blocks[Choose(blocks, vals)]) {
      assert !Better(vals, blocks[j], blocks[Choose(blocks, vals)]);
    }
  }

  lemma BlockOfOnly(t: seq<nat>, blocks: seq<Block>, c: nat, n: nat)
    requires IsPartition(t, blocks) && c < |blocks| && Plus([], n, t)
    ensures blocks[c] == (n, n)
  {
    assert IsRun(t, blocks[c]);
  }

  /** `n` is handed out over `entries`, and `e`, created for it, carries it. */
  ghost predicate HandsOut(spec: RangeSpec, entries: seq<SampleEntry>, e: SampleEntry, n: nat) {
    Allocate(spec, entries) == Ok(n) && Carries(spec, entries, e, n)
  }

  /** A history of allocations: number `i` is handed out with the first `i` new entries present. */
  ghost predicate IsHistory(spec: RangeSpec, entries: seq<SampleEntry>, added: seq<SampleEntry>, ns: seq<nat>) {
    && |ns| == |added|
    && forall i {:trigger HandsOut(spec, entries + added[..i], added[i], ns[i])} ::
         0 <= i < |ns| ==> HandsOut(spec, entries + added[..i], added[i], ns[i])
  }

  lemma TakeSnoc<T>(a: seq<T>, b: seq<T>, j: nat)
    requires j < |b|
    ensures a + b[..j] + [b[j]] == a + b[..j + 1]
  {
  }

  /** However long it goes on and whichever blocks merge on the way: the numbers handed out strictly
      increase, and each was free and a valid 32-bit number when it was handed out. */
  lemma AllocationRun(spec: RangeSpec, entries: seq<SampleEntry>, added: seq<SampleEntry>, ns: seq<nat>, i: nat, j: nat)
    requires IsHistory(spec, entries, added, ns) && i < j < |ns|
    ensures ns[i] < ns[j]
    ensures !InUse(spec, entries + added[..j], ns[j]) && ns[j] <= U32_MAX
  {
    HistoryStep(spec, entries, added, ns, j);
    forall k | 0 <= k < |ns| - 1 ensures ns[k] < ns[k + 1] {
      HistoryStep(spec, entries, added, ns, k);
    }
    StepsIncrease(ns, i, j);
  }

  lemma {:induction false} StepsIncrease(ns: seq<nat>, i: nat, j: nat)
    requires i < j < |ns| && forall k :: 0 <= k < |ns| - 1 ==> ns[k] < ns[k + 1]
    ensures ns[i] < ns[j]
  {
    if i + 1 < j { StepsIncrease(ns, i, j - 1); }
    assert ns[j - 1] < ns[j - 1 + 1];
  }

  lemma HistoryStep(spec: RangeSpec, entries: seq<SampleEntry>, added: seq<SampleEntry>, ns: seq<nat>, j: nat)
    requires IsHistory(spec, entries, added, ns) && j < |ns|
    ensures !InUse(spec, entries + added[..j], ns[j]) && ns[j] <= U32_MAX
    ensures j + 1 < |ns| ==> ns[j] < ns[j + 1]
  {
    var all := entries + added[..j];
    assert HandsOut(spec, all, added[j], ns[j]);
    TakeSnoc(entries, added, j);
    assert j + 1 < |ns| ==> HandsOut(spec, entries + added[..j + 1], added[j + 1], ns[j + 1]);
    NextAllocationIsHigher(spec, all, added[j]);
  }

  // ----- entries that carry their number -----

  lemma {:induction false} OwnUnaffected(spec: RangeSpec, entries: seq<SampleEntry>, e: SampleEntry,
                                         some: seq<SampleEntry>)
    requires !spec.excludePrivate || !e.HasClass("posixAccount")
    ensures OwnAmong(spec, entries + [e], some) == OwnAmong(spec, entries, some)
  {
    if some != [] {
      OwnUnaffected(spec, entries, e, some[..|some| - 1]);
      var g := some[|some| - 1];
      assert IsPrivateIn(entries + [e], g) <==> IsPrivateIn(entries, g) || IsPrivateGroup(g, e);
    }
  }

  /** The numbers `e` lists under the attribute of `spec` are among those in use. */
  predicate CountsUnder(spec: RangeSpec, e: SampleEntry) {
    if spec.unified then
      EqCi(spec.attr, "gidNumber") || (EqCi(spec.attr, "uidNumber") && e.HasClass("posixAccount"))
    else EqCi(spec.attr, "uidNumber") || !e.HasClass("posixAccount")
  }

  lemma CountsUnderMeans(spec: RangeSpec, e: SampleEntry, n: nat)
    requires CountsUnder(spec, e) && HasNumber(e, spec.attr, n)
    ensures Counted(spec, e, n)
  {
    if EqCi(spec.attr, "uidNumber") { FindCase(e.attrs, spec.attr, "uidNumber"); }
    if EqCi(spec.attr, "gidNumber") { FindCase(e.attrs, spec.attr, "gidNumber"); }
  }

  /** A new entry in the profile's container and class whose only number of the attribute is `n`
      carries it, if its other numbers are in use already. */
  lemma NewEntryCarries(spec: RangeSpec, entries: seq<SampleEntry>, e: SampleEntry, n: nat)
    requires IsOwn(spec, entries + [e], e) && Nums(e, spec.attr) == [n]
    requires !spec.excludePrivate || !e.HasClass("posixAccount")
    requires CountsUnder(spec, e)
    requires forall x :: Counted(spec, e, x) ==> x == n || InUse(spec, entries, x)
    ensures Carries(spec, entries, e, n)
  {
    assert n in Nums(e, spec.attr);
    ParseAllMembers(e.Values(spec.attr), n);
    CountsUnderMeans(spec, e, n);
    assert (entries + [e])[..|entries|] == entries;
    OwnUnaffected(spec, entries, e, entries);
    assert Tagged([n], e.dn) == [(n, e.dn)];
  }

  lemma {:induction false} ChooseSame(blocks: seq<Block>, vals: seq<nat>, newVals: seq<nat>)
    requires blocks != []
    requires forall i :: 0 <= i < |blocks| ==> Count(vals, blocks[i]) == Count(newVals, blocks[i])
    ensures Choose(blocks, vals) == Choose(blocks, newVals)
  {
    var n := |blocks| - 1;
    if n > 0 {
      forall i | 0 <= i < n ensures Count(vals, blocks[..n][i]) == Count(newVals, blocks[..n][i]) {
        assert blocks[..n][i] == blocks[i];
      }
      ChooseSame(blocks[..n], vals, newVals);
    }
  }

  lemma SameWindow(s: seq<nat>, vals: seq<nat>, n: nat)
    requires StrictlySorted(s) && s != [] && n == WindowOf(s, vals).next
    ensures WindowOf(s, vals + [n]) == WindowOf(s, vals)
  {
    NextAfterChosen(s, vals);
    BlocksPartition(s);
    var blocks, k := Blocks(s), Choose(Blocks(s), vals);
    forall i | 0 <= i < |blocks| ensures Count(vals, blocks[i]) == Count(vals + [n], blocks[i]) {
      CountSnoc(vals, n, blocks[i]);
      assert IsRun(s, blocks[i]) && IsRun(s, blocks[k]);
      assert k < i ==> blocks[k].1 + BLOCK_GAP < blocks[i].0;
      assert i < k ==> blocks[i].1 + BLOCK_GAP < blocks[k].0;
    }
    ChooseSame(blocks, vals, vals + [n]);
  }

  /** A number outside all blocks decides for the lowest block. */
  lemma FreeDecidesLow(s: seq<nat>, vals: seq<nat>, n: nat)
    requires StrictlySorted(s) && s != [] && n == WindowOf(s, vals).next
    ensures WindowOf(s, [n]).next <= n
  {
    NextAfterChosen(s, vals);
    NextAfterChosen(s, [n]);
    BlocksPartition(s);
    var blocks := Blocks(s);
    var k, c := Choose(blocks, vals), Choose(blocks, [n]);
    forall i | 0 <= i < |blocks| ensures Count([n], blocks[i]) == 0 {
      FreeIsNowhere(s, blocks, k, i, n);
      assert [n][..0] == [];
    }
    ChooseIsBest(blocks, [n]);
    assert !Better([n], blocks[k], blocks[c]);
    assert IsRun(s, blocks[k]) && IsRun(s, blocks[c]);
  }

  lemma FreeIsNowhere(s: seq<nat>, blocks: seq<Block>, k: nat, i: nat, n: nat)
    requires IsPartition(s, blocks) && k < |blocks| && i < |blocks| && n == blocks[k].1 + 1
    ensures !InBlock(blocks[i], n)
  {
    assert IsRun(s, blocks[i]) && IsRun(s, blocks[k]);
    assert k < i ==> blocks[k].1 + BLOCK_GAP < blocks[i].0;
    assert i < k ==> blocks[i].1 + BLOCK_GAP < blocks[k].0;
  }

  /** The new entry is the profile's own by `n`, and brings no other new number. */
  ghost predicate OwnBy(spec: RangeSpec, entries: seq<SampleEntry>, e: SampleEntry, n: nat) {
    && (forall x :: Counted(spec, e, x) ==> x == n || InUse(spec, entries, x))
    && Mine(spec, entries + [e]) == Mine(spec, entries) + [(n, e.dn)]
  }

  lemma SpaceStays(spec: RangeSpec, entries: seq<SampleEntry>, e: SampleEntry, n: nat)
    requires OwnBy(spec, entries, e, n) && !Counted(spec, e, n)
    ensures SortDedup(Raw(spec, entries + [e])) == SortDedup(Raw(spec, entries))
  {
    forall x ensures x in Raw(spec, entries + [e]) <==> x in Raw(spec, entries) {
      SpaceExact(spec, entries, x);
      SpaceExact(spec, entries + [e], x);
      InUseSnoc(spec, entries, e, x);
    }
    SortDedupSpec(Raw(spec, entries));
    SortDedupSpec(Raw(spec, entries + [e]));
    SortedUnique(SortDedup(Raw(spec, entries + [e])), SortDedup(Raw(spec, entries)));
  }

  lemma UncountedStays(spec: RangeSpec, entries: seq<SampleEntry>, e: SampleEntry)
    requires Allocate(spec, entries).Ok? && OwnBy(spec, entries, e, Allocate(spec, entries).value)
    requires !Counted(spec, e, Allocate(spec, entries).value)
    ensures var n, again := Allocate(spec, entries).value, Allocate(spec, entries + [e]);
            && (again.Ok? ==> again.value <= n)
            && (Mine(spec, entries) != [] || SortDedup(Raw(spec, entries)) == [] ==> again == Ok(n))
  {
    var n := Allocate(spec, entries).value;
    var s := SortDedup(Raw(spec, entries));
    SpaceStays(spec, entries, e, n);
    AllocateIs(spec, entries);
    AllocateIs(spec, entries + [e]);
    FirstsSnoc(Mine(spec, entries), n, e.dn);
    if s != [] {
      if Mine(spec, entries) != [] {
        SameWindow(s, Deciding(spec, entries), n);
      } else {
        assert Firsts([]) + [n] == [n];
        FreeDecidesLow(s, Deciding(spec, entries), n);
      }
    }
  }

  /** The next number is higher exactly when the entry created with the last one counts it; otherwise
      a number is offered that is no higher, and the very same one to a profile that has entries. */
  lemma UncountedNumberRepeats(spec: RangeSpec, entries: seq<SampleEntry>, e: SampleEntry)
    requires Allocate(spec, entries).Ok? && OwnBy(spec, entries, e, Allocate(spec, entries).value)
    ensures var n, again := Allocate(spec, entries).value, Allocate(spec, entries + [e]);
            && (again.Ok? ==> (n < again.value <==> Counted(spec, e, n)))
            && (!Counted(spec, e, n) && Mine(spec, entries) != [] ==> again == Ok(n))
  {
    if Counted(spec, e, Allocate(spec, entries).value) {
      NextAllocationIsHigher(spec, entries, e);
    } else {
      UncountedStays(spec, entries, e);
    }
  }

  /** When that is so: the number the new entry lists under the profile's attribute counts, except in a separate space
      an account's for another attribute than `uidNumber`, and in a shared one that of whoever is no account. */
  lemma CountsUnlessAccount(spec: RangeSpec, e: SampleEntry, n: nat)
    requires forall x :: HasNumber(e, spec.attr, x) <==> x == n
    requires spec.unified ==>
               EqCi(spec.attr, "gidNumber") || (EqCi(spec.attr, "uidNumber") && !HasNumber(e, "gidNumber", n))
    ensures Counted(spec, e, n) <==> CountsUnder(spec, e)
  {
    if EqCi(spec.attr, "uidNumber") { FindCase(e.attrs, spec.attr, "uidNumber"); }
    if CountsUnder(spec, e) { CountsUnderMeans(spec, e, n); }
  }

  lemma ParentOf(x: string, y: string)
    requires ',' !in x && '\\' !in x && y != "" && !IsSpace(y[0])
    ensures ParentDn(x + ("," + y)) == Some(y)
  {
    ParentExact(x, y);
    assert x + ("," + y) == x + "," + y;
  }

  lemma ParseTenThousand()
    ensures ParseAll(["10000"]) == [10000]
  {
    TrimNoSpaces("10000");
    assert DigitsValue("") == Some(0);
    assert "1"[..0] == "" && "10"[..1] == "1" && "100"[..2] == "10" && "1000"[..3] == "100" && "10000"[..4] == "1000";
    assert DigitsValue("1") == Some(1);
    assert DigitsValue("10") == Some(10);
    assert DigitsValue("100") == Some(100);
    assert DigitsValue("1000") == Some(1000);
    assert DigitsValue("10000") == Some(10000);
    assert ParseAll([]) == [] && ["10000"][1..] == [];
  }

  /** An entry of `structural` class that also is an account, with the number 10000 under `attr`. */
  function NumberedAccount(dn: string, attr: string, structural: string): SampleEntry {
    SampleEntry(dn, [("objectClass", [structural, "posixAccount"]), (attr, ["10000"])])
  }

  /** An example: the group number of an account. The first number is handed out, the entry that got it is
      the profile's own, and the same number is offered again. */
  lemma AccountRepeats(x: string, container: string, structural: string)
    requires ',' !in x && '\\' !in x && container != "" && !IsSpace(container[0])
    requires structural != "" && !IsSpace(structural[0]) && !IsSpace(structural[|structural| - 1])
    ensures var spec := RangeSpec("gidNumber", container, structural, false, true);
            var e := NumberedAccount(x + ("," + container), "gidNumber", structural);
            && Allocate(spec, []) == Ok(10000) && OwnBy(spec, [], e, 10000) && IsOwn(spec, [e], e)
            && Allocate(spec, [e]) == Ok(10000)
  {
    var spec := RangeSpec("gidNumber", container, structural, false, true);
    var e := NumberedAccount(x + ("," + container), "gidNumber", structural);
    ParentOf(x, container);
    AccountNumbers(e, structural);
    NoNumbers(spec);
    OnlyOwn(spec, e);
    UncountedStays(spec, [], e);
  }

  lemma NamelessNotPrivate(e: SampleEntry)
    requires e.First("cn") == None
    ensures !IsPrivateIn([e], e)
  {
  }

  /** What the space and the profile's own numbers are with one uncounted account. */
  lemma OnlyOwn(spec: RangeSpec, e: SampleEntry)
    requires !spec.unified && !EqCi(spec.attr, "uidNumber") && e.First("cn") == None
    requires e.HasClass("posixAccount") && e.HasClass(spec.structural)
    requires e.Parent() == Some(spec.container) && Nums(e, spec.attr) == [ASSUMED_MIN]
    ensures IsOwn(spec, [e], e) && (forall n :: !Counted(spec, e, n)) && OwnBy(spec, [], e, ASSUMED_MIN)
  {
    NamelessNotPrivate(e);
    assert DnEq(spec.container, spec.container);
    OneOwn(spec, e);
  }

  lemma OneOwn(spec: RangeSpec, e: SampleEntry)
    requires IsOwn(spec, [e], e) && (forall n :: !Counted(spec, e, n)) && Nums(e, spec.attr) == [ASSUMED_MIN]
    ensures OwnBy(spec, [], e, ASSUMED_MIN)
  {
    assert [] + [e] == [e] && [e][..0] == [];
    assert Tagged([ASSUMED_MIN], e.dn) == [(ASSUMED_MIN, e.dn)];
    assert OwnAmong(spec, [e], [e]) == OwnAmong(spec, [e], []) + Tagged(Nums(e, spec.attr), e.dn);
    assert Mine(spec, []) == [];
  }

  lemma NoNumbers(spec: RangeSpec)
    ensures SortDedup(Raw(spec, [])) == [] && Mine(spec, []) == [] && Allocate(spec, []) == Ok(ASSUMED_MIN)
  {
  }

  lemma AccountNumbers(e: SampleEntry, structural: string)
    requires e == NumberedAccount(e.dn, "gidNumber", structural)
    requires structural != "" && !IsSpace(structural[0]) && !IsSpace(structural[|structural| - 1])
    ensures e.HasClass(structural) && e.HasClass("posixAccount") && Nums(e, "gidNumber") == [10000]
    ensures !EqCi("gidNumber", "uidNumber") && e.First("cn") == None
  {
    TrimNoSpaces(structural);
    TrimNoSpaces("posixAccount");
    assert |Lower("objectClass")| == 11 && |Lower("gidNumber")| == 9;
    assert |Lower("cn")| == 2;
    assert !EqCi("objectClass", "gidNumber") && !EqCi("objectClass", "cn") && !EqCi("gidNumber", "cn");
    assert Find(e.attrs[1..][1..], "cn") == None;
    assert Find(e.attrs[1..], "cn") == None;
    assert e.Values("objectClass") == [structural, "posixAccount"];
    assert structural in e.Values("objectClass") && "posixAccount" in e.Values("objectClass");
    assert e.attrs[1..] == [("gidNumber", ["10000"])];
    assert Find(e.attrs[1..], "gidNumber") == Some(["10000"]);
    assert Find(e.attrs, "gidNumber") == Find(e.attrs[1..], "gidNumber");
    assert e.Values("gidNumber") == ["10000"];
    ParseTenThousand();
    assert Lower("gidNumber")[0] == 'g' && Lower("uidNumber")[0] == 'u';
  }
}
