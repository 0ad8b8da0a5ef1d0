/** `config/defaults.rs`, live templates: each templated field belongs either to its template or to
    the operator, and every pass over the form re-decides which and refreshes the template's fields. */
module LiveTemplates {
  import opened Text
  import opened Tables

  datatype Seg = Lit(text: string) | Field(name: string)

  datatype Latch = Latch(segs: seq<Seg>, auto: bool, lastWritten: string)

  type Latches = Table<Latch>

  /** The form's fields: label and values. */
  type Form = Table<seq<string>>

  /** Shown in a number field while its scan is pending. */
  const ALLOC_PLACEHOLDER: string := "\U{2039}allocating\U{2026}\U{203A}"

  function FirstValue(form: Form, attr: string): string {
    match Find(form, attr)
    case None => ""
    case Some(vs) => if vs == [] then "" else vs[0]
  }

  /** What a `{field}` contributes: its trimmed first value, unless blank or still being allocated. */
  function Source(form: Form, name: string): Option<string> {
    var v := Trim(FirstValue(form, name));
    if v == "" || v == ALLOC_PLACEHOLDER then None else Some(v)
  }

  function ResolveTemplate(segs: seq<Seg>, form: Form): Option<string> {
    if segs == [] then Some("")
    else
      var head := match segs[0] case Lit(s) => Some(s) case Field(name) => Source(form, name);
      match (head, ResolveTemplate(segs[1..], form))
      case (Some(a), Some(b)) => Some(a + b)
      case _ => None
  }

  /** The field has a first value that is neither blank nor the sign of a pending scan. */
  predicate HasSource(form: Form, name: string) {
    && Find(form, name).Some? && Find(form, name).value != []
    && Trim(Find(form, name).value[0]) != "" && Trim(Find(form, name).value[0]) != ALLOC_PLACEHOLDER
  }

  /** And `text` is that value, trimmed. */
  predicate Fills(form: Form, name: string, text: string) {
    HasSource(form, name) && text == Trim(Find(form, name).value[0])
  }

  /** What one segment contributes. */
  predicate IsPart(seg: Seg, form: Form, text: string) {
    match seg case Lit(s) => text == s case Field(name) => Fills(form, name, text)
  }

  /** Every field the template names can be filled in. */
  predicate Complete(segs: seq<Seg>, form: Form) {
    forall seg :: seg in segs && seg.Field? ==> HasSource(form, seg.name)
  }

  /** Segment `i` contributes the stretch from `cuts[i]` to `cuts[i + 1]`. */
  predicate PartAt(segs: seq<Seg>, form: Form, text: string, cuts: seq<nat>, i: nat)
    requires i < |segs| && |cuts| == |segs| + 1
  {
    cuts[i] <= cuts[i + 1] <= |text| && IsPart(segs[i], form, text[cuts[i]..cuts[i + 1]])
  }

  /** `text` is what the segments contribute, one after the other. */
  predicate CutsInto(segs: seq<Seg>, form: Form, text: string, cuts: seq<nat>) {
    && |cuts| == |segs| + 1 && cuts[0] == 0 && cuts[|segs|] == |text|
    && forall i {:trigger PartAt(segs, form, text, cuts, i)} :: 0 <= i < |segs| ==> PartAt(segs, form, text, cuts, i)
  }

  lemma SourceFills(form: Form, name: string)
    ensures Source(form, name).Some? <==> HasSource(form, name)
    ensures Source(form, name).Some? ==> Fills(form, name, Source(form, name).value)
  {
    assert Trim("") == "";
  }

  function ShiftedBy(cuts: seq<nat>, n: nat): seq<nat> {
    [0] + seq(|cuts|, i requires 0 <= i < |cuts| => n + cuts[i])
  }

  lemma ShiftedCuts(cuts: seq<nat>, n: nat, i: nat)
    requires i < |cuts|
    ensures ShiftedBy(cuts, n)[i + 1] == n + cuts[i]
  {
  }

  lemma CutAt(segs: seq<Seg>, form: Form, head: string, rest: string, cuts: seq<nat>, i: nat)
    requires segs != [] && IsPart(segs[0], form, head) && CutsInto(segs[1..], form, rest, cuts) && i < |segs|
    ensures PartAt(segs, form, head + rest, ShiftedBy(cuts, |head|), i)
  {
    ShiftedCuts(cuts, |head|, i);
    if i == 0 {
      assert (head + rest)[0..|head|] == head;
    } else {
      assert segs[i] == segs[1..][i - 1] && PartAt(segs[1..], form, rest, cuts, i - 1);
      ShiftedCuts(cuts, |head|, i - 1);
      StretchOf(head, rest, cuts[i - 1], cuts[i]);
    }
  }

  lemma CutsFirst(segs: seq<Seg>, form: Form, head: string, rest: string, cuts: seq<nat>)
    requires segs != [] && IsPart(segs[0], form, head) && CutsInto(segs[1..], form, rest, cuts)
    ensures CutsInto(segs, form, head + rest, ShiftedBy(cuts, |head|))
  {
    var text, all := head + rest, ShiftedBy(cuts, |head|);
    ShiftedCuts(cuts, |head|, |segs| - 1);
    assert |cuts| == |segs| && all[|segs|] == |text| && all[0] == 0;
    forall i | 0 <= i < |segs| ensures PartAt(segs, form, text, all, i) {
      CutAt(segs, form, head, rest, cuts, i);
    }
  }

  lemma StretchOf(head: string, rest: string, lo: nat, hi: nat)
    requires lo <= hi <= |rest|
    ensures (head + rest)[|head| + lo..|head| + hi] == rest[lo..hi]
  {
  }

  /** A template renders exactly when every field it names has a value to give; the text is then its segments in order,
      literals as they stand and fields by their trimmed first values. */
  lemma {:induction false} ResolvesInOrder(segs: seq<Seg>, form: Form) returns (cuts: seq<nat>)
    ensures ResolveTemplate(segs, form).Some? <==> Complete(segs, form)
    ensures ResolveTemplate(segs, form).Some? ==> CutsInto(segs, form, ResolveTemplate(segs, form).value, cuts)
  {
    cuts := [0];
    if segs != [] {
      var rest := ResolvesInOrder(segs[1..], form);
      assert segs == [segs[0]] + segs[1..];
      if segs[0].Field? { SourceFills(form, segs[0].name); }
      if ResolveTemplate(segs, form).Some? {
        var head := if segs[0].Lit? then segs[0].text else Source(form, segs[0].name).value;
        cuts := ShiftedBy(rest, |head|);
        CutsFirst(segs, form, head, ResolveTemplate(segs[1..], form).value, rest);
      }
    }
  }

  method Resolve(segs: seq<Seg>, form: Form) returns (r: Option<string>)
    ensures r == ResolveTemplate(segs, form)
    ensures r.Some? <==> Complete(segs, form)
    ensures r.Some? ==> exists cuts :: CutsInto(segs, form, r.value, cuts)
  {
    ghost var cuts := ResolvesInOrder(segs, form);
    var out := "";
    ghost var whole := ResolveTemplate(segs, form);
    assert whole.Some? ==> "" + whole.value == whole.value;
    for i := 0 to |segs|
      invariant ResolveTemplate(segs, form) == Prepend(out, ResolveTemplate(segs[i..], form))
    {
      ghost var rest := ResolveTemplate(segs[i + 1..], form);
      assert segs[i..][1..] == segs[i + 1..];
      match segs[i] {
        case Lit(s) =>
          PrependTwice(out, s, rest);
          out := out + s;
        case Field(name) =>
          match Source(form, name) {
            case None => return None;
            case Some(v) =>
              PrependTwice(out, v, rest);
              out := out + v;
          }
      }
    }
    assert out + "" == out;
    r := Some(out);
  }

  ghost function Prepend(a: string, b: Option<string>): Option<string> {
    match b case None => None case Some(t) => Some(a + t)
  }

  lemma PrependTwice(a: string, b: string, c: Option<string>)
    ensures Prepend(a, Prepend(b, c)) == Prepend(a + b, c)
  {
    if c.Some? { assert a + (b + c.value) == a + b + c.value; }
  }

  /** Ownership: a value we did not write belongs to the operator, an emptied field to the template. */
  function Own(st: Latch, value: string): Latch {
    if value != st.lastWritten then st.(auto := value == "") else st
  }

  /** One target in one pass, given its value and what its template renders to. */
  function StepCell(st0: Latch, value: string, out: Option<string>): (Latch, Option<string>) {
    var st := Own(st0, value);
    if !st.auto then (st, None)
    else
      match out
      case Some(text) => if text != value then (st.(lastWritten := text), Some(text)) else (st, None)
      case None => if value != "" then (st.(lastWritten := ""), Some("")) else (st, None)
  }

  /** The new latch and the value to write, if any. */
  function StepLatch(st: Latch, form: Form, attr: string): (Latch, Option<string>) {
    StepCell(st, FirstValue(form, attr), ResolveTemplate(st.segs, form))
  }

  function NextLatches(states: Latches, form: Form): Latches {
    if states == [] then []
    else [(states[0].0, StepLatch(states[0].1, form, states[0].0).0)] + NextLatches(states[1..], form)
  }

  function Changes(states: Latches, form: Form): seq<(string, string)> {
    if states == [] then []
    else WriteOf(states[0].0, StepLatch(states[0].1, form, states[0].0).1) + Changes(states[1..], form)
  }

  function WriteOf(attr: string, write: Option<string>): seq<(string, string)> {
    match write case None => [] case Some(v) => [(attr, v)]
  }

  /** The create form's latches, updated in place. */
  class LatchTable {
    var states: Latches

    constructor (initial: Latches)
      ensures states == initial
    {
      states := initial;
    }

    method RecomputeLive(current: Form) returns (changes: seq<(string, string)>)
      modifies this
      ensures states == NextLatches(old(states), current)
      ensures changes == Changes(old(states), current)
    {
      changes := [];
      for i := 0 to |states|
        invariant |states| == |old(states)| && states[i..] == old(states)[i..]
        invariant states[..i] == NextLatches(old(states)[..i], current)
        invariant changes == Changes(old(states)[..i], current)
      {
        var (attr, st) := states[i];
        assert states[i] == states[i..][0] == old(states)[i];
        PassSnoc(old(states)[..i], attr, st, current);
        assert old(states)[..i + 1] == old(states)[..i] + [(attr, st)];
        var next, write := Refresh(attr, st, current);
        changes := changes + WriteOf(attr, write);
        ghost var before := states[..i];
        ghost var rest := states[i + 1..];
        states := states[i := (attr, next)];
        assert states[..i + 1] == before + [(attr, next)] && states[i + 1..] == rest;
      }
      assert states[..|states|] == states && old(states)[..|states|] == old(states);
    }
  }

  method Refresh(attr: string, st0: Latch, current: Form) returns (st: Latch, write: Option<string>)
    ensures (st, write) == StepLatch(st0, current, attr)
  {
    st, write := st0, None;
    var value := FirstValue(current, attr);
    if value != st.lastWritten {
      st := st.(auto := value == "");
    }
    if !st.auto {
      return;
    }
    var out := Resolve(st.segs, current);
    match out {
      case Some(text) =>
        if text != value {
          st, write := st.(lastWritten := text), Some(text);
        }
      case None =>
        if value != "" {
          st, write := st.(lastWritten := ""), Some("");
        }
    }
  }

  lemma {:induction false} PassSnoc(states: Latches, attr: string, st: Latch, form: Form)
    ensures var (next, write) := StepLatch(st, form, attr);
            && NextLatches(states + [(attr, st)], form) == NextLatches(states, form) + [(attr, next)]
            && Changes(states + [(attr, st)], form)
               == Changes(states, form) + WriteOf(attr, write)
  {
    if states == [] {
      assert states + [(attr, st)] == [(attr, st)];
    } else {
      var all, w := states + [(attr, st)], WriteOf(attr, StepLatch(st, form, attr).1);
      assert all[1..] == states[1..] + [(attr, st)];
      PassSnoc(states[1..], attr, st, form);
      var head := WriteOf(states[0].0, StepLatch(states[0].1, form, states[0].0).1);
      assert Changes(all, form) == head + (Changes(states[1..], form) + w) == head + Changes(states[1..], form) + w;
    }
  }

  // ----- the form around a pass -----

  /** Writes an existing field; a target the form does not show is skipped. */
  function SetField(form: Form, attr: string, v: string): Form {
    if form == [] then []
    else if EqCi(form[0].0, attr) then [(form[0].0, [v])] + form[1..]
    else [form[0]] + SetField(form[1..], attr, v)
  }

  function ApplyChanges(form: Form, changes: seq<(string, string)>): Form
    decreases changes
  {
    if changes == [] then form else ApplyChanges(SetField(form, changes[0].0, changes[0].1), changes[1..])
  }

  function Round(states: Latches, form: Form): (Latches, Form) {
    (NextLatches(states, form), ApplyChanges(form, Changes(states, form)))
  }

  lemma {:induction false} SetFieldValue(form: Form, attr: string, v: string, m: string)
    ensures Find(SetField(form, attr, v), m)
         == if EqCi(attr, m) && Find(form, m).Some? then Some([v]) else Find(form, m)
  {
    if form != [] && !EqCi(form[0].0, attr) { SetFieldValue(form[1..], attr, v, m); }
  }

  lemma {:induction false} NextLatchOf(states: Latches, form: Form, m: string)
    ensures Find(NextLatches(states, form), m)
         == match Find(states, m) case None => None case Some(st) => Some(StepLatch(st, form, m).0)
  {
    if states != [] {
      if EqCi(states[0].0, m) { FindCase(form, states[0].0, m); }
      else { NextLatchOf(states[1..], form, m); }
    }
  }

  lemma {:induction false} NextLatchesNames(states: Latches, form: Form)
    ensures |NextLatches(states, form)| == |states|
    ensures forall i :: 0 <= i < |states| ==> NextLatches(states, form)[i].0 == states[i].0
  {
    if states != [] {
      NextLatchesNames(states[1..], form);
    }
  }

  /** What a pass writes into the field `m`. */
  function Written(states: Latches, form: Form, m: string): Option<string> {
    match Find(states, m)
    case None => None
    case Some(st) => StepLatch(st, form, m).1
  }

  lemma {:induction false} ApplyChangesValue(states: Latches, form0: Form, form: Form, m: string)
    requires UniqueNames(states)
    ensures Find(ApplyChanges(form, Changes(states, form0)), m)
         == if Written(states, form0, m).Some? && Find(form, m).Some? then Some([Written(states, form0, m).value])
            else Find(form, m)
    decreases states
  {
    if states != [] {
      var (a, st) := states[0];
      UniqueHead(states, m);
      var w, rest := StepLatch(st, form0, a).1, Changes(states[1..], form0);
      if EqCi(a, m) { FindCase(form0, a, m); }
      if w.Some? {
        assert Changes(states, form0) == [(a, w.value)] + rest;
        assert ([(a, w.value)] + rest)[1..] == rest;
        ApplyChangesValue(states[1..], form0, SetField(form, a, w.value), m);
        SetFieldValue(form, a, w.value, m);
      } else {
        assert Changes(states, form0) == rest;
        ApplyChangesValue(states[1..], form0, form, m);
      }
    }
  }

  // ----- one round, one field -----

  /** A pass and its effect on the form, seen from the field `m`. */
  lemma RoundCell(states: Latches, form: Form, m: string)
    requires UniqueNames(states)
    ensures var (s1, f1) := Round(states, form);
            && UniqueNames(s1) && |s1| == |states|
            && (Find(f1, m).Some? <==> Find(form, m).Some?)
            && Find(s1, m) == (match Find(states, m) case None => None case Some(st) => Some(StepLatch(st, form, m).0))
            && FirstValue(f1, m) == (if Written(states, form, m).Some? && Find(form, m).Some?
                                     then Written(states, form, m).value else FirstValue(form, m))
  {
    NextLatchesUnique(states, form);
    NextLatchOf(states, form, m);
    ApplyChangesValue(states, form, form, m);
  }

  /** The template owns the field `m` in the next pass, and the form shows it. */
  predicate Driven(states: Latches, form: Form, m: string) {
    && Find(form, m).Some? && Find(states, m).Some?
    && Own(Find(states, m).value, FirstValue(form, m)).auto
  }

  /** The rendered template, or empty while a source is missing. */
  function Render(segs: seq<Seg>, form: Form): string {
    match ResolveTemplate(segs, form) case None => "" case Some(out) => out
  }

  function SegsOf(states: Latches, m: string): seq<Seg> {
    match Find(states, m) case None => [] case Some(st) => st.segs
  }

  lemma StepCellSettles(st: Latch, value: string, out: Option<string>)
    ensures var (st1, w) := StepCell(st, value, out);
            var value1 := match w case None => value case Some(v) => v;
            && st1.segs == st.segs
            && (Own(st1, value1).auto <==> Own(st, value).auto)
            && value1 == if Own(st, value).auto then (match out case None => "" case Some(text) => text) else value
  {
  }

  /** Who owns the field `m`: whether it is a target, its template, and whether that drives it. */
  function Owner(states: Latches, form: Form, m: string): (bool, seq<Seg>, bool) {
    (Find(states, m).Some?, SegsOf(states, m), Driven(states, form, m))
  }

  /** One pass writes exactly the template's fields, keeps every owner, and renders what it writes. */
  lemma RoundField(states: Latches, form: Form, m: string)
    requires UniqueNames(states)
    ensures UniqueNames(Round(states, form).0) && |Round(states, form).0| == |states|
    ensures Owner(Round(states, form).0, Round(states, form).1, m) == Owner(states, form, m)
    ensures FirstValue(Round(states, form).1, m)
         == if Driven(states, form, m) then Render(SegsOf(states, m), form) else FirstValue(form, m)
  {
    RoundCell(states, form, m);
    match Find(states, m) {
      case None =>
      case Some(st) => StepCellSettles(st, FirstValue(form, m), ResolveTemplate(st.segs, form));
    }
  }

  /** A pass writes into a field exactly when its template owns it and renders to something else than it shows. The
      template owns it when it did and the field still shows what was written last, or when the field is empty. */
  lemma WritesWhatDiffers(states: Latches, form: Form, m: string)
    requires Find(states, m).Some?
    ensures var st, value := Find(states, m).value, FirstValue(form, m);
            Written(states, form, m)
              == if (if value == st.lastWritten then st.auto else value == "") && Render(st.segs, form) != value
                 then Some(Render(st.segs, form)) else None
  {
  }

  // ----- passes without edits -----

  predicate Linked(h: seq<(Latches, Form)>, k: nat)
    requires k + 1 < |h|
  {
    h[k + 1] == Round(h[k].0, h[k].1)
  }

  /** `h` records passes one after the other, without edits between them. */
  predicate Passes(h: seq<(Latches, Form)>) {
    && h != [] && UniqueNames(h[0].0)
    && forall k: nat {:trigger Linked(h, k)} :: k + 1 < |h| ==> Linked(h, k)
  }

  function Val(h: seq<(Latches, Form)>, k: nat, m: string): string
    requires k < |h|
  {
    FirstValue(h[k].1, m)
  }

  lemma NextLatchesUnique(states: Latches, form: Form)
    requires UniqueNames(states)
    ensures UniqueNames(NextLatches(states, form)) && |NextLatches(states, form)| == |states|
  {
    NextLatchesNames(states, form);
    var next := NextLatches(states, form);
    forall i, j | 0 <= i < j < |next| ensures !EqCi(next[i].0, next[j].0) {
      assert !EqCi(states[i].0, states[j].0);
    }
  }

  lemma {:induction false} PassesUnique(h: seq<(Latches, Form)>, k: nat)
    requires Passes(h) && k < |h|
    ensures UniqueNames(h[k].0) && |h[k].0| == |h[0].0|
  {
    if k > 0 {
      PassesUnique(h, k - 1);
      assert Linked(h, k - 1);
      NextLatchesUnique(h[k - 1].0, h[k - 1].1);
    }
  }

  lemma {:induction false} PassesKeep(h: seq<(Latches, Form)>, k: nat, m: string)
    requires Passes(h) && k < |h|
    ensures Owner(h[k].0, h[k].1, m) == Owner(h[0].0, h[0].1, m)
  {
    if k > 0 {
      PassesKeep(h, k - 1, m);
      PassesUnique(h, k - 1);
      assert Linked(h, k - 1);
      RoundField(h[k - 1].0, h[k - 1].1, m);
    }
  }

  lemma PassesField(h: seq<(Latches, Form)>, k: nat, m: string)
    requires Passes(h) && k + 1 < |h|
    ensures Val(h, k + 1, m)
         == if Driven(h[0].0, h[0].1, m) then Render(SegsOf(h[0].0, m), h[k].1) else Val(h, k, m)
  {
    PassesUnique(h, k);
    PassesKeep(h, k, m);
    assert Linked(h, k);
    RoundField(h[k].0, h[k].1, m);
  }

  lemma {:induction false} RenderDepends(segs: seq<Seg>, f: Form, g: Form)
    requires forall n :: Field(n) in segs ==> FirstValue(f, n) == FirstValue(g, n)
    ensures ResolveTemplate(segs, f) == ResolveTemplate(segs, g)
  {
    if segs != [] {
      assert segs[0] in segs;
      forall n | Field(n) in segs[1..] ensures FirstValue(f, n) == FirstValue(g, n) {
        assert Field(n) in segs;
      }
      RenderDepends(segs[1..], f, g);
    }
  }

  // ----- settling -----

  /** Pass `k` leaves the value of `m` alone. */
  predicate Still(h: seq<(Latches, Form)>, k: nat, m: string)
    requires k + 1 < |h|
  {
    Val(h, k + 1, m) == Val(h, k, m)
  }

  predicate Steady(h: seq<(Latches, Form)>, m: string) {
    forall k: nat {:trigger Still(h, k, m)} :: k + 1 < |h| ==> Still(h, k, m)
  }

  /** `rank` orders the moving fields: each reads only steady fields and lower-ranked ones. */
  ghost predicate Layered(h: seq<(Latches, Form)>, rank: string -> nat)
    requires h != []
  {
    forall m: string, f: string {:trigger Steady(h, m), Steady(h, f)} ::
      Field(f) in SegsOf(h[0].0, m) ==> Steady(h, m) || Steady(h, f) || rank(Lower(f)) < rank(Lower(m))
  }

  lemma UndrivenSteady(h: seq<(Latches, Form)>, m: string)
    requires Passes(h) && !Driven(h[0].0, h[0].1, m)
    ensures Steady(h, m)
  {
    forall k: nat | k + 1 < |h| ensures Still(h, k, m) {
      PassesField(h, k, m);
    }
  }

  /** A field whose sources did not change in a pass does not change in the next. */
  lemma SameSourcesSameValue(h: seq<(Latches, Form)>, k: nat, m: string)
    requires Passes(h) && k + 2 < |h|
    requires forall f {:trigger Still(h, k, f)} :: Field(f) in SegsOf(h[0].0, m) ==> Still(h, k, f)
    ensures Still(h, k + 1, m)
  {
    forall f | Field(f) in SegsOf(h[0].0, m) ensures FirstValue(h[k + 1].1, f) == FirstValue(h[k].1, f) {
      assert Still(h, k, f);
    }
    RenderDepends(SegsOf(h[0].0, m), h[k + 1].1, h[k].1);
    PassesField(h, k + 1, m);
    PassesField(h, k, m);
  }

  lemma {:induction false} LayerSettles(h: seq<(Latches, Form)>, rank: string -> nat, k: nat, m: string)
    requires Passes(h) && Layered(h, rank)
    requires rank(Lower(m)) < k && k + 1 < |h|
    ensures Still(h, k, m)
    decreases k
  {
    if !Steady(h, m) {
      forall f | Field(f) in SegsOf(h[0].0, m) ensures Still(h, k - 1, f) {
        if !Steady(h, f) {
          LayerSettles(h, rank, k - 1, f);
        }
      }
      SameSourcesSameValue(h, k - 1, m);
    }
  }

  lemma {:induction false} ChangesMembers(states: Latches, form: Form, c: (string, string))
    requires UniqueNames(states) && c in Changes(states, form)
    ensures Written(states, form, c.0) == Some(c.1) && c.1 != FirstValue(form, c.0)
  {
    var a := states[0].0;
    UniqueHead(states, c.0);
    if c in WriteOf(a, StepLatch(states[0].1, form, a).1) {
    } else {
      ChangesMembers(states[1..], form, c);
    }
  }

  lemma {:induction false} ApplyHidden(form: Form, changes: seq<(string, string)>)
    requires forall c :: c in changes ==> Find(form, c.0) == None
    ensures ApplyChanges(form, changes) == form
    decreases changes
  {
    if changes != [] {
      assert changes[0] in changes;
      SetHidden(form, changes[0].0, changes[0].1);
      ApplyHidden(form, changes[1..]);
    }
  }

  lemma {:induction false} SetHidden(form: Form, attr: string, v: string)
    requires Find(form, attr) == None
    ensures SetField(form, attr, v) == form
  {
    if form != [] { SetHidden(form[1..], attr, v); }
  }

  /** A pass that changes no value changes nothing on the form and writes no field it shows. */
  lemma UnchangedValuesMeanSameForm(states: Latches, form: Form)
    requires UniqueNames(states)
    requires forall m: string :: FirstValue(Round(states, form).1, m) == FirstValue(form, m)
    ensures Round(states, form).1 == form
    ensures forall c :: c in Changes(states, form) ==> Find(form, c.0) == None
  {
    forall c | c in Changes(states, form) ensures Find(form, c.0) == None {
      ChangesMembers(states, form, c);
      RoundCell(states, form, c.0);
    }
    ApplyHidden(form, Changes(states, form));
  }

  /** The form has settled: another pass changes nothing, and every field a template owns shows
      its rendered template, or nothing while a source is missing. */
  ghost predicate Settled(states: Latches, form: Form) {
    && Round(states, form).1 == form
    && (forall c :: c in Changes(states, form) ==> Find(form, c.0) == None)
    && forall m: string :: Driven(states, form, m) ==> FirstValue(form, m) == Render(SegsOf(states, m), form)
  }

  lemma LayersSettle(h: seq<(Latches, Form)>, rank: string -> nat, levels: nat, k: nat)
    requires Passes(h) && Layered(h, rank) && levels <= k && k + 1 < |h|
    requires forall m: string :: Find(h[0].0, m).Some? ==> rank(Lower(m)) < levels
    ensures Settled(h[k].0, h[k].1)
  {
    var (s, f) := h[k];
    PassesUnique(h, k);
    assert Linked(h, k);
    forall m: string ensures FirstValue(Round(s, f).1, m) == FirstValue(f, m) {
      if Find(h[0].0, m).Some? {
        LayerSettles(h, rank, k, m);
        assert Still(h, k, m);
      } else {
        PassesField(h, k, m);
      }
    }
    UnchangedValuesMeanSameForm(s, f);
    forall m: string | Driven(s, f, m) ensures FirstValue(f, m) == Render(SegsOf(s, m), f) {
      RoundField(s, f, m);
    }
  }

  /** Templates that do not depend on each other in a circle settle after as many passes as the
      longest chain has templates, whatever the latches and the form hold. */
  lemma AcyclicTemplatesSettle(h: seq<(Latches, Form)>, rank: string -> nat, chain: nat, k: nat)
    requires Passes(h) && chain <= k && k + 1 < |h|
    requires forall m: string, f: string ::
               Field(f) in SegsOf(h[0].0, m) && Find(h[0].0, f).Some? ==> rank(Lower(f)) < rank(Lower(m))
    requires forall m: string :: Find(h[0].0, m).Some? ==> rank(Lower(m)) < chain
    ensures Settled(h[k].0, h[k].1)
  {
    forall m: string, f: string | Field(f) in SegsOf(h[0].0, m)
      ensures Steady(h, m) || Steady(h, f) || rank(Lower(f)) < rank(Lower(m))
    {
      if Find(h[0].0, f).None? { UndrivenSteady(h, f); }
    }
    LayersSettle(h, rank, chain, k);
  }

  // ----- runs with edits -----

  /** `Edited` is anything that sets the form: the operator typing, a number arriving, a picker. */
  datatype FormEvent = Edited(form: Form) | Pass

  predicate Happens(h: seq<(Latches, Form)>, events: seq<FormEvent>, k: nat)
    requires k + 1 < |h| && k < |events|
  {
    h[k + 1] == match events[k] case Pass => Round(h[k].0, h[k].1) case Edited(form) => (h[k].0, form)
  }

  predicate Fresh(states: Latches) {
    forall i :: 0 <= i < |states| ==> states[i].1.auto && states[i].1.lastWritten == ""
  }

  /** `h` records a create form's life: fresh latches, then any edits and passes. */
  predicate IsRun(h: seq<(Latches, Form)>, events: seq<FormEvent>) {
    && |h| == |events| + 1 && UniqueNames(h[0].0) && Fresh(h[0].0)
    && forall k: nat {:trigger Happens(h, events, k)} :: k < |events| ==> Happens(h, events, k)
  }

  // ----- the operator's values -----

  /** Pass `k` finds an operator value in `m`: not empty, and not what was written last. */
  predicate SeesOperatorValue(state: (Latches, Form), m: string) {
    && Find(state.0, m).Some? && FirstValue(state.1, m) != ""
    && FirstValue(state.1, m) != Find(state.0, m).value.lastWritten
  }

  /** Pass `k` finds `m` emptied after the template had written it. */
  predicate SeesRelease(state: (Latches, Form), m: string) {
    && Find(state.0, m).Some? && FirstValue(state.1, m) == ""
    && Find(state.0, m).value.lastWritten != ""
  }

  /** A latch held by the operator only lets go when the field is seen empty with something written
      before; until then no pass writes the field. */
  lemma HeldStep(states: Latches, form: Form, m: string)
    requires UniqueNames(states) && Find(states, m).Some?
    requires !Find(states, m).value.auto || SeesOperatorValue((states, form), m)
    requires !SeesRelease((states, form), m)
    ensures Written(states, form, m) == None
    ensures Find(Round(states, form).0, m) == Some(Find(states, m).value.(auto := false))
  {
    NextLatchOf(states, form, m);
  }

  /** ... and when it is, the template owns the field again. */
  lemma ReleaseRearms(states: Latches, form: Form, m: string)
    requires SeesRelease((states, form), m)
    ensures Find(Round(states, form).0, m).Some? && Find(Round(states, form).0, m).value.auto
  {
    NextLatchOf(states, form, m);
  }

  lemma {:induction false} RunUnique(h: seq<(Latches, Form)>, events: seq<FormEvent>, k: nat)
    requires IsRun(h, events) && k <= |events|
    ensures UniqueNames(h[k].0) && |h[k].0| == |h[0].0|
  {
    if k > 0 {
      RunUnique(h, events, k - 1);
      assert Happens(h, events, k - 1);
      if events[k - 1].Pass? { NextLatchesUnique(h[k - 1].0, h[k - 1].1); }
    }
  }

  /** Over every run: once a pass has seen an operator value, no pass writes that field again
      before one sees it emptied with something written before. */
  lemma {:induction false} OperatorValueKept(h: seq<(Latches, Form)>, events: seq<FormEvent>, m: nat, n: nat, t: string)
    requires IsRun(h, events) && m <= n < |events| && events[m].Pass? && events[n].Pass?
    requires SeesOperatorValue(h[m], t)
    requires forall k: nat {:trigger SeesRelease(h[k], t)} :: m < k <= n && events[k].Pass? ==> !SeesRelease(h[k], t)
    ensures Written(h[n].0, h[n].1, t) == None
    ensures Find(h[n + 1].0, t).Some? && !Find(h[n + 1].0, t).value.auto
  {
    HeldThrough(h, events, m, n, t);
    RunUnique(h, events, n);
    assert Happens(h, events, n);
    assert n > m ==> !SeesRelease(h[n], t);
    HeldStep(h[n].0, h[n].1, t);
  }

  lemma {:induction false} HeldThrough(h: seq<(Latches, Form)>, events: seq<FormEvent>, m: nat, n: nat, t: string)
    requires IsRun(h, events) && m <= n < |events| && events[m].Pass?
    requires SeesOperatorValue(h[m], t)
    requires forall k: nat {:trigger SeesRelease(h[k], t)} :: m < k < n && events[k].Pass? ==> !SeesRelease(h[k], t)
    ensures Find(h[n].0, t).Some?
    ensures m < n ==> !Find(h[n].0, t).value.auto
    decreases n - m
  {
    if m < n {
      HeldThrough(h, events, m, n - 1, t);
      RunUnique(h, events, n - 1);
      assert Happens(h, events, n - 1);
      assert m < n - 1 && events[n - 1].Pass? ==> !SeesRelease(h[n - 1], t);
      HeldNext(h[n - 1], h[n], events[n - 1], m == n - 1, t);
    }
  }

  /** One event keeps a held field held, or holds one on which the first pass sees an operator value. */
  lemma HeldNext(before: (Latches, Form), after: (Latches, Form), event: FormEvent, first: bool, t: string)
    requires UniqueNames(before.0) && Find(before.0, t).Some?
    requires after == match event case Pass => Round(before.0, before.1) case Edited(form) => (before.0, form)
    requires if first then event.Pass? && SeesOperatorValue(before, t)
             else !Find(before.0, t).value.auto && (event.Pass? ==> !SeesRelease(before, t))
    ensures Find(after.0, t).Some? && !Find(after.0, t).value.auto
  {
    if event.Pass? { HeldStep(before.0, before.1, t); }
  }

  // ----- circular templates -----

  /** Typed into before its template ever wrote it: the field never goes back to the template. */
  predicate Dead(states: Latches, m: string) {
    Find(states, m).Some? && !Find(states, m).value.auto && Find(states, m).value.lastWritten == ""
  }

  /** Once typed into before its template ever wrote it, a field is never written by any later pass,
      not even after it has been emptied. */
  lemma {:induction false} TypedFirstNeverRearms(h: seq<(Latches, Form)>, events: seq<FormEvent>, m: nat, n: nat,
                                                 t: string)
    requires IsRun(h, events) && m <= n <= |events| && Dead(h[m].0, t)
    ensures Dead(h[n].0, t)
    ensures n < |events| && events[n].Pass? ==> Written(h[n].0, h[n].1, t) == None
    decreases n - m
  {
    RunUnique(h, events, n);
    if m < n {
      TypedFirstNeverRearms(h, events, m, n - 1, t);
      RunUnique(h, events, n - 1);
      assert Happens(h, events, n - 1);
      if events[n - 1].Pass? { HeldStep(h[n - 1].0, h[n - 1].1, t); }
    }
    if n < |events| && events[n].Pass? { HeldStep(h[n].0, h[n].1, t); }
  }

  /** Every field that holds something its template wrote was born: written a first time. */
  ghost predicate Covers(born: map<string, nat>, states: Latches) {
    forall m: string {:trigger Find(states, m)} ::
      Find(states, m).Some? && Find(states, m).value.lastWritten != "" ==> Lower(m) in born
  }

  /** A field was born after the targets its template reads, unless those are dead. */
  ghost predicate BornAfter(born: map<string, nat>, states: Latches, m: string, f: string) {
    Dead(states, f) || (Lower(f) in born && Lower(m) in born && born[Lower(f)] < born[Lower(m)])
  }

  ghost predicate Tracked(born: map<string, nat>, states: Latches, t: nat) {
    && Covers(born, states)
    && (forall l :: l in born ==> born[l] < t && Lower(l) == l && Find(states, l).Some?)
    && forall m: string, f: string {:trigger BornAfter(born, states, m, f)} ::
         Lower(m) in born && Field(f) in SegsOf(states, m) && Find(states, f).Some? ==> BornAfter(born, states, m, f)
  }

  lemma {:induction false} ResolvedSources(segs: seq<Seg>, form: Form, f: string)
    requires ResolveTemplate(segs, form).Some? && Field(f) in segs
    ensures FirstValue(form, f) != ""
  {
    if Field(f) in segs[1..] { ResolvedSources(segs[1..], form, f); }
  }

  lemma LatchAfter(states: Latches, form: Form, m: string)
    ensures Find(NextLatches(states, form), m).Some? <==> Find(states, m).Some?
    ensures SegsOf(NextLatches(states, form), m) == SegsOf(states, m)
    ensures Dead(states, m) ==> Dead(NextLatches(states, form), m)
    ensures Find(states, m).Some? && Find(states, m).value.lastWritten == "" ==>
              && (FirstValue(form, m) != "" ==> Dead(NextLatches(states, form), m))
              && (Find(NextLatches(states, form), m).value.lastWritten != "" ==>
                    ResolveTemplate(SegsOf(states, m), form).Some?)
  {
    NextLatchOf(states, form, m);
  }

  /** The names written for the first time by this pass. */
  function Newborn(born: map<string, nat>, states: Latches, next: Latches): set<string> {
    set i | 0 <= i < |states| && Lower(states[i].0) !in born
            && Find(next, states[i].0).Some? && Find(next, states[i].0).value.lastWritten != "" :: Lower(states[i].0)
  }

  lemma NewbornMember(born: map<string, nat>, states: Latches, next: Latches, m: string)
    requires Find(states, m).Some? && Lower(m) !in born
    requires Find(next, m).Some? && Find(next, m).value.lastWritten != ""
    ensures Lower(m) in Newborn(born, states, next)
  {
    FindSpec(states, m);
    var i :| 0 <= i < |states| && EqCi(states[i].0, m) && Find(states, m) == Some(states[i].1);
    FindCase(next, states[i].0, m);
  }

  lemma NewbornWas(born: map<string, nat>, states: Latches, form: Form, l: string)
    requires l in Newborn(born, states, NextLatches(states, form)) && Covers(born, states)
    ensures Lower(l) == l && l !in born && Find(states, l).Some? && Find(NextLatches(states, form), l).Some?
    ensures Find(states, l).value.lastWritten == "" && Find(NextLatches(states, form), l).value.lastWritten != ""
  {
    var next := NextLatches(states, form);
    var i :| 0 <= i < |states| && Lower(states[i].0) == l && Lower(states[i].0) !in born
             && Find(next, states[i].0).Some? && Find(next, states[i].0).value.lastWritten != "";
    LowerIdempotent(states[i].0);
    FindCase(next, states[i].0, l);
    FindCase(states, states[i].0, l);
    LatchAfter(states, form, l);
    FindSpec(states, states[i].0);
  }

  lemma TrackPass(born: map<string, nat>, states: Latches, form: Form, t: nat) returns (born1: map<string, nat>)
    requires Tracked(born, states, t)
    ensures Tracked(born1, NextLatches(states, form), t + 1) && born.Keys <= born1.Keys
  {
    var next := NextLatches(states, form);
    var news := Newborn(born, states, next);
    born1 := born + map l | l in news :: t;
    forall m: string | Find(next, m).Some? && Find(next, m).value.lastWritten != "" ensures Lower(m) in born1 {
      LatchAfter(states, form, m);
      if Lower(m) !in born { NewbornMember(born, states, next, m); }
    }
    forall l | l in born1 ensures born1[l] < t + 1 && Lower(l) == l && Find(next, l).Some? {
      LatchAfter(states, form, l);
      if l in news { NewbornWas(born, states, form, l); }
    }
    forall m: string, f: string | Lower(m) in born1 && Field(f) in SegsOf(next, m) && Find(next, f).Some?
      ensures BornAfter(born1, next, m, f)
    {
      LatchAfter(states, form, m);
      LatchAfter(states, form, f);
      if Lower(m) in news {
        NewbornWas(born, states, form, Lower(m));
        FindCase(states, Lower(m), m);
        FindCase(next, Lower(m), m);
        LowerIdempotent(m);
        ResolvedSources(SegsOf(states, m), form, f);
      } else {
        assert BornAfter(born, states, m, f);
      }
      if Lower(f) in news { NewbornWas(born, states, form, Lower(f)); }
    }
  }

  lemma {:induction false} TrackRun(h: seq<(Latches, Form)>, events: seq<FormEvent>, k: nat)
    returns (born: map<string, nat>)
    requires IsRun(h, events) && k <= |events|
    ensures Tracked(born, h[k].0, k)
  {
    born := map[];
    if k == 0 {
      forall m: string ensures Find(h[0].0, m).Some? ==> Find(h[0].0, m).value.lastWritten == "" {
        FindSpec(h[0].0, m);
      }
    } else {
      born := TrackRun(h, events, k - 1);
      assert Happens(h, events, k - 1);
      if events[k - 1].Pass? {
        born := TrackPass(born, h[k - 1].0, h[k - 1].1, k - 1);
      }
    }
  }

  /** The births of a stretch of passes, known at its end, cover all its moments. */
  lemma {:induction false} TrackPasses(p: seq<(Latches, Form)>, k: nat, born0: map<string, nat>, t: nat)
    returns (born: map<string, nat>)
    requires Passes(p) && k < |p| && Tracked(born0, p[0].0, t)
    ensures Tracked(born, p[k].0, t + k)
    ensures forall j: nat {:trigger Covers(born, p[j].0)} :: j <= k ==> Covers(born, p[j].0)
  {
    born := born0;
    if k > 0 {
      var before := TrackPasses(p, k - 1, born0, t);
      assert Linked(p, k - 1);
      born := TrackPass(before, p[k - 1].0, p[k - 1].1, t + k - 1);
      forall j: nat | j <= k ensures Covers(born, p[j].0) {
        if j < k { CoversMore(before, born, p[j].0); }
      }
    }
  }

  lemma CoversMore(small: map<string, nat>, big: map<string, nat>, states: Latches)
    requires Covers(small, states) && small.Keys <= big.Keys
    ensures Covers(big, states)
  {
  }

  /** A field its template never writes keeps its value. */
  lemma UnbornSteady(p: seq<(Latches, Form)>, born: map<string, nat>, m: string)
    requires Passes(p) && Lower(m) !in born
    requires forall j: nat {:trigger Covers(born, p[j].0)} :: j < |p| ==> Covers(born, p[j].0)
    ensures Steady(p, m)
  {
    forall k: nat | k + 1 < |p| ensures Still(p, k, m) {
      PassesUnique(p, k);
      assert Linked(p, k) && Covers(born, p[k].0) && Covers(born, p[k + 1].0);
      RoundCell(p[k].0, p[k].1, m);
    }
  }

  function BornBefore(born: map<string, nat>, l: string): set<string>
    requires l in born
  {
    set x | x in born && born[x] < born[l]
  }

  function BirthRank(born: map<string, nat>, l: string): nat {
    if l in born then |BornBefore(born, l)| else 0
  }

  lemma BirthRankGrows(born: map<string, nat>, a: string, b: string)
    requires a in born && b in born && born[a] < born[b]
    ensures BirthRank(born, a) < BirthRank(born, b)
  {
    SmallerSubset(BornBefore(born, a) + {a}, BornBefore(born, b));
  }

  lemma {:induction false} SmallerSubset<T>(a: set<T>, b: set<T>)
    requires a <= b
    ensures |a| <= |b|
  {
    if a != {} {
      var x :| x in a;
      SmallerSubset(a - {x}, b - {x});
    }
  }

  lemma {:induction false} SetOfSize<T>(s: seq<T>)
    ensures |SetOf(s)| <= |s|
  {
    if s != [] {
      SetOfSize(s[1..]);
      assert s == [s[0]] + s[1..];
      assert SetOf(s) == {s[0]} + SetOf(s[1..]);
    }
  }

  lemma BirthRankBound(born: map<string, nat>, states: Latches, t: nat, m: string)
    requires Tracked(born, states, t) && Find(states, m).Some?
    ensures BirthRank(born, Lower(m)) < |states|
  {
    FindSpec(states, m);
    var names := seq(|states|, i requires 0 <= i < |states| => Lower(states[i].0));
    forall l | l in born ensures l in SetOf(names) {
      FindSpec(states, l);
      var i :| 0 <= i < |states| && EqCi(states[i].0, l);
      assert names[i] == l;
    }
    SetOfSize(names);
    if Lower(m) in born {
      SmallerSubset(BornBefore(born, Lower(m)) + {Lower(m)}, SetOf(names));
    }
  }

  /** Births layer the fields, even when the templates refer to each other in circles: a field that
      ever holds template text was first written from values that were there before. */
  lemma BirthsLayer(p: seq<(Latches, Form)>, born: map<string, nat>, t: nat)
    requires Passes(p) && Tracked(born, p[|p| - 1].0, t)
    requires forall j: nat {:trigger Covers(born, p[j].0)} :: j < |p| ==> Covers(born, p[j].0)
    ensures Layered(p, l => BirthRank(born, l))
  {
    var last := |p| - 1;
    forall m: string, f: string | Field(f) in SegsOf(p[0].0, m)
      ensures Steady(p, m) || Steady(p, f) || BirthRank(born, Lower(f)) < BirthRank(born, Lower(m))
    {
      PassesKeep(p, last, m);
      PassesKeep(p, last, f);
      if Lower(m) !in born {
        UnbornSteady(p, born, m);
      } else if Find(p[last].0, f).None? || Dead(p[last].0, f) {
        UndrivenSteady(p, f);
      } else {
        assert BornAfter(born, p[last].0, m, f);
        BirthRankGrows(born, Lower(f), Lower(m));
      }
    }
  }

  /** From a fresh form, after any edits and passes, the templates settle after at most as many
      further passes as there are templates, circular references or not. */
  lemma TemplatesAlwaysSettle(h: seq<(Latches, Form)>, events: seq<FormEvent>, p: seq<(Latches, Form)>, k: nat)
    requires IsRun(h, events) && Passes(p) && p[0] == h[|events|]
    requires |h[0].0| <= k && k + 1 < |p|
    ensures Settled(p[k].0, p[k].1)
  {
    RunUnique(h, events, |events|);
    var born0 := TrackRun(h, events, |events|);
    var last := |p| - 1;
    var born := TrackPasses(p, last, born0, |events|);
    BirthsLayer(p, born, |events| + last);
    PassesUnique(p, last);
    forall m: string | Find(p[0].0, m).Some? ensures BirthRank(born, Lower(m)) < |p[0].0| {
      PassesKeep(p, last, m);
      BirthRankBound(born, p[last].0, |events| + last, m);
    }
    LayersSettle(p, l => BirthRank(born, l), |p[0].0|, k);
  }

  /** Freshness matters: a template that reads its own field, once it holds a written value, grows
      with every pass and never settles. */
  lemma {:induction false} CircleCanGrow(p: seq<(Latches, Form)>, k: nat)
    requires Passes(p) && k < |p|
    requires SegsOf(p[0].0, "t") == [Field("t"), Lit("x")] && Driven(p[0].0, p[0].1, "t") && Val(p, 0, "t") == "x"
    ensures |Val(p, k, "t")| == k + 1 && forall c :: c in Val(p, k, "t") ==> c == 'x'
  {
    if k > 0 {
      CircleCanGrow(p, k - 1);
      PassesField(p, k - 1, "t");
      var v := Val(p, k - 1, "t");
      assert v[0] in v && v[|v| - 1] in v;
      TrimNoSpaces(v);
      assert ALLOC_PLACEHOLDER[0] != 'x';
      assert Source(p[k - 1].1, "t") == Some(v);
      var segs := [Field("t"), Lit("x")];
      assert segs[1..] == [Lit("x")] && [Lit("x")][1..] == [];
      assert ResolveTemplate([Lit("x")], p[k - 1].1) == Some("x" + "");
      assert ResolveTemplate(segs, p[k - 1].1) == Some(v + ("x" + ""));
    }
  }
}
