/** `config/tree_label.rs`: splitting a rendered label into segments and fitting it into a width. */
module TreeLabel {
  import opened Text

  /** A rendered run of text and whether it came from a field. */
  datatype Piece = Piece(text: string, fromField: bool)

  type Segment = seq<Piece>

  /** A character and whether it came from a field. */
  type Mark = (char, bool)

  const ELLIPSIS := '\U{2026}'

  // ---------------------------------------------------------------- splitting

  function Marked(text: string, fromField: bool): (ms: seq<Mark>)
    ensures |ms| == |text|
  {
    seq(|text|, i requires 0 <= i < |text| => (text[i], fromField))
  }

  function Marks(pieces: seq<Piece>): seq<Mark> {
    if pieces == [] then [] else Marked(pieces[0].text, pieces[0].fromField) + Marks(pieces[1..])
  }

  /** The runs between spaces, empty ones left out; `cur` is the run begun so far. */
  function Stretches(ms: seq<Mark>, cur: seq<Mark>): seq<seq<Mark>> {
    if ms == [] then OneIfAny(cur)
    else if ms[0].0 == ' ' then OneIfAny(cur) + Stretches(ms[1..], [])
    else Stretches(ms[1..], cur + [ms[0]])
  }

  /** `str::split(' ')`: always at least one part. */
  function Parts(s: string): (ps: seq<string>)
    ensures ps != [] && forall i :: 0 <= i < |ps| ==> ' ' !in ps[i]
  {
    if s == "" then [""]
    else if s[0] == ' ' then [""] + Parts(s[1..])
    else var rest := Parts(s[1..]); [[s[0]] + rest[0]] + rest[1..]
  }

  /** Parts that each follow a space. */
  function Spaced(ps: seq<string>): string {
    if ps == [] then "" else " " + ps[0] + Spaced(ps[1..])
  }

  lemma {:induction false} PartsJoin(s: string)
    ensures Parts(s)[0] + Spaced(Parts(s)[1..]) == s
  {
    if s != "" {
      var rest := Parts(s[1..]);
      PartsJoin(s[1..]);
      if s[0] == ' ' {
        assert Parts(s)[1..] == rest;
      } else {
        assert Parts(s)[1..] == rest[1..];
        assert [s[0]] + rest[0] + Spaced(rest[1..]) == [s[0]] + (rest[0] + Spaced(rest[1..]));
      }
    }
  }

  lemma {:induction false} StretchesSkip(ms: seq<Mark>, rest: seq<Mark>, cur: seq<Mark>)
    requires forall i :: 0 <= i < |ms| ==> ms[i].0 != ' '
    ensures Stretches(ms + rest, cur) == Stretches(rest, cur + ms)
  {
    if ms == [] {
      assert ms + rest == rest && cur + ms == cur;
    } else {
      StretchesSkip(ms[1..], rest, cur + [ms[0]]);
      assert (ms + rest)[1..] == ms[1..] + rest;
      assert cur + [ms[0]] + ms[1..] == cur + ms;
    }
  }

  lemma RunsBreak(rest: seq<Mark>, cur: seq<Mark>, f: bool)
    ensures Stretches([(' ', f)] + rest, cur) == OneIfAny(cur) + Stretches(rest, [])
  {
    assert ([(' ', f)] + rest)[1..] == rest;
  }

  function SegMarks(segs: seq<Segment>): (r: seq<seq<Mark>>)
    ensures |r| == |segs| && forall i :: 0 <= i < |segs| ==> r[i] == Marks(segs[i])
  {
    seq(|segs|, i requires 0 <= i < |segs| => Marks(segs[i]))
  }

  /** No empty pieces, at least one of them. */
  predicate Solid(seg: Segment) {
    seg != [] && forall i :: 0 <= i < |seg| ==> seg[i].text != ""
  }

  lemma MarksNext(seg: seq<Piece>, p: Piece, tail: seq<Piece>)
    requires seg == [p] + tail
    ensures Marks(seg) == Marked(p.text, p.fromField) + Marks(tail)
  {
    assert seg[0] == p && seg[1..] == tail;
  }

  lemma {:induction false} MarksAppend(a: seq<Piece>, b: seq<Piece>)
    ensures Marks(a + b) == Marks(a) + Marks(b)
  {
    if a == [] {
      assert a + b == b;
    } else {
      var p, tail := a[0], a[1..];
      MarksAppend(tail, b);
      MarksNext(a, p, tail);
      assert a + b == [p] + (tail + b);
      MarksNext(a + b, p, tail + b);
      JoinTwice(Marked(p.text, p.fromField), Marks(tail), Marks(b));
    }
  }

  lemma MarksOne(p: Piece)
    ensures Marks([p]) == Marked(p.text, p.fromField)
  {
    assert [p][1..] == [];
  }

  lemma MarkedAppend(a: string, b: string, f: bool)
    ensures Marked(a + b, f) == Marked(a, f) + Marked(b, f)
  {
  }

  lemma SolidMarks(cur: Segment)
    requires forall i :: 0 <= i < |cur| ==> cur[i].text != ""
    ensures Marks(cur) == [] <==> cur == []
  {
  }

  /** What the runs are: none of nothing, text without spaces as one, and a space parts what stands on either side. */
  lemma {:induction false} StretchesExact(a: seq<Mark>, f: bool, b: seq<Mark>, cur: seq<Mark>)
    ensures Stretches([], []) == []
    ensures a != [] && (forall i :: 0 <= i < |a| ==> a[i].0 != ' ') ==> Stretches(a, []) == [a]
    ensures Stretches(a + [(' ', f)] + b, cur) == Stretches(a, cur) + Stretches(b, [])
  {
    var all := a + [(' ', f)] + b;
    if forall i :: 0 <= i < |a| ==> a[i].0 != ' ' {
      StretchesSkip(a, [], []);
      assert a + [] == a && [] + a == a;
    }
    if a == [] {
      assert all == [(' ', f)] + b;
      RunsBreak(b, cur, f);
    } else {
      var next := if a[0].0 == ' ' then [] else cur + [a[0]];
      StretchesExact(a[1..], f, b, next);
      assert all[0] == a[0] && all[1..] == a[1..] + [(' ', f)] + b;
      JoinTwice(OneIfAny(cur), Stretches(a[1..], []), Stretches(b, []));
    }
  }

  function Chars(ms: seq<Mark>): (s: string)
    ensures |s| == |ms|
  {
    seq(|ms|, i requires 0 <= i < |ms| => ms[i].0)
  }

  /** The characters that come from a field, or those that do not. */
  function Keep(ms: seq<Mark>, fromField: bool): string {
    if ms == [] then ""
    else if ms[0].1 == fromField then [ms[0].0] + Keep(ms[1..], fromField)
    else Keep(ms[1..], fromField)
  }

  lemma {:induction false} KeepAppend(a: seq<Mark>, b: seq<Mark>, f: bool)
    ensures Keep(a + b, f) == Keep(a, f) + Keep(b, f)
  {
    if a == [] {
      assert a + b == b;
    } else {
      var all, rest := a + b, a[1..] + b;
      KeepAppend(a[1..], b, f);
      assert all[0] == a[0] && all[1..] == rest;
      if a[0].1 == f { JoinTwice([a[0].0], Keep(a[1..], f), Keep(b, f)); }
    }
  }

  lemma {:induction false} KeepMarked(text: string, f: bool)
    ensures Keep(Marked(text, f), f) == text && Keep(Marked(text, f), !f) == ""
  {
    if text != "" {
      KeepMarked(text[1..], f);
      assert Marked(text, f)[1..] == Marked(text[1..], f);
    }
  }

  /** The marks of a segment: each piece's characters in order, each with the piece's origin. */
  lemma MarksExact(a: Segment, p: Piece, b: Segment, i: nat)
    requires i < |p.text|
    ensures |Marks(a + [p] + b)| == |Marks(a)| + |p.text| + |Marks(b)|
    ensures Marks(a + [p] + b)[|Marks(a)| + i] == (p.text[i], p.fromField)
  {
    MarksMiddle(a, p, b);
    MiddleAt(Marks(a), Marked(p.text, p.fromField), Marks(b), i);
  }

  lemma MarksMiddle(a: Segment, p: Piece, b: Segment)
    ensures Marks(a + [p] + b) == Marks(a) + Marked(p.text, p.fromField) + Marks(b)
  {
    MarksAppend(a, [p]);
    MarksAppend(a + [p], b);
    MarksOne(p);
  }

  lemma MiddleAt(a: seq<Mark>, m: seq<Mark>, b: seq<Mark>, i: nat)
    requires i < |m|
    ensures |a + m + b| == |a| + |m| + |b| && (a + m + b)[|a| + i] == m[i]
  {
  }

  /** What is already settled: the finished segments, then the runs of the open one and of the text to come. */
  ghost predicate Split(all: seq<Mark>, segs: seq<Segment>, cur: Segment, rest: seq<Mark>) {
    Stretches(all, []) == SegMarks(segs) + Stretches(rest, Marks(cur))
    && (forall i :: 0 <= i < |segs| ==> Solid(segs[i]))
    && forall i :: 0 <= i < |cur| ==> cur[i].text != ""
  }

  /** A space closes the open segment. */
  lemma SplitBreak(all: seq<Mark>, segs: seq<Segment>, cur: Segment, rest: seq<Mark>, f: bool, segs2: seq<Segment>)
    requires Split(all, segs, cur, [(' ', f)] + rest)
    requires segs2 == if cur == [] then segs else segs + [cur]
    ensures Split(all, segs2, [], rest)
  {
    RunsBreak(rest, Marks(cur), f);
    SolidMarks(cur);
    var later := Stretches(rest, []);
    if cur == [] {
      assert OneIfAny(Marks(cur)) + later == later;
    } else {
      assert SegMarks(segs2) == SegMarks(segs) + [Marks(cur)];
      JoinTwice(SegMarks(segs), [Marks(cur)], later);
    }
  }

  /** Text without spaces joins the open segment. */
  lemma SplitPart(all: seq<Mark>, segs: seq<Segment>, cur: Segment, part: string, f: bool, rest: seq<Mark>,
                  cur2: Segment)
    requires ' ' !in part && Split(all, segs, cur, Marked(part, f) + rest)
    requires cur2 == if part == "" then cur else cur + [Piece(part, f)]
    ensures Split(all, segs, cur2, rest)
  {
    StretchesSkip(Marked(part, f), rest, Marks(cur));
    if part == "" {
      assert Marks(cur) + Marked(part, f) == Marks(cur);
    } else {
      MarksAppend(cur, [Piece(part, f)]);
      MarksOne(Piece(part, f));
    }
  }

  /** One piece: its parts between spaces, the first joining the open segment. */
  method SplitPiece(ghost all: seq<Mark>, segs0: seq<Segment>, cur0: Segment, p: Piece, ghost later: seq<Mark>)
    returns (segs: seq<Segment>, cur: Segment)
    requires Split(all, segs0, cur0, Marked(p.text, p.fromField) + later)
    ensures Split(all, segs, cur, later)
  {
    segs, cur := segs0, cur0;
    var f := p.fromField;
    var parts := Parts(p.text);
    PartsJoin(p.text);
    FirstPart(parts, f, later);
    if parts[0] != "" {
      cur := cur + [Piece(parts[0], f)];
    }
    SplitPart(all, segs, cur0, parts[0], f, Marked(Spaced(parts[1..]), f) + later, cur);
    for k := 1 to |parts|
      invariant Split(all, segs, cur, Marked(Spaced(parts[k..]), f) + later)
    {
      NextPart(parts, k, f, later);
      ghost var segs1, cur1 := segs, cur;
      if cur != [] {
        segs, cur := segs + [cur], [];
      }
      SplitBreak(all, segs1, cur1, Marked(parts[k], f) + (Marked(Spaced(parts[k + 1..]), f) + later), f, segs);
      cur1 := cur;
      if parts[k] != "" {
        cur := cur + [Piece(parts[k], f)];
      }
      SplitPart(all, segs, cur1, parts[k], f, Marked(Spaced(parts[k + 1..]), f) + later, cur);
    }
    assert Marked(Spaced(parts[|parts|..]), f) + later == later;
  }

  /** `split_into_segments`: the segments are the runs between spaces; every character keeps its origin. */
  method SplitIntoSegments(pieces: seq<Piece>) returns (segs: seq<Segment>)
    ensures SegMarks(segs) == Stretches(Marks(pieces), [])
    ensures forall i :: 0 <= i < |segs| ==> Solid(segs[i])
  {
    segs := [];
    var cur: Segment := [];
    ghost var all := Marks(pieces);
    assert pieces[0..] == pieces;
    for i := 0 to |pieces|
      invariant Split(all, segs, cur, Marks(pieces[i..]))
    {
      assert pieces[i..][1..] == pieces[i + 1..];
      segs, cur := SplitPiece(all, segs, cur, pieces[i], Marks(pieces[i + 1..]));
    }
    SolidMarks(cur);
    if cur != [] {
      assert SegMarks(segs + [cur]) == SegMarks(segs) + [Marks(cur)];
      segs := segs + [cur];
    }
  }

  lemma FirstPart(parts: seq<string>, f: bool, later: seq<Mark>)
    requires parts != []
    ensures Marked(parts[0] + Spaced(parts[1..]), f) + later
         == Marked(parts[0], f) + (Marked(Spaced(parts[1..]), f) + later)
  {
    MarkedAppend(parts[0], Spaced(parts[1..]), f);
  }

  lemma NextPart(parts: seq<string>, k: nat, f: bool, later: seq<Mark>)
    requires k < |parts|
    ensures Marked(Spaced(parts[k..]), f) + later
         == [(' ', f)] + (Marked(parts[k], f) + (Marked(Spaced(parts[k + 1..]), f) + later))
  {
    assert parts[k..][1..] == parts[k + 1..];
    MarkedAppend(" " + parts[k], Spaced(parts[k + 1..]), f);
    MarkedAppend(" ", parts[k], f);
    assert Marked(" ", f) == [(' ', f)];
  }

  // ---------------------------------------------------------------- widths

  /** The columns a character takes: any table that shows the ellipsis and the space in one. */
  ghost predicate WidthTable(w: char -> nat) {
    w(ELLIPSIS) == 1 && w(' ') == 1
  }

  function Width(s: string, w: char -> nat): nat {
    if s == "" then 0 else w(s[0]) + Width(s[1..], w)
  }

  lemma {:induction false} WidthAppend(a: string, b: string, w: char -> nat)
    ensures Width(a + b, w) == Width(a, w) + Width(b, w)
  {
    if a == "" {
      assert a + b == b;
    } else {
      WidthAppend(a[1..], b, w);
      assert (a + b)[1..] == a[1..] + b;
    }
  }

  lemma WidthOne(c: char, w: char -> nat)
    ensures Width([c], w) == w(c)
  {
    assert [c][1..] == "";
  }

  /** Width of the first `n` characters grows with `n`. */
  lemma WidthPrefix(s: string, n: nat, m: nat, w: char -> nat)
    requires n <= m <= |s|
    ensures Width(s[..n], w) <= Width(s[..m], w)
  {
    WidthAppend(s[..n], s[n..m], w);
    assert s[..n] + s[n..m] == s[..m];
  }

  lemma WidthNext(s: string, n: nat, w: char -> nat)
    requires n < |s|
    ensures Width(s[..n + 1], w) == Width(s[..n], w) + w(s[n])
  {
    WidthAppend(s[..n], [s[n]], w);
    WidthOne(s[n], w);
    assert s[..n + 1] == s[..n] + [s[n]];
  }

  /** The length of the longest prefix of `s` that fits `cols` columns. */
  ghost function Fits(s: string, cols: nat, w: char -> nat): (n: nat)
    ensures n <= |s| && Width(s[..n], w) <= cols
    ensures forall m :: n < m <= |s| ==> Width(s[..m], w) > cols
  {
    Longest(s, |s|, cols, w)
  }

  ghost function Longest(s: string, n: nat, cols: nat, w: char -> nat): (k: nat)
    requires n <= |s|
    ensures k <= n && Width(s[..k], w) <= cols
    ensures forall m :: k < m <= n ==> Width(s[..m], w) > cols
  {
    if Width(s[..n], w) <= cols then n else Longest(s, n - 1, cols, w)
  }

  /** At position `q` the next character still fits exactly when `q` is before the end of the longest prefix. */
  lemma FitsAt(s: string, cols: nat, q: nat, w: char -> nat)
    requires q <= Fits(s, cols, w) && q < |s|
    ensures Width(s[..q], w) <= cols && (Width(s[..q], w) + w(s[q]) <= cols <==> q < Fits(s, cols, w))
  {
    var n := Fits(s, cols, w);
    WidthPrefix(s, q, n, w);
    WidthNext(s, q, w);
    if q < n { WidthPrefix(s, q + 1, n, w); }
  }

  /** `take_cols`. */
  method TakeCols(s: string, cols: nat, w: char -> nat) returns (out: string)
    ensures out == s[..Fits(s, cols, w)]
  {
    out := "";
    var used := 0;
    var i := 0;
    while i < |s|
      invariant i <= Fits(s, cols, w) && out == s[..i] && used == Width(out, w)
    {
      FitsAt(s, cols, i, w);
      WidthNext(s, i, w);
      if used + w(s[i]) > cols {
        return;
      }
      out := out + [s[i]];
      used := used + w(s[i]);
      i := i + 1;
    }
  }

  /** How much of `s` stays before an ellipsis: what fits beside it, but at least one character. */
  ghost function KeptBefore(s: string, budget: nat, w: char -> nat): (k: nat)
    ensures k <= |s|
  {
    var n := Fits(s, if budget > 0 then budget - 1 else 0, w);
    if n == 0 && s != "" then 1 else n
  }

  method TruncateWithEllipsis(s: string, budget: nat, w: char -> nat) returns (r: string)
    ensures r == s[..KeptBefore(s, budget, w)] + [ELLIPSIS]
  {
    var kept := TakeCols(s, if budget > 0 then budget - 1 else 0, w);
    if kept == "" && s != "" {
      kept := [s[0]];
    }
    r := kept + [ELLIPSIS];
  }

  // ---------------------------------------------------------------- one segment

  function FullText(seg: Segment): string {
    if seg == [] then "" else seg[0].text + FullText(seg[1..])
  }

  function PieceField(p: Piece): string {
    if p.fromField then p.text else ""
  }

  /** The field characters of a segment, and the width of its literals. */
  function FieldText(seg: Segment): string {
    if seg == [] then "" else PieceField(seg[0]) + FieldText(seg[1..])
  }

  function LitWidth(seg: Segment, w: char -> nat): nat {
    if seg == [] then 0 else (if seg[0].fromField then 0 else Width(seg[0].text, w)) + LitWidth(seg[1..], w)
  }

  predicate HasField(seg: Segment) {
    exists p :: p in seg && p.fromField
  }

  /** The ellipsis falls within this piece. */
  predicate CutAt(text: string, k: nat, forced: bool) {
    k < |text| || (k == |text| && forced && k > 0)
  }

  /** The segment with its literals whole, its first `k` field characters, and one ellipsis: where the next
      field character stood or, when the last character was forced in, right behind it. */
  function Trimmed(seg: Segment, k: nat, forced: bool, placed: bool): string {
    if seg == [] then (if placed then "" else [ELLIPSIS])
    else if !seg[0].fromField then seg[0].text + Trimmed(seg[1..], k, forced, placed)
    else if placed then Trimmed(seg[1..], k, forced, true)
    else if CutAt(seg[0].text, k, forced) then seg[0].text[..k] + [ELLIPSIS] + Trimmed(seg[1..], 0, forced, true)
    else seg[0].text + Trimmed(seg[1..], k - |seg[0].text|, forced, false)
  }

  lemma {:induction false} TextWidth(seg: Segment, w: char -> nat)
    ensures Width(FullText(seg), w) == LitWidth(seg, w) + Width(FieldText(seg), w)
  {
    if seg != [] {
      TextWidth(seg[1..], w);
      WidthAppend(seg[0].text, FullText(seg[1..]), w);
      if seg[0].fromField {
        WidthAppend(seg[0].text, FieldText(seg[1..]), w);
      } else {
        assert "" + FieldText(seg[1..]) == FieldText(seg[1..]);
      }
    }
  }

  lemma {:induction false} TrimmedWidth(seg: Segment, k: nat, forced: bool, placed: bool, w: char -> nat)
    requires w(ELLIPSIS) == 1 && (!placed ==> k <= |FieldText(seg)|)
    ensures Width(Trimmed(seg, k, forced, placed), w)
         == LitWidth(seg, w) + if placed then 0 else Width(FieldText(seg)[..k], w) + 1
  {
    WidthOne(ELLIPSIS, w);
    if seg == [] {
    } else {
      var text, tail := seg[0].text, seg[1..];
      if !seg[0].fromField {
        TrimmedWidth(tail, k, forced, placed, w);
        WidthAppend(text, Trimmed(tail, k, forced, placed), w);
        assert "" + FieldText(tail) == FieldText(tail);
      } else if placed {
        TrimmedWidth(tail, k, forced, true, w);
      } else if !CutAt(text, k, forced) {
        TrimmedWidth(tail, k - |text|, forced, false, w);
        WidthAppend(text, Trimmed(tail, k - |text|, forced, false), w);
        WidthAppend(text, FieldText(tail)[..k - |text|], w);
        PrefixOf(text, FieldText(tail), k);
      } else {
        TrimmedWidth(tail, 0, forced, true, w);
        WidthAppend(text[..k] + [ELLIPSIS], Trimmed(tail, 0, forced, true), w);
        WidthAppend(text[..k], [ELLIPSIS], w);
        PrefixOf(text, FieldText(tail), k);
      }
    }
  }

  /** A segment's text, its field characters and the width of its literals, read off its marks. */
  lemma {:induction false} TextsExact(seg: Segment, w: char -> nat)
    ensures FullText(seg) == Chars(Marks(seg)) && FieldText(seg) == Keep(Marks(seg), true)
    ensures LitWidth(seg, w) == Width(Keep(Marks(seg), false), w)
  {
    if seg != [] {
      TextsExact(seg[1..], w);
      TextsNext(seg[0], Marks(seg[1..]), w);
    }
  }

  lemma TextsNext(p: Piece, tail: seq<Mark>, w: char -> nat)
    ensures Chars(Marked(p.text, p.fromField) + tail) == p.text + Chars(tail)
    ensures Keep(Marked(p.text, p.fromField) + tail, true) == PieceField(p) + Keep(tail, true)
    ensures Width(Keep(Marked(p.text, p.fromField) + tail, false), w)
         == (if p.fromField then 0 else Width(p.text, w)) + Width(Keep(tail, false), w)
  {
    KeepMarked(p.text, p.fromField);
    KeepAppend(Marked(p.text, p.fromField), tail, true);
    KeepAppend(Marked(p.text, p.fromField), tail, false);
    if p.fromField {
      assert "" + Keep(tail, false) == Keep(tail, false);
    } else {
      WidthAppend(p.text, Keep(tail, false), w);
    }
  }

  /** Cut at `cut`: everything before it, then the ellipsis, then what no field gave. */
  function CutText(ms: seq<Mark>, cut: nat): string
    requires cut <= |ms|
  {
    Chars(ms[..cut]) + [ELLIPSIS] + Keep(ms[cut..], false)
  }

  /** `cut` stands after exactly `k` field characters: right behind the last of them if it was forced in, else where
      the next one stood, or at the end. */
  ghost predicate CutsAfter(ms: seq<Mark>, cut: nat, k: nat, forced: bool) {
    cut <= |ms| && |Keep(ms[..cut], true)| == k
    && if forced then cut > 0 && ms[cut - 1].1 else cut == |ms| || ms[cut].1
  }

  lemma {:induction false} TrimmedPlaced(seg: Segment, k: nat, forced: bool)
    ensures Trimmed(seg, k, forced, true) == Keep(Marks(seg), false)
  {
    if seg != [] {
      TrimmedPlaced(seg[1..], k, forced);
      KeepMarked(seg[0].text, seg[0].fromField);
      KeepAppend(Marked(seg[0].text, seg[0].fromField), Marks(seg[1..]), false);
    }
  }

  /** A trimmed segment is cut after its first `k` field characters, and loses field characters only. */
  lemma {:induction false} TrimmedExact(seg: Segment, k: nat, forced: bool) returns (cut: nat)
    requires k <= |FieldText(seg)| && (forced ==> k > 0)
    ensures TrimmedAt(Marks(seg), Trimmed(seg, k, forced, false), cut, k, forced)
  {
    cut := k;
    if seg == [] {
      CutNothing(forced);
    } else if seg[0].fromField && CutAt(seg[0].text, k, forced) {
      CutHere(seg, k, forced);
    } else {
      var left := Behind(seg[0], k);
      TrimmedNext(seg, k, left, forced);
      var n := TrimmedExact(seg[1..], left, forced);
      cut := |seg[0].text| + n;
      CutLater(seg, k, left, n, forced);
    }
  }

  lemma CutNothing(forced: bool)
    requires !forced
    ensures TrimmedAt(Marks([]), Trimmed([], 0, forced, false), 0, 0, forced)
  {
    assert CutText([], 0) == [ELLIPSIS];
  }

  lemma CutHere(seg: Segment, k: nat, forced: bool)
    requires seg != [] && seg[0].fromField && CutAt(seg[0].text, k, forced) && (forced ==> k > 0)
    ensures TrimmedAt(Marks(seg), Trimmed(seg, k, forced, false), k, k, forced)
  {
    TrimmedPlaced(seg[1..], 0, forced);
    CutInside(seg[0].text, Marks(seg[1..]), k, forced);
  }

  /** The field characters still to come behind a piece. */
  function Behind(p: Piece, k: nat): nat {
    if p.fromField && |p.text| <= k then k - |p.text| else k
  }

  lemma TrimmedNext(seg: Segment, k: nat, left: nat, forced: bool)
    requires seg != [] && k <= |FieldText(seg)| && (forced ==> k > 0) && left == Behind(seg[0], k)
    requires seg[0].fromField ==> !CutAt(seg[0].text, k, forced)
    ensures left <= |FieldText(seg[1..])| && (forced ==> left > 0)
    ensures Trimmed(seg, k, forced, false) == seg[0].text + Trimmed(seg[1..], left, forced, false)
    ensures k == if seg[0].fromField then left + |seg[0].text| else left
    ensures Marks(seg) == Marked(seg[0].text, seg[0].fromField) + Marks(seg[1..])
  {
  }

  lemma CutLater(seg: Segment, k: nat, left: nat, n: nat, forced: bool)
    requires seg != [] && k <= |FieldText(seg)| && (forced ==> k > 0) && left == Behind(seg[0], k)
    requires seg[0].fromField ==> !CutAt(seg[0].text, k, forced)
    requires TrimmedAt(Marks(seg[1..]), Trimmed(seg[1..], left, forced, false), n, left, forced)
    ensures TrimmedAt(Marks(seg), Trimmed(seg, k, forced, false), |seg[0].text| + n, k, forced)
  {
    TrimmedNext(seg, k, left, forced);
    CutBehind(seg[0], Marks(seg[1..]), Trimmed(seg[1..], left, forced, false), n, left, forced, Marks(seg), k);
  }

  ghost predicate TrimmedAt(ms: seq<Mark>, r: string, cut: nat, k: nat, forced: bool) {
    CutsAfter(ms, cut, k, forced) && r == CutText(ms, cut)
  }

  /** The cut falls within a field piece that `tail` follows. */
  lemma CutInside(text: string, tail: seq<Mark>, k: nat, forced: bool)
    requires CutAt(text, k, forced) && (forced ==> k > 0)
    ensures TrimmedAt(Marked(text, true) + tail, text[..k] + [ELLIPSIS] + Keep(tail, false), k, k, forced)
  {
    var ms, before, after := Marked(text, true) + tail, Marked(text[..k], true), Marked(text[k..], true) + tail;
    SlicesInside(text, tail, k);
    KeepMarked(text[..k], true);
    KeepMarked(text[k..], true);
    KeepAppend(Marked(text[k..], true), tail, false);
    assert "" + Keep(tail, false) == Keep(tail, false);
    assert Chars(before) == text[..k];
  }

  lemma SlicesInside(text: string, tail: seq<Mark>, k: nat)
    requires k <= |text|
    ensures (Marked(text, true) + tail)[..k] == Marked(text[..k], true)
    ensures (Marked(text, true) + tail)[k..] == Marked(text[k..], true) + tail
  {
  }

  /** The cut falls behind the piece. */
  lemma CutBehind(p: Piece, tail: seq<Mark>, r: string, n: nat, left: nat, forced: bool, ms: seq<Mark>, k: nat)
    requires TrimmedAt(tail, r, n, left, forced)
    requires ms == Marked(p.text, p.fromField) + tail && k == if p.fromField then left + |p.text| else left
    ensures TrimmedAt(ms, p.text + r, |p.text| + n, k, forced)
  {
    var head := Marked(p.text, p.fromField);
    SlicesBehind(head, tail, n);
    KeepMarked(p.text, p.fromField);
    KeepAppend(head, tail[..n], true);
    CharsAppend(head, tail[..n]);
    assert Chars(head) == p.text;
    JoinTwice(p.text, Chars(tail[..n]), [ELLIPSIS]);
    JoinTwice(p.text, Chars(tail[..n]) + [ELLIPSIS], Keep(tail[n..], false));
  }

  lemma SlicesBehind(head: seq<Mark>, tail: seq<Mark>, n: nat)
    requires n <= |tail|
    ensures (head + tail)[..|head| + n] == head + tail[..n] && (head + tail)[|head| + n..] == tail[n..]
    ensures n > 0 ==> (head + tail)[|head| + n - 1] == tail[n - 1]
    ensures n < |tail| ==> (head + tail)[|head| + n] == tail[n]
  {
  }

  lemma CharsAppend(a: seq<Mark>, b: seq<Mark>)
    ensures Chars(a + b) == Chars(a) + Chars(b)
  {
  }

  lemma PrefixOf(a: string, b: string, k: nat)
    requires k <= |a| + |b|
    ensures (a + b)[..k] == if k <= |a| then a[..k] else a + b[..k - |a|]
    ensures k == |a| ==> a[..k] == a + b[..0]
  {
  }

  /** The columns left for field characters beside the literals and the ellipsis. */
  function FieldCols(seg: Segment, budget: nat, w: char -> nat): nat {
    if LitWidth(seg, w) + 1 <= budget then budget - LitWidth(seg, w) - 1 else 0
  }

  /** Not even one field character fits, and the protected first segment shows one all the same. */
  ghost predicate Forced(seg: Segment, budget: nat, guard: bool, w: char -> nat) {
    guard && FieldText(seg) != "" && Fits(FieldText(seg), FieldCols(seg, budget, w), w) == 0
  }

  /** How many field characters stay. */
  ghost function KeptChars(seg: Segment, budget: nat, guard: bool, w: char -> nat): (k: nat)
    ensures k <= |FieldText(seg)|
  {
    if Forced(seg, budget, guard, w) then 1 else Fits(FieldText(seg), FieldCols(seg, budget, w), w)
  }

  /** What `fit_segment` answers. */
  ghost function FitAnswer(seg: Segment, budget: nat, guard: bool, w: char -> nat): Option<string> {
    if Width(FullText(seg), w) <= budget then Some(FullText(seg))
    else if !HasField(seg) then
      if guard then Some(FullText(seg)[..KeptBefore(FullText(seg), budget, w)] + [ELLIPSIS]) else None
    else if !guard && (LitWidth(seg, w) + 1 > budget || KeptChars(seg, budget, guard, w) == 0) then None
    else Some(Trimmed(seg, KeptChars(seg, budget, guard, w), Forced(seg, budget, guard, w), false))
  }

  lemma FieldTextNext(seg: Segment, p: Piece, tail: Segment)
    requires seg == [p] + tail
    ensures FieldText(seg) == PieceField(p) + FieldText(tail)
  {
    assert seg[0] == p && seg[1..] == tail;
  }

  lemma {:induction false} FieldTextAppend(a: Segment, b: Segment)
    ensures FieldText(a + b) == FieldText(a) + FieldText(b)
  {
    if a == [] {
      assert a + b == b && "" + FieldText(b) == FieldText(b);
    } else {
      var p, tail := a[0], a[1..];
      FieldTextAppend(tail, b);
      FieldTextNext(a, p, tail);
      assert a + b == [p] + (tail + b);
      FieldTextNext(a + b, p, tail + b);
      JoinTwice(PieceField(p), FieldText(tail), FieldText(b));
    }
  }

  /** Where `fit_segment` stands before piece `i`: everything settled, or nothing dropped yet. */
  ghost predicate Fitting(seg: Segment, i: nat, f: string, goal: string, out: string, cut: bool, keptAny: bool,
                          remaining: nat,
                          cols: nat, k: nat, forced: bool, w: char -> nat)
    requires i <= |seg|
  {
    var seen := |FieldText(seg[..i])|;
    if cut then out + Trimmed(seg[i..], 0, forced, true) == goal && (keptAny <==> k > 0)
    else
      seen <= k && Uncut(f, seen, keptAny, remaining, cols, w)
      && out + Trimmed(seg[i..], k - seen, forced, false) == goal
  }

  /** All of the first `seen` field characters fit and have been written. */
  ghost predicate Uncut(f: string, seen: nat, keptAny: bool, remaining: nat, cols: nat, w: char -> nat) {
    seen <= Fits(f, cols, w) && remaining == cols - Width(f[..seen], w) && (keptAny <==> seen > 0)
  }

  ghost predicate Chosen(f: string, cols: nat, k: nat, forced: bool, guard: bool, w: char -> nat) {
    forced == (guard && f != "" && Fits(f, cols, w) == 0) && k == if forced then 1 else Fits(f, cols, w)
  }

  lemma NextChar(f: string, seen: nat, keptAny: bool, remaining: nat, cols: nat, k: nat, forced: bool, guard: bool,
                 w: char -> nat)
    requires seen < |f| && Chosen(f, cols, k, forced, guard, w) && Uncut(f, seen, keptAny, remaining, cols, w)
    ensures w(f[seen]) <= remaining ==>
              seen < k && !forced && Uncut(f, seen + 1, true, remaining - w(f[seen]), cols, w)
    ensures w(f[seen]) > remaining ==> k == if guard && !keptAny then seen + 1 else seen
    ensures w(f[seen]) > remaining ==> forced == (guard && !keptAny)
  {
    FitsAt(f, cols, seen, w);
    WidthNext(f, seen, w);
  }

  /** One field piece of `fit_segment`'s loop. */
  method FitPiece(seg: Segment, i: nat, ghost f: string, ghost goal: string, guard: bool,
                  out0: string, cut0: bool, kept0: bool, remaining0: nat,
                  ghost cols: nat, ghost k: nat, ghost forced: bool, w: char -> nat)
    returns (out: string, cut: bool, keptAny: bool, remaining: nat)
    requires i < |seg| && seg[i].fromField && InField(f, |FieldText(seg[..i])|, seg[i].text)
    requires Fitting(seg, i, f, goal, out0, cut0, kept0, remaining0, cols, k, forced, w)
    requires Chosen(f, cols, k, forced, guard, w)
    ensures Fitting(seg, i + 1, f, goal, out, cut, keptAny, remaining, cols, k, forced, w)
  {
    out, cut, keptAny, remaining := out0, cut0, kept0, remaining0;
    if cut0 {
      PieceCut(seg, i, forced);
      return;
    }
    out, cut, keptAny, remaining :=
      FitChars(f, |FieldText(seg[..i])|, seg[i].text, out0, kept0, remaining0, cols, k, forced, guard, w);
    FieldPieceDone(seg, i, f, goal, out0, out, cut, keptAny, remaining, cols, k, forced, w);
  }

  lemma FieldPieceDone(seg: Segment, i: nat, f: string, goal: string, out0: string, out: string, cut: bool,
                       keptAny: bool, remaining: nat, cols: nat, k: nat, forced: bool, w: char -> nat)
    requires i < |seg| && seg[i].fromField && |FieldText(seg[..i])| <= k
    requires out0 + Trimmed(seg[i..], k - |FieldText(seg[..i])|, forced, false) == goal
    requires InPiece(f, |FieldText(seg[..i])|, seg[i].text, |seg[i].text|, out0, out, cut, keptAny, remaining,
                     cols, k, forced, w)
    requires !cut ==> !CutAt(seg[i].text, k - |FieldText(seg[..i])|, forced)
    ensures Fitting(seg, i + 1, f, goal, out, cut, keptAny, remaining, cols, k, forced, w)
  {
    var seen, text := |FieldText(seg[..i])|, seg[i].text;
    PieceAt(seg, i);
    PieceDone(seg, i, out0, out, cut, k, forced);
    if cut {
      FittingCut(seg, i + 1, f, goal, out, keptAny, remaining, cols, k, forced, w);
    } else {
      FittingOn(seg, i + 1, seen + |text|, f, goal, out, keptAny, remaining, cols, k, forced, w);
    }
  }

  lemma FittingCut(seg: Segment, i: nat, f: string, goal: string, out: string, keptAny: bool,
                   remaining: nat, cols: nat, k: nat, forced: bool, w: char -> nat)
    requires i <= |seg| && out + Trimmed(seg[i..], 0, forced, true) == goal && (keptAny <==> k > 0)
    ensures Fitting(seg, i, f, goal, out, true, keptAny, remaining, cols, k, forced, w)
  {
  }

  lemma FittingOn(seg: Segment, i: nat, seen: nat, f: string, goal: string, out: string, keptAny: bool,
                  remaining: nat, cols: nat, k: nat, forced: bool, w: char -> nat)
    requires i <= |seg| && seen == |FieldText(seg[..i])| && seen <= k && Uncut(f, seen, keptAny, remaining, cols, w)
    requires out + Trimmed(seg[i..], k - seen, forced, false) == goal
    ensures Fitting(seg, i, f, goal, out, false, keptAny, remaining, cols, k, forced, w)
  {
  }

  predicate InField(f: string, seen: nat, text: string) {
    seen + |text| <= |f| && forall j :: 0 <= j < |text| ==> f[seen + j] == text[j]
  }

  method FitChars(ghost f: string, ghost seen: nat, text: string, out0: string, kept0: bool, remaining0: nat,
                  ghost cols: nat, ghost k: nat, ghost forced: bool, guard: bool, w: char -> nat)
    returns (out: string, cut: bool, keptAny: bool, remaining: nat)
    requires seen <= k && Uncut(f, seen, kept0, remaining0, cols, w) && Chosen(f, cols, k, forced, guard, w)
    requires InField(f, seen, text)
    ensures InPiece(f, seen, text, |text|, out0, out, cut, keptAny, remaining, cols, k, forced, w)
  {
    out, cut, keptAny, remaining := out0, false, kept0, remaining0;
    assert text[..0] == "" && out0 + "" == out0;
    for j := 0 to |text|
      invariant InPiece(f, seen, text, j, out0, out, cut, keptAny, remaining, cols, k, forced, w)
    {
      if !cut {
        out, cut, keptAny, remaining := FitChar(f, seen, text, j, out0, out, keptAny, remaining, cols, k, forced,
                                                guard, w);
      }
    }
  }

  /** The loop over one field piece, before character `j`. */
  ghost predicate InPiece(f: string, seen: nat, text: string, j: nat, out0: string, out: string, cut: bool,
                          keptAny: bool, remaining: nat, cols: nat, k: nat, forced: bool, w: char -> nat)
    requires j <= |text|
  {
    if cut then seen <= k && CutAt(text, k - seen, forced) && out == out0 + text[..k - seen] + [ELLIPSIS]
        && (keptAny <==> k > 0)
    else seen + j <= k && Uncut(f, seen + j, keptAny, remaining, cols, w) && out == out0 + text[..j]
  }

  method FitChar(ghost f: string, ghost seen: nat, text: string, j: nat, ghost out0: string, out: string,
                 keptAny: bool, remaining: nat, ghost cols: nat, ghost k: nat, ghost forced: bool, guard: bool,
                 w: char -> nat)
    returns (out2: string, cut: bool, keptAny2: bool, remaining2: nat)
    requires j < |text| && seen + j < |f| && f[seen + j] == text[j] && Chosen(f, cols, k, forced, guard, w)
    requires InPiece(f, seen, text, j, out0, out, false, keptAny, remaining, cols, k, forced, w)
    ensures InPiece(f, seen, text, j + 1, out0, out2, cut, keptAny2, remaining2, cols, k, forced, w)
  {
    out2, cut, keptAny2, remaining2 := out, false, keptAny, remaining;
    NextChar(f, seen + j, keptAny, remaining, cols, k, forced, guard, w);
    assert text[..j + 1] == text[..j] + [text[j]];
    if w(text[j]) <= remaining {
      out2 := out2 + [text[j]];
      remaining2 := remaining - w(text[j]);
      keptAny2 := true;
    } else {
      if guard && !keptAny {
        out2 := out2 + [text[j]];
        keptAny2 := true;
      }
      out2 := out2 + [ELLIPSIS];
      cut := true;
    }
  }

  /** The characters of a field piece within the segment's field text. */
  lemma PieceAt(seg: Segment, i: nat)
    requires i < |seg| && seg[i].fromField
    ensures var f, seen, text := FieldText(seg), |FieldText(seg[..i])|, seg[i].text;
            InField(f, seen, text) && FieldText(seg[..i + 1]) == FieldText(seg[..i]) + text
  {
    FieldTextAppend(seg[..i], [seg[i]]);
    assert seg[..i + 1] == seg[..i] + [seg[i]];
    assert [seg[i]][1..] == [];
    FieldTextAppend(seg[..i + 1], seg[i + 1..]);
    assert seg == seg[..i + 1] + seg[i + 1..];
  }

  lemma PieceCut(seg: Segment, i: nat, forced: bool)
    requires i < |seg| && seg[i].fromField
    ensures Trimmed(seg[i + 1..], 0, forced, true) == Trimmed(seg[i..], 0, forced, true)
  {
    assert seg[i..][1..] == seg[i + 1..];
  }

  lemma PieceDone(seg: Segment, i: nat, out0: string, out: string, cut: bool, k: nat, forced: bool)
    requires i < |seg| && seg[i].fromField && |FieldText(seg[..i])| <= k
    requires !cut ==> |FieldText(seg[..i])| + |seg[i].text| <= k && out == out0 + seg[i].text[..|seg[i].text|]
    requires !cut ==> !CutAt(seg[i].text, k - |FieldText(seg[..i])|, forced)
    requires cut ==> CutAt(seg[i].text, k - |FieldText(seg[..i])|, forced)
    requires cut ==> out == out0 + seg[i].text[..k - |FieldText(seg[..i])|] + [ELLIPSIS]
    ensures var seen := |FieldText(seg[..i])|;
            if cut
            then out + Trimmed(seg[i + 1..], 0, forced, true) == out0 + Trimmed(seg[i..], k - seen, forced, false)
            else out + Trimmed(seg[i + 1..], k - (seen + |seg[i].text|), forced, false)
                 == out0 + Trimmed(seg[i..], k - seen, forced, false)
  {
    assert seg[i..][1..] == seg[i + 1..];
    assert seg[i].text[..|seg[i].text|] == seg[i].text;
  }

  lemma LiteralDone(seg: Segment, i: nat, out: string, k: nat, forced: bool, placed: bool)
    requires i < |seg| && !seg[i].fromField
    ensures out + seg[i].text + Trimmed(seg[i + 1..], k, forced, placed) == out + Trimmed(seg[i..], k, forced, placed)
    ensures FieldText(seg[..i + 1]) == FieldText(seg[..i])
  {
    assert seg[i..][1..] == seg[i + 1..];
    FieldTextAppend(seg[..i], [seg[i]]);
    assert seg[..i + 1] == seg[..i] + [seg[i]];
    assert [seg[i]][1..] == [] && FieldText([seg[i]]) == "";
  }

  method LiteralColumns(seg: Segment, w: char -> nat) returns (has: bool, litW: nat)
    ensures has == HasField(seg) && litW == LitWidth(seg, w)
  {
    has, litW := false, 0;
    for i := 0 to |seg|
      invariant has <==> exists p :: p in seg[..i] && p.fromField
      invariant litW + LitWidth(seg[i..], w) == LitWidth(seg, w)
    {
      assert seg[..i + 1] == seg[..i] + [seg[i]];
      assert seg[i..][1..] == seg[i + 1..];
      if seg[i].fromField { has := true; } else { litW := litW + Width(seg[i].text, w); }
    }
    assert seg[..|seg|] == seg;
  }

  /** `fit_segment`. */
  method FitSegment(seg: Segment, budget: nat, guard: bool, w: char -> nat) returns (r: Option<string>)
    ensures r == FitAnswer(seg, budget, guard, w)
  {
    var full := FullText(seg);
    if Width(full, w) <= budget {
      return Some(full);
    }
    var has, litW := LiteralColumns(seg, w);
    if !has {
      if guard {
        var cut := TruncateWithEllipsis(full, budget, w);
        return Some(cut);
      }
      return None;
    }
    if litW + 1 > budget && !guard {
      return None;
    }
    var cols := if litW + 1 <= budget then budget - litW - 1 else 0;
    r := CutFields(seg, budget, guard, cols, w);
  }

  /** The loop of `fit_segment` over the pieces. */
  method CutFields(seg: Segment, ghost budget: nat, guard: bool, cols: nat, w: char -> nat) returns (r: Option<string>)
    requires cols == FieldCols(seg, budget, w)
    ensures r == if !guard && KeptChars(seg, budget, guard, w) == 0 then None
                 else Some(Trimmed(seg, KeptChars(seg, budget, guard, w), Forced(seg, budget, guard, w), false))
  {
    ghost var k, forced := KeptChars(seg, budget, guard, w), Forced(seg, budget, guard, w);
    ghost var f, goal := FieldText(seg), Trimmed(seg, k, forced, false);
    var out, remaining, keptAny, cut := "", cols, false, false;
    StartFitting(seg, cols, k, forced, w);
    for i := 0 to |seg|
      invariant Fitting(seg, i, f, goal, out, cut, keptAny, remaining, cols, k, forced, w)
    {
      if seg[i].fromField {
        PieceAt(seg, i);
        out, cut, keptAny, remaining := FitPiece(seg, i, f, goal, guard, out, cut, keptAny, remaining, cols, k,
                                                 forced, w);
      } else {
        ghost var left := if cut then 0 else k - |FieldText(seg[..i])|;
        LiteralDone(seg, i, out, left, forced, cut);
        out := out + seg[i].text;
      }
    }
    assert seg[..|seg|] == seg && seg[|seg|..] == [];
    if !cut {
      out := out + [ELLIPSIS];
    } else {
      assert out + "" == out;
    }
    if !keptAny && !guard {
      return None;
    }
    r := Some(out);
  }

  lemma StartFitting(seg: Segment, cols: nat, k: nat, forced: bool, w: char -> nat)
    ensures Fitting(seg, 0, FieldText(seg), Trimmed(seg, k, forced, false), "", false, false, cols, cols, k, forced, w)
  {
    assert seg[..0] == [] && seg[0..] == seg && FieldText(seg)[..0] == "";
    assert "" + Trimmed(seg, k, forced, false) == Trimmed(seg, k, forced, false);
  }

  lemma TextIsFields(seg: Segment)
    requires !HasField(seg)
    ensures FieldText(seg) == ""
  {
    if seg != [] {
      assert seg[0] in seg;
      assert forall p :: p in seg[1..] ==> p in seg;
      TextIsFields(seg[1..]);
    }
  }

  /** The least the protected first segment is shrunk to: its literals, one character and the ellipsis. */
  function LeastWidth(seg: Segment, w: char -> nat): nat {
    var s := if HasField(seg) then FieldText(seg) else FullText(seg);
    (if HasField(seg) then LitWidth(seg, w) else 0) + (if s == "" then 0 else w(s[0])) + 1
  }

  /** A trimmed segment keeps within its budget; only the protected one may exceed it, up to its least width. */
  lemma AnswerFits(seg: Segment, budget: nat, guard: bool, w: char -> nat)
    requires WidthTable(w) && FitAnswer(seg, budget, guard, w).Some?
    ensures var r := FitAnswer(seg, budget, guard, w).value;
            Width(r, w) <= budget || (guard && Width(r, w) <= LeastWidth(seg, w))
  {
    var s, full := FieldText(seg), FullText(seg);
    if Width(full, w) > budget {
      if HasField(seg) {
        var k := KeptChars(seg, budget, guard, w);
        TrimmedWidth(seg, k, Forced(seg, budget, guard, w), false, w);
        if Forced(seg, budget, guard, w) {
          assert s[..1] == [s[0]];
          WidthOne(s[0], w);
        } else if LitWidth(seg, w) + 1 > budget {
          NothingFits(s, k, w);
        }
      } else {
        var k := KeptBefore(full, budget, w);
        WidthAppend(full[..k], [ELLIPSIS], w);
        WidthOne(ELLIPSIS, w);
        if full != "" && Fits(full, if budget > 0 then budget - 1 else 0, w) == 0 {
          assert full[..1] == [full[0]];
          WidthOne(full[0], w);
        } else if budget == 0 {
          NothingFits(full, k, w);
        }
      }
    }
  }

  /** A prefix without width adds none. */
  lemma NothingFits(s: string, k: nat, w: char -> nat)
    requires k <= |s| && k == Fits(s, 0, w)
    ensures Width(s[..k], w) == 0
  {
  }

  /** A segment is trimmed no further than needed: one field character more would not have fitted. */
  lemma AnswerIsLongest(seg: Segment, budget: nat, guard: bool, w: char -> nat)
    requires Width(FullText(seg), w) > budget && HasField(seg) && LitWidth(seg, w) + 1 <= budget
    ensures Forced(seg, budget, guard, w)
            || (KeptChars(seg, budget, guard, w) < |FieldText(seg)|
                && LitWidth(seg, w) + Width(FieldText(seg)[..KeptChars(seg, budget, guard, w) + 1], w) + 1 > budget)
    ensures FitAnswer(seg, budget, guard, w) == None ==> LitWidth(seg, w) + Width(FieldText(seg)[..1], w) + 1 > budget
  {
    var f := FieldText(seg);
    TextWidth(seg, w);
    assert f[..|f|] == f;
  }

  // ---------------------------------------------------------------- the whole label

  function Join(segs: seq<Segment>): string {
    if segs == [] then ""
    else if |segs| == 1 then FullText(segs[0])
    else FullText(segs[0]) + " " + Join(segs[1..])
  }

  lemma {:induction false} JoinLast(segs: seq<Segment>)
    requires |segs| > 1
    ensures Join(segs) == Join(segs[..|segs| - 1]) + " " + FullText(segs[|segs| - 1])
  {
    var init := segs[..|segs| - 1];
    if |segs| == 2 {
      assert segs[1..][0] == segs[1];
    } else {
      JoinLast(segs[1..]);
      assert segs[1..][..|segs| - 2] == init[1..];
    }
  }

  /** Segments are joined in order, one space between any two. */
  lemma {:induction false} JoinExact(a: seq<Segment>, b: seq<Segment>)
    requires a != [] && b != []
    ensures Join(a + b) == Join(a) + " " + Join(b) && Join([a[0]]) == FullText(a[0])
  {
    var all, tail := a + b, a[1..] + b;
    assert all[0] == a[0] && all[1..] == tail;
    if |a| == 1 {
      assert tail == b;
    } else {
      JoinExact(a[1..], b);
      JoinTwice(FullText(a[0]) + " ", Join(a[1..]), " ");
      JoinTwice(FullText(a[0]) + " ", Join(a[1..]) + " ", Join(b));
    }
  }

  function Lead(segs: seq<Segment>, n: nat): string
    requires 1 <= n <= |segs|
  {
    if n == 1 then "" else Join(segs[..n - 1]) + " "
  }

  lemma JoinHead(segs: seq<Segment>, n: nat)
    requires 1 <= n <= |segs|
    ensures Join(segs[..n]) == Lead(segs, n) + FullText(segs[n - 1])
  {
    if n > 1 {
      JoinLast(segs[..n]);
      assert segs[..n][..n - 1] == segs[..n - 1];
    } else {
      assert segs[..1] == [segs[0]];
    }
  }

  function Budget(segs: seq<Segment>, n: nat, avail: nat, w: char -> nat): nat
    requires 1 <= n <= |segs|
  {
    var used := Width(Lead(segs, n), w);
    if used <= avail then avail - used else 0
  }

  ghost function LastAnswer(segs: seq<Segment>, n: nat, avail: nat, w: char -> nat): Option<string>
    requires 1 <= n <= |segs|
  {
    FitAnswer(segs[n - 1], Budget(segs, n, avail, w), n == 1, w)
  }

  /** With the first `n` segments left, the label is `r`: all of them unmodified but the last. */
  ghost predicate Shows(segs: seq<Segment>, avail: nat, n: nat, r: string, w: char -> nat) {
    1 <= n <= |segs|
    && if Width(Join(segs[..n]), w) <= avail then r == Join(segs[..n])
       else LastAnswer(segs, n, avail, w).Some? && r == Lead(segs, n) + LastAnswer(segs, n, avail, w).value
  }

  /** The last of the first `n` segments has to go. */
  ghost predicate Drops(segs: seq<Segment>, avail: nat, n: nat, w: char -> nat) {
    1 < n <= |segs| && Width(Join(segs[..n]), w) > avail && LastAnswer(segs, n, avail, w) == None
  }

  lemma ShowsWhole(segs: seq<Segment>, avail: nat, n: nat, r: string, w: char -> nat)
    requires 1 <= n <= |segs| && r == Join(segs[..n]) && Width(r, w) <= avail
    ensures Shows(segs, avail, n, r, w)
  {
  }

  lemma ShowsCut(segs: seq<Segment>, avail: nat, n: nat, answer: Option<string>, w: char -> nat)
    requires 1 <= n <= |segs| && Width(Join(segs[..n]), w) > avail
    requires answer.Some? && answer == LastAnswer(segs, n, avail, w)
    ensures Shows(segs, avail, n, Lead(segs, n) + answer.value, w)
  {
  }

  lemma DropsLast(segs: seq<Segment>, avail: nat, n: nat, w: char -> nat)
    requires 1 <= n <= |segs| && Width(Join(segs[..n]), w) > avail && LastAnswer(segs, n, avail, w) == None
    ensures Drops(segs, avail, n, w)
  {
  }

  /** `fit_label`. */
  method FitLabel(segs: seq<Segment>, avail: nat, w: char -> nat) returns (r: string, ghost n: nat)
    requires WidthTable(w)
    ensures segs == [] ==> r == ""
    ensures segs != [] ==> Shows(segs, avail, n, r, w) && forall m :: n < m <= |segs| ==> Drops(segs, avail, m, w)
  {
    n := 0;
    if segs == [] {
      return "", 0;
    }
    var k := |segs|;
    while true
      invariant 1 <= k <= |segs|
      invariant forall m :: k < m <= |segs| ==> Drops(segs, avail, m, w)
      decreases k
    {
      var joined := Join(segs[..k]);
      if Width(joined, w) <= avail {
        ShowsWhole(segs, avail, k, joined, w);
        return joined, k;
      }
      var lead, answer := FitLast(segs, k, avail, w);
      if answer.Some? {
        ShowsCut(segs, avail, k, answer, w);
        return lead + answer.value, k;
      }
      DropsLast(segs, avail, k, w);
      k := k - 1;
    }
  }

  /** The last of the first `k` segments, fitted into the space the others leave. */
  method FitLast(segs: seq<Segment>, k: nat, avail: nat, w: char -> nat) returns (lead: string, answer: Option<string>)
    requires WidthTable(w) && 1 <= k <= |segs|
    ensures lead == Lead(segs, k) && answer == LastAnswer(segs, k, avail, w)
  {
    var onlyFirst := k == 1;
    lead := if onlyFirst then "" else Join(segs[..k - 1]) + " ";
    var used := Width(lead, w);
    answer := FitSegment(segs[k - 1], if used <= avail then avail - used else 0, onlyFirst, w);
  }

  /** The label fits, except for what the first segment cannot do without; or else the last segment left has no
      width at all and those before it fill the space. */
  lemma LabelFits(segs: seq<Segment>, avail: nat, n: nat, r: string, w: char -> nat)
    requires WidthTable(w) && Shows(segs, avail, n, r, w)
    ensures n == 1 ==> Width(r, w) <= avail || Width(r, w) <= LeastWidth(segs[0], w)
    ensures n > 1 ==> (Width(r, w) > avail <==>
                         Width(FullText(segs[n - 1]), w) == 0 && Width(Join(segs[..n - 1]), w) >= avail)
  {
    JoinHead(segs, n);
    WidthAppend(Lead(segs, n), FullText(segs[n - 1]), w);
    if n > 1 {
      WidthAppend(Join(segs[..n - 1]), " ", w);
      WidthOne(' ', w);
    }
    if Width(Join(segs[..n]), w) > avail {
      AnswerFits(segs[n - 1], Budget(segs, n, avail, w), n == 1, w);
      WidthAppend(Lead(segs, n), LastAnswer(segs, n, avail, w).value, w);
    }
  }

  /** `s[..k]` is the longest prefix that fits; where even the first character does not and one is due, just that. */
  ghost predicate LongestKept(s: string, k: nat, cols: nat, due: bool, w: char -> nat) {
    k <= |s|
    && if due && s != "" && w(s[0]) > cols then k == 1
       else Width(s[..k], w) <= cols && (k < |s| ==> Width(s[..k + 1], w) > cols)
  }

  lemma FitsFirst(s: string, cols: nat, w: char -> nat)
    ensures Fits(s, cols, w) == 0 <==> s == "" || w(s[0]) > cols
    ensures LongestKept(s, Fits(s, cols, w), cols, false, w)
  {
    if s != "" {
      WidthNext(s, 0, w);
      assert s[..0] == "";
      if w(s[0]) <= cols { assert Width(s[..1], w) <= cols; }
    }
  }

  /** The columns left for the last segment's field characters beside everything else that is shown. */
  function Room(segs: seq<Segment>, n: nat, avail: nat, w: char -> nat): nat
    requires 1 <= n <= |segs|
  {
    var others := Width(Lead(segs, n), w) + LitWidth(segs[n - 1], w) + 1;
    if others <= avail then avail - others else 0
  }

  /** A segment too wide for its budget: cut after as many field characters as fit, at least one if it is protected.
      Only a protected segment without fields loses literals. */
  ghost predicate FittedInto(seg: Segment, cols: nat, guard: bool, k: nat, cut: nat, w: char -> nat) {
    LongestKept(FieldText(seg), k, cols, guard, w)
    && CutsAfter(Marks(seg), cut, k, guard && FieldText(seg) != "" && w(FieldText(seg)[0]) > cols)
  }

  lemma AnswerExact(seg: Segment, budget: nat, guard: bool, w: char -> nat) returns (k: nat, cut: nat)
    requires Width(FullText(seg), w) > budget && FitAnswer(seg, budget, guard, w).Some?
    ensures HasField(seg) ==>
              FittedInto(seg, FieldCols(seg, budget, w), guard, k, cut, w)
              && FitAnswer(seg, budget, guard, w).value == CutText(Marks(seg), cut)
    ensures !HasField(seg) ==>
              guard && LongestKept(FullText(seg), k, if budget > 0 then budget - 1 else 0, true, w)
              && FitAnswer(seg, budget, guard, w).value == FullText(seg)[..k] + [ELLIPSIS]
  {
    var f := FieldText(seg);
    k, cut := 0, 0;
    if HasField(seg) {
      k := KeptChars(seg, budget, guard, w);
      FitsFirst(f, FieldCols(seg, budget, w), w);
      cut := TrimmedExact(seg, k, Forced(seg, budget, guard, w));
    } else {
      k := KeptBefore(FullText(seg), budget, w);
      FitsFirst(FullText(seg), if budget > 0 then budget - 1 else 0, w);
    }
  }

  lemma RoomLeft(segs: seq<Segment>, n: nat, avail: nat, w: char -> nat)
    requires 1 <= n <= |segs| && Width(Join(segs[..n]), w) > avail
    ensures FieldCols(segs[n - 1], Budget(segs, n, avail, w), w) == Room(segs, n, avail, w)
    ensures Width(FullText(segs[n - 1]), w) <= Budget(segs, n, avail, w) <==> Width(FullText(segs[n - 1]), w) == 0
    ensures n == 1 ==> Lead(segs, n) == "" && Budget(segs, n, avail, w) == avail
  {
    JoinHead(segs, n);
    WidthAppend(Lead(segs, n), FullText(segs[n - 1]), w);
  }

  /** A label too wide for its space: the segments before the last stand whole, and the last takes the rest. */
  lemma LabelExact(segs: seq<Segment>, avail: nat, n: nat, r: string, w: char -> nat) returns (k: nat, cut: nat)
    requires Shows(segs, avail, n, r, w) && Width(Join(segs[..n]), w) > avail
    ensures var seg := segs[n - 1];
            if Width(FullText(seg), w) == 0 then r == Lead(segs, n) + FullText(seg)
            else if HasField(seg)
            then FittedInto(seg, Room(segs, n, avail, w), n == 1, k, cut, w)
                 && r == Lead(segs, n) + CutText(Marks(seg), cut)
            else n == 1 && LongestKept(FullText(seg), k, if avail > 0 then avail - 1 else 0, true, w)
                 && r == FullText(seg)[..k] + [ELLIPSIS]
  {
    var seg := segs[n - 1];
    k, cut := 0, 0;
    RoomLeft(segs, n, avail, w);
    if Width(FullText(seg), w) > 0 {
      k, cut := AnswerExact(seg, Budget(segs, n, avail, w), n == 1, w);
      if !HasField(seg) {
        assert "" + LastAnswer(segs, n, avail, w).value == LastAnswer(segs, n, avail, w).value;
      }
    }
  }

  /** A segment is dropped exactly when it is not the first, has some width, and not even one of its field
      characters would fit. */
  lemma DropsExact(segs: seq<Segment>, avail: nat, n: nat, w: char -> nat)
    requires 1 <= n <= |segs|
    ensures Drops(segs, avail, n, w) <==>
              1 < n && Width(Join(segs[..n]), w) > avail && Width(FullText(segs[n - 1]), w) > 0
              && (FieldText(segs[n - 1]) == ""
                  || Width(Lead(segs, n), w) + LitWidth(segs[n - 1], w) + w(FieldText(segs[n - 1])[0]) + 1 > avail)
  {
    var seg, budget := segs[n - 1], Budget(segs, n, avail, w);
    if Width(Join(segs[..n]), w) > avail {
      RoomLeft(segs, n, avail, w);
      FitsFirst(FieldText(seg), FieldCols(seg, budget, w), w);
      if !HasField(seg) { TextIsFields(seg); }
    }
  }

  /** An example: a second segment that is one character without width, in a label of one column. */
  lemma WidthlessOverflows(a: char, z: char, w: char -> nat)
    requires WidthTable(w) && w(a) == 1 && w(z) == 0
    ensures var segs := [[Piece([a], true)], [Piece([z], true)]];
            Shows(segs, 1, 2, [a] + " " + [z], w) && Width([a] + " " + [z], w) == 2
  {
    var segs := [[Piece([a], true)], [Piece([z], true)]];
    OnePiece(a);
    OnePiece(z);
    assert segs[..2] == segs && segs[..1] == [segs[0]] && segs[1..] == [segs[1]];
    WidthOne(a, w);
    WidthOne(' ', w);
    WidthOne(z, w);
    WidthAppend([a], " ", w);
    WidthAppend([a] + " ", [z], w);
    assert Join(segs) == [a] + " " + [z] && Lead(segs, 2) == [a] + " ";
    assert LastAnswer(segs, 2, 1, w) == Some([z]);
  }

  lemma OnePiece(c: char)
    ensures FullText([Piece([c], true)]) == [c]
  {
    assert [Piece([c], true)][1..] == [] && [c] + "" == [c];
  }

  /** So when every later segment has some width, the label fits or only the first segment is left. */
  lemma SolidLabelFits(segs: seq<Segment>, avail: nat, n: nat, r: string, w: char -> nat)
    requires WidthTable(w) && Shows(segs, avail, n, r, w)
    requires forall i :: 0 < i < |segs| ==> Width(FullText(segs[i]), w) > 0
    ensures Width(r, w) <= avail || (n == 1 && Width(r, w) <= LeastWidth(segs[0], w))
  {
    LabelFits(segs, avail, n, r, w);
  }

  /** A label that fits is shown as it is. */
  lemma FullWhenItFits(segs: seq<Segment>, avail: nat, n: nat, r: string, w: char -> nat)
    requires Shows(segs, avail, n, r, w) && Width(Join(segs), w) <= avail
    requires n < |segs| ==> Drops(segs, avail, |segs|, w)
    ensures n == |segs| && r == Join(segs)
  {
    assert segs[..|segs|] == segs;
  }

  /** Segments made by splitting have some width in every table that gives each character at least one column. */
  lemma {:induction false} SolidHasWidth(seg: Segment, w: char -> nat)
    requires Solid(seg) && forall c :: w(c) >= 1
    ensures Width(FullText(seg), w) > 0
  {
    WidthAppend(seg[0].text, FullText(seg[1..]), w);
    assert seg[0].text != "";
  }
}
