/** DN handling of `detect/mod.rs` and the sampled entries of `detect/model.rs`. */
module DnText {
  import opened Text

  /** Fewer entries than this show no pattern. */
  const MIN_SAMPLE := 3

  /** `s` cut at its unescaped commas; `cur` is the component read so far. */
  function Cut(cur: string, s: string, escaped: bool): seq<string>
    decreases s
  {
    if s == "" then [cur]
    else if escaped then Cut(cur + [s[0]], s[1..], false)
    else if s[0] == '\\' then Cut(cur + [s[0]], s[1..], true)
    else if s[0] == ',' then [cur] + Cut("", s[1..], false)
    else Cut(cur + [s[0]], s[1..], false)
  }

  function Components(dn: string): seq<string> {
    if dn == "" then [] else Cut("", dn, false)
  }

  method DnComponents(dn: string) returns (out: seq<string>)
    ensures out == Components(dn)
  {
    out := [];
    var start, escaped := 0, false;
    for i := 0 to |dn|
      invariant 0 <= start <= i
      invariant Cut("", dn, false) == out + Cut(dn[start..i], dn[i..], escaped)
    {
      assert dn[start..i] + [dn[i]] == dn[start..i + 1];
      assert dn[i..][0] == dn[i] && dn[i..][1..] == dn[i + 1..];
      if escaped {
        escaped := false;
      } else if dn[i] == '\\' {
        escaped := true;
      } else if dn[i] == ',' {
        assert out + ([dn[start..i]] + Cut("", dn[i + 1..], false))
            == out + [dn[start..i]] + Cut("", dn[i + 1..], false);
        out := out + [dn[start..i]];
        start := i + 1;
        assert dn[start..i + 1] == "";
      }
    }
    assert dn[|dn|..] == "" && dn[start..|dn|] == dn[start..];
    if dn != "" {
      out := out + [dn[start..]];
    }
  }

  function Join(parts: seq<string>, sep: string): string {
    if parts == [] then "" else if |parts| == 1 then parts[0] else parts[0] + sep + Join(parts[1..], sep)
  }

  lemma {:induction false} CutJoins(cur: string, s: string, escaped: bool)
    ensures Cut(cur, s, escaped) != [] && Join(Cut(cur, s, escaped), ",") == cur + s
    decreases s
  {
    if s != "" {
      if !escaped && s[0] == ',' {
        CutJoins("", s[1..], false);
        var tail := Cut("", s[1..], false);
        assert ([cur] + tail)[1..] == tail;
        assert cur + "," + s[1..] == cur + s;
      } else {
        CutJoins(cur + [s[0]], s[1..], !escaped && s[0] == '\\');
        assert cur + [s[0]] + s[1..] == cur + s;
      }
    }
  }

  /** A text that ends in a backslash which escapes whatever comes next. */
  predicate Open(s: string) {
    s != "" && s[|s| - 1] == '\\' && !Open(s[..|s| - 1])
  }

  /** Every comma in the text is escaped. */
  predicate NoFreeComma(s: string) {
    forall i :: 0 <= i < |s| && s[i] == ',' ==> Open(s[..i])
  }

  lemma OpenSnoc(s: string, c: char)
    ensures Open(s + [c]) <==> !Open(s) && c == '\\'
    ensures NoFreeComma(s) && (c != ',' || Open(s)) ==> NoFreeComma(s + [c])
  {
    assert (s + [c])[..|s|] == s;
    if NoFreeComma(s) && (c != ',' || Open(s)) {
      forall i | 0 <= i < |s + [c]| && (s + [c])[i] == ',' ensures Open((s + [c])[..i]) {
        if i < |s| { assert (s + [c])[..i] == s[..i]; }
      }
    }
  }

  /** The cuts are at the free commas: none is left inside a piece, and none of them is escaped. */
  predicate WellCut(parts: seq<string>) {
    forall i :: 0 <= i < |parts| ==> NoFreeComma(parts[i]) && (i < |parts| - 1 ==> !Open(parts[i]))
  }

  lemma {:induction false} CutIsWell(cur: string, s: string)
    requires NoFreeComma(cur)
    ensures WellCut(Cut(cur, s, Open(cur)))
    decreases s
  {
    if s != "" {
      if !Open(cur) && s[0] == ',' {
        CutIsWell("", s[1..]);
      } else {
        OpenSnoc(cur, s[0]);
        CutIsWell(cur + [s[0]], s[1..]);
      }
    }
  }

  /** Splitting loses nothing and cuts at exactly the free commas. */
  lemma ComponentsJoin(dn: string)
    ensures Join(Components(dn), ",") == dn
    ensures WellCut(Components(dn))
  {
    if dn != "" {
      CutJoins("", dn, false);
      CutIsWell("", dn);
    }
  }

  function FirstComponent(dn: string): string {
    CutJoins("", dn, false);
    Cut("", dn, false)[0]
  }

  function ParentDn(dn: string): Option<string> {
    if dn == "" then None
    else
      var n := |FirstComponent(dn)| + 1;
      if n > |dn| then None
      else
        var rest := TrimStart(dn[n..]);
        if rest == "" then None else Some(rest)
  }

  function NormalizeComponent(c: string): string {
    match SplitOnce(c, '=')
    case Some((a, v)) => Trim(a) + "=" + Trim(v)
    case None => Trim(c)
  }

  function NormalizeDn(dn: string): string {
    var parts := Components(dn);
    Lower(Join(seq(|parts|, i requires 0 <= i < |parts| => NormalizeComponent(parts[i])), ","))
  }

  predicate DnEq(a: string, b: string) {
    NormalizeDn(a) == NormalizeDn(b)
  }

  predicate EndsWith<T(==)>(s: seq<T>, t: seq<T>) {
    |t| <= |s| && s[|s| - |t|..] == t
  }

  predicate DnWithin(dn: string, base: string) {
    NormalizeDn(dn) == NormalizeDn(base) || EndsWith(NormalizeDn(dn), "," + NormalizeDn(base))
  }

  lemma {:induction false} OpenAfterComma(p: string, r: string)
    ensures Open(p + "," + r) <==> Open(r)
  {
    var s := p + "," + r;
    if r == "" {
      assert s[|s| - 1] == ',';
    } else {
      assert s[..|s| - 1] == p + "," + r[..|r| - 1];
      OpenAfterComma(p, r[..|r| - 1]);
    }
  }

  lemma CutStep(cur: string, s: string)
    requires s != "" && (Open(cur) || s[0] != ',')
    ensures Cut(cur, s, Open(cur)) == Cut(cur + [s[0]], s[1..], Open(cur + [s[0]]))
    ensures cur + [s[0]] + s[1..] == cur + s
  {
    OpenSnoc(cur, s[0]);
  }

  lemma {:induction false} CutAtComma(cur: string, x: string, y: string)
    requires !Open(cur + x)
    ensures Cut(cur, x + "," + y, Open(cur)) == Cut(cur, x, Open(cur)) + Cut("", y, false)
    decreases x
  {
    var s := x + "," + y;
    if x == "" {
      assert cur + x == cur && s[1..] == y;
    } else {
      assert s[1..] == x[1..] + "," + y;
      if x[0] == ',' && !Open(cur) {
        assert cur + x == cur + "," + x[1..] && "" + x[1..] == x[1..];
        OpenAfterComma(cur, x[1..]);
        CutAtComma("", x[1..], y);
      } else {
        CutStep(cur, x);
        CutStep(cur, s);
        CutAtComma(cur + [x[0]], x[1..], y);
      }
    }
  }

  lemma {:induction false} JoinAppend(a: seq<string>, b: seq<string>)
    requires a != [] && b != []
    ensures Join(a + b, ",") == Join(a, ",") + "," + Join(b, ",")
  {
    assert (a + b)[1..] == a[1..] + b;
    if |a| > 1 {
      JoinAppend(a[1..], b);
      assert a[0] + "," + (Join(a[1..], ",") + "," + Join(b, ",")) == Join(a, ",") + "," + Join(b, ",");
    } else {
      assert a[1..] + b == b;
    }
  }

  lemma {:induction false} JoinIsClosed(p: seq<string>)
    requires p != [] && forall i :: 0 <= i < |p| ==> !Open(p[i])
    ensures !Open(Join(p, ","))
  {
    if |p| > 1 {
      forall i | 0 <= i < |p[1..]| ensures !Open(p[1..][i]) { assert p[1..][i] == p[i + 1]; }
      JoinIsClosed(p[1..]);
      OpenAfterComma(p[0], Join(p[1..], ","));
    }
  }

  lemma SuffixStringMeansComponents(n: string, m: string)
    requires m != "" && EndsWith(n, "," + m) && !Open(n[..|n| - |m| - 1])
    ensures EndsWith(Components(n), Components(m))
  {
    var x := n[..|n| - |m| - 1];
    assert n == x + ("," + m) == x + "," + m;
    assert "" + x == x;
    CutAtComma("", x, m);
    var cx, cm := Cut("", x, false), Components(m);
    assert Components(n) == cx + cm;
    assert (cx + cm)[|cx + cm| - |cm|..] == cm;
  }

  lemma AroundComma(x: string, m: string)
    ensures var n := x + "," + m;
            EndsWith(n, "," + m) && n[..|n| - |m| - 1] == x
  {
    assert x + "," + m == x + ("," + m);
  }

  lemma ComponentsMeanSuffixString(n: string, m: string)
    requires m != "" && EndsWith(Components(n), Components(m))
    ensures n == m || (EndsWith(n, "," + m) && !Open(n[..|n| - |m| - 1]))
  {
    var cn, cm := Components(n), Components(m);
    ComponentsJoin(n);
    ComponentsJoin(m);
    var p := cn[..|cn| - |cm|];
    assert cn == p + cm;
    if p == [] {
      assert cn == cm;
    } else {
      CutJoins("", m, false);
      JoinAppend(p, cm);
      assert forall i :: 0 <= i < |p| ==> p[i] == cn[i];
      JoinIsClosed(p);
      AroundComma(Join(p, ","), m);
    }
  }

  lemma {:induction false} CutWhole(cur: string, s: string)
    requires NoFreeComma(cur + s)
    ensures Cut(cur, s, Open(cur)) == [cur + s]
    decreases s
  {
    if s == "" {
      assert cur + s == cur;
    } else {
      assert (cur + s)[|cur|] == s[0] && (cur + s)[..|cur|] == cur;
      CutStep(cur, s);
      CutWhole(cur + [s[0]], s[1..]);
    }
  }

  /** The parent is what follows the first free comma, less the white space in front of it; with nothing there, or no
      free comma, there is none. */
  lemma ParentExact(x: string, y: string)
    requires NoFreeComma(x)
    ensures ParentDn(x) == None
    ensures !Open(x) ==> ParentDn(x + "," + y) == if TrimStart(y) == "" then None else Some(TrimStart(y))
  {
    assert "" + x == x;
    CutWhole("", x);
    if !Open(x) {
      var dn := x + "," + y;
      CutAtComma("", x, y);
      assert FirstComponent(dn) == x && dn[|x| + 1..] == y;
    }
  }

  /** The exact relation between "within" and the components of the normalized texts: the base's components
      end the DN's exactly when the text test succeeds and the comma it found is not an escaped one. */
  lemma WithinIsComponentSuffix(dn: string, base: string)
    requires NormalizeDn(base) != ""
    ensures var n, m := NormalizeDn(dn), NormalizeDn(base);
            EndsWith(Components(n), Components(m)) <==>
              DnWithin(dn, base) && (n == m || !Open(n[..|n| - |m| - 1]))
  {
    var n, m := NormalizeDn(dn), NormalizeDn(base);
    if n == m {
      assert Components(n)[0..] == Components(n);
    } else if EndsWith(Components(n), Components(m)) {
      ComponentsMeanSuffixString(n, m);
    } else if EndsWith(n, "," + m) && !Open(n[..|n| - |m| - 1]) {
      SuffixStringMeansComponents(n, m);
    }
  }

  /** Under an empty base, where every DN belongs, only the empty DN and a DN with a comma at its end are found. */
  lemma WithinEmptyBase(dn: string, base: string)
    requires NormalizeDn(base) == ""
    ensures EndsWith(Components(NormalizeDn(dn)), Components(NormalizeDn(base)))
    ensures var n := NormalizeDn(dn);
            DnWithin(dn, base) <==> n == "" || n[|n| - 1] == ','
  {
    assert [','] + "" == [','];
    var n := NormalizeDn(dn);
    if n != "" { assert n[|n| - 1..] == [n[|n| - 1]]; }
  }

  /** Text that normalizing leaves alone and that holds no separator. */
  predicate PlainText(t: string) {
    && t != "" && !IsSpace(t[0]) && !IsSpace(t[|t| - 1]) && Lower(t) == t
    && ',' !in t && '\\' !in t && '=' !in t
  }

  lemma {:induction false} CutPlain(cur: string, t: string, rest: string)
    requires ',' !in t && '\\' !in t
    ensures Cut(cur, t + rest, false) == Cut(cur + t, rest, false)
    decreases t
  {
    if t == "" {
      assert t + rest == rest && cur + t == cur;
    } else {
      assert (t + rest)[1..] == t[1..] + rest;
      CutPlain(cur + [t[0]], t[1..], rest);
      assert cur + [t[0]] + t[1..] == cur + t;
    }
  }

  lemma CutEscape(cur: string, rest: string)
    ensures Cut(cur, ['\\', ','] + rest, false) == Cut(cur + ['\\', ','], rest, false)
  {
    var s := ['\\', ','] + rest;
    assert s[1..] == [','] + rest && s[1..][1..] == rest;
    assert cur + ['\\'] + [','] == cur + ['\\', ','];
  }

  lemma EscapedIsOneComponent(a: string, b: string)
    requires ',' !in a && '\\' !in a && ',' !in b && '\\' !in b
    ensures Components(a + (['\\', ','] + b)) == [a + (['\\', ','] + b)]
  {
    CutPlain("", a, ['\\', ','] + b);
    CutEscape("" + a, b);
    CutPlain("" + a + ['\\', ','], b, "");
    assert b + "" == b && "" + a + ['\\', ','] + b == a + (['\\', ','] + b);
  }

  lemma PlainIsNormal(d: string)
    requires d != "" && !IsSpace(d[0]) && !IsSpace(d[|d| - 1]) && '=' !in d && Lower(d) == d
    requires Components(d) == [d]
    ensures NormalizeDn(d) == d
  {
    BeforeUnchanged(d, '=');
    TrimNoSpaces(d);
    var parts := Components(d);
    assert seq(|parts|, i requires 0 <= i < |parts| => NormalizeComponent(parts[i])) == [d];
  }

  lemma LowerAppend(a: string, b: string)
    ensures Lower(a + b) == Lower(a) + Lower(b)
  {
  }

  /** With an escaped comma the string test accepts a DN that has a single component. */
  lemma WithinMisreadsEscapes(a: string, b: string)
    requires PlainText(a) && PlainText(b)
    ensures var d := a + (['\\', ','] + b);
            DnWithin(d, b) && Components(d) == [d]
  {
    var esc := ['\\', ','] + b;
    var d := a + esc;
    EscapedIsOneComponent(a, b);
    PlainIsOneComponent(b);
    NormalOfEscaped(a, b);
    PlainIsNormal(b);
    EndsWithTail(a + ['\\'], [','] + b);
    assert a + ['\\'] + ([','] + b) == d;
  }

  lemma EndsWithTail(x: string, t: string)
    ensures EndsWith(x + t, t)
  {
  }

  lemma PlainIsOneComponent(b: string)
    requires b != "" && ',' !in b && '\\' !in b
    ensures Components(b) == [b]
  {
    CutPlain("", b, "");
    assert b + "" == b && "" + b == b;
  }

  lemma NormalOfEscaped(a: string, b: string)
    requires PlainText(a) && PlainText(b)
    ensures NormalizeDn(a + (['\\', ','] + b)) == a + (['\\', ','] + b)
  {
    var esc := ['\\', ','] + b;
    LowerAppend(a, esc);
    LowerAppend(['\\', ','], b);
    assert Lower(['\\', ',']) == ['\\', ','];
    EscapedIsOneComponent(a, b);
    assert (a + esc)[0] == a[0] && (a + esc)[|a + esc| - 1] == b[|b| - 1];
    PlainIsNormal(a + esc);
  }
}

/** One sampled entry (`detect/model.rs`). */
module Samples {
  import opened Text
  import opened Tables
  import opened DnText

  datatype SampleEntry = SampleEntry(dn: string, attrs: Table<seq<string>>) {
    function Values(attr: string): seq<string> {
      match Find(attrs, attr)
      case None => []
      case Some(vs) => vs
    }

    /** The first non-blank value, trimmed. */
    function First(attr: string): Option<string> {
      FirstNonBlank(Values(attr))
    }

    predicate HasClass(oc: string) {
      exists c :: c in Values("objectClass") && EqCi(Trim(c), oc)
    }

    function Parent(): Option<string> {
      ParentDn(dn)
    }
  }

  function FirstNonBlank(vs: seq<string>): Option<string> {
    if vs == [] then None
    else if Trim(vs[0]) != "" then Some(Trim(vs[0]))
    else FirstNonBlank(vs[1..])
  }

  /** The single value read from an attribute: the first that is not blank, trimmed. */
  lemma {:induction false} FirstExact(vs: seq<string>) returns (i: nat)
    ensures i <= |vs| && forall j :: 0 <= j < i ==> Trim(vs[j]) == ""
    ensures if i == |vs| then FirstNonBlank(vs) == None
            else Trim(vs[i]) != "" && FirstNonBlank(vs) == Some(Trim(vs[i]))
  {
    i := 0;
    if vs != [] && Trim(vs[0]) == "" {
      var n := FirstExact(vs[1..]);
      i := n + 1;
      forall j | 0 <= j < i ensures Trim(vs[j]) == "" { if j > 0 { assert vs[j] == vs[1..][j - 1]; } }
    }
  }

  const U32_MAX := 0xFFFF_FFFF
  const U64_MAX := 0xFFFF_FFFF_FFFF_FFFF

  function DigitsValue(s: string): Option<nat> {
    if s == "" then Some(0)
    else
      match DigitsValue(s[..|s| - 1])
      case None => None
      case Some(n) =>
        var d := s[|s| - 1];
        if '0' <= d <= '9' then Some(10 * n + (d as int - '0' as int)) else None
  }

  /** Rust's `parse` of an unsigned integer: an optional `+`, then decimal digits, within `max`. */
  function ParseUnsigned(s: string, max: nat): Option<nat> {
    var digits := if s != "" && s[0] == '+' then s[1..] else s;
    match DigitsValue(digits)
    case None => None
    case Some(n) => if digits != "" && n <= max then Some(n) else None
  }
}
