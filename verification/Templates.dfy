/** `config/defaults.rs` (default values) and `config/label.rs` (labels): template parsers and printers. */
module Templates {
  import opened Text
  import opened Tables
  import opened Samples
  import opened LiveTemplates
  import opened Ranges

  datatype DefaultValue =
    | Literal(text: string)
    | Template(segs: seq<Seg>)
    | AutoNumber(min: nat, max: nat)
    | ComputedSambaSid
    | DetectedRange(spec: RangeSpec)  // never written in a config

  datatype ParseError =
    | NotARange | BadNumber | MinAboveMax | UnknownComputed | Unterminated | EmptyPlaceholder

  function Flush(lit: string): seq<Seg> {
    if lit == "" then [] else [Lit(lit)]
  }

  /** The segments of `s` after the pending literal `lit`. */
  function ScanDefault(s: string, lit: string): Result<seq<Seg>, ParseError>
    decreases s
  {
    if s == "" then Ok(Flush(lit))
    else if s[0] != '{' then ScanDefault(s[1..], lit + [s[0]])
    else
      var name := Before(s[1..], '}');
      BeforeIsPrefix(s[1..], '}');
      if |name| == |s| - 1 then Err(Unterminated)
      else if name == "" then Err(EmptyPlaceholder)
      else
        match ScanDefault(s[|name| + 2..], "")
        case Err(e) => Err(e)
        case Ok(rest) => Ok(Flush(lit) + [Field(name)] + rest)
  }

  function StripBoth(s: string, prefix: string, suffix: string): Option<string> {
    if prefix <= s && |prefix| + |suffix| <= |s| && s[|s| - |suffix|..] == suffix
    then Some(s[|prefix|..|s| - |suffix|]) else None
  }

  function ParseRange(inner: string): Result<DefaultValue, ParseError> {
    match SplitOnce(inner, '-')
    case None => Err(NotARange)
    case Some((lo, hi)) =>
      match (ParseUnsigned(Trim(lo), U64_MAX), ParseUnsigned(Trim(hi), U64_MAX))
      case (Some(min), Some(max)) => if min > max then Err(MinAboveMax) else Ok(AutoNumber(min, max))
      case _ => Err(BadNumber)
  }

  function Parsed(s: string): Result<DefaultValue, ParseError> {
    var trimmed := Trim(s);
    match StripBoth(trimmed, "{next:", "}")
    case Some(inner) => ParseRange(inner)
    case None =>
      match StripBoth(trimmed, "{auto:", "}")
      case Some(inner) => if EqCi(Trim(inner), "sambaSID") then Ok(ComputedSambaSid) else Err(UnknownComputed)
      case None =>
        if '{' !in s then Ok(Literal(s))
        else match ScanDefault(s, "") case Err(e) => Err(e) case Ok(segs) => Ok(Template(segs))
  }

  function Decimal(n: nat): string {
    if n < 10 then [(n + 48) as char] else Decimal(n / 10) + [(n % 10 + 48) as char]
  }

  function PrintSeg(seg: Seg): string {
    match seg case Lit(l) => l case Field(f) => "{" + f + "}"
  }

  function Print(segs: seq<Seg>): string {
    if segs == [] then "" else PrintSeg(segs[0]) + Print(segs[1..])
  }

  function ToConfigString(v: DefaultValue): string {
    match v
    case Literal(s) => s
    case Template(segs) => Print(segs)
    case AutoNumber(min, max) => "{next:" + Decimal(min) + "-" + Decimal(max) + "}"
    case ComputedSambaSid => "{auto:sambaSID}"
    case DetectedRange(spec) => "(detected " + spec.attr + " range)"
  }

  /** The label parser never fails: a brace that is never closed stays literal text. */
  function ScanLabel(s: string, lit: string): seq<Seg>
    decreases s
  {
    if s == "" then Flush(lit)
    else if s[0] != '{' then ScanLabel(s[1..], lit + [s[0]])
    else
      var name := Before(s[1..], '}');
      BeforeIsPrefix(s[1..], '}');
      if |name| == |s| - 1 then ScanLabel(s[1..], lit + ['{'])
      else Flush(lit) + [Field(name)] + ScanLabel(s[|name| + 2..], "")
  }

  // ---------------------------------------------------------------- the loops

  ghost function After(segs: seq<Seg>, rest: Result<seq<Seg>, ParseError>): Result<seq<Seg>, ParseError> {
    match rest case Err(e) => Err(e) case Ok(more) => Ok(segs + more)
  }

  lemma NothingBefore(rest: Result<seq<Seg>, ParseError>)
    ensures After([], rest) == rest
  {
    if rest.Ok? { assert [] + rest.value == rest.value; }
  }

  method ScanTemplate(s: string) returns (r: Result<seq<Seg>, ParseError>)
    ensures r == ScanDefault(s, "")
  {
    var segs: seq<Seg>, lit := [], "";
    var i := 0;
    assert s[0..] == s;
    NothingBefore(ScanDefault(s, ""));
    while i < |s|
      invariant 0 <= i <= |s|
      invariant ScanDefault(s, "") == After(segs, ScanDefault(s[i..], lit))
    {
      if s[i] == '{' {
        var j := FindClose(s, i);
        ScanField(s, i, j, lit, segs);
        if j == |s| {
          return Err(Unterminated);
        }
        if j == i + 1 {
          return Err(EmptyPlaceholder);
        }
        segs := segs + (Flush(lit) + [Field(s[i + 1..j])]);
        lit := "";
        i := j + 1;
      } else {
        assert s[i..][1..] == s[i + 1..];
        lit := lit + [s[i]];
        i := i + 1;
      }
    }
    r := Ok(segs + Flush(lit));
  }

  method ParseLabelTemplate(s: string) returns (segs: seq<Seg>)
    ensures segs == ScanLabel(s, "")
  {
    segs := [];
    var lit := "";
    var i := 0;
    assert s[0..] == s;
    while i < |s|
      invariant 0 <= i <= |s|
      invariant ScanLabel(s, "") == segs + ScanLabel(s[i..], lit)
    {
      var j := if s[i] == '{' then |s| else i;
      if s[i] == '{' {
        j := FindClose(s, i);
        NameAt(s, i, j);
      }
      if i < j < |s| {
        assert segs + (Flush(lit) + [Field(s[i + 1..j])] + ScanLabel(s[j + 1..], ""))
            == segs + Flush(lit) + [Field(s[i + 1..j])] + ScanLabel(s[j + 1..], "");
        segs := segs + Flush(lit) + [Field(s[i + 1..j])];
        lit := "";
        i := j + 1;
      } else {
        assert s[i..][1..] == s[i + 1..];
        lit := lit + [s[i]];
        i := i + 1;
      }
    }
    segs := segs + Flush(lit);
  }

  method FindClose(s: string, i: nat) returns (j: nat)
    requires i < |s|
    ensures i < j <= |s| && '}' !in s[i + 1..j] && (j < |s| ==> s[j] == '}')
  {
    j := i + 1;
    while j < |s| && s[j] != '}'
      invariant i < j <= |s| && '}' !in s[i + 1..j]
    {
      assert s[i + 1..j + 1] == s[i + 1..j] + [s[j]];
      j := j + 1;
    }
  }

  /** The placeholder that opens at `i` and whose name runs up to `j`. */
  lemma NameAt(s: string, i: nat, j: nat)
    requires i < j <= |s| && s[i] == '{' && '}' !in s[i + 1..j] && (j < |s| ==> s[j] == '}')
    ensures Before(s[i..][1..], '}') == s[i + 1..j] && s[i..][0] == '{'
    ensures j < |s| ==> s[i..][j - i - 1 + 2..] == s[j + 1..]
  {
    assert s[i..][1..] == s[i + 1..];
    if j < |s| {
      assert s[i + 1..] == s[i + 1..j] + ['}'] + s[j + 1..];
      BeforeOf(s[i + 1..j], '}', s[j + 1..]);
    } else {
      assert s[i + 1..] == s[i + 1..j];
      BeforeUnchanged(s[i + 1..], '}');
    }
  }

  lemma ScanField(s: string, i: nat, j: nat, lit: string, segs: seq<Seg>)
    requires i < j <= |s| && s[i] == '{' && '}' !in s[i + 1..j] && (j < |s| ==> s[j] == '}')
    ensures j == |s| ==> ScanDefault(s[i..], lit) == Err(Unterminated)
    ensures i + 1 == j < |s| ==> ScanDefault(s[i..], lit) == Err(EmptyPlaceholder)
    ensures i + 1 < j < |s| ==>
              After(segs, ScanDefault(s[i..], lit))
              == After(segs + (Flush(lit) + [Field(s[i + 1..j])]), ScanDefault(s[j + 1..], ""))
  {
    NameAt(s, i, j);
    if i + 1 < j < |s| {
      var rest := ScanDefault(s[j + 1..], "");
      var head := Flush(lit) + [Field(s[i + 1..j])];
      assert ScanDefault(s[i..], lit) == After(head, rest);
      if rest.Ok? { assert segs + (head + rest.value) == segs + head + rest.value; }
    }
  }

  // ---------------------------------------------------------------- printing back

  lemma PrintOf(segs: seq<Seg>, head: Seg, tail: seq<Seg>)
    requires segs == [head] + tail
    ensures Print(segs) == PrintSeg(head) + Print(tail)
  {
    assert segs[1..] == tail;
  }

  lemma PrintHead(lit: string, name: string, rest: seq<Seg>, s: string)
    requires s == PrintSeg(Field(name)) + Print(rest)
    ensures Print(Flush(lit) + [Field(name)] + rest) == lit + s
  {
    var tail := [Field(name)] + rest;
    PrintOf(tail, Field(name), rest);
    FlushFirst(lit, [Field(name)], rest);
    if lit == "" {
      assert lit + s == s;
    } else {
      PrintOf([Lit(lit)] + tail, Lit(lit), tail);
    }
  }

  lemma FlushFirst(lit: string, f: seq<Seg>, rest: seq<Seg>)
    ensures Flush(lit) + f + rest == if lit == "" then f + rest else [Lit(lit)] + (f + rest)
  {
  }

  lemma PrintFlush(lit: string)
    ensures Print(Flush(lit)) == lit
  {
    if lit != "" { assert [Lit(lit)][1..] == []; }
  }

  lemma BraceSplit(s: string)
    requires s != "" && s[0] == '{' && |Before(s[1..], '}')| < |s| - 1
    ensures s == PrintSeg(Field(Before(s[1..], '}'))) + s[|Before(s[1..], '}')| + 2..]
  {
    BeforeIsPrefix(s[1..], '}');
    var n := |Before(s[1..], '}')|;
    assert s[1..][n] == '}' && s[1..n + 1] == s[1..][..n];
    assert s == [s[0]] + s[1..n + 1] + [s[n + 1]] + s[n + 2..];
  }

  /** Whatever the strict parser accepts prints back to the text it was read from. */
  lemma {:induction false} ScanPrints(s: string, lit: string)
    requires ScanDefault(s, lit).Ok?
    ensures Print(ScanDefault(s, lit).value) == lit + s
    decreases s
  {
    if s == "" {
      PrintFlush(lit);
    } else if s[0] != '{' {
      ScanPrints(s[1..], lit + [s[0]]);
      assert lit + [s[0]] + s[1..] == lit + s;
    } else {
      var name := Before(s[1..], '}');
      BeforeIsPrefix(s[1..], '}');
      var rest := ScanDefault(s[|name| + 2..], "").value;
      ScanPrints(s[|name| + 2..], "");
      BraceSplit(s);
      assert "" + s[|name| + 2..] == s[|name| + 2..];
      PrintHead(lit, name, rest, s);
    }
  }

  /** Every label template prints back to exactly its text, unclosed and nested braces included. */
  lemma {:induction false} LabelPrints(s: string, lit: string)
    ensures Print(ScanLabel(s, lit)) == lit + s
    decreases s
  {
    if s == "" {
      PrintFlush(lit);
    } else if s[0] != '{' {
      LabelPrints(s[1..], lit + [s[0]]);
      assert lit + [s[0]] + s[1..] == lit + s;
    } else {
      var name := Before(s[1..], '}');
      BeforeIsPrefix(s[1..], '}');
      if |name| == |s| - 1 {
        LabelPrints(s[1..], lit + ['{']);
        assert lit + ['{'] + s[1..] == lit + s;
      } else {
        LabelPrints(s[|name| + 2..], "");
        BraceSplit(s);
        assert "" + s[|name| + 2..] == s[|name| + 2..];
        PrintHead(lit, name, ScanLabel(s[|name| + 2..], ""), s);
      }
    }
  }

  // ---------------------------------------------------------------- the two parsers

  predicate StrictSeg(seg: Seg) {
    match seg case Lit(l) => '{' !in l case Field(f) => f != ""
  }

  predicate Strict(segs: seq<Seg>) {
    forall i :: 0 <= i < |segs| ==> StrictSeg(segs[i])
  }

  lemma {:induction false} OpenBraceStays(s: string, lit: string)
    requires '{' in lit
    ensures !Strict(ScanLabel(s, lit))
    decreases s
  {
    if s == "" || (s[0] == '{' && |Before(s[1..], '}')| != |s| - 1) {
      assert !StrictSeg(ScanLabel(s, lit)[0]);
    } else {
      OpenBraceStays(s[1..], lit + [s[0]]);
    }
  }

  /** Default values and labels share one template language: the strict parser accepts a text
      exactly when the lenient one finds no empty field and no brace left over, and they then agree. */
  lemma {:induction false} ParsersAgree(s: string, lit: string)
    requires '{' !in lit
    ensures ScanDefault(s, lit).Ok? <==> Strict(ScanLabel(s, lit))
    ensures ScanDefault(s, lit).Ok? ==> ScanDefault(s, lit).value == ScanLabel(s, lit)
    decreases s
  {
    if s == "" {
    } else if s[0] != '{' {
      ParsersAgree(s[1..], lit + [s[0]]);
    } else {
      var name := Before(s[1..], '}');
      BeforeIsPrefix(s[1..], '}');
      if |name| == |s| - 1 {
        OpenBraceStays(s[1..], lit + ['{']);
      } else {
        ParsersAgree(s[|name| + 2..], "");
        StrictParts(lit, name, ScanLabel(s[|name| + 2..], ""));
      }
    }
  }

  lemma StrictParts(lit: string, name: string, rest: seq<Seg>)
    requires '{' !in lit
    ensures Strict(Flush(lit) + [Field(name)] + rest) <==> name != "" && Strict(rest)
  {
    var all := Flush(lit) + [Field(name)] + rest;
    var k := |Flush(lit)|;
    assert all[k] == Field(name);
    assert forall i :: 0 <= i < |rest| ==> rest[i] == all[k + 1 + i];
    assert forall i :: 0 <= i < k ==> all[i] == Lit(lit);
    if Strict(all) {
      assert StrictSeg(all[k]);
      forall i | 0 <= i < |rest| ensures StrictSeg(rest[i]) { assert StrictSeg(all[k + 1 + i]); }
    }
    if name != "" && Strict(rest) {
      forall i | 0 <= i < |all| ensures StrictSeg(all[i]) {
        if i > k { assert all[i] == rest[i - k - 1]; }
      }
    }
  }

  // ---------------------------------------------------------------- which segment lists are printable

  /** No empty or adjacent literals; a brace in a literal is one that nothing after it closes. */
  predicate Readable(segs: seq<Seg>)
    decreases |segs|
  {
    segs == [] ||
    ((match segs[0]
      case Field(f) => '}' !in f
      case Lit(l) =>
        l != "" && (segs[1..] == [] || segs[1].Field?)
        && ('{' in l ==> segs[1..] == [] && '}' !in l[Opening(l)..]))
     && Readable(segs[1..]))
  }

  /** Where the first opening brace stands, or the length. */
  function Opening(l: string): (i: nat)
    ensures i <= |l| && '{' !in l[..i] && (i < |l| ==> l[i] == '{')
  {
    BeforeIsPrefix(l, '{');
    |Before(l, '{')|
  }

  /** The label parser is onto exactly the readable lists: those are the ones that survive printing. */
  lemma LabelParsesBack(segs: seq<Seg>)
    ensures ScanLabel(Print(segs), "") == segs <==> Readable(segs)
  {
    if Readable(segs) {
      ReadBack(segs);
    }
    ScanReadable(Print(segs), "");
  }

  lemma {:induction false} TakeLiteral(l: string, rest: string, lit: string)
    requires '{' !in l
    ensures ScanLabel(l + rest, lit) == ScanLabel(rest, lit + l)
    decreases l
  {
    if l == "" {
      assert l + rest == rest && lit + l == lit;
    } else {
      TakeLiteral(l[1..], rest, lit + [l[0]]);
      assert (l + rest)[1..] == l[1..] + rest && lit + [l[0]] + l[1..] == lit + l;
    }
  }

  /** From an unclosed brace on, everything is literal. */
  lemma {:induction false} TakeOpenTail(t: string, lit: string)
    requires '}' !in t
    ensures ScanLabel(t, lit) == Flush(lit + t)
    decreases t
  {
    if t == "" {
      assert lit + t == lit;
    } else {
      BeforeUnchanged(t[1..], '}');
      TakeOpenTail(t[1..], lit + [t[0]]);
      assert lit + [t[0]] + t[1..] == lit + t;
    }
  }

  lemma TakeField(f: string, rest: string, lit: string)
    requires '}' !in f
    ensures ScanLabel("{" + f + "}" + rest, lit) == Flush(lit) + [Field(f)] + ScanLabel(rest, "")
  {
    var s := "{" + f + "}" + rest;
    assert s[1..] == f + ['}'] + rest;
    BeforeOf(f, '}', rest);
    assert s[|f| + 2..] == rest;
  }

  lemma {:induction false} ReadBack(segs: seq<Seg>)
    requires Readable(segs)
    ensures ScanLabel(Print(segs), "") == segs
    decreases |segs|
  {
    if segs != [] {
      ReadBack(segs[1..]);
      PrintOf(segs, segs[0], segs[1..]);
      match segs[0]
      case Field(f) =>
        ReadField(f, segs[1..]);
        assert [Field(f)] + segs[1..] == segs;
      case Lit(l) =>
        ReadLiteral(l, segs[1..]);
        assert [Lit(l)] + segs[1..] == segs;
    }
  }

  lemma ReadField(f: string, tail: seq<Seg>)
    requires '}' !in f && ScanLabel(Print(tail), "") == tail
    ensures ScanLabel(PrintSeg(Field(f)) + Print(tail), "") == [Field(f)] + tail
  {
    TakeField(f, Print(tail), "");
    assert Flush("") + [Field(f)] == [Field(f)];
  }

  lemma ReadLiteral(l: string, tail: seq<Seg>)
    requires l != "" && (tail == [] || (tail[0].Field? && '}' !in tail[0].name))
    requires '{' in l ==> tail == [] && '}' !in l[Opening(l)..]
    requires ScanLabel(Print(tail), "") == tail
    ensures ScanLabel(l + Print(tail), "") == [Lit(l)] + tail
  {
    if '{' in l {
      ReadOpen(l[..Opening(l)], l[Opening(l)..]);
      assert l[..Opening(l)] + l[Opening(l)..] == l && l + "" == l;
    } else {
      ReadPlain(l, tail);
    }
  }

  lemma FirstIsField(segs: seq<Seg>)
    requires segs != [] && segs[0].Field?
    ensures segs == [Field(segs[0].name)] + segs[1..]
  {
  }

  lemma ReadPlain(l: string, tail: seq<Seg>)
    requires l != "" && '{' !in l && (tail == [] || (tail[0].Field? && '}' !in tail[0].name))
    requires ScanLabel(Print(tail), "") == tail
    ensures ScanLabel(l + Print(tail), "") == [Lit(l)] + tail
  {
    TakeLiteral(l, Print(tail), "");
    assert "" + l == l;
    if tail != [] {
      FirstIsField(tail);
      LiteralThenField(l, tail[0].name, tail[1..], tail);
    }
  }

  lemma ReadOpen(a: string, t: string)
    requires '{' !in a && '}' !in t && t != ""
    ensures ScanLabel(a + t, "") == [Lit(a + t)]
  {
    TakeLiteral(a, t, "");
    assert "" + a == a;
    TakeOpenTail(t, a);
  }

  lemma LiteralThenField(l: string, f: string, tail: seq<Seg>, segs: seq<Seg>)
    requires l != "" && '}' !in f && segs == [Field(f)] + tail
    requires ScanLabel(Print(segs), "") == segs
    ensures ScanLabel(Print(segs), l) == [Lit(l)] + segs
  {
    PrintOf(segs, Field(f), tail);
    TakeField(f, Print(tail), l);
    TakeField(f, Print(tail), "");
    FlushFirst(l, [Field(f)], ScanLabel(Print(tail), ""));
    FlushFirst("", [Field(f)], ScanLabel(Print(tail), ""));
  }

  lemma {:induction false} ScanReadable(s: string, lit: string)
    requires '{' in lit ==> '}' !in lit[Opening(lit)..] + s
    ensures Readable(ScanLabel(s, lit))
    decreases s
  {
    if s == "" {
      assert lit[Opening(lit)..] + s == lit[Opening(lit)..];
      assert lit != "" ==> [Lit(lit)][1..] == [];
    } else {
      BeforeIsPrefix(s[1..], '}');
      var name := Before(s[1..], '}');
      if s[0] == '{' && |name| < |s| - 1 {
        BraceSplit(s);
        assert '}' in s;
        ScanReadable(s[|name| + 2..], "");
        var rest := ScanLabel(s[|name| + 2..], "");
        var fields := [Field(name)] + rest;
        assert fields[1..] == rest;
        if lit == "" {
          assert Flush(lit) + [Field(name)] + rest == fields;
        } else {
          var all := [Lit(lit)] + [Field(name)] + rest;
          assert all[1..] == fields && all == Flush(lit) + [Field(name)] + rest;
        }
      } else {
        GrowLiteral(lit, s);
        ScanReadable(s[1..], lit + [s[0]]);
      }
    }
  }

  lemma GrowLiteral(lit: string, s: string)
    requires s != "" && (s[0] == '{' ==> Before(s[1..], '}') == s[1..])
    requires '{' in lit ==> '}' !in lit[Opening(lit)..] + s
    ensures var l := lit + [s[0]]; '{' in l ==> '}' !in l[Opening(l)..] + s[1..]
  {
    var l := lit + [s[0]];
    BeforeIsPrefix(lit, '{');
    if '{' in lit {
      var a := Before(lit, '{');
      assert lit[..|lit|] == lit;
      assert l == a + ['{'] + (lit[|a| + 1..] + [s[0]]);
      BeforeOf(a, '{', lit[|a| + 1..] + [s[0]]);
      assert l[|a|..] + s[1..] == lit[|a|..] + s;
    } else if s[0] == '{' {
      BeforeOf(lit, '{', "");
      assert lit + ['{'] + "" == l;
      BeforeIsPrefix(s[1..], '}');
      assert l[|lit|..] == ['{'];
    }
  }

  // ---------------------------------------------------------------- numbers and default values

  lemma {:induction false} DecimalReads(n: nat)
    ensures Decimal(n) != "" && forall c :: c in Decimal(n) ==> '0' <= c <= '9'
    ensures DigitsValue(Decimal(n)) == Some(n)
  {
    var d := Decimal(n);
    if n < 10 {
      assert d[..|d| - 1] == "";
    } else {
      DecimalReads(n / 10);
      assert d[..|d| - 1] == Decimal(n / 10);
    }
  }

  lemma NumberReads(n: nat)
    requires n <= U64_MAX
    ensures ParseUnsigned(Trim(Decimal(n)), U64_MAX) == Some(n) && '-' !in Decimal(n)
  {
    DecimalReads(n);
    var d := Decimal(n);
    assert d[0] in d && d[|d| - 1] in d;
    TrimNoSpaces(d);
  }

  lemma StripBothOf(prefix: string, inner: string, suffix: string)
    ensures StripBoth(prefix + inner + suffix, prefix, suffix) == Some(inner)
  {
    var s := prefix + inner + suffix;
    assert s[..|prefix|] == prefix && s[|s| - |suffix|..] == suffix && s[|prefix|..|s| - |suffix|] == inner;
  }

  lemma PrintedRange(min: nat, max: nat)
    requires min <= max <= U64_MAX
    ensures Parsed(ToConfigString(AutoNumber(min, max))) == Ok(AutoNumber(min, max))
  {
    var inner := Decimal(min) + ['-'] + Decimal(max);
    var s := "{next:" + inner + "}";
    assert s == ToConfigString(AutoNumber(min, max));
    TrimNoSpaces(s);
    StripBothOf("{next:", inner, "}");
    NumberReads(min);
    NumberReads(max);
    BeforeOf(Decimal(min), '-', Decimal(max));
  }

  lemma PrintedSid()
    ensures Parsed(ToConfigString(ComputedSambaSid)) == Ok(ComputedSambaSid)
  {
    var s := "{auto:" + "sambaSID" + "}";
    assert s == "{auto:sambaSID}";
    TrimNoSpaces(s);
    StripBothOf("{auto:", "sambaSID", "}");
    TrimNoSpaces("sambaSID");
    assert s[1] != "{next:"[1];
  }

  lemma ParsedRange()
    ensures forall inner: string :: ParseRange(inner).Ok? ==>
              ParseRange(inner).value.AutoNumber?
              && ParseRange(inner).value.min <= ParseRange(inner).value.max <= U64_MAX
  {
  }

  /** What a config value means survives printing, and a literal or template prints as it was written. */
  lemma PrintedValueParsesBack(s: string)
    requires Parsed(s).Ok?
    ensures var v := Parsed(s).value;
            Parsed(ToConfigString(v)) == Ok(v)
            && (v.Literal? || v.Template? ==> ToConfigString(v) == s)
  {
    var v := Parsed(s).value;
    match v
    case Literal(_) =>
    case Template(segs) =>
      ScanPrints(s, "");
      assert "" + s == s;
    case AutoNumber(min, max) =>
      ParsedRange();
      PrintedRange(min, max);
    case ComputedSambaSid =>
      PrintedSid();
    case DetectedRange(_) =>
      ParsedRange();
  }

  /** A reference to one field, as rule D and the detection patterns write it. */
  lemma FieldReference(f: string)
    requires f != "" && '}' !in f && !("next:" <= f) && !("auto:" <= f)
    ensures Parsed("{" + f + "}") == Ok(Template([Field(f)])) && ToConfigString(Template([Field(f)])) == "{" + f + "}"
  {
    var s := "{" + f + "}";
    TrimNoSpaces(s);
    PrintOf([Field(f)], Field(f), []);
    NotSpecial(f, "next:");
    NotSpecial(f, "auto:");
    assert "{" + "next:" == "{next:" && "{" + "auto:" == "{auto:";
    ScanOneField(f);
    assert s[0] in s;
  }

  lemma ScanOneField(f: string)
    requires f != "" && '}' !in f
    ensures ScanDefault("{" + f + "}", "") == Ok([Field(f)])
  {
    var s := "{" + f + "}";
    assert s[1..] == f + ['}'] + "";
    BeforeOf(f, '}', "");
    assert s[|f| + 2..] == "" && ScanDefault("", "") == Ok([]);
    assert Flush("") + [Field(f)] + [] == [Field(f)];
  }

  lemma NotSpecial(f: string, word: string)
    requires !(word <= f) && |word| > 0 && '}' !in word
    ensures StripBoth("{" + f + "}", "{" + word, "}") == None
  {
    var s, w := "{" + f + "}", "{" + word;
    if |word| <= |f| {
      var i :| 0 <= i < |word| && word[i] != f[i];
      assert s[i + 1] != w[i + 1];
    } else {
      assert word[|f|] in word;
      assert s[|f| + 1] == '}' && w[|f| + 1] == word[|f|];
    }
  }

  // ---------------------------------------------------------------- which defaults are live

  /** `live_templates`: a fresh latch for each template default; the other defaults have none. */
  function LiveTemplatesOf(defaults: Table<DefaultValue>): Latches {
    if defaults == [] then []
    else
      match defaults[0].1
      case Template(segs) => [(defaults[0].0, Latch(segs, true, ""))] + LiveTemplatesOf(defaults[1..])
      case _ => LiveTemplatesOf(defaults[1..])
  }

  /** A create form starts with fresh latches, one for exactly each templated attribute. */
  lemma {:induction false} LiveTemplatesStartFresh(defaults: Table<DefaultValue>, m: string)
    requires UniqueNames(defaults)
    ensures Fresh(LiveTemplatesOf(defaults)) && UniqueNames(LiveTemplatesOf(defaults))
    ensures Find(LiveTemplatesOf(defaults), m) ==
              if Find(defaults, m).Some? && Find(defaults, m).value.Template?
              then Some(Latch(Find(defaults, m).value.segs, true, "")) else None
  {
    if defaults != [] {
      UniqueHead(defaults, m);
      LiveTemplatesStartFresh(defaults[1..], m);
      var live := LiveTemplatesOf(defaults[1..]);
      if defaults[0].1.Template? {
        var all := [(defaults[0].0, Latch(defaults[0].1.segs, true, ""))] + live;
        assert all[1..] == live;
        forall i, j | 0 <= i < j < |all| ensures !EqCi(all[i].0, all[j].0) {
          assert all[j] == live[j - 1];
          if i == 0 {
            LiveNames(defaults[1..], j - 1);
            var k :| 0 <= k < |defaults[1..]| && defaults[1..][k].0 == live[j - 1].0;
            assert !EqCi(defaults[0].0, defaults[k + 1].0);
          } else {
            assert all[i] == live[i - 1] && !EqCi(live[i - 1].0, live[j - 1].0);
          }
        }
      }
    }
  }

  lemma {:induction false} LiveNames(defaults: Table<DefaultValue>, i: nat)
    requires i < |LiveTemplatesOf(defaults)|
    ensures exists k :: 0 <= k < |defaults| && defaults[k].0 == LiveTemplatesOf(defaults)[i].0
  {
    if defaults[0].1.Template? && i == 0 {
      assert defaults[0].0 == LiveTemplatesOf(defaults)[0].0;
    } else {
      var j := if defaults[0].1.Template? then i - 1 else i;
      LiveNames(defaults[1..], j);
      var k :| 0 <= k < |defaults[1..]| && defaults[1..][k].0 == LiveTemplatesOf(defaults[1..])[j].0;
      assert defaults[k + 1] == defaults[1..][k];
    }
  }
}
