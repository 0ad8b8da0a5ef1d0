/** `ldap/ldif.rs`: LDIF change records as written, and read back as RFC 2849 defines them.
    Strings stand for their UTF-8 bytes, one character below 256 for each byte. */
module Ldif {
  import opened Text
  import opened ChangeSets

  // ---------------------------------------------------------------- base64 (RFC 4648, section 4)

  predicate Bytes(s: string) {
    forall i :: 0 <= i < |s| ==> s[i] as int < 256
  }

  function Digit(n: nat): (c: char)
    requires n < 64
    ensures c != '=' && c != '\n' && c != '\r' && c != ' '
  {
    if n < 26 then (n + 65) as char
    else if n < 52 then (n + 71) as char
    else if n < 62 then (n - 4) as char
    else if n == 62 then '+' else '/'
  }

  function DigitOf(c: char): Option<nat> {
    if 'A' <= c <= 'Z' then Some(c as int - 65)
    else if 'a' <= c <= 'z' then Some(c as int - 71)
    else if '0' <= c <= '9' then Some(c as int + 4)
    else if c == '+' then Some(62) else if c == '/' then Some(63) else None
  }

  lemma DigitReads(n: nat)
    requires n < 64
    ensures DigitOf(Digit(n)) == Some(n)
  {
  }

  /** The alphabet of RFC 4648, Table 1. */
  lemma Alphabet(n: nat)
    requires n < 64
    ensures Digit(n) as int ==
              if n < 26 then 'A' as int + n
              else if n < 52 then 'a' as int + (n - 26)
              else if n < 62 then '0' as int + (n - 52)
              else if n == 62 then '+' as int else '/' as int
  {
  }

  /** One group of up to three bytes as four characters. */
  function Group(chunk: string): string
    requires 0 < |chunk| <= 3 && Bytes(chunk)
  {
    var b0 := chunk[0] as int;
    var b1 := if |chunk| > 1 then chunk[1] as int else 0;
    var b2 := if |chunk| > 2 then chunk[2] as int else 0;
    var n := b0 * 0x10000 + b1 * 0x100 + b2;
    [Digit(n / 0x40000), Digit(n / 0x1000 % 64), if |chunk| > 1 then Digit(n / 64 % 64) else '=',
     if |chunk| > 2 then Digit(n % 64) else '=']
  }

  function B64(bytes: string): string
    requires Bytes(bytes)
  {
    if bytes == "" then ""
    else if |bytes| <= 3 then Group(bytes)
    else Group(bytes[..3]) + B64(bytes[3..])
  }

  /** The bytes that four characters stand for; unused bits must be zero. */
  function Ungroup(q: string): Option<string>
    requires |q| == 4
  {
    match (DigitOf(q[0]), DigitOf(q[1]))
    case (Some(d0), Some(d1)) =>
      if q[2] == '=' then
        if q[3] == '=' && d1 % 16 == 0 then Some([(d0 * 4 + d1 / 16) as char]) else None
      else
        (match DigitOf(q[2])
         case None => None
         case Some(d2) =>
           if q[3] == '=' then
             if d2 % 4 == 0 then Some([(d0 * 4 + d1 / 16) as char, (d1 % 16 * 16 + d2 / 4) as char]) else None
           else
             match DigitOf(q[3])
             case None => None
             case Some(d3) =>
               Some([(d0 * 4 + d1 / 16) as char, (d1 % 16 * 16 + d2 / 4) as char, (d2 % 4 * 64 + d3) as char]))
    case _ => None
  }

  /** Decoding; padding may only end the text. */
  function Unb64(s: string): Option<string> {
    if s == "" then Some("")
    else if |s| < 4 then None
    else
      match Ungroup(s[..4])
      case None => None
      case Some(bytes) =>
        if |s| == 4 then Some(bytes)
        else if |bytes| < 3 then None
        else
          match Unb64(s[4..])
          case None => None
          case Some(rest) => Some(bytes + rest)
  }

  /** The digits of a group, and the bytes they give back. */
  lemma GroupDigits(chunk: string) returns (d0: nat, d1: nat, d2: nat, d3: nat)
    requires 0 < |chunk| <= 3 && Bytes(chunk)
    ensures d0 < 64 && d1 < 64 && d2 < 64 && d3 < 64
    ensures Group(chunk)
         == [Digit(d0), Digit(d1), if |chunk| > 1 then Digit(d2) else '=', if |chunk| > 2 then Digit(d3) else '=']
    ensures d0 * 4 + d1 / 16 == chunk[0] as int
    ensures if |chunk| == 1 then d1 % 16 == 0 else d1 % 16 * 16 + d2 / 4 == chunk[1] as int
    ensures |chunk| == 2 ==> d2 % 4 == 0
    ensures |chunk| == 3 ==> d2 % 4 * 64 + d3 == chunk[2] as int
  {
    var b0 := chunk[0] as int;
    var b1 := if |chunk| > 1 then chunk[1] as int else 0;
    var b2 := if |chunk| > 2 then chunk[2] as int else 0;
    d0, d1, d2, d3 := b0 / 4, b0 % 4 * 16 + b1 / 16, b1 % 16 * 4 + b2 / 64, b2 % 64;
    Digits(b0, b1, b2);
    Regroup(b0, b1, b2);
  }

  lemma GroupReads(chunk: string)
    requires 0 < |chunk| <= 3 && Bytes(chunk)
    ensures Ungroup(Group(chunk)) == Some(chunk)
  {
    var d0, d1, d2, d3 := GroupDigits(chunk);
    DigitReads(d0);
    DigitReads(d1);
    DigitReads(d2);
    DigitReads(d3);
    if |chunk| == 1 {
      assert chunk == [(d0 * 4 + d1 / 16) as char];
    } else if |chunk| == 2 {
      assert chunk == [(d0 * 4 + d1 / 16) as char, (d1 % 16 * 16 + d2 / 4) as char];
    } else {
      assert chunk == [(d0 * 4 + d1 / 16) as char, (d1 % 16 * 16 + d2 / 4) as char, (d2 % 4 * 64 + d3) as char];
    }
  }

  /** The six-bit digits of three bytes. */
  lemma Digits(b0: nat, b1: nat, b2: nat)
    requires b0 < 256 && b1 < 256 && b2 < 256
    ensures var n := b0 * 0x10000 + b1 * 0x100 + b2;
            n / 0x40000 == b0 / 4 && n / 0x1000 % 64 == b0 % 4 * 16 + b1 / 16
            && n / 64 % 64 == b1 % 16 * 4 + b2 / 64 && n % 64 == b2 % 64
  {
    var n := b0 * 0x10000 + b1 * 0x100 + b2;
    Div64(b0 / 4, b0 % 4 * 16 + b1 / 16);
    Div64(b0 * 16 + b1 / 16, b1 % 16 * 4 + b2 / 64);
    Div64(b0 * 1024 + b1 * 4 + b2 / 64, b2 % 64);
    assert n == 64 * (b0 * 1024 + b1 * 4 + b2 / 64) + b2 % 64;
    assert n / 0x1000 == b0 * 16 + b1 / 16;
    assert n / 0x40000 == b0 / 4;
  }

  lemma Div64(q: nat, r: nat)
    requires r < 64
    ensures (64 * q + r) / 64 == q && (64 * q + r) % 64 == r
  {
  }

  /** Four digits give the three bytes back, and leave no bits over when the last bytes are missing. */
  lemma Regroup(b0: nat, b1: nat, b2: nat)
    requires b0 < 256 && b1 < 256 && b2 < 256
    ensures var d0, d1, d2, d3 := b0 / 4, b0 % 4 * 16 + b1 / 16, b1 % 16 * 4 + b2 / 64, b2 % 64;
            d0 * 4 + d1 / 16 == b0 && d1 % 16 * 16 + d2 / 4 == b1 && d2 % 4 * 64 + d3 == b2
            && (b1 == 0 ==> d1 % 16 == 0) && (b2 == 0 ==> d2 % 4 == 0)
  {
  }

  /** Decoding undoes encoding, for every byte string. */
  lemma {:induction false} B64Reads(bytes: string)
    requires Bytes(bytes)
    ensures Unb64(B64(bytes)) == Some(bytes)
  {
    if bytes == "" {
    } else if |bytes| <= 3 {
      GroupReads(bytes);
      assert Group(bytes)[..4] == Group(bytes);
    } else {
      GroupReads(bytes[..3]);
      B64Reads(bytes[3..]);
      var q, rest := Group(bytes[..3]), B64(bytes[3..]);
      assert (q + rest)[..4] == q && (q + rest)[4..] == rest;
      assert bytes == bytes[..3] + bytes[3..];
      assert rest != "";
    }
  }

  /** `b64`: three bytes at a time. */
  method Encode(bytes: string) returns (out: string)
    requires Bytes(bytes)
    ensures out == B64(bytes)
  {
    out := "";
    var i := 0;
    assert bytes[0..] == bytes;
    while i < |bytes|
      invariant 0 <= i <= |bytes| && B64(bytes) == out + B64(bytes[i..])
    {
      var end := if i + 3 <= |bytes| then i + 3 else |bytes|;
      NextGroup(bytes, i, end, out);
      out := out + Group(bytes[i..end]);
      i := end;
    }
  }

  lemma NextGroup(bytes: string, i: nat, end: nat, out: string)
    requires Bytes(bytes) && i < |bytes| && end == if i + 3 <= |bytes| then i + 3 else |bytes|
    ensures out + B64(bytes[i..]) == out + Group(bytes[i..end]) + B64(bytes[end..])
  {
    if |bytes[i..]| <= 3 {
      assert bytes[i..end] == bytes[i..] && bytes[end..] == "";
    } else {
      assert bytes[i..][..3] == bytes[i..end] && bytes[i..][3..] == bytes[end..];
    }
  }

  lemma GroupOf(a: char, b: char, c: char)
    requires a as int < 256 && b as int < 256 && c as int < 256
    ensures var d0, d1 := a as int / 4, a as int % 4 * 16 + b as int / 16;
            var d2, d3 := b as int % 16 * 4 + c as int / 64, c as int % 64;
            Group([a, b, c]) == [Digit(d0), Digit(d1), Digit(d2), Digit(d3)]
  {
    Digits(a as int, b as int, c as int);
  }

  lemma ShortGroups(a: char, b: char)
    requires a as int < 256 && b as int < 256
    ensures Group([a]) == [Digit(a as int / 4), Digit(a as int % 4 * 16), '=', '=']
    ensures Group([a, b])
         == [Digit(a as int / 4), Digit(a as int % 4 * 16 + b as int / 16), Digit(b as int % 16 * 4), '=']
  {
    Digits(a as int, 0, 0);
    Digits(a as int, b as int, 0);
  }

  /** The test vectors of RFC 4648, section 10. */
  lemma Vectors()
    ensures B64("") == "" && B64("f") == "Zg==" && B64("fo") == "Zm8=" && B64("foo") == "Zm9v"
    ensures B64("foob") == "Zm9vYg==" && B64("fooba") == "Zm9vYmE=" && B64("foobar") == "Zm9vYmFy"
  {
    ShortGroups('f', 'o');
    ShortGroups('b', 'a');
    GroupOf('f', 'o', 'o');
    GroupOf('b', 'a', 'r');
    assert "foob"[..3] == "foo" && "foob"[3..] == "b" && "foobar"[..3] == "foo" && "foobar"[3..] == "bar";
    assert "fooba"[..3] == "foo" && "fooba"[3..] == "ba";
  }

  // ---------------------------------------------------------------- the writer

  predicate SafeChar(c: char) {
    c as int < 0x80 && c != '\0' && c != '\n' && c != '\r'
  }

  /** RFC 2849's SAFE-STRING, as `is_safe_value` tests it. */
  predicate SafeValue(v: string) {
    (forall i :: 0 <= i < |v| ==> SafeChar(v[i])) && (v != "" ==> v[0] != ' ' && v[0] != ':' && v[0] != '<')
  }

  /** `name:rest` */
  function Named(name: string, rest: string): string {
    name + [':'] + rest
  }

  /** `name: text` */
  function Plain(name: string, text: string): string {
    Named(name, [' '] + text)
  }

  /** `ldif_line`, without the line end: `attr: value` or `attr:: base64`. */
  function Line(attr: string, value: string): string
    requires Bytes(value)
  {
    if SafeValue(value) then Plain(attr, value) else Named(attr, [':', ' '] + B64(value))
  }

  function ValueLines(attr: string, values: seq<string>): seq<string>
    requires forall v :: v in values ==> Bytes(v)
  {
    if values == [] then [] else [Line(attr, values[0])] + ValueLines(attr, values[1..])
  }

  predicate BytesOp(op: ModOp) {
    Bytes(op.attr) && forall v :: v in op.values ==> Bytes(v)
  }

  function Keyword(op: ModOp): string {
    match op case Add(_, _) => "add" case Delete(_, _) => "delete" case Replace(_, _) => "replace"
  }

  function OpBody(op: ModOp): seq<string>
    requires BytesOp(op)
  {
    [Plain(Keyword(op), op.attr)] + ValueLines(op.attr, op.values)
  }

  function OpLines(op: ModOp): seq<string>
    requires BytesOp(op)
  {
    OpBody(op) + ["-"]
  }

  function ModLines(mods: seq<ModOp>): seq<string>
    requires forall op :: op in mods ==> BytesOp(op)
  {
    if mods == [] then [] else OpLines(mods[0]) + ModLines(mods[1..])
  }

  /** A change record; renames and modifications are records of their own. */
  datatype Record =
    | Rename(dn: string, rdn: ModRdn)
    | Modify(dn: string, mods: seq<ModOp>)
  {
    predicate BytesOnly() {
      Bytes(dn)
      && match this
         case Rename(_, r) => Bytes(r.newRdn) && (r.newSuperior.Some? ==> Bytes(r.newSuperior.value))
         case Modify(_, mods) => forall op :: op in mods ==> BytesOp(op)
    }
  }

  function RenameBody(rdn: ModRdn): seq<string>
    requires Bytes(rdn.newRdn) && (rdn.newSuperior.Some? ==> Bytes(rdn.newSuperior.value))
  {
    [Line("newrdn", rdn.newRdn), Plain("deleteoldrdn", if rdn.deleteOld then "1" else "0")]
    + if rdn.newSuperior == None then [] else [Line("newsuperior", rdn.newSuperior.value)]
  }

  function RecordLines(r: Record): seq<string>
    requires r.BytesOnly()
  {
    match r
    case Rename(dn, rdn) => [Line("dn", dn), Plain("changetype", "modrdn")] + RenameBody(rdn)
    case Modify(dn, mods) => [Line("dn", dn), Plain("changetype", "modify")] + ModLines(mods)
  }

  /** The records a change set stands for, the rename first. */
  function RecordsOf(cs: ChangeSet): seq<Record> {
    (if cs.modrdn == None then [] else [Rename(cs.dn, cs.modrdn.value)])
        + (if cs.mods == [] then [] else [Modify(cs.dn, cs.mods)])
  }

  function AllRecords(sets: seq<ChangeSet>): seq<Record> {
    if sets == [] then [] else RecordsOf(sets[0]) + AllRecords(sets[1..])
  }

  /** Lines, each with its line end. */
  function Unlines(ls: seq<string>): string {
    if ls == [] then "" else ls[0] + "\n" + Unlines(ls[1..])
  }

  predicate BytesSet(cs: ChangeSet) {
    (cs.modrdn.Some? ==> Rename(cs.dn, cs.modrdn.value).BytesOnly())
    && (cs.mods != [] ==> Modify(cs.dn, cs.mods).BytesOnly())
  }

  predicate BytesAll(rs: seq<Record>) {
    forall r :: r in rs ==> r.BytesOnly()
  }

  /** The lines of several records, a blank one between each two. */
  function SpacedLines(rs: seq<Record>): seq<string>
    requires BytesAll(rs)
  {
    if rs == [] then []
    else if |rs| == 1 then RecordLines(rs[0])
    else RecordLines(rs[0]) + [""] + SpacedLines(rs[1..])
  }

  lemma {:induction false} UnlinesAppend(a: seq<string>, b: seq<string>)
    ensures Unlines(a + b) == Unlines(a) + Unlines(b)
  {
    if a == [] {
      assert a + b == b;
    } else {
      UnlinesAppend(a[1..], b);
      assert (a + b)[1..] == a[1..] + b;
      JoinTwice(a[0] + "\n", Unlines(a[1..]), Unlines(b));
    }
  }

  /** ASCII without NUL and line ends that does not begin with a space, a colon or a less-than sign. */
  predicate PlainText(v: string) {
    && (forall i :: 0 <= i < |v| ==> 0 < v[i] as int < 128 && v[i] as int != 10 && v[i] as int != 13)
    && (v != "" ==> v[0] != ' ' && v[0] != ':' && v[0] != '<')
  }

  lemma SafeIsPlain(v: string)
    ensures SafeValue(v) <==> PlainText(v)
  {
    assert forall c: char :: SafeChar(c) <==> 0 < c as int < 128 && c as int != 10 && c as int != 13;
  }

  lemma NamedText(name: string, text: string)
    ensures Plain(name, text) == name + ": " + text && Named(name, [':', ' '] + text) == name + ":: " + text
  {
  }

  /** Such a value is written as it is; any other in base64, behind a second colon. */
  lemma LineExact(attr: string, value: string)
    requires Bytes(value)
    ensures Line(attr, value) == if PlainText(value) then attr + ": " + value else attr + ":: " + B64(value)
  {
    SafeIsPlain(value);
    NamedText(attr, if SafeValue(value) then value else B64(value));
  }

  lemma {:induction false} ValueLinesCount(attr: string, values: seq<string>)
    requires forall v :: v in values ==> Bytes(v)
    ensures |ValueLines(attr, values)| == |values|
  {
    if values != [] {
      ValueLinesCount(attr, values[1..]);
    }
  }

  lemma {:induction false} ValueLinesAt(attr: string, values: seq<string>, i: nat)
    requires (forall v :: v in values ==> Bytes(v)) && i < |values|
    ensures |ValueLines(attr, values)| == |values| && Bytes(values[i])
    ensures ValueLines(attr, values)[i] == Line(attr, values[i])
  {
    ValueLinesCount(attr, values);
    assert values[i] in values;
    if i > 0 {
      var rest := values[1..];
      ValueLinesAt(attr, rest, i - 1);
      assert rest[i - 1] == values[i];
      assert ValueLines(attr, values)[i] == ValueLines(attr, rest)[i - 1];
    }
  }

  /** An operation is a line that says what is done to which attribute, a line for each value, and a dash. */
  lemma OpLinesExact(op: ModOp)
    requires BytesOp(op)
    ensures var ls := OpLines(op);
            && |ls| == |op.values| + 2 && ls[|ls| - 1] == "-"
            && ls[0] == Opening(op)
            && forall i :: 0 <= i < |op.values| ==>
                 op.values[i] in op.values && ls[i + 1] == Line(op.attr, op.values[i])
  {
    ValueLinesCount(op.attr, op.values);
    OpeningIs(op);
    forall i | 0 <= i < |op.values|
      ensures op.values[i] in op.values && OpLines(op)[i + 1] == Line(op.attr, op.values[i])
    {
      ValueLinesAt(op.attr, op.values, i);
    }
  }

  function Opening(op: ModOp): string {
    match op
    case Add(attr, _) => "add: " + attr
    case Delete(attr, _) => "delete: " + attr
    case Replace(attr, _) => "replace: " + attr
  }

  lemma OpeningIs(op: ModOp)
    ensures Plain(Keyword(op), op.attr) == Opening(op)
  {
    NamedText(Keyword(op), op.attr);
    assert "add" + ": " == "add: " && "delete" + ": " == "delete: " && "replace" + ": " == "replace: ";
  }

  lemma {:induction false} ModLinesAppend(a: seq<ModOp>, b: seq<ModOp>)
    requires forall op :: op in a + b ==> BytesOp(op)
    ensures (forall op :: op in a ==> op in a + b) && (forall op :: op in b ==> op in a + b)
    ensures ModLines(a + b) == ModLines(a) + ModLines(b)
  {
    if a == [] {
      assert a + b == b;
    } else {
      assert (a + b)[1..] == a[1..] + b;
      ModLinesAppend(a[1..], b);
      JoinTwice(OpLines(a[0]), ModLines(a[1..]), ModLines(b));
    }
  }

  /** How a record begins, and the whole of a rename. */
  lemma RecordLinesExact(r: Record)
    requires r.BytesOnly()
    ensures var ls := RecordLines(r);
            && |ls| >= 2 && ls[0] == Line("dn", r.dn)
            && match r
               case Modify(_, mods) => ls[1] == "changetype: modify" && ls[2..] == ModLines(mods)
               case Rename(_, rdn) =>
                 && |ls| == (if rdn.newSuperior.Some? then 5 else 4) && ls[1] == "changetype: modrdn"
                 && ls[2] == Line("newrdn", rdn.newRdn)
                 && ls[3] == (if rdn.deleteOld then "deleteoldrdn: 1" else "deleteoldrdn: 0")
                 && (rdn.newSuperior.Some? ==> ls[4] == Line("newsuperior", rdn.newSuperior.value))
  {
    assert "changetype" + [':'] + ([' '] + "modify") == "changetype: modify";
    assert "changetype" + [':'] + ([' '] + "modrdn") == "changetype: modrdn";
    assert "deleteoldrdn" + [':'] + ([' '] + "1") == "deleteoldrdn: 1";
    assert "deleteoldrdn" + [':'] + ([' '] + "0") == "deleteoldrdn: 0";
  }

  /** A change set is a rename record if it has one, and then a record of its operations if it has any. */
  lemma RecordsExact(cs: ChangeSet)
    ensures var rs := RecordsOf(cs);
            && |rs| == (if cs.modrdn.Some? then 1 else 0) + (if cs.mods != [] then 1 else 0)
            && (cs.modrdn.Some? ==> rs[0] == Rename(cs.dn, cs.modrdn.value))
            && (cs.mods != [] ==> rs[|rs| - 1] == Modify(cs.dn, cs.mods))
  {
  }

  /** `render_mod_op`. */
  method RenderModOp(out0: string, op: ModOp) returns (out: string)
    requires BytesOp(op)
    ensures out == out0 + Unlines(OpBody(op))
  {
    out := out0 + (Plain(Keyword(op), op.attr) + "\n");
    ghost var head := Plain(Keyword(op), op.attr);
    assert Unlines([head]) == head + "\n" + Unlines([head][1..]) == head + "\n";
    for i := 0 to |op.values|
      invariant out + Unlines(ValueLines(op.attr, op.values[i..])) == out0 + Unlines(OpBody(op))
    {
      ghost var rest := op.values[i..];
      assert rest[1..] == op.values[i + 1..] && rest[0] == op.values[i];
      NextLine(out, op.attr, rest);
      out := out + Line(op.attr, op.values[i]) + "\n";
    }
  }

  lemma NextLine(out: string, attr: string, rest: seq<string>)
    requires rest != [] && forall v :: v in rest ==> Bytes(v)
    ensures out + Unlines(ValueLines(attr, rest))
         == out + Line(attr, rest[0]) + "\n" + Unlines(ValueLines(attr, rest[1..]))
  {
    var l, ls := Line(attr, rest[0]), ValueLines(attr, rest[1..]);
    assert ([l] + ls)[1..] == ls;
    JoinTwice(out, l + "\n", Unlines(ls));
  }

  lemma UnlinesOne(l: string)
    ensures Unlines([l]) == l + "\n"
  {
    assert [l][1..] == [] && l + "\n" + "" == l + "\n";
  }

  lemma AddLine(ls: seq<string>, l: string)
    ensures Unlines(ls + [l]) == Unlines(ls) + l + "\n"
  {
    UnlinesAppend(ls, [l]);
    UnlinesOne(l);
    JoinTwice(Unlines(ls), l, "\n");
  }

  method RenderRename(dn: string, rdn: ModRdn) returns (out: string)
    requires Rename(dn, rdn).BytesOnly()
    ensures out == Unlines(RecordLines(Rename(dn, rdn)))
  {
    var count := if rdn.deleteOld then "1" else "0";
    ghost var a, b, c, d := Line("dn", dn), Plain("changetype", "modrdn"), Line("newrdn", rdn.newRdn),
        Plain("deleteoldrdn", count);
    out := "" + Line("dn", dn) + "\n";
    AddLine([], a);
    out := out + Plain("changetype", "modrdn") + "\n";
    AddLine([a], b);
    out := out + Line("newrdn", rdn.newRdn) + "\n";
    AddLine([a, b], c);
    out := out + Plain("deleteoldrdn", count) + "\n";
    AddLine([a, b, c], d);
    FourLines(a, b, c, d);
    if rdn.newSuperior.Some? {
      out := out + Line("newsuperior", rdn.newSuperior.value) + "\n";
      AddLine([a, b, c, d], Line("newsuperior", rdn.newSuperior.value));
    } else {
      assert [a, b, c, d] + [] == [a, b, c, d];
    }
    assert [a, b] + RenameBody(rdn)
        == [a, b, c, d] + if rdn.newSuperior == None then [] else [Line("newsuperior", rdn.newSuperior.value)];
  }

  lemma FourLines(a: string, b: string, c: string, d: string)
    ensures [] + [a] == [a] && [a] + [b] == [a, b] && [a, b] + [c] == [a, b, c] && [a, b, c] + [d] == [a, b, c, d]
    ensures Unlines([]) == ""
  {
  }

  method RenderModify(dn: string, mods: seq<ModOp>) returns (out: string)
    requires Modify(dn, mods).BytesOnly() && mods != []
    ensures out == Unlines(RecordLines(Modify(dn, mods)))
  {
    ghost var a, b := Line("dn", dn), Plain("changetype", "modify");
    out := "" + Line("dn", dn) + "\n";
    AddLine([], a);
    out := out + Plain("changetype", "modify") + "\n";
    AddLine([a], b);
    FourLines(a, b, "", "");
    UnlinesAppend([a, b], ModLines(mods));
    out := RenderMods(out, mods);
  }

  method RenderMods(out0: string, mods: seq<ModOp>) returns (out: string)
    requires mods != [] && forall op :: op in mods ==> BytesOp(op)
    ensures out == out0 + Unlines(ModLines(mods))
  {
    out := out0;
    for i := 0 to |mods|
      invariant out + Unlines(ModTail(mods, i)) == out0 + Unlines(ModLines(mods))
    {
      NextOp(mods, i, out);
      if i > 0 {
        out := out + "-\n";
      }
      out := RenderModOp(out, mods[i]);
    }
    UnlinesOne("-");
    assert ModTail(mods, |mods|) == ["-"];
    out := out + "-\n";
  }

  /** What is left to write when the first `i` operations stand there without their end mark. */
  function ModTail(mods: seq<ModOp>, i: nat): seq<string>
    requires i <= |mods| && forall op :: op in mods ==> BytesOp(op)
  {
    if i == 0 then ModLines(mods) else ["-"] + ModLines(mods[i..])
  }

  lemma NextOp(mods: seq<ModOp>, i: nat, out: string)
    requires i < |mods| && forall op :: op in mods ==> BytesOp(op)
    ensures out + Unlines(ModTail(mods, i))
         == (if i > 0 then out + "-\n" else out) + Unlines(OpBody(mods[i])) + Unlines(ModTail(mods, i + 1))
  {
    var body, tail := OpBody(mods[i]), ModTail(mods, i + 1);
    assert mods[i..][1..] == mods[i + 1..] && mods[0..] == mods;
    assert ModLines(mods[i..]) == body + tail;
    UnlinesAppend(body, tail);
    if i > 0 {
      UnlinesOne("-");
      UnlinesAppend(["-"], ModLines(mods[i..]));
      JoinTwice(out, "-\n", Unlines(ModLines(mods[i..])));
      JoinTwice(out + "-\n", Unlines(body), Unlines(tail));
    } else {
      JoinTwice(out, Unlines(body), Unlines(tail));
    }
  }

  /** `render_changeset`. */
  method RenderChangeset(cs: ChangeSet) returns (out: string)
    requires BytesSet(cs)
    ensures out == Unlines(SpacedLines(RecordsOf(cs)))
  {
    out := "";
    var rs := RecordsOf(cs);
    if cs.modrdn.Some? {
      assert rs[0] == Rename(cs.dn, cs.modrdn.value);
      out := RenderRename(cs.dn, cs.modrdn.value);
    }
    if cs.mods != [] {
      assert rs[|rs| - 1] == Modify(cs.dn, cs.mods);
      if out != "" {
        out := out + "\n";
      }
      var more := RenderModify(cs.dn, cs.mods);
      out := out + more;
    }
    SpacedRecords(cs);
  }

  lemma SpacedRecords(cs: ChangeSet)
    requires BytesSet(cs)
    ensures Unlines(SpacedLines(RecordsOf(cs))) ==
              if cs.modrdn == None && cs.mods == [] then ""
              else if cs.modrdn == None then Unlines(RecordLines(Modify(cs.dn, cs.mods)))
              else if cs.mods == [] then Unlines(RecordLines(Rename(cs.dn, cs.modrdn.value)))
              else
                Unlines(RecordLines(Rename(cs.dn, cs.modrdn.value))) + "\n"
                + Unlines(RecordLines(Modify(cs.dn, cs.mods)))
    ensures cs.modrdn.Some? ==> Unlines(RecordLines(Rename(cs.dn, cs.modrdn.value))) != ""
  {
    var rs := RecordsOf(cs);
    if |rs| == 2 {
      assert SpacedLines(rs[1..]) == RecordLines(rs[1]);
      UnlinesAppend(RecordLines(rs[0]) + [""], RecordLines(rs[1]));
      UnlinesAppend(RecordLines(rs[0]), [""]);
      UnlinesOne("");
    }
  }

  lemma {:induction false} SpacedAppend(a: seq<Record>, b: seq<Record>)
    requires a != [] && b != [] && (forall r :: r in a ==> r.BytesOnly()) && (forall r :: r in b ==> r.BytesOnly())
    ensures SpacedLines(a + b) == SpacedLines(a) + [""] + SpacedLines(b)
  {
    assert (a + b)[1..] == a[1..] + b && (a + b)[0] == a[0];
    if |a| == 1 {
      assert a[1..] + b == b;
    } else {
      SpacedAppend(a[1..], b);
      JoinFour(RecordLines(a[0]) + [""], SpacedLines(a[1..]), [""], SpacedLines(b));
    }
  }

  lemma JoinFour<T>(a: seq<T>, b: seq<T>, c: seq<T>, d: seq<T>)
    ensures a + (b + c + d) == a + b + c + d
  {
  }

  /** `render_changesets`: empty change sets leave no trace, the others are separated by blank lines. */
  method RenderChangesets(sets: seq<ChangeSet>) returns (out: string)
    requires forall cs :: cs in sets ==> BytesSet(cs)
    ensures BytesAll(AllRecords(sets)) && out == Unlines(SpacedLines(AllRecords(sets)))
    ensures AllWritable(AllRecords(sets)) ==> Read(out) == Some(AllRecords(sets))
  {
    out := "";
    AllBytes(sets);
    assert sets[..0] == [];
    for i := 0 to |sets|
      invariant BytesAll(AllRecords(sets[..i])) && out == Unlines(SpacedLines(AllRecords(sets[..i])))
      invariant out == "" <==> AllRecords(sets[..i]) == []
    {
      MoreRecords(sets, i);
      AllBytes(sets[..i + 1]);
      if !sets[i].IsEmpty() {
        var text := RenderChangeset(sets[i]);
        JoinRecords(AllRecords(sets[..i]), RecordsOf(sets[i]));
        out := if out == "" then text else out + "\n" + text;
      } else {
        assert AllRecords(sets[..i]) + [] == AllRecords(sets[..i]);
      }
    }
    assert sets[..|sets|] == sets;
    if AllWritable(AllRecords(sets)) { PreviewReads(AllRecords(sets)); }
  }

  lemma {:induction false} AllBytes(sets: seq<ChangeSet>)
    requires forall cs :: cs in sets ==> BytesSet(cs)
    ensures BytesAll(AllRecords(sets))
  {
    if sets != [] {
      AllBytes(sets[1..]);
      assert BytesSet(sets[0]);
      assert forall r :: r in RecordsOf(sets[0]) ==> r.BytesOnly();
    }
  }

  lemma {:induction false} RecordsAppend(a: seq<ChangeSet>, b: seq<ChangeSet>)
    ensures AllRecords(a + b) == AllRecords(a) + AllRecords(b)
  {
    if a == [] {
      assert a + b == b;
    } else {
      RecordsAppend(a[1..], b);
      assert (a + b)[1..] == a[1..] + b;
      JoinTwice(RecordsOf(a[0]), AllRecords(a[1..]), AllRecords(b));
    }
  }

  lemma MoreRecords(sets: seq<ChangeSet>, i: nat)
    requires i < |sets|
    ensures AllRecords(sets[..i + 1]) == AllRecords(sets[..i]) + RecordsOf(sets[i])
    ensures sets[i].IsEmpty() <==> RecordsOf(sets[i]) == []
  {
    assert sets[..i + 1] == sets[..i] + [sets[i]];
    RecordsAppend(sets[..i], [sets[i]]);
    assert [sets[i]][1..] == [];
  }

  lemma JoinRecords(a: seq<Record>, b: seq<Record>)
    requires BytesAll(a) && BytesAll(b) && b != []
    ensures Unlines(SpacedLines(a + b)) != "" && a + b != []
    ensures Unlines(SpacedLines(a + b)) ==
              if a == [] then Unlines(SpacedLines(b)) else Unlines(SpacedLines(a)) + "\n" + Unlines(SpacedLines(b))
  {
    SomeText(a + b);
    if a == [] {
      assert a + b == b;
    } else {
      SpacedAppend(a, b);
      UnlinesAppend(SpacedLines(a) + [""], SpacedLines(b));
      UnlinesAppend(SpacedLines(a), [""]);
      UnlinesOne("");
    }
  }

  lemma SomeText(rs: seq<Record>)
    requires BytesAll(rs) && rs != []
    ensures Unlines(SpacedLines(rs)) != ""
  {
  }

  // ------------------------------------------- the reader (RFC 2849, "Formal Syntax Definition of LDIF")

  function Lines(s: string): seq<string>
    decreases s
  {
    if s == "" then []
    else
      var l := Before(s, '\n');
      BeforeIsPrefix(s, '\n');
      if |l| == |s| then [l] else [l] + Lines(s[|l| + 1..])
  }

  /** Lines end in LF or CR LF. */
  function Chomp(l: string): string {
    if l != "" && l[|l| - 1] == '\r' then l[..|l| - 1] else l
  }

  function ChompAll(ls: seq<string>): (r: seq<string>)
    ensures |r| == |ls| && forall i :: 0 <= i < |ls| ==> r[i] == Chomp(ls[i])
  {
    seq(|ls|, i requires 0 <= i < |ls| => Chomp(ls[i]))
  }

  predicate Continues(l: string) {
    l != "" && l[0] == ' '
  }

  /** How many lines go on with the line before them, and what they add to it. */
  function Folded(ls: seq<string>): (r: (string, nat))
    ensures r.1 <= |ls|
  {
    if ls == [] || !Continues(ls[0]) then ("", 0)
    else var rest := Folded(ls[1..]); (ls[0][1..] + rest.0, rest.1 + 1)
  }

  /** Folded lines joined, comments left out. */
  function Unfold(ls: seq<string>): seq<string>
    decreases |ls|
  {
    if ls == [] then []
    else
      var more := Folded(ls[1..]);
      var l := ls[0] + more.0;
      (if l != "" && l[0] == '#' then [] else [l]) + Unfold(ls[more.1 + 1..])
  }

  /** Records are set apart by blank lines. */
  function Paragraphs(ls: seq<string>, cur: seq<string>): seq<seq<string>> {
    if ls == [] then OneIfAny(cur)
    else if ls[0] == "" then OneIfAny(cur) + Paragraphs(ls[1..], [])
    else Paragraphs(ls[1..], cur + [ls[0]])
  }

  /** FILL: any number of spaces. */
  function DropFill(s: string): string {
    if s != "" && s[0] == ' ' then DropFill(s[1..]) else s
  }

  /** A name and its value, given plainly or in base64; values by URL are not read. */
  function ParseLine(l: string): Option<(string, string)> {
    match SplitOnce(l, ':')
    case None => None
    case Some((name, rest)) =>
      if rest != "" && rest[0] == ':' then
        match Unb64(DropFill(rest[1..]))
        case None => None
        case Some(v) => Some((name, v))
      else if SafeValue(DropFill(rest)) then Some((name, DropFill(rest))) else None
  }

  /** The value on a line that must bear this name. */
  function ValueOf(l: string, name: string): Option<string> {
    match ParseLine(l)
    case None => None
    case Some((n, v)) => if EqCi(n, name) then Some(v) else None
  }

  /** The values of one operation, up to its end mark, and the lines after that. */
  function ReadValues(ls: seq<string>, attr: string): (r: Option<(seq<string>, seq<string>)>)
    ensures r.Some? ==> |r.value.1| < |ls|
  {
    if ls == [] then None
    else if ls[0] == "-" then Some(([], ls[1..]))
    else
      match (ValueOf(ls[0], attr), ReadValues(ls[1..], attr))
      case (Some(v), Some((vs, rest))) => Some(([v] + vs, rest))
      case _ => None
  }

  function MakeOp(keyword: string, attr: string, values: seq<string>): Option<ModOp> {
    if EqCi(keyword, "add") then Some(Add(attr, values))
    else if EqCi(keyword, "delete") then Some(Delete(attr, values))
    else if EqCi(keyword, "replace") then Some(Replace(attr, values))
    else None
  }

  function ReadMods(ls: seq<string>): Option<seq<ModOp>>
    decreases |ls|
  {
    if ls == [] then Some([])
    else
      match ParseLine(ls[0])
      case None => None
      case Some((keyword, attr)) =>
        match ReadValues(ls[1..], attr)
        case None => None
        case Some((values, rest)) =>
          match (MakeOp(keyword, attr, values), ReadMods(rest))
          case (Some(op), Some(ops)) => Some([op] + ops)
          case _ => None
  }

  function ReadRename(dn: string, ls: seq<string>): Option<Record> {
    if |ls| < 2 || |ls| > 3 then None
    else
      match (ValueOf(ls[0], "newrdn"), ValueOf(ls[1], "deleteoldrdn"))
      case (Some(rdn), Some(flag)) =>
        if flag != "0" && flag != "1" then None
        else if |ls| == 2 then Some(Rename(dn, ModRdn(rdn, flag == "1", None)))
        else
          (match ValueOf(ls[2], "newsuperior")
           case None => None
           case Some(sup) => Some(Rename(dn, ModRdn(rdn, flag == "1", Some(sup)))))
      case _ => None
  }

  /** One change record; additions and deletions of entries do not occur in a preview and are not read. */
  function ReadRecord(ls: seq<string>): Option<Record> {
    if |ls| < 2 then None
    else
      match (ValueOf(ls[0], "dn"), ValueOf(ls[1], "changetype"))
      case (Some(dn), Some(kind)) =>
        if EqCi(kind, "modrdn") then ReadRename(dn, ls[2..])
        else if EqCi(kind, "modify") then
          (match ReadMods(ls[2..])
           case None => None
           case Some(mods) => Some(Modify(dn, mods)))
        else None
      case _ => None
  }

  function ReadRecords(ps: seq<seq<string>>): Option<seq<Record>> {
    if ps == [] then Some([])
    else
      match (ReadRecord(ps[0]), ReadRecords(ps[1..]))
      case (Some(r), Some(rs)) => Some([r] + rs)
      case _ => None
  }

  function Read(text: string): Option<seq<Record>> {
    ReadRecords(Paragraphs(Unfold(ChompAll(Lines(text))), []))
  }

  // ---------------------------------------------------------------- reading back what was written

  /** A line that is neither blank, folded, a comment nor broken. */
  predicate PlainLine(l: string) {
    l != "" && l[0] != ' ' && l[0] != '#' && '\n' !in l && '\r' !in l
  }

  /** A name that can stand before a colon; every attribute description of RFC 4512 can. */
  predicate LineName(a: string) {
    a != "" && SafeValue(a) && ':' !in a && a[0] != '#'
  }

  lemma {:induction false} LinesBack(ls: seq<string>)
    requires forall l :: l in ls ==> '\n' !in l
    ensures Lines(Unlines(ls)) == ls
  {
    if ls != [] {
      LinesBack(ls[1..]);
      var s := Unlines(ls);
      assert s == ls[0] + ['\n'] + Unlines(ls[1..]);
      BeforeOf(ls[0], '\n', Unlines(ls[1..]));
      assert s[|ls[0]| + 1..] == Unlines(ls[1..]);
      assert [ls[0]] + ls[1..] == ls;
    }
  }

  lemma {:induction false} UnfoldPlain(ls: seq<string>)
    requires forall i :: 0 <= i < |ls| ==> ls[i] == "" || PlainLine(ls[i])
    ensures Unfold(ls) == ls
    decreases |ls|
  {
    if ls != [] {
      UnfoldPlain(ls[1..]);
      assert |ls| > 1 ==> ls[1..][0] == ls[1];
      assert Folded(ls[1..]) == ("", 0);
      assert ls[0] + "" == ls[0] && [ls[0]] + ls[1..] == ls;
    }
  }

  lemma {:induction false} ParagraphLines(ls: seq<string>, rest: seq<string>, cur: seq<string>)
    requires "" !in ls
    ensures Paragraphs(ls + rest, cur) == Paragraphs(rest, cur + ls)
  {
    if ls == [] {
      assert ls + rest == rest && cur + ls == cur;
    } else {
      ParagraphLines(ls[1..], rest, cur + [ls[0]]);
      assert (ls + rest)[1..] == ls[1..] + rest && cur + [ls[0]] + ls[1..] == cur + ls;
      assert ls[0] != "";
    }
  }

  lemma {:induction false} B64Plain(bytes: string)
    requires Bytes(bytes)
    ensures '\n' !in B64(bytes) && '\r' !in B64(bytes) && (bytes != "" ==> B64(bytes) != "" && B64(bytes)[0] != ' ')
  {
    if |bytes| > 3 { B64Plain(bytes[3..]); }
  }

  lemma DropOneFill(v: string)
    requires v == "" || v[0] != ' '
    ensures DropFill([' '] + v) == v
  {
    assert ([' '] + v)[1..] == v;
  }

  /** A line that starts with a name and a colon, and goes on without line ends. */
  lemma NamedLine(name: string, rest: string)
    requires LineName(name) && '\n' !in rest && '\r' !in rest
    ensures PlainLine(Named(name, rest)) && Named(name, rest) != "-"
              && SplitOnce(Named(name, rest), ':') == Some((name, rest))
  {
    BeforeOf(name, ':', rest);
    var l := Named(name, rest);
    assert l[0] == name[0] && l[|name|] == ':';
    assert forall c :: c in name ==> SafeChar(c);
  }

  lemma SafeLineReads(name: string, v: string)
    requires LineName(name) && SafeValue(v)
    ensures PlainLine(Plain(name, v)) && Plain(name, v) != "-" && ParseLine(Plain(name, v)) == Some((name, v))
  {
    assert forall c :: c in v ==> SafeChar(c);
    NamedLine(name, [' '] + v);
    DropOneFill(v);
  }

  lemma CodedLineReads(name: string, v: string)
    requires LineName(name) && Bytes(v) && v != ""
    ensures PlainLine(Named(name, [':', ' '] + B64(v))) && Named(name, [':', ' '] + B64(v)) != "-"
    ensures ParseLine(Named(name, [':', ' '] + B64(v))) == Some((name, v))
  {
    B64Plain(v);
    B64Reads(v);
    NamedLine(name, [':', ' '] + B64(v));
    AfterColon(B64(v));
    DropOneFill(B64(v));
  }

  lemma AfterColon(code: string)
    ensures ([':', ' '] + code)[1..] == [' '] + code
  {
  }

  /** Every value reads back from its line. */
  lemma LineReads(name: string, v: string)
    requires LineName(name) && Bytes(v)
    ensures PlainLine(Line(name, v)) && Line(name, v) != "-" && ParseLine(Line(name, v)) == Some((name, v))
  {
    if SafeValue(v) { SafeLineReads(name, v); } else { CodedLineReads(name, v); }
  }

  lemma ValueReads(name: string, v: string)
    requires LineName(name) && Bytes(v)
    ensures ValueOf(Line(name, v), name) == Some(v) && PlainLine(Line(name, v)) && Line(name, v) != "-"
  {
    LineReads(name, v);
  }

  lemma ReadOne(l: string, v: string, tail: seq<string>, vs: seq<string>, rest: seq<string>, attr: string)
    requires l != "-" && ValueOf(l, attr) == Some(v) && ReadValues(tail, attr) == Some((vs, rest))
    ensures ReadValues([l] + tail, attr) == Some(([v] + vs, rest))
  {
    assert ([l] + tail)[1..] == tail;
  }

  lemma {:induction false} ValuesRead(attr: string, values: seq<string>, rest: seq<string>)
    requires LineName(attr) && forall v :: v in values ==> Bytes(v)
    ensures ReadValues(ValueLines(attr, values) + (["-"] + rest), attr) == Some((values, rest))
  {
    var end := ["-"] + rest;
    if values == [] {
      assert ValueLines(attr, values) + end == end && end[1..] == rest;
    } else {
      ValueReads(attr, values[0]);
      ValuesRead(attr, values[1..], rest);
      var l, tail := Line(attr, values[0]), ValueLines(attr, values[1..]);
      ReadOne(l, values[0], tail + end, values[1..], rest, attr);
      assert [l] + tail + end == [l] + (tail + end);
      assert [values[0]] + values[1..] == values;
    }
  }

  lemma {:induction false} ValueLinesPlain(attr: string, values: seq<string>)
    requires LineName(attr) && forall v :: v in values ==> Bytes(v)
    ensures forall l :: l in ValueLines(attr, values) ==> PlainLine(l)
  {
    if values != [] {
      ValueReads(attr, values[0]);
      ValueLinesPlain(attr, values[1..]);
    }
  }

  predicate WritableOp(op: ModOp) {
    LineName(op.attr) && forall v :: v in op.values ==> Bytes(v)
  }

  lemma KeywordReads(op: ModOp)
    requires WritableOp(op)
    ensures MakeOp(Keyword(op), op.attr, op.values) == Some(op) && LineName(Keyword(op))
    ensures Bytes(op.attr)
  {
    match op {
      case Add(_, _) => DifferInCase("add", "delete");
      case Delete(_, _) => DifferInCase("delete", "add");
      case Replace(_, _) => DifferInCase("replace", "add"); DifferInCase("replace", "delete");
    }
    assert forall i :: 0 <= i < |op.attr| ==> SafeChar(op.attr[i]);
  }

  lemma DifferInCase(a: string, b: string)
    requires a != "" && b != "" && LowerChar(a[0]) != LowerChar(b[0])
    ensures !EqCi(a, b)
  {
    assert Lower(a)[0] != Lower(b)[0];
  }

  predicate WritableMods(mods: seq<ModOp>) {
    forall i :: 0 <= i < |mods| ==> WritableOp(mods[i]) && BytesOp(mods[i])
  }

  lemma ReadOp(head: string, op: ModOp, tail: seq<string>, rest: seq<string>)
    requires ParseLine(head) == Some((Keyword(op), op.attr)) && ReadValues(tail, op.attr) == Some((op.values, rest))
    requires MakeOp(Keyword(op), op.attr, op.values) == Some(op) && ReadMods(rest).Some?
    ensures ReadMods([head] + tail) == Some([op] + ReadMods(rest).value)
  {
    assert ([head] + tail)[1..] == tail;
  }

  lemma OpReads(op: ModOp, rest: seq<string>, ops: seq<ModOp>)
    requires WritableOp(op) && BytesOp(op) && ReadMods(rest) == Some(ops)
    ensures ReadMods(OpLines(op) + rest) == Some([op] + ops)
    ensures forall l :: l in OpLines(op) ==> PlainLine(l)
  {
    var head, vs := Plain(Keyword(op), op.attr), ValueLines(op.attr, op.values);
    KeywordReads(op);
    SafeLineReads(Keyword(op), op.attr);
    ValuesRead(op.attr, op.values, rest);
    ValueLinesPlain(op.attr, op.values);
    ReadOp(head, op, vs + (["-"] + rest), rest);
    OpLinesThen(head, vs, rest);
  }

  lemma OpLinesThen(head: string, vs: seq<string>, rest: seq<string>)
    ensures [head] + vs + ["-"] + rest == [head] + (vs + (["-"] + rest))
  {
  }

  lemma {:induction false} ModsRead(mods: seq<ModOp>)
    requires WritableMods(mods)
    ensures ReadMods(ModLines(mods)) == Some(mods) && forall l :: l in ModLines(mods) ==> PlainLine(l)
  {
    if mods != [] {
      var op, ops := mods[0], mods[1..];
      var rest := ModLines(ops);
      ModsRead(ops);
      OpReads(op, rest, ops);
      assert ModLines(mods) == OpLines(op) + rest;
      assert [op] + ops == mods;
    }
  }

  predicate Writable(r: Record) {
    r.BytesOnly() && (r.Modify? ==> WritableMods(r.mods))
  }

  lemma SafeValueReads(name: string, v: string)
    requires LineName(name) && SafeValue(v)
    ensures ValueOf(Plain(name, v), name) == Some(v) && PlainLine(Plain(name, v))
  {
    SafeLineReads(name, v);
  }

  /** Two or three lines of given names. */
  lemma BodyReads(n0: string, v0: string, n1: string, v1: string, n2: string, v2: Option<string>)
    requires LineName(n0) && LineName(n1) && LineName(n2) && Bytes(v0) && SafeValue(v1)
               && (v2.Some? ==> Bytes(v2.value))
    ensures ValueOf(Line(n0, v0), n0) == Some(v0) && PlainLine(Line(n0, v0))
    ensures ValueOf(Plain(n1, v1), n1) == Some(v1) && PlainLine(Plain(n1, v1))
    ensures v2.Some? ==> ValueOf(Line(n2, v2.value), n2) == v2 && PlainLine(Line(n2, v2.value))
  {
    ValueReads(n0, v0);
    SafeValueReads(n1, v1);
    if v2.Some? { ValueReads(n2, v2.value); }
  }

  lemma RecordNames()
    ensures LineName("dn") && LineName("changetype") && LineName("newrdn")
  {
  }

  lemma RenameNames()
    ensures LineName("deleteoldrdn") && LineName("newsuperior") && SafeValue("0") && SafeValue("1")
  {
  }

  lemma RenameBodyReads(dn: string, rdn: ModRdn)
    requires Rename(dn, rdn).BytesOnly()
    ensures ReadRename(dn, RenameBody(rdn)) == Some(Rename(dn, rdn))
    ensures forall l :: l in RenameBody(rdn) ==> PlainLine(l)
  {
    RecordNames();
    RenameNames();
    BodyReads("newrdn", rdn.newRdn, "deleteoldrdn", if rdn.deleteOld then "1" else "0", "newsuperior", rdn.newSuperior);
    RenameFrom(RenameBody(rdn), dn, rdn);
  }

  lemma RenameFrom(ls: seq<string>, dn: string, rdn: ModRdn)
    requires |ls| == if rdn.newSuperior == None then 2 else 3
    requires ValueOf(ls[0], "newrdn") == Some(rdn.newRdn)
    requires ValueOf(ls[1], "deleteoldrdn") == Some(if rdn.deleteOld then "1" else "0")
    requires rdn.newSuperior.Some? ==> ValueOf(ls[2], "newsuperior") == rdn.newSuperior
    ensures ReadRename(dn, ls) == Some(Rename(dn, rdn))
  {
    assert "0"[0] != "1"[0];
  }

  /** The first two lines of a record. */
  lemma HeadReads(dn: string, kind: string, rest: seq<string>)
    requires Bytes(dn) && (kind == "modrdn" || kind == "modify")
    ensures var ls := [Line("dn", dn), Plain("changetype", kind)] + rest;
            PlainLine(ls[0]) && PlainLine(ls[1]) && ls[2..] == rest
            && ValueOf(ls[0], "dn") == Some(dn) && ValueOf(ls[1], "changetype") == Some(kind)
  {
    RecordNames();
    BodyReads("dn", dn, "changetype", kind, "dn", None);
  }

  lemma KindsDiffer()
    ensures !EqCi("modify", "modrdn")
  {
    assert "modify"[3] == 'i' && "modrdn"[3] == 'r';
    assert Lower("modify")[3] != Lower("modrdn")[3];
  }

  lemma RecordFrom(ls: seq<string>, dn: string, kind: string, rest: seq<string>, r: Record)
    requires |ls| >= 2 && ls[2..] == rest && ValueOf(ls[0], "dn") == Some(dn)
               && ValueOf(ls[1], "changetype") == Some(kind)
    requires (kind == "modrdn" && ReadRename(dn, rest) == Some(r))
             || (kind == "modify" && r.Modify? && r.dn == dn && ReadMods(rest) == Some(r.mods))
    ensures ReadRecord(ls) == Some(r)
  {
    KindsDiffer();
  }

  lemma RecordReads(r: Record)
    requires Writable(r)
    ensures ReadRecord(RecordLines(r)) == Some(r) && forall l :: l in RecordLines(r) ==> PlainLine(l)
  {
    match r
    case Rename(dn, rdn) =>
      RenameBodyReads(dn, rdn);
      HeadReads(dn, "modrdn", RenameBody(rdn));
      RecordFrom(RecordLines(r), dn, "modrdn", RenameBody(rdn), r);
    case Modify(dn, mods) =>
      ModsRead(mods);
      HeadReads(dn, "modify", ModLines(mods));
      RecordFrom(RecordLines(r), dn, "modify", ModLines(mods), r);
  }

  ghost predicate AllWritable(rs: seq<Record>) {
    BytesAll(rs) && forall r :: r in rs ==> Writable(r)
  }

  lemma ReadFirst(ls: seq<string>, r: Record, ps: seq<seq<string>>, rs: seq<Record>)
    requires ReadRecord(ls) == Some(r) && ReadRecords(ps) == Some(rs)
    ensures ReadRecords([ls] + ps) == Some([r] + rs)
  {
    assert ([ls] + ps)[1..] == ps;
  }

  /** The paragraphs of a record and what follows it. */
  lemma FirstParagraph(ls: seq<string>, rest: seq<string>)
    requires ls != [] && "" !in ls
    ensures Paragraphs(ls + ([""] + rest), []) == [ls] + Paragraphs(rest, [])
    ensures Paragraphs(ls, []) == [ls] + []
  {
    ParagraphLines(ls, [""] + rest, []);
    ParagraphLines(ls, [], []);
    assert [] + ls == ls && ls + [] == ls && ([""] + rest)[1..] == rest;
  }

  lemma {:induction false} SpacedReads(rs: seq<Record>)
    requires AllWritable(rs)
    ensures ReadRecords(Paragraphs(SpacedLines(rs), [])) == Some(rs)
  {
    if rs != [] {
      var ls := RecordLines(rs[0]);
      RecordReads(rs[0]);
      assert "" !in ls && [rs[0]] + rs[1..] == rs;
      if |rs| == 1 {
        FirstParagraph(ls, []);
        ReadFirst(ls, rs[0], [], []);
        assert rs[1..] == [];
      } else {
        SpacedReads(rs[1..]);
        FirstParagraph(ls, SpacedLines(rs[1..]));
        JoinTwice(ls, [""], SpacedLines(rs[1..]));
        ReadFirst(ls, rs[0], Paragraphs(SpacedLines(rs[1..]), []), rs[1..]);
      }
    }
  }

  lemma {:induction false} SpacedPlain(rs: seq<Record>)
    requires AllWritable(rs)
    ensures forall l :: l in SpacedLines(rs) ==> l == "" || PlainLine(l)
  {
    if rs != [] {
      RecordReads(rs[0]);
      SpacedPlain(rs[1..]);
    }
  }

  /** A preview loses nothing: an LDIF reader recovers exactly the records it was written from. */
  lemma PreviewReads(rs: seq<Record>)
    requires AllWritable(rs)
    ensures Read(Unlines(SpacedLines(rs))) == Some(rs)
  {
    var ls := SpacedLines(rs);
    SpacedReads(rs);
    SpacedPlain(rs);
    LinesBack(ls);
    forall i | 0 <= i < |ls| ensures Chomp(ls[i]) == ls[i] && (ls[i] == "" || PlainLine(ls[i])) {
      assert ls[i] in ls;
      if ls[i] != "" { assert ls[i][|ls[i]| - 1] in ls[i]; }
    }
    assert ChompAll(ls) == ls;
    UnfoldPlain(ls);
  }
}
