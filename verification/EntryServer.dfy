/** What an LDAP server does to one entry: MODIFY (RFC 4511 section 4.6) and
    MODRDN (RFC 4511 section 4.9), plus the RDN string form of RFC 4514. */
module EntryServer {
  import opened Text

  /** Attribute values by lower-cased name; an attribute without values is absent. */
  type Stored = map<string, set<string>>

  function Get(st: Stored, name: string): set<string> {
    if Lower(name) in st then st[Lower(name)] else {}
  }

  function Put(st: Stored, name: string, values: set<string>): Stored {
    if values == {} then st - {Lower(name)} else st[Lower(name) := values]
  }

  /** A modification as it travels: the values are a set. */
  datatype Mod =
    | ModAdd(attr: string, vals: set<string>)
    | ModDelete(attr: string, vals: set<string>)
    | ModReplace(attr: string, vals: set<string>)

  const PROTOCOL_ERROR := 2
  const NO_SUCH_ATTRIBUTE := 16
  const VALUE_EXISTS := 20
  const INVALID_DN_SYNTAX := 34
  const NOT_ALLOWED_ON_RDN := 67

  /** A result code other than success. */
  type Rc = n: nat | n != 0 witness 80

  datatype Outcome<+S> = Done(state: S) | Refused(rc: Rc)

  /** Strict: adding a present value or deleting an absent one is refused. */
  function ApplyMod(st: Stored, m: Mod): Outcome<Stored> {
    match m
    case ModAdd(a, vs) =>
      if vs == {} then Refused(PROTOCOL_ERROR)
      else if !(vs !! Get(st, a)) then Refused(VALUE_EXISTS)
      else Done(Put(st, a, Get(st, a) + vs))
    case ModDelete(a, vs) =>
      if Get(st, a) == {} || !(vs <= Get(st, a)) then Refused(NO_SUCH_ATTRIBUTE)
      else Done(Put(st, a, if vs == {} then {} else Get(st, a) - vs))
    case ModReplace(a, vs) => Done(Put(st, a, vs))
  }

  function ApplyMods(st: Stored, mods: seq<Mod>): Outcome<Stored>
    decreases mods
  {
    if mods == [] then Done(st)
    else
      match ApplyMod(st, mods[0])
      case Refused(rc) => Refused(rc)
      case Done(st1) => ApplyMods(st1, mods[1..])
  }

  /** The value that names the entry. */
  datatype Naming = Naming(attr: string, value: string)

  /** All or nothing; the naming value must survive. */
  function Modify(st: Stored, naming: Naming, mods: seq<Mod>): Outcome<Stored> {
    match ApplyMods(st, mods)
    case Refused(rc) => Refused(rc)
    case Done(st1) =>
      if naming.value in Get(st1, naming.attr) then Done(st1) else Refused(NOT_ALLOWED_ON_RDN)
  }

  lemma PutGet(st: Stored, n: string, vs: set<string>, m: string)
    ensures Get(Put(st, n, vs), m) == if EqCi(n, m) then vs else Get(st, m)
  {
  }

  lemma {:induction false} ApplyModsAppend(st: Stored, a: seq<Mod>, b: seq<Mod>)
    ensures ApplyMods(st, a + b)
         == match ApplyMods(st, a) { case Refused(rc) => Refused(rc) case Done(st1) => ApplyMods(st1, b) }
    decreases a
  {
    if a == [] {
      assert a + b == b;
    } else {
      assert (a + b)[1..] == a[1..] + b;
      match ApplyMod(st, a[0]) {
        case Refused(_) =>
        case Done(st1) => ApplyModsAppend(st1, a[1..], b);
      }
    }
  }

  /** The reasons for which the operations themselves can be refused. */
  lemma {:induction false} RefusalsOf(st: Stored, mods: seq<Mod>)
    ensures var r := ApplyMods(st, mods);
            r.Refused? ==> r.rc == PROTOCOL_ERROR || r.rc == VALUE_EXISTS || r.rc == NO_SUCH_ATTRIBUTE
    decreases mods
  {
    if mods != [] && ApplyMod(st, mods[0]).Done? { RefusalsOf(ApplyMod(st, mods[0]).state, mods[1..]); }
  }

  // ----- RDN strings -----

  predicate IsEscapable(c: char) {
    c in " \"#+,;<=>\\"
  }

  /** Characters that must be escaped wherever they stand. */
  predicate IsReserved(c: char) {
    c in "\"+,;<>\\" || c == 0 as char
  }

  function HexDigit(c: char): Option<nat> {
    if '0' <= c <= '9' then Some(c as int - '0' as int)
    else if 'a' <= c <= 'f' then Some(c as int - 'a' as int + 10)
    else if 'A' <= c <= 'F' then Some(c as int - 'A' as int + 10)
    else None
  }

  /** Unescapes an attribute value, from a position past its first character. */
  function ReadRest(s: string): Option<string> {
    if s == "" then Some("")
    else if s[0] == '\\' then
      if |s| >= 2 && IsEscapable(s[1]) then Cons(s[1], ReadRest(s[2..]))
      else if |s| >= 3 && HexDigit(s[1]).Some? && HexDigit(s[2]).Some? then
        Cons((HexDigit(s[1]).value * 16 + HexDigit(s[2]).value) as char, ReadRest(s[3..]))
      else None
    else if IsReserved(s[0]) || s == " " then None
    else Cons(s[0], ReadRest(s[1..]))
  }

  function Cons(c: char, rest: Option<string>): Option<string> {
    match rest
    case None => None
    case Some(t) => Some([c] + t)
  }

  /** The `string` form of RFC 4514 section 3; the `#` hexstring form is not a text value. */
  function ReadRdnValue(s: string): Option<string> {
    if s != "" && (s[0] == ' ' || s[0] == '#') then None else ReadRest(s)
  }

  /** A value whose RDN string is the value itself. */
  predicate PlainRdnValue(v: string) {
    && (forall i :: 0 <= i < |v| ==> !IsReserved(v[i]))
    && (v != "" ==> v[0] != ' ' && v[0] != '#' && v[|v| - 1] != ' ')
  }

  lemma {:induction false} ReadRestShrinks(s: string)
    ensures ReadRest(s).Some? ==> |ReadRest(s).value| <= |s|
    ensures ReadRest(s) == Some(s) <==>
              (forall i :: 0 <= i < |s| ==> !IsReserved(s[i])) && (s != "" ==> s[|s| - 1] != ' ')
  {
    if s != "" {
      if s[0] == '\\' {
        if |s| >= 2 { ReadRestShrinks(s[2..]); }
        if |s| >= 3 { ReadRestShrinks(s[3..]); }
      } else {
        ReadRestShrinks(s[1..]);
        if forall i :: 0 <= i < |s[1..]| ==> !IsReserved(s[1..][i]) {
          forall i | 1 <= i < |s| ensures !IsReserved(s[i]) { assert s[i] == s[1..][i - 1]; }
        }
        if ReadRest(s) == Some(s) { assert ReadRest(s[1..]).value == s[1..]; }
        if ReadRest(s[1..]) == Some(s[1..]) { assert [s[0]] + s[1..] == s; }
      }
    }
  }

  lemma ReadRdnValueExact(v: string)
    ensures ReadRdnValue(v) == Some(v) <==> PlainRdnValue(v)
  {
    ReadRestShrinks(v);
  }

  function ReadRdn(rdn: string): Option<Naming> {
    match SplitOnce(rdn, '=')
    case None => None
    case Some((a, s)) =>
      match ReadRdnValue(s)
      case None => None
      case Some(v) => Some(Naming(a, v))
  }

  /** MODRDN within the same parent: add the new naming value, drop the old one if asked. */
  function ModifyDn(st: Stored, old_: Naming, newRdn: string, deleteOld: bool): Outcome<(Stored, Naming)> {
    match ReadRdn(newRdn)
    case None => Refused(INVALID_DN_SYNTAX)
    case Some(n) =>
      var kept := if deleteOld then Put(st, old_.attr, Get(st, old_.attr) - {old_.value}) else st;
      Done((Put(kept, n.attr, Get(kept, n.attr) + {n.value}), n))
  }
}
