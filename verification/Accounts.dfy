/** `samba/account.rs`: account flags in brackets; `config/widget.rs`: the choice widget that edits them. */
module Accounts {
  import opened Text

  /** The flag letters in the order Samba writes them. */
  const ACB_ORDER := "NDHTUMWSLXI"

  /** The flags of a value; brackets may be missing, padding does not count, unknown letters stay. */
  function ParseBracketed(s: string): set<char> {
    var t := Trim(s);
    var inner := if t != "" && t[0] == '[' then t[1..] else t;
    var core := if inner != "" && inner[|inner| - 1] == ']' then inner[..|inner| - 1] else inner;
    set c | c in core && !IsSpace(c)
  }

  /** The letters of `order` that are in `flags`, in that order. */
  function Known(order: string, flags: set<char>): string {
    if order == "" then "" else (if order[0] in flags then [order[0]] else "") + Known(order[1..], flags)
  }

  predicate Ascending(s: string) {
    forall i, j :: 0 <= i < j < |s| ==> s[i] < s[j]
  }

  /** The only letters that stand for `flags`: known ones in Samba's order, then the others ascending. */
  ghost predicate Canonical(letters: string, flags: set<char>) {
    var known := Known(ACB_ORDER, flags);
    known <= letters && Ascending(letters[|known|..])
    && SetOf(letters[|known|..]) == set c | c in flags && c !in ACB_ORDER
  }

  function Pad(s: string, width: nat): string
    decreases width - |s|
  {
    if |s| < width then Pad(s + " ", width) else s
  }

  lemma {:induction false} PadKeeps(s: string, width: nat)
    ensures s <= Pad(s, width) && |Pad(s, width)| == if |s| < width then width else |s|
    ensures forall i :: |s| <= i < |Pad(s, width)| ==> Pad(s, width)[i] == ' '
    decreases width - |s|
  {
    if |s| < width {
      PadKeeps(s + " ", width);
      assert s == (s + " ")[..|s|];
    }
  }

  /** The flags in brackets, padded to eleven letters. */
  function Bracketed(letters: string): string {
    "[" + Pad(letters, 11) + "]"
  }

  predicate AllBelow(s: string, chars: set<char>) {
    forall a, b :: a in s && b in chars ==> a < b
  }

  lemma Above(s: string, chars: set<char>, least: char)
    requires AllBelow(s, chars) && least in chars && forall c :: c in chars ==> least <= c
    ensures AllBelow(s + [least], chars - {least}) && forall a :: a in s ==> a < least
  {
    assert forall a :: a in s + [least] ==> a in s || a == least;
  }

  method SortChars(flags: set<char>) returns (s: string)
    ensures Ascending(s) && SetOf(s) == flags
  {
    s := "";
    var rest := flags;
    while rest != {}
      invariant rest <= flags && SetOf(s) == flags - rest && Ascending(s) && AllBelow(s, rest)
      decreases |rest|
    {
      var least := Least(rest);
      Above(s, rest, least);
      SetOfMore(s, least);
      AscendingMore(s, least);
      s := s + [least];
      rest := rest - {least};
    }
  }

  lemma AscendingMore(s: string, c: char)
    requires Ascending(s) && forall x :: x in s ==> x < c
    ensures Ascending(s + [c])
  {
    assert forall i :: 0 <= i < |s| ==> s[i] in s;
  }

  lemma SetOfMore(s: string, c: char)
    ensures SetOf(s + [c]) == SetOf(s) + {c}
  {
    forall x ensures x in SetOf(s + [c]) <==> x in SetOf(s) + {c} {
      assert x in s + [c] <==> x in s || x == c;
    }
  }

  method Least(chars: set<char>) returns (least: char)
    requires chars != {}
    ensures least in chars && forall c :: c in chars ==> least <= c
  {
    least :| least in chars;
    var rest := chars - {least};
    while rest != {}
      invariant rest <= chars && least in chars && forall c :: c in chars && c !in rest ==> least <= c
      decreases |rest|
    {
      var c :| c in rest;
      if c < least { least := c; }
      rest := rest - {c};
    }
  }

  method KnownLetters(order: string, flags: set<char>) returns (known: string)
    ensures known == Known(order, flags)
  {
    known := "";
    assert order[0..] == order;
    for i := 0 to |order|
      invariant known + Known(order[i..], flags) == Known(order, flags)
    {
      assert order[i..][1..] == order[i + 1..];
      if order[i] in flags { known := known + [order[i]]; }
    }
  }

  /** `serialize_bracketed`. */
  method SerializeBracketed(flags: set<char>) returns (s: string)
    ensures exists letters :: Canonical(letters, flags) && s == Bracketed(letters)
  {
    var known := KnownLetters(ACB_ORDER, flags);
    var unknown := SortChars(set c | c in flags && c !in ACB_ORDER);
    var letters := known + unknown;
    assert letters[|known|..] == unknown;
    assert Canonical(letters, flags);
    s := Bracketed(letters);
  }

  lemma {:induction false} KnownSet(order: string, flags: set<char>)
    ensures SetOf(Known(order, flags)) == set c | c in flags && c in order
    ensures |Known(order, flags)| <= |order|
  {
    if order != "" {
      var tail := Known(order[1..], flags);
      KnownSet(order[1..], flags);
      assert order == [order[0]] + order[1..];
      forall c ensures c in SetOf(Known(order, flags)) <==> c in flags && c in order {
        assert c in tail <==> c in SetOf(tail);
      }
    }
  }

  /** The known letters come in the given order, each exactly when it is among the flags. */
  lemma {:induction false} KnownExact(a: string, c: char, b: string, flags: set<char>)
    ensures Known(a + [c] + b, flags) == Known(a, flags) + (if c in flags then [c] else "") + Known(b, flags)
  {
    var all := a + [c] + b;
    if a == "" {
      assert all[0] == c && all[1..] == b;
    } else {
      KnownExact(a[1..], c, b, flags);
      assert all[0] == a[0] && all[1..] == a[1..] + [c] + b;
      var head, mid := if a[0] in flags then [a[0]] else "", if c in flags then [c] else "";
      JoinTwice(head, Known(a[1..], flags), mid);
      JoinTwice(head, Known(a[1..], flags) + mid, Known(b, flags));
    }
  }

  lemma CanonicalSet(letters: string, flags: set<char>)
    requires Canonical(letters, flags)
    ensures SetOf(letters) == flags
  {
    var known := Known(ACB_ORDER, flags);
    KnownSet(ACB_ORDER, flags);
    assert letters == known + letters[|known|..];
    forall c ensures c in letters <==> c in flags {
      assert c in letters <==> c in known || c in letters[|known|..];
      assert c in known <==> c in SetOf(known);
      assert c in letters[|known|..] <==> c in SetOf(letters[|known|..]);
    }
  }

  lemma SetOfEmpty(s: string)
    ensures SetOf(s) == {} ==> s == ""
  {
    if s != "" { assert s[0] in SetOf(s); }
  }

  /** Two ascending strings with the same characters are equal. */
  lemma {:induction false} AscendingUnique(a: string, b: string)
    requires Ascending(a) && Ascending(b) && SetOf(a) == SetOf(b)
    ensures a == b
    decreases |a|
  {
    if a == "" {
      SetOfEmpty(b);
    } else {
      assert a[0] in SetOf(b) by { assert a[0] in SetOf(a); }
      assert b != "" && b[0] in SetOf(a) by { assert b[0] in SetOf(b); }
      assert a[0] == b[0];
      Tail(a);
      Tail(b);
      AscendingUnique(a[1..], b[1..]);
      assert a == [a[0]] + a[1..] && b == [b[0]] + b[1..];
    }
  }

  lemma Tail(a: string)
    requires a != "" && Ascending(a)
    ensures Ascending(a[1..]) && SetOf(a[1..]) == SetOf(a) - {a[0]}
  {
    assert a == [a[0]] + a[1..];
    assert forall i :: 0 < i < |a| ==> a[i] != a[0];
    forall c ensures c in SetOf(a[1..]) <==> c in SetOf(a) - {a[0]} {
      if c in SetOf(a[1..]) { var i :| 0 <= i < |a[1..]| && a[1..][i] == c; assert a[i + 1] == c; }
    }
  }

  /** Serialising is canonical: one text for each set of flags. */
  lemma CanonicalUnique(a: string, b: string, flags: set<char>)
    requires Canonical(a, flags) && Canonical(b, flags)
    ensures a == b
  {
    var known := Known(ACB_ORDER, flags);
    AscendingUnique(a[|known|..], b[|known|..]);
    assert a == known + a[|known|..] && b == known + b[|known|..];
  }

  lemma BracketsStrip(inner: string)
    ensures Trim("[" + inner + "]") == "[" + inner + "]"
    ensures ParseBracketed("[" + inner + "]") == set c | c in inner && !IsSpace(c)
  {
    var s := "[" + inner + "]";
    TrimNoSpaces(s);
    assert s[1..] == inner + "]" && (inner + "]")[..|inner|] == inner;
  }

  /** What was serialised parses back to the flags that are not white space; so exactly the sets without any survive. */
  lemma FlagsParseBack(letters: string, flags: set<char>)
    requires Canonical(letters, flags)
    ensures ParseBracketed(Bracketed(letters)) == set c | c in flags && !IsSpace(c)
    ensures ParseBracketed(Bracketed(letters)) == flags <==> forall c :: c in flags ==> !IsSpace(c)
  {
    var inner := Pad(letters, 11);
    BracketsStrip(inner);
    PadKeeps(letters, 11);
    CanonicalSet(letters, flags);
    forall c ensures c in inner && !IsSpace(c) <==> c in flags && !IsSpace(c) {
      if c in inner && !IsSpace(c) {
        var i :| 0 <= i < |inner| && inner[i] == c;
        assert i < |letters| && letters[i] == c;
        assert c in SetOf(letters);
      }
      if c in flags {
        assert c in SetOf(letters);
        var i :| 0 <= i < |letters| && letters[i] == c;
        assert inner[i] == letters[i];
      }
    }
    if ParseBracketed(Bracketed(letters)) == flags {
      forall c | c in flags ensures !IsSpace(c) { assert c in ParseBracketed(Bracketed(letters)); }
    }
  }

  /** The text is thirteen characters wide for up to eleven letters, and serialising what was parsed changes nothing. */
  lemma SerializedIsFixed(letters: string, flags: set<char>, again: string)
    requires Canonical(letters, flags) && forall c :: c in flags ==> !IsSpace(c)
    requires Canonical(again, ParseBracketed(Bracketed(letters)))
    ensures |Bracketed(letters)| == if |letters| <= 11 then 13 else |letters| + 2
    ensures Bracketed(again) == Bracketed(letters)
  {
    PadKeeps(letters, 11);
    FlagsParseBack(letters, flags);
    CanonicalUnique(again, letters, flags);
  }

  // ---------------------------------------------------------------- the choice widget

  datatype ChoiceWidget = ChoiceWidget(bracketed: bool, single: bool, options: seq<string>)

  function Tokens(flags: set<char>): set<string> {
    set c | c in flags :: [c]
  }

  /** The tokens a value holds. */
  function Parse(w: ChoiceWidget, value: string): set<string> {
    if w.bracketed then Tokens(ParseBracketed(value))
    else if Trim(value) == "" then {} else {Trim(value)}
  }

  function FirstChars(tokens: set<string>): set<char> {
    set t | t in tokens && t != "" :: t[0]
  }

  /** What `serialize` may answer: flags in brackets, or the first of the plain tokens. */
  ghost predicate Serialized(w: ChoiceWidget, tokens: set<string>, s: string) {
    if w.bracketed then exists letters :: Canonical(letters, FirstChars(tokens)) && s == Bracketed(letters)
    else if tokens == {} then s == ""
    else s in tokens && forall t :: t in tokens ==> StrLe(s, t)
  }

  method Serialize(w: ChoiceWidget, tokens: set<string>) returns (s: string)
    ensures Serialized(w, tokens, s)
  {
    if w.bracketed {
      s := SerializeBracketed(FirstChars(tokens));
    } else if tokens == {} {
      s := "";
    } else {
      s :| s in tokens;
      StrLeTotal(s, s);
      var rest := tokens - {s};
      while rest != {}
        invariant rest <= tokens && s in tokens && forall t :: t in tokens && t !in rest ==> StrLe(s, t)
        decreases |rest|
      {
        var t :| t in rest;
        StrLeTotal(s, t);
        if !StrLe(s, t) {
          forall u | u in tokens && u !in rest ensures StrLe(t, u) { StrLeTrans(t, s, u); }
          StrLeTotal(t, t);
          s := t;
        }
        rest := rest - {t};
      }
    }
  }

  /** The tokens after an edit: those no option stands for, and the options that are checked. */
  function Committed(w: ChoiceWidget, current: string, checked: seq<string>): set<string> {
    var kept := if !w.bracketed && checked != [] then {} else Parse(w, current);
    (set t | t in kept && t !in w.options) + (set o | o in w.options && o in checked)
  }

  /** `commit_value`. */
  method CommitValue(w: ChoiceWidget, current: string, checked: seq<string>) returns (s: string)
    ensures Serialized(w, Committed(w, current, checked), s)
  {
    var tokens := Parse(w, current);
    if !w.bracketed && checked != [] {
      tokens := {};
    }
    ghost var kept := tokens;
    if w.single {
      for i := 0 to |w.options|
        invariant tokens <= kept && forall t :: t in kept && t !in tokens ==> t in w.options
      {
        tokens := tokens - {w.options[i]};
      }
    }
    ghost var before := tokens;
    for i := 0 to |w.options|
      invariant forall t :: t in tokens <==> if t in w.options[..i] then t in checked else t in before
    {
      assert w.options[..i + 1] == w.options[..i] + [w.options[i]];
      if w.options[i] in checked {
        tokens := tokens + {w.options[i]};
      } else {
        tokens := tokens - {w.options[i]};
      }
    }
    assert w.options[..|w.options|] == w.options;
    assert tokens == Committed(w, current, checked);
    s := Serialize(w, tokens);
  }

  /** `seed_checked`. */
  function SeedChecked(w: ChoiceWidget, options: seq<string>, current: string): seq<string> {
    if options == [] then []
    else (if options[0] in Parse(w, current) then [options[0]] else []) + SeedChecked(w, options[1..], current)
  }

  function CheckedOf(options: seq<string>, checked: seq<string>): seq<string> {
    if options == [] then []
    else (if options[0] in checked then [options[0]] else []) + CheckedOf(options[1..], checked)
  }

  /** Options of one letter each, as a flags widget has. */
  predicate LetterOptions(w: ChoiceWidget) {
    w.bracketed && forall i :: 0 <= i < |w.options| ==> |w.options[i]| == 1 && !IsSpace(w.options[i][0])
  }

  predicate Letters(tokens: set<string>) {
    forall t :: t in tokens ==> |t| == 1 && !IsSpace(t[0])
  }

  lemma CommittedLetters(w: ChoiceWidget, current: string, checked: seq<string>)
    requires LetterOptions(w)
    ensures Letters(Committed(w, current, checked))
  {
    forall t | t in Committed(w, current, checked) ensures |t| == 1 && !IsSpace(t[0]) {
      if t in w.options { var i :| 0 <= i < |w.options| && w.options[i] == t; }
    }
  }

  lemma SerializedReads(w: ChoiceWidget, tokens: set<string>, s: string)
    requires w.bracketed && Letters(tokens) && Serialized(w, tokens, s)
    ensures Parse(w, s) == tokens
  {
    var letters :| Canonical(letters, FirstChars(tokens)) && s == Bracketed(letters);
    FlagsParseBack(letters, FirstChars(tokens));
    forall t ensures t in Tokens(FirstChars(tokens)) <==> t in tokens {
      if t in tokens { assert t[0] in FirstChars(tokens) && t == [t[0]]; }
      if t in Tokens(FirstChars(tokens)) {
        var u :| u in tokens && u != "" && [u[0]] == t;
        assert u == [u[0]];
      }
    }
  }

  /** An edit of flags denotes exactly the unmanaged letters and the checked options, and the editor opened over
      the result shows exactly what was checked. */
  lemma EditKeepsLetters(w: ChoiceWidget, current: string, checked: seq<string>, s: string)
    requires LetterOptions(w) && Serialized(w, Committed(w, current, checked), s)
    ensures Parse(w, s)
         == (set t | t in Parse(w, current) && t !in w.options) + (set o | o in w.options && o in checked)
    ensures SeedChecked(w, w.options, s) == CheckedOf(w.options, checked)
  {
    CommittedLetters(w, current, checked);
    SerializedReads(w, Committed(w, current, checked), s);
    SeedShows(w, w.options, s, checked);
  }

  lemma {:induction false} SeedShows(w: ChoiceWidget, options: seq<string>, s: string, checked: seq<string>)
    requires forall i :: 0 <= i < |options| ==> (options[i] in Parse(w, s) <==> options[i] in checked)
    ensures SeedChecked(w, options, s) == CheckedOf(options, checked)
  {
    if options != [] { SeedShows(w, options[1..], s, checked); }
  }

  /** A plain value: of the options picked the least is stored, and clearing them leaves a value that is no option. */
  lemma PlainEdit(w: ChoiceWidget, current: string, checked: seq<string>, s: string)
    requires !w.bracketed && Serialized(w, Committed(w, current, checked), s)
    ensures checked == [] ==> s == if Trim(current) in w.options then "" else Trim(current)
    ensures checked != [] && (forall o :: o in w.options ==> o !in checked) ==> s == ""
    ensures forall o :: o in w.options && o in checked ==> s in w.options && s in checked && StrLe(s, o)
  {
    if checked == [] {
      assert Committed(w, current, checked)
          == if Trim(current) == "" || Trim(current) in w.options then {} else {Trim(current)};
    } else {
      forall t ensures t in Committed(w, current, checked) <==> t in w.options && t in checked { }
      forall o | o in w.options && o in checked ensures s in w.options && s in checked && StrLe(s, o) {
        assert o in Committed(w, current, checked);
      }
    }
  }
}
