/** `detect/names.rs`: slugs, and names that detected profiles get. */
module Names {
  import opened Text
  import opened DnText

  // ---------------------------------------------------------------- slugs

  predicate Alnum(c: char) {
    'a' <= c <= 'z' || '0' <= c <= '9'
  }

  /** The runs of letters and digits; `cur` is the one begun so far. */
  function Runs(s: string, cur: string): seq<string> {
    if s == "" then OneIfAny(cur)
    else if Alnum(s[0]) then Runs(s[1..], cur + [s[0]])
    else OneIfAny(cur) + Runs(s[1..], "")
  }

  function Dashed(words: seq<string>): string {
    Join(words, "-")
  }

  /** The lower-cased letters and digits, every gap between them one dash. */
  function Slug(s: string): string {
    Dashed(Runs(Lower(s), ""))
  }

  predicate Word(w: string) {
    w != "" && forall i :: 0 <= i < |w| ==> Alnum(w[i])
  }

  predicate AllWords(words: seq<string>) {
    forall i :: 0 <= i < |words| ==> Word(words[i])
  }

  lemma {:induction false} RunsAreWords(s: string, cur: string)
    requires cur == "" || Word(cur)
    ensures AllWords(Runs(s, cur))
  {
    if s != "" {
      if Alnum(s[0]) { RunsAreWords(s[1..], cur + [s[0]]); } else { RunsAreWords(s[1..], ""); }
    }
  }

  lemma {:induction false} DashedLast(words: seq<string>, w: string)
    ensures Dashed(words + [w]) == if words == [] then w else Dashed(words) + "-" + w
  {
    if words == [] {
      assert words + [w] == [w];
    } else {
      DashedLast(words[1..], w);
      assert (words + [w])[1..] == words[1..] + [w];
    }
  }

  lemma DashedGrow(words: seq<string>, w: string, c: char)
    ensures Dashed(words + [w + [c]]) == Dashed(words + [w]) + [c]
  {
    DashedLast(words, w);
    DashedLast(words, w + [c]);
  }

  lemma {:induction false} DashedEmpty(words: seq<string>)
    requires AllWords(words)
    ensures Dashed(words) == "" <==> words == []
  {
  }

  /** `slug` after some characters: the finished words, the open one, and whether a dash is due. */
  ghost predicate Sofar(low: string, i: nat, done: seq<string>, cur: string, out: string, pendingDash: bool)
    requires i <= |low|
  {
    Runs(low, "") == done + Runs(low[i..], cur) && out == Dashed(done + OneIfAny(cur))
    && AllWords(done) && (cur == "" || Word(cur))
    && (cur == "" && done != [] ==> pendingDash) && (cur != "" ==> !pendingDash)
  }

  lemma NextAlnum(low: string, i: nat, done: seq<string>, cur: string, out: string, pendingDash: bool)
    requires i < |low| && Alnum(low[i]) && Sofar(low, i, done, cur, out, pendingDash)
    ensures Sofar(low, i + 1, done, cur + [low[i]],
                  (if pendingDash && out != "" then out + "-" else out) + [low[i]], false)
  {
    assert low[i..][1..] == low[i + 1..] && low[i..][0] == low[i];
    if cur == "" {
      DashedEmpty(done);
      DashedLast(done, [low[i]]);
      assert done + [] == done && "" + [low[i]] == [low[i]];
    } else {
      DashedGrow(done, cur, low[i]);
    }
  }

  lemma NextOther(low: string, i: nat, done: seq<string>, cur: string, out: string, pendingDash: bool)
    requires i < |low| && !Alnum(low[i]) && Sofar(low, i, done, cur, out, pendingDash)
    ensures Sofar(low, i + 1, done + OneIfAny(cur), "", out, true)
  {
    assert low[i..][1..] == low[i + 1..] && low[i..][0] == low[i];
    assert done + (OneIfAny(cur) + Runs(low[i + 1..], "")) == done + OneIfAny(cur) + Runs(low[i + 1..], "");
    assert done + OneIfAny(cur) + [] == done + OneIfAny(cur);
  }

  /** `slug`: one pass with a pending dash. */
  method MakeSlug(s: string) returns (out: string)
    ensures out == Slug(s)
  {
    out := "";
    var low := Lower(s);
    var pendingDash := false;
    ghost var done: seq<string>, cur := [], "";
    assert low[0..] == low && [] + Runs(low, "") == Runs(low, "");
    for i := 0 to |low|
      invariant Sofar(low, i, done, cur, out, pendingDash)
    {
      if Alnum(low[i]) {
        NextAlnum(low, i, done, cur, out, pendingDash);
        if pendingDash && out != "" {
          out := out + "-";
        }
        pendingDash := false;
        out := out + [low[i]];
        cur := cur + [low[i]];
      } else {
        NextOther(low, i, done, cur, out, pendingDash);
        pendingDash := true;
        done, cur := done + OneIfAny(cur), "";
      }
    }
  }

  /** Only letters, digits and single dashes between them. */
  predicate SlugForm(s: string) {
    (forall i :: 0 <= i < |s| ==> Alnum(s[i]) || s[i] == '-')
    && (s != "" ==> s[0] != '-' && s[|s| - 1] != '-')
    && forall i :: 0 <= i < |s| - 1 ==> !(s[i] == '-' && s[i + 1] == '-')
  }

  lemma {:induction false} DashedForm(words: seq<string>)
    requires AllWords(words)
    ensures SlugForm(Dashed(words))
  {
    if |words| > 1 {
      DashedForm(words[1..]);
      DashedEmpty(words[1..]);
    }
  }

  lemma {:induction false} RunsSkip(w: string, rest: string, cur: string)
    requires forall i :: 0 <= i < |w| ==> Alnum(w[i])
    ensures Runs(w + rest, cur) == Runs(rest, cur + w)
  {
    if w == "" {
      assert w + rest == rest && cur + w == cur;
    } else {
      RunsSkip(w[1..], rest, cur + [w[0]]);
      assert (w + rest)[1..] == w[1..] + rest && cur + [w[0]] + w[1..] == cur + w;
    }
  }

  lemma {:induction false} RunsBack(words: seq<string>)
    requires AllWords(words)
    ensures Runs(Dashed(words), "") == words
  {
    if |words| == 1 {
      RunsSkip(words[0], "", "");
      assert words[0] + "" == words[0] && "" + words[0] == words[0] && words == [words[0]];
    } else if |words| > 1 {
      var tail := Dashed(words[1..]);
      RunsBack(words[1..]);
      RunsSkip(words[0], "-" + tail, "");
      assert words[0] + "-" + tail == words[0] + ("-" + tail) && "" + words[0] == words[0];
      assert ("-" + tail)[1..] == tail;
      assert [words[0]] + words[1..] == words;
    }
  }

  /** A slug has the form the names need, and slugging it again changes nothing. */
  lemma SlugIdempotent(s: string)
    ensures SlugForm(Slug(s)) && Slug(Slug(s)) == Slug(s)
  {
    var words := Runs(Lower(s), "");
    RunsAreWords(Lower(s), "");
    DashedForm(words);
    RunsBack(words);
    FormIsLower(Slug(s));
  }

  lemma FormIsLower(s: string)
    requires SlugForm(s)
    ensures Lower(s) == s
  {
    assert forall i :: 0 <= i < |s| ==> LowerChar(s[i]) == s[i];
  }

  /** And conversely: every string of that form is its own slug. */
  lemma FormIsSlug(s: string)
    requires SlugForm(s)
    ensures Slug(s) == s
  {
    FormIsLower(s);
    assert "" + s == s;
    FormRuns(s, "");
  }

  /** Behind a word and a dash a string of slug form goes on with another such string. */
  lemma SlugTail(cur: string, s: string)
    requires SlugForm(cur + s) && s != "" && !Alnum(s[0])
    ensures cur != "" && s[0] == '-' && s[1..] != "" && SlugForm(s[1..])
  {
    var whole, tail := cur + s, s[1..];
    assert whole[|cur|] == s[0];
    assert forall i :: 0 <= i < |tail| ==> tail[i] == whole[|cur| + 1 + i];
    if |s| > 1 { assert !(whole[|cur|] == '-' && whole[|cur| + 1] == '-'); }
  }

  lemma {:induction false} FormRuns(s: string, cur: string)
    requires SlugForm(cur + s) && (cur == "" || Word(cur))
    ensures Dashed(Runs(s, cur)) == cur + s
    decreases s
  {
    if s == "" {
      assert cur + s == cur;
    } else if Alnum(s[0]) {
      assert cur + [s[0]] + s[1..] == cur + s;
      FormRuns(s[1..], cur + [s[0]]);
    } else {
      var tail := s[1..];
      SlugTail(cur, s);
      assert "" + tail == tail;
      FormRuns(tail, "");
      WordThen(cur, Runs(tail, ""));
      assert cur + "-" + tail == cur + s;
    }
  }

  lemma WordThen(w: string, words: seq<string>)
    requires Dashed(words) != ""
    ensures Dashed([w] + words) == w + "-" + Dashed(words)
  {
    assert ([w] + words)[1..] == words;
  }

  /** Letters and digits are kept, in lower case. */
  lemma SlugOfWord(s: string)
    requires forall i :: 0 <= i < |s| ==> Alnum(LowerChar(s[i]))
    ensures Slug(s) == Lower(s)
  {
    if s != "" {
      RunsSkip(Lower(s), "", "");
      assert Lower(s) + "" == Lower(s) && "" + Lower(s) == Lower(s);
    }
  }

  /** Any other character parts what is before it from what is behind it, by one dash if there is something on both
      sides. With `SlugOfWord` this fixes the slug of every string. */
  lemma SlugParts(a: string, c: char, b: string)
    requires !Alnum(LowerChar(c))
    ensures Slug(a + [c] + b)
         == if Slug(a) == "" then Slug(b) else if Slug(b) == "" then Slug(a) else Slug(a) + "-" + Slug(b)
  {
    assert Lower(a + [c] + b) == Lower(a) + ([LowerChar(c)] + Lower(b));
    RunsPart(Lower(a), LowerChar(c), Lower(b), "");
    RunsAreWords(Lower(a), "");
    RunsAreWords(Lower(b), "");
    DashedBoth(Runs(Lower(a), ""), Runs(Lower(b), ""));
  }

  lemma {:induction false} RunsPart(a: string, c: char, b: string, cur: string)
    requires !Alnum(c)
    ensures Runs(a + ([c] + b), cur) == Runs(a, cur) + Runs(b, "")
  {
    var s := a + ([c] + b);
    if a == "" {
      assert s == [c] + b && s[1..] == b;
    } else {
      assert s[1..] == a[1..] + ([c] + b) && s[0] == a[0];
      if Alnum(a[0]) {
        RunsPart(a[1..], c, b, cur + [a[0]]);
      } else {
        RunsPart(a[1..], c, b, "");
        JoinTwice(OneIfAny(cur), Runs(a[1..], ""), Runs(b, ""));
      }
    }
  }

  lemma {:induction false} DashedBoth(v: seq<string>, w: seq<string>)
    requires AllWords(v) && AllWords(w)
    ensures Dashed(v + w)
         == if Dashed(v) == "" then Dashed(w) else if Dashed(w) == "" then Dashed(v) else Dashed(v) + "-" + Dashed(w)
    decreases w
  {
    DashedEmpty(v);
    DashedEmpty(w);
    if w == [] {
      assert v + w == v;
    } else {
      var init, last := w[..|w| - 1], w[|w| - 1];
      assert w == init + [last] && v + w == v + init + [last];
      DashedBoth(v, init);
      DashedEmpty(init);
      DashedLast(init, last);
      DashedLast(v + init, last);
    }
  }

  // ---------------------------------------------------------------- the parts of a name

  function BaseName(structural: string, objectClasses: seq<string>): string {
    if HasClass(structural, objectClasses, "posixAccount") then "user"
    else if HasClass(structural, objectClasses, "posixGroup") then "posixgroup"
    else if HasClass(structural, objectClasses, "groupOfNames")
        || HasClass(structural, objectClasses, "groupOfUniqueNames")
    then "group"
    else Slug(structural)
  }

  predicate HasClass(structural: string, objectClasses: seq<string>, oc: string) {
    EqCi(structural, oc) || exists c :: c in objectClasses && EqCi(c, oc)
  }

  function WithoutBackslashes(s: string): string {
    if s == "" then "" else (if s[0] == '\\' then "" else [s[0]]) + WithoutBackslashes(s[1..])
  }

  /** The slug of one DN component's value; an empty one becomes `x`. */
  function ComponentSlug(c: string): string {
    var value := match SplitOnce(c, '=') case None => c case Some((_, v)) => v;
    if Slug(WithoutBackslashes(value)) == "" then "x" else Slug(WithoutBackslashes(value))
  }

  /** `rdn_slugs`: leaf first. */
  function RdnSlugs(dn: string): seq<string> {
    var cs := Components(dn);
    seq(|cs|, i requires 0 <= i < |cs| => ComponentSlug(cs[i]))
  }

  /** Which class decides the base name: accounts before groups, POSIX groups before the others. */
  lemma BaseNamePrecedence(structural: string, objectClasses: seq<string>)
    ensures var base, all := BaseName(structural, objectClasses), [structural] + objectClasses;
            if exists c :: c in all && EqCi(c, "posixAccount") then base == "user"
            else if exists c :: c in all && EqCi(c, "posixGroup") then base == "posixgroup"
            else if exists c :: c in all && (EqCi(c, "groupOfNames") || EqCi(c, "groupOfUniqueNames"))
            then base == "group"
            else base == Slug(structural)
  {
    var all := [structural] + objectClasses;
    GivesClass(structural, objectClasses, "posixAccount");
    GivesClass(structural, objectClasses, "posixGroup");
    GivesClass(structural, objectClasses, "groupOfNames");
    GivesClass(structural, objectClasses, "groupOfUniqueNames");
  }

  lemma GivesClass(structural: string, objectClasses: seq<string>, oc: string)
    ensures HasClass(structural, objectClasses, oc) <==>
              exists c :: c in [structural] + objectClasses && EqCi(c, oc)
  {
    assert structural in [structural] + objectClasses;
  }

  lemma BaseNameForm(structural: string, objectClasses: seq<string>)
    ensures SlugForm(BaseName(structural, objectClasses))
  {
    SlugIdempotent(structural);
  }

  lemma RdnSlugsForm(dn: string)
    ensures forall i :: 0 <= i < |RdnSlugs(dn)| ==> SlugForm(RdnSlugs(dn)[i]) && RdnSlugs(dn)[i] != ""
  {
    forall i | 0 <= i < |RdnSlugs(dn)| ensures SlugForm(RdnSlugs(dn)[i]) && RdnSlugs(dn)[i] != "" {
      var c := Components(dn)[i];
      var value := match SplitOnce(c, '=') case None => c case Some((_, v)) => v;
      SlugIdempotent(WithoutBackslashes(value));
    }
  }

  /** One component `a=v`, both sides plain. */
  predicate PlainRdn(a: string, v: string) {
    (forall i :: 0 <= i < |a| ==> a[i] != ',' && a[i] != '\\' && a[i] != '=') && SlugForm(v) && v != ""
  }

  function Rdns(attrs: seq<string>, values: seq<string>): seq<string>
    requires |attrs| == |values|
  {
    seq(|attrs|, i requires 0 <= i < |attrs| => attrs[i] + ['='] + values[i])
  }

  lemma {:induction false} NoBackslashes(s: string)
    requires '\\' !in s
    ensures WithoutBackslashes(s) == s
  {
    if s != "" { NoBackslashes(s[1..]); }
  }

  lemma {:induction false} ComponentsOf(parts: seq<string>)
    requires parts != [] && forall i :: 0 <= i < |parts| ==> ',' !in parts[i] && '\\' !in parts[i]
    ensures Cut("", Join(parts, ","), false) == parts
  {
    if |parts| == 1 {
      CutPlain("", parts[0], "");
      assert parts[0] + "" == parts[0] && "" + parts[0] == parts[0] && parts == [parts[0]];
    } else {
      var rest := Join(parts[1..], ",");
      ComponentsOf(parts[1..]);
      CutPlain("", parts[0], "," + rest);
      assert parts[0] + "," + rest == parts[0] + ("," + rest) && "" + parts[0] == parts[0];
      assert ("," + rest)[1..] == rest && [parts[0]] + parts[1..] == parts;
    }
  }

  lemma FormIsPlain(v: string)
    requires SlugForm(v)
    ensures ',' !in v && '\\' !in v
  {
  }

  /** One component `a=v` without escapes. */
  predicate Unescaped(a: string, v: string) {
    ',' !in a && '\\' !in a && '=' !in a && ',' !in v && '\\' !in v
  }

  lemma SlugOfPart(a: string, v: string)
    requires Unescaped(a, v)
    ensures ComponentSlug(a + ['='] + v) == if Slug(v) == "" then "x" else Slug(v)
  {
    BeforeOf(a, '=', v);
    NoBackslashes(v);
  }

  /** The path of a container DN without escapes: the slugs of its values, leaf first, and `x` for an empty one. */
  lemma PathOf(attrs: seq<string>, values: seq<string>)
    requires |attrs| == |values| > 0 && forall i :: 0 <= i < |attrs| ==> Unescaped(attrs[i], values[i])
    ensures var path := RdnSlugs(Join(Rdns(attrs, values), ","));
            |path| == |values|
            && forall i :: 0 <= i < |values| ==> path[i] == if Slug(values[i]) == "" then "x" else Slug(values[i])
  {
    var parts := Rdns(attrs, values);
    forall i | 0 <= i < |parts|
      ensures ComponentSlug(parts[i]) == (if Slug(values[i]) == "" then "x" else Slug(values[i]))
      ensures ',' !in parts[i] && '\\' !in parts[i] && parts[i] != ""
    {
      SlugOfPart(attrs[i], values[i]);
    }
    ComponentsOf(parts);
    assert Join(parts, ",") != "";
  }

  /** Values that are slugs already are taken as they are. */
  lemma PathOfSlugs(attrs: seq<string>, values: seq<string>)
    requires |attrs| == |values| > 0 && forall i :: 0 <= i < |attrs| ==> PlainRdn(attrs[i], values[i])
    ensures RdnSlugs(Join(Rdns(attrs, values), ",")) == values
  {
    forall i | 0 <= i < |attrs| ensures Unescaped(attrs[i], values[i]) && Slug(values[i]) == values[i] {
      FormIsPlain(values[i]);
      FormIsSlug(values[i]);
      assert PlainRdn(attrs[i], values[i]);
    }
    PathOf(attrs, values);
  }

  // ---------------------------------------------------------------- assigning names

  /** What names are made from: the base, the slugged path of the container leaf first, the structural class. */
  datatype Subject = Subject(base: string, path: seq<string>, structural: string)

  function NameAt(s: Subject, depth: nat): string {
    var parts := if depth < |s.path| then s.path[..depth] else s.path;
    if parts == [] then s.base else s.base + "-" + Dashed(parts)
  }

  /** A name grows by one path component at a time, leaf first, until the path is used up. */
  lemma NameGrows(s: Subject, depth: nat)
    ensures NameAt(s, 0) == s.base
    ensures depth < |s.path| ==> NameAt(s, depth + 1) == NameAt(s, depth) + "-" + s.path[depth]
    ensures depth >= |s.path| ==> NameAt(s, depth + 1) == NameAt(s, depth)
  {
    if depth < |s.path| {
      DashedLast(s.path[..depth], s.path[depth]);
      assert s.path[..depth + 1] == s.path[..depth] + [s.path[depth]] && s.path[..|s.path|] == s.path;
      if depth > 0 { JoinTwice(s.base + "-", Dashed(s.path[..depth]), "-" + s.path[depth]); }
    }
  }

  function NamesAt(ss: seq<Subject>, depth: seq<nat>): (r: seq<string>)
    requires |depth| == |ss|
    ensures |r| == |ss| && forall i :: 0 <= i < |ss| ==> r[i] == NameAt(ss[i], depth[i])
  {
    seq(|ss|, i requires 0 <= i < |ss| => NameAt(ss[i], depth[i]))
  }

  predicate Clashes(names: seq<string>, i: nat)
    requires i < |names|
  {
    exists j :: 0 <= j < |names| && j != i && names[j] == names[i]
  }

  predicate Distinct(names: seq<string>) {
    forall i, j :: 0 <= i < j < |names| ==> names[i] != names[j]
  }

  /** Path components not used yet, over all subjects from `i` on. */
  function Unused(ss: seq<Subject>, depth: seq<nat>, i: nat): nat
    requires |depth| == |ss| && i <= |ss|
    decreases |ss| - i
  {
    if i == |ss| then 0
    else UnusedOf(ss[i], depth[i]) + Unused(ss, depth, i + 1)
  }

  /** One round: every clashing name with path left takes one more component, no other name changes. */
  function Round(ss: seq<Subject>, depth: seq<nat>): (r: seq<nat>)
    requires |depth| == |ss|
    ensures |r| == |ss|
  {
    seq(|ss|, i requires 0 <= i < |ss| => Deeper(ss, NamesAt(ss, depth), depth, i))
  }

  function Deeper(ss: seq<Subject>, names: seq<string>, depth: seq<nat>, i: nat): nat
    requires i < |ss| == |names| == |depth|
  {
    if Clashes(names, i) && depth[i] < |ss[i].path| then depth[i] + 1 else depth[i]
  }

  function UnusedOf(s: Subject, depth: nat): nat {
    if depth < |s.path| then |s.path| - depth else 0
  }

  /** Nobody has more of the path unused than before, and whoever moved has less. */
  ghost predicate Advances(ss: seq<Subject>, depth: seq<nat>, next: seq<nat>)
    requires |depth| == |ss| == |next|
  {
    forall k {:trigger next[k]} :: 0 <= k < |ss| ==>
      next[k] == depth[k] || UnusedOf(ss[k], next[k]) < UnusedOf(ss[k], depth[k])
  }

  lemma {:induction false} UnusedShrinks(ss: seq<Subject>, depth: seq<nat>, next: seq<nat>, i: nat)
    requires |depth| == |ss| == |next| && i <= |ss| && Advances(ss, depth, next)
    ensures Unused(ss, next, i) <= Unused(ss, depth, i)
    ensures Unused(ss, next, i) == Unused(ss, depth, i) ==> next[i..] == depth[i..]
    decreases |ss| - i
  {
    if i < |ss| {
      UnusedShrinks(ss, depth, next, i + 1);
      assert next[i] == depth[i] || UnusedOf(ss[i], next[i]) < UnusedOf(ss[i], depth[i]);
      assert next[i..] == [next[i]] + next[i + 1..] && depth[i..] == [depth[i]] + depth[i + 1..];
    }
  }

  lemma RoundShrinks(ss: seq<Subject>, depth: seq<nat>)
    requires |depth| == |ss| && Round(ss, depth) != depth
    ensures Unused(ss, Round(ss, depth), 0) < Unused(ss, depth, 0)
  {
    var next := Round(ss, depth);
    forall k | 0 <= k < |ss| ensures next[k] == depth[k] || UnusedOf(ss[k], next[k]) < UnusedOf(ss[k], depth[k]) {
      assert next[k] == Deeper(ss, NamesAt(ss, depth), depth, k);
    }
    UnusedShrinks(ss, depth, next, 0);
    assert next[0..] == next && depth[0..] == depth;
  }

  /** The depths at which the rounds end: the first that one more round leaves alone. */
  function Rounds(ss: seq<Subject>, depth: seq<nat>): (r: seq<nat>)
    requires |depth| == |ss|
    ensures |r| == |ss|
    decreases Unused(ss, depth, 0)
  {
    if Round(ss, depth) == depth then depth else RoundShrinks(ss, depth); Rounds(ss, Round(ss, depth))
  }

  /** One round: exactly those with path left whose name somebody else has too take one more component. */
  predicate OneRound(ss: seq<Subject>, before: seq<nat>, after: seq<nat>) {
    && |before| == |after| == |ss|
    && forall i {:trigger after[i]} :: 0 <= i < |ss| ==>
         after[i] == if PathLeft(ss, before, i) && Shared(ss, before, i) then before[i] + 1 else before[i]
  }

  predicate PathLeft(ss: seq<Subject>, depth: seq<nat>, i: nat)
    requires |depth| == |ss| && i < |ss|
  {
    depth[i] < |ss[i].path|
  }

  predicate Shared(ss: seq<Subject>, depth: seq<nat>, i: nat)
    requires |depth| == |ss| && i < |ss|
  {
    exists j :: 0 <= j < |ss| && j != i && NameAt(ss[j], depth[j]) == NameAt(ss[i], depth[i])
  }

  /** The final depths are reached from one component each, round by round, and one more round changes nothing. */
  ghost predicate Reaches(ss: seq<Subject>, h: seq<seq<nat>>, last: seq<nat>) {
    && |h| > 0 && |h[0]| == |ss| && (forall i :: 0 <= i < |ss| ==> h[0][i] == 1)
    && (forall k {:trigger h[k]} :: 0 <= k < |h| - 1 ==> OneRound(ss, h[k], h[k + 1]))
    && h[|h| - 1] == last && OneRound(ss, last, last)
  }

  lemma RoundIs(ss: seq<Subject>, depth: seq<nat>)
    requires |depth| == |ss|
    ensures OneRound(ss, depth, Round(ss, depth))
  {
    forall i | 0 <= i < |ss| ensures Shared(ss, depth, i) <==> Clashes(NamesAt(ss, depth), i) {
      if Shared(ss, depth, i) {
        var j :| 0 <= j < |ss| && j != i && NameAt(ss[j], depth[j]) == NameAt(ss[i], depth[i]);
        assert NamesAt(ss, depth)[j] == NamesAt(ss, depth)[i];
      }
    }
  }

  lemma {:induction false} RoundsReach(ss: seq<Subject>, h: seq<seq<nat>>, depth: seq<nat>) returns (all: seq<seq<nat>>)
    requires |depth| == |ss| && |h| > 0 && |h[0]| == |ss| && (forall i :: 0 <= i < |ss| ==> h[0][i] == 1)
    requires (forall k {:trigger h[k]} :: 0 <= k < |h| - 1 ==> OneRound(ss, h[k], h[k + 1])) && h[|h| - 1] == depth
    ensures Reaches(ss, all, Rounds(ss, depth))
    decreases Unused(ss, depth, 0)
  {
    RoundIs(ss, depth);
    if Round(ss, depth) == depth {
      all := h;
    } else {
      RoundShrinks(ss, depth);
      all := RoundsReach(ss, h + [Round(ss, depth)], Round(ss, depth));
    }
  }

  /** How the final depths come about. */
  lemma RoundsHistory(ss: seq<Subject>) returns (h: seq<seq<nat>>)
    ensures Reaches(ss, h, FinalDepths(ss))
  {
    h := RoundsReach(ss, [Ones(|ss|)], Ones(|ss|));
  }

  /** No clash that could still be told apart by a longer path. */
  ghost predicate Settled(ss: seq<Subject>, depth: seq<nat>)
    requires |depth| == |ss|
  {
    forall i :: 0 <= i < |ss| && Clashes(NamesAt(ss, depth), i) ==> depth[i] >= |ss[i].path|
  }

  lemma {:induction false} RoundsSettle(ss: seq<Subject>, depth: seq<nat>)
    requires |depth| == |ss|
    ensures Settled(ss, Rounds(ss, depth))
    decreases Unused(ss, depth, 0)
  {
    if Round(ss, depth) == depth {
      forall i | 0 <= i < |ss| && Clashes(NamesAt(ss, depth), i) ensures depth[i] >= |ss[i].path| {
        assert Round(ss, depth)[i] == Deeper(ss, NamesAt(ss, depth), depth, i);
      }
    } else {
      RoundShrinks(ss, depth);
      RoundsSettle(ss, Round(ss, depth));
    }
  }

  /** The first `i` depths are those after the round, the others those before. */
  predicate Upto(before: seq<nat>, after: seq<nat>, depth: seq<nat>, i: nat) {
    && |depth| == |before| == |after| && i <= |depth|
    && forall j :: 0 <= j < |depth| ==> depth[j] == if j < i then after[j] else before[j]
  }

  lemma UptoStep(before: seq<nat>, after: seq<nat>, depth: seq<nat>, i: nat)
    requires Upto(before, after, depth, i) && i < |depth|
    ensures Upto(before, after, depth[i := after[i]], i + 1)
    ensures depth[i := after[i]] == before <==> depth == before && after[i] == before[i]
  {
    var next := depth[i := after[i]];
    if next == before { assert next[i] == before[i] && depth == next; }
    if depth == before && after[i] == before[i] { assert next == depth; }
  }

  /** One round of the loop. */
  method Deepen(ss: seq<Subject>, depth0: seq<nat>) returns (depth: seq<nat>, changed: bool)
    requires |depth0| == |ss|
    ensures depth == Round(ss, depth0) && (changed <==> depth != depth0)
  {
    var names := NamesAt(ss, depth0);
    ghost var after := Round(ss, depth0);
    depth, changed := depth0, false;
    for i := 0 to |ss|
      invariant Upto(depth0, after, depth, i) && (changed <==> depth != depth0)
    {
      UptoStep(depth0, after, depth, i);
      assert after[i] == Deeper(ss, names, depth0, i) && depth[i] == depth0[i];
      if Clashes(names, i) && depth[i] < |ss[i].path| {
        depth := depth[i := depth[i] + 1];
        changed := true;
      } else {
        assert depth[i := depth[i]] == depth;
      }
    }
    assert depth == after;
  }

  function Ones(n: nat): (r: seq<nat>)
    ensures |r| == n && forall i :: 0 <= i < n ==> r[i] == 1
  {
    seq(n, _ => 1)
  }

  lemma DistinctStays(ss: seq<Subject>, depth: seq<nat>)
    requires |depth| == |ss| && Distinct(NamesAt(ss, depth))
    ensures Round(ss, depth) == depth
  {
  }

  function FullName(s: Subject): string {
    NameAt(s, |s.path|)
  }

  /** The names for given depths: what still clashes gets its structural class appended. */
  ghost predicate NamedBy(ss: seq<Subject>, depth: seq<nat>, names: seq<string>) {
    |names| == |ss| == |depth|
    && forall i {:trigger names[i]} :: 0 <= i < |ss| ==>
         names[i] == NameAt(ss[i], depth[i]) + Fallback(ss, depth, i)
  }

  function Fallback(ss: seq<Subject>, depth: seq<nat>, i: nat): string
    requires |depth| == |ss| && i < |ss|
  {
    if Clashes(NamesAt(ss, depth), i) then "-" + Slug(ss[i].structural) else ""
  }

  predicate FullNamesDiffer(ss: seq<Subject>) {
    forall i, j :: 0 <= i < j < |ss| ==> FullName(ss[i]) != FullName(ss[j])
  }

  /** The depths of the final names. */
  function FinalDepths(ss: seq<Subject>): (r: seq<nat>)
    ensures |r| == |ss|
  {
    Rounds(ss, Ones(|ss|))
  }

  /** `assign_names`: the rounds end, each deepening exactly the names that clash in it, at depths where only exhausted
      names still clash; distinct short names stay short, and distinct full-path names give distinct names. */
  method AssignNames(ss: seq<Subject>) returns (names: seq<string>)
    ensures NamedBy(ss, FinalDepths(ss), names) && Settled(ss, FinalDepths(ss))
    ensures Distinct(NamesAt(ss, Ones(|ss|))) ==> names == NamesAt(ss, Ones(|ss|))
    ensures FullNamesDiffer(ss) ==> Distinct(names)
  {
    var depth := Ones(|ss|);
    var changed := true;
    while changed
      invariant |depth| == |ss| && Rounds(ss, depth) == FinalDepths(ss)
      invariant !changed ==> depth == FinalDepths(ss)
      invariant Distinct(NamesAt(ss, Ones(|ss|))) ==> depth == Ones(|ss|)
      decreases Unused(ss, depth, 0), changed
    {
      if Round(ss, depth) != depth { RoundShrinks(ss, depth); }
      if Distinct(NamesAt(ss, depth)) { DistinctStays(ss, depth); }
      depth, changed := Deepen(ss, depth);
    }
    RoundsSettle(ss, Ones(|ss|));
    names := AppendClasses(ss, depth);
    if FullNamesDiffer(ss) { FullNamesSuffice(ss, depth, names); }
  }

  /** The loop after the rounds. */
  method AppendClasses(ss: seq<Subject>, depth: seq<nat>) returns (names: seq<string>)
    requires |depth| == |ss|
    ensures NamedBy(ss, depth, names) && (Distinct(NamesAt(ss, depth)) ==> names == NamesAt(ss, depth))
  {
    var plain := NamesAt(ss, depth);
    names := plain;
    for i := 0 to |ss|
      invariant |names| == |ss| && forall j :: i <= j < |ss| ==> names[j] == plain[j]
      invariant forall j :: 0 <= j < i ==> names[j] == NameAt(ss[j], depth[j]) + Fallback(ss, depth, j)
      invariant Distinct(plain) ==> names == plain
    {
      if Clashes(plain, i) {
        var tail := MakeSlug(ss[i].structural);
        names := names[i := names[i] + ("-" + tail)];
      } else {
        assert plain[i] + "" == plain[i];
      }
    }
  }

  /** At the end of the rounds only names that have used their whole path are equal. */
  lemma EqualNamesAreExhausted(ss: seq<Subject>, depth: seq<nat>, i: nat, j: nat)
    requires |depth| == |ss| && Settled(ss, depth) && i < |ss| && j < |ss| && i != j
    requires NameAt(ss[i], depth[i]) == NameAt(ss[j], depth[j])
    ensures depth[i] >= |ss[i].path| && depth[j] >= |ss[j].path| && FullName(ss[i]) == FullName(ss[j])
  {
    var names := NamesAt(ss, depth);
    assert Clashes(names, i) by { assert names[j] == names[i]; }
    assert Clashes(names, j) by { assert names[i] == names[j]; }
  }

  /** So when the full-path names differ, all names differ and none needs its class appended. */
  lemma FullNamesSuffice(ss: seq<Subject>, depth: seq<nat>, names: seq<string>)
    requires |depth| == |ss| && Settled(ss, depth) && NamedBy(ss, depth, names) && FullNamesDiffer(ss)
    ensures Distinct(names) && names == NamesAt(ss, depth)
  {
    var plain := NamesAt(ss, depth);
    forall i | 0 <= i < |ss| ensures !Clashes(plain, i) && names[i] == plain[i] {
      forall j | 0 <= j < |ss| && j != i ensures plain[j] != plain[i] {
        if plain[j] == plain[i] { EqualNamesAreExhausted(ss, depth, i, j); }
      }
      assert plain[i] + "" == plain[i];
    }
  }

  /** Among names that still clash the appended classes all differ. */
  predicate ClassesTellApart(ss: seq<Subject>, depth: seq<nat>)
    requires |depth| == |ss|
  {
    forall i, j :: 0 <= i < j < |ss| && NamesAt(ss, depth)[i] == NamesAt(ss, depth)[j] ==>
      Slug(ss[i].structural) != Slug(ss[j].structural)
  }

  /** No name with its class appended runs into a final name that began differently. */
  predicate NoNewClash(ss: seq<Subject>, depth: seq<nat>)
    requires |depth| == |ss|
  {
    var plain := NamesAt(ss, depth);
    forall i, j {:trigger plain[i], plain[j]} ::
      0 <= i < |ss| && 0 <= j < |ss| && Clashes(plain, i) && plain[i] != plain[j] ==>
        plain[i] + ("-" + Slug(ss[i].structural)) != plain[j] + Fallback(ss, depth, j)
  }

  /** Two names that still clash end equal exactly when their class slugs are equal. */
  lemma ClashingPair(ss: seq<Subject>, depth: seq<nat>, names: seq<string>, i: nat, j: nat)
    requires NamedBy(ss, depth, names) && i < |ss| && j < |ss| && i != j
    requires NameAt(ss[i], depth[i]) == NameAt(ss[j], depth[j])
    ensures names[i] == names[j] <==> Slug(ss[i].structural) == Slug(ss[j].structural)
  {
    var plain := NamesAt(ss, depth);
    assert plain[i] == plain[j];
    SameStem(plain[i], Slug(ss[i].structural), Slug(ss[j].structural));
  }

  lemma FinalNames(ss: seq<Subject>, depth: seq<nat>, names: seq<string>, i: nat)
    requires NamedBy(ss, depth, names) && i < |ss|
    ensures names[i] == NamesAt(ss, depth)[i] + Fallback(ss, depth, i)
  {
  }

  lemma DistinctTells(ss: seq<Subject>, depth: seq<nat>, names: seq<string>)
    requires NamedBy(ss, depth, names) && Distinct(names)
    ensures ClassesTellApart(ss, depth)
  {
    var plain := NamesAt(ss, depth);
    forall i, j | 0 <= i < j < |ss| && plain[i] == plain[j] ensures Slug(ss[i].structural) != Slug(ss[j].structural) {
      ClashingPair(ss, depth, names, i, j);
    }
  }

  lemma DistinctAvoids(ss: seq<Subject>, depth: seq<nat>, names: seq<string>)
    requires NamedBy(ss, depth, names) && Distinct(names)
    ensures NoNewClash(ss, depth)
  {
    var plain := NamesAt(ss, depth);
    forall i, j | 0 <= i < |ss| && 0 <= j < |ss| && Clashes(plain, i) && plain[i] != plain[j]
      ensures plain[i] + ("-" + Slug(ss[i].structural)) != plain[j] + Fallback(ss, depth, j)
    {
      FinalNames(ss, depth, names, i);
      FinalNames(ss, depth, names, j);
    }
  }

  lemma ToldApart(ss: seq<Subject>, depth: seq<nat>, names: seq<string>, i: nat, j: nat)
    requires NamedBy(ss, depth, names) && ClassesTellApart(ss, depth) && NoNewClash(ss, depth)
    requires i < j < |ss|
    ensures names[i] != names[j]
  {
    var plain := NamesAt(ss, depth);
    assert names[i] == plain[i] + Fallback(ss, depth, i) && names[j] == plain[j] + Fallback(ss, depth, j);
    if plain[i] == plain[j] {
      ClashingPair(ss, depth, names, i, j);
    } else if !Clashes(plain, i) && !Clashes(plain, j) {
      assert plain[i] + "" == plain[i] && plain[j] + "" == plain[j];
    }
  }

  /** When the fallback makes all names unique, at whatever depths the rounds ended. */
  lemma FallbackDecides(ss: seq<Subject>, depth: seq<nat>, names: seq<string>)
    requires NamedBy(ss, depth, names)
    ensures Distinct(names) <==> ClassesTellApart(ss, depth) && NoNewClash(ss, depth)
  {
    if Distinct(names) {
      DistinctTells(ss, depth, names);
      DistinctAvoids(ss, depth, names);
    } else if ClassesTellApart(ss, depth) && NoNewClash(ss, depth) {
      forall i, j | 0 <= i < j < |ss| ensures names[i] != names[j] {
        ToldApart(ss, depth, names, i, j);
      }
    }
  }

  lemma ThreeDepths(d: seq<nat>, a: nat, b: nat, c: nat)
    requires |d| == 3 && d[0] == a && d[1] == b && d[2] == c
    ensures d == [a, b, c]
  {
  }

  function OneDeeper(s: Subject, depth: nat): nat {
    if depth < |s.path| then depth + 1 else depth
  }

  lemma AllClash(ss: seq<Subject>, d: seq<nat>)
    requires |ss| == |d| == 3 && NamesAt(ss, d)[0] == NamesAt(ss, d)[1] == NamesAt(ss, d)[2]
    ensures Round(ss, d) == [OneDeeper(ss[0], d[0]), OneDeeper(ss[1], d[1]), OneDeeper(ss[2], d[2])]
  {
    var names := NamesAt(ss, d);
    assert Clashes(names, 0) && Clashes(names, 1) && Clashes(names, 2);
    ThreeDepths(Round(ss, d), OneDeeper(ss[0], d[0]), OneDeeper(ss[1], d[1]), OneDeeper(ss[2], d[2]));
  }

  lemma TwoClash(names: seq<string>)
    requires |names| == 3 && names[0] == names[1] != names[2]
    ensures Clashes(names, 0) && Clashes(names, 1) && !Clashes(names, 2)
  {
  }

  lemma TwoClashRound(ss: seq<Subject>, d: seq<nat>)
    requires |ss| == |d| == 3 && NamesAt(ss, d)[0] == NamesAt(ss, d)[1] != NamesAt(ss, d)[2]
    ensures Round(ss, d) == [OneDeeper(ss[0], d[0]), OneDeeper(ss[1], d[1]), d[2]]
  {
    TwoClash(NamesAt(ss, d));
    ThreeDepths(Round(ss, d), OneDeeper(ss[0], d[0]), OneDeeper(ss[1], d[1]), d[2]);
  }

  lemma RoundsVia(ss: seq<Subject>, d: seq<nat>, next: seq<nat>)
    requires |ss| == |d| && Round(ss, d) == next
    ensures |next| == |ss| && Rounds(ss, d) == Rounds(ss, next)
  {
  }

  /** Two profiles of one container and base, and one in a deeper container whose names meet theirs for two rounds. */
  lemma ThreeSettle(ss: seq<Subject>)
    requires |ss| == 3 && |ss[0].path| == |ss[1].path| == 2 && |ss[2].path| > 2
    requires NamesAt(ss, [1, 1, 1])[0] == NamesAt(ss, [1, 1, 1])[1] == NamesAt(ss, [1, 1, 1])[2]
    requires NamesAt(ss, [2, 2, 2])[0] == NamesAt(ss, [2, 2, 2])[1] == NamesAt(ss, [2, 2, 2])[2]
    requires NamesAt(ss, [2, 2, 3])[0] == NamesAt(ss, [2, 2, 3])[1] != NamesAt(ss, [2, 2, 3])[2]
    ensures FinalDepths(ss) == [2, 2, 3]
  {
    ThreeDepths(Ones(3), 1, 1, 1);
    AllClash(ss, [1, 1, 1]);
    AllClash(ss, [2, 2, 2]);
    TwoClashRound(ss, [2, 2, 3]);
    RoundsVia(ss, [1, 1, 1], [2, 2, 2]);
    RoundsVia(ss, [2, 2, 2], [2, 2, 3]);
  }

  function ThreeSubjects(base: string, p: string, q: string, c0: string, c1: string, c2: string, top: string)
    : seq<Subject>
  {
    [Subject(base, [p, q], c0), Subject(base, [p, q], c1), Subject(base, [p, q, Slug(c1), top], c2)]
  }

  /** Three profiles of one base: two in the container of path `p`, `q`, one deeper in a container whose path goes on
      with the class slug of the second. Their classes differ, and still two of the names end up equal. */
  lemma FallbackCollides(base: string, p: string, q: string, c0: string, c1: string, c2: string, top: string)
    requires Slug(c0) != Slug(c1)
    ensures var ss := ThreeSubjects(base, p, q, c0, c1, c2, top);
            && FinalDepths(ss) == [2, 2, 3] && ClassesTellApart(ss, [2, 2, 3])
            && forall names :: NamedBy(ss, [2, 2, 3], names) ==> names[1] == names[2]
  {
    var ss := ThreeSubjects(base, p, q, c0, c1, c2, top);
    CollisionNames(base, p, q, c0, c1, c2, top);
    ThreeSettle(ss);
    ThreeTellApart(ss);
    forall names | NamedBy(ss, [2, 2, 3], names) ensures names[1] == names[2] {
      CollidingPair(ss, names);
    }
  }

  lemma ThreeTellApart(ss: seq<Subject>)
    requires |ss| == 3 && Slug(ss[0].structural) != Slug(ss[1].structural)
    requires NamesAt(ss, [2, 2, 3])[0] == NamesAt(ss, [2, 2, 3])[1] != NamesAt(ss, [2, 2, 3])[2]
    ensures ClassesTellApart(ss, [2, 2, 3])
  {
  }

  lemma CollidingPair(ss: seq<Subject>, names: seq<string>)
    requires |ss| == 3 && NamedBy(ss, [2, 2, 3], names)
    requires NamesAt(ss, [2, 2, 3])[0] == NamesAt(ss, [2, 2, 3])[1]
    requires NamesAt(ss, [2, 2, 3])[2] == NamesAt(ss, [2, 2, 3])[1] + ("-" + Slug(ss[1].structural))
    ensures names[1] == names[2]
  {
    var plain := NamesAt(ss, [2, 2, 3]);
    assert |plain[2]| > |plain[1]|;
    TwoClash(plain);
    FinalNames(ss, [2, 2, 3], names, 1);
    FinalNames(ss, [2, 2, 3], names, 2);
    assert plain[2] + "" == plain[2];
  }

  lemma CollisionNames(base: string, p: string, q: string, c0: string, c1: string, c2: string, top: string)
    ensures var ss := ThreeSubjects(base, p, q, c0, c1, c2, top);
            var stem := base + "-" + Dashed([p, q]);
            && NamesAt(ss, [1, 1, 1])[0] == NamesAt(ss, [1, 1, 1])[1] == NamesAt(ss, [1, 1, 1])[2]
            && NamesAt(ss, [2, 2, 2])[0] == NamesAt(ss, [2, 2, 2])[1] == NamesAt(ss, [2, 2, 2])[2] == stem
            && NamesAt(ss, [2, 2, 3])[0] == NamesAt(ss, [2, 2, 3])[1] == stem
            && NamesAt(ss, [2, 2, 3])[2] == stem + ("-" + Slug(c1)) && stem + ("-" + Slug(c1)) != stem
  {
    var long := [p, q, Slug(c1), top];
    assert [p, q][..1] == [p] == long[..1] && [p, q][..2] == [p, q] == long[..2] && long[..3] == [p, q] + [Slug(c1)];
    DashedLast([p, q], Slug(c1));
    assert base + "-" + (Dashed([p, q]) + "-" + Slug(c1)) == base + "-" + Dashed([p, q]) + ("-" + Slug(c1));
  }

  lemma WordForm(w: string)
    requires Word(w)
    ensures SlugForm(w) && Slug(w) == w
  {
    FormIsSlug(w);
  }

  lemma TwoParts(a: string, b: string)
    ensures Join([a, b], ",") == a + "," + b
  {
    assert [a, b][1..] == [b];
  }

  lemma TwoRdns(a0: string, v0: string, a1: string, v1: string)
    requires PlainRdn(a0, v0) && PlainRdn(a1, v1)
    ensures RdnSlugs(a0 + ['='] + v0 + "," + (a1 + ['='] + v1)) == [v0, v1]
  {
    var attrs, values := [a0, a1], [v0, v1];
    assert Rdns(attrs, values) == [a0 + ['='] + v0, a1 + ['='] + v1];
    PathOfSlugs(attrs, values);
    TwoParts(a0 + ['='] + v0, a1 + ['='] + v1);
  }

  lemma FourRdns(a0: string, v0: string, a1: string, v1: string, a2: string, v2: string, a3: string, v3: string)
    requires PlainRdn(a0, v0) && PlainRdn(a1, v1) && PlainRdn(a2, v2) && PlainRdn(a3, v3)
    ensures RdnSlugs(a0 + ['='] + v0 + "," + (a1 + ['='] + v1 + "," + (a2 + ['='] + v2 + "," + (a3 + ['='] + v3))))
         == [v0, v1, v2, v3]
  {
    var attrs, values := [a0, a1, a2, a3], [v0, v1, v2, v3];
    var r0, r1, r2, r3 := a0 + ['='] + v0, a1 + ['='] + v1, a2 + ['='] + v2, a3 + ['='] + v3;
    assert Rdns(attrs, values) == [r0, r1, r2, r3];
    PathOfSlugs(attrs, values);
    FourParts(r0, r1, r2, r3);
  }

  lemma FourParts(a: string, b: string, c: string, d: string)
    ensures Join([a, b, c, d], ",") == a + "," + (b + "," + (c + "," + d))
  {
    assert [a, b, c, d][1..] == [b, c, d] && [b, c, d][1..] == [c, d];
    TwoParts(c, d);
    assert Join([b, c, d], ",") == b + "," + Join([c, d], ",");
  }

  lemma PlainPair(a: string, v: string)
    requires Word(a) && Word(v)
    ensures PlainRdn(a, v)
  {
    WordForm(v);
  }

  lemma NearText()
    ensures "ou" + ['='] + "people" + "," + ("dc" + ['='] + "ex") == "ou=people,dc=ex"
  {
  }

  lemma FarTail()
    ensures "ou" + ['='] + "account" + "," + ("dc" + ['='] + "ex") == "ou=account,dc=ex"
  {
  }

  lemma FarMiddle()
    ensures "ou" + ['='] + "ex" + "," + "ou=account,dc=ex" == "ou=ex,ou=account,dc=ex"
  {
  }

  lemma FarHead()
    ensures "ou" + ['='] + "people" + "," + "ou=ex,ou=account,dc=ex" == "ou=people,ou=ex,ou=account,dc=ex"
  {
  }

  lemma NearContainer(ou: string, people: string, dc: string, ex: string)
    requires Word(ou) && Word(people) && Word(dc) && Word(ex)
    ensures RdnSlugs(ou + ['='] + people + "," + (dc + ['='] + ex)) == [people, ex]
  {
    PlainPair(ou, people);
    PlainPair(dc, ex);
    TwoRdns(ou, people, dc, ex);
  }

  lemma FarContainer(ou: string, people: string, account: string, dc: string, ex: string)
    requires Word(ou) && Word(people) && Word(account) && Word(dc) && Word(ex)
    ensures RdnSlugs(ou + ['='] + people + "," + (ou + ['='] + ex + "," + (ou + ['='] + account + ","
                     + (dc + ['='] + ex)))) == [people, ex, account, ex]
  {
    PlainPair(ou, people);
    PlainPair(ou, ex);
    PlainPair(ou, account);
    PlainPair(dc, ex);
    FourRdns(ou, people, ou, ex, ou, account, dc, ex);
  }

  /** The containers `ou=people,dc=ex` and `ou=people,ou=ex,ou=account,dc=ex`. */
  lemma PeopleContainers()
    ensures RdnSlugs("ou=people,dc=ex") == ["people", "ex"]
    ensures RdnSlugs("ou=people,ou=ex,ou=account,dc=ex") == ["people", "ex", "account", "ex"]
  {
    NearContainer("ou", "people", "dc", "ex");
    NearText();
    FarContainer("ou", "people", "account", "dc", "ex");
    FarTail();
    FarMiddle();
    FarHead();
  }

  lemma SlugOfClass(s: string, low: string)
    requires Lower(s) == low && Word(low)
    ensures Slug(s) == low
  {
    WordForm(low);
    FormIsLower(low);
  }

  lemma PeopleClasses()
    ensures Slug("account") == "account" && Slug("inetOrgPerson") == "inetorgperson"
  {
    SlugOfClass("account", "account");
    SlugOfClass("inetOrgPerson", "inetorgperson");
  }

  /** An example: `inetOrgPerson` and `account` users in one container, more users in the other. */
  lemma PeopleCollide(c2: string)
    ensures var near, far := RdnSlugs("ou=people,dc=ex"), RdnSlugs("ou=people,ou=ex,ou=account,dc=ex");
            var ss := [Subject("user", near, "inetOrgPerson"), Subject("user", near, "account"),
                       Subject("user", far, c2)];
            && FinalDepths(ss) == [2, 2, 3] && ClassesTellApart(ss, [2, 2, 3])
            && forall names :: NamedBy(ss, [2, 2, 3], names) ==> names[1] == names[2]
  {
    PeopleContainers();
    PeopleClasses();
    FallbackCollides("user", "people", "ex", "inetOrgPerson", "account", c2, "ex");
  }

  lemma SameStem(n: string, a: string, b: string)
    ensures n + ("-" + a) == n + ("-" + b) <==> a == b
  {
    var x, y := n + ("-" + a), n + ("-" + b);
    assert x[|n| + 1..] == a && y[|n| + 1..] == b;
  }

  /** A name built on a base that is not empty has slug form. */
  lemma NameForm(s: Subject, depth: nat)
    requires SlugForm(s.base) && s.base != "" && forall i :: 0 <= i < |s.path| ==>
               SlugForm(s.path[i]) && s.path[i] != ""
    ensures SlugForm(NameAt(s, depth))
  {
    var parts := if depth < |s.path| then s.path[..depth] else s.path;
    if parts != [] {
      PartsForm(parts);
      JoinForm(s.base, Dashed(parts));
    }
  }

  lemma JoinForm(a: string, b: string)
    requires SlugForm(a) && SlugForm(b) && a != "" && b != ""
    ensures SlugForm(a + "-" + b)
  {
  }

  lemma {:induction false} PartsForm(parts: seq<string>)
    requires parts != [] && forall i :: 0 <= i < |parts| ==> SlugForm(parts[i]) && parts[i] != ""
    ensures SlugForm(Dashed(parts)) && Dashed(parts) != ""
  {
    if |parts| > 1 {
      PartsForm(parts[1..]);
      JoinForm(parts[0], Dashed(parts[1..]));
    }
  }
}
