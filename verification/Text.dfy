/** Strings, options and name tables shared by every module. */
module Text {

  datatype Option<+T> = None | Some(value: T)

  datatype Result<+T, +E> = Ok(value: T) | Err(error: E)

  function LowerChar(c: char): char {
    if 'A' <= c <= 'Z' then (c as int + 32) as char else c
  }

  /** ASCII lower-casing; stands for both `eq_ignore_ascii_case` and `to_lowercase`. */
  function Lower(s: string): string {
    seq(|s|, i requires 0 <= i < |s| => LowerChar(s[i]))
  }

  predicate EqCi(a: string, b: string) {
    Lower(a) == Lower(b)
  }

  lemma LowerIdempotent(s: string)
    ensures Lower(Lower(s)) == Lower(s)
  {
    assert forall i :: 0 <= i < |s| ==> LowerChar(LowerChar(s[i])) == LowerChar(s[i]);
  }

  /** The same character, or the two cases of one ASCII letter. */
  predicate SameLetter(c: char, d: char) {
    c == d || ('A' <= c <= 'Z' && d as int == c as int + 32) || ('A' <= d <= 'Z' && c as int == d as int + 32)
  }

  lemma EqCiExact(a: string, b: string)
    ensures EqCi(a, b) <==> |a| == |b| && forall i :: 0 <= i < |a| ==> SameLetter(a[i], b[i])
  {
    assert |Lower(a)| == |a| && |Lower(b)| == |b|;
    if EqCi(a, b) {
      forall i | 0 <= i < |a| ensures SameLetter(a[i], b[i]) { assert Lower(a)[i] == Lower(b)[i]; }
    }
  }

  /** Unicode White_Space, as `str::trim` uses it. */
  predicate IsSpace(c: char) {
    var n := c as int;
    9 <= n <= 13 || n == 32 || n == 0x85 || n == 0xA0 || n == 0x1680 || 0x2000 <= n <= 0x200A
    || n == 0x2028 || n == 0x2029 || n == 0x202F || n == 0x205F || n == 0x3000
  }

  function TrimStart(s: string): string {
    if s != "" && IsSpace(s[0]) then TrimStart(s[1..]) else s
  }

  function TrimEnd(s: string): string {
    if s != "" && IsSpace(s[|s| - 1]) then TrimEnd(s[..|s| - 1]) else s
  }

  function Trim(s: string): string {
    TrimEnd(TrimStart(s))
  }

  /** Trimming takes away white space at either end, and all of it. */
  lemma TrimExact(s: string) returns (i: nat, j: nat)
    ensures i <= j <= |s| && Trim(s) == s[i..j]
    ensures forall k :: 0 <= k < i || j <= k < |s| ==> IsSpace(s[k])
    ensures i < j ==> !IsSpace(s[i]) && !IsSpace(s[j - 1])
  {
    i := TrimStartExact(s);
    var n := TrimEndExact(s[i..]);
    j := i + n;
    assert s[i..][..n] == s[i..j];
    forall k | 0 <= k < i || j <= k < |s| ensures IsSpace(s[k]) {
      if j <= k { assert s[k] == s[i..][k - i]; }
    }
  }

  lemma {:induction false} TrimStartExact(s: string) returns (i: nat)
    ensures i <= |s| && TrimStart(s) == s[i..] && (i < |s| ==> !IsSpace(s[i]))
    ensures forall k :: 0 <= k < i ==> IsSpace(s[k])
  {
    i := 0;
    if s != "" && IsSpace(s[0]) {
      var n := TrimStartExact(s[1..]);
      i := n + 1;
      assert s[i..] == s[1..][n..];
      forall k | 0 <= k < i ensures IsSpace(s[k]) { if k > 0 { assert s[k] == s[1..][k - 1]; } }
    }
  }

  lemma {:induction false} TrimEndExact(s: string) returns (j: nat)
    ensures j <= |s| && TrimEnd(s) == s[..j] && (j > 0 ==> !IsSpace(s[j - 1]))
    ensures forall k :: j <= k < |s| ==> IsSpace(s[k])
  {
    j := |s|;
    if s != "" && IsSpace(s[|s| - 1]) {
      j := TrimEndExact(s[..|s| - 1]);
      assert s[..j] == s[..|s| - 1][..j];
    }
  }

  /** The part before the first `c`, or all of `s`. */
  function Before(s: string, c: char): string {
    if s == "" || s[0] == c then "" else [s[0]] + Before(s[1..], c)
  }

  /** `split_once`: both sides of the first `c`. */
  function SplitOnce(s: string, c: char): Option<(string, string)> {
    var a := Before(s, c);
    if |a| < |s| then BeforeIsPrefix(s, c); Some((a, s[|a| + 1..])) else None
  }

  lemma {:induction false} BeforeIsPrefix(s: string, c: char)
    ensures |Before(s, c)| <= |s| && Before(s, c) == s[..|Before(s, c)|] && c !in Before(s, c)
    ensures |Before(s, c)| < |s| ==> s[|Before(s, c)|] == c
  {
    if s != "" && s[0] != c {
      BeforeIsPrefix(s[1..], c);
    }
  }

  lemma {:induction false} BeforeUnchanged(s: string, c: char)
    requires c !in s
    ensures Before(s, c) == s
  {
    if s != "" {
      BeforeUnchanged(s[1..], c);
    }
  }

  lemma {:induction false} BeforeOf(a: string, c: char, rest: string)
    requires c !in a
    ensures Before(a + [c] + rest, c) == a
    ensures SplitOnce(a + [c] + rest, c) == Some((a, rest))
  {
    var s := a + [c] + rest;
    if a == "" {
      assert s[0] == c;
    } else {
      BeforeOf(a[1..], c, rest);
      assert s[1..] == a[1..] + [c] + rest;
      assert a == [a[0]] + a[1..];
    }
    assert s[|a| + 1..] == rest;
  }

  lemma {:induction false} TrimNoSpaces(s: string)
    requires s == "" || (!IsSpace(s[0]) && !IsSpace(s[|s| - 1]))
    ensures Trim(s) == s
  {
  }

  /** Lexicographic order. */
  predicate StrLe(a: string, b: string) {
    a == "" || (b != "" && if a[0] != b[0] then a[0] < b[0] else StrLe(a[1..], b[1..]))
  }

  lemma {:induction false} StrLeTotal(a: string, b: string)
    ensures StrLe(a, b) || StrLe(b, a)
  {
    if a != "" && b != "" && a[0] == b[0] { StrLeTotal(a[1..], b[1..]); }
  }

  lemma {:induction false} StrLeTrans(a: string, b: string, c: string)
    requires StrLe(a, b) && StrLe(b, c)
    ensures StrLe(a, c)
  {
    if a != "" && a[0] == b[0] && b[0] == c[0] { StrLeTrans(a[1..], b[1..], c[1..]); }
  }

  lemma {:induction false} StrLeAnti(a: string, b: string)
    requires StrLe(a, b) && StrLe(b, a)
    ensures a == b
  {
    if a != "" {
      StrLeAnti(a[1..], b[1..]);
      assert a == [a[0]] + a[1..] && b == [b[0]] + b[1..];
    }
  }

  ghost predicate Least(names: set<string>, n: string) {
    n in names && forall m :: m in names ==> StrLe(n, m)
  }

  lemma {:induction false} LeastExists(names: set<string>) returns (n: string)
    requires names != {}
    ensures Least(names, n)
    decreases |names|
  {
    n :| n in names;
    StrLeTotal(n, n);
    var rest := names - {n};
    if rest != {} {
      var r := LeastExists(rest);
      StrLeTotal(n, r);
      if StrLe(n, r) {
        forall m | m in rest ensures StrLe(n, m) { StrLeTrans(n, r, m); }
      } else {
        n := r;
      }
    }
  }

  lemma JoinTwice<T>(a: seq<T>, b: seq<T>, c: seq<T>)
    ensures a + (b + c) == a + b + c
  {
  }

  function OneIfAny<T>(cur: seq<T>): seq<seq<T>> {
    if |cur| == 0 then [] else [cur]
  }

  function SetOf<T>(s: seq<T>): set<T> {
    set x | x in s
  }
}

/** A `BTreeMap<String, V>` as the sequence of its pairs in iteration order.
    Lookups take the first name that matches without regard to ASCII case. */
module Tables {
  import opened Text

  type Table<V> = seq<(string, V)>

  function Find<V>(t: Table<V>, name: string): Option<V> {
    if t == [] then None
    else if EqCi(t[0].0, name) then Some(t[0].1)
    else Find(t[1..], name)
  }

  predicate UniqueNames<V>(t: Table<V>) {
    forall i, j {:trigger EqCi(t[i].0, t[j].0)} :: 0 <= i < j < |t| ==> !EqCi(t[i].0, t[j].0)
  }

  lemma {:induction false} FindSpec<V>(t: Table<V>, name: string)
    ensures Find(t, name) == None <==> forall i :: 0 <= i < |t| ==> !EqCi(t[i].0, name)
    ensures Find(t, name).Some? ==>
              exists i :: 0 <= i < |t| && EqCi(t[i].0, name) && Find(t, name) == Some(t[i].1)
  {
    if t != [] && !EqCi(t[0].0, name) {
      FindSpec(t[1..], name);
      if Find(t, name).Some? {
        var i :| 0 <= i < |t[1..]| && EqCi(t[1..][i].0, name) && Find(t, name) == Some(t[1..][i].1);
        assert t[i + 1] == t[1..][i];
      } else {
        forall i | 0 <= i < |t| ensures !EqCi(t[i].0, name) {
          if i > 0 { assert t[i] == t[1..][i - 1]; }
        }
      }
    }
  }

  lemma {:induction false} FindCase<V>(t: Table<V>, a: string, b: string)
    requires EqCi(a, b)
    ensures Find(t, a) == Find(t, b)
  {
    if t != [] {
      FindCase(t[1..], a, b);
    }
  }

  lemma UniqueHead<V>(t: Table<V>, m: string)
    requires t != [] && UniqueNames(t)
    ensures UniqueNames(t[1..])
    ensures EqCi(t[0].0, m) ==> Find(t[1..], m) == None
  {
    FindSpec(t[1..], m);
    forall i, j | 0 <= i < j < |t[1..]| ensures !EqCi(t[1..][i].0, t[1..][j].0) {
      assert !EqCi(t[i + 1].0, t[j + 1].0);
    }
    if EqCi(t[0].0, m) {
      forall i | 0 <= i < |t[1..]| ensures !EqCi(t[1..][i].0, m) {
        assert !EqCi(t[0].0, t[i + 1].0);
      }
    }
  }
}
