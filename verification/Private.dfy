/** `detect/private.rs`: user-private groups and the two-way index over them. */
module Private {
  import opened Text
  import opened Samples

  function Num(e: SampleEntry, attr: string): Option<nat> {
    match e.First(attr)
    case None => None
    case Some(s) => ParseUnsigned(s, U64_MAX)
  }

  predicate IsPrivateGroup(group: SampleEntry, user: SampleEntry) {
    && group.HasClass("posixGroup") && user.HasClass("posixAccount")
    && group.First("cn").Some? && user.First("uid").Some?
    && EqCi(group.First("cn").value, user.First("uid").value)
    && Num(group, "gidNumber").Some?
    && Num(group, "gidNumber") == Num(user, "gidNumber") == Num(user, "uidNumber")
  }

  type Buckets = map<string, seq<SampleEntry>>

  datatype PrivateIndex = PrivateIndex(usersByUid: Buckets, groupsByCn: Buckets)

  function Bucket(m: Buckets, key: string): seq<SampleEntry> {
    if key in m then m[key] else []
  }

  function Push(m: Buckets, key: string, e: SampleEntry): Buckets {
    m[key := Bucket(m, key) + [e]]
  }

  predicate HasKey(e: SampleEntry, oc: string, attr: string, key: string) {
    e.HasClass(oc) && e.First(attr).Some? && Lower(e.First(attr).value) == key
  }

  /** The entries of a class whose `attr` lower-cases to `key`, in list order. */
  function Keyed(entries: seq<SampleEntry>, oc: string, attr: string, key: string): seq<SampleEntry> {
    if entries == [] then []
    else
      var n := |entries| - 1;
      Keyed(entries[..n], oc, attr, key) + (if HasKey(entries[n], oc, attr, key) then [entries[n]] else [])
  }

  ghost predicate Indexes(m: Buckets, entries: seq<SampleEntry>, oc: string, attr: string) {
    forall key: string :: Bucket(m, key) == Keyed(entries, oc, attr, key)
  }

  lemma IndexesStep(m: Buckets, entries: seq<SampleEntry>, e: SampleEntry, oc: string, attr: string)
    requires Indexes(m, entries, oc, attr)
    ensures Indexes(if e.HasClass(oc) && e.First(attr).Some? then Push(m, Lower(e.First(attr).value), e) else m,
                    entries + [e], oc, attr)
  {
    var m1 := if e.HasClass(oc) && e.First(attr).Some? then Push(m, Lower(e.First(attr).value), e) else m;
    assert (entries + [e])[..|entries|] == entries;
    forall key: string ensures Bucket(m1, key) == Keyed(entries + [e], oc, attr, key) {
      assert Bucket(m, key) == Keyed(entries, oc, attr, key);
    }
  }

  method NewIndex(entries: seq<SampleEntry>) returns (idx: PrivateIndex)
    ensures Indexes(idx.usersByUid, entries, "posixAccount", "uid")
    ensures Indexes(idx.groupsByCn, entries, "posixGroup", "cn")
  {
    var users: Buckets, groups: Buckets := map[], map[];
    for i := 0 to |entries|
      invariant Indexes(users, entries[..i], "posixAccount", "uid")
      invariant Indexes(groups, entries[..i], "posixGroup", "cn")
    {
      var e := entries[i];
      IndexesStep(users, entries[..i], e, "posixAccount", "uid");
      IndexesStep(groups, entries[..i], e, "posixGroup", "cn");
      assert entries[..i + 1] == entries[..i] + [e];
      if e.HasClass("posixAccount") {
        if e.First("uid").Some? {
          users := Push(users, Lower(e.First("uid").value), e);
        }
      }
      if e.HasClass("posixGroup") {
        if e.First("cn").Some? {
          groups := Push(groups, Lower(e.First("cn").value), e);
        }
      }
    }
    assert entries[..|entries|] == entries;
    idx := PrivateIndex(users, groups);
  }

  /** The first of `groups` that is the private group of `user`. */
  function FirstPrivate(groups: seq<SampleEntry>, user: SampleEntry): Option<SampleEntry> {
    if groups == [] then None
    else if IsPrivateGroup(groups[0], user) then Some(groups[0])
    else FirstPrivate(groups[1..], user)
  }

  function PrivateGroupOf(idx: PrivateIndex, user: SampleEntry): Option<SampleEntry> {
    match user.First("uid")
    case None => None
    case Some(uid) => FirstPrivate(Bucket(idx.groupsByCn, Lower(uid)), user)
  }

  predicate IsPrivate(idx: PrivateIndex, group: SampleEntry) {
    match group.First("cn")
    case None => false
    case Some(cn) => exists u :: u in Bucket(idx.usersByUid, Lower(cn)) && IsPrivateGroup(group, u)
  }

  // ----- the index answers like a search through the whole list -----

  lemma {:induction false} KeyedMembers(entries: seq<SampleEntry>, oc: string, attr: string, key: string)
    ensures forall e :: e in Keyed(entries, oc, attr, key) <==> e in entries && HasKey(e, oc, attr, key)
  {
    if entries != [] {
      var n := |entries| - 1;
      KeyedMembers(entries[..n], oc, attr, key);
      assert entries == entries[..n] + [entries[n]];
    }
  }

  lemma IsPrivateAgrees(idx: PrivateIndex, entries: seq<SampleEntry>, group: SampleEntry)
    requires Indexes(idx.usersByUid, entries, "posixAccount", "uid")
    ensures IsPrivate(idx, group) <==> exists u :: u in entries && IsPrivateGroup(group, u)
  {
    if group.First("cn").Some? {
      var key := Lower(group.First("cn").value);
      KeyedMembers(entries, "posixAccount", "uid", key);
      assert Bucket(idx.usersByUid, key) == Keyed(entries, "posixAccount", "uid", key);
    }
  }

  lemma {:induction false} FirstPrivateAppend(a: seq<SampleEntry>, b: seq<SampleEntry>, user: SampleEntry)
    ensures FirstPrivate(a + b, user)
         == if FirstPrivate(a, user).Some? then FirstPrivate(a, user) else FirstPrivate(b, user)
  {
    if a == [] {
      assert a + b == b;
    } else {
      assert (a + b)[1..] == a[1..] + b;
      FirstPrivateAppend(a[1..], b, user);
    }
  }

  lemma {:induction false} FirstPrivateKeyed(entries: seq<SampleEntry>, user: SampleEntry)
    requires user.First("uid").Some?
    ensures FirstPrivate(Keyed(entries, "posixGroup", "cn", Lower(user.First("uid").value)), user)
         == FirstPrivate(entries, user)
  {
    if entries != [] {
      var n := |entries| - 1;
      var key := Lower(user.First("uid").value);
      FirstPrivateKeyed(entries[..n], user);
      assert entries == entries[..n] + [entries[n]];
      FirstPrivateAppend(entries[..n], [entries[n]], user);
      FirstPrivateAppend(Keyed(entries[..n], "posixGroup", "cn", key),
                         if HasKey(entries[n], "posixGroup", "cn", key) then [entries[n]] else [], user);
    }
  }

  lemma {:induction false} FirstPrivateSpec(groups: seq<SampleEntry>, user: SampleEntry)
    ensures match FirstPrivate(groups, user)
            case None => forall g :: g in groups ==> !IsPrivateGroup(g, user)
            case Some(g) => g in groups && IsPrivateGroup(g, user)
  {
    if groups != [] {
      FirstPrivateSpec(groups[1..], user);
      assert groups == [groups[0]] + groups[1..];
    }
  }

  /** The group found for a user is the first one in list order that satisfies the predicate. */
  lemma PrivateGroupOfAgrees(idx: PrivateIndex, entries: seq<SampleEntry>, user: SampleEntry)
    requires Indexes(idx.groupsByCn, entries, "posixGroup", "cn")
    ensures PrivateGroupOf(idx, user) == FirstPrivate(entries, user)
  {
    match user.First("uid") {
      case None => FirstPrivateSpec(entries, user);
      case Some(uid) => FirstPrivateKeyed(entries, user);
    }
  }
}
