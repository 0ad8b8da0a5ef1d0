/** The atomic create of `ldap/worker.rs` while other clients write between any two of its requests. */
module SharedCreate {
  import opened Text
  import opened EntryServer
  import opened Worker

  /** A write by anybody else; no values means the entry is removed. */
  datatype OtherWrite = OtherWrite(dn: string, written: Option<Stored>)

  function ByOther(s: Server, w: OtherWrite): Server {
    match w.written
    case Some(attrs) => Stamp(s, w.dn, attrs)
    case None => s.(dir := s.dir - {w.dn})
  }

  function ByOthers(s: Server, ws: seq<OtherWrite>): Server
    decreases ws
  {
    if ws == [] then s else ByOthers(ByOther(s, ws[0]), ws[1..])
  }

  /** `alone` is the server as it would be had only the others written; `others` are their writes to come,
      one batch before each request. */
  datatype World = World(server: Server, alone: Server, others: seq<seq<OtherWrite>>)

  function Meanwhile(w: World): World {
    if w.others == [] then w
    else World(ByOthers(w.server, w.others[0]), ByOthers(w.alone, w.others[0]), w.others[1..])
  }

  function QueueAmong(w: World, entries: seq<NewEntry>): (World, Option<(string, Reply)>)
    decreases entries
  {
    if entries == [] then (w, None)
    else
      var m := Meanwhile(w);
      var (s, reply) := ServerTxnAdd(m.server, entries[0]);
      if Succeeded(reply) then QueueAmong(m.(server := s), entries[1..])
      else (m.(server := s), Some((entries[0].dn, reply)))
  }

  datatype ReplayedAmong = ReplayedAmong(world: World, created: seq<string>, culprit: Option<(string, Reply)>)

  function ReplayAmong(w: World, entries: seq<NewEntry>, created: seq<string>): ReplayedAmong
    decreases entries
  {
    if entries == [] then ReplayedAmong(w, created, None)
    else
      var m := Meanwhile(w);
      var (s, reply) := ServerAdd(m.server, entries[0]);
      if Succeeded(reply) then ReplayAmong(m.(server := s), entries[1..], created + [entries[0].dn])
      else ReplayedAmong(m.(server := s), created, Some((entries[0].dn, reply)))
  }

  function CleanUpAmong(w: World, created: seq<string>, leftovers: seq<string>): (World, seq<string>)
    decreases created
  {
    if created == [] then (w, leftovers)
    else
      var m, dn := Meanwhile(w), created[|created| - 1];
      var (s, reply) := ServerDelete(m.server, dn, None);
      CleanUpAmong(m.(server := s), created[..|created| - 1],
                   if Succeeded(reply) then leftovers else leftovers + [dn])
  }

  function DiagnosedAmong(w: World, entries: seq<NewEntry>): (World, Diagnosis) {
    var replayed := ReplayAmong(w, entries, []);
    var (w1, leftovers) := CleanUpAmong(replayed.world, replayed.created, []);
    (w1, Diagnosis(replayed.culprit, leftovers))
  }

  function CommittedAmong(w: World, entries: seq<NewEntry>): (World, Response) {
    var m := Meanwhile(w);
    var (s, ended) := ServerEndTxn(m.server, true);
    var w1 := m.(server := s);
    if ended.TransportError? then (w1, WriteError(Transport))
    else if ended.rc == 0 then (w1, WriteOk(LastDn(entries), None))
    else if ended.text != "" then (w1, WriteError(CommitRejected(ended.rc, ended.text, Dns(entries), None)))
    else
      var (w2, d) := DiagnosedAmong(w1, entries);
      (w2, WriteError(CommitRejected(ended.rc, ended.text, Dns(entries), Some(d))))
  }

  /** `run_add_atomic` with the others writing before each of its requests. */
  function CreateAmong(w: World, entries: seq<NewEntry>): (World, Response) {
    var m := Meanwhile(w);
    var (s1, started) := ServerStartTxn(m.server);
    var w1 := m.(server := s1);
    if started.TransportError? then (w1, WriteError(Transport))
    else if started.rc != 0 then (w1, WriteError(CodeMessage(started.rc, started.text)))
    else
      var (w2, failed) := QueueAmong(w1, entries);
      match failed
      case Some((dn, reply)) =>
        var m2 := Meanwhile(w2);
        (m2.(server := ServerEndTxn(m2.server, false).0),
         WriteError(if reply.TransportError? then Transport else EntryRejected(dn, reply.rc, reply.text)))
      case None => CommittedAmong(w2, entries)
  }

  // ----- with nobody else it is the create -----

  lemma {:induction false} QueueAlone(w: World, entries: seq<NewEntry>)
    requires w.others == []
    ensures var (w1, failed) := QueueAmong(w, entries);
            (w1.server, failed) == QueueAll(w.server, entries) && w1.others == []
    decreases entries
  {
    if entries != [] { QueueAlone(w.(server := ServerTxnAdd(w.server, entries[0]).0), entries[1..]); }
  }

  lemma {:induction false} ReplayAlone(w: World, entries: seq<NewEntry>, created: seq<string>)
    requires w.others == []
    ensures var r := ReplayAmong(w, entries, created);
            Replayed(r.world.server, r.created, r.culprit) == Replay(w.server, entries, created) && r.world.others == []
    decreases entries
  {
    if entries != [] {
      ReplayAlone(w.(server := ServerAdd(w.server, entries[0]).0), entries[1..], created + [entries[0].dn]);
    }
  }

  lemma {:induction false} CleanUpAlone(w: World, created: seq<string>, leftovers: seq<string>)
    requires w.others == []
    ensures var (w1, left) := CleanUpAmong(w, created, leftovers);
            (w1.server, left) == CleanUp(w.server, created, leftovers)
    decreases created
  {
    if created != [] {
      var dn := created[|created| - 1];
      var (s, reply) := ServerDelete(w.server, dn, None);
      CleanUpAlone(w.(server := s), created[..|created| - 1], if Succeeded(reply) then leftovers else leftovers + [dn]);
    }
  }

  lemma CommittedAlone(w: World, entries: seq<NewEntry>)
    requires w.others == []
    ensures var (w1, r) := CommittedAmong(w, entries);
            (w1.server, r) == Committed(w.server, entries)
  {
    var s := ServerEndTxn(w.server, true).0;
    ReplayAlone(w.(server := s), entries, []);
    var replayed := ReplayAmong(w.(server := s), entries, []);
    CleanUpAlone(replayed.world, replayed.created, []);
  }

  /** Without others this is the create itself. */
  lemma NobodyElse(w: World, entries: seq<NewEntry>)
    requires w.others == []
    ensures var (w1, r) := CreateAmong(w, entries);
            (w1.server, r) == AddAtomic(w.server, entries)
  {
    var w1 := w.(server := ServerStartTxn(w.server).0);
    QueueAlone(w1, entries);
    CommittedAlone(QueueAmong(w1, entries).0, entries);
  }

  // ----- what the others keep -----

  /** The client has written nothing yet. */
  predicate InStep(w: World) {
    w.server.dir == w.alone.dir && w.server.clock == w.alone.clock
  }

  /** But for the names `dns`, the directory holds what the others made of it. */
  predicate SameBut(w: World, dns: seq<string>) {
    && (forall dn :: dn in w.server.dir && dn !in dns ==>
          dn in w.alone.dir && w.server.dir[dn].attrs == w.alone.dir[dn].attrs)
    && forall dn :: dn in w.alone.dir && dn !in dns ==> dn in w.server.dir
  }

  /** Nothing of the others' is missing but under the names `dns`, and all that is there is theirs, to the version. */
  predicate Without(w: World, dns: seq<string>) {
    && w.server.clock == w.alone.clock
    && (forall dn :: dn in w.server.dir ==> dn in w.alone.dir && w.server.dir[dn] == w.alone.dir[dn])
    && forall dn :: dn in w.alone.dir ==> dn in w.server.dir || dn in dns
  }

  lemma {:induction false} ByOthersKeep(s: Server, t: Server, others: seq<seq<OtherWrite>>, ws: seq<OtherWrite>,
                                        dns: seq<string>)
    ensures var w, w1 := World(s, t, others), World(ByOthers(s, ws), ByOthers(t, ws), others);
            && (InStep(w) ==> InStep(w1)) && (SameBut(w, dns) ==> SameBut(w1, dns))
            && (Without(w, dns) ==> Without(w1, dns))
            && w1.server.txn == s.txn && w1.server.answers == s.answers
    decreases ws
  {
    if ws != [] {
      OneKeeps(s, t, others, ws[0], dns);
      ByOthersKeep(ByOther(s, ws[0]), ByOther(t, ws[0]), others, ws[1..], dns);
    }
  }

  lemma OneKeeps(s: Server, t: Server, others: seq<seq<OtherWrite>>, o: OtherWrite, dns: seq<string>)
    ensures var w, w1 := World(s, t, others), World(ByOther(s, o), ByOther(t, o), others);
            && (InStep(w) ==> InStep(w1)) && (SameBut(w, dns) ==> SameBut(w1, dns))
            && (Without(w, dns) ==> Without(w1, dns))
            && w1.server.txn == s.txn && w1.server.answers == s.answers
  {
  }

  lemma MeanwhileKeeps(w: World, dns: seq<string>)
    ensures var m := Meanwhile(w);
            && (InStep(w) ==> InStep(m)) && (SameBut(w, dns) ==> SameBut(m, dns))
            && (Without(w, dns) ==> Without(m, dns))
            && m.server.txn == w.server.txn && m.server.answers == w.server.answers
  {
    if w.others != [] {
      var rest := w.others[1..];
      ByOthersKeep(w.server, w.alone, rest, w.others[0], dns);
      assert InStep(w) <==> InStep(World(w.server, w.alone, rest));
      assert SameBut(w, dns) <==> SameBut(World(w.server, w.alone, rest), dns);
      assert Without(w, dns) <==> Without(World(w.server, w.alone, rest), dns);
    }
  }

  lemma {:induction false} QueueInStep(w: World, entries: seq<NewEntry>)
    requires InStep(w) && w.server.txn.Some?
    ensures var (w1, failed) := QueueAmong(w, entries);
            InStep(w1) && (failed == None ==> w1.server.txn == Some(w.server.txn.value + entries))
    decreases entries
  {
    if entries != [] {
      var m := Meanwhile(w);
      MeanwhileKeeps(w, []);
      QueueOne(m.server, entries[0]);
      var (s, reply) := ServerTxnAdd(m.server, entries[0]);
      if Succeeded(reply) {
        QueueInStep(m.(server := s), entries[1..]);
        QueuedThen(m.server.txn.value, entries);
      }
    } else {
      assert w.server.txn.value + entries == w.server.txn.value;
    }
  }

  lemma {:induction false} ReplaySameBut(w: World, entries: seq<NewEntry>, created: seq<string>, dns: seq<string>)
    requires SameBut(w, dns) && (forall e :: e in entries ==> e.dn in dns) && forall dn :: dn in created ==> dn in dns
    ensures var r := ReplayAmong(w, entries, created);
            SameBut(r.world, dns) && forall dn :: dn in r.created ==> dn in dns
    decreases entries
  {
    if entries != [] {
      var m := Meanwhile(w);
      MeanwhileKeeps(w, dns);
      var s := ServerAdd(m.server, entries[0]).0;
      assert entries[0] in entries && forall e :: e in entries[1..] ==> e in entries;
      assert SameBut(m.(server := s), dns);
      ReplaySameBut(m.(server := s), entries[1..], created + [entries[0].dn], dns);
    }
  }

  lemma {:induction false} CleanUpKeeps(w: World, created: seq<string>, leftovers: seq<string>, dns: seq<string>)
    requires forall dn :: dn in created ==> dn in dns
    ensures var w1 := CleanUpAmong(w, created, leftovers).0;
            (SameBut(w, dns) ==> SameBut(w1, dns)) && (Without(w, dns) ==> Without(w1, dns))
    decreases created
  {
    if created != [] {
      var m, dn := Meanwhile(w), created[|created| - 1];
      MeanwhileKeeps(w, dns);
      var (s, reply) := ServerDelete(m.server, dn, None);
      DeleteKeeps(m, s, dn, dns);
      CleanUpKeeps(m.(server := s), created[..|created| - 1],
                   if Succeeded(reply) then leftovers else leftovers + [dn], dns);
    }
  }

  lemma DeleteKeeps(m: World, s: Server, dn: string, dns: seq<string>)
    requires dn in dns && s.clock == m.server.clock && (s.dir == m.server.dir || s.dir == m.server.dir - {dn})
    ensures (SameBut(m, dns) ==> SameBut(m.(server := s), dns)) && (Without(m, dns) ==> Without(m.(server := s), dns))
  {
  }

  /** Whoever writes in between, the clean-up takes nothing away but entries under the created names:
      everything else is as if the other clients had been alone. */
  lemma CleanUpAmongOthers(w: World, created: seq<string>)
    requires InStep(w)
    ensures Without(CleanUpAmong(w, created, []).0, created)
  {
    CleanUpKeeps(w, created, [], created);
  }

  /** Under a created name its deletes carry no assertion: they take away whatever version stands there by
      then, somebody else's included, and report nothing. */
  lemma CleanUpTakesAnyVersion(s: Server, dn: string, theirs: Stored)
    requires NextAnswer(s).Evaluate?
    ensures var (w1, left) := CleanUpAmong(World(s, s, [[OtherWrite(dn, Some(theirs))]]), [dn], []);
            && dn !in w1.server.dir && left == []
            && dn in w1.alone.dir && w1.alone.dir[dn].attrs == theirs
  {
    var o := OtherWrite(dn, Some(theirs));
    var w := World(s, s, [[o]]);
    var before := ByOther(s, o);
    assert ByOthers(s, [o]) == ByOthers(before, []) == before;
    var m := Meanwhile(w);
    assert m.server == before && m.alone == before && [dn][..0] == [];
    var s1 := ServerDelete(before, dn, None).0;
    assert CleanUpAmong(w, [dn], []) == CleanUpAmong(m.(server := s1), [], []);
  }

  /** No replay was made. */
  predicate Undiagnosed(why: Failure) {
    !(why.CommitRejected? && why.diagnosis.Some?)
  }

  /** Success means that the directory is what the others made of it plus exactly the entries, over nobody's. In every
      outcome all that the others made is there under every name the request does not mention; and without a replay
      either that is all there is, or the entries are there too under a transport error. */
  ghost predicate CreateSound(w: World, r: Response, entries: seq<NewEntry>) {
    && !r.WriteConflict? && SameBut(w, Dns(entries))
    && (r.WriteOk? ==> AllCreated(w.alone.dir, w.server.dir, entries) && r.dn == LastDn(entries))
    && (r.WriteError? && Undiagnosed(r.why) ==>
          w.server.dir == w.alone.dir || (r.why == Transport && AllCreated(w.alone.dir, w.server.dir, entries)))
  }

  lemma NothingWritten(w: World, r: Response, entries: seq<NewEntry>)
    requires w.server.dir == w.alone.dir && r.WriteError?
    ensures CreateSound(w, r, entries)
  {
  }

  lemma CommitInStep(w: World, entries: seq<NewEntry>)
    requires InStep(w) && w.server.txn == Some(entries)
    ensures CreateSound(CommittedAmong(w, entries).0, CommittedAmong(w, entries).1, entries)
  {
    var m := Meanwhile(w);
    MeanwhileKeeps(w, []);
    CommitOutcome(m.server, entries);
    var (s, ended) := ServerEndTxn(m.server, true);
    var w1 := m.(server := s);
    EndedSameBut(m, s, entries);
    if ended.Reply? && ended.rc != 0 && ended.text == "" {
      NamesIn(entries);
      var replayed := ReplayAmong(w1, entries, []);
      ReplaySameBut(w1, entries, [], Dns(entries));
      CleanUpKeeps(replayed.world, replayed.created, [], Dns(entries));
    }
  }

  lemma EndedSameBut(m: World, s: Server, entries: seq<NewEntry>)
    requires InStep(m) && (s.dir == m.server.dir || AllCreated(m.server.dir, s.dir, entries))
    ensures SameBut(m.(server := s), Dns(entries))
  {
  }

  lemma NamesIn(entries: seq<NewEntry>)
    ensures forall e :: e in entries ==> e.dn in Dns(entries)
  {
    forall e | e in entries ensures e.dn in Dns(entries) {
      var i :| 0 <= i < |entries| && entries[i] == e;
      assert Dns(entries)[i] == e.dn;
    }
  }

  /** The create is sound whoever else writes, at any time, and however the server answers. */
  lemma CreateAmongOthers(w: World, entries: seq<NewEntry>)
    requires InStep(w)
    ensures CreateSound(CreateAmong(w, entries).0, CreateAmong(w, entries).1, entries)
  {
    var m := Meanwhile(w);
    MeanwhileKeeps(w, []);
    var (s1, started) := ServerStartTxn(m.server);
    var w1 := m.(server := s1);
    if Succeeded(started) {
      QueueInStep(w1, entries);
      var (w2, failed) := QueueAmong(w1, entries);
      if failed == None {
        assert [] + entries == entries;
        CommitInStep(w2, entries);
      } else {
        MeanwhileKeeps(w2, []);
        AbortedSound(Meanwhile(w2), CreateAmong(w, entries).1, entries);
      }
    } else {
      NothingWritten(w1, CreateAmong(w, entries).1, entries);
    }
  }

  lemma AbortedSound(m: World, r: Response, entries: seq<NewEntry>)
    requires InStep(m) && r.WriteError?
    ensures CreateSound(m.(server := ServerEndTxn(m.server, false).0), r, entries)
  {
    NothingWritten(m.(server := ServerEndTxn(m.server, false).0), r, entries);
  }
}
