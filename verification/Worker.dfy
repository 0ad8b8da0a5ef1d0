/** `ldap/worker.rs`: the write requests, over a modelled server that other clients write to as well.
    The server follows RFC 4511, the assertion control of RFC 4528, the Post-Read control of
    RFC 4527 and the transactions of RFC 5805; `answers` chooses how each request fares. */
module Worker {
  import opened Text
  import opened Tables
  import opened DnText
  import opened ChangeSets
  import opened EntryServer
  import opened SavePath

  // ----- the server -----

  /** An `entryCSN`: every accepted write stamps a fresh one. */
  type Csn = nat

  datatype Version = Version(attrs: Stored, csn: Csn)

  datatype NewEntry = NewEntry(dn: string, attrs: Table<Values>)

  datatype Answer =
    | Evaluate(otherControls: nat, sendPostRead: bool)  // the server does the work and says so
    | Deny(rc: Rc, text: string)                        // refused for a reason of the server's own
    | Drop                                              // transport error before the server acted
    | LostReply                                         // the server acts, its answer is lost

  datatype Control = PostReadResp(val: Option<map<string, seq<Csn>>>) | OtherControl

  datatype Reply = Reply(rc: nat, text: string, ctrls: seq<Control>) | TransportError

  /** `clock` is the last CSN handed out; `txn` the queued adds of the open transaction. */
  datatype Server = Server(dir: map<string, Version>, clock: Csn, answers: seq<Answer>, txn: Option<seq<NewEntry>>)

  const OPERATIONS_ERROR := 1
  const NO_SUCH_OBJECT := 32
  const ENTRY_EXISTS := 68
  const ASSERTION_FAILED := 122

  function NextAnswer(s: Server): Answer {
    if s.answers == [] then Evaluate(0, true) else s.answers[0]
  }

  function Consume(s: Server): Server {
    s.(answers := if s.answers == [] then [] else s.answers[1..])
  }

  /** One request: the oracle's answer decides whether `acted` happens and whether its reply arrives. */
  function Deliver(s: Server, denied: Server, acted: (Server, Reply)): (Server, Reply) {
    match NextAnswer(s)
    case Evaluate(_, _) => acted
    case Deny(rc, text) => (denied, Reply(rc, text, []))
    case Drop => (Consume(s), TransportError)
    case LostReply => (acted.0, TransportError)
  }

  function Stamp(s: Server, dn: string, attrs: Stored): Server {
    s.(dir := s.dir[dn := Version(attrs, s.clock + 1)], clock := s.clock + 1)
  }

  /** The naming value as the server reads it, escapes honoured. */
  function NamingOf(dn: string): Naming {
    match ReadRdn(FirstComponent(dn)) case None => Naming("", "") case Some(n) => n
  }

  function Controls(a: Answer, csn: Csn): seq<Control> {
    if a.Evaluate? then
      seq(a.otherControls, _ => OtherControl)
      + (if a.sendPostRead then [PostReadResp(Some(map["entryCSN" := [csn]]))] else [])
    else []
  }

  function AssertionHolds(s: Server, dn: string, assertion: Option<Csn>): bool
    requires dn in s.dir
  {
    assertion.None? || s.dir[dn].csn == assertion.value
  }

  function ActModify(s: Server, dn: string, mods: seq<Mod>, assertion: Option<Csn>, a: Answer): (Server, Reply) {
    if dn !in s.dir then (s, Reply(NO_SUCH_OBJECT, "", []))
    else if !AssertionHolds(s, dn, assertion) then (s, Reply(ASSERTION_FAILED, "", []))
    else
      match Modify(s.dir[dn].attrs, NamingOf(dn), mods)
      case Refused(rc) => (s, Reply(rc, "", []))
      case Done(attrs) => (Stamp(s, dn, attrs), Reply(0, "", Controls(a, s.clock + 1)))
  }

  function ServerModify(s: Server, dn: string, mods: seq<Mod>, assertion: Option<Csn>): (Server, Reply) {
    Deliver(s, Consume(s), ActModify(Consume(s), dn, mods, assertion, NextAnswer(s)))
  }

  function ActDelete(s: Server, dn: string, assertion: Option<Csn>): (Server, Reply) {
    if dn !in s.dir then (s, Reply(NO_SUCH_OBJECT, "", []))
    else if !AssertionHolds(s, dn, assertion) then (s, Reply(ASSERTION_FAILED, "", []))
    else (s.(dir := s.dir - {dn}), Reply(0, "", []))
  }

  function ServerDelete(s: Server, dn: string, assertion: Option<Csn>): (Server, Reply) {
    Deliver(s, Consume(s), ActDelete(Consume(s), dn, assertion))
  }

  // ----- asserted writes -----

  datatype Failure =
    | CodeMessage(rc: nat, text: string)
    | Transport
    | EntryRejected(dn: string, rc: nat, text: string)
    | CommitRejected(rc: nat, text: string, entries: seq<string>, diagnosis: Option<Diagnosis>)

  datatype Response =
    | WriteOk(dn: string, newCsn: Option<Csn>)
    | WriteConflict(dn: string)
    | WriteError(why: Failure)

  function WriteResponse(dn: string, newCsn: Option<Csn>, reply: Reply): Response {
    match reply
    case TransportError => WriteError(Transport)
    case Reply(rc, text, _) =>
      if rc == 0 then WriteOk(dn, newCsn)
      else if rc == ASSERTION_FAILED then WriteConflict(dn)
      else WriteError(CodeMessage(rc, text))
  }

  /** The first CSN a Post-Read response control carries. */
  function PostReadCsn(ctrls: seq<Control>): Option<Csn> {
    if ctrls == [] then None
    else
      match ctrls[0]
      case PostReadResp(Some(m)) =>
        if "entryCSN" in m && m["entryCSN"] != [] then Some(m["entryCSN"][0]) else PostReadCsn(ctrls[1..])
      case _ => PostReadCsn(ctrls[1..])
  }

  method FindPostReadCsn(ctrls: seq<Control>) returns (r: Option<Csn>)
    ensures r == PostReadCsn(ctrls)
  {
    for i := 0 to |ctrls|
      invariant PostReadCsn(ctrls[i..]) == PostReadCsn(ctrls)
    {
      match ctrls[i] {
        case PostReadResp(Some(m)) =>
          if "entryCSN" in m && m["entryCSN"] != [] {
            return Some(m["entryCSN"][0]);
          }
        case _ =>
      }
    }
    return None;
  }

  lemma {:induction false} PostReadCsnOfControls(others: nat, rest: seq<Control>)
    ensures PostReadCsn(seq(others, _ => OtherControl) + rest) == PostReadCsn(rest)
  {
    var ctrls := seq(others, _ => OtherControl) + rest;
    if others == 0 {
      assert ctrls == rest;
    } else {
      assert ctrls[1..] == seq(others - 1, _ => OtherControl) + rest;
      PostReadCsnOfControls(others - 1, rest);
    }
  }

  /** `run_modify`. */
  function Modified(s: Server, dn: string, changes: seq<ModOp>, assertCsn: Option<Csn>): (Server, Response) {
    var (s1, reply) := ServerModify(s, dn, Wire(changes), assertCsn);
    (s1, WriteResponse(dn, if assertCsn.Some? && reply.Reply? then PostReadCsn(reply.ctrls) else None, reply))
  }

  /** `run_delete`. */
  function Deleted(s: Server, dn: string, assertCsn: Option<Csn>): (Server, Response) {
    var (s1, reply) := ServerDelete(s, dn, assertCsn);
    (s1, WriteResponse(dn, None, reply))
  }

  /** The bound connection: each call sends one request. */
  class Connection {
    var server: Server

    constructor (s: Server)
      ensures server == s
    {
      server := s;
    }

    method Modify(dn: string, mods: seq<Mod>, assertion: Option<Csn>) returns (reply: Reply)
      modifies this
      ensures (server, reply) == ServerModify(old(server), dn, mods, assertion)
    {
      var r := ServerModify(server, dn, mods, assertion);
      server, reply := r.0, r.1;
    }

    method Delete(dn: string, assertion: Option<Csn>) returns (reply: Reply)
      modifies this
      ensures (server, reply) == ServerDelete(old(server), dn, assertion)
    {
      var r := ServerDelete(server, dn, assertion);
      server, reply := r.0, r.1;
    }

    method Add(e: NewEntry) returns (reply: Reply)
      modifies this
      ensures (server, reply) == ServerAdd(old(server), e)
    {
      var r := ServerAdd(server, e);
      server, reply := r.0, r.1;
    }

    method StartTxn() returns (reply: Reply)
      modifies this
      ensures (server, reply) == ServerStartTxn(old(server))
    {
      var r := ServerStartTxn(server);
      server, reply := r.0, r.1;
    }

    method AddInTxn(e: NewEntry) returns (reply: Reply)
      modifies this
      ensures (server, reply) == ServerTxnAdd(old(server), e)
    {
      var r := ServerTxnAdd(server, e);
      server, reply := r.0, r.1;
    }

    method EndTxn(commit: bool) returns (reply: Reply)
      modifies this
      ensures (server, reply) == ServerEndTxn(old(server), commit)
    {
      var r := ServerEndTxn(server, commit);
      server, reply := r.0, r.1;
    }
  }

  method RunModify(conn: Connection, dn: string, changes: seq<ModOp>, assertCsn: Option<Csn>) returns (r: Response)
    modifies conn
    ensures (conn.server, r) == Modified(old(conn.server), dn, changes, assertCsn)
  {
    var reply := conn.Modify(dn, Wire(changes), assertCsn);
    match (assertCsn, reply) {
      case (Some(_), Reply(rc, text, ctrls)) =>
        if rc == 0 {
          var csn := FindPostReadCsn(ctrls);
          return WriteOk(dn, csn);
        }
        return if rc == ASSERTION_FAILED then WriteConflict(dn) else WriteError(CodeMessage(rc, text));
      case _ =>
        return WriteResponse(dn, None, reply);
    }
  }

  method RunDelete(conn: Connection, dn: string, assertCsn: Option<Csn>) returns (r: Response)
    modifies conn
    ensures (conn.server, r) == Deleted(old(conn.server), dn, assertCsn)
  {
    var reply := conn.Delete(dn, assertCsn);
    return WriteResponse(dn, None, reply);
  }

  /** The version a request may write to: the entry, in the version asserted if one is. */
  predicate Stands(s: Server, dn: string, assertCsn: Option<Csn>) {
    dn in s.dir && (assertCsn.None? || s.dir[dn].csn == assertCsn.value)
  }

  /** Another version stands there than the one asserted. */
  predicate Overtaken(s: Server, dn: string, assertCsn: Option<Csn>) {
    dn in s.dir && assertCsn.Some? && s.dir[dn].csn != assertCsn.value
  }

  predicate SameEntries(s: Server, s1: Server) {
    s1.dir == s.dir && s1.clock == s.clock
  }

  /** The directory after a MODIFY that the server evaluated. */
  predicate ModifyActed(s: Server, dn: string, mods: seq<Mod>, assertCsn: Option<Csn>, s1: Server) {
    if Stands(s, dn, assertCsn) && Modify(s.dir[dn].attrs, NamingOf(dn), mods).Done?
    then s1.dir == s.dir[dn := Version(Modify(s.dir[dn].attrs, NamingOf(dn), mods).state, s.clock + 1)]
         && s1.clock == s.clock + 1
    else SameEntries(s, s1)
  }

  /** What is reported of it. */
  predicate ModifyReported(s: Server, dn: string, mods: seq<Mod>, assertCsn: Option<Csn>, sendPostRead: bool,
                           r: Response) {
    && (r.WriteConflict? <==> Overtaken(s, dn, assertCsn))
    && (r.WriteOk? <==> Stands(s, dn, assertCsn) && Modify(s.dir[dn].attrs, NamingOf(dn), mods).Done?)
    && match r
       case WriteOk(name, newCsn) =>
         name == dn && newCsn == if assertCsn.Some? && sendPostRead then Some(s.clock + 1) else None
       case WriteConflict(name) => name == dn
       case WriteError(why) =>
         if dn !in s.dir then why == CodeMessage(NO_SUCH_OBJECT, "")
         else
           var made := Modify(s.dir[dn].attrs, NamingOf(dn), mods);
           made.Refused? && why == CodeMessage(made.rc, "")
  }

  /** What a request refused without being evaluated reports: 122 is a conflict. */
  predicate DenialReported(dn: string, rc: nat, text: string, r: Response) {
    r == if rc == 122 then WriteConflict(dn) else WriteError(CodeMessage(rc, text))
  }

  /** One MODIFY, for every answer of the server. A server that evaluates it reports a conflict exactly when another
      version stands there than the one asserted, and success exactly when the right version is there and takes the
      operations, then with the CSN of the version just written if it sends that. */
  lemma AssertedModify(s: Server, dn: string, changes: seq<ModOp>, assertCsn: Option<Csn>)
    ensures var (s1, r) := Modified(s, dn, changes, assertCsn);
            match NextAnswer(s)
            case Evaluate(_, sendPostRead) =>
              && ModifyActed(s, dn, Wire(changes), assertCsn, s1)
              && ModifyReported(s, dn, Wire(changes), assertCsn, sendPostRead, r)
            case Deny(rc, text) => SameEntries(s, s1) && DenialReported(dn, rc, text, r)
            case Drop => SameEntries(s, s1) && r == WriteError(Transport)
            case LostReply => ModifyActed(s, dn, Wire(changes), assertCsn, s1) && r == WriteError(Transport)
  {
    var a := NextAnswer(s);
    if a.Evaluate? { EvaluatedModifyReports(s, dn, changes, assertCsn, a); }
    if a.Evaluate? || a == LostReply { EvaluatedModifyActs(s, dn, changes, assertCsn); }
  }

  lemma EvaluatedModifyActs(s: Server, dn: string, changes: seq<ModOp>, assertCsn: Option<Csn>)
    requires NextAnswer(s).Evaluate? || NextAnswer(s) == LostReply
    ensures ModifyActed(s, dn, Wire(changes), assertCsn, Modified(s, dn, changes, assertCsn).0)
  {
  }

  lemma EvaluatedModifyReports(s: Server, dn: string, changes: seq<ModOp>, assertCsn: Option<Csn>, a: Answer)
    requires a == NextAnswer(s) && a.Evaluate?
    ensures ModifyReported(s, dn, Wire(changes), assertCsn, a.sendPostRead, Modified(s, dn, changes, assertCsn).1)
  {
    AnsweredCsn(a, s.clock + 1);
    if dn in s.dir { RefusalsOf(s.dir[dn].attrs, Wire(changes)); }
  }

  lemma AnsweredCsn(a: Answer, csn: Csn)
    requires a.Evaluate?
    ensures PostReadCsn(Controls(a, csn)) == if a.sendPostRead then Some(csn) else None
  {
    PostReadCsnOfControls(a.otherControls,
                          if a.sendPostRead then [PostReadResp(Some(map["entryCSN" := [csn]]))] else []);
    assert PostReadCsn([]) == None;
  }

  predicate DeleteActed(s: Server, dn: string, assertCsn: Option<Csn>, s1: Server) {
    s1.clock == s.clock && s1.dir == if Stands(s, dn, assertCsn) then s.dir - {dn} else s.dir
  }

  predicate DeleteReported(s: Server, dn: string, assertCsn: Option<Csn>, r: Response) {
    && (r.WriteConflict? <==> Overtaken(s, dn, assertCsn))
    && (r.WriteOk? <==> Stands(s, dn, assertCsn))
    && match r
       case WriteOk(name, newCsn) => name == dn && newCsn == None
       case WriteConflict(name) => name == dn
       case WriteError(why) => why == CodeMessage(NO_SUCH_OBJECT, "")
  }

  /** The same for one DELETE. */
  lemma AssertedDelete(s: Server, dn: string, assertCsn: Option<Csn>)
    ensures var (s1, r) := Deleted(s, dn, assertCsn);
            match NextAnswer(s)
            case Evaluate(_, _) => DeleteActed(s, dn, assertCsn, s1) && DeleteReported(s, dn, assertCsn, r)
            case Deny(rc, text) => SameEntries(s, s1) && DenialReported(dn, rc, text, r)
            case Drop => SameEntries(s, s1) && r == WriteError(Transport)
            case LostReply => DeleteActed(s, dn, assertCsn, s1) && r == WriteError(Transport)
  {
  }

  // ----- adds and transactions -----

  function StoredOf(t: Table<Values>): Stored {
    if t == [] then map[] else Put(StoredOf(t[1..]), t[0].0, SetOf(t[0].1))
  }

  function ActAdd(s: Server, e: NewEntry): (Server, Reply) {
    if e.dn in s.dir then (s, Reply(ENTRY_EXISTS, "", []))
    else (Stamp(s, e.dn, StoredOf(e.attrs)), Reply(0, "", []))
  }

  function ServerAdd(s: Server, e: NewEntry): (Server, Reply) {
    Deliver(s, Consume(s), ActAdd(Consume(s), e))
  }

  function ServerStartTxn(s: Server): (Server, Reply) {
    Deliver(s, Consume(s), (Consume(s).(txn := Some([])), Reply(0, "", [])))
  }

  function ServerTxnAdd(s: Server, e: NewEntry): (Server, Reply) {
    Deliver(s, Consume(s),
            if s.txn.None? then (Consume(s), Reply(OPERATIONS_ERROR, "", []))
            else (Consume(s).(txn := Some(s.txn.value + [e])), Reply(0, "", [])))
  }

  /** Adds several entries at once, or none of them. */
  function AddAll(dir: map<string, Version>, clock: Csn, es: seq<NewEntry>): Option<map<string, Version>>
    decreases es
  {
    if es == [] then Some(dir)
    else if es[0].dn in dir then None
    else AddAll(dir[es[0].dn := Version(StoredOf(es[0].attrs), clock + 1)], clock + 1, es[1..])
  }

  function ActEndTxn(s: Server, commit: bool): (Server, Reply) {
    var closed := s.(txn := None);
    if s.txn.None? then (closed, Reply(OPERATIONS_ERROR, "", []))
    else if !commit then (closed, Reply(0, "", []))
    else
      match AddAll(s.dir, s.clock, s.txn.value)
      case None => (closed, Reply(ENTRY_EXISTS, "", []))
      case Some(dir) => (closed.(dir := dir, clock := s.clock + |s.txn.value|), Reply(0, "", []))
  }

  function ServerEndTxn(s: Server, commit: bool): (Server, Reply) {
    Deliver(s, Consume(s).(txn := None), ActEndTxn(Consume(s), commit))
  }

  // ----- the atomic create -----

  datatype Diagnosis = Diagnosis(culprit: Option<(string, Reply)>, leftovers: seq<string>)

  predicate Succeeded(reply: Reply) {
    reply.Reply? && reply.rc == 0
  }

  /** The replay outside the transaction: what it created before the first failure, and that failure. */
  datatype Replayed = Replayed(server: Server, created: seq<string>, culprit: Option<(string, Reply)>)

  function Replay(s: Server, entries: seq<NewEntry>, created: seq<string>): Replayed
    decreases entries
  {
    if entries == [] then Replayed(s, created, None)
    else
      var (s1, reply) := ServerAdd(s, entries[0]);
      if Succeeded(reply) then Replay(s1, entries[1..], created + [entries[0].dn])
      else Replayed(s1, created, Some((entries[0].dn, reply)))
  }

  /** Deletes the created entries, newest first; the ones that resist are left over. */
  function CleanUp(s: Server, created: seq<string>, leftovers: seq<string>): (Server, seq<string>)
    decreases created
  {
    if created == [] then (s, leftovers)
    else
      var dn := created[|created| - 1];
      var (s1, reply) := ServerDelete(s, dn, None);
      CleanUp(s1, created[..|created| - 1], if Succeeded(reply) then leftovers else leftovers + [dn])
  }

  function Diagnosed(s: Server, entries: seq<NewEntry>): (Server, Diagnosis) {
    var replayed := Replay(s, entries, []);
    var (s1, leftovers) := CleanUp(replayed.server, replayed.created, []);
    (s1, Diagnosis(replayed.culprit, leftovers))
  }

  /** Queues the adds in the open transaction up to the first failure. */
  function QueueAll(s: Server, entries: seq<NewEntry>): (Server, Option<(string, Reply)>)
    decreases entries
  {
    if entries == [] then (s, None)
    else
      var (s1, reply) := ServerTxnAdd(s, entries[0]);
      if Succeeded(reply) then QueueAll(s1, entries[1..]) else (s1, Some((entries[0].dn, reply)))
  }

  function LastDn(entries: seq<NewEntry>): string {
    if entries == [] then "" else entries[|entries| - 1].dn
  }

  function Dns(entries: seq<NewEntry>): seq<string> {
    seq(|entries|, i requires 0 <= i < |entries| => entries[i].dn)
  }

  /** From the commit on. */
  function Committed(s: Server, entries: seq<NewEntry>): (Server, Response) {
    var (s1, ended) := ServerEndTxn(s, true);
    if ended.TransportError? then (s1, WriteError(Transport))
    else if ended.rc == 0 then (s1, WriteOk(LastDn(entries), None))
    else if ended.text != "" then (s1, WriteError(CommitRejected(ended.rc, ended.text, Dns(entries), None)))
    else
      var (s2, d) := Diagnosed(s1, entries);
      (s2, WriteError(CommitRejected(ended.rc, ended.text, Dns(entries), Some(d))))
  }

  function AddAtomic(s: Server, entries: seq<NewEntry>): (Server, Response) {
    var (s1, started) := ServerStartTxn(s);
    if started.TransportError? then (s1, WriteError(Transport))
    else if started.rc != 0 then (s1, WriteError(CodeMessage(started.rc, started.text)))
    else
      var (s2, failed) := QueueAll(s1, entries);
      match failed
      case Some((dn, reply)) =>
        (ServerEndTxn(s2, false).0,
         WriteError(if reply.TransportError? then Transport else EntryRejected(dn, reply.rc, reply.text)))
      case None => Committed(s2, entries)
  }

  method ReplayAdds(conn: Connection, entries: seq<NewEntry>)
    returns (created: seq<string>, culprit: Option<(string, Reply)>)
    modifies conn
    ensures Replay(old(conn.server), entries, []) == Replayed(conn.server, created, culprit)
  {
    created, culprit := [], None;
    for i := 0 to |entries|
      invariant Replay(old(conn.server), entries, []) == Replay(conn.server, entries[i..], created)
    {
      var reply := conn.Add(entries[i]);
      if Succeeded(reply) {
        created := created + [entries[i].dn];
      } else {
        culprit := Some((entries[i].dn, reply));
        return;
      }
    }
  }

  method RemoveCreated(conn: Connection, created: seq<string>) returns (leftovers: seq<string>)
    modifies conn
    ensures (conn.server, leftovers) == CleanUp(old(conn.server), created, [])
  {
    leftovers := [];
    var n := |created|;
    assert created[..n] == created;
    while n > 0
      invariant 0 <= n <= |created|
      invariant CleanUp(conn.server, created[..n], leftovers) == CleanUp(old(conn.server), created, [])
    {
      n := n - 1;
      assert created[..n + 1][..n] == created[..n];
      var reply := conn.Delete(created[n], None);
      if !Succeeded(reply) {
        leftovers := leftovers + [created[n]];
      }
    }
  }

  method DiagnoseRolledBackAdd(conn: Connection, entries: seq<NewEntry>) returns (d: Diagnosis)
    modifies conn
    ensures (conn.server, d) == Diagnosed(old(conn.server), entries)
  {
    var created, culprit := ReplayAdds(conn, entries);
    var leftovers := RemoveCreated(conn, created);
    d := Diagnosis(culprit, leftovers);
  }

  method RunAddAtomic(conn: Connection, entries: seq<NewEntry>) returns (r: Response)
    modifies conn
    ensures (conn.server, r) == AddAtomic(old(conn.server), entries)
  {
    var started := conn.StartTxn();
    if started.TransportError? {
      return WriteError(Transport);
    }
    if started.rc != 0 {
      return WriteError(CodeMessage(started.rc, started.text));
    }
    var lastDn := "";
    ghost var s1 := conn.server;
    for i := 0 to |entries|
      invariant QueueAll(s1, entries) == QueueAll(conn.server, entries[i..])
      invariant lastDn == LastDn(entries[..i])
    {
      var reply := conn.AddInTxn(entries[i]);
      if Succeeded(reply) {
        lastDn := entries[i].dn;
      } else {
        var _ := conn.EndTxn(false);
        return WriteError(if reply.TransportError? then Transport
            else EntryRejected(entries[i].dn, reply.rc, reply.text));
      }
    }
    assert entries[..|entries|] == entries;
    var ended := conn.EndTxn(true);
    if ended.TransportError? {
      return WriteError(Transport);
    }
    if ended.rc == 0 {
      return WriteOk(lastDn, None);
    }
    var diagnosis := None;
    if ended.text == "" {
      var d := DiagnoseRolledBackAdd(conn, entries);
      diagnosis := Some(d);
    }
    return WriteError(CommitRejected(ended.rc, ended.text, Dns(entries), diagnosis));
  }

  // ----- what the atomic create guarantees -----

  /** The answer to the request `i` requests from now. */
  function AnswerAt(s: Server, i: nat): Answer {
    if i < |s.answers| then s.answers[i] else Evaluate(0, true)
  }

  function Later(answers: seq<Answer>, n: nat): seq<Answer> {
    if n <= |answers| then answers[n..] else []
  }

  lemma LaterStep(s: Server, n: nat)
    ensures NextAnswer(s) == AnswerAt(s, 0) && Consume(s).answers == Later(s.answers, 1)
    ensures Later(Consume(s).answers, n) == Later(s.answers, n + 1)
  {
  }

  lemma LaterTwice(answers: seq<Answer>, n: nat, m: nat)
    ensures Later(Later(answers, n), m) == Later(answers, n + m)
  {
  }

  lemma AnswerLater(s: Server, t: Server, n: nat, i: nat)
    requires t.answers == Later(s.answers, n)
    ensures AnswerAt(t, i) == AnswerAt(s, n + i)
  {
  }

  /** Nothing old was touched. */
  predicate Keeps(before: map<string, Version>, after: map<string, Version>) {
    forall dn :: dn in before ==> dn in after && after[dn] == before[dn]
  }

  /** `after` is `before` plus exactly the new names `dns`. */
  predicate Grew(before: map<string, Version>, after: map<string, Version>, dns: seq<string>) {
    && (forall dn :: dn in dns ==> dn !in before && dn in after)
    && (forall dn :: dn in after ==> dn in before || dn in dns)
    && Keeps(before, after)
  }

  ghost predicate Holds(dir: map<string, Version>, e: NewEntry) {
    e.dn in dir && Shows(dir[e.dn].attrs, e.attrs)
  }

  lemma {:induction false} StoredShows(t: Table<Values>)
    ensures Shows(StoredOf(t), t)
  {
    if t != [] {
      StoredShows(t[1..]);
      forall m: string ensures Get(StoredOf(t), m) == SetOf(Vals(t, m)) {
        PutGet(StoredOf(t[1..]), t[0].0, SetOf(t[0].1), m);
        assert Get(StoredOf(t[1..]), m) == SetOf(Vals(t[1..], m));
      }
    } else {
      assert forall m: string :: Vals(t, m) == [];
    }
  }

  predicate Distinct(dns: seq<string>) {
    forall i, j :: 0 <= i < j < |dns| ==> dns[i] != dns[j]
  }

  /** The names of `entries` are new to `dir` and pairwise different. */
  predicate AllNew(dir: map<string, Version>, entries: seq<NewEntry>) {
    Distinct(Dns(entries)) && forall e :: e in entries ==> e.dn !in dir
  }

  lemma DnsStep(es: seq<NewEntry>)
    requires es != []
    ensures Dns(es) == [es[0].dn] + Dns(es[1..])
    ensures forall e :: e in es ==> e.dn in Dns(es)
    ensures Distinct(Dns(es)) <==> Distinct(Dns(es[1..])) && es[0].dn !in Dns(es[1..])
  {
    assert Dns(es) == [es[0].dn] + Dns(es[1..]);
    forall e | e in es ensures e.dn in Dns(es) {
      var i :| 0 <= i < |es| && es[i] == e;
      assert Dns(es)[i] == e.dn;
    }
    if Distinct(Dns(es)) {
      forall i | 0 <= i < |Dns(es[1..])| ensures Dns(es[1..])[i] != es[0].dn {
        assert Dns(es)[0] != Dns(es)[i + 1];
      }
      forall i, j | 0 <= i < j < |Dns(es[1..])| ensures Dns(es[1..])[i] != Dns(es[1..])[j] {
        assert Dns(es)[i + 1] != Dns(es)[j + 1];
      }
    }
  }

  /** A batch of adds works exactly when all names are new, and then adds exactly those entries. */
  lemma {:induction false} AddAllGrew(dir: map<string, Version>, clock: Csn, es: seq<NewEntry>)
    ensures AddAll(dir, clock, es).Some? <==> AllNew(dir, es)
    ensures AddAll(dir, clock, es).Some? ==>
              var after := AddAll(dir, clock, es).value;
              Grew(dir, after, Dns(es)) && forall e :: e in es ==> Holds(after, e)
    decreases es
  {
    if es != [] {
      DnsStep(es);
      if es[0].dn in dir {
        assert es[0] in es;
      } else {
        var dir1 := dir[es[0].dn := Version(StoredOf(es[0].attrs), clock + 1)];
        StoredShows(es[0].attrs);
        AddAllGrew(dir1, clock + 1, es[1..]);
        AllNewStep(dir, es, Version(StoredOf(es[0].attrs), clock + 1));
      }
    }
  }

  lemma AllNewStep(dir: map<string, Version>, es: seq<NewEntry>, v: Version)
    requires es != [] && es[0].dn !in dir
    ensures AllNew(dir, es) <==> AllNew(dir[es[0].dn := v], es[1..])
  {
    DnsStep(es);
    var dir1 := dir[es[0].dn := v];
    if AllNew(dir, es) {
      forall e | e in es[1..] ensures e.dn !in dir1 {
        if |es| > 1 { DnsStep(es[1..]); }
      }
    }
    if AllNew(dir1, es[1..]) {
      forall i | 0 <= i < |Dns(es[1..])| ensures Dns(es[1..])[i] != es[0].dn {
        assert es[1..][i] in es[1..];
      }
    }
  }

  /** The next `n` requests are carried out and confirmed. */
  predicate Confirmed(s: Server, n: nat) {
    forall i: nat :: i < n ==> AnswerAt(s, i).Evaluate?
  }

  lemma ConfirmedStep(s: Server, t: Server, n: nat)
    requires t.answers == Later(s.answers, 1)
    ensures Confirmed(s, n + 1) <==> NextAnswer(s).Evaluate? && Confirmed(t, n)
  {
    LaterStep(s, 0);
    forall i: nat ensures AnswerAt(t, i) == AnswerAt(s, 1 + i) { AnswerLater(s, t, 1, i); }
    if NextAnswer(s).Evaluate? && Confirmed(t, n) {
      forall i: nat | i < n + 1 ensures AnswerAt(s, i).Evaluate? {
        if i > 0 { assert AnswerAt(t, i - 1).Evaluate?; }
      }
    } else if NextAnswer(s).Evaluate? {
      var i: nat :| i < n && !AnswerAt(t, i).Evaluate?;
      assert !AnswerAt(s, 1 + i).Evaluate?;
    }
  }

  /** Queueing writes nothing, and succeeds exactly when every request is confirmed. */
  lemma {:induction false} QueueAllKeepsDir(s: Server, entries: seq<NewEntry>)
    requires s.txn.Some?
    ensures var (s1, failed) := QueueAll(s, entries);
            && s1.dir == s.dir && s1.clock == s.clock
            && (failed == None <==> Confirmed(s, |entries|))
            && (failed == None ==> s1.txn == Some(s.txn.value + entries) && s1.answers == Later(s.answers, |entries|))
    decreases entries
  {
    if entries != [] {
      var s1 := ServerTxnAdd(s, entries[0]).0;
      QueueOne(s, entries[0]);
      ConfirmedStep(s, s1, |entries| - 1);
      LaterTwice(s.answers, 1, |entries| - 1);
      if NextAnswer(s).Evaluate? {
        QueueAllKeepsDir(s1, entries[1..]);
        QueuedThen(s.txn.value, entries);
      }
    } else {
      assert s.txn.value + entries == s.txn.value;
    }
  }

  lemma QueueOne(s: Server, e: NewEntry)
    requires s.txn.Some?
    ensures var (s1, reply) := ServerTxnAdd(s, e);
            && s1.dir == s.dir && s1.clock == s.clock && s1.answers == Later(s.answers, 1)
            && (Succeeded(reply) <==> NextAnswer(s).Evaluate?)
            && (Succeeded(reply) ==> s1.txn == Some(s.txn.value + [e]))
  {
    LaterStep(s, 0);
  }

  lemma QueuedThen(queued: seq<NewEntry>, entries: seq<NewEntry>)
    requires entries != []
    ensures queued + [entries[0]] + entries[1..] == queued + entries
  {
  }

  /** The reply to an add that was not confirmed. */
  function Unconfirmed(a: Answer): Reply {
    match a
    case Evaluate(_, _) => Reply(ENTRY_EXISTS, "", [])
    case Deny(rc, text) => Reply(rc, text, [])
    case _ => TransportError
  }

  /** Queueing stops at the first request that is not confirmed. */
  lemma {:induction false} QueueStops(s: Server, entries: seq<NewEntry>, i: nat)
    requires s.txn.Some? && i < |entries| && Confirmed(s, i) && !AnswerAt(s, i).Evaluate?
    ensures var (s1, failed) := QueueAll(s, entries);
            && SameEntries(s, s1) && s1.txn.Some? && s1.answers == Later(s.answers, i + 1)
            && failed == Some((entries[i].dn, Unconfirmed(AnswerAt(s, i))))
    decreases i
  {
    LaterStep(s, 0);
    if i > 0 {
      var s1 := ServerTxnAdd(s, entries[0]).0;
      QueueOne(s, entries[0]);
      ConfirmedStep(s, s1, i - 1);
      AnswerLater(s, s1, 1, i - 1);
      LaterTwice(s.answers, 1, i);
      assert AnswerAt(s, 0).Evaluate?;
      QueueStops(s1, entries[1..], i - 1);
    }
  }

  /** An add of a new name that took effect although its answer was lost. */
  predicate AddLost(s: Server, entries: seq<NewEntry>, k: nat) {
    k < |entries| && AnswerAt(s, k) == LostReply && AddAll(s.dir, s.clock, entries[..k + 1]).Some?
  }

  /** The replay `r` created exactly the first `k` entries, and the next one too if its answer got lost;
      it blames that next one, if there is any. */
  predicate StopsAt(s: Server, entries: seq<NewEntry>, created: seq<string>, r: Replayed, k: nat) {
    && k <= |entries|
    && r.created == created + Dns(entries[..k])
    && AddAll(s.dir, s.clock, entries[..k]).Some? && Confirmed(s, k)
    && Some(r.server.dir) == AddAll(s.dir, s.clock, if AddLost(s, entries, k) then entries[..k + 1] else entries[..k])
    && match r.culprit
       case None => k == |entries| && r.server.answers == Later(s.answers, k)
       case Some((dn, reply)) =>
         && k < |entries| && dn == entries[k].dn && !Succeeded(reply) && reply == Unconfirmed(AnswerAt(s, k))
         && !(AnswerAt(s, k).Evaluate? && AddAll(s.dir, s.clock, entries[..k + 1]).Some?)
         && r.server.answers == Later(s.answers, k + 1)
  }

  lemma {:induction false} ReplayStops(s: Server, entries: seq<NewEntry>, created: seq<string>) returns (k: nat)
    ensures StopsAt(s, entries, created, Replay(s, entries, created), k)
    decreases entries
  {
    if entries != [] && Succeeded(ServerAdd(s, entries[0]).1) {
      var s1 := ServerAdd(s, entries[0]).0;
      LaterStep(s, 0);
      var m := ReplayStops(s1, entries[1..], created + [entries[0].dn]);
      k := m + 1;
      StopsLater(s, entries, created, s1, Replay(s, entries, created), m);
    } else {
      k := 0;
      StopsAtOnce(s, entries, created);
    }
  }

  lemma StopsAtOnce(s: Server, entries: seq<NewEntry>, created: seq<string>)
    requires entries == [] || !Succeeded(ServerAdd(s, entries[0]).1)
    ensures StopsAt(s, entries, created, Replay(s, entries, created), 0)
  {
    assert entries[..0] == [] && created + Dns([]) == created;
    if entries != [] {
      LaterStep(s, 0);
      OneAdded(s.dir, s.clock, entries);
    }
  }

  lemma OneAdded(dir: map<string, Version>, clock: Csn, es: seq<NewEntry>)
    requires es != []
    ensures AddAll(dir, clock, es[..1])
         == if es[0].dn in dir then None else Some(dir[es[0].dn := Version(StoredOf(es[0].attrs), clock + 1)])
  {
    assert es[..1][1..] == [];
  }

  lemma StopsLater(s: Server, entries: seq<NewEntry>, created: seq<string>, s1: Server, r: Replayed, m: nat)
    requires entries != [] && entries[0].dn !in s.dir
    requires s1.dir == s.dir[entries[0].dn := Version(StoredOf(entries[0].attrs), s.clock + 1)]
    requires s1.clock == s.clock + 1 && s1.answers == Later(s.answers, 1) && NextAnswer(s).Evaluate?
    requires StopsAt(s1, entries[1..], created + [entries[0].dn], r, m)
    ensures StopsAt(s, entries, created, r, m + 1)
  {
    PrefixAdded(s.dir, s.clock, entries, m);
    if m < |entries[1..]| { PrefixAdded(s.dir, s.clock, entries, m + 1); }
    AnswerLater(s, s1, 1, m);
    ConfirmedStep(s, s1, m);
    assert created + [entries[0].dn] + Dns(entries[1..][..m]) == created + Dns(entries[..m + 1]);
    assert m < |entries[1..]| ==> entries[1..][m] == entries[m + 1];
  }

  lemma PrefixAdded(dir: map<string, Version>, clock: Csn, es: seq<NewEntry>, m: nat)
    requires m < |es| && es[0].dn !in dir
    ensures Dns(es[..m + 1]) == [es[0].dn] + Dns(es[1..][..m])
    ensures AddAll(dir, clock, es[..m + 1])
         == AddAll(dir[es[0].dn := Version(StoredOf(es[0].attrs), clock + 1)], clock + 1, es[1..][..m])
  {
    assert es[..m + 1][1..] == es[1..][..m];
    DnsStep(es[..m + 1]);
  }

  /** What the clean-up leaves of one created entry, by the answer to its delete: the report
      names it unless the success was confirmed, and it is there unless the delete took effect. */
  predicate CleanedBy(a: Answer, reported: bool, there: bool) {
    (reported <==> !a.Evaluate?) && (there <==> a.Deny? || a.Drop?)
  }

  /** Clean-up touches only what it was given, newest first, and reports whatever it got no success for. */
  ghost predicate CleanedUp(s: Server, created: seq<string>, leftovers: seq<string>,
                      after: map<string, Version>, left: seq<string>) {
    && (forall i {:trigger created[i]} :: 0 <= i < |created| ==>
          CleanedBy(AnswerAt(s, |created| - 1 - i), created[i] in left, created[i] in after))
    && (forall dn :: dn in left ==> dn in leftovers || dn in created)
    && (forall dn :: dn in leftovers ==> dn in left)
    && (forall dn :: dn !in created ==> (dn in after <==> dn in s.dir))
    && forall dn :: dn in after ==> dn in s.dir && after[dn] == s.dir[dn]
  }

  lemma {:induction false} CleanUpReports(s: Server, created: seq<string>, leftovers: seq<string>)
    requires forall dn :: dn in created ==> dn in s.dir && dn !in leftovers
    requires Distinct(created)
    ensures var (s1, left) := CleanUp(s, created, leftovers);
            CleanedUp(s, created, leftovers, s1.dir, left)
    decreases created
  {
    if created != [] {
      var n := |created| - 1;
      var dn := created[n];
      var (s1, reply) := ServerDelete(s, dn, None);
      var rest := created[..n];
      var left1 := if Succeeded(reply) then leftovers else leftovers + [dn];
      CreatedRest(created);
      DeleteOutcome(s, dn);
      CleanUpRest(s1.dir, rest, left1, s.dir, created, leftovers);
      CleanUpReports(s1, rest, left1);
      var (s2, left) := CleanUp(s1, rest, left1);
      CleanedUpFirst(s, created, leftovers, s1, left1, s2.dir, left);
    }
  }

  lemma CleanedUpFirst(s: Server, created: seq<string>, leftovers: seq<string>, s1: Server, left1: seq<string>,
                       after: map<string, Version>, left: seq<string>)
    requires created != [] && created[|created| - 1] !in leftovers && created[|created| - 1] in s.dir
    requires created[|created| - 1] !in created[..|created| - 1]
    requires forall d :: d in created <==> d in created[..|created| - 1] || d == created[|created| - 1]
    requires s1.answers == Later(s.answers, 1) && (s1.dir == s.dir || s1.dir == s.dir - {created[|created| - 1]})
    requires left1 == leftovers || left1 == leftovers + [created[|created| - 1]]
    requires CleanedBy(AnswerAt(s, 0), created[|created| - 1] in left1, created[|created| - 1] in s1.dir)
    requires CleanedUp(s1, created[..|created| - 1], left1, after, left)
    ensures CleanedUp(s, created, leftovers, after, left)
  {
    var n := |created| - 1;
    var rest := created[..n];
    forall i {:trigger created[i]} | 0 <= i < |created|
      ensures CleanedBy(AnswerAt(s, n - i), created[i] in left, created[i] in after)
    {
      if i < n {
        assert rest[i] == created[i];
        AnswerLater(s, s1, 1, n - 1 - i);
      }
    }
  }

  lemma CreatedRest(created: seq<string>)
    requires created != [] && Distinct(created)
    ensures var n := |created| - 1;
            && Distinct(created[..n]) && created[n] !in created[..n]
            && forall d :: d in created <==> d in created[..n] || d == created[n]
  {
    var n := |created| - 1;
    assert created == created[..n] + [created[n]];
    forall i | 0 <= i < n ensures created[..n][i] != created[n] { assert created[i] != created[n]; }
  }

  lemma DeleteOutcome(s: Server, dn: string)
    requires dn in s.dir
    ensures var (s1, reply) := ServerDelete(s, dn, None);
            && s1.answers == Later(s.answers, 1)
            && s1.dir == (if NextAnswer(s).Deny? || NextAnswer(s).Drop? then s.dir else s.dir - {dn})
            && CleanedBy(AnswerAt(s, 0), !Succeeded(reply), dn in s1.dir)
  {
    LaterStep(s, 0);
  }

  lemma CleanUpRest(dir1: map<string, Version>, rest: seq<string>, left1: seq<string>,
                    dir: map<string, Version>, created: seq<string>, leftovers: seq<string>)
    requires created != [] && rest == created[..|created| - 1]
    requires created[|created| - 1] !in rest && forall d :: d in rest ==> d in created
    requires dir1 == dir || dir1 == dir - {created[|created| - 1]}
    requires left1 == leftovers || left1 == leftovers + [created[|created| - 1]]
    requires forall dn :: dn in created ==> dn in dir && dn !in leftovers
    ensures forall dn :: dn in rest ==> dn in dir1 && dn !in left1
  {
  }

  function Leftovers(why: Failure): seq<string> {
    if why.CommitRejected? && why.diagnosis.Some? then why.diagnosis.value.leftovers else []
  }

  /** The answer to the clean-up's delete of the `i`-th of `k` created entries. */
  function DeleteAnswer(s: Server, entries: seq<NewEntry>, k: nat, i: nat): Answer
    requires i < k <= |entries|
  {
    AnswerAt(s, (if k < |entries| then k + 1 else k) + (k - 1 - i))
  }

  /** Each created entry, after the clean-up. */
  ghost predicate OneDiagnosed(s: Server, entries: seq<NewEntry>, after: map<string, Version>, left: seq<string>,
                               k: nat, i: nat)
    requires i < k <= |entries|
  {
    && CleanedBy(DeleteAnswer(s, entries, k, i), entries[i].dn in left, entries[i].dn in after)
    && (entries[i].dn in after ==> Holds(after, entries[i]))
  }

  /** Where the replay stops: all adds before `k` are confirmed and of new names, the one at `k` is not. */
  predicate StopsHere(s: Server, entries: seq<NewEntry>, k: nat) {
    && k <= |entries| && Confirmed(s, k) && AllNew(s.dir, entries[..k])
    && (k < |entries| ==> !(AnswerAt(s, k).Evaluate? && AllNew(s.dir, entries[..k + 1])))
  }

  lemma {:induction false} AllNewShorter(dir: map<string, Version>, entries: seq<NewEntry>, k: nat, j: nat)
    requires k <= j <= |entries| && AllNew(dir, entries[..j])
    ensures AllNew(dir, entries[..k])
    decreases j
  {
    if k < j {
      AllNewPrefix(dir, entries, j - 1);
      AllNewShorter(dir, entries, k, j - 1);
    }
  }

  /** There is one such place. */
  lemma StopsOnce(s: Server, entries: seq<NewEntry>, k: nat, j: nat)
    requires StopsHere(s, entries, k) && StopsHere(s, entries, j)
    ensures k == j
  {
    if k < j {
      AllNewShorter(s.dir, entries, k + 1, j);
    } else if j < k {
      AllNewShorter(s.dir, entries, j + 1, k);
    }
  }

  /** What a diagnosis leaves and reports, entry by entry. The first `k` entries were created again; the next one
      is blamed, and it stays without being reported exactly when it was new and the answer to its add got lost. */
  ghost predicate DiagnosedExactly(s: Server, entries: seq<NewEntry>, s1: Server, d: Diagnosis, k: nat) {
    && StopsHere(s, entries, k) && Keeps(s.dir, s1.dir)
    && (forall i :: 0 <= i < k ==> OneDiagnosed(s, entries, s1.dir, d.leftovers, k, i))
    && (forall dn :: dn in d.leftovers ==> dn in Dns(entries[..k]))
    && (forall dn :: dn in s1.dir ==> dn in s.dir || dn in Dns(entries[..k]) || Unreported(s, entries, k, dn))
    && (forall dn :: Unreported(s, entries, k, dn) ==>
          dn in s1.dir && dn !in d.leftovers && d.culprit == Some((dn, TransportError)))
    && (d.culprit.None? <==> k == |entries|)
    && (d.culprit.Some? ==> d.culprit.value == (entries[k].dn, Unconfirmed(AnswerAt(s, k))))
  }

  predicate Unreported(s: Server, entries: seq<NewEntry>, k: nat, dn: string) {
    k < |entries| && dn == entries[k].dn && AnswerAt(s, k) == LostReply && AllNew(s.dir, entries[..k + 1])
  }

  lemma AllNewPrefix(dir: map<string, Version>, entries: seq<NewEntry>, k: nat)
    requires k < |entries| && AllNew(dir, entries[..k + 1])
    ensures AllNew(dir, entries[..k]) && entries[k].dn !in Dns(entries[..k]) && entries[k].dn !in dir
    ensures Dns(entries[..k + 1]) == Dns(entries[..k]) + [entries[k].dn]
  {
    var all := Dns(entries[..k + 1]);
    assert all == Dns(entries[..k]) + [entries[k].dn];
    forall i | 0 <= i < k ensures Dns(entries[..k])[i] != entries[k].dn { assert all[i] != all[k]; }
    forall i, j | 0 <= i < j < k ensures Dns(entries[..k])[i] != Dns(entries[..k])[j] { assert all[i] != all[j]; }
    assert entries[..k + 1][k] == entries[k];
    forall e | e in entries[..k] ensures e in entries[..k + 1] { }
  }

  /** For every behaviour of the server: nothing old is touched, and what the replay left behind is what the diagnosis
      reports, but for an entry whose own add it reports as failed in transport. */
  lemma DiagnosisReports(s: Server, entries: seq<NewEntry>) returns (k: nat)
    ensures DiagnosedExactly(s, entries, Diagnosed(s, entries).0, Diagnosed(s, entries).1, k)
  {
    k := ReplayStops(s, entries, []);
    var r := Replay(s, entries, []);
    var names := Dns(entries[..k]);
    assert r.created == names;
    AddAllGrew(s.dir, s.clock, entries[..k]);
    if k < |entries| {
      AddAllGrew(s.dir, s.clock, entries[..k + 1]);
      if AllNew(s.dir, entries[..k + 1]) { AllNewPrefix(s.dir, entries, k); }
    }
    CleanUpReports(r.server, names, []);
    var (s1, left) := CleanUp(r.server, names, []);
    forall i | 0 <= i < k ensures OneDiagnosed(s, entries, s1.dir, left, k, i) {
      DiagnosedOne(s, entries, r, k, s1.dir, left, i);
    }
    DiagnosedRest(s, entries, r, k, s1.dir, left);
  }

  lemma DiagnosedOne(s: Server, entries: seq<NewEntry>, r: Replayed, k: nat,
                     after: map<string, Version>, left: seq<string>, i: nat)
    requires StopsAt(s, entries, [], r, k) && CleanedUp(r.server, Dns(entries[..k]), [], after, left)
    requires forall e :: e in entries[..k] ==> Holds(r.server.dir, e)
    requires i < k
    ensures OneDiagnosed(s, entries, after, left, k, i)
  {
    var names := Dns(entries[..k]);
    var sent := if k < |entries| then k + 1 else k;
    assert r.server.answers == Later(s.answers, sent);
    AnswerLater(s, r.server, sent, k - 1 - i);
    assert names[i] == entries[i].dn && entries[..k][i] == entries[i];
    assert |names| - 1 - i == k - 1 - i;
    assert CleanedBy(AnswerAt(r.server, k - 1 - i), names[i] in left, names[i] in after);
    assert entries[i] in entries[..k];
    assert Holds(r.server.dir, entries[i]);
  }

  lemma DiagnosedRest(s: Server, entries: seq<NewEntry>, r: Replayed, k: nat,
                      after: map<string, Version>, left: seq<string>)
    requires StopsAt(s, entries, [], r, k) && CleanedUp(r.server, Dns(entries[..k]), [], after, left)
    requires AllNew(s.dir, entries[..k])
    requires Grew(s.dir, r.server.dir, Dns(entries[..if AddLost(s, entries, k) then k + 1 else k]))
    requires AddLost(s, entries, k) <==> k < |entries| && AnswerAt(s, k) == LostReply && AllNew(s.dir, entries[..k + 1])
    requires AddLost(s, entries, k) ==> Dns(entries[..k + 1]) == Dns(entries[..k]) + [entries[k].dn]
                                        && entries[k].dn !in Dns(entries[..k])
    ensures Keeps(s.dir, after)
    ensures forall dn :: dn in left ==> dn in Dns(entries[..k])
    ensures forall dn :: dn in after ==> dn in s.dir || dn in Dns(entries[..k]) || Unreported(s, entries, k, dn)
    ensures forall dn :: Unreported(s, entries, k, dn) ==>
              dn in after && dn !in left && r.culprit == Some((dn, TransportError))
  {
  }

  /** An entry stays without being reported exactly when every add before it was confirmed, it was new as
      all before it, and the answer to its own add got lost. */
  lemma UnreportedExactly(s: Server, entries: seq<NewEntry>, dn: string)
    ensures var (s1, d) := Diagnosed(s, entries);
            dn in s1.dir && dn !in s.dir && dn !in d.leftovers <==>
              exists k :: Confirmed(s, k) && Unreported(s, entries, k, dn)
  {
    var k := DiagnosisReports(s, entries);
    var (s1, d) := Diagnosed(s, entries);
    UnreportedFrom(s, entries, s1, d, k, dn);
  }

  lemma UnreportedFrom(s: Server, entries: seq<NewEntry>, s1: Server, d: Diagnosis, k: nat, dn: string)
    requires DiagnosedExactly(s, entries, s1, d, k)
    ensures dn in s1.dir && dn !in s.dir && dn !in d.leftovers <==>
              exists j :: Confirmed(s, j) && Unreported(s, entries, j, dn)
  {
    if j :| Confirmed(s, j) && Unreported(s, entries, j, dn) {
      AllNewPrefix(s.dir, entries, j);
      StopsOnce(s, entries, j, k);
    }
    if dn in Dns(entries[..k]) && dn in s1.dir {
      CreatedIsReported(s, entries, s1, d, k, dn);
    }
    assert Confirmed(s, k);
  }

  /** What was created and is still there has been reported. */
  lemma CreatedIsReported(s: Server, entries: seq<NewEntry>, s1: Server, d: Diagnosis, k: nat, dn: string)
    requires DiagnosedExactly(s, entries, s1, d, k) && dn in Dns(entries[..k]) && dn in s1.dir
    ensures dn in d.leftovers
  {
    var i :| 0 <= i < k && Dns(entries[..k])[i] == dn;
    assert OneDiagnosed(s, entries, s1.dir, d.leftovers, k, i);
  }

  // ----- the whole request -----

  /** Every request but the last is carried out and confirmed, and so is the commit, or its answer gets lost. */
  predicate CommitAnswered(s: Server, entries: seq<NewEntry>, lost: bool) {
    && Confirmed(s, |entries| + 1)
    && if lost then AnswerAt(s, |entries| + 1).LostReply? else AnswerAt(s, |entries| + 1).Evaluate?
  }

  /** The commit is refused without a word, so the entries are replayed. */
  predicate RefusedSilently(s: Server, entries: seq<NewEntry>) {
    && Confirmed(s, |entries| + 1)
    && match AnswerAt(s, |entries| + 1)
       case Evaluate(_, _) => !AllNew(s.dir, entries)
       case Deny(_, text) => text == ""
       case _ => false
  }

  /** The server as it is after the commit was refused. */
  function AfterCommit(s: Server, entries: seq<NewEntry>): Server {
    Server(s.dir, s.clock, Later(s.answers, |entries| + 2), None)
  }

  /** The directory holds all of `entries` and is otherwise what it was. */
  ghost predicate AllCreated(before: map<string, Version>, after: map<string, Version>, entries: seq<NewEntry>) {
    AllNew(before, entries) && Grew(before, after, Dns(entries)) && forall e :: e in entries ==> Holds(after, e)
  }

  /** What a failed create may leave: entries of the request, each reported as left over,
      or named as the one whose replayed add failed in transport. */
  ghost predicate LeavesReported(before: map<string, Version>, after: map<string, Version>,
                           entries: seq<NewEntry>, why: Failure) {
    && Keeps(before, after)
    && (forall dn :: dn in Leftovers(why) ==> dn in Dns(entries) && dn !in before)
    && (Leftovers(why) != [] ==> why.text == "")
    && forall dn :: dn in after && dn !in before ==>
         dn in Dns(entries) && (dn in Leftovers(why) || BlamesTransport(why, dn))
  }

  predicate BlamesTransport(why: Failure, dn: string) {
    why.CommitRejected? && why.diagnosis.Some? && why.diagnosis.value.culprit == Some((dn, TransportError))
  }

  /** What a refused commit leaves: after a silent refusal what the diagnosis of the replay says, else nothing. */
  ghost predicate LeftByRefusal(s: Server, entries: seq<NewEntry>, silent: bool, s1: Server, why: Failure) {
    if silent then
      && why.CommitRejected? && why.diagnosis.Some?
      && exists k :: DiagnosedExactly(s, entries, s1, why.diagnosis.value, k)
    else s1.dir == s.dir && Leftovers(why) == [] && !(why.CommitRejected? && why.diagnosis.Some?)
  }

  lemma SilentRefusal(s: Server, entries: seq<NewEntry>, rc: nat)
    ensures var (s1, d) := Diagnosed(s, entries);
            var why := CommitRejected(rc, "", Dns(entries), Some(d));
            LeavesReported(s.dir, s1.dir, entries, why) && LeftByRefusal(s, entries, true, s1, why)
  {
    DiagnosisNames(s, entries);
    var k := DiagnosisReports(s, entries);
  }

  lemma CommittedRefused(s: Server, entries: seq<NewEntry>, after: Server)
    requires s.txn == Some(entries) && after == Server(s.dir, s.clock, Later(s.answers, 1), None)
    requires NextAnswer(s).Deny? || NextAnswer(s).Drop? || (NextAnswer(s).Evaluate? && !AllNew(s.dir, entries))
    ensures var (s1, r) := Committed(s, entries);
            var a := NextAnswer(s);
            && r.WriteError? && LeavesReported(s.dir, s1.dir, entries, r.why)
            && LeftByRefusal(after, entries, if a.Deny? then a.text == "" else a.Evaluate?, s1, r.why)
  {
    CommitOutcome(s, entries);
    LaterStep(s, 0);
    var (s1, ended) := ServerEndTxn(s, true);
    if ended.Reply? && ended.text == "" {
      assert s1 == after;
      SilentRefusal(after, entries, ended.rc);
    }
  }

  lemma CommittedOutcome(s: Server, entries: seq<NewEntry>, after: Server)
    requires s.txn == Some(entries) && after == Server(s.dir, s.clock, Later(s.answers, 1), None)
    ensures var (s1, r) := Committed(s, entries);
            var a := NextAnswer(s);
            && !r.WriteConflict?
            && (r.WriteOk? <==> a.Evaluate? && AllNew(s.dir, entries))
            && (r.WriteOk? ==> AllCreated(s.dir, s1.dir, entries) && r.dn == LastDn(entries))
            && (a.LostReply? ==>
                  && r == WriteError(Transport)
                  && if AllNew(s.dir, entries) then AllCreated(s.dir, s1.dir, entries) else s1.dir == s.dir)
            && (r.WriteError? && !a.LostReply? ==>
                  && LeavesReported(s.dir, s1.dir, entries, r.why)
                  && LeftByRefusal(after, entries, if a.Deny? then a.text == "" else a.Evaluate?, s1, r.why))
  {
    var a := NextAnswer(s);
    if a.LostReply? || (a.Evaluate? && AllNew(s.dir, entries)) {
      CommitOutcome(s, entries);
    } else {
      CommittedRefused(s, entries, after);
    }
  }

  /** Up to the commit nothing is written; the commit is sent exactly when everything before it was confirmed. */
  lemma BeforeCommit(s: Server, entries: seq<NewEntry>)
    ensures var s2 := Server(s.dir, s.clock, Later(s.answers, |entries| + 1), Some(entries));
            if Confirmed(s, |entries| + 1) then AddAtomic(s, entries) == Committed(s2, entries)
            else
              var (s1, r) := AddAtomic(s, entries);
              s1.dir == s.dir && r.WriteError? && !r.why.CommitRejected?
  {
    LaterStep(s, |entries|);
    var s1 := ServerStartTxn(s).0;
    ConfirmedStep(s, s1, |entries|);
    if NextAnswer(s).Evaluate? {
      QueueAllKeepsDir(s1, entries);
      assert [] + entries == entries;
      LaterTwice(s.answers, 1, |entries|);
    }
  }

  /** All or nothing, for every behaviour of the server. Success means every entry was added and the last one is named.
      When the answer to a commit gets lost everything is there although the request reports a transport error.
      Any other failure leaves the directory as it was, but for entries the response names; and those only after a
      silent refusal, exactly as the diagnosis says. */
  lemma AtomicCreate(s: Server, entries: seq<NewEntry>)
    ensures var (s1, r) := AddAtomic(s, entries);
            && !r.WriteConflict?
            && (r.WriteOk? <==> CommitAnswered(s, entries, false) && AllNew(s.dir, entries))
            && (r.WriteOk? ==> AllCreated(s.dir, s1.dir, entries) && r.dn == LastDn(entries))
            && (CommitAnswered(s, entries, true) ==>
                  && r == WriteError(Transport)
                  && if AllNew(s.dir, entries) then AllCreated(s.dir, s1.dir, entries) else s1.dir == s.dir)
            && (r.WriteError? && !CommitAnswered(s, entries, true) ==>
                  && LeavesReported(s.dir, s1.dir, entries, r.why)
                  && LeftByRefusal(AfterCommit(s, entries), entries, RefusedSilently(s, entries), s1, r.why))
  {
    BeforeCommit(s, entries);
    if Confirmed(s, |entries| + 1) {
      var s2 := Server(s.dir, s.clock, Later(s.answers, |entries| + 1), Some(entries));
      LaterTwice(s.answers, |entries| + 1, 1);
      AnswerLater(s, s2, |entries| + 1, 0);
      LaterStep(s2, 0);
      CommittedOutcome(s2, entries, AfterCommit(s, entries));
    }
  }

  /** So when a create fails and its commit was answered, an entry stays unreported exactly when the commit was refused
      silently, the replay's adds before it were confirmed, it was new as all before it, and the answer to its own
      add got lost. */
  lemma CreateUnreported(s: Server, entries: seq<NewEntry>, dn: string)
    requires AddAtomic(s, entries).1.WriteError? && !CommitAnswered(s, entries, true)
    ensures var (s1, r) := AddAtomic(s, entries);
            var after := AfterCommit(s, entries);
            dn in s1.dir && dn !in s.dir && dn !in Leftovers(r.why) <==>
              RefusedSilently(s, entries) && exists k :: Confirmed(after, k) && Unreported(after, entries, k, dn)
  {
    AtomicCreate(s, entries);
    var (s1, r) := AddAtomic(s, entries);
    var after := AfterCommit(s, entries);
    if RefusedSilently(s, entries) {
      var k :| DiagnosedExactly(after, entries, s1, r.why.diagnosis.value, k);
      UnreportedFrom(after, entries, s1, r.why.diagnosis.value, k, dn);
    }
  }

  lemma StartedThenStops(s: Server, entries: seq<NewEntry>, i: nat)
    requires i < |entries| && Confirmed(s, i + 1) && !AnswerAt(s, i + 1).Evaluate?
    ensures Succeeded(ServerStartTxn(s).1)
    ensures var (s2, failed) := QueueAll(ServerStartTxn(s).0, entries);
            && SameEntries(s, s2) && s2.txn.Some? && s2.answers == Later(s.answers, i + 2)
            && failed == Some((entries[i].dn, Unconfirmed(AnswerAt(s, i + 1))))
  {
    LaterStep(s, 0);
    var s1 := ServerStartTxn(s).0;
    assert AnswerAt(s, 0).Evaluate?;
    ConfirmedStep(s, s1, i);
    AnswerLater(s, s1, 1, i);
    QueueStops(s1, entries, i);
    LaterTwice(s.answers, 1, i + 1);
  }

  lemma GivenUp(s: Server, n: nat, s2: Server)
    requires s2.txn.Some? && s2.answers == Later(s.answers, n)
    ensures var s3 := ServerEndTxn(s2, false).0;
            && SameEntries(s2, s3) && s3.answers == Later(s.answers, n + 1)
            && (!AnswerAt(s, n).Drop? ==> s3.txn == None)
  {
    LaterTwice(s.answers, n, 1);
    AnswerLater(s, s2, n, 0);
    LaterStep(s2, 0);
  }

  /** What is reported when a request before the commit fails, and that the transaction is then given up. */
  lemma CreateRefused(s: Server, entries: seq<NewEntry>, i: nat)
    requires i <= |entries| && Confirmed(s, i) && !AnswerAt(s, i).Evaluate?
    ensures var (s1, r) := AddAtomic(s, entries);
            && SameEntries(s, s1) && s1.answers == Later(s.answers, if i == 0 then 1 else i + 2)
            && (i > 0 && !AnswerAt(s, i + 1).Drop? ==> s1.txn == None)
            && match AnswerAt(s, i)
               case Deny(rc, text) =>
                 r == WriteError(if i == 0 then CodeMessage(rc, text) else EntryRejected(entries[i - 1].dn, rc, text))
               case _ => r == WriteError(Transport)
  {
    if i == 0 {
      LaterStep(s, 0);
    } else {
      StartedThenStops(s, entries, i - 1);
      GivenUp(s, i + 1, QueueAll(ServerStartTxn(s).0, entries).0);
    }
  }

  /** A rejected commit is reported with its code, its text and all entries, and with a diagnosis just when
      the server gave no text. */
  predicate Rejected(r: Response, rc: nat, text: string, entries: seq<NewEntry>) {
    && r.WriteError? && r.why.CommitRejected? && r.why.rc == rc && r.why.text == text
    && |r.why.entries| == |entries| && (forall i :: 0 <= i < |entries| ==> r.why.entries[i] == entries[i].dn)
    && (r.why.diagnosis.Some? <==> text == "")
  }

  /** What is reported once the commit was sent. */
  lemma CommitReported(s: Server, entries: seq<NewEntry>)
    requires Confirmed(s, |entries| + 1)
    ensures var r := AddAtomic(s, entries).1;
            match AnswerAt(s, |entries| + 1)
            case Evaluate(_, _) =>
              if AllNew(s.dir, entries)
              then r == WriteOk(if entries == [] then "" else entries[|entries| - 1].dn, None)
              else Rejected(r, ENTRY_EXISTS, "", entries)
            case Deny(rc, text) => Rejected(r, rc, text, entries)
            case _ => r == WriteError(Transport)
  {
    BeforeCommit(s, entries);
    var s2 := Server(s.dir, s.clock, Later(s.answers, |entries| + 1), Some(entries));
    AnswerLater(s, s2, |entries| + 1, 0);
    AddAllGrew(s.dir, s.clock, entries);
  }

  lemma DiagnosisNames(s: Server, entries: seq<NewEntry>)
    ensures var (s1, d) := Diagnosed(s, entries);
            && Keeps(s.dir, s1.dir)
            && (forall dn :: dn in d.leftovers ==> dn in Dns(entries) && dn !in s.dir)
            && forall dn :: dn in s1.dir && dn !in s.dir ==>
                 dn in Dns(entries) && (dn in d.leftovers || d.culprit == Some((dn, TransportError)))
  {
    var k := DiagnosisReports(s, entries);
    var (s1, d) := Diagnosed(s, entries);
    DnsIn(entries, k);
    AddAllGrew(s.dir, s.clock, entries[..k]);
    forall dn | dn in s1.dir && dn !in s.dir
      ensures dn in Dns(entries) && (dn in d.leftovers || d.culprit == Some((dn, TransportError)))
    {
      if dn in Dns(entries[..k]) {
        var i :| 0 <= i < k && Dns(entries[..k])[i] == dn;
        assert OneDiagnosed(s, entries, s1.dir, d.leftovers, k, i);
      } else {
        assert Unreported(s, entries, k, dn);
        assert Dns(entries)[k] == dn;
      }
    }
  }

  lemma DnsIn(entries: seq<NewEntry>, k: nat)
    requires k <= |entries|
    ensures forall dn :: dn in Dns(entries[..k]) ==> dn in Dns(entries)
  {
    forall i | 0 <= i < k ensures Dns(entries[..k])[i] in Dns(entries) {
      assert Dns(entries)[i] == Dns(entries[..k])[i];
    }
  }

  lemma CommitOutcome(s: Server, entries: seq<NewEntry>)
    requires s.txn == Some(entries)
    ensures var (s1, ended) := ServerEndTxn(s, true);
            && (Succeeded(ended) <==> NextAnswer(s).Evaluate? && AllNew(s.dir, entries))
            && (ended.TransportError? <==> NextAnswer(s).Drop? || NextAnswer(s).LostReply?)
            && if (NextAnswer(s).Evaluate? || NextAnswer(s).LostReply?) && AllNew(s.dir, entries)
               then AllCreated(s.dir, s1.dir, entries) else s1.dir == s.dir
  {
    AddAllGrew(s.dir, s.clock, entries);
  }

  /** A run in which that happens: the replay's add takes effect, its answer is lost, and nobody cleans up. */
  lemma LostReplyHidesLeftover(e: NewEntry)
    ensures var s := Server(map[], 0, [Evaluate(0, false), Evaluate(0, false), Deny(19, ""), LostReply], None);
            var (s1, r) := AddAtomic(s, [e]);
            r.WriteError? && Leftovers(r.why) == [] && e.dn in s1.dir
  {
    var s := Server(map[], 0, [Evaluate(0, false), Evaluate(0, false), Deny(19, ""), LostReply], None);
    var s1 := ServerStartTxn(s).0;
    assert s1 == Server(map[], 0, [Evaluate(0, false), Deny(19, ""), LostReply], Some([]));
    var s2 := QueueAll(s1, [e]).0;
    assert [] + [e] == [e];
    assert ServerTxnAdd(s1, e) == (Server(map[], 0, [Deny(19, ""), LostReply], Some([e])), Reply(0, "", []));
    assert QueueAll(s1, [e]) == (Server(map[], 0, [Deny(19, ""), LostReply], Some([e])), None);
    var s3 := ServerEndTxn(s2, true).0;
    assert s3 == Server(map[], 0, [LostReply], None);
    var added := Stamp(Server(map[], 0, [], None), e.dn, StoredOf(e.attrs));
    assert ServerAdd(s3, e) == (added, TransportError);
    assert Replay(s3, [e], []) == Replayed(added, [], Some((e.dn, TransportError)));
  }
}
