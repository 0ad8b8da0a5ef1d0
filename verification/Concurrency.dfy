/** Optimistic concurrency over whole runs: clients read, edit and save with the `entryCSN`
    assertion (`ldap/worker.rs`, `form/changeset.rs`) while anybody else writes at any time. */
module Concurrency {
  import opened Text
  import opened Tables
  import opened ChangeSets
  import opened EntryServer
  import opened SavePath
  import opened Worker

  /** A client editing `dn`: the version it read (or last wrote) and that version's CSN. */
  datatype Client = Idle | Editing(dn: string, base: EditEntry, csn: Csn)

  datatype World = World(server: Server, clients: map<nat, Client>)

  datatype Event =
    | Read(client: nat, dn: string, shown: Table<Values>)
    | Save(client: nat, edited: Table<Values>, xOrdered: set<string>, answer: Answer)
    | Remove(client: nat, answer: Answer)
    | OtherWrite(dn: string, written: Option<Stored>)  // any other writer; None deletes

  function ClientOf(w: World, c: nat): Client {
    if c in w.clients then w.clients[c] else Idle
  }

  /** The attribute changes a save sends; renames are not part of this protocol. */
  function SentMods(base: EditEntry, edited: Table<Values>, x: set<string>): Option<seq<ModOp>> {
    match Diffed(base, edited, x)
    case Err(_) => None
    case Ok(cs) => match PlanSave(cs) case ModifyOnly(mods) => Some(mods) case _ => None
  }

  function WithAnswer(s: Server, a: Answer): Server {
    s.(answers := [a])
  }

  /** After a success the form's baseline is the written state with its Post-Read CSN;
      without one the entry has to be read again. */
  function AfterSave(k: Client, edited: Table<Values>, r: Response): Client
    requires k.Editing?
  {
    match r
    case WriteOk(_, Some(csn)) => Editing(k.dn, k.base.(attrs := edited), csn)
    case WriteOk(_, None) => Idle
    case _ => k
  }

  ghost function Step(w: World, ev: Event): (World, Option<Response>) {
    match ev
    case Read(c, dn, shown) =>
      if dn in w.server.dir && Shows(w.server.dir[dn].attrs, shown) then
        (World(w.server, w.clients[c := Editing(dn, EditEntry(dn, shown), w.server.dir[dn].csn)]), None)
      else (w, None)
    case Save(c, edited, x, a) =>
      var k := ClientOf(w, c);
      if k.Editing? && SentMods(k.base, edited, x).Some? then
        var (s, r) := Modified(WithAnswer(w.server, a), k.dn, SentMods(k.base, edited, x).value, Some(k.csn));
        (World(s, w.clients[c := AfterSave(k, edited, r)]), Some(r))
      else (w, None)
    case Remove(c, a) =>
      var k := ClientOf(w, c);
      if k.Editing? then
        var (s, r) := Deleted(WithAnswer(w.server, a), k.dn, Some(k.csn));
        (World(s, w.clients[c := if r.WriteOk? then Idle else k]), Some(r))
      else (w, None)
    case OtherWrite(dn, Some(attrs)) => (World(Stamp(w.server, dn, attrs), w.clients), None)
    case OtherWrite(dn, None) => (World(w.server.(dir := w.server.dir - {dn}), w.clients), None)
  }

  ghost function After(w: World, events: seq<Event>, n: nat): World
    requires n <= |events|
  {
    if n == 0 then w else Step(After(w, events, n - 1), events[n - 1]).0
  }

  // ----- the invariant -----

  /** If the entry still carries the client's CSN, it still is what the client read. */
  ghost predicate BaselineSound(s: Server, k: Client) {
    k.Editing? ==>
      && k.csn <= s.clock
      && (k.dn in s.dir && s.dir[k.dn].csn == k.csn ==> Shows(s.dir[k.dn].attrs, k.base.attrs))
  }

  ghost predicate Inv(w: World) {
    && (forall dn :: dn in w.server.dir ==> w.server.dir[dn].csn <= w.server.clock)
    && forall c: nat :: BaselineSound(w.server, ClientOf(w, c))
  }

  /** How one step may change the directory: untouched names keep their version,
      and every new version carries a fresh CSN. */
  predicate Advances(s: Server, t: Server) {
    && s.clock <= t.clock
    && forall dn :: dn in t.dir ==> (dn in s.dir && t.dir[dn] == s.dir[dn]) || s.clock < t.dir[dn].csn <= t.clock
  }

  /** What a save does and tells its client. It is sent when there is something to change without a rename. A conflict
      is reported exactly when somebody else has written the entry since, success exactly when nobody has and the edit
      keeps the naming value; success changed exactly the version the client had, into exactly the edited values, and
      comes with the CSN of the state just written if the server sends it. Any other outcome changed nothing, unless
      the success itself got lost on the way back. */
  ghost predicate SaveSound(w: World, ev: Event)
    requires ev.Save?
  {
    var k := ClientOf(w, ev.client);
    var (w1, r) := Step(w, ev);
    && (r.Some? <==> k.Editing? && SentMods(k.base, ev.edited, ev.xOrdered).Some?)
    && (r.None? ==> w1 == w)
    && (r.Some? ==>
          && (r.value.WriteConflict? <==> Overtakes(w.server, k.dn, k.csn, ev.answer))
          && (r.value.WriteOk? <==>
                ev.answer.Evaluate? && At(w.server, k.dn, k.csn)
                && NamingOf(k.dn).value in Vals(ev.edited, NamingOf(k.dn).attr))
          && (if r.value.WriteOk? then
                && r.value.dn == k.dn && Saved(w, w1, k, ev.edited)
                && r.value.newCsn == (if ev.answer.sendPostRead then Some(w1.server.dir[k.dn].csn) else None)
                && (ev.answer.sendPostRead ==>
                      ClientOf(w1, ev.client) == Editing(k.dn, k.base.(attrs := ev.edited), w1.server.dir[k.dn].csn))
              else
                w1.server.dir == w.server.dir || (ev.answer == LostReply && Saved(w, w1, k, ev.edited))))
  }

  /** The server finds another version than the client's, or says so of its own accord. */
  predicate Overtakes(s: Server, dn: string, csn: Csn, a: Answer) {
    match a
    case Evaluate(_, _) => dn in s.dir && s.dir[dn].csn != csn
    case Deny(rc, _) => rc == 122
    case _ => false
  }

  /** The version the client had was replaced by the edited one, and nothing else was touched. */
  ghost predicate Saved(w: World, w1: World, k: Client, edited: Table<Values>)
    requires k.Editing?
  {
    && At(w.server, k.dn, k.csn) && Shows(w.server.dir[k.dn].attrs, k.base.attrs)
    && k.dn in w1.server.dir && Shows(w1.server.dir[k.dn].attrs, edited)
    && w1.server.dir == w.server.dir[k.dn := w1.server.dir[k.dn]]
  }

  predicate At(s: Server, dn: string, csn: Csn) {
    dn in s.dir && s.dir[dn].csn == csn
  }

  /** A run may start from any directory, with nobody editing yet. */
  lemma AnyStartHolds(server: Server)
    requires forall dn :: dn in server.dir ==> server.dir[dn].csn <= server.clock
    ensures Inv(World(server, map[]))
  {
  }

  lemma SaveOutcome(w: World, ev: Event)
    requires Inv(w) && ev.Save?
    ensures SaveSound(w, ev) && Advances(w.server, Step(w, ev).0.server)
  {
    var k := ClientOf(w, ev.client);
    if k.Editing? && SentMods(k.base, ev.edited, ev.xOrdered).Some? {
      var s := WithAnswer(w.server, ev.answer);
      AssertedModify(s, k.dn, SentMods(k.base, ev.edited, ev.xOrdered).value, Some(k.csn));
      assert BaselineSound(w.server, k);
      if At(s, k.dn, k.csn) {
        ModifyRealisesEdit(s.dir[k.dn].attrs, NamingOf(k.dn), k.base, ev.edited, ev.xOrdered);
      }
    }
  }

  lemma AdvanceKeepsBaseline(s: Server, t: Server, k: Client)
    requires Advances(s, t) && BaselineSound(s, k)
    ensures BaselineSound(t, k)
  {
  }

  lemma StepAdvances(w: World, ev: Event)
    requires Inv(w)
    ensures Advances(w.server, Step(w, ev).0.server)
  {
    if ev.Save? {
      SaveOutcome(w, ev);
    }
  }

  /** Every step keeps every client's baseline sound, including the one a save installs. */
  lemma StepKeepsInv(w: World, ev: Event)
    requires Inv(w)
    ensures Inv(Step(w, ev).0)
  {
    StepAdvances(w, ev);
    var w1 := Step(w, ev).0;
    forall c: nat ensures BaselineSound(w1.server, ClientOf(w1, c)) {
      assert BaselineSound(w.server, ClientOf(w, c));
      if ClientOf(w1, c) == ClientOf(w, c) {
        AdvanceKeepsBaseline(w.server, w1.server, ClientOf(w, c));
      } else if ev.Save? {
        SaveOutcome(w, ev);
      }
    }
  }

  lemma {:induction false} RunKeepsInv(w: World, events: seq<Event>, n: nat)
    requires Inv(w) && n <= |events|
    ensures Inv(After(w, events, n))
  {
    if n > 0 {
      RunKeepsInv(w, events, n - 1);
      StepKeepsInv(After(w, events, n - 1), events[n - 1]);
    }
  }

  // ----- whole runs -----

  /** No lost update: every save of every run is sound. */
  lemma NoLostUpdate(w: World, events: seq<Event>, i: nat)
    requires Inv(w) && i < |events| && events[i].Save?
    ensures SaveSound(After(w, events, i), events[i])
  {
    RunKeepsInv(w, events, i);
    SaveOutcome(After(w, events, i), events[i]);
  }

  /** An asserted delete removes the very version the client had, or nothing. A conflict is reported exactly when
      somebody else has written the entry since. */
  lemma RemovedAsRead(w: World, events: seq<Event>, i: nat)
    requires Inv(w) && i < |events| && events[i].Remove?
    ensures var before, after := After(w, events, i), After(w, events, i + 1);
            var k, a := ClientOf(before, events[i].client), events[i].answer;
            var r := Step(before, events[i]).1;
            && (r.Some? <==> k.Editing?) && (r.None? ==> after == before)
            && (r.Some? ==>
                  && (r.value.WriteConflict? <==> Overtakes(before.server, k.dn, k.csn, a))
                  && (r.value.WriteOk? <==> a.Evaluate? && At(before.server, k.dn, k.csn))
                  && (r.value.WriteOk? || (a == LostReply && At(before.server, k.dn, k.csn)) ==>
                        Shows(before.server.dir[k.dn].attrs, k.base.attrs)
                        && after.server.dir == before.server.dir - {k.dn})
                  && (!r.value.WriteOk? && !(a == LostReply && At(before.server, k.dn, k.csn)) ==>
                        after.server.dir == before.server.dir))
  {
    RunKeepsInv(w, events, i);
    var before := After(w, events, i);
    var k := ClientOf(before, events[i].client);
    assert BaselineSound(before.server, k);
    if k.Editing? { AssertedDelete(WithAnswer(before.server, events[i].answer), k.dn, Some(k.csn)); }
  }

  /** A version that is gone never comes back. */
  lemma {:induction false} GoneStaysGone(w: World, events: seq<Event>, m: nat, n: nat, dn: string, csn: Csn)
    requires Inv(w) && m <= n <= |events|
    requires csn <= After(w, events, m).server.clock && !At(After(w, events, m).server, dn, csn)
    ensures csn <= After(w, events, n).server.clock && !At(After(w, events, n).server, dn, csn)
    decreases n - m
  {
    if m < n {
      RunKeepsInv(w, events, m);
      StepAdvances(After(w, events, m), events[m]);
      GoneStaysGone(w, events, m + 1, n, dn, csn);
    }
  }

  lemma StillThatVersion(s: Server, t: Server, dn: string)
    requires Advances(s, t) && dn in s.dir && s.dir[dn].csn <= s.clock && At(t, dn, s.dir[dn].csn)
    ensures t.dir[dn] == s.dir[dn]
  {
  }

  /** One step of a run, for an entry that still has its CSN at the end. */
  lemma StepUntouched(w: World, events: seq<Event>, m: nat, n: nat, dn: string)
    requires Inv(w) && m < n <= |events| && dn in After(w, events, m).server.dir
    requires At(After(w, events, n).server, dn, After(w, events, m).server.dir[dn].csn)
    ensures dn in After(w, events, m + 1).server.dir
    ensures After(w, events, m + 1).server.dir[dn] == After(w, events, m).server.dir[dn]
  {
    var s, t := After(w, events, m).server, After(w, events, m + 1).server;
    RunKeepsInv(w, events, m);
    StepAdvances(After(w, events, m), events[m]);
    if !At(t, dn, s.dir[dn].csn) {
      GoneStaysGone(w, events, m + 1, n, dn, s.dir[dn].csn);
    }
    StillThatVersion(s, t, dn);
  }

  /** If an entry carries the same CSN at two moments of a run, nobody wrote it in between. */
  lemma {:induction false} SameCsnMeansUntouched(w: World, events: seq<Event>, m: nat, j: nat, n: nat, dn: string)
    requires Inv(w) && m <= j <= n <= |events|
    requires dn in After(w, events, m).server.dir
    requires At(After(w, events, n).server, dn, After(w, events, m).server.dir[dn].csn)
    ensures dn in After(w, events, j).server.dir
    ensures After(w, events, j).server.dir[dn] == After(w, events, m).server.dir[dn]
    decreases j - m
  {
    if m < j {
      StepUntouched(w, events, m, n, dn);
      SameCsnMeansUntouched(w, events, m + 1, j, n, dn);
    }
  }

  predicate IsBy(ev: Event, c: nat) {
    !ev.OtherWrite? && ev.client == c
  }

  lemma {:induction false} ClientUntouched(w: World, events: seq<Event>, m: nat, n: nat, c: nat)
    requires m <= n <= |events|
    requires forall q :: m <= q < n ==> !IsBy(events[q], c)
    ensures ClientOf(After(w, events, n), c) == ClientOf(After(w, events, m), c)
    decreases n - m
  {
    if m < n {
      ClientUntouched(w, events, m, n - 1, c);
    }
  }

  /** From the moment a client reads an entry until its save succeeds, nobody wrote that entry. */
  lemma NothingBetweenReadAndSave(w: World, events: seq<Event>, m: nat, n: nat, j: nat)
    requires Inv(w) && m <= j <= n < |events|
    requires events[m].Read? && events[n].Save? && events[m].client == events[n].client
    requires events[m].dn in After(w, events, m).server.dir
    requires Shows(After(w, events, m).server.dir[events[m].dn].attrs, events[m].shown)
    requires forall q :: m < q < n ==> !IsBy(events[q], events[m].client)
    requires Step(After(w, events, n), events[n]).1.Some? && Step(After(w, events, n), events[n]).1.value.WriteOk?
    ensures var dn := events[m].dn;
            && dn in After(w, events, j).server.dir
            && After(w, events, j).server.dir[dn] == After(w, events, m).server.dir[dn]
  {
    var dn := events[m].dn;
    assert m < n;
    ClientUntouched(w, events, m + 1, n, events[m].client);
    assert ClientOf(After(w, events, n), events[m].client).csn == After(w, events, m).server.dir[dn].csn;
    NoLostUpdate(w, events, n);
    SameCsnMeansUntouched(w, events, m, j, n, dn);
  }

  /** Without the assertion nothing protects the other writer: a blind save succeeds on
      whatever version the entry has by then. */
  lemma BlindSaveOverwrites(s: Server, dn: string, attr: string, values: Values)
    requires dn in s.dir && NextAnswer(s).Evaluate? && !EqCi(attr, NamingOf(dn).attr)
    requires NamingOf(dn).value in Get(s.dir[dn].attrs, NamingOf(dn).attr)
    ensures var (s1, r) := Modified(s, dn, [Replace(attr, values)], None);
            r == WriteOk(dn, None) && dn in s1.dir && Get(s1.dir[dn].attrs, attr) == SetOf(values)
  {
    var st := s.dir[dn].attrs;
    assert Wire([Replace(attr, values)]) == [ModReplace(attr, SetOf(values))];
    OneModSets(st, attr, ModReplace(attr, SetOf(values)), SetOf(values));
    assert EqCi(attr, attr);
  }
}
