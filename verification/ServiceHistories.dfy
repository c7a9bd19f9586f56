/** Whole histories of service calls are runs of the protocol, so the protocol's invariants hold of them. */
module ServiceHistories {
  import opened Model
  import opened Protocol
  import opened ProtocolInvariant
  import opened Services
  import opened ServiceRuns
  import Cascades

  datatype Call =
    | CreateKeyCall(id: KeyId, input: KeyInput)
    | RevokeKeyCall(id: KeyId)
    | RotateKeyCall(id: KeyId)
    | DeleteKeyCall(id: KeyId)
    | DisableUserCall(user: UserId)
    | DeleteUserCall(user: UserId)
    | TickCall(usersNow: int, keysNow: int)

  function Serve(cfg: Config, env: Env, d: Data, call: Call): Data {
    match call
    case CreateKeyCall(id, input) => Services.Create(cfg, env, d, id, input).0
    case RevokeKeyCall(id) => Services.Revoke(cfg, env, d, id).0
    case RotateKeyCall(id) => Services.Rotate(cfg, env, d, id).0
    case DeleteKeyCall(id) => Services.Delete(cfg, env, d, id).0
    case DisableUserCall(user) => Disable(cfg, env, d, user).0
    case DeleteUserCall(user) => DeleteUser(cfg, env, d, user).0
    case TickCall(usersNow, keysNow) => Tick(cfg, env, d, usersNow, keysNow).0
  }

  function History(cfg: Config, env: Env, d: Data, calls: seq<Call>): Data
    decreases |calls|
  {
    if calls == [] then d else History(cfg, env, Serve(cfg, env, d, calls[0]), calls[1..])
  }

  /** The identifiers the database will give to new rows. */
  function NewIds(calls: seq<Call>): set<KeyId> { set c | c in calls && c.CreateKeyCall? :: c.id }

  /** Row identifiers are generated once. */
  predicate FreshIds(calls: seq<Call>) {
    forall i, j :: 0 <= i < j < |calls| && calls[i].CreateKeyCall? && calls[j].CreateKeyCall?
                   ==> calls[i].id != calls[j].id
  }

  /** From `w`, with nothing in flight, some run ends with nothing in flight and the data of `d`. */
  ghost predicate Leads(cfg: Config, w: World, d: Data, reserved: set<OpId>) {
    exists es: seq<Event> :: Arrived(Run(cfg, w, es), d, reserved)
  }

  /** The data of `d`, nothing in flight, and the reserved identifiers still unused. */
  predicate Arrived(w: World, d: Data, reserved: set<OpId>) {
    Matches(d, w) && w.ops == map[] && reserved !! w.done.Keys
  }

  lemma {:induction false} UnusedId(used: set<nat>) returns (o: nat)
    ensures o !in used && forall x :: x in used ==> x < o
  {
    if used == {} {
      o := 0;
    } else {
      var x :| x in used;
      var p := UnusedId(used - {x});
      o := if p > x then p else x + 1;
      assert forall y :: y in used ==> y == x || y in used - {x};
    }
  }

  lemma LeadsNowhere(cfg: Config, w: World, d: Data, reserved: set<OpId>)
    requires Arrived(w, d, reserved)
    ensures Leads(cfg, w, d, reserved)
  {
    assert Run(cfg, w, []) == w;
  }

  lemma RunLeads(cfg: Config, w: World, o: OpId, d: Data, ok: bool, reserved: set<OpId>)
    requires w.ops == map[] && reserved !! w.done.Keys && o !in reserved
    requires exists request :: IsRun(cfg, w, o, request, d, ok)
    ensures Leads(cfg, w, d, reserved)
  {
    hide Run;
    var request :| IsRun(cfg, w, o, request, d, ok);
    var es: seq<Event> :| Served(w, Run(cfg, w, es), o, d, ok);
    var w1 := Run(cfg, w, es);
    assert forall p :: p in reserved ==> p !in w1.done;
    assert Arrived(w1, d, reserved);
  }

  lemma LeadsOn(cfg: Config, w: World, es: seq<Event>, d: Data, reserved: set<OpId>)
    requires Leads(cfg, Run(cfg, w, es), d, reserved)
    ensures Leads(cfg, w, d, reserved)
  {
    var fs: seq<Event> :| Arrived(Run(cfg, Run(cfg, w, es), fs), d, reserved);
    RunSplit(cfg, w, es, fs);
  }

  lemma LeadsWithData(cfg: Config, w: World, d: Data, e: Data, reserved: set<OpId>)
    requires Leads(cfg, w, d, reserved) && e.keys == d.keys && e.remote == d.remote
    ensures Leads(cfg, w, e, reserved)
  {
    var es: seq<Event> :| Arrived(Run(cfg, w, es), d, reserved);
    assert Arrived(Run(cfg, w, es), e, reserved);
  }

  lemma CascadeLeads(cfg: Config, env: Env, d: Data, user: UserId, w: World, reserved: set<OpId>)
    requires Arrived(w, d, reserved)
    ensures Leads(cfg, w, RevokeAllAccess(cfg, env, d, user).0, reserved)
  {
    hide RevokeAllAccess, IsRun, Leads;
    var o := UnusedId(w.done.Keys + reserved);
    CascadeIsRun(cfg, env, d, user, w, o);
    var (d1, ok) := RevokeAllAccess(cfg, env, d, user);
    RunLeads(cfg, w, o, d1, ok, reserved);
  }

  lemma {:induction false} ExpireLeads(cfg: Config, env: Env, d: Data, todo: seq<UserId>, read: map<UserId, User>,
                                       w: World, reserved: set<OpId>)
    requires Arrived(w, d, reserved) && forall u :: u in todo ==> u in read
    ensures Leads(cfg, w, ExpireUsers(cfg, env, d, todo, read).0, reserved)
    decreases |todo|
  {
    hide RevokeAllAccess, Run;
    if todo == [] {
      LeadsNowhere(cfg, w, d, reserved);
    } else {
      var (d1, saved) := SaveUser(env, d, todo[0], read[todo[0]].(status := UserExpired));
      if !saved {
        LeadsNowhere(cfg, w, d1, reserved);
      } else {
        CascadeLeads(cfg, env, d1, todo[0], w, reserved);
        var (d2, revoked) := RevokeAllAccess(cfg, env, d1, todo[0]);
        if revoked {
          var es: seq<Event> :| Arrived(Run(cfg, w, es), d2, reserved);
          ExpireLeads(cfg, env, d2, todo[1..], read, Run(cfg, w, es), reserved);
          LeadsOn(cfg, w, es, ExpireUsers(cfg, env, d2, todo[1..], read).0, reserved);
        }
      }
    }
  }

  lemma TickLeads(cfg: Config, env: Env, d: Data, usersNow: int, keysNow: int, w: World, reserved: set<OpId>)
    requires Arrived(w, d, reserved)
    ensures Leads(cfg, w, Tick(cfg, env, d, usersNow, keysNow).0, reserved)
  {
    hide ExpireUsers, SweepKeys, Run, IsRun;
    var (d0, read) := Read(env, d);
    var (d1, users) := SweepUsers(cfg, env, d, usersNow);
    if read {
      ExpireLeads(cfg, env, d0, LapsedUsers(d0.users, usersNow, env(d.calls).rank), d0.users, w, reserved);
    } else {
      LeadsNowhere(cfg, w, d1, reserved);
    }
    var es: seq<Event> :| Arrived(Run(cfg, w, es), d1, reserved);
    var w1 := Run(cfg, w, es);
    var o := UnusedId(w1.done.Keys + reserved);
    SweepKeysIsRun(cfg, env, d1, keysNow, w1, o);
    var (d2, keys) := SweepKeys(cfg, env, d1, keysNow);
    RunLeads(cfg, w1, o, d2, keys.Some?, reserved);
    LeadsOn(cfg, w, es, d2, reserved);
  }

  lemma UserCallLeads(cfg: Config, env: Env, d: Data, call: Call, w: World, reserved: set<OpId>)
    requires Arrived(w, d, reserved) && (call.DisableUserCall? || call.DeleteUserCall?)
    ensures Leads(cfg, w, Serve(cfg, env, d, call), reserved)
  {
    hide RevokeAllAccess, Leads;
    var (d1, read) := Read(env, d);
    LeadsNowhere(cfg, w, d1, reserved);
    if read && Known(d1, call.user) {
      if call.DisableUserCall? {
        var (d2, saved) := SaveUser(env, d1, call.user, d1.users[call.user].(status := UserDisabled));
        LeadsNowhere(cfg, w, d2, reserved);
        CascadeLeads(cfg, env, d2, call.user, w, reserved);
      } else {
        CascadeLeads(cfg, env, d1, call.user, w, reserved);
        LeadsWithData(cfg, w, RevokeAllAccess(cfg, env, d1, call.user).0, Serve(cfg, env, d, call), reserved);
      }
    }
  }

  lemma KeyCallLeads(cfg: Config, env: Env, d: Data, call: Call, w: World, reserved: set<OpId>)
    requires Arrived(w, d, reserved)
    requires call.CreateKeyCall? || call.RevokeKeyCall? || call.RotateKeyCall? || call.DeleteKeyCall?
    requires call.CreateKeyCall? ==> call.id !in w.done && call.id !in reserved
    ensures Leads(cfg, w, Serve(cfg, env, d, call), reserved)
  {
    hide Services.Create, Services.Revoke, Services.Rotate, Services.Delete, IsRun, Leads;
    var o := UnusedId(w.done.Keys + reserved);
    match call {
      case CreateKeyCall(id, input) =>
        CreateIsRun(cfg, env, d, input, w, id);
        var (d1, ok) := Services.Create(cfg, env, d, id, input);
        RunLeads(cfg, w, id, d1, ok, reserved);
      case RevokeKeyCall(id) =>
        RevokeIsRun(cfg, env, d, id, w, o);
        var (d1, ok) := Services.Revoke(cfg, env, d, id);
        RunLeads(cfg, w, o, d1, ok, reserved);
      case RotateKeyCall(id) =>
        RotateIsRun(cfg, env, d, id, w, o);
        var (d1, ok) := Services.Rotate(cfg, env, d, id);
        RunLeads(cfg, w, o, d1, ok, reserved);
      case DeleteKeyCall(id) =>
        DeleteIsRun(cfg, env, d, id, w, o);
        var (d1, ok) := Services.Delete(cfg, env, d, id);
        RunLeads(cfg, w, o, d1, ok, reserved);
      case _ =>
    }
  }

  /** Every history of service calls, under any faults, is a run of the protocol. */
  lemma {:induction false} HistoryIsRun(cfg: Config, env: Env, d: Data, calls: seq<Call>, w: World)
    requires FreshIds(calls) && Arrived(w, d, NewIds(calls))
    ensures Leads(cfg, w, History(cfg, env, d, calls), {})
    decreases |calls|
  {
    hide Serve, Run;
    if calls == [] {
      LeadsNowhere(cfg, w, d, {});
    } else {
      var rest := NewIds(calls[1..]);
      LaterIds(calls);
      match calls[0] {
        case TickCall(usersNow, keysNow) => TickCallLeads(cfg, env, d, usersNow, keysNow, w, rest);
        case DisableUserCall(_) => UserCallLeads(cfg, env, d, calls[0], w, rest);
        case DeleteUserCall(_) => UserCallLeads(cfg, env, d, calls[0], w, rest);
        case _ => KeyCallLeads(cfg, env, d, calls[0], w, rest);
      }
      var d1 := Serve(cfg, env, d, calls[0]);
      var es: seq<Event> :| Arrived(Run(cfg, w, es), d1, rest);
      HistoryIsRun(cfg, env, d1, calls[1..], Run(cfg, w, es));
      LeadsOn(cfg, w, es, History(cfg, env, d1, calls[1..]), {});
    }
  }

  lemma TickCallLeads(cfg: Config, env: Env, d: Data, usersNow: int, keysNow: int, w: World, reserved: set<OpId>)
    requires Arrived(w, d, reserved)
    ensures Leads(cfg, w, Serve(cfg, env, d, TickCall(usersNow, keysNow)), reserved)
  {
    hide Leads, Tick;
    TickLeads(cfg, env, d, usersNow, keysNow, w, reserved);
  }

  lemma LaterIds(calls: seq<Call>)
    requires calls != [] && FreshIds(calls)
    ensures FreshIds(calls[1..]) && NewIds(calls[1..]) <= NewIds(calls)
    ensures calls[0].CreateKeyCall? ==> calls[0].id in NewIds(calls) && calls[0].id !in NewIds(calls[1..])
  {
    assert calls[0] in calls && forall c :: c in calls[1..] ==> c in calls;
    forall c | c in calls[1..] && c.CreateKeyCall? && calls[0].CreateKeyCall? ensures c.id != calls[0].id {
      var i :| 0 <= i < |calls[1..]| && calls[1..][i] == c;
      assert calls[i + 1] == c;
    }
  }

  /** A control plane and data plane without keys. */
  predicate Empty(d: Data) { d.keys == map[] && d.remote == Remote({}, [], []) }

  /**
   So after any history, whatever failed: references are unique, a row that is not ACTIVE has no
   working key, and every row describes the credential issued under its reference.
   */
  lemma HistoriesAreSafe(cfg: Config, env: Env, d: Data, calls: seq<Call>)
    requires cfg.box.Lawful() && FreshIds(calls) && Empty(d)
    ensures var e := History(cfg, env, d, calls);
            && Cascades.UniqueRefs(e.keys)
            && forall id :: id in e.keys ==>
                 && (e.keys[id].status != Active ==> e.keys[id].ref !in e.remote.live)
                 && e.keys[id].ref < |e.remote.issued|
                 && Describes(cfg.box, e.keys[id], e.remote.issued[e.keys[id].ref])
  {
    hide History, Run;
    HistoryIsRun(cfg, env, d, calls, INIT);
    var e := History(cfg, env, d, calls);
    var es: seq<Event> :| Arrived(Run(cfg, INIT, es), e, {});
    var w := Run(cfg, INIT, es);
    RunKeeps(cfg, INIT, es);
    forall x, y | x in e.keys && y in e.keys && e.keys[x].ref == e.keys[y].ref ensures x == y {
      OneOwner(cfg, w, x, y);
    }
    forall id | id in e.keys ensures SnapOk(cfg, w, Snap(id, w.keys[id])) {
    }
  }
}
