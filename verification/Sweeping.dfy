/** The expiration ticker: what one tick computes, and what interrupted sweeps leave behind. */
module Sweeping {
  import opened Model
  import opened Services
  import opened Cascades
  import opened Disabling

  // The key sweep.

  function OverdueIds(keys: map<KeyId, Key>, now: int): set<KeyId> {
    set id | id in keys && Overdue(keys[id], now)
  }

  function KeysExpired(d: Data, now: int): Data {
    d.(keys := Marked(d.keys, OverdueIds(d.keys, now), Expired),
       remote := d.remote.(live := d.remote.live - RefsOf(d.keys, OverdueIds(d.keys, now))))
  }

  lemma SweepBatch(keys: map<KeyId, Key>, now: int, rank: nat -> nat)
    ensures var todo := OverdueKeys(keys, now, rank);
            && Batch(keys, todo) && Ids(todo) == OverdueIds(keys, now) && |todo| == |OverdueIds(keys, now)|
            && Refs(todo) == RefsOf(keys, OverdueIds(keys, now))
  {
    var todo := OverdueKeys(keys, now, rank);
    SweepIsBatch(keys, now, rank);
    SweepReads(keys, now, rank);
    forall id | id in OverdueIds(keys, now) ensures id in Ids(todo) && keys[id].ref in Refs(todo) {
      assert Snap(id, keys[id]) in todo;
    }
  }

  /**
   An interrupted key sweep leaves a processed prefix of its batch, plus at most one key deleted on
   the provider whose row still says ACTIVE; a successful one has processed everything.
   */
  lemma SweepKeysProgress(cfg: Config, env: Env, d: Data, now: int)
    ensures var (e, count) := SweepKeys(cfg, env, d, now);
            && (e.users, e.devices, e.servers, e.remote.issued) == (d.users, d.devices, d.servers, d.remote.issued)
            && (count.Some? ==> Same(e, KeysExpired(d, now)) && count.value == |OverdueIds(d.keys, now)|)
            && exists todo, recorded: nat, deleted: nat ::
                 && Batch(d.keys, todo) && Ids(todo) == OverdueIds(d.keys, now)
                 && recorded <= deleted <= |todo| && deleted <= recorded + 1
                 && e.keys == Marked(d.keys, Ids(todo[..recorded]), Expired)
                 && e.remote.live == d.remote.live - Refs(todo[..deleted])
  {
    hide OverdueKeys, RetireAll, Batch;
    var todo := OverdueKeys(d.keys, now, env(d.calls).rank);
    SweepBatch(d.keys, now, env(d.calls).rank);
    var (d1, read) := Read(env, d);
    var e := SweepKeys(cfg, env, d, now).0;
    if read {
      var recorded, deleted := RetireAllProgress(cfg, env, d1, todo, Expired);
      assert todo[..|todo|] == todo;
    } else {
      assert todo[..0] == [];
      EmptyBatch(d.keys, Expired);
      assert e.keys == Marked(d.keys, Ids(todo[..0]), Expired) && e.remote.live == d.remote.live - Refs(todo[..0]);
    }
  }

  /** The set of overdue ACTIVE rows never grows in a sweep, and with a tolerant provider one fault-free sweep empties it. */
  lemma SweepsDrain(cfg: Config, env: Env, d: Data, now: int)
    ensures OverdueIds(SweepKeys(cfg, env, d, now).0.keys, now) <= OverdueIds(d.keys, now)
    ensures !cfg.strict && FaultFree(env) ==> OverdueIds(SweepKeys(cfg, env, d, now).0.keys, now) == {}
  {
    hide SweepKeys, Batch;
    SweepKeysProgress(cfg, env, d, now);
    if !cfg.strict && FaultFree(env) {
      SweepKeysCompletes(cfg, env, d, now);
    }
  }

  /** Without faults the key sweep succeeds exactly when every overdue key can be deleted. */
  lemma SweepKeysCompletes(cfg: Config, env: Env, d: Data, now: int)
    requires FaultFree(env) && (cfg.strict ==> UniqueRefs(d.keys))
    ensures SweepKeys(cfg, env, d, now).1.Some?
            <==> (cfg.strict ==> RefsOf(d.keys, OverdueIds(d.keys, now)) <= d.remote.live)
  {
    hide OverdueKeys, RetireAll, Batch, UniqueRefs;
    assert env(d.calls).outcome.Good?;
    var d1 := Read(env, d).0;
    var todo := OverdueKeys(d.keys, now, env(d.calls).rank);
    SweepBatch(d.keys, now, env(d.calls).rank);
    RetireAllCompletes(cfg, env, d1, todo, Expired);
    DeletableRefs(cfg, d.remote.live, todo);
  }

  // The user sweep.

  /** The ACTIVE keys of any of these users. */
  function ActiveOfAll(keys: map<KeyId, Key>, users: set<UserId>): set<KeyId> {
    set id | id in keys && keys[id].user in users && keys[id].status == Active
  }

  function MarkDevicesOfAll(devices: seq<Device>, users: set<UserId>): (s: seq<Device>)
    ensures |s| == |devices|
  {
    seq(|devices|, i requires 0 <= i < |devices| =>
        if devices[i].user in users && Rank(devices, devices[i].user, i) < 200
        then devices[i].(status := DeviceRevoked) else devices[i])
  }

  function Lapse(users: map<UserId, User>, lapsed: set<UserId>): map<UserId, User> {
    map u | u in users :: if u in lapsed then users[u].(status := UserExpired) else users[u]
  }

  /** These users are EXPIRED and have lost all access. */
  function UsersExpired(d: Data, lapsed: set<UserId>): Data {
    d.(users := Lapse(d.users, lapsed),
       keys := Marked(d.keys, ActiveOfAll(d.keys, lapsed), Revoked),
       devices := MarkDevicesOfAll(d.devices, lapsed),
       remote := d.remote.(live := d.remote.live - RefsOf(d.keys, ActiveOfAll(d.keys, lapsed))))
  }

  function LapsedIds(users: map<UserId, User>, now: int): set<UserId> {
    set u | u in users && Lapsed(users[u], now)
  }

  lemma ExpireOneMore(d: Data, user: UserId, rest: set<UserId>)
    requires user in d.users && user !in rest
    ensures var e := WithoutAccess(d.(users := d.users[user := d.users[user].(status := UserExpired)]), user);
            Same(UsersExpired(e, rest), UsersExpired(d, {user} + rest))
  {
    var e := WithoutAccess(d, user);
    assert MarkDevicesOfAll(e.devices, rest) == MarkDevicesOfAll(d.devices, {user} + rest) by {
      forall i | 0 <= i < |d.devices|
        ensures Rank(e.devices, d.devices[i].user, i) == Rank(d.devices, d.devices[i].user, i)
      {
        RanksDependOnUsers(d.devices, e.devices, d.devices[i].user, i);
      }
    }
    ExpireOneMoreKeys(d, user, rest);
  }

  lemma ExpireOneMoreKeys(d: Data, user: UserId, rest: set<UserId>)
    requires user !in rest
    ensures var e := WithoutAccess(d, user);
            && Marked(e.keys, ActiveOfAll(e.keys, rest), Revoked)
               == Marked(d.keys, ActiveOfAll(d.keys, {user} + rest), Revoked)
            && e.remote.live - RefsOf(e.keys, ActiveOfAll(e.keys, rest))
               == d.remote.live - RefsOf(d.keys, ActiveOfAll(d.keys, {user} + rest))
  {
    hide Rank, MarkDevices;
    var e := WithoutAccess(d, user);
    assert ActiveOfAll(e.keys, rest) == ActiveOfAll(d.keys, rest);
    assert ActiveOfAll(d.keys, {user} + rest) == ActiveOf(d.keys, user) + ActiveOfAll(d.keys, rest);
    forall id | id in ActiveOfAll(d.keys, rest) ensures e.keys[id] == d.keys[id] {
    }
    assert RefsOf(e.keys, ActiveOfAll(e.keys, rest)) == RefsOf(d.keys, ActiveOfAll(d.keys, rest));
  }

  predicate Distinct(todo: seq<UserId>) { forall i, j :: 0 <= i < j < |todo| ==> todo[i] != todo[j] }

  function Elements(todo: seq<UserId>): set<UserId> { set u | u in todo }

  lemma ElementsStep(todo: seq<UserId>)
    requires todo != [] && Distinct(todo)
    ensures Elements(todo) == {todo[0]} + Elements(todo[1..]) && todo[0] !in Elements(todo[1..]) && Distinct(todo[1..])
  {
  }

  lemma NobodyLapsed(d: Data)
    ensures Same(UsersExpired(d, {}), d)
  {
  }

  lemma SameUsersExpired(d: Data, e: Data, lapsed: set<UserId>)
    requires Same(d, e)
    ensures Same(UsersExpired(d, lapsed), UsersExpired(e, lapsed))
  {
  }

  lemma UniqueDevicesStay(d: Data, user: UserId)
    requires UniqueDevices(d.devices)
    ensures UniqueDevices(WithoutAccess(d, user).devices)
  {
  }

  /**
   `e` is `d` with the users `done` EXPIRED and cut off, and `user` either as before or stored as
   EXPIRED and somewhere on the way to losing access.
   */
  ghost predicate StoppedAt(d: Data, e: Data, done: set<UserId>, user: UserId) {
    var reached := UsersExpired(d, done);
    || Same(e, reached)
    || (user in reached.users && Toward(reached, e, user)
        && e.users == reached.users[user := reached.users[user].(status := UserExpired)])
  }

  lemma SameStops(d: Data, d1: Data, e: Data, rest: set<UserId>, done: set<UserId>, user: UserId)
    requires Same(UsersExpired(d1, rest), UsersExpired(d, done)) && StoppedAt(d1, e, rest, user)
    ensures StoppedAt(d, e, done, user)
  {
    hide UsersExpired, Rank;
  }

  /** The loop handles the users of a prefix completely, and stops inside at most one more. */
  lemma {:induction false} ExpireUsersProgress(cfg: Config, env: Env, d: Data, todo: seq<UserId>, read: map<UserId, User>)
    returns (k: nat)
    requires UniqueDevices(d.devices) && Distinct(todo)
    requires forall u :: u in todo ==> u in read && u in d.users && d.users[u] == read[u]
    ensures k <= |todo|
    ensures var (e, ok) := ExpireUsers(cfg, env, d, todo, read);
            if ok then k == |todo| && Same(e, UsersExpired(d, Elements(todo)))
            else k < |todo| && StoppedAt(d, e, Elements(todo[..k]), todo[k])
    decreases |todo|
  {
    hide RevokeAllAccess, UsersExpired, WithoutAccess, UniqueDevices, Elements, StoppedAt, Toward;
    k := 0;
    if todo == [] {
      assert Elements(todo) == {} by { NoElements(); }
      NobodyLapsed(d);
    } else {
      var user := todo[0];
      var (d1, saved) := SaveUser(env, d, user, read[user].(status := UserExpired));
      var target := WithoutAccess(d.(users := d.users[user := d.users[user].(status := UserExpired)]), user);
      var e := ExpireUsers(cfg, env, d, todo, read).0;
      CascadeProgress(cfg, env, d1, user);
      var (d2, revoked) := RevokeAllAccess(cfg, env, d1, user);
      assert todo[..0] == [];
      if saved && revoked {
        ElementsStep(todo);
        AfterOneUser(d, d1, d2, user);
        var l := ExpireUsersProgress(cfg, env, d2, todo[1..], read);
        k := l + 1;
        var rest := Elements(todo[1..][..l]);
        ElementsPrefix(todo, l);
        ExpireOneMore(d, user, rest);
        SameUsersExpired(d2, target, rest);
        SameChains(UsersExpired(d2, rest), UsersExpired(target, rest), UsersExpired(target, rest),
                   UsersExpired(d, Elements(todo[..k])));
        if ExpireUsers(cfg, env, d, todo, read).1 {
          assert todo[1..][..l] == todo[1..] && todo[..k] == todo;
          SameChains(e, UsersExpired(d2, rest), UsersExpired(d2, rest), UsersExpired(d, Elements(todo)));
        } else {
          SameStops(d, d2, e, rest, Elements(todo[..k]), todo[k]);
        }
      } else {
        SameIsToward(d1, d1, user);
        TowardFrom(d, d1, e, user);
        StoppedAtFirst(d, e, user);
        assert Elements(todo[..0]) == {} by { NoElements(); }
      }
    }
  }

  lemma ElementsPrefix(todo: seq<UserId>, l: nat)
    requires todo != [] && Distinct(todo) && l < |todo|
    ensures Elements(todo[..l + 1]) == {todo[0]} + Elements(todo[1..][..l]) && todo[0] !in Elements(todo[1..][..l])
  {
    assert todo[..l + 1] == [todo[0]] + todo[1..][..l];
    assert forall u :: u in todo[1..][..l] ==> u in todo[1..];
  }

  /** The way to losing access does not depend on the user rows. */
  lemma TowardFrom(d: Data, d1: Data, e: Data, user: UserId)
    requires Toward(d1, e, user) && d1 == d.(users := d1.users, calls := d1.calls)
    ensures Toward(d, e, user)
  {
    hide Rank;
  }

  lemma StoppedAtFirst(d: Data, e: Data, user: UserId)
    requires user in d.users
    requires Same(e, d) || (Toward(d, e, user) && e.users == d.users[user := d.users[user].(status := UserExpired)])
    ensures StoppedAt(d, e, {}, user)
  {
    hide Rank, UsersExpired;
    NobodyLapsed(d);
  }

  lemma NoElements()
    ensures Elements([]) == {}
  {
  }

  lemma SameChains(a: Data, b: Data, c: Data, d: Data)
    requires Same(b, c) && Same(c, d)
    ensures Same(a, b) ==> Same(a, d)
  {
  }

  lemma AfterOneUser(d: Data, d1: Data, d2: Data, user: UserId)
    requires user in d.users && UniqueDevices(d.devices)
    requires d1 == d.(users := d.users[user := d.users[user].(status := UserExpired)], calls := d1.calls)
    requires Same(d2, WithoutAccess(d1, user))
    ensures Same(d2, WithoutAccess(d.(users := d.users[user := d.users[user].(status := UserExpired)]), user))
    ensures UniqueDevices(d2.devices)
    ensures forall u :: u in d.users && u != user ==> u in d2.users && d2.users[u] == d.users[u]
  {
    UniqueDevicesStay(d1, user);
  }

  lemma LapsedElements(users: map<UserId, User>, now: int, rank: nat -> nat)
    ensures Elements(LapsedUsers(users, now, rank)) == LapsedIds(users, now)
    ensures |LapsedUsers(users, now, rank)| == |LapsedIds(users, now)|
  {
    assert LapsedIds(users, now) == set u | u in users && Lapsed(users[u], now);
  }

  lemma SweepUsersProgress(cfg: Config, env: Env, d: Data, now: int)
    requires UniqueDevices(d.devices)
    ensures var (e, count) := SweepUsers(cfg, env, d, now);
            count.Some? ==> Same(e, UsersExpired(d, LapsedIds(d.users, now)))
                            && count.value == |LapsedIds(d.users, now)|
  {
    hide ExpireUsers, UsersExpired, UniqueDevices, Elements;
    var (d1, read) := Read(env, d);
    if read {
      var todo := LapsedUsers(d1.users, now, env(d.calls).rank);
      LapsedElements(d1.users, now, env(d.calls).rank);
      var _ := ExpireUsersProgress(cfg, env, d1, todo, d1.users);
      SameUsersExpired(d, d1, LapsedIds(d.users, now));
      var e := ExpireUsers(cfg, env, d1, todo, d1.users).0;
      SameChains(e, UsersExpired(d1, LapsedIds(d.users, now)), UsersExpired(d1, LapsedIds(d.users, now)),
                 UsersExpired(d, LapsedIds(d.users, now)));
    }
  }

  /** Without faults the user sweep succeeds exactly when every ACTIVE key of a lapsed user can be deleted. */
  lemma {:induction false} ExpireUsersCompletes(cfg: Config, env: Env, d: Data, todo: seq<UserId>, read: map<UserId, User>)
    requires FaultFree(env) && UniqueDevices(d.devices) && (cfg.strict ==> UniqueRefs(d.keys)) && Distinct(todo)
    requires forall u :: u in todo ==> u in read && u in d.users && d.users[u] == read[u]
    ensures ExpireUsers(cfg, env, d, todo, read).1
            <==> (cfg.strict ==> RefsOf(d.keys, ActiveOfAll(d.keys, Elements(todo))) <= d.remote.live)
    decreases |todo|
  {
    hide RevokeAllAccess, WithoutAccess, UniqueDevices, UniqueRefs, Elements, Batch;
    if todo == [] {
      NoElements();
    } else {
      var user := todo[0];
      assert env(d.calls).outcome.Good?;
      var (d1, saved) := SaveUser(env, d, user, read[user].(status := UserExpired));
      CascadeProgress(cfg, env, d1, user);
      CascadeCompletes(cfg, env, d1, user);
      var (d2, revoked) := RevokeAllAccess(cfg, env, d1, user);
      ElementsStep(todo);
      if revoked {
        AfterOneUser(d, d1, d2, user);
        UniqueRefsStay(cfg, d1, d2, user);
        ExpireUsersCompletes(cfg, env, d2, todo[1..], read);
      }
      SplitDeletable(cfg, d1, d2, user, Elements(todo[1..]), revoked);
    }
  }

  lemma UniqueRefsStay(cfg: Config, d: Data, e: Data, user: UserId)
    requires Same(e, WithoutAccess(d, user)) && (cfg.strict ==> UniqueRefs(d.keys))
    ensures cfg.strict ==> UniqueRefs(e.keys)
  {
  }

  lemma SplitDeletable(cfg: Config, d: Data, e: Data, user: UserId, rest: set<UserId>, done: bool)
    requires user !in rest && (cfg.strict ==> UniqueRefs(d.keys))
    requires done ==> Same(e, WithoutAccess(d, user))
    requires done <==> (cfg.strict ==> RefsOf(d.keys, ActiveOf(d.keys, user)) <= d.remote.live)
    ensures (cfg.strict ==> RefsOf(d.keys, ActiveOfAll(d.keys, {user} + rest)) <= d.remote.live)
            <==> done && (cfg.strict ==> RefsOf(e.keys, ActiveOfAll(e.keys, rest)) <= e.remote.live)
  {
    hide Rank, MarkDevices;
    if cfg.strict {
      var mine, others := ActiveOf(d.keys, user), ActiveOfAll(d.keys, rest);
      assert ActiveOfAll(d.keys, {user} + rest) == mine + others;
      assert RefsOf(d.keys, mine + others) == RefsOf(d.keys, mine) + RefsOf(d.keys, others);
      if done {
        assert ActiveOfAll(e.keys, rest) == others;
        assert RefsOf(e.keys, others) == RefsOf(d.keys, others);
        assert RefsOf(d.keys, mine) !! RefsOf(d.keys, others);
      }
    }
  }

  lemma SweepUsersCompletes(cfg: Config, env: Env, d: Data, now: int)
    requires FaultFree(env) && UniqueDevices(d.devices) && (cfg.strict ==> UniqueRefs(d.keys))
    ensures SweepUsers(cfg, env, d, now).1.Some?
            <==> (cfg.strict ==> RefsOf(d.keys, ActiveOfAll(d.keys, LapsedIds(d.users, now))) <= d.remote.live)
  {
    hide ExpireUsers, UniqueDevices, UniqueRefs, Elements;
    assert env(d.calls).outcome.Good?;
    var d1 := Read(env, d).0;
    LapsedElements(d1.users, now, env(d.calls).rank);
    ExpireUsersCompletes(cfg, env, d1, LapsedUsers(d1.users, now, env(d.calls).rank), d1.users);
  }

  // One tick: the user sweep, then the key sweep.

  /** What a tick makes of one key row. */
  function TickKey(key: Key, lapsed: set<UserId>, now: int): Key {
    if key.status == Active && key.user in lapsed then key.(status := Revoked)
    else if Overdue(key, now) then key.(status := Expired)
    else key
  }

  /** The keys a tick takes off the provider. */
  function TickTakes(keys: map<KeyId, Key>, lapsed: set<UserId>, now: int): set<KeyId> {
    set id | id in keys && TickKey(keys[id], lapsed, now) != keys[id]
  }

  /** The overdue keys left to the key sweep. */
  function OnlyOverdue(keys: map<KeyId, Key>, lapsed: set<UserId>, now: int): set<KeyId> {
    set id | id in keys && Overdue(keys[id], now) && keys[id].user !in lapsed
  }

  function TickState(d: Data, lapsed: set<UserId>, now: int): Data {
    d.(users := Lapse(d.users, lapsed),
       keys := map id | id in d.keys :: TickKey(d.keys[id], lapsed, now),
       devices := MarkDevicesOfAll(d.devices, lapsed),
       remote := d.remote.(live := d.remote.live - RefsOf(d.keys, TickTakes(d.keys, lapsed, now))))
  }

  lemma SweepsCompose(d: Data, e: Data, lapsed: set<UserId>, now: int)
    requires Same(e, UsersExpired(d, lapsed))
    ensures OverdueIds(e.keys, now) == OnlyOverdue(d.keys, lapsed, now)
    ensures Same(KeysExpired(e, now), TickState(d, lapsed, now))
    ensures TickTakes(d.keys, lapsed, now) == ActiveOfAll(d.keys, lapsed) + OnlyOverdue(d.keys, lapsed, now)
    ensures RefsOf(e.keys, OverdueIds(e.keys, now)) == RefsOf(d.keys, OnlyOverdue(d.keys, lapsed, now))
  {
    hide MarkDevicesOfAll, Lapse;
    assert OverdueIds(e.keys, now) == OnlyOverdue(d.keys, lapsed, now);
    TakesSplit(d.keys, lapsed, now);
    assert KeysExpired(e, now).keys == TickState(d, lapsed, now).keys;
    assert RefsOf(e.keys, OverdueIds(e.keys, now)) == RefsOf(d.keys, OnlyOverdue(d.keys, lapsed, now));
  }

  lemma TakesSplit(keys: map<KeyId, Key>, lapsed: set<UserId>, now: int)
    ensures var mine, others := ActiveOfAll(keys, lapsed), OnlyOverdue(keys, lapsed, now);
            && TickTakes(keys, lapsed, now) == mine + others && mine !! others
            && RefsOf(keys, TickTakes(keys, lapsed, now)) == RefsOf(keys, mine) + RefsOf(keys, others)
  {
    var mine, others := ActiveOfAll(keys, lapsed), OnlyOverdue(keys, lapsed, now);
    forall id | id in keys ensures TickKey(keys[id], lapsed, now) != keys[id] <==> id in mine + others {
      assert keys[id].status == Active ==> keys[id].(status := Revoked).status != keys[id].status;
      assert keys[id].status == Active ==> keys[id].(status := Expired).status != keys[id].status;
    }
  }

  /**
   A fault-free tick: ACTIVE keys of newly expired users become REVOKED even if they are overdue
   themselves, other overdue keys become EXPIRED, nothing else changes, exactly their keys stop
   working, and the counts are exact. Both sweeps succeed exactly when all those keys can be deleted.
   */
  lemma TickIsExact(cfg: Config, env: Env, d: Data, usersNow: int, keysNow: int)
    requires FaultFree(env) && UniqueDevices(d.devices) && (cfg.strict ==> UniqueRefs(d.keys))
    ensures var lapsed := LapsedIds(d.users, usersNow);
            var (e, users, keys) := Tick(cfg, env, d, usersNow, keysNow);
            && (users.Some? && keys.Some?
                <==> (cfg.strict ==> RefsOf(d.keys, TickTakes(d.keys, lapsed, keysNow)) <= d.remote.live))
            && (users.Some? && keys.Some? ==>
                  && Same(e, TickState(d, lapsed, keysNow))
                  && users.value == |lapsed| && keys.value == |OnlyOverdue(d.keys, lapsed, keysNow)|)
  {
    hide SweepUsers, SweepKeys, UsersExpired, KeysExpired, TickState, UniqueDevices, UniqueRefs, TickTakes, Batch;
    var lapsed := LapsedIds(d.users, usersNow);
    SweepUsersProgress(cfg, env, d, usersNow);
    SweepUsersCompletes(cfg, env, d, usersNow);
    var (d1, users) := SweepUsers(cfg, env, d, usersNow);
    TakesSplit(d.keys, lapsed, keysNow);
    if users.Some? {
      SweepsCompose(d, d1, lapsed, keysNow);
      UniqueAfterUsers(cfg, d, d1, lapsed);
      SweepKeysProgress(cfg, env, d1, keysNow);
      SweepKeysCompletes(cfg, env, d1, keysNow);
      TickDeletable(cfg, d, d1, lapsed, keysNow);
      SameChains(SweepKeys(cfg, env, d1, keysNow).0, KeysExpired(d1, keysNow), KeysExpired(d1, keysNow),
                 TickState(d, lapsed, keysNow));
    }
  }

  lemma UniqueAfterUsers(cfg: Config, d: Data, e: Data, lapsed: set<UserId>)
    requires Same(e, UsersExpired(d, lapsed)) && (cfg.strict ==> UniqueRefs(d.keys))
    ensures cfg.strict ==> UniqueRefs(e.keys)
  {
  }

  lemma TickDeletable(cfg: Config, d: Data, e: Data, lapsed: set<UserId>, now: int)
    requires Same(e, UsersExpired(d, lapsed)) && (cfg.strict ==> UniqueRefs(d.keys))
    ensures cfg.strict ==>
              (RefsOf(d.keys, OnlyOverdue(d.keys, lapsed, now)) <= e.remote.live
               <==> RefsOf(d.keys, OnlyOverdue(d.keys, lapsed, now)) <= d.remote.live)
  {
    if cfg.strict {
      assert RefsOf(d.keys, OnlyOverdue(d.keys, lapsed, now)) !! RefsOf(d.keys, ActiveOfAll(d.keys, lapsed));
    }
  }
}
