/**
 What sweeps and ticks do to each row, with the conditions of their queries written out: an ACTIVE
 key, or an ACTIVE user who is not deleted, with an expiry before the time of the query.
 */
module SweepResults {
  import opened Model
  import opened Services
  import opened Cascades
  import opened Disabling
  import opened Sweeping
  import opened InterruptedSweeps

  /**
   However a key sweep ends: an ACTIVE row with an expiry before `now` is as it was, or EXPIRED with its
   key gone; after a success all of them are. No other row changes, and no other key stops working.
   */
  lemma SweepKeysRows(cfg: Config, env: Env, d: Data, now: int)
    ensures var (e, count) := SweepKeys(cfg, env, d, now);
            && e.keys.Keys == d.keys.Keys && e.remote.live <= d.remote.live
            && (forall id :: id in d.keys ==>
                  var key := d.keys[id];
                  if key.status == Active && key.expiresAt.Some? && key.expiresAt.value < now
                  then e.keys[id] in {key, key.(status := Expired)}
                       && (count.Some? || e.keys[id] != key ==>
                             e.keys[id] == key.(status := Expired) && key.ref !in e.remote.live)
                  else e.keys[id] == key)
            && (forall ref :: ref in d.remote.live && ref !in e.remote.live ==>
                  exists id :: && id in d.keys && d.keys[id].ref == ref && d.keys[id].status == Active
                               && d.keys[id].expiresAt.Some? && d.keys[id].expiresAt.value < now)
            && (count.Some? ==>
                  count.value == |set id | id in d.keys && d.keys[id].status == Active
                                           && d.keys[id].expiresAt.Some? && d.keys[id].expiresAt.value < now|)
  {
    hide SweepKeys, Batch;
    SweepKeysProgress(cfg, env, d, now);
    var (e, count) := SweepKeys(cfg, env, d, now);
    SpelledOut(d.keys, now);
    var todo, recorded: nat, deleted: nat :|
      && Batch(d.keys, todo) && Ids(todo) == OverdueIds(d.keys, now)
      && recorded <= deleted <= |todo| && deleted <= recorded + 1
      && e.keys == Marked(d.keys, Ids(todo[..recorded]), Expired)
      && e.remote.live == d.remote.live - Refs(todo[..deleted]);
    BatchPrefixes(d.keys, todo, recorded, deleted);
    forall ref | ref in Refs(todo[..deleted]) ensures exists id :: id in OverdueIds(d.keys, now) && d.keys[id].ref == ref {
      InBatch(d.keys, todo, deleted, ref);
    }
  }

  lemma SpelledOut(keys: map<KeyId, Key>, now: int)
    ensures OverdueIds(keys, now)
            == set id | id in keys && keys[id].status == Active
                        && keys[id].expiresAt.Some? && keys[id].expiresAt.value < now
  {
  }

  lemma InBatch(keys: map<KeyId, Key>, todo: seq<Snap>, k: nat, ref: Ref)
    requires Batch(keys, todo) && k <= |todo| && ref in Refs(todo[..k])
    ensures exists id :: id in Ids(todo) && id in keys && keys[id].ref == ref
  {
    var s :| s in todo[..k] && s.row.ref == ref;
    assert s in todo && s.id in Ids(todo);
  }

  /** A row that is not ACTIVE, or has no expiry, or none before `now`, is not touched by any key sweep, nor is its key. */
  lemma NotDueIsSpared(cfg: Config, env: Env, d: Data, now: int, id: KeyId)
    requires UniqueRefs(d.keys) && id in d.keys
    requires d.keys[id].status != Active || d.keys[id].expiresAt.None? || d.keys[id].expiresAt.value >= now
    ensures var e := SweepKeys(cfg, env, d, now).0;
            && id in e.keys && e.keys[id] == d.keys[id]
            && (d.keys[id].ref in e.remote.live <==> d.keys[id].ref in d.remote.live)
  {
    hide SweepKeys;
    SweepKeysRows(cfg, env, d, now);
  }

  /** A user who is not ACTIVE, is deleted, or has no expiry before `now` loses nothing in any user sweep. */
  lemma NotLapsedIsSpared(cfg: Config, env: Env, d: Data, now: int, user: UserId)
    requires UniqueDevices(d.devices)
    requires user in d.users ==>
               || d.users[user].status != UserActive || d.users[user].deleted
               || d.users[user].expiresAt.None? || d.users[user].expiresAt.value >= now
    ensures SameForUser(d, SweepUsers(cfg, env, d, now).0, user)
  {
    hide SweepUsers, SweptUpTo, SameForUser, UniqueDevices, Distinct;
    var todo, k := SweepUsersStops(cfg, env, d, now);
    assert user !in todo by { assert user !in Elements(todo); }
    SweptSparesOthers(d, SweepUsers(cfg, env, d, now).0, todo, k, user);
  }

  /** A tick cuts this user off. */
  predicate Lapsing(d: Data, user: UserId, now: int) {
    && user in d.users && d.users[user].status == UserActive && !d.users[user].deleted
    && d.users[user].expiresAt.Some? && d.users[user].expiresAt.value < now
  }

  /** A tick stores this ACTIVE key as EXPIRED unless its owner is cut off first. */
  predicate Due(key: Key, now: int) {
    key.status == Active && key.expiresAt.Some? && key.expiresAt.value < now
  }

  lemma LapsingIds(d: Data, now: int)
    ensures LapsedIds(d.users, now) == set u | u in d.users && Lapsing(d, u, now)
    ensures forall u :: u in LapsedIds(d.users, now) <==> Lapsing(d, u, now)
  {
  }

  /** A fault-free tick succeeds in full exactly when each of these keys can be deleted. */
  lemma TickSucceeds(cfg: Config, env: Env, d: Data, usersNow: int, keysNow: int)
    requires FaultFree(env) && UniqueDevices(d.devices) && (cfg.strict ==> UniqueRefs(d.keys))
    ensures var (_, users, keys) := Tick(cfg, env, d, usersNow, keysNow);
            users.Some? && keys.Some?
            <==> (cfg.strict ==>
                    forall id :: && id in d.keys && d.keys[id].status == Active
                                 && (Lapsing(d, d.keys[id].user, usersNow) || Due(d.keys[id], keysNow))
                                 ==> d.keys[id].ref in d.remote.live)
  {
    hide Tick, UniqueDevices, UniqueRefs;
    TickIsExact(cfg, env, d, usersNow, keysNow);
    LapsingIds(d, usersNow);
    var lapsed := LapsedIds(d.users, usersNow);
    TakenKeys(d, lapsed, keysNow);
  }

  lemma TakenKeys(d: Data, lapsed: set<UserId>, now: int)
    ensures forall id :: id in TickTakes(d.keys, lapsed, now)
              <==> id in d.keys && d.keys[id].status == Active && (d.keys[id].user in lapsed || Due(d.keys[id], now))
    ensures forall id :: id in d.keys ==>
              TickKey(d.keys[id], lapsed, now)
              == if d.keys[id].status == Active && d.keys[id].user in lapsed then d.keys[id].(status := Revoked)
                 else if Due(d.keys[id], now) then d.keys[id].(status := Expired) else d.keys[id]
  {
    forall id | id in d.keys
      ensures TickKey(d.keys[id], lapsed, now) != d.keys[id]
              <==> d.keys[id].status == Active && (d.keys[id].user in lapsed || Due(d.keys[id], now))
    {
      assert d.keys[id].status == Active ==> d.keys[id].(status := Revoked).status != d.keys[id].status;
      assert d.keys[id].status == Active ==> d.keys[id].(status := Expired).status != d.keys[id].status;
    }
  }

  /**
   Row by row after a successful tick: cut-off users are EXPIRED, their ACTIVE keys REVOKED and their 200
   newest devices REVOKED; other keys due are EXPIRED; everything else is as it was, and the counts are exact.
   */
  lemma TickRows(cfg: Config, env: Env, d: Data, usersNow: int, keysNow: int)
    requires FaultFree(env) && UniqueDevices(d.devices) && (cfg.strict ==> UniqueRefs(d.keys))
    requires var (_, users, keys) := Tick(cfg, env, d, usersNow, keysNow); users.Some? && keys.Some?
    ensures var (e, users, keys) := Tick(cfg, env, d, usersNow, keysNow);
            && e.users.Keys == d.users.Keys && e.keys.Keys == d.keys.Keys && |e.devices| == |d.devices|
            && (forall u :: u in d.users ==>
                  e.users[u] == if Lapsing(d, u, usersNow) then d.users[u].(status := UserExpired) else d.users[u])
            && (forall id :: id in d.keys ==>
                  var key := d.keys[id];
                  e.keys[id] == if key.status == Active && Lapsing(d, key.user, usersNow) then key.(status := Revoked)
                                else if Due(key, keysNow) then key.(status := Expired) else key)
            && (forall i :: 0 <= i < |d.devices| ==>
                  var device := d.devices[i];
                  e.devices[i] == if Lapsing(d, device.user, usersNow) && Rank(d.devices, device.user, i) < 200
                                  then device.(status := DeviceRevoked) else device)
            && (forall ref :: ref in e.remote.live
                  <==> ref in d.remote.live
                       && !exists id :: && id in d.keys && d.keys[id].ref == ref && d.keys[id].status == Active
                                        && (Lapsing(d, d.keys[id].user, usersNow) || Due(d.keys[id], keysNow)))
            && e.remote.issued == d.remote.issued && e.servers == d.servers
            && users.value == (|set u | u in d.users && Lapsing(d, u, usersNow)|)
            && keys.value == |set id | id in d.keys && Due(d.keys[id], keysNow)
                                       && !Lapsing(d, d.keys[id].user, usersNow)|
  {
    hide Tick, UniqueDevices, UniqueRefs, TickKey, Rank;
    TickIsExact(cfg, env, d, usersNow, keysNow);
    LapsingIds(d, usersNow);
    var lapsed := LapsedIds(d.users, usersNow);
    TakenKeys(d, lapsed, keysNow);
    assert OnlyOverdue(d.keys, lapsed, keysNow)
           == set id | id in d.keys && Due(d.keys[id], keysNow) && !Lapsing(d, d.keys[id].user, usersNow);
  }

  /** What has not been called yet is all that matters. */
  lemma {:induction false} RetireAllLater(cfg: Config, env: Env, other: Env, d: Data, todo: seq<Snap>, target: Status)
    requires forall n :: n >= d.calls ==> env(n) == other(n)
    ensures RetireAll(cfg, env, d, todo, target) == RetireAll(cfg, other, d, todo, target)
    decreases |todo|
  {
    if todo != [] {
      RetireAllLater(cfg, env, other, RetireOne(cfg, env, d, todo[0], target).0, todo[1..], target);
    }
  }

  lemma SweepKeysLater(cfg: Config, env: Env, other: Env, d: Data, now: int)
    requires forall n :: n >= d.calls ==> env(n) == other(n)
    ensures SweepKeys(cfg, env, d, now) == SweepKeys(cfg, other, d, now)
  {
    hide RetireAll;
    RetireAllLater(cfg, env, other, Read(env, d).0, OverdueKeys(d.keys, now, env(d.calls).rank), Expired);
  }

  /** The key sweep of a tick does its work even if the user sweep fails at once. */
  lemma KeysExpireAnyway(cfg: Config, env: Env, d: Data, usersNow: int, keysNow: int)
    requires !cfg.strict && !env(d.calls).outcome.Good? && forall n :: n != d.calls ==> env(n).outcome.Good?
    ensures var (e, users, keys) := Tick(cfg, env, d, usersNow, keysNow);
            users.None? && keys.Some? && forall id :: id in e.keys ==> !Due(e.keys[id], keysNow)
  {
    hide SweepKeys;
    var d1 := Read(env, d).0;
    var calm: Env := (n: nat) => if n == d.calls then env(n).(outcome := Good) else env(n);
    SweepKeysLater(cfg, env, calm, d1, keysNow);
    SweepKeysRows(cfg, calm, d1, keysNow);
    SweepKeysCompletes(cfg, calm, d1, keysNow);
  }
}
