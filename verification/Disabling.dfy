/** Disabling and deleting users: the exact result, and convergence of retries. */
module Disabling {
  import opened Model
  import opened Services
  import opened Cascades
  import Pagination

  function ActiveOf(keys: map<KeyId, Key>, user: UserId): set<KeyId> {
    set id | id in keys && keys[id].user == user && keys[id].status == Active
  }

  function RefsOf(keys: map<KeyId, Key>, ids: set<KeyId>): set<Ref>
    requires ids <= keys.Keys
  {
    set id | id in ids :: keys[id].ref
  }

  /** The same tables and the same working keys; the provider's log and the call counter may differ. */
  predicate Same(d: Data, e: Data) {
    && d.users == e.users && d.keys == e.keys && d.devices == e.devices && d.servers == e.servers
    && d.remote.live == e.remote.live && d.remote.issued == e.remote.issued
  }

  /** `user` has lost all access: every ACTIVE key, and the 200 newest devices. */
  function WithoutAccess(d: Data, user: UserId): Data {
    d.(keys := Marked(d.keys, ActiveOf(d.keys, user), Revoked),
       devices := MarkDevices(d.devices, user, 200),
       remote := d.remote.(live := d.remote.live - RefsOf(d.keys, ActiveOf(d.keys, user))))
  }

  function DisabledState(d: Data, user: UserId): Data
    requires user in d.users
  {
    WithoutAccess(d, user).(users := d.users[user := d.users[user].(status := UserDisabled)])
  }

  /** `e` is `d` somewhere on the way to `user` losing all access. */
  ghost predicate Toward(d: Data, e: Data, user: UserId) {
    && e.servers == d.servers && e.remote.issued == d.remote.issued
    && e.keys.Keys == d.keys.Keys
    && (forall id :: id in d.keys ==> e.keys[id] == d.keys[id] || RevokedOnTheWay(d, e, user, id))
    && e.remote.live <= d.remote.live
    && (forall ref :: ref in d.remote.live - e.remote.live ==> ref in RefsOf(d.keys, ActiveOf(d.keys, user)))
    && |e.devices| == |d.devices|
    && (forall i :: 0 <= i < |d.devices| ==>
          e.devices[i] == d.devices[i]
          || (d.devices[i].user == user && Rank(d.devices, user, i) < 200
              && e.devices[i] == d.devices[i].(status := DeviceRevoked)))
  }

  predicate RevokedOnTheWay(d: Data, e: Data, user: UserId, id: KeyId)
    requires id in d.keys && id in e.keys
  {
    id in ActiveOf(d.keys, user) && e.keys[id] == d.keys[id].(status := Revoked) && e.keys[id].ref !in e.remote.live
  }

  lemma {:induction false} CascadeBatch(keys: map<KeyId, Key>, user: UserId, rank: nat -> nat)
    ensures var todo := OnlyActive(KeysOfUser(keys, user, rank));
            Batch(keys, todo) && Ids(todo) == ActiveOf(keys, user) && Refs(todo) == RefsOf(keys, ActiveOf(keys, user))
  {
    var todo := OnlyActive(KeysOfUser(keys, user, rank));
    CascadeIsBatch(keys, user, rank);
    CascadeReads(keys, user, rank);
    forall id | id in ActiveOf(keys, user) ensures id in Ids(todo) && keys[id].ref in Refs(todo) {
      assert Snap(id, keys[id]) in todo;
    }
  }

  /** The key part of the cascade: on the way whatever happens, complete on success. */
  lemma KeysProgress(cfg: Config, env: Env, d: Data, user: UserId, rank: nat -> nat)
    ensures var (e, ok) := RetireAll(cfg, env, d, OnlyActive(KeysOfUser(d.keys, user, rank)), Revoked);
            && Toward(d, e, user) && e.users == d.users && e.devices == d.devices
            && (ok ==> e.keys == Marked(d.keys, ActiveOf(d.keys, user), Revoked)
                       && e.remote.live == d.remote.live - RefsOf(d.keys, ActiveOf(d.keys, user)))
  {
    hide Batch, OnlyActive, KeysOfUser, RetireAll;
    var todo := OnlyActive(KeysOfUser(d.keys, user, rank));
    CascadeBatch(d.keys, user, rank);
    var recorded, deleted := RetireAllProgress(cfg, env, d, todo, Revoked);
    var (e, ok) := RetireAll(cfg, env, d, todo, Revoked);
    assert todo[..|todo|] == todo;
    BatchPrefixes(d.keys, todo, recorded, deleted);
    forall id | id in d.keys && id in Ids(todo[..recorded]) ensures RevokedOnTheWay(d, e, user, id) {
    }
  }

  lemma BatchPrefixes(keys: map<KeyId, Key>, todo: seq<Snap>, recorded: nat, deleted: nat)
    requires Batch(keys, todo) && recorded <= deleted <= |todo|
    ensures Ids(todo[..recorded]) <= Ids(todo) && Refs(todo[..deleted]) <= Refs(todo)
    ensures forall id :: id in Ids(todo[..recorded]) ==> id in keys && keys[id].ref in Refs(todo[..deleted])
  {
    assert forall s :: s in todo[..recorded] ==> s in todo[..deleted] && s in todo;
    assert forall s :: s in todo[..deleted] ==> s in todo;
  }

  /** The cascade: on the way whatever happens, complete on success. */
  lemma CascadeProgress(cfg: Config, env: Env, d: Data, user: UserId)
    requires UniqueDevices(d.devices)
    ensures var (e, ok) := RevokeAllAccess(cfg, env, d, user);
            Toward(d, e, user) && e.users == d.users && (ok ==> Same(e, WithoutAccess(d, user)))
  {
    hide RetireAll, RevokeDevices, CascadeDevices, MarkDevices, UniqueDevices, Rank;
    var (d1, read) := Read(env, d);
    if read {
      KeysProgress(cfg, env, d1, user, env(d.calls).rank);
      var (d2, retired) := RetireAll(cfg, env, d1, OnlyActive(KeysOfUser(d1.keys, user, env(d.calls).rank)), Revoked);
      var (d3, listed) := Read(env, d2);
      if retired && listed {
        var count := Pagination.Min(|DevicesOf(d.devices, user)|, 200);
        MarkingAllListed(d.devices, user);
        CascadeListing(d.devices, user);
        assert DevicesOf(d.devices, user)[..count][0..] == DevicesOf(d.devices, user)[..count];
        var done := RevokeDevicesProgress(env, d3, user, d.devices, count, 0);
        MarkedIsToward(d.devices, user, done);
      }
    }
  }

  lemma MarkedIsToward(devices: seq<Device>, user: UserId, n: nat)
    requires n <= 200
    ensures var marked := MarkDevices(devices, user, n);
            |marked| == |devices|
            && forall i :: 0 <= i < |devices| ==>
                 marked[i] == devices[i]
                 || (devices[i].user == user && Rank(devices, user, i) < 200
                     && marked[i] == devices[i].(status := DeviceRevoked))
  {
  }

  /** Without faults the cascade succeeds exactly when every ACTIVE key of the user can be deleted, each once. */
  lemma CascadeCompletes(cfg: Config, env: Env, d: Data, user: UserId)
    requires FaultFree(env) && UniqueDevices(d.devices) && (cfg.strict ==> UniqueRefs(d.keys))
    ensures var (e, ok) := RevokeAllAccess(cfg, env, d, user);
            && (ok <==> (cfg.strict ==> RefsOf(d.keys, ActiveOf(d.keys, user)) <= d.remote.live))
            && (ok ==> exists todo :: Batch(d.keys, todo) && Ids(todo) == ActiveOf(d.keys, user)
                                      && e.remote.revoked == d.remote.revoked + RefList(todo))
  {
    hide RetireAll, RevokeDevices, CascadeDevices, MarkDevices, UniqueDevices, UniqueRefs, Batch, RefList;
    assert env(d.calls).outcome.Good?;
    var d1 := Read(env, d).0;
    var todo := OnlyActive(KeysOfUser(d1.keys, user, env(d.calls).rank));
    CascadeBatch(d.keys, user, env(d.calls).rank);
    RetireAllCompletes(cfg, env, d1, todo, Revoked);
    DeletableRefs(cfg, d.remote.live, todo);
    var (d2, retired) := RetireAll(cfg, env, d1, todo, Revoked);
    KeysProgress(cfg, env, d1, user, env(d.calls).rank);
    if retired {
      assert env(d2.calls).outcome.Good?;
      var d3 := Read(env, d2).0;
      var count := Pagination.Min(|DevicesOf(d.devices, user)|, 200);
      MarkingAllListed(d.devices, user);
      CascadeListing(d.devices, user);
      assert DevicesOf(d.devices, user)[..count][0..] == DevicesOf(d.devices, user)[..count];
      var done := RevokeDevicesProgress(env, d3, user, d.devices, count, 0);
    }
  }

  lemma DeletableRefs(cfg: Config, live: set<Ref>, todo: seq<Snap>)
    ensures Deletable(cfg, live, todo) <==> (cfg.strict ==> Refs(todo) <= live)
  {
    if Deletable(cfg, live, todo) && cfg.strict {
      forall ref | ref in Refs(todo) ensures ref in live {
      }
    }
    forall s | s in todo ensures s.row.ref in Refs(todo) {
    }
  }

  lemma TowardChains(d: Data, e: Data, f: Data, user: UserId)
    requires Toward(d, e, user) && Toward(e, f, user)
    ensures Toward(d, f, user)
  {
    forall id | id in d.keys ensures f.keys[id] == d.keys[id] || RevokedOnTheWay(d, f, user, id) {
      assert id in e.keys;
    }
    forall ref | ref in RefsOf(e.keys, ActiveOf(e.keys, user)) ensures ref in RefsOf(d.keys, ActiveOf(d.keys, user)) {
      var id :| id in ActiveOf(e.keys, user) && e.keys[id].ref == ref;
      assert id in ActiveOf(d.keys, user) && d.keys[id].ref == ref;
    }
    forall ref | ref in d.remote.live - f.remote.live ensures ref in RefsOf(d.keys, ActiveOf(d.keys, user)) {
      assert ref in d.remote.live - e.remote.live || ref in e.remote.live - f.remote.live;
    }
    forall i | 0 <= i < |d.devices| ensures Rank(e.devices, user, i) == Rank(d.devices, user, i) {
      RanksDependOnUsers(d.devices, e.devices, user, i);
    }
  }

  /** Wherever the cascade was interrupted, completing it leads to the same place. */
  lemma TowardConverges(d: Data, e: Data, user: UserId)
    requires Toward(d, e, user) && e.users == d.users
    ensures Same(WithoutAccess(e, user), WithoutAccess(d, user))
  {
    MarkingTwice(d.devices, e.devices, user);
    KeysConverge(d, e, user);
  }

  lemma KeysConverge(d: Data, e: Data, user: UserId)
    requires Toward(d, e, user)
    ensures Marked(e.keys, ActiveOf(e.keys, user), Revoked) == Marked(d.keys, ActiveOf(d.keys, user), Revoked)
    ensures e.remote.live - RefsOf(e.keys, ActiveOf(e.keys, user))
            == d.remote.live - RefsOf(d.keys, ActiveOf(d.keys, user))
  {
    hide Rank;
    assert ActiveOf(e.keys, user) <= ActiveOf(d.keys, user);
    forall ref | ref in RefsOf(d.keys, ActiveOf(d.keys, user)) && ref in e.remote.live
      ensures ref in RefsOf(e.keys, ActiveOf(e.keys, user))
    {
      var id :| id in ActiveOf(d.keys, user) && d.keys[id].ref == ref;
      assert e.keys[id] == d.keys[id];
      assert id in ActiveOf(e.keys, user);
    }
  }

  lemma SameIsToward(d: Data, e: Data, user: UserId)
    requires Same(d, e)
    ensures Toward(d, e, user)
  {
  }

  /** One attempt, however it ends. */
  lemma DisableProgress(cfg: Config, env: Env, d: Data, user: UserId)
    requires UniqueDevices(d.devices) && Known(d, user)
    ensures var (e, ok) := Disable(cfg, env, d, user);
            && Toward(d, e, user)
            && (e.users == d.users || e.users == DisabledState(d, user).users)
            && (ok ==> Same(e, DisabledState(d, user)))
  {
    hide RevokeAllAccess, MarkDevices, UniqueDevices, Rank;
    var (d1, read) := Read(env, d);
    SameIsToward(d, d, user);
    if read {
      var (d2, saved) := SaveUser(env, d1, user, d1.users[user].(status := UserDisabled));
      if saved {
        CascadeProgress(cfg, env, d2, user);
      }
    }
  }

  /** Without faults, Disable succeeds exactly when each ACTIVE key of the user can be deleted. */
  lemma DisableCompletes(cfg: Config, env: Env, d: Data, user: UserId)
    requires FaultFree(env) && UniqueDevices(d.devices) && (cfg.strict ==> UniqueRefs(d.keys)) && Known(d, user)
    ensures var (e, ok) := Disable(cfg, env, d, user);
            && (ok <==> (cfg.strict ==> RefsOf(d.keys, ActiveOf(d.keys, user)) <= d.remote.live))
            && (ok ==> Same(e, DisabledState(d, user)))
            && (ok ==> exists todo :: Batch(d.keys, todo) && Ids(todo) == ActiveOf(d.keys, user)
                                      && e.remote.revoked == d.remote.revoked + RefList(todo))
  {
    hide RevokeAllAccess, MarkDevices, UniqueDevices, UniqueRefs, Batch, RefList;
    assert env(d.calls).outcome.Good? && env(d.calls + 1).outcome.Good?;
    var (d1, read) := Read(env, d);
    var (d2, saved) := SaveUser(env, d1, user, d1.users[user].(status := UserDisabled));
    CascadeCompletes(cfg, env, d2, user);
    DisableProgress(cfg, env, d, user);
  }

  /** Disable called once per environment, ignoring how the calls end. */
  function Attempts(cfg: Config, envs: seq<Env>, d: Data, user: UserId): Data
    decreases |envs|
  {
    if envs == [] then d else Attempts(cfg, envs[1..], Disable(cfg, envs[0], d, user).0, user)
  }

  lemma {:induction false} AttemptsProgress(cfg: Config, envs: seq<Env>, d: Data, user: UserId)
    requires UniqueDevices(d.devices) && Known(d, user)
    ensures var e := Attempts(cfg, envs, d, user);
            && Toward(d, e, user) && UniqueDevices(e.devices)
            && (e.users == d.users || e.users == DisabledState(d, user).users)
    decreases |envs|
  {
    hide Toward, Disable, MarkDevices;
    SameIsToward(d, d, user);
    if envs != [] {
      DisableProgress(cfg, envs[0], d, user);
      var e := Disable(cfg, envs[0], d, user).0;
      TowardKeepsDevices(d, e, user);
      AttemptsProgress(cfg, envs[1..], e, user);
      TowardChains(d, e, Attempts(cfg, envs, d, user), user);
    }
  }

  lemma TowardKeepsDevices(d: Data, e: Data, user: UserId)
    requires Toward(d, e, user) && UniqueDevices(d.devices)
    ensures UniqueDevices(e.devices)
  {
  }

  /**
   Retrying converges: with a tolerant provider, any number of interrupted attempts followed by one
   fault-free Disable reaches the same tables and the same working keys as that Disable alone.
   */
  lemma {:induction false} RetriesConverge(cfg: Config, envs: seq<Env>, env: Env, d: Data, user: UserId)
    requires !cfg.strict && FaultFree(env) && UniqueDevices(d.devices) && Known(d, user)
    ensures var (e, ok) := Disable(cfg, env, Attempts(cfg, envs, d, user), user);
            ok && Same(e, DisabledState(d, user))
  {
    hide Toward, Attempts, Disable, MarkDevices, UniqueDevices;
    AttemptsProgress(cfg, envs, d, user);
    var e := Attempts(cfg, envs, d, user);
    DisableCompletes(cfg, env, e, user);
    TowardIgnoresUsers(d, e, user);
    TowardConverges(d, e.(users := d.users), user);
  }

  lemma TowardIgnoresUsers(d: Data, e: Data, user: UserId)
    requires Toward(d, e, user)
    ensures Toward(d, e.(users := d.users), user)
  {
  }

  // Devices beyond the listing.

  /** Every device of `user` with at least `from` newer ones is REVOKED. */
  predicate RevokedFrom(devices: seq<Device>, user: UserId, from: nat) {
    forall i :: 0 <= i < |devices| && devices[i].user == user && Rank(devices, user, i) >= from
                ==> devices[i].status == DeviceRevoked
  }

  lemma MarkingReaches(devices: seq<Device>, user: UserId)
    ensures RevokedFrom(MarkDevices(devices, user, 200), user, 0) <==> RevokedFrom(devices, user, 200)
    ensures |DevicesOf(devices, user)| <= 200 ==> RevokedFrom(devices, user, 200)
  {
    var marked := MarkDevices(devices, user, 200);
    forall i | 0 <= i < |devices|
      ensures Rank(marked, user, i) == Rank(devices, user, i)
      ensures devices[i].user == user ==> Rank(devices, user, i) < |DevicesOf(devices, user)|
    {
      RanksDependOnUsers(devices, marked, user, i);
      if devices[i].user == user {
        RankIncreases(devices, user, i, |devices|);
        assert devices[..|devices|] == devices;
      }
    }
  }

  /**
   After a successful Disable, whatever attempts went before, all devices of the user are REVOKED
   exactly when those beyond the 200 newest were REVOKED already, so always if there are at most 200.
   No attempt, failed or not, changes a device beyond them.
   */
  lemma {:induction false} RepeatingReachesNoMore(cfg: Config, envs: seq<Env>, env: Env, d: Data, user: UserId)
    requires UniqueDevices(d.devices) && Known(d, user)
    ensures var (e, ok) := Disable(cfg, env, Attempts(cfg, envs, d, user), user);
            && |e.devices| == |d.devices|
            && (forall i :: 0 <= i < |d.devices| && Rank(d.devices, user, i) >= 200 ==> e.devices[i] == d.devices[i])
            && (ok ==> (RevokedFrom(e.devices, user, 0) <==> RevokedFrom(d.devices, user, 200)))
            && (ok && |DevicesOf(d.devices, user)| <= 200 ==> RevokedFrom(e.devices, user, 0))
  {
    hide Attempts, Disable, MarkDevices, UniqueDevices, RevokedFrom, DevicesOf, Rank;
    AttemptsProgress(cfg, envs, d, user);
    var d1 := Attempts(cfg, envs, d, user);
    DisableProgress(cfg, env, d1, user);
    TowardChains(d, d1, Disable(cfg, env, d1, user).0, user);
    MarkingTwice(d.devices, d1.devices, user);
    MarkingReaches(d.devices, user);
  }

  lemma {:induction false} RankOfOwn(devices: seq<Device>, user: UserId, i: nat)
    requires i <= |devices| && forall k :: 0 <= k < i ==> devices[k].user == user
    ensures Rank(devices, user, i) == i
    decreases i
  {
    if i > 0 {
      RankStep(devices, user, i - 1);
      RankOfOwn(devices, user, i - 1);
    }
  }

  /** With 201 ACTIVE devices the oldest is still ACTIVE after any number of calls to Disable. */
  lemma OldestDeviceKeepsAccess(cfg: Config, envs: seq<Env>, d: Data, user: UserId)
    requires Known(d, user) && d.devices == seq(201, i requires 0 <= i < 201 => Device(i, user, DeviceActive))
    ensures var e := Attempts(cfg, envs, d, user); |e.devices| == 201 && e.devices[200] == Device(200, user, DeviceActive)
  {
    hide Attempts, Rank;
    AttemptsProgress(cfg, envs, d, user);
    RankOfOwn(d.devices, user, 200);
  }

  // Other users.

  /** The user's keys and devices are as they were, and so is which of the keys work. */
  ghost predicate SameAccess(d: Data, e: Data, user: UserId) {
    && d.keys.Keys == e.keys.Keys
    && (forall id :: id in d.keys && d.keys[id].user == user ==> e.keys[id] == d.keys[id])
    && (forall id :: id in d.keys ==> e.keys[id].user == d.keys[id].user && e.keys[id].ref == d.keys[id].ref)
    && (UniqueRefs(d.keys) ==>
          forall id :: id in d.keys && d.keys[id].user == user ==>
            (d.keys[id].ref in e.remote.live <==> d.keys[id].ref in d.remote.live))
    && |e.devices| == |d.devices|
    && (forall i :: 0 <= i < |d.devices| ==>
          e.devices[i].user == d.devices[i].user && (d.devices[i].user == user ==> e.devices[i] == d.devices[i]))
  }

  ghost predicate SameForUser(d: Data, e: Data, user: UserId) {
    && (user in d.users <==> user in e.users) && (user in d.users ==> e.users[user] == d.users[user])
    && SameAccess(d, e, user)
  }

  lemma SameAccessChains(d: Data, e: Data, f: Data, user: UserId)
    requires SameAccess(d, e, user) && SameAccess(e, f, user)
    ensures SameAccess(d, f, user)
  {
    forall id | id in d.keys ensures f.keys[id].user == d.keys[id].user && f.keys[id].ref == d.keys[id].ref {
      assert id in e.keys;
    }
    forall id | id in d.keys && d.keys[id].user == user ensures f.keys[id] == d.keys[id] {
      assert e.keys[id].user == user;
    }
  }

  /** A cascade over one user, finished or not, leaves every other user's access alone. */
  lemma TowardSparesOthers(d: Data, e: Data, user: UserId, other: UserId)
    requires Toward(d, e, user) && user != other
    ensures SameAccess(d, e, other)
  {
    hide Rank;
    forall id | UniqueRefs(d.keys) && id in d.keys && d.keys[id].user == other
      ensures d.keys[id].ref in e.remote.live <==> d.keys[id].ref in d.remote.live
    {
      assert d.keys[id].ref !in RefsOf(d.keys, ActiveOf(d.keys, user));
    }
  }

  /** Other users keep their row, keys and devices, and their keys keep working, however often Disable is tried. */
  lemma {:induction false} OthersKeepAccess(cfg: Config, envs: seq<Env>, d: Data, user: UserId, other: UserId)
    requires UniqueDevices(d.devices) && Known(d, user) && user != other
    ensures SameForUser(d, Attempts(cfg, envs, d, user), other)
  {
    hide Attempts, Toward, SameAccess;
    AttemptsProgress(cfg, envs, d, user);
    TowardSparesOthers(d, Attempts(cfg, envs, d, user), user, other);
  }

  /** Deleting a user runs the same cascade and hides the row only if the cascade succeeded. */
  lemma DeleteUserProgress(cfg: Config, env: Env, d: Data, user: UserId)
    requires UniqueDevices(d.devices) && Known(d, user)
    ensures var (e, ok) := DeleteUser(cfg, env, d, user);
            && Toward(d, e, user)
            && (e.users != d.users ==> Same(e.(users := d.users), WithoutAccess(d, user)))
            && (ok ==> Same(e, WithoutAccess(d, user).(users := d.users[user := d.users[user].(deleted := true)])))
  {
    hide RevokeAllAccess, MarkDevices, UniqueDevices, Rank;
    var (d1, read) := Read(env, d);
    SameIsToward(d, d, user);
    if read {
      CascadeProgress(cfg, env, d1, user);
    }
  }

  /** Without faults, deletion succeeds exactly when each ACTIVE key of the user can be deleted. */
  lemma DeleteUserCompletes(cfg: Config, env: Env, d: Data, user: UserId)
    requires FaultFree(env) && UniqueDevices(d.devices) && (cfg.strict ==> UniqueRefs(d.keys)) && Known(d, user)
    ensures DeleteUser(cfg, env, d, user).1
            <==> (cfg.strict ==> RefsOf(d.keys, ActiveOf(d.keys, user)) <= d.remote.live)
  {
    hide RevokeAllAccess, MarkDevices, UniqueDevices, UniqueRefs, Batch;
    assert env(d.calls).outcome.Good?;
    var d1 := Read(env, d).0;
    CascadeCompletes(cfg, env, d1, user);
    var d2 := RevokeAllAccess(cfg, env, d1, user).0;
    assert env(d2.calls).outcome.Good?;
  }

  /** A user who is not there, or is deleted, is refused, and nothing changes. */
  lemma UnknownUserIsRefused(cfg: Config, env: Env, d: Data, user: UserId)
    requires user in d.users ==> d.users[user].deleted
    ensures Disable(cfg, env, d, user) == (d.(calls := d.calls + 1), false)
    ensures DeleteUser(cfg, env, d, user) == (d.(calls := d.calls + 1), false)
  {
    hide RevokeAllAccess;
  }
}
