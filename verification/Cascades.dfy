/** What cascades and sweeps achieve: in closed form without faults, and however they are interrupted. */
module Cascades {
  import opened Model
  import opened Services
  import Pagination

  // Batches of keys.

  function Ids(todo: seq<Snap>): set<KeyId> { set s | s in todo :: s.id }

  function Refs(todo: seq<Snap>): set<Ref> { set s | s in todo :: s.row.ref }

  function RefList(todo: seq<Snap>): (refs: seq<Ref>)
    ensures |refs| == |todo| && forall i :: 0 <= i < |todo| ==> refs[i] == todo[i].row.ref
  {
    seq(|todo|, i requires 0 <= i < |todo| => todo[i].row.ref)
  }

  /** The table with the status of these rows set, everything else as it was. */
  function Marked(keys: map<KeyId, Key>, ids: set<KeyId>, target: Status): map<KeyId, Key> {
    map id | id in keys :: if id in ids then keys[id].(status := target) else keys[id]
  }

  /** A batch as one query reads it: stored rows, each once. */
  predicate Batch(keys: map<KeyId, Key>, todo: seq<Snap>) {
    && (forall s :: s in todo ==> s.id in keys && keys[s.id] == s.row)
    && (forall i, j :: 0 <= i < j < |todo| ==> todo[i].id != todo[j].id)
  }

  ghost predicate UniqueRefs(keys: map<KeyId, Key>) {
    forall x, y :: x in keys && y in keys && keys[x].ref == keys[y].ref ==> x == y
  }

  lemma {:induction false} OnlyActiveIsBatch(keys: map<KeyId, Key>, rows: seq<Snap>)
    requires Batch(keys, rows)
    ensures Batch(keys, OnlyActive(rows))
    decreases |rows|
  {
    if rows != [] {
      assert forall s :: s in rows[1..] ==> s in rows;
      OnlyActiveIsBatch(keys, rows[1..]);
      var rest := OnlyActive(rows[1..]);
      forall j | 0 <= j < |rest| ensures rest[j].id != rows[0].id {
        assert rest[j] in rows[1..];
        var k :| 0 <= k < |rows[1..]| && rows[1..][k] == rest[j];
        assert rows[k + 1] == rest[j];
      }
    }
  }

  lemma CascadeIsBatch(keys: map<KeyId, Key>, user: UserId, rank: nat -> nat)
    ensures Batch(keys, OnlyActive(KeysOfUser(keys, user, rank)))
  {
    var ids := set id | id in keys && keys[id].user == user;
    QueryReads(keys, ids, rank);
    OnlyActiveIsBatch(keys, KeysOfUser(keys, user, rank));
  }

  lemma SweepIsBatch(keys: map<KeyId, Key>, now: int, rank: nat -> nat)
    ensures Batch(keys, OverdueKeys(keys, now, rank))
  {
    QueryReads(keys, (set id | id in keys && Overdue(keys[id], now)), rank);
  }

  lemma BatchRest(keys: map<KeyId, Key>, todo: seq<Snap>, target: Status)
    requires Batch(keys, todo) && todo != []
    ensures Batch(keys[todo[0].id := todo[0].row.(status := target)], todo[1..])
    ensures UniqueRefs(keys) ==> UniqueRefs(keys[todo[0].id := todo[0].row.(status := target)])
    ensures UniqueRefs(keys) ==> forall x :: x in todo[1..] ==> x.row.ref != todo[0].row.ref
  {
    assert forall x :: x in todo[1..] ==> x in todo;
    assert todo[0] in todo;
    forall x | x in todo[1..] ensures x.id != todo[0].id {
      var i :| 0 <= i < |todo[1..]| && todo[1..][i] == x;
      assert todo[i + 1] == x;
    }
  }

  lemma PrefixStep(todo: seq<Snap>, k: nat)
    requires todo != [] && k < |todo|
    ensures Ids(todo[..k + 1]) == {todo[0].id} + Ids(todo[1..][..k])
    ensures Refs(todo[..k + 1]) == {todo[0].row.ref} + Refs(todo[1..][..k])
  {
    assert todo[..k + 1] == [todo[0]] + todo[1..][..k];
  }

  lemma MarkedStep(keys: map<KeyId, Key>, s: Snap, ids: set<KeyId>, target: Status)
    requires s.id in keys && keys[s.id] == s.row
    ensures Marked(keys[s.id := s.row.(status := target)], ids, target) == Marked(keys, {s.id} + ids, target)
    ensures Marked(keys, {}, target) == keys
  {
  }

  /** One row of a batch: nothing happened, or its key is gone, or also its row is saved. */
  lemma RetireOneProgress(cfg: Config, env: Env, d: Data, s: Snap, target: Status)
    returns (recorded: nat, deleted: nat)
    ensures recorded <= deleted <= 1
    ensures var (d1, ok) := RetireOne(cfg, env, d, s, target);
            && d1.keys == (if recorded == 0 then d.keys else d.keys[s.id := s.row.(status := target)])
            && d1.remote.live == (if deleted == 0 then d.remote.live else d.remote.live - {s.row.ref})
            && (d1.users, d1.devices, d1.servers, d1.remote.issued) == (d.users, d.devices, d.servers, d.remote.issued)
            && (ok ==> recorded == 1)
  {
    var (d1, gone) := DeleteOnProvider(cfg, env, d, s.row.ref);
    deleted := if gone || env(d.calls).outcome.Lost? then 1 else 0;
    recorded := if gone && !env(d1.calls).outcome.Bad? then 1 else 0;
  }

  /**
   However a batch is interrupted, the rows of a prefix are recorded, and the keys deleted are those
   of that prefix and at most one more.
   */
  lemma {:induction false} RetireAllProgress(cfg: Config, env: Env, d: Data, todo: seq<Snap>, target: Status)
    returns (recorded: nat, deleted: nat)
    requires Batch(d.keys, todo)
    ensures recorded <= deleted <= |todo| && deleted <= recorded + 1
    ensures var (d1, ok) := RetireAll(cfg, env, d, todo, target);
            && d1.keys == Marked(d.keys, Ids(todo[..recorded]), target)
            && d1.remote.live == d.remote.live - Refs(todo[..deleted])
            && (d1.users, d1.devices, d1.servers, d1.remote.issued) == (d.users, d.devices, d.servers, d.remote.issued)
            && (ok ==> recorded == |todo|)
    decreases |todo|
  {
    hide RetireOne, Marked, Ids, Refs;
    if todo == [] {
      recorded, deleted := 0, 0;
      EmptyBatch(d.keys, target);
    } else {
      recorded, deleted := RetireOneProgress(cfg, env, d, todo[0], target);
      var (d1, ok) := RetireOne(cfg, env, d, todo[0], target);
      EmptyBatch(d.keys, target);
      assert todo[..0] == [] && todo[1..][..0] == [];
      PrefixStep(todo, 0);
      assert todo[0] in todo;
      MarkedStep(d.keys, todo[0], {}, target);
      if ok {
        BatchRest(d.keys, todo, target);
        var k, l := RetireAllProgress(cfg, env, d1, todo[1..], target);
        recorded, deleted := k + 1, l + 1;
        PrefixStep(todo, k);
        if l < |todo| { PrefixStep(todo, l); }
        MarkedStep(d.keys, todo[0], Ids(todo[1..][..k]), target);
      } else {
        EmptyBatch(d1.keys, target);
      }
    }
  }

  lemma EmptyBatch(keys: map<KeyId, Key>, target: Status)
    ensures Ids([]) == {} && Refs([]) == {} && Marked(keys, {}, target) == keys
  {
  }

  predicate Deletable(cfg: Config, live: set<Ref>, todo: seq<Snap>) {
    cfg.strict ==> forall s :: s in todo ==> s.row.ref in live
  }

  /** Without faults a batch succeeds exactly when every key can be deleted, and then each is deleted once, in order. */
  lemma {:induction false} RetireAllCompletes(cfg: Config, env: Env, d: Data, todo: seq<Snap>, target: Status)
    requires FaultFree(env) && Batch(d.keys, todo) && (cfg.strict ==> UniqueRefs(d.keys))
    ensures var (d1, ok) := RetireAll(cfg, env, d, todo, target);
            && (ok <==> Deletable(cfg, d.remote.live, todo))
            && (ok ==> d1.remote.revoked == d.remote.revoked + RefList(todo))
    decreases |todo|
  {
    hide RetireOne, UniqueRefs, Batch, Deletable, FaultFree, RefList;
    assert d.remote.revoked + [] == d.remote.revoked;
    RefListStep(todo);
    if todo == [] {
      NothingToDelete(cfg, d.remote.live);
    } else {
      RetireOneCompletes(cfg, env, d, todo[0], target);
      BatchRest(d.keys, todo, target);
      DeletableStep(cfg, d.remote.live, todo);
      var (d1, ok) := RetireOne(cfg, env, d, todo[0], target);
      if ok {
        RetireAllCompletes(cfg, env, d1, todo[1..], target);
        Associates(d.remote.revoked, todo[0].row.ref, RefList(todo[1..]));
      }
    }
  }

  lemma Associates(s: seq<Ref>, r: Ref, t: seq<Ref>)
    ensures s + [r] + t == s + ([r] + t)
  {
  }

  lemma NothingToDelete(cfg: Config, live: set<Ref>)
    ensures Deletable(cfg, live, [])
  {
  }

  lemma RefListStep(todo: seq<Snap>)
    ensures RefList(todo) == if todo == [] then [] else [todo[0].row.ref] + RefList(todo[1..])
  {
  }

  lemma DeletableStep(cfg: Config, live: set<Ref>, todo: seq<Snap>)
    requires todo != [] && (cfg.strict ==> forall x :: x in todo[1..] ==> x.row.ref != todo[0].row.ref)
    ensures Deletable(cfg, live, todo)
            <==> (!cfg.strict || todo[0].row.ref in live) && Deletable(cfg, live - {todo[0].row.ref}, todo[1..])
  {
    assert forall x :: x in todo <==> x == todo[0] || x in todo[1..];
  }

  lemma RetireOneCompletes(cfg: Config, env: Env, d: Data, s: Snap, target: Status)
    requires FaultFree(env)
    ensures var (d1, ok) := RetireOne(cfg, env, d, s, target);
            && (ok <==> !cfg.strict || s.row.ref in d.remote.live)
            && (ok ==> d1.keys == d.keys[s.id := s.row.(status := target)]
                       && d1.remote.live == d.remote.live - {s.row.ref}
                       && d1.remote.revoked == d.remote.revoked + [s.row.ref])
  {
    assert env(d.calls).outcome.Good? && env(d.calls + 1).outcome.Good?;
  }

  // Devices.

  /** How many of the user's devices are newer than the i-th one. */
  function Rank(devices: seq<Device>, user: UserId, i: nat): nat
    requires i <= |devices|
  {
    |DevicesOf(devices[..i], user)|
  }

  /** The table with the user's `n` newest devices revoked, everything else as it was. */
  function MarkDevices(devices: seq<Device>, user: UserId, n: nat): (s: seq<Device>)
    ensures |s| == |devices|
  {
    seq(|devices|, i requires 0 <= i < |devices| =>
        if devices[i].user == user && Rank(devices, user, i) < n
        then devices[i].(status := DeviceRevoked) else devices[i])
  }

  predicate UniqueDevices(devices: seq<Device>) {
    forall i, j :: 0 <= i < j < |devices| ==> devices[i].id != devices[j].id
  }

  lemma RankStep(devices: seq<Device>, user: UserId, i: nat)
    requires i < |devices|
    ensures Rank(devices, user, i + 1) == Rank(devices, user, i) + if devices[i].user == user then 1 else 0
  {
    assert devices[..i + 1][..i] == devices[..i];
  }

  lemma {:induction false} RankIncreases(devices: seq<Device>, user: UserId, i: nat, j: nat)
    requires i < j <= |devices| && devices[i].user == user
    ensures Rank(devices, user, i) < Rank(devices, user, j)
    decreases j
  {
    RankStep(devices, user, j - 1);
    if i < j - 1 {
      RankIncreases(devices, user, i, j - 1);
    }
  }

  lemma {:induction false} FindRank(devices: seq<Device>, user: UserId, k: nat) returns (i: nat)
    requires k < |DevicesOf(devices, user)|
    ensures i < |devices| && devices[i].user == user && Rank(devices, user, i) == k
    ensures devices[i] == DevicesOf(devices, user)[k]
    decreases |devices|
  {
    var n := |devices| - 1;
    if k < |DevicesOf(devices[..n], user)| {
      i := FindRank(devices[..n], user, k);
      assert devices[..n][..i] == devices[..i];
    } else {
      i := n;
    }
  }

  lemma {:induction false} RanksDependOnUsers(devices: seq<Device>, others: seq<Device>, user: UserId, i: nat)
    requires |devices| == |others| && i <= |devices|
    requires forall k :: 0 <= k < |devices| ==> devices[k].user == others[k].user
    ensures Rank(devices, user, i) == Rank(others, user, i)
    decreases i
  {
    if i > 0 {
      RankStep(devices, user, i - 1);
      RankStep(others, user, i - 1);
      RanksDependOnUsers(devices, others, user, i - 1);
    } else {
      assert devices[..0] == others[..0];
    }
  }

  /** Saving the k-th listed device revoked takes the table from k to k + 1 revoked devices. */
  lemma SaveMarks(devices: seq<Device>, user: UserId, k: nat)
    requires UniqueDevices(devices) && k < |DevicesOf(devices, user)|
    ensures var device := DevicesOf(devices, user)[k].(status := DeviceRevoked);
            ReplaceDevice(MarkDevices(devices, user, k), device) == MarkDevices(devices, user, k + 1)
    ensures DevicesOf(devices, user)[k].status == DeviceRevoked
            ==> MarkDevices(devices, user, k) == MarkDevices(devices, user, k + 1)
  {
    var i := FindRank(devices, user, k);
    forall j | 0 <= j < |devices| && devices[j].user == user && Rank(devices, user, j) == k ensures j == i {
      if j < i { RankIncreases(devices, user, j, i); }
      if i < j { RankIncreases(devices, user, i, j); }
    }
  }

  /** However the device loop is interrupted, the newest ones of the listing are revoked. */
  lemma {:induction false} RevokeDevicesProgress(env: Env, d: Data, user: UserId, devices: seq<Device>,
                                                 count: nat, k: nat)
    returns (done: nat)
    requires UniqueDevices(devices) && k <= count <= |DevicesOf(devices, user)|
    requires d.devices == MarkDevices(devices, user, k)
    ensures k <= done <= count
    ensures var (d1, ok) := RevokeDevices(env, d, DevicesOf(devices, user)[..count][k..]);
            && d1 == d.(devices := MarkDevices(devices, user, done), calls := d1.calls)
            && (ok ==> done == count)
            && (FaultFree(env) ==> ok)
    decreases count - k
  {
    hide MarkDevices, ReplaceDevice, UniqueDevices, DevicesOf;
    var todo := DevicesOf(devices, user)[..count][k..];
    if k == count {
      done := k;
    } else {
      assert todo[0] == DevicesOf(devices, user)[k] && todo[1..] == DevicesOf(devices, user)[..count][k + 1..];
      SaveMarks(devices, user, k);
      if todo[0].status == DeviceRevoked {
        done := RevokeDevicesProgress(env, d, user, devices, count, k + 1);
      } else {
        var (d1, ok) := SaveDevice(env, d, todo[0].(status := DeviceRevoked));
        if ok {
          done := RevokeDevicesProgress(env, d1, user, devices, count, k + 1);
        } else {
          done := if env(d.calls).outcome.Bad? then k else k + 1;
        }
      }
    }
  }

  /** The cascade asks for 1000 devices and gets at most 200. */
  lemma CascadeListing(devices: seq<Device>, user: UserId)
    ensures var all := DevicesOf(devices, user);
            CascadeDevices(devices, user) == all[..Pagination.Min(|all|, 200)]
  {
    assert Pagination.Normalize(Pagination.Request(0, 1000)) == Pagination.Window(1, 200, 0);
  }

  lemma MarkingAllListed(devices: seq<Device>, user: UserId)
    ensures MarkDevices(devices, user, 0) == devices
    ensures MarkDevices(devices, user, Pagination.Min(|DevicesOf(devices, user)|, 200)) == MarkDevices(devices, user, 200)
  {
    forall i | 0 <= i < |devices| && devices[i].user == user
      ensures Rank(devices, user, i) < |DevicesOf(devices, user)|
    {
      RankIncreases(devices, user, i, |devices|);
      assert devices[..|devices|] == devices;
    }
  }

  /** Marking again changes nothing: devices beyond the 200 newest are never reached. */
  lemma MarkingTwice(devices: seq<Device>, others: seq<Device>, user: UserId)
    requires |others| == |devices|
    requires forall i :: 0 <= i < |devices| ==>
               others[i] == devices[i]
               || (devices[i].user == user && Rank(devices, user, i) < 200
                   && others[i] == devices[i].(status := DeviceRevoked))
    ensures MarkDevices(others, user, 200) == MarkDevices(devices, user, 200)
  {
    forall i | 0 <= i < |devices| ensures Rank(others, user, i) == Rank(devices, user, i) {
      RanksDependOnUsers(devices, others, user, i);
    }
  }
}
