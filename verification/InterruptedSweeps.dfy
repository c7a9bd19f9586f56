/**
 Interrupted user sweeps: what they leave behind, and exactly which users a later sweep completes.
 The sweep stores a user as EXPIRED before it revokes anything, and it only reads ACTIVE users.
 */
module InterruptedSweeps {
  import opened Model
  import opened Services
  import opened Cascades
  import opened Disabling
  import opened Sweeping

  lemma ExpiredSparesOthers(d: Data, done: set<UserId>, other: UserId)
    requires other !in done
    ensures SameForUser(d, UsersExpired(d, done), other)
  {
    hide Rank;
    var e := UsersExpired(d, done);
    forall id | UniqueRefs(d.keys) && id in d.keys && d.keys[id].user == other
      ensures d.keys[id].ref in e.remote.live <==> d.keys[id].ref in d.remote.live
    {
      assert d.keys[id].ref !in RefsOf(d.keys, ActiveOfAll(d.keys, done));
    }
  }

  lemma SameHasSameAccess(d: Data, e: Data, user: UserId)
    requires Same(d, e)
    ensures SameForUser(d, e, user)
  {
  }

  lemma StoppedSparesOthers(d: Data, e: Data, done: set<UserId>, user: UserId, other: UserId)
    requires StoppedAt(d, e, done, user) && other !in done && other != user
    ensures SameForUser(d, e, other)
  {
    hide Toward, SameAccess;
    var reached := UsersExpired(d, done);
    ExpiredSparesOthers(d, done, other);
    if Same(e, reached) {
      SameHasSameAccess(reached, e, other);
    } else {
      TowardSparesOthers(reached, e, user, other);
    }
    SameAccessChains(d, reached, e, other);
  }

  /** No row disappears, and its owner's status at most becomes EXPIRED. */
  lemma StoppedExpires(d: Data, e: Data, done: set<UserId>, user: UserId)
    requires StoppedAt(d, e, done, user) && UniqueDevices(d.devices)
    ensures UniqueDevices(e.devices)
    ensures forall u :: u in d.users ==> u in e.users && e.users[u] in {d.users[u], d.users[u].(status := UserExpired)}
  {
    hide Rank;
  }

  /** The users of `todo[..k]` are EXPIRED and cut off, and `todo[k]`, if there is one, is left on the way. */
  ghost predicate SweptUpTo(d: Data, e: Data, todo: seq<UserId>, k: nat) {
    && k <= |todo|
    && if k == |todo| then Same(e, UsersExpired(d, Elements(todo)))
       else StoppedAt(d, e, Elements(todo[..k]), todo[k])
  }

  /** Nobody else's row, keys, devices or working keys have changed. */
  lemma SweptSparesOthers(d: Data, e: Data, todo: seq<UserId>, k: nat, other: UserId)
    requires SweptUpTo(d, e, todo, k) && other !in todo[..k] && (k < |todo| ==> other != todo[k])
    ensures SameForUser(d, e, other)
  {
    hide UsersExpired, SameAccess, StoppedAt;
    if k == |todo| {
      assert todo[..k] == todo;
      ExpiredSparesOthers(d, Elements(todo), other);
      var reached := UsersExpired(d, Elements(todo));
      SameHasSameAccess(reached, e, other);
      SameAccessChains(d, reached, e, other);
    } else {
      StoppedSparesOthers(d, e, Elements(todo[..k]), todo[k], other);
    }
  }

  lemma SweptExpires(d: Data, e: Data, todo: seq<UserId>, k: nat)
    requires SweptUpTo(d, e, todo, k) && UniqueDevices(d.devices)
    ensures UniqueDevices(e.devices)
    ensures forall u :: u in d.users ==> u in e.users && e.users[u] in {d.users[u], d.users[u].(status := UserExpired)}
  {
    hide UsersExpired;
    StoppedExpires(d, e, if k == |todo| then Elements(todo) else Elements(todo[..k]), if k == |todo| then 0 else todo[k]);
  }

  /** However a user sweep ends, it has worked through its listing up to some point; to the end if it succeeds. */
  lemma SweepUsersStops(cfg: Config, env: Env, d: Data, now: int) returns (todo: seq<UserId>, k: nat)
    requires UniqueDevices(d.devices)
    ensures var (e, count) := SweepUsers(cfg, env, d, now);
            && Distinct(todo) && Elements(todo) == LapsedIds(d.users, now)
            && k <= |todo| && SweptUpTo(d, e, todo, k) && (count.Some? ==> k == |todo|)
  {
    hide ExpireUsers, UsersExpired, UniqueDevices, LapsedUsers, StoppedAt, Distinct, Elements;
    todo, k := LapsedUsers(d.users, now, env(d.calls).rank), 0;
    LapsedElements(d.users, now, env(d.calls).rank);
    ListingIsDistinct(d.users, now, env(d.calls).rank);
    var (d1, read) := Read(env, d);
    var e := SweepUsers(cfg, env, d, now).0;
    NobodyLapsed(d);
    if read {
      ListedAreLapsed(d.users, now, todo);
      k := ExpireUsersProgress(cfg, env, d1, todo, d1.users);
      SweptFrom(d, d1, e, todo, k);
    } else {
      assert todo[..0] == [];
      assert Elements([]) == {} by { NoElements(); }
      if todo != [] {
        assert todo[0] in d.users by { ListedAreLapsed(d.users, now, todo); }
        StoppedAtFirst(d, e, todo[0]);
      }
    }
  }

  lemma ListingIsDistinct(users: map<UserId, User>, now: int, rank: nat -> nat)
    ensures Distinct(LapsedUsers(users, now, rank))
  {
  }

  lemma ListedAreLapsed(users: map<UserId, User>, now: int, todo: seq<UserId>)
    requires Elements(todo) == LapsedIds(users, now)
    ensures forall u :: u in todo ==> u in users
  {
    assert forall u :: u in todo ==> u in Elements(todo);
  }

  /** A listing read costs a call and changes nothing else. */
  lemma SweptFrom(d: Data, d1: Data, e: Data, todo: seq<UserId>, k: nat)
    requires d1 == d.(calls := d1.calls) && k <= |todo|
    requires if k == |todo| then Same(e, UsersExpired(d1, Elements(todo)))
             else StoppedAt(d1, e, Elements(todo[..k]), todo[k])
    ensures SweptUpTo(d, e, todo, k)
  {
    hide UsersExpired, StoppedAt, Elements;
    var done := if k == |todo| then Elements(todo) else Elements(todo[..k]);
    SameUsersExpired(d1, d, done);
    if k == |todo| {
      SameChains(e, UsersExpired(d1, done), UsersExpired(d1, done), UsersExpired(d, done));
    } else {
      SameStops(d, d1, e, done, done, todo[k]);
    }
  }

  /** Any number of user sweeps, at any times and however they end. */
  function UserSweeps(cfg: Config, envs: seq<Env>, nows: seq<int>, d: Data): Data
    requires |envs| == |nows|
    decreases |envs|
  {
    if envs == [] then d else UserSweeps(cfg, envs[1..], nows[1..], SweepUsers(cfg, envs[0], d, nows[0]).0)
  }

  /** The user has no ACTIVE key, and none of the listed devices is left to revoke. */
  predicate NoAccessLeft(d: Data, user: UserId) {
    ActiveOf(d.keys, user) == {} && MarkDevices(d.devices, user, 200) == d.devices
  }

  lemma SameAccessLeft(d: Data, e: Data, user: UserId)
    requires SameAccess(d, e, user)
    ensures NoAccessLeft(d, user) <==> NoAccessLeft(e, user)
  {
    forall id | id in d.keys ensures id in ActiveOf(d.keys, user) <==> id in ActiveOf(e.keys, user) {
    }
    assert ActiveOf(d.keys, user) == ActiveOf(e.keys, user);
    forall i | 0 <= i < |d.devices|
      ensures MarkDevices(d.devices, user, 200)[i] == d.devices[i] <==> MarkDevices(e.devices, user, 200)[i] == e.devices[i]
    {
      RanksDependOnUsers(d.devices, e.devices, user, i);
    }
    MarkingNothing(d.devices, user);
    MarkingNothing(e.devices, user);
  }

  lemma MarkingNothing(devices: seq<Device>, user: UserId)
    ensures MarkDevices(devices, user, 200) == devices
            <==> forall i :: 0 <= i < |devices| ==> MarkDevices(devices, user, 200)[i] == devices[i]
  {
    hide MarkDevices;
  }

  lemma ExpiredHasNoAccess(d: Data, lapsed: set<UserId>, user: UserId)
    requires user in lapsed
    ensures NoAccessLeft(UsersExpired(d, lapsed), user)
  {
    var e := UsersExpired(d, lapsed);
    forall i | 0 <= i < |d.devices| ensures Rank(e.devices, user, i) == Rank(d.devices, user, i) {
      RanksDependOnUsers(d.devices, e.devices, user, i);
    }
  }

  /**
   A user who is no longer ACTIVE is never revisited: through any number of later user sweeps the
   row, the keys, the devices and which of the keys work all stay as they are.
   */
  lemma {:induction false} SweepsForget(cfg: Config, envs: seq<Env>, nows: seq<int>, d: Data, user: UserId)
    requires |envs| == |nows| && UniqueDevices(d.devices)
    requires user in d.users && d.users[user].status != UserActive
    ensures SameForUser(d, UserSweeps(cfg, envs, nows, d), user)
    ensures NoAccessLeft(UserSweeps(cfg, envs, nows, d), user) <==> NoAccessLeft(d, user)
    decreases |envs|
  {
    hide SweepUsers, UniqueDevices, SweptUpTo, SameAccess, NoAccessLeft, Distinct;
    if envs == [] {
      SameHasSameAccess(d, d, user);
    } else {
      var e := SweepUsers(cfg, envs[0], d, nows[0]).0;
      var todo, k := SweepUsersStops(cfg, envs[0], d, nows[0]);
      SweptExpires(d, e, todo, k);
      assert user !in todo by { assert user !in Elements(todo); }
      SweptSparesOthers(d, e, todo, k, user);
      SameAccessLeft(d, e, user);
      SweepsForget(cfg, envs[1..], nows[1..], e, user);
      SameAccessChains(d, e, UserSweeps(cfg, envs, nows, d), user);
    }
  }

  /** Through any number of sweeps a user's row stays as it is or becomes EXPIRED. */
  lemma {:induction false} SweepsExpire(cfg: Config, envs: seq<Env>, nows: seq<int>, d: Data, user: UserId)
    requires |envs| == |nows| && UniqueDevices(d.devices) && user in d.users
    ensures var e := UserSweeps(cfg, envs, nows, d);
            && UniqueDevices(e.devices)
            && user in e.users && e.users[user] in {d.users[user], d.users[user].(status := UserExpired)}
    decreases |envs|
  {
    hide SweepUsers, UniqueDevices, SweptUpTo;
    if envs != [] {
      var todo, k := SweepUsersStops(cfg, envs[0], d, nows[0]);
      SweptExpires(d, SweepUsers(cfg, envs[0], d, nows[0]).0, todo, k);
      SweepsExpire(cfg, envs[1..], nows[1..], SweepUsers(cfg, envs[0], d, nows[0]).0, user);
    }
  }

  /** A sweep that succeeds completes exactly the users it finds lapsed, and those already complete. */
  lemma SuccessfulSweepCompletes(cfg: Config, env: Env, d: Data, now: int, user: UserId)
    requires UniqueDevices(d.devices) && SweepUsers(cfg, env, d, now).1.Some?
    ensures NoAccessLeft(SweepUsers(cfg, env, d, now).0, user)
            <==> user in LapsedIds(d.users, now) || NoAccessLeft(d, user)
  {
    hide SweepUsers, UniqueDevices, UsersExpired, SameAccess, NoAccessLeft, Distinct, LapsedIds;
    var todo, k := SweepUsersStops(cfg, env, d, now);
    var e := SweepUsers(cfg, env, d, now).0;
    if user in LapsedIds(d.users, now) {
      ExpiredHasNoAccess(d, LapsedIds(d.users, now), user);
      SameHasSameAccess(UsersExpired(d, LapsedIds(d.users, now)), e, user);
      SameAccessLeft(UsersExpired(d, LapsedIds(d.users, now)), e, user);
    } else {
      assert user !in todo by { assert user !in Elements(todo); }
      SweptSparesOthers(d, e, todo, k, user);
      SameAccessLeft(d, e, user);
    }
  }

  /**
   Exactly when a lapsed user is completed by a sweep that succeeds after any number of interrupted
   ones: the user is still ACTIVE, so none of them stored EXPIRED, or has no access left already.
   */
  lemma CompletedExactlyWhen(cfg: Config, envs: seq<Env>, nows: seq<int>, d: Data,
                             last: Env, later: int, user: UserId)
    requires |envs| == |nows| && UniqueDevices(d.devices) && user in LapsedIds(d.users, later)
    requires SweepUsers(cfg, last, UserSweeps(cfg, envs, nows, d), later).1.Some?
    ensures var e := UserSweeps(cfg, envs, nows, d);
            var f := SweepUsers(cfg, last, e, later).0;
            user in e.users
            && (NoAccessLeft(f, user) <==> e.users[user].status == UserActive || NoAccessLeft(e, user))
  {
    hide SweepUsers, UserSweeps, UniqueDevices, NoAccessLeft;
    SweepsExpire(cfg, envs, nows, d, user);
    SuccessfulSweepCompletes(cfg, last, UserSweeps(cfg, envs, nows, d), later, user);
  }

  /** With a tolerant provider a fault-free sweep succeeds, so that is the condition for one after an interrupted one. */
  lemma ResumedExactlyWhen(cfg: Config, env: Env, calm: Env, d: Data, now: int, later: int, user: UserId)
    requires !cfg.strict && FaultFree(calm) && UniqueDevices(d.devices)
    requires user in LapsedIds(d.users, now) && now <= later
    ensures var e := SweepUsers(cfg, env, d, now).0;
            var f := SweepUsers(cfg, calm, e, later).0;
            user in e.users
            && (NoAccessLeft(f, user) <==> e.users[user].status == UserActive || NoAccessLeft(e, user))
  {
    hide SweepUsers, UniqueDevices, NoAccessLeft;
    var e := SweepUsers(cfg, env, d, now).0;
    assert UserSweeps(cfg, [env], [now], d) == e by { OneSweep(cfg, env, d, now); }
    SweepsExpire(cfg, [env], [now], d, user);
    SweepUsersCompletes(cfg, calm, e, later);
    CompletedExactlyWhen(cfg, [env], [now], d, calm, later, user);
  }

  lemma OneSweep(cfg: Config, env: Env, d: Data, now: int)
    ensures UserSweeps(cfg, [env], [now], d) == SweepUsers(cfg, env, d, now).0
  {
    hide SweepUsers;
    assert [env][1..] == [] && [now][1..] == [];
  }

  lemma SweptHaveNoAccess(d: Data, e: Data, todo: seq<UserId>, k: nat, user: UserId)
    requires SweptUpTo(d, e, todo, k) && Distinct(todo) && user in todo[..k]
    ensures NoAccessLeft(e, user)
  {
    hide UsersExpired, Toward, SameAccess, NoAccessLeft;
    var reached := UsersExpired(d, Elements(todo[..k]));
    ExpiredHasNoAccess(d, Elements(todo[..k]), user);
    assert k == |todo| ==> todo[..k] == todo;
    if Same(e, reached) {
      SameHasSameAccess(reached, e, user);
    } else {
      TowardSparesOthers(reached, e, todo[k], user);
    }
    SameAccessLeft(reached, e, user);
  }

  /** So an interrupted sweep loses at most one user: the one it had stored as EXPIRED and not finished. */
  lemma AtMostOneIsForgotten(cfg: Config, env: Env, last: Env, d: Data, now: int, later: int) returns (lost: UserId)
    requires UniqueDevices(d.devices) && now <= later
    requires SweepUsers(cfg, last, SweepUsers(cfg, env, d, now).0, later).1.Some?
    ensures var f := SweepUsers(cfg, last, SweepUsers(cfg, env, d, now).0, later).0;
            forall u :: u in LapsedIds(d.users, now) && u != lost ==> NoAccessLeft(f, u)
  {
    hide SweepUsers, UniqueDevices, NoAccessLeft, SweptUpTo, Distinct;
    var e := SweepUsers(cfg, env, d, now).0;
    var todo, k := SweepUsersStops(cfg, env, d, now);
    lost := if k < |todo| then todo[k] else 0;
    SweptExpires(d, e, todo, k);
    forall u | u in LapsedIds(d.users, now) && u != lost
      ensures NoAccessLeft(SweepUsers(cfg, last, e, later).0, u)
    {
      if u in todo[..k] {
        SweptHaveNoAccess(d, e, todo, k, u);
      } else {
        assert u in Elements(todo) && todo[..|todo|] == todo;
        SweptSparesOthers(d, e, todo, k, u);
      }
      SuccessfulSweepCompletes(cfg, last, e, later, u);
    }
  }

  lemma FirstQueryFails(cfg: Config, env: Env, d: Data, now: int) returns (user: UserId)
    requires LapsedIds(d.users, now) != {}
    requires env(d.calls).outcome.Good? && env(d.calls + 1).outcome.Good? && !env(d.calls + 2).outcome.Good?
    ensures user in LapsedIds(d.users, now)
    ensures SweepUsers(cfg, env, d, now).0
            == d.(users := d.users[user := d.users[user].(status := UserExpired)], calls := d.calls + 3)
  {
    hide RetireAll, RevokeDevices, LapsedUsers;
    var todo := LapsedUsers(d.users, now, env(d.calls).rank);
    LapsedElements(d.users, now, env(d.calls).rank);
    assert todo != [] by { if todo == [] { NoElements(); } }
    user := todo[0];
    assert user in Elements(todo);
  }

  /**
   The failing input: if the query for the first lapsed user's keys fails, that user is EXPIRED with
   all keys working and all devices untouched, and stays so through all later user sweeps.
   */
  lemma {:induction false} InterruptedCascadeIsForgotten(cfg: Config, env: Env, d: Data, now: int,
                                                         envs: seq<Env>, nows: seq<int>)
    requires UniqueDevices(d.devices) && LapsedIds(d.users, now) != {} && |envs| == |nows|
    requires env(d.calls).outcome.Good? && env(d.calls + 1).outcome.Good? && !env(d.calls + 2).outcome.Good?
    ensures exists user :: user in LapsedIds(d.users, now) &&
              var e := UserSweeps(cfg, envs, nows, SweepUsers(cfg, env, d, now).0);
              && user in e.users && e.users[user].status == UserExpired
              && SameAccess(d, e, user) && (NoAccessLeft(e, user) <==> NoAccessLeft(d, user))
  {
    hide UserSweeps, UniqueDevices, SweepUsers, SameAccess, NoAccessLeft;
    var user := FirstQueryFails(cfg, env, d, now);
    var e := SweepUsers(cfg, env, d, now).0;
    SweepsForget(cfg, envs, nows, e, user);
    SameAccessAtOnce(d, e, user);
    SameAccessLeft(d, e, user);
    SameAccessChains(d, e, UserSweeps(cfg, envs, nows, e), user);
  }

  lemma SameAccessAtOnce(d: Data, e: Data, user: UserId)
    requires e == d.(users := e.users, calls := e.calls)
    ensures SameAccess(d, e, user)
  {
  }
}
