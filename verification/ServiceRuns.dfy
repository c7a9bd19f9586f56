/**
 Refinement: every service call, with whatever faults, is a run of the interleaved protocol in
 which only its own requests move. So the protocol's results hold of the services.
 */
module ServiceRuns {
  import opened Bytes
  import opened Model
  import opened Protocol
  import opened Services

  /** The tables and the provider of `d` are those of `w`. */
  predicate Matches(d: Data, w: World) {
    w.keys == d.keys && w.remote == d.remote && |w.makers| == |w.remote.issued|
  }

  /** Request `o` makes `n` calls, with the outcomes from the `from`-th on. */
  function Drive(o: OpId, env: Env, from: nat, n: nat): (es: seq<Event>)
    ensures |es| == n && forall i :: 0 <= i < n ==> es[i] == Advance(o, env(from + i))
  {
    seq(n, i requires 0 <= i < n => Advance(o, env(from + i)))
  }

  lemma DriveOne(cfg: Config, w: World, o: OpId, env: Env, from: nat, n: nat)
    requires n > 0 && o in w.ops
    ensures Run(cfg, w, Drive(o, env, from, n))
            == Run(cfg, Step(cfg, w, o, env(from)), Drive(o, env, from + 1, n - 1))
  {
    assert Drive(o, env, from, n)[1..] == Drive(o, env, from + 1, n - 1);
  }

  lemma DriveNone(cfg: Config, w: World, o: OpId, env: Env, from: nat)
    ensures Run(cfg, w, Drive(o, env, from, 0)) == w
  {
  }

  /** `w` after request `o` ended, leaving the tables and the provider as in `d`. */
  function Ended(w: World, d: Data, o: OpId, ok: bool): World {
    Finish(w.(keys := d.keys, remote := d.remote), o, ok)
  }

  lemma RetireSteps(cfg: Config, w: World, o: OpId, c: Choice)
    requires o in w.ops
    ensures w.ops[o].Retire? && w.ops[o].todo != [] ==>
              Step(cfg, w, o, c)
              == DeleteRemote(cfg, w, o, w.ops[o].todo[0].row.ref, c.outcome, Retired(w.ops[o].todo, w.ops[o].target))
    ensures w.ops[o].Retired? && w.ops[o].todo != [] ==>
              var todo, target := w.ops[o].todo, w.ops[o].target;
              var w2 := Write(w, todo[0].id, todo[0].row.(status := target), c.outcome);
              Step(cfg, w, o, c) == if c.outcome.Good? then Continue(w2, o, todo[1..], target) else Finish(w2, o, false)
  {
  }

  lemma DriveTwo(cfg: Config, w: World, o: OpId, env: Env, from: nat)
    requires o in w.ops && o in Step(cfg, w, o, env(from)).ops
    ensures Run(cfg, w, Drive(o, env, from, 2)) == Step(cfg, Step(cfg, w, o, env(from)), o, env(from + 1))
  {
    hide Step;
    DriveOne(cfg, w, o, env, from, 2);
    DriveOne(cfg, Step(cfg, w, o, env(from)), o, env, from + 1, 1);
    DriveNone(cfg, Step(cfg, Step(cfg, w, o, env(from)), o, env(from + 1)), o, env, from + 2);
  }

  /** Deleting and saving one row takes one or two steps of the batch. */
  lemma RetireOneRuns(cfg: Config, env: Env, d: Data, s: Snap, rest: seq<Snap>, target: Status, w: World, o: OpId)
    requires Matches(d, w) && o in w.ops && w.ops[o] == Retire([s] + rest, target)
    ensures var (d1, ok) := RetireOne(cfg, env, d, s, target);
            && d.calls < d1.calls <= d.calls + 2
            && Run(cfg, w, Drive(o, env, d.calls, d1.calls - d.calls))
               == if ok then Continue(w.(keys := d1.keys, remote := d1.remote), o, rest, target)
                  else Ended(w, d1, o, false)
  {
    hide Step, Run;
    var (d1, deleted) := DeleteOnProvider(cfg, env, d, s.row.ref);
    RetireSteps(cfg, w, o, env(d.calls));
    var w1 := Step(cfg, w, o, env(d.calls));
    assert ([s] + rest)[0] == s && ([s] + rest)[1..] == rest;
    if deleted {
      var (d2, ok) := RetireOne(cfg, env, d, s, target);
      DriveTwo(cfg, w, o, env, d.calls);
      RetireSteps(cfg, w1, o, env(d.calls + 1));
      ContinueForgets(w, o, Retired([s] + rest, target), d2, rest, target);
      EndedForgets(w, o, Retired([s] + rest, target), d2, false);
    } else {
      DriveOne(cfg, w, o, env, d.calls, 1);
      DriveNone(cfg, w1, o, env, d.calls + 1);
    }
  }

  lemma DriveSplit(cfg: Config, w: World, o: OpId, env: Env, from: nat, n: nat, m: nat)
    ensures Run(cfg, w, Drive(o, env, from, n + m))
            == Run(cfg, Run(cfg, w, Drive(o, env, from, n)), Drive(o, env, from + n, m))
  {
    assert Drive(o, env, from, n + m) == Drive(o, env, from, n) + Drive(o, env, from + n, m);
    RunSplit(cfg, w, Drive(o, env, from, n), Drive(o, env, from + n, m));
  }

  /** The whole batch, started by `Continue`. */
  lemma {:induction false} RetireAllRuns(cfg: Config, env: Env, d: Data, todo: seq<Snap>, target: Status,
                                         w: World, o: OpId)
    requires Matches(d, w)
    ensures var (d1, ok) := RetireAll(cfg, env, d, todo, target);
            && d.calls <= d1.calls && |d1.remote.issued| == |d.remote.issued|
            && Run(cfg, Continue(w, o, todo, target), Drive(o, env, d.calls, d1.calls - d.calls)) == Ended(w, d1, o, ok)
    decreases |todo|
  {
    hide RetireOne, Run;
    var w0 := Continue(w, o, todo, target);
    if todo == [] {
      DriveNone(cfg, w0, o, env, d.calls);
    } else {
      var s, rest := todo[0], todo[1..];
      assert todo == [s] + rest;
      RetireOneRuns(cfg, env, d, s, rest, target, w0, o);
      RetireOneIssues(cfg, env, d, s, target);
      var (d1, ok) := RetireOne(cfg, env, d, s, target);
      var n := d1.calls - d.calls;
      if ok {
        var (d2, done) := RetireAll(cfg, env, d1, rest, target);
        var w1 := w.(keys := d1.keys, remote := d1.remote);
        RetireAllRuns(cfg, env, d1, rest, target, w1, o);
        DriveSplit(cfg, w0, o, env, d.calls, n, d2.calls - d1.calls);
        ContinueForgets(w, o, Retire(todo, target), d1, rest, target);
      } else {
        EndedForgets(w, o, Retire(todo, target), d1, false);
      }
    }
  }

  lemma RetireOneIssues(cfg: Config, env: Env, d: Data, s: Snap, target: Status)
    ensures RetireOne(cfg, env, d, s, target).0.remote.issued == d.remote.issued
  {
  }

  /** What a request was about to do no longer matters once it has moved on. */
  lemma ContinueForgets(w: World, o: OpId, op: Op, d: Data, todo: seq<Snap>, target: Status)
    ensures Continue(Put(w, o, op).(keys := d.keys, remote := d.remote), o, todo, target)
            == Continue(w.(keys := d.keys, remote := d.remote), o, todo, target)
  {
    assert w.ops[o := op] - {o} == w.ops - {o};
    assert w.ops[o := op][o := Retire(todo, target)] == w.ops[o := Retire(todo, target)];
  }

  lemma EndedForgets(w: World, o: OpId, op: Op, d: Data, ok: bool)
    ensures Ended(Put(w, o, op), d, o, ok) == Ended(w, d, o, ok)
  {
    assert w.ops[o := op] - {o} == w.ops - {o};
  }

  lemma ConfigureSteps(cfg: Config, w: World, o: OpId, c: Choice)
    requires o in w.ops && w.ops[o].Configure?
    ensures var Configure(goal, ref, calls) := w.ops[o];
            Step(cfg, w, o, c)
            == if !c.outcome.Good? then Finish(w, o, false)
               else if calls > 0 then Put(w, o, Configure(goal, ref, calls - 1))
               else if ref >= |w.remote.issued| then Finish(w, o, false)
               else Put(w, o, Save(goal, ref, WithCredential(cfg.box, GoalRow(goal), ref, w.remote.issued[ref], c)))
  {
  }

  lemma {:induction false} CallAllRuns(cfg: Config, env: Env, d: Data, n: nat, w: World, o: OpId, goal: Goal, ref: Ref)
    requires o in w.ops && w.ops[o] == Configure(goal, ref, n)
    ensures var (d1, ok) := CallAll(env, d, n);
            && d.calls <= d1.calls && d1 == d.(calls := d1.calls)
            && Run(cfg, w, Drive(o, env, d.calls, d1.calls - d.calls))
               == if ok then Put(w, o, Configure(goal, ref, 0)) else Finish(w, o, false)
    decreases n
  {
    hide Step, Run;
    if n == 0 {
      DriveNone(cfg, w, o, env, d.calls);
      assert w.ops[o := Configure(goal, ref, 0)] == w.ops;
    } else {
      var d1 := Read(env, d).0;
      ConfigureSteps(cfg, w, o, env(d.calls));
      var w1 := Step(cfg, w, o, env(d.calls));
      var (d2, ok) := CallAll(env, d, n);
      if env(d.calls).outcome.Good? {
        CallAllRuns(cfg, env, d1, n - 1, w1, o, goal, ref);
        PutPut(w, o, Configure(goal, ref, n - 1), Configure(goal, ref, 0));
      } else {
        DriveNone(cfg, w1, o, env, d.calls + 1);
      }
      DriveOne(cfg, w, o, env, d.calls, d2.calls - d.calls);
    }
  }

  lemma PutPut(w: World, o: OpId, op: Op, next: Op)
    ensures Put(Put(w, o, op), o, next) == Put(w, o, next) && Finish(Put(w, o, op), o, false) == Finish(w, o, false)
  {
    assert w.ops[o := op][o := next] == w.ops[o := next];
    assert w.ops[o := op] - {o} == w.ops - {o};
  }

  /** The world after the POST of request `o`. */
  function Posted(w: World, d: Data, o: OpId, goal: Goal): World {
    w.(remote := d.remote,
       makers := if |d.remote.issued| == |w.remote.issued| then w.makers else w.makers + [Maker(o, GoalId(o, goal))])
  }

  lemma ProvisionSteps(cfg: Config, env: Env, d: Data, w: World, o: OpId)
    requires Matches(d, w) && o in w.ops && w.ops[o].Provision?
    ensures var (d1, ok) := CreateOnProvider(env, d);
            var goal := w.ops[o].goal;
            var w1 := Posted(w, d1, o, goal);
            Step(cfg, w, o, env(d.calls))
            == if ok then Put(w1, o, Configure(goal, |w.remote.issued|, SetupCalls(GoalRow(goal)))) else Finish(w1, o, false)
  {
  }

  /** What follows the POST: the setup calls, then the sealing of the row. */
  function SetUp(cfg: Config, env: Env, d: Data, row: Key, ref: Ref, credential: Credential): (Data, Option<Key>) {
    var (d2, configured) := CallAll(env, d, SetupCalls(row));
    if !configured then (d2, None)
    else
      var (d3, sealed) := Read(env, d2);
      if !sealed then (d3, None)
      else (d3, Some(WithCredential(cfg.box, row, ref, credential, env(d2.calls))))
  }

  lemma SetUpRuns(cfg: Config, env: Env, d: Data, w: World, o: OpId, goal: Goal, ref: Ref)
    requires o in w.ops && w.ops[o] == Configure(goal, ref, SetupCalls(GoalRow(goal))) && ref < |w.remote.issued|
    ensures var (d1, row) := SetUp(cfg, env, d, GoalRow(goal), ref, w.remote.issued[ref]);
            && d.calls < d1.calls + 1 && d1 == d.(calls := d1.calls)
            && Run(cfg, w, Drive(o, env, d.calls, d1.calls - d.calls))
               == if row.Some? then Put(w, o, Save(goal, ref, row.value)) else Finish(w, o, false)
  {
    hide Step, Run, SetupCalls, WithCredential;
    var calls := SetupCalls(GoalRow(goal));
    var (d2, configured) := CallAll(env, d, calls);
    CallAllRuns(cfg, env, d, calls, w, o, goal, ref);
    if configured {
      var w3 := Put(w, o, Configure(goal, ref, 0));
      var row := SetUp(cfg, env, d, GoalRow(goal), ref, w.remote.issued[ref]).1;
      ConfigureSteps(cfg, w3, o, env(d2.calls));
      DriveSplit(cfg, w, o, env, d.calls, d2.calls - d.calls, 1);
      DriveOne(cfg, w3, o, env, d2.calls, 1);
      DriveNone(cfg, Step(cfg, w3, o, env(d2.calls)), o, env, d2.calls + 1);
      PutPut(w, o, Configure(goal, ref, 0), if row.Some? then Save(goal, ref, row.value) else Undo(ref));
    }
  }

  lemma {:induction false} ProvisionRuns(cfg: Config, env: Env, d: Data, w: World, o: OpId)
    requires Matches(d, w) && o in w.ops && w.ops[o].Provision?
    ensures var goal, ref := w.ops[o].goal, |w.remote.issued|;
            var (d1, row) := Services.Provision(cfg, env, d, GoalRow(goal));
            && d.calls < d1.calls && d1 == d.(remote := d1.remote, calls := d1.calls)
            && Matches(d1, Posted(w, d1, o, goal))
            && Run(cfg, w, Drive(o, env, d.calls, d1.calls - d.calls))
               == if row.Some? then Put(Posted(w, d1, o, goal), o, Save(goal, ref, row.value))
                  else Finish(Posted(w, d1, o, goal), o, false)
  {
    hide Step, Run, SetupCalls, WithCredential, CallAll;
    var goal, ref := w.ops[o].goal, |w.remote.issued|;
    var (d1, created) := CreateOnProvider(env, d);
    ProvisionSteps(cfg, env, d, w, o);
    var w1 := Posted(w, d1, o, goal);
    if !created {
      DriveOne(cfg, w, o, env, d.calls, 1);
      DriveNone(cfg, Step(cfg, w, o, env(d.calls)), o, env, d.calls + 1);
    } else {
      var op := Configure(goal, ref, SetupCalls(GoalRow(goal)));
      var (d9, full) := SetUp(cfg, env, d1, GoalRow(goal), ref, env(d.calls).credential);
      SetUpRuns(cfg, env, d1, Put(w1, o, op), o, goal, ref);
      PutPut(w1, o, op, if full.Some? then Save(goal, ref, full.value) else op);
      assert Services.Provision(cfg, env, d, GoalRow(goal)) == (d9, full);
      DriveOne(cfg, w, o, env, d.calls, d9.calls - d.calls);
    }
  }

  // Whole requests.

  /** Only request `o` moved from `w` to `w1`, it is over, and it succeeded if the call did. */
  ghost predicate Served(w: World, w1: World, o: OpId, d: Data, ok: bool) {
    && Matches(d, w1) && w1.ops == w.ops && (ok ==> o in w1.done && w1.done[o])
    && forall p :: p != o ==> (p in w1.done <==> p in w.done) && (p in w.done ==> w1.done[p] == w.done[p])
  }

  /**
   The call is a run of the protocol in which only request `o` moves: it begins with `request`, or
   is no event at all if the call ends before there is a request to make.
   */
  ghost predicate IsRun(cfg: Config, w: World, o: OpId, request: Option<Request>, d: Data, ok: bool) {
    exists es: seq<Event> ::
      && Served(w, Run(cfg, w, es), o, d, ok) && (forall e :: e in es ==> e.op == o)
      && if request.None? then es == [] else es != [] && es[0] == Begin(o, request.value)
  }

  /** The call's own read succeeds and finds row `id`. */
  predicate Found(env: Env, d: Data, id: KeyId) { env(d.calls).outcome.Good? && id in d.keys }

  predicate Fresh(w: World, o: OpId) { o !in w.ops && o !in w.done }

  lemma NothingIsRun(cfg: Config, w: World, o: OpId, d: Data)
    requires Matches(d, w)
    ensures IsRun(cfg, w, o, None, d, false)
  {
    assert Served(w, Run(cfg, w, []), o, d, false);
  }

  /** A request begun and driven to its end. */
  lemma BegunIsRun(cfg: Config, env: Env, w: World, o: OpId, request: Request, from: nat, n: nat, d: Data, ok: bool)
    requires Fresh(w, o)
    requires Served(w, Run(cfg, BeginRequest(w, o, request), Drive(o, env, from, n)), o, d, ok)
    ensures IsRun(cfg, w, o, Some(request), d, ok)
  {
    hide BeginRequest;
    var es := [Begin(o, request)] + Drive(o, env, from, n);
    assert es[1..] == Drive(o, env, from, n);
    assert Run(cfg, w, es) == Run(cfg, BeginRequest(w, o, request), Drive(o, env, from, n));
  }

  lemma EndedIsServed(w: World, d: Data, o: OpId, ok: bool)
    requires Fresh(w, o) && |w.makers| == |d.remote.issued|
    ensures Served(w, Ended(w, d, o, ok), o, d, ok)
  {
    assert w.ops - {o} == w.ops;
  }

  lemma BatchIsRun(cfg: Config, env: Env, d: Data, todo: seq<Snap>, target: Status, w: World, o: OpId, request: Request)
    requires Matches(d, w) && Fresh(w, o) && BeginRequest(w, o, request) == Continue(w, o, todo, target)
    ensures var (d1, ok) := RetireAll(cfg, env, d, todo, target); IsRun(cfg, w, o, Some(request), d1, ok)
  {
    hide Run, BeginRequest, RetireAll;
    var (d1, ok) := RetireAll(cfg, env, d, todo, target);
    RetireAllRuns(cfg, env, d, todo, target, w, o);
    EndedIsServed(w, d1, o, ok);
    BegunIsRun(cfg, env, w, o, request, d.calls, d1.calls - d.calls, d1, ok);
  }

  lemma RevokeIsRun(cfg: Config, env: Env, d: Data, id: KeyId, w: World, o: OpId)
    requires Matches(d, w) && Fresh(w, o)
    ensures var (d1, ok) := Services.Revoke(cfg, env, d, id);
            IsRun(cfg, w, o, if Found(env, d, id) then Some(RevokeKey(id)) else None, d1, ok)
  {
    hide IsRun, RetireAll;
    var (d1, read) := Read(env, d);
    NothingIsRun(cfg, w, o, d1);
    if read && id in d.keys {
      BatchIsRun(cfg, env, d1, [Snap(id, d.keys[id])], Revoked, w, o, RevokeKey(id));
    }
  }

  lemma SweepKeysIsRun(cfg: Config, env: Env, d: Data, now: int, w: World, o: OpId)
    requires Matches(d, w) && Fresh(w, o)
    ensures var (d1, count) := SweepKeys(cfg, env, d, now);
            var read := env(d.calls);
            IsRun(cfg, w, o, if read.outcome.Good? then Some(ExpireKeys(now, read.rank)) else None, d1, count.Some?)
  {
    hide IsRun, RetireAll;
    var (d1, read) := Read(env, d);
    NothingIsRun(cfg, w, o, d1);
    if read {
      var rank := env(d.calls).rank;
      BatchIsRun(cfg, env, d1, OverdueKeys(d.keys, now, rank), Expired, w, o, ExpireKeys(now, rank));
    }
  }

  /** The cascade's effect on keys and provider; its device writes are outside the protocol. */
  lemma CascadeIsRun(cfg: Config, env: Env, d: Data, user: UserId, w: World, o: OpId)
    requires Matches(d, w) && Fresh(w, o)
    ensures var (d1, ok) := RevokeAllAccess(cfg, env, d, user);
            var read := env(d.calls);
            IsRun(cfg, w, o, if read.outcome.Good? then Some(RevokeUser(user, read.rank)) else None, d1, ok)
  {
    hide IsRun, RetireAll;
    var (d1, read) := Read(env, d);
    NothingIsRun(cfg, w, o, d1);
    if read {
      var rank := env(d.calls).rank;
      var todo := OnlyActive(KeysOfUser(d.keys, user, rank));
      BatchIsRun(cfg, env, d1, todo, Revoked, w, o, RevokeUser(user, rank));
      var (d2, retired) := RetireAll(cfg, env, d1, todo, Revoked);
      if retired {
        var (d3, listed) := Read(env, d2);
        DevicesOnly(env, d3, CascadeDevices(d3.devices, user));
        var (d4, ok) := RevokeAllAccess(cfg, env, d, user);
        RunWithData(cfg, w, o, RevokeUser(user, rank), d2, true, d4, ok);
      }
    }
  }

  lemma {:induction false} DevicesOnly(env: Env, d: Data, todo: seq<Device>)
    ensures var d1 := RevokeDevices(env, d, todo).0;
            d1.keys == d.keys && d1.remote == d.remote && d1.users == d.users && d1.servers == d.servers
    decreases |todo|
  {
    if todo != [] {
      var rest := todo[1..];
      if todo[0].status == DeviceRevoked {
        DevicesOnly(env, d, rest);
      } else {
        DevicesOnly(env, SaveDevice(env, d, todo[0].(status := DeviceRevoked)).0, rest);
      }
    }
  }

  /** A run only speaks of keys and provider. */
  lemma RunWithData(cfg: Config, w: World, o: OpId, request: Request, d: Data, ok: bool, e: Data, result: bool)
    requires IsRun(cfg, w, o, Some(request), d, ok) && e.keys == d.keys && e.remote == d.remote && (result ==> ok)
    ensures IsRun(cfg, w, o, Some(request), e, result)
  {
    var es: seq<Event> :|
      Served(w, Run(cfg, w, es), o, d, ok) && (forall x :: x in es ==> x.op == o)
      && es != [] && es[0] == Begin(o, request);
    assert Served(w, Run(cfg, w, es), o, e, result);
  }

  lemma DropSteps(cfg: Config, w: World, o: OpId, c: Choice)
    requires o in w.ops
    ensures w.ops[o].Remove? ==>
              var s := w.ops[o].snap; Step(cfg, w, o, c) == DeleteRemote(cfg, w, o, s.row.ref, c.outcome, Drop(s))
    ensures w.ops[o].Drop? ==>
              Step(cfg, w, o, c) == Finish(EraseRow(w, w.ops[o].snap.id, c.outcome), o, c.outcome.Good?)
  {
  }

  lemma FinishServes(w: World, w1: World, o: OpId, d: Data, ok: bool)
    requires Matches(d, w1) && w1.ops - {o} == w.ops && w1.done == w.done
    ensures Served(w, Finish(w1, o, ok), o, d, ok)
  {
  }

  /** A request that ends with its first call. */
  lemma OneCallIsRun(cfg: Config, env: Env, w: World, o: OpId, request: Request, from: nat, d: Data, ok: bool)
    requires Fresh(w, o)
    requires var w1 := BeginRequest(w, o, request); o in w1.ops && Served(w, Step(cfg, w1, o, env(from)), o, d, ok)
    ensures IsRun(cfg, w, o, Some(request), d, ok)
  {
    hide BeginRequest, Step, Served, IsRun;
    var w1 := BeginRequest(w, o, request);
    DriveOne(cfg, w1, o, env, from, 1);
    DriveNone(cfg, Step(cfg, w1, o, env(from)), o, env, from + 1);
    BegunIsRun(cfg, env, w, o, request, from, 1, d, ok);
  }

  /** A request that ends with its second call. */
  lemma TwoCallsAreRun(cfg: Config, env: Env, w: World, o: OpId, request: Request, from: nat, d: Data, ok: bool)
    requires Fresh(w, o)
    requires var w1 := BeginRequest(w, o, request);
             && o in w1.ops && o in Step(cfg, w1, o, env(from)).ops
             && Served(w, Step(cfg, Step(cfg, w1, o, env(from)), o, env(from + 1)), o, d, ok)
    ensures IsRun(cfg, w, o, Some(request), d, ok)
  {
    hide BeginRequest, Step, Served, IsRun;
    DriveTwo(cfg, BeginRequest(w, o, request), o, env, from);
    BegunIsRun(cfg, env, w, o, request, from, 2, d, ok);
  }

  lemma EraseIsRun(cfg: Config, env: Env, d: Data, id: KeyId, w: World, o: OpId)
    requires Matches(d, w) && Fresh(w, o) && id in d.keys && d.keys[id].status != Active
    ensures var (d1, ok) := EraseKey(env, d, id); IsRun(cfg, w, o, Some(DeleteKey(id)), d1, ok)
  {
    hide IsRun, Step, Run, Served;
    var s := Snap(id, d.keys[id]);
    var w1 := Put(w, o, Drop(s));
    var (d1, ok) := EraseKey(env, d, id);
    assert BeginRequest(w, o, DeleteKey(id)) == w1;
    DropSteps(cfg, w1, o, env(d.calls));
    assert w1.ops - {o} == w.ops;
    FinishServes(w, EraseRow(w1, id, env(d.calls).outcome), o, d1, ok);
    OneCallIsRun(cfg, env, w, o, DeleteKey(id), d.calls, d1, ok);
  }

  lemma RemoveIsRun(cfg: Config, env: Env, d: Data, id: KeyId, w: World, o: OpId)
    requires Matches(d, w) && Fresh(w, o) && id in d.keys && d.keys[id].status == Active
    ensures var (d1, deleted) := DeleteOnProvider(cfg, env, d, d.keys[id].ref);
            var (d2, ok) := if deleted then EraseKey(env, d1, id) else (d1, false);
            IsRun(cfg, w, o, Some(DeleteKey(id)), d2, ok)
  {
    hide IsRun, Step, Run, Served;
    var s := Snap(id, d.keys[id]);
    var w1 := Put(w, o, Remove(s));
    var (d1, deleted) := DeleteOnProvider(cfg, env, d, s.row.ref);
    assert BeginRequest(w, o, DeleteKey(id)) == w1;
    DropSteps(cfg, w1, o, env(d.calls));
    assert w1.ops - {o} == w.ops;
    if deleted {
      var (d2, ok) := EraseKey(env, d1, id);
      var w2 := Step(cfg, w1, o, env(d.calls));
      DropSteps(cfg, w2, o, env(d1.calls));
      assert w2.ops - {o} == w.ops;
      FinishServes(w, EraseRow(w2, id, env(d1.calls).outcome), o, d2, ok);
      TwoCallsAreRun(cfg, env, w, o, DeleteKey(id), d.calls, d2, ok);
    } else {
      FinishServes(w, w1.(remote := d1.remote), o, d1, false);
      OneCallIsRun(cfg, env, w, o, DeleteKey(id), d.calls, d1, false);
    }
  }

  lemma DeleteIsRun(cfg: Config, env: Env, d: Data, id: KeyId, w: World, o: OpId)
    requires Matches(d, w) && Fresh(w, o)
    ensures var (d1, ok) := Services.Delete(cfg, env, d, id);
            IsRun(cfg, w, o, if Found(env, d, id) then Some(DeleteKey(id)) else None, d1, ok)
  {
    hide IsRun;
    var (d1, read) := Read(env, d);
    NothingIsRun(cfg, w, o, d1);
    if read && id in d.keys {
      if d.keys[id].status != Active {
        EraseIsRun(cfg, env, d1, id, w, o);
      } else {
        RemoveIsRun(cfg, env, d1, id, w, o);
      }
    }
  }

  lemma SaveSteps(cfg: Config, w: World, o: OpId, c: Choice)
    requires o in w.ops && w.ops[o].Save?
    ensures var Save(goal, ref, row) := w.ops[o];
            var w1 := Write(w, GoalId(o, goal), row, c.outcome);
            Step(cfg, w, o, c)
            == if c.outcome.Good? then Finish(w1, o, true)
               else if goal.Insert? then Put(w1, o, Undo(ref)) else Finish(w1, o, false)
  {
  }

  lemma UndoSteps(cfg: Config, w: World, o: OpId, c: Choice)
    requires o in w.ops && w.ops[o].Undo?
    ensures Step(cfg, w, o, c)
            == Finish(w.(remote := w.remote.Delete(cfg.strict, w.ops[o].ref, c.outcome).0), o, false)
  {
  }

  lemma ReplaceRowRuns(cfg: Config, env: Env, d: Data, s: Snap, row: Key, ref: Ref, start: World, w: World, o: OpId)
    requires Matches(d, w) && o in w.ops && w.ops[o] == Save(Replace(s), ref, row)
    requires start.ops == w.ops - {o} && start.done == w.done
    ensures var (d1, saved) := SaveKey(env, d, s.id, row);
            Served(start, Run(cfg, w, Drive(o, env, d.calls, 1)), o, d1, saved)
  {
    hide Step, Run, Served;
    var (d1, saved) := SaveKey(env, d, s.id, row);
    SaveSteps(cfg, w, o, env(d.calls));
    DriveOne(cfg, w, o, env, d.calls, 1);
    DriveNone(cfg, Step(cfg, w, o, env(d.calls)), o, env, d.calls + 1);
    FinishServes(start, Write(w, s.id, row, env(d.calls).outcome), o, d1, saved);
  }

  /** From the request's POST on, when it replaces a row: the run of the rest of Rotate. */
  lemma ReplaceRuns(cfg: Config, env: Env, d: Data, s: Snap, w: World, o: OpId)
    requires Matches(d, w) && o in w.ops && w.ops[o] == Op.Provision(Replace(s)) && o !in w.done
    ensures var (d1, row) := Services.Provision(cfg, env, d, s.row);
            var (d2, ok) := if row.None? then (d1, false) else SaveKey(env, d1, s.id, row.value);
            && d.calls <= d2.calls
            && Served(w.(ops := w.ops - {o}), Run(cfg, w, Drive(o, env, d.calls, d2.calls - d.calls)), o, d2, ok)
  {
    hide Step, Run, Services.Provision, Served;
    ProvisionRuns(cfg, env, d, w, o);
    var (d1, row) := Services.Provision(cfg, env, d, s.row);
    var start, posted := w.(ops := w.ops - {o}), Posted(w, d1, o, Replace(s));
    if row.Some? {
      var w1 := Put(posted, o, Save(Replace(s), |w.remote.issued|, row.value));
      assert w1.ops - {o} == w.ops - {o};
      ReplaceRowRuns(cfg, env, d1, s, row.value, |w.remote.issued|, start, w1, o);
      DriveSplit(cfg, w, o, env, d.calls, d1.calls - d.calls, 1);
    } else {
      FinishServes(start, posted, o, d1, false);
    }
  }

  lemma RotateSteps(cfg: Config, w: World, o: OpId, c: Choice)
    requires o in w.ops && w.ops[o].Rotate?
    ensures var s := w.ops[o].snap;
            Step(cfg, w, o, c) == DeleteRemote(cfg, w, o, s.row.ref, c.outcome, Op.Provision(Replace(s)))
  {
  }

  lemma RotateRowIsRun(cfg: Config, env: Env, d: Data, id: KeyId, w: World, o: OpId)
    requires Matches(d, w) && Fresh(w, o) && id in d.keys
    ensures var (d2, deleted) := DeleteOnProvider(cfg, env, d, d.keys[id].ref);
            var (d3, row) := if deleted then Services.Provision(cfg, env, d2, d.keys[id]) else (d2, None);
            var (d4, ok) := if row.None? then (d3, false) else SaveKey(env, d3, id, row.value);
            IsRun(cfg, w, o, Some(RotateKey(id)), d4, ok)
  {
    hide IsRun, Step, Run, Services.Provision, Served;
    var s := Snap(id, d.keys[id]);
    var w1 := Put(w, o, Op.Rotate(s));
    assert BeginRequest(w, o, RotateKey(id)) == w1;
    assert w1.ops - {o} == w.ops;
    RotateSteps(cfg, w1, o, env(d.calls));
    var w2 := Step(cfg, w1, o, env(d.calls));
    var (d2, deleted) := DeleteOnProvider(cfg, env, d, s.row.ref);
    if deleted {
      ReplaceRuns(cfg, env, d2, s, w2, o);
      assert w2.ops - {o} == w.ops && w2.done == w.done;
      var (d3, row) := Services.Provision(cfg, env, d2, s.row);
      var (d4, ok) := if row.None? then (d3, false) else SaveKey(env, d3, id, row.value);
      var end := Run(cfg, w2, Drive(o, env, d2.calls, d4.calls - d2.calls));
      ServedFrom(w2.(ops := w.ops), w, end, o, d4, ok);
      DriveOne(cfg, w1, o, env, d.calls, d4.calls - d.calls);
      BegunIsRun(cfg, env, w, o, RotateKey(id), d.calls, d4.calls - d.calls, d4, ok);
    } else {
      FinishServes(w, w1.(remote := d2.remote), o, d2, false);
      OneCallIsRun(cfg, env, w, o, RotateKey(id), d.calls, d2, false);
    }
  }

  lemma ServedFrom(w0: World, w: World, w1: World, o: OpId, d: Data, ok: bool)
    requires Served(w0, w1, o, d, ok) && w0.ops == w.ops && w0.done == w.done
    ensures Served(w, w1, o, d, ok)
  {
  }

  lemma RotateIsRun(cfg: Config, env: Env, d: Data, id: KeyId, w: World, o: OpId)
    requires Matches(d, w) && Fresh(w, o)
    ensures var (d1, ok) := Services.Rotate(cfg, env, d, id);
            IsRun(cfg, w, o, if Found(env, d, id) then Some(RotateKey(id)) else None, d1, ok)
  {
    hide IsRun, Services.Provision;
    var (d1, read) := Read(env, d);
    NothingIsRun(cfg, w, o, d1);
    if read && id in d.keys {
      RotateRowIsRun(cfg, env, d1, id, w, o);
    }
  }

  /** The insert, and after a failure the best-effort deletion of the new key. */
  function InsertRow(cfg: Config, env: Env, d: Data, id: KeyId, row: Key, ref: Ref): (Data, bool) {
    var (d1, saved) := SaveKey(env, d, id, row);
    if saved then (d1, true) else (DeleteOnProvider(cfg, env, d1, ref).0, false)
  }

  lemma InsertRowRuns(cfg: Config, env: Env, d: Data, goal: Goal, row: Key, ref: Ref, start: World, w: World, o: OpId)
    requires Matches(d, w) && o in w.ops && goal.Insert? && w.ops[o] == Save(goal, ref, row)
    requires start.ops == w.ops - {o} && start.done == w.done
    ensures var (d1, saved) := InsertRow(cfg, env, d, o, row, ref);
            && d.calls < d1.calls
            && Served(start, Run(cfg, w, Drive(o, env, d.calls, d1.calls - d.calls)), o, d1, saved)
  {
    hide Step, Run, Served;
    var (d1, saved) := InsertRow(cfg, env, d, o, row, ref);
    SaveSteps(cfg, w, o, env(d.calls));
    var w1 := Step(cfg, w, o, env(d.calls));
    var w2 := Write(w, o, row, env(d.calls).outcome);
    if saved {
      DriveOne(cfg, w, o, env, d.calls, 1);
      DriveNone(cfg, w1, o, env, d.calls + 1);
      FinishServes(start, w2, o, d1, true);
    } else {
      DriveTwo(cfg, w, o, env, d.calls);
      UndoSteps(cfg, w1, o, env(d.calls + 1));
      assert w1.ops - {o} == w.ops - {o};
      FinishServes(start, w1.(remote := d1.remote), o, d1, false);
    }
  }

  /** From the request's POST on, when it inserts a row: the run of the rest of Create. */
  lemma InsertRuns(cfg: Config, env: Env, d: Data, row: Key, w: World, o: OpId)
    requires Matches(d, w) && o in w.ops && w.ops[o] == Op.Provision(Insert(row)) && o !in w.done
    ensures var ref := |d.remote.issued|;
            var (d1, full) := Services.Provision(cfg, env, d, row);
            var (d2, saved) := if full.None? then (d1, false) else InsertRow(cfg, env, d1, o, full.value, ref);
            && d.calls <= d2.calls
            && Served(w.(ops := w.ops - {o}), Run(cfg, w, Drive(o, env, d.calls, d2.calls - d.calls)), o, d2, saved)
  {
    hide Step, Run, Services.Provision, Served, InsertRow;
    ProvisionRuns(cfg, env, d, w, o);
    var ref := |d.remote.issued|;
    var (d1, full) := Services.Provision(cfg, env, d, row);
    var start, posted := w.(ops := w.ops - {o}), Posted(w, d1, o, Insert(row));
    if full.Some? {
      var w1 := Put(posted, o, Save(Insert(row), ref, full.value));
      assert w1.ops - {o} == w.ops - {o};
      InsertRowRuns(cfg, env, d1, Insert(row), full.value, ref, start, w1, o);
      var d2 := InsertRow(cfg, env, d1, o, full.value, ref).0;
      DriveSplit(cfg, w, o, env, d.calls, d1.calls - d.calls, d2.calls - d1.calls);
    } else {
      FinishServes(start, posted, o, d1, false);
    }
  }

  lemma CreateIsRun(cfg: Config, env: Env, d: Data, input: KeyInput, w: World, o: OpId)
    requires Matches(d, w) && Fresh(w, o)
    ensures var (d1, ok) := Services.Create(cfg, env, d, o, input);
            var began := env(d.calls).outcome.Good? && input.server in d.servers;
            IsRun(cfg, w, o, if began then Some(CreateKey(input)) else None, d1, ok)
  {
    hide IsRun, Step, Run, Services.Provision, Served;
    var (d1, read) := Read(env, d);
    NothingIsRun(cfg, w, o, d1);
    if read && input.server in d.servers {
      var w1 := BeginRequest(w, o, CreateKey(input));
      var (d9, ok) := Services.Create(cfg, env, d, o, input);
      InsertRuns(cfg, env, d1, NewRow(input), w1, o);
      assert w1.ops - {o} == w.ops;
      ServedFrom(w1.(ops := w.ops), w, Run(cfg, w1, Drive(o, env, d1.calls, d9.calls - d1.calls)), o, d9, ok);
      BegunIsRun(cfg, env, w, o, CreateKey(input), d1.calls, d9.calls - d1.calls, d9, ok);
    }
  }
}
