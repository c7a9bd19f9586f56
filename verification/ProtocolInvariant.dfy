/**
 What holds in every state of every run, whatever the provider, the interleaving and the faults:
 rows own their references, a row that is not ACTIVE has no working key, and a row's stored
 fields describe the credential its reference was issued with.
 */
module ProtocolInvariant {
  import opened Bytes
  import opened Model
  import opened Protocol
  import opened SecretBox

  /** Request `o` can no longer store a row under a reference it asked for. */
  predicate Past(w: World, o: OpId) { o in w.done || (o in w.ops && w.ops[o].Undo?) }

  predicate SnapOk(cfg: Config, w: World, s: Snap) {
    var ref := s.row.ref;
    && |w.makers| == |w.remote.issued|
    && ref < |w.makers|
    && w.makers[ref].owner == s.id
    && Past(w, s.id)
    && Past(w, w.makers[ref].op)
    && (s.row.status != Active ==> ref !in w.remote.live)
    && Describes(cfg.box, s.row, w.remote.issued[ref])
  }

  predicate GoalOk(cfg: Config, w: World, goal: Goal) {
    goal.Replace? ==> SnapOk(cfg, w, goal.snap) && goal.snap.row.ref !in w.remote.live
  }

  /** The reference request `o` was handed and has not stored yet is live and its own. */
  predicate HeldOk(w: World, o: OpId, goal: Goal, ref: Ref) {
    && ref in w.remote.live
    && ref < |w.makers|
    && w.makers[ref] == Maker(o, GoalId(o, goal))
  }

  predicate OpOk(cfg: Config, w: World, o: OpId, op: Op) {
    && |w.makers| == |w.remote.issued|
    && match op
       case Retire(todo, target) =>
         todo != [] && target != Active && forall s :: s in todo ==> SnapOk(cfg, w, s)
       case Retired(todo, target) =>
         && todo != [] && target != Active && (forall s :: s in todo ==> SnapOk(cfg, w, s))
         && todo[0].row.ref !in w.remote.live
       case Remove(s) => SnapOk(cfg, w, s) && s.row.status == Active
       case Drop(s) => SnapOk(cfg, w, s) && s.row.ref !in w.remote.live
       case Rotate(s) => SnapOk(cfg, w, s)
       case Provision(goal) => GoalOk(cfg, w, goal)
       case Configure(goal, ref, _) => GoalOk(cfg, w, goal) && HeldOk(w, o, goal, ref)
       case Save(goal, ref, row) =>
         && GoalOk(cfg, w, goal) && HeldOk(w, o, goal, ref)
         && row.ref == ref && row.status == Active && Describes(cfg.box, row, w.remote.issued[ref])
       case Undo(ref) => ref < |w.makers| && w.makers[ref] == Maker(o, o)
  }

  ghost predicate Inv(cfg: Config, w: World) {
    && |w.makers| == |w.remote.issued|
    && (forall r :: r in w.remote.live ==> r < |w.makers|)
    && (forall id :: id in w.keys ==> SnapOk(cfg, w, Snap(id, w.keys[id])))
    && (forall o :: o in w.ops ==> o !in w.done && OpOk(cfg, w, o, w.ops[o]))
  }

  /** The reference a request holds without having stored it. */
  function Held(op: Op): Option<Ref> {
    match op
    case Configure(_, ref, _) => Some(ref)
    case Save(_, ref, _) => Some(ref)
    case _ => None
  }

  /** `w1` forgets nothing of `w`: credentials, makers, finished requests and dead references stay. */
  ghost predicate Grows(w: World, w1: World) {
    && |w.makers| == |w.remote.issued| && |w1.makers| == |w1.remote.issued|
    && w.makers <= w1.makers && w.remote.issued <= w1.remote.issued
    && (forall o :: Past(w, o) ==> Past(w1, o))
    && (forall r :: r in w1.remote.live && r < |w.makers| ==> r in w.remote.live)
  }

  lemma SnapStays(cfg: Config, w: World, w1: World, s: Snap)
    requires SnapOk(cfg, w, s) && Grows(w, w1)
    ensures SnapOk(cfg, w1, s)
  {
    assert w1.makers[s.row.ref] == w.makers[s.row.ref];
    assert w1.remote.issued[s.row.ref] == w.remote.issued[s.row.ref];
  }

  lemma OpStays(cfg: Config, w: World, w1: World, o: OpId, op: Op)
    requires OpOk(cfg, w, o, op) && Grows(w, w1)
    requires Held(op).Some? && Held(op).value in w.remote.live ==> Held(op).value in w1.remote.live
    ensures OpOk(cfg, w1, o, op)
  {
    forall s | SnapOk(cfg, w, s) ensures SnapOk(cfg, w1, s) { SnapStays(cfg, w, w1, s); }
    assert op.Retired? ==> op.todo[0] in op.todo;
    assert forall r :: 0 <= r < |w.makers| ==> w1.makers[r] == w.makers[r];
    assert forall r :: 0 <= r < |w.makers| ==> w1.remote.issued[r] == w.remote.issued[r];
  }

  /** A step of request `o` keeps the invariant if what it wrote is in order and what it took was not held. */
  lemma {:induction false} Preserved(cfg: Config, w: World, w1: World, o: OpId)
    requires Inv(cfg, w) && Grows(w, w1)
    requires forall r :: r in w1.remote.live ==> r < |w1.makers|
    requires forall p :: p != o ==> (p in w1.ops <==> p in w.ops) && (p in w.ops ==> w1.ops[p] == w.ops[p])
    requires forall p :: p != o ==> (p in w1.done <==> p in w.done)
    requires o in w1.ops ==> o !in w1.done && OpOk(cfg, w1, o, w1.ops[o])
    requires forall id :: id in w1.keys ==>
               (id in w.keys && w1.keys[id] == w.keys[id]) || SnapOk(cfg, w1, Snap(id, w1.keys[id]))
    requires forall r :: r in w.remote.live && r !in w1.remote.live ==> Past(w, w.makers[r].op)
    ensures Inv(cfg, w1)
  {
    forall id | id in w1.keys ensures SnapOk(cfg, w1, Snap(id, w1.keys[id])) {
      if id in w.keys && w1.keys[id] == w.keys[id] {
        SnapStays(cfg, w, w1, Snap(id, w.keys[id]));
      }
    }
    forall p | p in w1.ops ensures p !in w1.done && OpOk(cfg, w1, p, w1.ops[p]) {
      if p != o {
        assert OpOk(cfg, w, p, w.ops[p]);
        OpStays(cfg, w, w1, p, w.ops[p]);
      }
    }
  }

  // The changes a step is made of, each keeping the invariant.

  lemma PutKeeps(cfg: Config, w: World, o: OpId, op: Op)
    requires Inv(cfg, w) && o !in w.done && OpOk(cfg, w, o, op)
    requires o in w.ops && w.ops[o].Undo? ==> op.Undo?
    ensures Inv(cfg, Put(w, o, op)) && Grows(w, Put(w, o, op))
  {
    var w1 := Put(w, o, op);
    OpStays(cfg, w, w1, o, op);
    Preserved(cfg, w, w1, o);
  }

  lemma FinishKeeps(cfg: Config, w: World, o: OpId, ok: bool)
    requires Inv(cfg, w)
    ensures Inv(cfg, Finish(w, o, ok)) && Grows(w, Finish(w, o, ok))
  {
    Preserved(cfg, w, Finish(w, o, ok), o);
  }

  lemma ContinueKeeps(cfg: Config, w: World, o: OpId, todo: seq<Snap>, target: Status)
    requires Inv(cfg, w) && o !in w.done && (o in w.ops ==> !w.ops[o].Undo?)
    requires target != Active && forall s :: s in todo ==> SnapOk(cfg, w, s)
    ensures Inv(cfg, Continue(w, o, todo, target)) && Grows(w, Continue(w, o, todo, target))
  {
    if todo == [] {
      FinishKeeps(cfg, w, o, true);
    } else {
      PutKeeps(cfg, w, o, Retire(todo, target));
    }
  }

  lemma WriteKeeps(cfg: Config, w: World, id: KeyId, row: Key, outcome: Outcome)
    requires Inv(cfg, w) && SnapOk(cfg, w, Snap(id, row))
    ensures Inv(cfg, Write(w, id, row, outcome)) && Grows(w, Write(w, id, row, outcome))
  {
    var w1 := Write(w, id, row, outcome);
    SnapStays(cfg, w, w1, Snap(id, row));
    Untouched(cfg, w, w1);
  }

  lemma EraseKeeps(cfg: Config, w: World, id: KeyId, outcome: Outcome)
    requires Inv(cfg, w)
    ensures Inv(cfg, EraseRow(w, id, outcome)) && Grows(w, EraseRow(w, id, outcome))
  {
    Untouched(cfg, w, EraseRow(w, id, outcome));
  }

  /** As `Preserved`, when no request moves. */
  lemma Untouched(cfg: Config, w: World, w1: World)
    requires Inv(cfg, w) && Grows(w, w1)
    requires forall r :: r in w1.remote.live ==> r < |w1.makers|
    requires w1.ops == w.ops && w1.done == w.done
    requires forall id :: id in w1.keys ==>
               (id in w.keys && w1.keys[id] == w.keys[id]) || SnapOk(cfg, w1, Snap(id, w1.keys[id]))
    requires forall r :: r in w.remote.live && r !in w1.remote.live ==> Past(w, w.makers[r].op)
    ensures Inv(cfg, w1)
  {
    forall id | id in w1.keys ensures SnapOk(cfg, w1, Snap(id, w1.keys[id])) {
      if id in w.keys && w1.keys[id] == w.keys[id] {
        SnapStays(cfg, w, w1, Snap(id, w.keys[id]));
      }
    }
    forall p | p in w1.ops ensures p !in w1.done && OpOk(cfg, w1, p, w1.ops[p]) {
      assert OpOk(cfg, w, p, w.ops[p]);
      OpStays(cfg, w, w1, p, w.ops[p]);
    }
  }

  /** A deletion on the provider takes at most the one key, and has taken it when it is confirmed. */
  lemma DeleteKeeps(cfg: Config, w: World, ref: Ref, outcome: Outcome)
    requires Inv(cfg, w) && ref < |w.makers| && Past(w, w.makers[ref].op)
    ensures var (remote, ok) := w.remote.Delete(cfg.strict, ref, outcome);
            && Inv(cfg, w.(remote := remote)) && Grows(w, w.(remote := remote))
            && (ok ==> ref !in remote.live)
  {
    Untouched(cfg, w, w.(remote := w.remote.Delete(cfg.strict, ref, outcome).0));
  }

  lemma DeleteRemoteKeeps(cfg: Config, w: World, o: OpId, ref: Ref, outcome: Outcome, next: Op)
    requires Inv(cfg, w) && o in w.ops && !w.ops[o].Undo? && !next.Undo? && Held(next).None?
    requires ref < |w.makers| && Past(w, w.makers[ref].op)
    requires OpOk(cfg, w.(remote := w.remote.(live := w.remote.live - {ref})), o, next)
    ensures var w1 := DeleteRemote(cfg, w, o, ref, outcome, next); Inv(cfg, w1) && Grows(w, w1)
  {
    DeleteKeeps(cfg, w, ref, outcome);
    var (remote, ok) := w.remote.Delete(cfg.strict, ref, outcome);
    var w1 := w.(remote := remote);
    if ok {
      OpStays(cfg, w.(remote := w.remote.(live := w.remote.live - {ref})), w1, o, next);
      PutKeeps(cfg, w1, o, next);
    } else {
      FinishKeeps(cfg, w1, o, false);
    }
  }

  lemma SnapsStay(cfg: Config, w: World, w1: World, snaps: seq<Snap>)
    requires Grows(w, w1) && forall s :: s in snaps ==> SnapOk(cfg, w, s)
    ensures forall s :: s in snaps ==> SnapOk(cfg, w1, s)
  {
    forall s | s in snaps ensures SnapOk(cfg, w1, s) { SnapStays(cfg, w, w1, s); }
  }

  /** `w` with one key gone from the provider. */
  function Without(w: World, ref: Ref): World { w.(remote := w.remote.(live := w.remote.live - {ref})) }

  lemma BeginBatchKeeps(cfg: Config, w: World, o: OpId, todo: seq<Snap>, target: Status)
    requires Inv(cfg, w) && o !in w.ops && o !in w.done && target != Active
    requires forall s :: s in todo ==> s.id in w.keys && s.row == w.keys[s.id]
    ensures Inv(cfg, Continue(w, o, todo, target)) && Grows(w, Continue(w, o, todo, target))
  {
    forall s | s in todo ensures SnapOk(cfg, w, s) {
      assert s == Snap(s.id, w.keys[s.id]);
    }
    ContinueKeeps(cfg, w, o, todo, target);
  }

  lemma BeginOneKeeps(cfg: Config, w: World, o: OpId, id: KeyId, op: Op)
    requires Inv(cfg, w) && o !in w.ops && o !in w.done && id in w.keys
    requires var s := Snap(id, w.keys[id]);
             op == Rotate(s) || (s.row.status == Active && op == Remove(s)) || (s.row.status != Active && op == Drop(s))
    ensures Inv(cfg, Put(w, o, op)) && Grows(w, Put(w, o, op))
  {
    assert SnapOk(cfg, w, Snap(id, w.keys[id]));
    PutKeeps(cfg, w, o, op);
  }

  lemma BeginKeeps(cfg: Config, w: World, o: OpId, request: Request)
    requires Inv(cfg, w) && o !in w.ops && o !in w.done
    ensures Inv(cfg, BeginRequest(w, o, request)) && Grows(w, BeginRequest(w, o, request))
  {
    match request {
      case CreateKey(input) => PutKeeps(cfg, w, o, Provision(Insert(NewRow(input))));
      case RevokeKey(id) =>
        if id in w.keys {
          BeginBatchKeeps(cfg, w, o, [Snap(id, w.keys[id])], Revoked);
        } else {
          FinishKeeps(cfg, w, o, false);
        }
      case RotateKey(id) =>
        if id in w.keys {
          BeginOneKeeps(cfg, w, o, id, Rotate(Snap(id, w.keys[id])));
        } else {
          FinishKeeps(cfg, w, o, false);
        }
      case DeleteKey(id) =>
        if id !in w.keys {
          FinishKeeps(cfg, w, o, false);
        } else if w.keys[id].status == Active {
          BeginOneKeeps(cfg, w, o, id, Remove(Snap(id, w.keys[id])));
        } else {
          BeginOneKeeps(cfg, w, o, id, Drop(Snap(id, w.keys[id])));
        }
      case RevokeUser(user, rank) =>
        CascadeReads(w.keys, user, rank);
        BeginBatchKeeps(cfg, w, o, OnlyActive(KeysOfUser(w.keys, user, rank)), Revoked);
      case ExpireKeys(now, rank) =>
        SweepReads(w.keys, now, rank);
        BeginBatchKeeps(cfg, w, o, OverdueKeys(w.keys, now, rank), Expired);
    }
  }

  lemma RetiredKeeps(cfg: Config, w: World, o: OpId, c: Choice)
    requires Inv(cfg, w) && o in w.ops && w.ops[o].Retired?
    ensures Inv(cfg, Step(cfg, w, o, c)) && Grows(w, Step(cfg, w, o, c))
  {
    var Retired(todo, target) := w.ops[o];
    assert OpOk(cfg, w, o, w.ops[o]);
    var row := todo[0].row.(status := target);
    assert todo[0] in todo && SnapOk(cfg, w, todo[0]);
    WriteKeeps(cfg, w, todo[0].id, row, c.outcome);
    var w1 := Write(w, todo[0].id, row, c.outcome);
    if c.outcome.Good? {
      SnapsStay(cfg, w, w1, todo);
      ContinueKeeps(cfg, w1, o, todo[1..], target);
    } else {
      FinishKeeps(cfg, w1, o, false);
    }
  }

  lemma ProvisionKeeps(cfg: Config, w: World, o: OpId, c: Choice)
    requires Inv(cfg, w) && o in w.ops && w.ops[o].Provision?
    ensures Inv(cfg, Step(cfg, w, o, c)) && Grows(w, Step(cfg, w, o, c))
  {
    var goal := w.ops[o].goal;
    assert OpOk(cfg, w, o, w.ops[o]);
    if c.outcome.Bad? {
      FinishKeeps(cfg, w, o, false);
    } else {
      var w1 := w.(remote := w.remote.Create(c.credential, c.outcome).0,
                   makers := w.makers + [Maker(o, GoalId(o, goal))]);
      Untouched(cfg, w, w1);
      if c.outcome.Good? {
        OpStays(cfg, w, w1, o, w.ops[o]);
        PutKeeps(cfg, w1, o, Configure(goal, |w.makers|, SetupCalls(GoalRow(goal))));
      } else {
        FinishKeeps(cfg, w1, o, false);
      }
    }
  }

  lemma ConfigureKeeps(cfg: Config, w: World, o: OpId, c: Choice)
    requires cfg.box.Lawful() && Inv(cfg, w) && o in w.ops && w.ops[o].Configure?
    ensures Inv(cfg, Step(cfg, w, o, c)) && Grows(w, Step(cfg, w, o, c))
  {
    var Configure(goal, ref, calls) := w.ops[o];
    assert OpOk(cfg, w, o, w.ops[o]);
    if !c.outcome.Good? {
      FinishKeeps(cfg, w, o, false);
    } else if calls > 0 {
      PutKeeps(cfg, w, o, Configure(goal, ref, calls - 1));
    } else {
      DecryptEncrypt(cfg.box, c.nonce, w.remote.issued[ref].password);
      PutKeeps(cfg, w, o, Save(goal, ref, WithCredential(cfg.box, GoalRow(goal), ref, w.remote.issued[ref], c)));
    }
  }

  /** The row is written once the request has no further use for its reference. */
  lemma SaveKeeps(cfg: Config, w: World, o: OpId, c: Choice)
    requires Inv(cfg, w) && o in w.ops && w.ops[o].Save?
    ensures Inv(cfg, Step(cfg, w, o, c)) && Grows(w, Step(cfg, w, o, c))
  {
    var Save(goal, ref, row) := w.ops[o];
    assert OpOk(cfg, w, o, w.ops[o]);
    if !c.outcome.Good? && goal.Insert? {
      PutKeeps(cfg, w, o, Undo(ref));
      StoreKeeps(cfg, w, Put(w, o, Undo(ref)), o, c.outcome);
    } else {
      FinishKeeps(cfg, w, o, c.outcome.Good?);
      StoreKeeps(cfg, w, Finish(w, o, c.outcome.Good?), o, c.outcome);
    }
  }

  lemma StoreKeeps(cfg: Config, w: World, w1: World, o: OpId, outcome: Outcome)
    requires Inv(cfg, w) && o in w.ops && w.ops[o].Save? && Inv(cfg, w1) && Grows(w, w1)
    requires w1.keys == w.keys && w1.remote == w.remote && w1.makers == w.makers && Past(w1, o)
    ensures var w2 := Write(w1, GoalId(o, w.ops[o].goal), w.ops[o].row, outcome); Inv(cfg, w2) && Grows(w, w2)
  {
    var Save(goal, ref, row) := w.ops[o];
    assert OpOk(cfg, w, o, w.ops[o]);
    if goal.Replace? {
      SnapStays(cfg, w, w1, goal.snap);
    }
    WriteKeeps(cfg, w1, GoalId(o, goal), row, outcome);
  }

  lemma StepKeeps(cfg: Config, w: World, o: OpId, c: Choice)
    requires cfg.box.Lawful() && Inv(cfg, w) && o in w.ops
    ensures Inv(cfg, Step(cfg, w, o, c)) && Grows(w, Step(cfg, w, o, c))
  {
    var op := w.ops[o];
    assert OpOk(cfg, w, o, op);
    match op {
      case Retire(todo, target) =>
        assert todo[0] in todo;
        SnapsStay(cfg, w, Without(w, todo[0].row.ref), todo);
        DeleteRemoteKeeps(cfg, w, o, todo[0].row.ref, c.outcome, Retired(todo, target));
      case Retired(_, _) => RetiredKeeps(cfg, w, o, c);
      case Remove(s) =>
        SnapStays(cfg, w, Without(w, s.row.ref), s);
        DeleteRemoteKeeps(cfg, w, o, s.row.ref, c.outcome, Drop(s));
      case Drop(s) =>
        EraseKeeps(cfg, w, s.id, c.outcome);
        FinishKeeps(cfg, EraseRow(w, s.id, c.outcome), o, c.outcome.Good?);
      case Rotate(s) =>
        SnapStays(cfg, w, Without(w, s.row.ref), s);
        DeleteRemoteKeeps(cfg, w, o, s.row.ref, c.outcome, Provision(Replace(s)));
      case Provision(_) => ProvisionKeeps(cfg, w, o, c);
      case Configure(_, _, _) => ConfigureKeeps(cfg, w, o, c);
      case Save(_, _, _) => SaveKeeps(cfg, w, o, c);
      case Undo(ref) =>
        DeleteKeeps(cfg, w, ref, c.outcome);
        FinishKeeps(cfg, w.(remote := w.remote.Delete(cfg.strict, ref, c.outcome).0), o, false);
    }
  }

  lemma NextKeeps(cfg: Config, w: World, e: Event)
    requires cfg.box.Lawful() && Inv(cfg, w)
    ensures Inv(cfg, Next(cfg, w, e)) && Grows(w, Next(cfg, w, e))
  {
    if Enabled(w, e) {
      match e {
        case Begin(o, request) => BeginKeeps(cfg, w, o, request);
        case Advance(o, c) => StepKeeps(cfg, w, o, c);
      }
    }
  }

  lemma {:induction false} RunKeeps(cfg: Config, w: World, es: seq<Event>)
    requires cfg.box.Lawful() && Inv(cfg, w)
    ensures Inv(cfg, Run(cfg, w, es))
    decreases |es|
  {
    if es != [] {
      NextKeeps(cfg, w, es[0]);
      RunKeeps(cfg, Next(cfg, w, es[0]), es[1..]);
    }
  }

  /**
   Main safety result: with either provider, whatever the interleaving and the faults, a row stored
   as REVOKED or EXPIRED never refers to a key that still works.
   */
  lemma DeadRowsStayDead(cfg: Config, es: seq<Event>, id: KeyId)
    requires cfg.box.Lawful() && id in Run(cfg, INIT, es).keys
    ensures var w := Run(cfg, INIT, es);
            w.keys[id].status != Active ==> w.keys[id].ref !in w.remote.live
  {
    RunKeeps(cfg, INIT, es);
    var w := Run(cfg, INIT, es);
    assert SnapOk(cfg, w, Snap(id, w.keys[id]));
  }

  lemma OneOwner(cfg: Config, w: World, id: KeyId, other: KeyId)
    requires Inv(cfg, w) && id in w.keys && other in w.keys && w.keys[id].ref == w.keys[other].ref
    ensures id == other
  {
    assert SnapOk(cfg, w, Snap(id, w.keys[id])) && SnapOk(cfg, w, Snap(other, w.keys[other]));
  }

  /** No two rows ever share a secret reference. */
  lemma ReferencesAreOwned(cfg: Config, es: seq<Event>, id: KeyId, other: KeyId)
    requires cfg.box.Lawful()
    requires var w := Run(cfg, INIT, es); id in w.keys && other in w.keys && w.keys[id].ref == w.keys[other].ref
    ensures id == other
  {
    RunKeeps(cfg, INIT, es);
    OneOwner(cfg, Run(cfg, INIT, es), id, other);
  }
}
