/**
 With a strict provider the deletion of a key acts as a lock: only the request whose deletion was
 confirmed goes on to write the row, so no write is lost, whatever the faults.
 */
module StrictProtocol {
  import opened Bytes
  import opened Model
  import opened Protocol
  import opened ProtocolInvariant

  /** The row a request may write because its deletion on the provider was confirmed. */
  function Holds(op: Op): Option<Snap> {
    match op
    case Retired(todo, _) => if todo == [] then None else Some(todo[0])
    case Drop(s) => if s.row.status == Active then Some(s) else None
    case Provision(goal) => if goal.Replace? then Some(goal.snap) else None
    case Configure(goal, _, _) => if goal.Replace? then Some(goal.snap) else None
    case Save(goal, _, _) => if goal.Replace? then Some(goal.snap) else None
    case _ => None
  }

  /** The rows a request has read and not yet tried to delete on the provider. */
  function Waits(op: Op): seq<Snap> {
    match op
    case Retire(todo, _) => todo
    case Retired(todo, _) => if todo == [] then [] else todo[1..]
    case Remove(s) => [s]
    case Rotate(s) => [s]
    case _ => []
  }

  predicate Stored(w: World, s: Snap) { s.id in w.keys && w.keys[s.id] == s.row }

  predicate OpLocked(w: World, op: Op) {
    && (Holds(op).Some? ==> Stored(w, Holds(op).value) && Holds(op).value.row.status == Active)
    && (forall s :: s in Waits(op) && s.row.ref in w.remote.live ==> Stored(w, s))
    && (op.Drop? && op.snap.row.status != Active && op.snap.id in w.keys ==> Stored(w, op.snap))
  }

  /** Every request that may write a row read exactly the row stored, and no two may write the same row. */
  ghost predicate Locked(w: World) {
    && (forall o :: o in w.ops ==> OpLocked(w, w.ops[o]))
    && (forall o, p :: o in w.ops && p in w.ops && o != p && Holds(w.ops[o]).Some? && Holds(w.ops[p]).Some?
                       ==> Holds(w.ops[o]).value.id != Holds(w.ops[p]).value.id)
  }

  /** The one row a request is entitled to change next, if any. */
  function Writes(o: OpId, op: Op): Option<KeyId> {
    if Holds(op).Some? then Some(Holds(op).value.id)
    else if op.Drop? then Some(op.snap.id)
    else if op.Save? && op.goal.Insert? then Some(o)
    else None
  }

  /** From `w` to `w1` request `o` moved, revived no key, and changed no row but its own. */
  ghost predicate Moves(w: World, w1: World, o: OpId)
    requires o in w.ops
  {
    && (forall r :: r in w1.remote.live && r < |w.makers| ==> r in w.remote.live)
    && (forall p :: p != o ==> (p in w1.ops <==> p in w.ops) && (p in w.ops ==> w1.ops[p] == w.ops[p]))
    && (forall p :: p != o ==> (p in w1.done <==> p in w.done) && (p in w.done ==> w1.done[p] == w.done[p]))
    && (forall id: KeyId :: Writes(o, w.ops[o]) != Some(id) ==>
                     (id in w1.keys <==> id in w.keys) && (id in w.keys ==> w1.keys[id] == w.keys[id]))
    && (w.ops[o].Drop? ==>
          var id := w.ops[o].snap.id; id in w1.keys ==> id in w.keys && w1.keys[id] == w.keys[id])
  }

  lemma DeletionMoves(cfg: Config, w: World, o: OpId, c: Choice)
    requires |w.makers| == |w.remote.issued| && o in w.ops
    requires w.ops[o].Retire? || w.ops[o].Remove? || w.ops[o].Rotate? || w.ops[o].Undo?
    ensures Moves(w, Step(cfg, w, o, c), o)
  {
  }

  lemma RetiredSteps(cfg: Config, w: World, o: OpId, c: Choice)
    requires o in w.ops && w.ops[o].Retired? && w.ops[o].todo != []
    ensures var w1, todo, target := Step(cfg, w, o, c), w.ops[o].todo, w.ops[o].target;
            var w2 := Write(w, todo[0].id, todo[0].row.(status := target), c.outcome);
            w1 == if c.outcome.Good? then Continue(w2, o, todo[1..], target) else Finish(w2, o, false)
  {
  }

  lemma DropSteps(cfg: Config, w: World, o: OpId, c: Choice)
    requires o in w.ops && w.ops[o].Drop?
    ensures Step(cfg, w, o, c) == Finish(EraseRow(w, w.ops[o].snap.id, c.outcome), o, c.outcome.Good?)
  {
  }

  lemma RetiredMoves(cfg: Config, w: World, o: OpId, c: Choice)
    requires o in w.ops && w.ops[o].Retired?
    ensures Moves(w, Step(cfg, w, o, c), o)
  {
    hide Step;
    if w.ops[o].todo != [] {
      RetiredSteps(cfg, w, o, c);
    } else {
      EmptySteps(cfg, w, o, c);
    }
  }

  lemma EmptySteps(cfg: Config, w: World, o: OpId, c: Choice)
    requires o in w.ops && w.ops[o].Retired? && w.ops[o].todo == []
    ensures Step(cfg, w, o, c) == Finish(w, o, true)
  {
  }

  lemma DropMoves(cfg: Config, w: World, o: OpId, c: Choice)
    requires o in w.ops && w.ops[o].Drop?
    ensures Moves(w, Step(cfg, w, o, c), o)
  {
    hide Step;
    DropSteps(cfg, w, o, c);
  }

  lemma ProvisionMoves(cfg: Config, w: World, o: OpId, c: Choice)
    requires |w.makers| == |w.remote.issued| && o in w.ops && (w.ops[o].Provision? || w.ops[o].Configure?)
    ensures Moves(w, Step(cfg, w, o, c), o)
  {
  }

  lemma SaveMoves(cfg: Config, w: World, o: OpId, c: Choice)
    requires |w.makers| == |w.remote.issued| && o in w.ops && w.ops[o].Save?
    ensures Moves(w, Step(cfg, w, o, c), o)
  {
  }

  lemma StepMoves(cfg: Config, w: World, o: OpId, c: Choice)
    requires |w.makers| == |w.remote.issued| && o in w.ops
    ensures Moves(w, Step(cfg, w, o, c), o)
  {
    match w.ops[o] {
      case Retired(_, _) => RetiredMoves(cfg, w, o, c);
      case Drop(_) => DropMoves(cfg, w, o, c);
      case Provision(_) => ProvisionMoves(cfg, w, o, c);
      case Configure(_, _, _) => ProvisionMoves(cfg, w, o, c);
      case Save(_, _, _) => SaveMoves(cfg, w, o, c);
      case _ => DeletionMoves(cfg, w, o, c);
    }
  }

  /** An ACTIVE row that request `o` does not hold is not touched by its step. */
  lemma KeepsRow(cfg: Config, w: World, w1: World, o: OpId, s: Snap)
    requires Inv(cfg, w) && o in w.ops && OpLocked(w, w.ops[o]) && Moves(w, w1, o)
    requires Stored(w, s) && s.row.status == Active
    requires Holds(w.ops[o]).Some? ==> Holds(w.ops[o]).value.id != s.id
    ensures Stored(w1, s)
  {
    hide OpOk;
    assert SnapOk(cfg, w, Snap(s.id, w.keys[s.id]));
  }

  /** A row read by a request in flight has its owner, so nobody is about to insert it. */
  lemma NotInserted(cfg: Config, w: World, o: OpId, s: Snap)
    requires Inv(cfg, w) && o in w.ops && SnapOk(cfg, w, s)
    ensures w.ops[o].Save? ==> s.id != o
  {
    hide OpOk;
  }

  lemma HoldsDead(cfg: Config, w: World, o: OpId)
    requires Inv(cfg, w) && o in w.ops && Holds(w.ops[o]).Some?
    ensures Holds(w.ops[o]).value.row.ref !in w.remote.live
  {
    hide SnapOk;
    assert OpOk(cfg, w, o, w.ops[o]);
  }

  lemma WaitsOk(cfg: Config, w: World, o: OpId, s: Snap)
    requires Inv(cfg, w) && o in w.ops && (s in Waits(w.ops[o]) || (w.ops[o].Drop? && s == w.ops[o].snap))
    ensures SnapOk(cfg, w, s)
  {
    hide SnapOk;
    assert OpOk(cfg, w, o, w.ops[o]);
  }

  /** What request `o` does leaves the locks of every other request in place. */
  lemma OthersStayLocked(cfg: Config, w: World, w1: World, o: OpId, p: OpId)
    requires Inv(cfg, w) && Locked(w) && o in w.ops && p in w.ops && p != o && Moves(w, w1, o)
    ensures OpLocked(w1, w.ops[p])
  {
    hide Inv, Holds, Waits, Describes;
    var mine, other := w.ops[o], w.ops[p];
    assert OpLocked(w, mine) && OpLocked(w, other);
    if Holds(other).Some? {
      KeepsRow(cfg, w, w1, o, Holds(other).value);
    }
    forall s | s in Waits(other) && s.row.ref in w1.remote.live ensures Stored(w1, s) {
      WaitsOk(cfg, w, p, s);
      if Holds(mine).Some? {
        HoldsDead(cfg, w, o);
      }
      KeepsRow(cfg, w, w1, o, s);
    }
    if other.Drop? {
      WaitsOk(cfg, w, p, other.snap);
      NotInserted(cfg, w, o, other.snap);
    }
  }

  /** A confirmed deletion locks the row: it was stored as read, ACTIVE, and nobody else holds it. */
  lemma ConfirmedDeletionLocks(cfg: Config, w: World, o: OpId, s: Snap)
    requires Inv(cfg, w) && Locked(w) && o in w.ops && s in Waits(w.ops[o]) && s.row.ref in w.remote.live
    ensures Stored(w, s) && s.row.status == Active
    ensures forall p :: p in w.ops && Holds(w.ops[p]).Some? ==> Holds(w.ops[p]).value.id != s.id
  {
    assert OpOk(cfg, w, o, w.ops[o]) && OpLocked(w, w.ops[o]);
    assert SnapOk(cfg, w, s);
    forall p | p in w.ops && Holds(w.ops[p]).Some? ensures Holds(w.ops[p]).value.id != s.id {
      assert OpOk(cfg, w, p, w.ops[p]) && OpLocked(w, w.ops[p]);
    }
  }

  predicate AloneWith(w: World, o: OpId, id: KeyId) {
    forall p :: p in w.ops && p != o && Holds(w.ops[p]).Some? ==> Holds(w.ops[p]).value.id != id
  }

  /** Request `o` has moved; the locks hold if its own are in order. */
  lemma MoveKeepsLocks(cfg: Config, w: World, w1: World, o: OpId)
    requires Inv(cfg, w) && Locked(w) && o in w.ops && Moves(w, w1, o)
    requires o in w1.ops ==> OpLocked(w1, w1.ops[o])
    requires o in w1.ops && Holds(w1.ops[o]).Some? ==> AloneWith(w, o, Holds(w1.ops[o]).value.id)
    ensures Locked(w1)
  {
    forall p | p in w1.ops ensures OpLocked(w1, w1.ops[p]) {
      if p != o {
        OthersStayLocked(cfg, w, w1, o, p);
      }
    }
  }

  lemma DeletionLocks(cfg: Config, w: World, o: OpId, s: Snap, outcome: Outcome, next: Op)
    requires cfg.strict && Inv(cfg, w) && Locked(w) && o in w.ops && s in Waits(w.ops[o])
    requires Holds(next).Some? ==> Holds(next).value == s
    requires next.Drop? ==> next.snap == s
    requires forall x :: x in Waits(next) ==> x in Waits(w.ops[o])
    ensures var w1 := DeleteRemote(cfg, w, o, s.row.ref, outcome, next);
            o in w1.ops ==> w1.ops[o] == next && OpLocked(w1, next) && AloneWith(w, o, s.id)
  {
    if s.row.ref in w.remote.live {
      ConfirmedDeletionLocks(cfg, w, o, s);
      assert OpLocked(w, w.ops[o]);
    }
  }

  lemma RetiredKeepsLock(cfg: Config, w: World, o: OpId, c: Choice)
    requires Inv(cfg, w) && Locked(w) && o in w.ops && w.ops[o].Retired?
    ensures var w1 := Step(cfg, w, o, c); o in w1.ops ==> OpLocked(w1, w1.ops[o]) && Holds(w1.ops[o]).None?
  {
    hide Step, SnapOk;
    var w1 := Step(cfg, w, o, c);
    var todo := w.ops[o].todo;
    RetiredSteps(cfg, w, o, c);
    assert OpOk(cfg, w, o, w.ops[o]) && OpLocked(w, w.ops[o]);
    if o in w1.ops {
      assert w1.ops[o] == Retire(todo[1..], w.ops[o].target);
      forall s | s in todo[1..] && s.row.ref in w1.remote.live ensures Stored(w1, s) {
        assert Stored(w, s) && Stored(w, todo[0]) && todo[0].row.ref != s.row.ref;
      }
    }
  }

  /** Provisioning carries the lock along: the table is untouched and nothing else waits. */
  lemma CarriesLock(cfg: Config, w: World, o: OpId, c: Choice)
    requires o in w.ops && (w.ops[o].Provision? || w.ops[o].Configure?)
    ensures var w1 := Step(cfg, w, o, c);
            o in w1.ops ==> w1.keys == w.keys && Holds(w1.ops[o]) == Holds(w.ops[o])
                            && Waits(w1.ops[o]) == [] && !w1.ops[o].Drop?
  {
  }

  lemma EndsOrUndoes(cfg: Config, w: World, o: OpId, c: Choice)
    requires o in w.ops && (w.ops[o].Drop? || w.ops[o].Save? || w.ops[o].Undo?)
    ensures o in Step(cfg, w, o, c).ops ==> Step(cfg, w, o, c).ops[o].Undo?
  {
  }

  /** The three steps that delete on the provider, by what they would go on with. */
  lemma DeletionSteps(cfg: Config, w: World, o: OpId, c: Choice)
    requires o in w.ops
    ensures match w.ops[o]
            case Retire(todo, target) =>
              todo != [] ==> Step(cfg, w, o, c)
                             == DeleteRemote(cfg, w, o, todo[0].row.ref, c.outcome, Retired(todo, target))
            case Remove(s) => Step(cfg, w, o, c) == DeleteRemote(cfg, w, o, s.row.ref, c.outcome, Drop(s))
            case Rotate(s) =>
              Step(cfg, w, o, c) == DeleteRemote(cfg, w, o, s.row.ref, c.outcome, Provision(Replace(s)))
            case _ => true
  {
  }

  /** What request `o` may write after its step is locked, and by it alone. */
  ghost predicate OwnLocks(w: World, w1: World, o: OpId) {
    o in w1.ops ==> OpLocked(w1, w1.ops[o])
                    && (Holds(w1.ops[o]).Some? ==> AloneWith(w, o, Holds(w1.ops[o]).value.id))
  }

  lemma DeletionOwnLocks(cfg: Config, w: World, o: OpId, c: Choice)
    requires cfg.strict && Inv(cfg, w) && Locked(w) && o in w.ops
    requires w.ops[o].Retire? || w.ops[o].Remove? || w.ops[o].Rotate?
    ensures OwnLocks(w, Step(cfg, w, o, c), o)
  {
    hide Step, DeleteRemote, SnapOk;
    assert OpOk(cfg, w, o, w.ops[o]);
    DeletionSteps(cfg, w, o, c);
    match w.ops[o] {
      case Retire(todo, target) => DeletionLocks(cfg, w, o, todo[0], c.outcome, Retired(todo, target));
      case Remove(s) => DeletionLocks(cfg, w, o, s, c.outcome, Drop(s));
      case Rotate(s) => DeletionLocks(cfg, w, o, s, c.outcome, Provision(Replace(s)));
      case _ =>
    }
  }

  lemma CarriedOwnLocks(cfg: Config, w: World, o: OpId, c: Choice)
    requires Locked(w) && o in w.ops && (w.ops[o].Provision? || w.ops[o].Configure?)
    ensures OwnLocks(w, Step(cfg, w, o, c), o)
  {
    hide Step;
    CarriesLock(cfg, w, o, c);
    assert OpLocked(w, w.ops[o]);
  }

  lemma StepOwnLocks(cfg: Config, w: World, o: OpId, c: Choice)
    requires cfg.strict && Inv(cfg, w) && Locked(w) && o in w.ops
    ensures OwnLocks(w, Step(cfg, w, o, c), o)
  {
    hide Step, Inv, Locked;
    match w.ops[o] {
      case Retired(_, _) => RetiredKeepsLock(cfg, w, o, c);
      case Provision(_) => CarriedOwnLocks(cfg, w, o, c);
      case Configure(_, _, _) => CarriedOwnLocks(cfg, w, o, c);
      case Drop(_) => EndsOrUndoes(cfg, w, o, c);
      case Save(_, _, _) => EndsOrUndoes(cfg, w, o, c);
      case Undo(_) => EndsOrUndoes(cfg, w, o, c);
      case _ => DeletionOwnLocks(cfg, w, o, c);
    }
  }

  lemma StepKeepsLocks(cfg: Config, w: World, o: OpId, c: Choice)
    requires cfg.strict && Inv(cfg, w) && Locked(w) && o in w.ops
    ensures Locked(Step(cfg, w, o, c))
  {
    hide Step, Locked;
    StepMoves(cfg, w, o, c);
    StepOwnLocks(cfg, w, o, c);
    MoveKeepsLocks(cfg, w, Step(cfg, w, o, c), o);
  }

  /** A new request that holds nothing and has only read the table keeps the locks. */
  lemma PutKeepsLocks(w: World, o: OpId, op: Op)
    requires Locked(w) && o !in w.ops && Holds(op).None?
    requires forall s :: s in Waits(op) ==> Stored(w, s)
    requires op.Drop? ==> Stored(w, op.snap)
    ensures Locked(Put(w, o, op))
  {
    var w1 := Put(w, o, op);
    forall p | p in w1.ops ensures OpLocked(w1, w1.ops[p]) {
      assert p != o ==> OpLocked(w, w.ops[p]);
    }
  }

  lemma FinishKeepsLocks(w: World, o: OpId, ok: bool)
    requires Locked(w)
    ensures Locked(Finish(w, o, ok))
  {
    assert forall p :: p in w.ops ==> OpLocked(w, w.ops[p]);
  }

  lemma BeginKeepsLocks(w: World, o: OpId, request: Request)
    requires Locked(w) && o !in w.ops
    ensures Locked(BeginRequest(w, o, request))
  {
    hide Locked, OverdueKeys, KeysOfUser, OnlyActive;
    FinishKeepsLocks(w, o, false);
    FinishKeepsLocks(w, o, true);
    var w1 := BeginRequest(w, o, request);
    if o in w1.ops {
      if request.RevokeUser? {
        CascadeReads(w.keys, request.user, request.rank);
      } else if request.ExpireKeys? {
        SweepReads(w.keys, request.now, request.rank);
      }
      PutKeepsLocks(w, o, w1.ops[o]);
    }
  }

  lemma NextKeepsLocks(cfg: Config, w: World, e: Event)
    requires cfg.strict && Inv(cfg, w) && Locked(w)
    ensures Locked(Next(cfg, w, e))
  {
    if Enabled(w, e) {
      match e {
        case Begin(o, request) => BeginKeepsLocks(w, o, request);
        case Advance(o, c) => StepKeepsLocks(cfg, w, o, c);
      }
    }
  }

  lemma {:induction false} RunKeepsLocks(cfg: Config, w: World, es: seq<Event>)
    requires cfg.strict && cfg.box.Lawful() && Inv(cfg, w) && Locked(w)
    ensures Inv(cfg, Run(cfg, w, es)) && Locked(Run(cfg, w, es))
    decreases |es|
  {
    if es != [] {
      NextKeeps(cfg, w, es[0]);
      NextKeepsLocks(cfg, w, es[0]);
      RunKeepsLocks(cfg, Next(cfg, w, es[0]), es[1..]);
    }
  }
}
