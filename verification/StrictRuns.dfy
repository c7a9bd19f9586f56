/** What the lock of a strict provider gives over whole runs. */
module StrictRuns {
  import opened Bytes
  import opened Model
  import opened Protocol
  import opened ProtocolInvariant
  import opened StrictProtocol

  /** The row as read by the request that is about to overwrite or delete it. */
  function Overwrites(op: Op): Option<Snap> {
    if op.Drop? then Some(op.snap) else Holds(op)
  }

  /** Only the request that read exactly the stored row changes it: no key-row write is lost. */
  lemma NoLostWrite(cfg: Config, w: World, e: Event, id: KeyId)
    requires cfg.strict && Inv(cfg, w) && Locked(w) && id in w.keys
    requires var w1 := Next(cfg, w, e); id !in w1.keys || w1.keys[id] != w.keys[id]
    ensures e.Advance? && e.op in w.ops && Overwrites(w.ops[e.op]) == Some(Snap(id, w.keys[id]))
  {
    hide Step, BeginRequest, OpOk, SnapOk;
    if e.Begin? && Enabled(w, e) {
      BeginHoldsNothing(w, e.op, e.request);
    }
    assert e.Advance? && e.op in w.ops;
    StepMoves(cfg, w, e.op, e.choice);
    assert Writes(e.op, w.ops[e.op]) == Some(id);
    OverwritesStored(cfg, w, e.op, id);
  }

  lemma OverwritesStored(cfg: Config, w: World, o: OpId, id: KeyId)
    requires Inv(cfg, w) && Locked(w) && id in w.keys && o in w.ops && Writes(o, w.ops[o]) == Some(id)
    ensures Overwrites(w.ops[o]) == Some(Snap(id, w.keys[id]))
  {
    assert OpOk(cfg, w, o, w.ops[o]) && OpLocked(w, w.ops[o]);
    assert SnapOk(cfg, w, Snap(id, w.keys[id]));
  }

  /** A lock is either carried over or was just taken on the row as stored, whose key was live. */
  lemma LocksAreTaken(cfg: Config, w: World, o: OpId, c: Choice)
    requires cfg.strict && Inv(cfg, w) && Locked(w) && o in w.ops
    ensures var w1 := Step(cfg, w, o, c);
            o in w1.ops && Holds(w1.ops[o]).Some? ==>
              var s := Holds(w1.ops[o]).value;
              Holds(w.ops[o]) == Some(s) || (Stored(w, s) && s.row.ref in w.remote.live)
  {
    hide Step, DeleteRemote, SnapOk, Locked;
    var op := w.ops[o];
    match op {
      case Retired(_, _) => RetiredKeepsLock(cfg, w, o, c);
      case Provision(_) => CarriesLock(cfg, w, o, c);
      case Configure(_, _, _) => CarriesLock(cfg, w, o, c);
      case Drop(_) => EndsOrUndoes(cfg, w, o, c);
      case Save(_, _, _) => EndsOrUndoes(cfg, w, o, c);
      case Undo(_) => EndsOrUndoes(cfg, w, o, c);
      case _ => DeletionTakes(cfg, w, o, c);
    }
  }

  lemma DeletionTakes(cfg: Config, w: World, o: OpId, c: Choice)
    requires cfg.strict && Inv(cfg, w) && Locked(w) && o in w.ops
    requires w.ops[o].Retire? || w.ops[o].Remove? || w.ops[o].Rotate?
    ensures var w1 := Step(cfg, w, o, c);
            o in w1.ops && Holds(w1.ops[o]).Some? ==>
              var s := Holds(w1.ops[o]).value; Stored(w, s) && s.row.ref in w.remote.live
  {
    hide Step, SnapOk;
    assert OpOk(cfg, w, o, w.ops[o]) && OpLocked(w, w.ops[o]);
    DeletionSteps(cfg, w, o, c);
  }

  /** Nobody may write this row, and nobody can come to, because its key is gone from the provider. */
  ghost predicate Frozen(w: World, id: KeyId) {
    && id in w.keys && w.keys[id].ref !in w.remote.live
    && forall o :: o in w.ops && Holds(w.ops[o]).Some? ==> Holds(w.ops[o]).value.id != id
  }

  /** A frozen row stays exactly as it is; if it is not ACTIVE it may still be deleted. */
  lemma FrozenStays(cfg: Config, w: World, e: Event, id: KeyId)
    requires cfg.strict && cfg.box.Lawful() && Inv(cfg, w) && Locked(w) && Frozen(w, id)
    ensures var w1 := Next(cfg, w, e);
            if id in w1.keys then w1.keys[id] == w.keys[id] && Frozen(w1, id) else w.keys[id].status != Active
  {
    hide Step, BeginRequest, SnapOk, OpOk, OpLocked;
    var w1 := Next(cfg, w, e);
    NextKeeps(cfg, w, e);
    RowIsIssued(cfg, w, id);
    if id !in w1.keys || w1.keys[id] != w.keys[id] {
      NoLostWrite(cfg, w, e, id);
      StepMoves(cfg, w, e.op, e.choice);
    }
    if Enabled(w, e) {
      if e.Begin? {
        BeginHoldsNothing(w, e.op, e.request);
      } else {
        StepMoves(cfg, w, e.op, e.choice);
        LocksAreTaken(cfg, w, e.op, e.choice);
      }
    }
  }

  lemma RowIsIssued(cfg: Config, w: World, id: KeyId)
    requires Inv(cfg, w) && id in w.keys
    ensures w.keys[id].ref < |w.makers| && Past(w, id)
  {
    assert SnapOk(cfg, w, Snap(id, w.keys[id]));
  }

  lemma BeginHoldsNothing(w: World, o: OpId, request: Request)
    requires o !in w.ops
    ensures var w1 := BeginRequest(w, o, request);
            && (o in w1.ops ==> Holds(w1.ops[o]).None?)
            && w1.keys == w.keys && w1.remote == w.remote && w1.makers == w.makers
            && forall p :: p != o ==> (p in w1.ops <==> p in w.ops) && (p in w.ops ==> w1.ops[p] == w.ops[p])
  {
    hide KeysOfUser, OverdueKeys, OnlyActive;
  }

  /** A row that is gone stays gone: no whole-row save brings it back. */
  lemma GoneStaysGone(cfg: Config, w: World, e: Event, id: KeyId)
    requires cfg.strict && Inv(cfg, w) && Locked(w) && Past(w, id) && id !in w.keys
    ensures id !in Next(cfg, w, e).keys
  {
    hide Step;
    if Enabled(w, e) && e.Advance? {
      StepMoves(cfg, w, e.op, e.choice);
      var op := w.ops[e.op];
      assert OpOk(cfg, w, e.op, op) && OpLocked(w, op);
    } else if Enabled(w, e) {
      BeginHoldsNothing(w, e.op, e.request);
    }
  }

  /** REVOKED and EXPIRED are absorbing: such a row never changes again, though it may be deleted for good. */
  lemma {:induction false} TerminalIsAbsorbing(cfg: Config, w: World, es: seq<Event>, id: KeyId)
    requires cfg.strict && cfg.box.Lawful() && Inv(cfg, w) && Locked(w)
    requires id in w.keys && w.keys[id].status != Active
    ensures var w1 := Run(cfg, w, es); id in w1.keys ==> w1.keys[id] == w.keys[id]
    decreases |es|
  {
    hide Next, SnapOk, OpOk, OpLocked;
    if es != [] {
      assert Frozen(w, id) by { TerminalIsFrozen(cfg, w, id); }
      FrozenStays(cfg, w, es[0], id);
      NextKeeps(cfg, w, es[0]);
      NextKeepsLocks(cfg, w, es[0]);
      if id in Next(cfg, w, es[0]).keys {
        TerminalIsAbsorbing(cfg, Next(cfg, w, es[0]), es[1..], id);
      } else {
        assert Past(w, id) by { RowIsPast(cfg, w, id); }
        RemainsGone(cfg, Next(cfg, w, es[0]), es[1..], id);
      }
    }
  }

  lemma RowIsPast(cfg: Config, w: World, id: KeyId)
    requires Inv(cfg, w) && id in w.keys
    ensures Past(w, id)
  {
    assert SnapOk(cfg, w, Snap(id, w.keys[id]));
  }

  lemma TerminalIsFrozen(cfg: Config, w: World, id: KeyId)
    requires Inv(cfg, w) && Locked(w) && id in w.keys && w.keys[id].status != Active
    ensures Frozen(w, id)
  {
    assert SnapOk(cfg, w, Snap(id, w.keys[id]));
    forall o | o in w.ops && Holds(w.ops[o]).Some? ensures Holds(w.ops[o]).value.id != id {
      assert OpLocked(w, w.ops[o]);
    }
  }

  lemma {:induction false} RemainsGone(cfg: Config, w: World, es: seq<Event>, id: KeyId)
    requires cfg.strict && cfg.box.Lawful() && Inv(cfg, w) && Locked(w) && Past(w, id) && id !in w.keys
    ensures id !in Run(cfg, w, es).keys
    decreases |es|
  {
    hide Next;
    if es != [] {
      GoneStaysGone(cfg, w, es[0], id);
      NextKeeps(cfg, w, es[0]);
      NextKeepsLocks(cfg, w, es[0]);
      RemainsGone(cfg, Next(cfg, w, es[0]), es[1..], id);
    }
  }

  /** An ACTIVE row whose key is gone and that nobody is about to write can never leave ACTIVE, not even by deletion. */
  lemma {:induction false} StaleIsStuck(cfg: Config, w: World, es: seq<Event>, id: KeyId)
    requires cfg.strict && cfg.box.Lawful() && Inv(cfg, w) && Locked(w)
    requires Frozen(w, id) && w.keys[id].status == Active
    ensures var w1 := Run(cfg, w, es); Frozen(w1, id) && w1.keys[id] == w.keys[id]
    decreases |es|
  {
    hide Next, Frozen;
    if es != [] {
      FrozenStays(cfg, w, es[0], id);
      NextKeeps(cfg, w, es[0]);
      NextKeepsLocks(cfg, w, es[0]);
      assert id in Next(cfg, w, es[0]).keys;
      StaleIsStuck(cfg, Next(cfg, w, es[0]), es[1..], id);
    }
  }

  /** The requests that must delete the key of row `id` on the provider before they can succeed. */
  predicate MustDelete(w: World, request: Request, id: KeyId)
    requires id in w.keys
  {
    match request
    case RevokeKey(x) => x == id
    case RotateKey(x) => x == id
    case DeleteKey(x) => x == id
    case RevokeUser(user, _) => w.keys[id].user == user
    case ExpireKeys(now, _) => Overdue(w.keys[id], now)
    case CreateKey(_) => false
  }

  /** Request `o` still has to delete the key of `s`, or has failed. */
  predicate Doomed(w: World, o: OpId, s: Snap) {
    if o in w.ops then s in Waits(w.ops[o]) else o in w.done && !w.done[o]
  }

  lemma DoomedStays(cfg: Config, w: World, e: Event, o: OpId, s: Snap)
    requires cfg.strict && s.row.ref !in w.remote.live && Doomed(w, o, s)
    requires |w.makers| == |w.remote.issued| && (o in w.ops ==> o !in w.done)
    ensures Doomed(Next(cfg, w, e), o, s)
  {
    hide Step, BeginRequest;
    if Enabled(w, e) {
      match e {
        case Begin(p, request) => BeginLeaves(w, p, request);
        case Advance(p, c) =>
          if p == o {
            DoomedSteps(cfg, w, o, c, s);
          } else {
            StepMoves(cfg, w, p, c);
          }
      }
    }
  }

  lemma BeginLeaves(w: World, o: OpId, request: Request)
    requires o !in w.ops && o !in w.done
    ensures var w1 := BeginRequest(w, o, request);
            forall p :: p != o ==> (p in w.ops <==> p in w1.ops) && (p in w.ops ==> w1.ops[p] == w.ops[p])
                                   && (p in w.done <==> p in w1.done) && (p in w.done ==> w1.done[p] == w.done[p])
  {
    hide KeysOfUser, OverdueKeys, OnlyActive;
  }

  lemma DoomedSteps(cfg: Config, w: World, o: OpId, c: Choice, s: Snap)
    requires cfg.strict && o in w.ops && s.row.ref !in w.remote.live && s in Waits(w.ops[o])
    ensures Doomed(Step(cfg, w, o, c), o, s)
  {
    hide Step;
    DeletionSteps(cfg, w, o, c);
    if w.ops[o].Retired? {
      RetiredSteps(cfg, w, o, c);
    }
  }

  lemma {:induction false} DoomedFails(cfg: Config, w: World, es: seq<Event>, o: OpId, s: Snap)
    requires cfg.strict && cfg.box.Lawful() && Inv(cfg, w)
    requires s.row.ref < |w.makers| && s.row.ref !in w.remote.live && Doomed(w, o, s)
    ensures Doomed(Run(cfg, w, es), o, s)
    decreases |es|
  {
    hide Next;
    if es != [] {
      DoomedStays(cfg, w, es[0], o, s);
      NextKeeps(cfg, w, es[0]);
      DoomedFails(cfg, Next(cfg, w, es[0]), es[1..], o, s);
    }
  }

  /** Every later revocation, rotation, deletion, sweep or owner's cascade over a stale ACTIVE row fails. */
  lemma StaleBlocks(cfg: Config, w: World, o: OpId, request: Request, es: seq<Event>, id: KeyId)
    requires cfg.strict && cfg.box.Lawful() && Inv(cfg, w)
    requires id in w.keys && w.keys[id].status == Active && w.keys[id].ref !in w.remote.live
    requires MustDelete(w, request, id) && Enabled(w, Begin(o, request))
    ensures var w1 := Run(cfg, Next(cfg, w, Begin(o, request)), es); o in w1.done ==> !w1.done[o]
  {
    var s := Snap(id, w.keys[id]);
    var w1 := Next(cfg, w, Begin(o, request));
    BeginIsDoomed(w, o, request, id);
    NextKeeps(cfg, w, Begin(o, request));
    assert SnapOk(cfg, w, s);
    DoomedFails(cfg, w1, es, o, s);
    RunKeeps(cfg, w1, es);
  }

  lemma BeginIsDoomed(w: World, o: OpId, request: Request, id: KeyId)
    requires id in w.keys && w.keys[id].status == Active && MustDelete(w, request, id) && o !in w.ops
    ensures var w1 := BeginRequest(w, o, request);
            Doomed(w1, o, Snap(id, w.keys[id])) && w1.remote == w.remote && w1.makers == w.makers
  {
    if request.RevokeUser? {
      CascadeReads(w.keys, request.user, request.rank);
    } else if request.ExpireKeys? {
      SweepReads(w.keys, request.now, request.rank);
    }
  }

  // The same over every run from the empty system.

  lemma RunsAreLocked(cfg: Config, es: seq<Event>)
    requires cfg.strict && cfg.box.Lawful()
    ensures Inv(cfg, Run(cfg, INIT, es)) && Locked(Run(cfg, INIT, es))
  {
    RunKeepsLocks(cfg, INIT, es);
  }

  /** In any run, whatever the faults, a row is only overwritten or deleted by a request that read exactly that row. */
  lemma WritesAreNeverLost(cfg: Config, es: seq<Event>, e: Event, id: KeyId)
    requires cfg.strict && cfg.box.Lawful()
    requires var w := Run(cfg, INIT, es);
             id in w.keys && (id !in Next(cfg, w, e).keys || Next(cfg, w, e).keys[id] != w.keys[id])
    ensures var w := Run(cfg, INIT, es);
            e.Advance? && e.op in w.ops && Overwrites(w.ops[e.op]) == Some(Snap(id, w.keys[id]))
  {
    hide Run, Next;
    RunsAreLocked(cfg, es);
    NoLostWrite(cfg, Run(cfg, INIT, es), e, id);
  }

  /** In any run, a REVOKED or EXPIRED row never changes again. */
  lemma TerminalRowsNeverChange(cfg: Config, es: seq<Event>, later: seq<Event>, id: KeyId)
    requires cfg.strict && cfg.box.Lawful()
    requires var w := Run(cfg, INIT, es); id in w.keys && w.keys[id].status != Active
    ensures var w := Run(cfg, INIT, es);
            var w1 := Run(cfg, w, later);
            id in w1.keys ==> w1.keys[id] == w.keys[id]
  {
    hide Run;
    RunsAreLocked(cfg, es);
    TerminalIsAbsorbing(cfg, Run(cfg, INIT, es), later, id);
  }

  /**
   In any run, an ACTIVE row whose key is gone, with nobody about to write it, stays exactly as it is
   for ever, and every request begun later that has to delete its key fails: Revoke, Rotate, Delete,
   an expiry sweep that finds it, and every cascade over its owner.
   */
  lemma StaleRowsStayAndBlock(cfg: Config, es: seq<Event>, id: KeyId, o: OpId, request: Request, later: seq<Event>)
    requires cfg.strict && cfg.box.Lawful()
    requires var w := Run(cfg, INIT, es);
             && Frozen(w, id) && w.keys[id].status == Active
             && MustDelete(w, request, id) && Enabled(w, Begin(o, request))
    ensures var w := Run(cfg, INIT, es);
            var w1 := Run(cfg, w, [Begin(o, request)] + later);
            && id in w1.keys && w1.keys[id] == w.keys[id]
            && (o in w1.done ==> !w1.done[o])
  {
    hide Next, Frozen, MustDelete;
    RunsAreLocked(cfg, es);
    var w, all := Run(cfg, INIT, es), [Begin(o, request)] + later;
    StaleIsStuck(cfg, w, all, id);
    assert id in w.keys && w.keys[id].ref !in w.remote.live by { FrozenRow(w, id); }
    assert id in Run(cfg, w, all).keys by { FrozenRow(Run(cfg, w, all), id); }
    StaleBlocks(cfg, w, o, request, later, id);
    assert all[1..] == later;
  }

  lemma FrozenRow(w: World, id: KeyId)
    requires Frozen(w, id)
    ensures id in w.keys && w.keys[id].ref !in w.remote.live
  {
  }
}
