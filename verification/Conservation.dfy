/**
 Counting keys against rows, for either provider, any interleaving and any faults: where keys
 without a row and ACTIVE rows without a key come from, step by step.
 */
module Conservation {
  import opened Bytes
  import opened Model
  import opened Protocol
  import opened ProtocolInvariant
  import opened StrictProtocol
  import opened StrictRuns
  import opened QuiescentRuns

  function ActiveRows(w: World): set<KeyId> { set id | id in w.keys && w.keys[id].status == Active }

  /** ACTIVE rows whose key is gone from the provider. */
  function KeylessRows(w: World): set<KeyId> {
    set id | id in w.keys && w.keys[id].status == Active && w.keys[id].ref !in w.remote.live
  }

  function References(w: World, ids: set<KeyId>): set<Ref>
    requires ids <= w.keys.Keys
  {
    set id | id in ids :: w.keys[id].ref
  }

  /** Keys that work although no row refers to them. */
  function RowlessKeys(w: World): set<Ref> { w.remote.live - References(w, w.keys.Keys) }

  lemma {:induction false} DistinctReferences(cfg: Config, w: World, ids: set<KeyId>)
    requires Inv(cfg, w) && ids <= w.keys.Keys
    ensures |References(w, ids)| == |ids|
  {
    hide Inv;
    if ids != {} {
      var id :| id in ids;
      DistinctReferences(cfg, w, ids - {id});
      assert References(w, ids) == References(w, ids - {id}) + {w.keys[id].ref};
      forall other | other in ids - {id} ensures w.keys[other].ref != w.keys[id].ref {
        if w.keys[other].ref == w.keys[id].ref {
          OneOwner(cfg, w, id, other);
        }
      }
    }
  }

  /** Working keys plus ACTIVE rows without one are as many as ACTIVE rows plus working keys without a row. */
  lemma KeysAreConserved(cfg: Config, es: seq<Event>)
    requires cfg.box.Lawful()
    ensures var w := Run(cfg, INIT, es);
            |w.remote.live| + |KeylessRows(w)| == |ActiveRows(w)| + |RowlessKeys(w)|
  {
    hide Next;
    var w := Run(cfg, INIT, es);
    RunKeeps(cfg, INIT, es);
    RowsAndKeys(cfg, w);
  }

  lemma RowsAndKeys(cfg: Config, w: World)
    requires Inv(cfg, w)
    ensures |w.remote.live| + |KeylessRows(w)| == |ActiveRows(w)| + |RowlessKeys(w)|
  {
    hide Inv;
    var backed := ActiveRows(w) - KeylessRows(w);
    DistinctReferences(cfg, w, backed);
    forall id | id in w.keys && w.keys[id].ref in w.remote.live ensures id in backed {
      LiveRowIsActive(cfg, w, id);
    }
    KeysSplit(w, backed);
  }

  lemma LiveRowIsActive(cfg: Config, w: World, id: KeyId)
    requires Inv(cfg, w) && id in w.keys && w.keys[id].ref in w.remote.live
    ensures w.keys[id].status == Active
  {
    assert SnapOk(cfg, w, Snap(id, w.keys[id]));
  }

  lemma KeysSplit(w: World, backed: set<KeyId>)
    requires backed <= w.keys.Keys && forall id :: id in backed ==> w.keys[id].ref in w.remote.live
    requires forall id :: id in w.keys && w.keys[id].ref in w.remote.live ==> id in backed
    ensures |w.remote.live| == |References(w, backed)| + |RowlessKeys(w)|
  {
    assert w.remote.live == References(w, backed) + RowlessKeys(w);
    assert References(w, backed) !! RowlessKeys(w);
  }

  /** The reference a request is still responsible for: not stored yet, or being undone. */
  function InFlight(op: Op): Option<Ref> {
    if op.Undo? then Some(op.ref) else Held(op)
  }

  predicate Carried(w: World, o: OpId, ref: Ref) { o in w.ops && InFlight(w.ops[o]) == Some(ref) }

  /** A key that works, that no row refers to and that no request will store or undo. */
  ghost predicate Orphan(w: World, ref: Ref) {
    && ref in w.remote.live
    && (forall id :: !RefersTo(w, id, ref))
    && (forall o :: !Carried(w, o, ref))
  }

  /** Row `id` is about to lose its working key because another request overwrites or deletes it. */
  ghost predicate Displaced(w: World, id: KeyId, ref: Ref) {
    RefersTo(w, id, ref) && ref in w.remote.live && forall o :: !Carried(w, o, ref)
  }

  /** The steps that leave an orphan: a failure after provisioning, or a write over a row rotated meanwhile. */
  ghost predicate Orphans(w: World, o: OpId, c: Choice, ref: Ref)
    requires o in w.ops
  {
    match w.ops[o]
    case Provision(_) => c.outcome.Lost? && ref == |w.remote.issued|
    case Configure(_, held, _) => !c.outcome.Good? && ref == held
    case Save(goal, held, _) =>
      goal.Replace? && if c.outcome.Bad? then ref == held else Displaced(w, goal.snap.id, ref)
    case Undo(held) => c.outcome.Bad? && ref == held && ref in w.remote.live && forall id :: !RefersTo(w, id, ref)
    case Retired(todo, _) => todo != [] && !c.outcome.Bad? && Displaced(w, todo[0].id, ref)
    case Drop(s) => !c.outcome.Bad? && Displaced(w, s.id, ref)
    case _ => false
  }

  /** A request's own reference is in no row and with no other request, unless it is being undone. */
  lemma OwnReference(cfg: Config, w: World, o: OpId)
    requires Inv(cfg, w) && o in w.ops && InFlight(w.ops[o]).Some?
    ensures var ref := InFlight(w.ops[o]).value;
            && (forall p :: p != o ==> !Carried(w, p, ref))
            && (Held(w.ops[o]).Some? ==> ref in w.remote.live && forall id :: !RefersTo(w, id, ref))
  {
    var ref := InFlight(w.ops[o]).value;
    assert OpOk(cfg, w, o, w.ops[o]);
    forall p | p != o ensures !Carried(w, p, ref) {
      if p in w.ops {
        assert OpOk(cfg, w, p, w.ops[p]);
      }
    }
    forall id | Held(w.ops[o]).Some? ensures !RefersTo(w, id, ref) {
      if id in w.keys {
        assert SnapOk(cfg, w, Snap(id, w.keys[id]));
      }
    }
  }

  /** The rows and keys untouched by request `o` keep their orphans, except around what `o` did. */
  lemma DeletionLeavesOrphans(cfg: Config, w: World, o: OpId, c: Choice, ref: Ref)
    requires Inv(cfg, w) && o in w.ops && (w.ops[o].Retire? || w.ops[o].Remove? || w.ops[o].Rotate?)
    ensures Orphan(Step(cfg, w, o, c), ref) ==> Orphan(w, ref)
  {
    hide Step, Inv;
    DeletionCall(cfg, w, o);
    DeletionSteps(cfg, w, o, c);
    var w1 := Step(cfg, w, o, c);
    if Orphan(w1, ref) {
      assert forall id :: RefersTo(w, id, ref) ==> RefersTo(w1, id, ref);
      assert forall p :: Carried(w, p, ref) ==> Carried(w1, p, ref);
    }
  }

  /** Rewriting or erasing row `id` orphans exactly the working key it referred to, unless somebody carries it. */
  lemma {:induction false} WriteOrphans(cfg: Config, w: World, w1: World, o: OpId, id: KeyId, ref: Ref)
    requires Inv(cfg, w) && o in w.ops && w1.remote == w.remote
    requires forall x :: x != id ==> (x in w1.keys <==> x in w.keys) && (x in w.keys ==> w1.keys[x] == w.keys[x])
    requires id in w1.keys ==> w1.keys[id].ref !in w.remote.live || Carried(w, o, w1.keys[id].ref)
    requires id in w1.keys && w1.keys[id].ref in w.remote.live ==> forall x :: !RefersTo(w, x, w1.keys[id].ref)
    requires InFlight(w.ops[o]).Some? ==> RefersTo(w1, id, InFlight(w.ops[o]).value)
    requires forall p :: p != o ==> (p in w1.ops <==> p in w.ops) && (p in w.ops ==> w1.ops[p] == w.ops[p])
    requires o in w1.ops ==> InFlight(w1.ops[o]).None? || InFlight(w1.ops[o]) == InFlight(w.ops[o])
    ensures Orphan(w1, ref) && !Orphan(w, ref) <==> Displaced(w, id, ref)
  {
    if Displaced(w, id, ref) {
      forall x | RefersTo(w1, x, ref) ensures false {
        if x != id {
          OneOwner(cfg, w, x, id);
        }
      }
      assert forall p :: Carried(w1, p, ref) ==> Carried(w, p, ref);
      assert Orphan(w1, ref);
    }
    if Orphan(w1, ref) && !Orphan(w, ref) {
      assert forall p :: Carried(w, p, ref) && p != o ==> Carried(w1, p, ref);
      assert !Carried(w, o, ref);
      var x :| RefersTo(w, x, ref);
      assert x != id ==> RefersTo(w1, x, ref);
    }
  }

  lemma WriteStepsOrphan(cfg: Config, w: World, o: OpId, c: Choice, ref: Ref)
    requires Inv(cfg, w) && o in w.ops && (w.ops[o].Retired? || w.ops[o].Drop?)
    ensures Orphan(Step(cfg, w, o, c), ref) && !Orphan(w, ref) <==> Orphans(w, o, c, ref)
  {
    hide Orphan, Displaced, SnapOk;
    var w1, op := Step(cfg, w, o, c), w.ops[o];
    assert OpOk(cfg, w, o, op);
    if c.outcome.Bad? {
      SameOrphans(w, w1, o, ref);
    } else {
      WriteOrphans(cfg, w, w1, o, if op.Drop? then op.snap.id else op.todo[0].id, ref);
    }
  }

  /** A request that carried nothing and changed nothing leaves the orphans as they were. */
  lemma SameOrphans(w: World, w1: World, o: OpId, ref: Ref)
    requires o in w.ops && w1.keys == w.keys && w1.remote == w.remote
    requires forall p :: p != o ==> (p in w1.ops <==> p in w.ops) && (p in w.ops ==> w1.ops[p] == w.ops[p])
    requires (if o in w1.ops then InFlight(w1.ops[o]) else None) == InFlight(w.ops[o])
    ensures Orphan(w1, ref) <==> Orphan(w, ref)
  {
    assert forall id :: RefersTo(w, id, ref) <==> RefersTo(w1, id, ref);
    assert forall p :: Carried(w, p, ref) <==> Carried(w1, p, ref);
  }

  /** A request that gives up its reference orphans it exactly if it works and is in no row. */
  lemma AbandonOrphans(cfg: Config, w: World, w1: World, o: OpId, ref: Ref)
    requires Inv(cfg, w) && o in w.ops && InFlight(w.ops[o]).Some? && o !in w1.ops
    requires w1.keys == w.keys && w1.remote == w.remote
    requires forall p :: p != o ==> (p in w1.ops <==> p in w.ops) && (p in w.ops ==> w1.ops[p] == w.ops[p])
    ensures Orphan(w1, ref) && !Orphan(w, ref)
            <==> ref == InFlight(w.ops[o]).value && ref in w.remote.live && forall id :: !RefersTo(w, id, ref)
  {
    OwnReference(cfg, w, o);
    assert forall id :: RefersTo(w, id, ref) <==> RefersTo(w1, id, ref);
    assert forall p :: p != o ==> (Carried(w, p, ref) <==> Carried(w1, p, ref));
    assert Carried(w, o, InFlight(w.ops[o]).value);
  }

  lemma ProvisionOrphans(cfg: Config, w: World, o: OpId, c: Choice, ref: Ref)
    requires Inv(cfg, w) && o in w.ops && w.ops[o].Provision?
    ensures Orphan(Step(cfg, w, o, c), ref) && !Orphan(w, ref) <==> Orphans(w, o, c, ref)
  {
    hide SnapOk;
    var w1 := Step(cfg, w, o, c);
    assert forall id :: RefersTo(w, id, ref) <==> RefersTo(w1, id, ref);
    assert forall p :: p != o ==> (Carried(w, p, ref) <==> Carried(w1, p, ref));
    assert !Carried(w, o, ref);
    NewReferenceIsUnused(cfg, w);
    assert c.outcome.Good? ==> Carried(w1, o, |w.remote.issued|);
  }

  lemma NewReferenceIsUnused(cfg: Config, w: World)
    requires Inv(cfg, w)
    ensures forall id :: !RefersTo(w, id, |w.remote.issued|)
    ensures forall p :: !Carried(w, p, |w.remote.issued|)
    ensures |w.remote.issued| !in w.remote.live
  {
    forall id ensures !RefersTo(w, id, |w.remote.issued|) {
      if id in w.keys {
        assert SnapOk(cfg, w, Snap(id, w.keys[id]));
      }
    }
    forall p ensures !Carried(w, p, |w.remote.issued|) {
      if p in w.ops {
        assert OpOk(cfg, w, p, w.ops[p]);
      }
    }
  }

  lemma ConfigureOrphans(cfg: Config, w: World, o: OpId, c: Choice, ref: Ref)
    requires Inv(cfg, w) && o in w.ops && w.ops[o].Configure?
    ensures Orphan(Step(cfg, w, o, c), ref) && !Orphan(w, ref) <==> Orphans(w, o, c, ref)
  {
    hide Orphan, WithCredential, SnapOk, Describes;
    var w1 := Step(cfg, w, o, c);
    OwnReference(cfg, w, o);
    assert OpOk(cfg, w, o, w.ops[o]);
    if c.outcome.Good? {
      SameOrphans(w, w1, o, ref);
    } else {
      AbandonOrphans(cfg, w, w1, o, ref);
    }
  }

  lemma {:induction false} SaveOrphans(cfg: Config, w: World, o: OpId, c: Choice, ref: Ref)
    requires Inv(cfg, w) && o in w.ops && w.ops[o].Save?
    ensures Orphan(Step(cfg, w, o, c), ref) && !Orphan(w, ref) <==> Orphans(w, o, c, ref)
  {
    hide Orphan, SnapOk;
    var w1 := Step(cfg, w, o, c);
    var Save(goal, held, row) := w.ops[o];
    OwnReference(cfg, w, o);
    assert OpOk(cfg, w, o, w.ops[o]);
    if c.outcome.Bad? {
      if goal.Insert? {
        SameOrphans(w, w1, o, ref);
      } else {
        AbandonOrphans(cfg, w, w1, o, ref);
      }
    } else {
      var id := GoalId(o, goal);
      WriteOrphans(cfg, w, w1, o, id, ref);
      if goal.Insert? && o in w.keys {
        RowIsPast(cfg, w, o);
        assert false;
      }
    }
  }

  lemma UndoOrphans(cfg: Config, w: World, o: OpId, c: Choice, ref: Ref)
    requires Inv(cfg, w) && o in w.ops && w.ops[o].Undo?
    ensures Orphan(Step(cfg, w, o, c), ref) && !Orphan(w, ref) <==> Orphans(w, o, c, ref)
  {
    var w1, held := Step(cfg, w, o, c), w.ops[o].ref;
    if c.outcome.Bad? {
      hide Orphan;
      AbandonOrphans(cfg, w, w1, o, ref);
    } else {
      assert forall id :: RefersTo(w, id, ref) <==> RefersTo(w1, id, ref);
      assert forall p :: p != o ==> (Carried(w, p, ref) <==> Carried(w1, p, ref));
      assert held !in w1.remote.live;
    }
  }

  /**
   Where orphaned keys come from: a step leaves `ref` orphaned exactly when it fails after
   provisioning it without being able to undo that, or overwrites a row that was rotated meanwhile.
   */
  lemma OrphanedExactlyBy(cfg: Config, es: seq<Event>, o: OpId, c: Choice, ref: Ref)
    requires cfg.box.Lawful() && o in Run(cfg, INIT, es).ops
    ensures var w := Run(cfg, INIT, es);
            Orphan(Step(cfg, w, o, c), ref) && !Orphan(w, ref) <==> Orphans(w, o, c, ref)
  {
    hide Run, Step, Orphan, Orphans;
    RunKeeps(cfg, INIT, es);
    StepOrphans(cfg, Run(cfg, INIT, es), o, c, ref);
  }

  lemma StepOrphans(cfg: Config, w: World, o: OpId, c: Choice, ref: Ref)
    requires Inv(cfg, w) && o in w.ops
    ensures Orphan(Step(cfg, w, o, c), ref) && !Orphan(w, ref) <==> Orphans(w, o, c, ref)
  {
    hide Step, Orphan, Inv;
    match w.ops[o] {
      case Retired(_, _) => WriteStepsOrphan(cfg, w, o, c, ref);
      case Drop(_) => WriteStepsOrphan(cfg, w, o, c, ref);
      case Provision(_) => ProvisionOrphans(cfg, w, o, c, ref);
      case Configure(_, _, _) => ConfigureOrphans(cfg, w, o, c, ref);
      case Save(_, _, _) => SaveOrphans(cfg, w, o, c, ref);
      case Undo(_) => UndoOrphans(cfg, w, o, c, ref);
      case _ => DeletionLeavesOrphans(cfg, w, o, c, ref);
    }
  }

  /** With a strict provider the second cause does not occur: every orphan goes back to a failed call. */
  lemma StrictOrphansFollowFaults(cfg: Config, es: seq<Event>, o: OpId, c: Choice, ref: Ref)
    requires cfg.strict && cfg.box.Lawful() && o in Run(cfg, INIT, es).ops
    requires var w := Run(cfg, INIT, es); Orphan(Step(cfg, w, o, c), ref) && !Orphan(w, ref)
    ensures !c.outcome.Good?
  {
    hide Run, Step, Orphan, SnapOk;
    var w := Run(cfg, INIT, es);
    RunsAreLocked(cfg, es);
    StepOrphans(cfg, w, o, c, ref);
    assert OpOk(cfg, w, o, w.ops[o]) && OpLocked(w, w.ops[o]);
  }

  /** An ACTIVE row whose key is gone, with no request in flight that is about to record it. */
  ghost predicate Stale(w: World, id: KeyId) {
    && id in w.keys && w.keys[id].status == Active && w.keys[id].ref !in w.remote.live
    && forall o :: !Records(w, o, w.keys[id].ref)
  }

  /** Request `o` deleted this key and has not written its row yet. */
  predicate Records(w: World, o: OpId, ref: Ref) {
    o in w.ops && Holds(w.ops[o]).Some? && Holds(w.ops[o]).value.row.ref == ref
  }

  predicate DeletedBy(op: Op, c: Choice, ref: Ref) {
    match CallOf(op)
    case DeleteCall(r) => r == ref && if op.Undo? then !c.outcome.Bad? else c.outcome.Lost?
    case _ => false
  }

  /** The steps that end a request after its deletion was confirmed, without writing the row. */
  predicate GivesUp(op: Op, c: Choice) {
    if op.Provision? || op.Configure? then !c.outcome.Good? else c.outcome.Bad?
  }

  /** The steps that leave a row stale: an unconfirmed deletion, an undone insert, or a failure after a deletion. */
  ghost predicate MakesStale(cfg: Config, w: World, o: OpId, c: Choice, id: KeyId)
    requires o in w.ops
  {
    && id in w.keys && w.keys[id].status == Active
    && (forall p :: p != o ==> !Records(w, p, w.keys[id].ref))
    && if Records(w, o, w.keys[id].ref) then w.keys[id].ref !in w.remote.live && GivesUp(w.ops[o], c)
       else w.keys[id].ref in w.remote.live && DeletedBy(w.ops[o], c, w.keys[id].ref)
  }

  /** A deletion makes its key's row stale unless it is confirmed to a request that goes on to write. */
  lemma DeletionStale(w: World, w1: World, o: OpId, ref: Ref, id: KeyId)
    requires o in w.ops && Holds(w.ops[o]).None? && w1.keys == w.keys
    requires forall r :: r != ref ==> (r in w.remote.live <==> r in w1.remote.live)
    requires ref in w1.remote.live ==> ref in w.remote.live
    requires forall p :: p != o ==> (p in w1.ops <==> p in w.ops) && (p in w.ops ==> w1.ops[p] == w.ops[p])
    requires o in w1.ops && Holds(w1.ops[o]).Some? ==> Holds(w1.ops[o]).value.row.ref == ref
    ensures Stale(w1, id) && !Stale(w, id)
            <==> id in w.keys && w.keys[id].status == Active && w.keys[id].ref == ref
                 && ref in w.remote.live && ref !in w1.remote.live && !Records(w1, o, ref)
                 && forall p :: p != o ==> !Records(w, p, ref)
  {
    if id in w.keys {
      var r := w.keys[id].ref;
      assert forall p :: p != o ==> (Records(w, p, r) <==> Records(w1, p, r));
      assert !Records(w, o, r);
    }
  }

  lemma DeletionMakesStale(cfg: Config, w: World, o: OpId, c: Choice, id: KeyId)
    requires Inv(cfg, w) && o in w.ops && (w.ops[o].Retire? || w.ops[o].Remove? || w.ops[o].Rotate?)
    ensures Stale(Step(cfg, w, o, c), id) && !Stale(w, id) <==> MakesStale(cfg, w, o, c, id)
  {
    hide Step, Stale, Inv;
    DeletionCall(cfg, w, o);
    DeletionSteps(cfg, w, o, c);
    DeletionStale(w, Step(cfg, w, o, c), o, CallOf(w.ops[o]).ref, id);
  }

  lemma DeletionCall(cfg: Config, w: World, o: OpId)
    requires Inv(cfg, w) && o in w.ops && (w.ops[o].Retire? || w.ops[o].Remove? || w.ops[o].Rotate?)
    ensures CallOf(w.ops[o]).DeleteCall?
    ensures w.ops[o].Remove? ==> w.ops[o].snap.row.status == Active
  {
    assert OpOk(cfg, w, o, w.ops[o]);
  }

  lemma UndoMakesStale(cfg: Config, w: World, o: OpId, c: Choice, id: KeyId)
    requires Inv(cfg, w) && o in w.ops && w.ops[o].Undo?
    ensures Stale(Step(cfg, w, o, c), id) && !Stale(w, id) <==> MakesStale(cfg, w, o, c, id)
  {
    hide Stale, Inv;
    DeletionStale(w, Step(cfg, w, o, c), o, w.ops[o].ref, id);
  }

  /** The table and the provider as they were: a row becomes stale only when its recorder gives up. */
  lemma GivingUpMakesStale(cfg: Config, w: World, w1: World, o: OpId, c: Choice, id: KeyId)
    requires o in w.ops && w1.keys == w.keys && CallOf(w.ops[o]).DeleteCall? == false
    requires forall r :: r < |w.remote.issued| ==> (r in w.remote.live <==> r in w1.remote.live)
    requires id in w.keys ==> w.keys[id].ref < |w.remote.issued|
    requires forall p :: p != o ==> (p in w1.ops <==> p in w.ops) && (p in w.ops ==> w1.ops[p] == w.ops[p])
    requires (if o in w1.ops then Holds(w1.ops[o]) else None)
             == (if GivesUp(w.ops[o], c) then None else Holds(w.ops[o]))
    ensures Stale(w1, id) && !Stale(w, id) <==> MakesStale(cfg, w, o, c, id)
  {
    if id in w.keys {
      var ref := w.keys[id].ref;
      assert forall p :: p != o ==> (Records(w, p, ref) <==> Records(w1, p, ref));
      assert Records(w1, o, ref) <==> Records(w, o, ref) && !GivesUp(w.ops[o], c);
    }
  }

  lemma IssuedRows(cfg: Config, w: World, o: OpId)
    requires Inv(cfg, w) && o in w.ops
    ensures forall id :: id in w.keys ==> w.keys[id].ref < |w.remote.issued|
    ensures w.ops[o].Configure? ==> w.ops[o].ref < |w.remote.issued|
  {
    assert OpOk(cfg, w, o, w.ops[o]);
    forall id | id in w.keys ensures w.keys[id].ref < |w.remote.issued| {
      assert SnapOk(cfg, w, Snap(id, w.keys[id]));
    }
  }

  lemma ProvisionMakesStale(cfg: Config, w: World, o: OpId, c: Choice, id: KeyId)
    requires Inv(cfg, w) && o in w.ops && (w.ops[o].Provision? || w.ops[o].Configure?)
    ensures Stale(Step(cfg, w, o, c), id) && !Stale(w, id) <==> MakesStale(cfg, w, o, c, id)
  {
    hide Stale, MakesStale, WithCredential, Inv;
    IssuedRows(cfg, w, o);
    GivingUpMakesStale(cfg, w, Step(cfg, w, o, c), o, c, id);
  }

  /** A row that is written is terminal, gone, or refers to a working key; the others keep their recorders. */
  lemma WritingMakesNothingStale(cfg: Config, w: World, w1: World, o: OpId, written: KeyId, id: KeyId)
    requires Inv(cfg, w) && o in w.ops && w1.remote == w.remote
    requires forall x :: x != written ==> (x in w1.keys <==> x in w.keys) && (x in w.keys ==> w1.keys[x] == w.keys[x])
    requires written in w1.keys && w1.keys[written].status == Active ==> w1.keys[written].ref in w1.remote.live
    requires Holds(w.ops[o]).Some? ==> Holds(w.ops[o]).value.id == written && SnapOk(cfg, w, Holds(w.ops[o]).value)
    requires forall p :: p != o ==> (p in w1.ops <==> p in w.ops) && (p in w.ops ==> w1.ops[p] == w.ops[p])
    ensures Stale(w1, id) ==> Stale(w, id)
  {
    if Stale(w1, id) {
      assert id != written && w1.keys[id] == w.keys[id];
      var ref := w.keys[id].ref;
      assert SnapOk(cfg, w, Snap(id, w.keys[id]));
      assert forall p :: p != o ==> (Records(w, p, ref) <==> Records(w1, p, ref));
    }
  }

  /** The row a writing request addresses, and what it may leave there. */
  lemma WrittenRow(cfg: Config, w: World, o: OpId) returns (written: KeyId)
    requires Inv(cfg, w) && o in w.ops && (w.ops[o].Retired? || w.ops[o].Drop? || w.ops[o].Save?)
    ensures match w.ops[o]
            case Retired(todo, target) => todo != [] && written == todo[0].id && target != Active
            case Drop(s) => written == s.id
            case Save(goal, held, row) =>
              written == GoalId(o, goal) && row.ref == held && held in w.remote.live
            case _ => true
    ensures Holds(w.ops[o]).Some? ==> Holds(w.ops[o]).value.id == written && SnapOk(cfg, w, Holds(w.ops[o]).value)
  {
    var op := w.ops[o];
    assert OpOk(cfg, w, o, op);
    if op.Retired? {
      assert op.todo[0] in op.todo;
    }
    written := if op.Save? then GoalId(o, op.goal) else if op.Drop? then op.snap.id else op.todo[0].id;
  }

  /** A write that fails gives up; one that takes effect makes nothing stale. */
  lemma WriteStepMakesStale(cfg: Config, w: World, w1: World, o: OpId, c: Choice, written: KeyId, id: KeyId)
    requires Inv(cfg, w) && o in w.ops && (w.ops[o].Retired? || w.ops[o].Drop? || w.ops[o].Save?) && w1.remote == w.remote
    requires forall x :: x != written ==> (x in w1.keys <==> x in w.keys) && (x in w.keys ==> w1.keys[x] == w.keys[x])
    requires Holds(w.ops[o]).Some? ==> Holds(w.ops[o]).value.id == written && SnapOk(cfg, w, Holds(w.ops[o]).value)
    requires forall p :: p != o ==> (p in w1.ops <==> p in w.ops) && (p in w.ops ==> w1.ops[p] == w.ops[p])
    requires o in w1.ops ==> Holds(w1.ops[o]).None?
    requires c.outcome.Bad? ==> w1.keys == w.keys
    requires !c.outcome.Bad? && written in w1.keys && w1.keys[written].status == Active
             ==> w1.keys[written].ref in w1.remote.live
    ensures Stale(w1, id) && !Stale(w, id) <==> MakesStale(cfg, w, o, c, id)
  {
    hide Stale, Inv, SnapOk;
    IssuedRows(cfg, w, o);
    if c.outcome.Bad? {
      GivingUpMakesStale(cfg, w, w1, o, c, id);
    } else {
      WritingMakesNothingStale(cfg, w, w1, o, written, id);
    }
  }

  lemma RetiredMakesStale(cfg: Config, w: World, o: OpId, c: Choice, id: KeyId)
    requires Inv(cfg, w) && o in w.ops && w.ops[o].Retired?
    ensures Stale(Step(cfg, w, o, c), id) && !Stale(w, id) <==> MakesStale(cfg, w, o, c, id)
  {
    hide Step, Stale, MakesStale, Inv, SnapOk;
    var written := WrittenRow(cfg, w, o);
    RetiredSteps(cfg, w, o, c);
    WriteStepMakesStale(cfg, w, Step(cfg, w, o, c), o, c, written, id);
  }

  lemma DropMakesStale(cfg: Config, w: World, o: OpId, c: Choice, id: KeyId)
    requires Inv(cfg, w) && o in w.ops && w.ops[o].Drop?
    ensures Stale(Step(cfg, w, o, c), id) && !Stale(w, id) <==> MakesStale(cfg, w, o, c, id)
  {
    hide Step, Stale, MakesStale, Inv, SnapOk;
    var written := WrittenRow(cfg, w, o);
    DropSteps(cfg, w, o, c);
    WriteStepMakesStale(cfg, w, Step(cfg, w, o, c), o, c, written, id);
  }

  lemma SaveMakesStale(cfg: Config, w: World, o: OpId, c: Choice, id: KeyId)
    requires Inv(cfg, w) && o in w.ops && w.ops[o].Save?
    ensures Stale(Step(cfg, w, o, c), id) && !Stale(w, id) <==> MakesStale(cfg, w, o, c, id)
  {
    hide Stale, MakesStale, Inv, SnapOk;
    var written := WrittenRow(cfg, w, o);
    WriteStepMakesStale(cfg, w, Step(cfg, w, o, c), o, c, written, id);
  }

  /**
   Where stale rows come from: a step leaves row `id` stale exactly when its key was deleted with the
   deletion unconfirmed or as the undoing of an insert, or when the request that deleted it gives up.
   */
  lemma MadeStaleExactlyBy(cfg: Config, es: seq<Event>, o: OpId, c: Choice, id: KeyId)
    requires cfg.box.Lawful() && o in Run(cfg, INIT, es).ops
    ensures var w := Run(cfg, INIT, es);
            Stale(Step(cfg, w, o, c), id) && !Stale(w, id) <==> MakesStale(cfg, w, o, c, id)
  {
    hide Run, Step, Stale, MakesStale;
    RunKeeps(cfg, INIT, es);
    StepMakesStale(cfg, Run(cfg, INIT, es), o, c, id);
  }

  lemma StepMakesStale(cfg: Config, w: World, o: OpId, c: Choice, id: KeyId)
    requires Inv(cfg, w) && o in w.ops
    ensures Stale(Step(cfg, w, o, c), id) && !Stale(w, id) <==> MakesStale(cfg, w, o, c, id)
  {
    hide Step, Stale, MakesStale, Inv;
    match w.ops[o] {
      case Retired(_, _) => RetiredMakesStale(cfg, w, o, c, id);
      case Drop(_) => DropMakesStale(cfg, w, o, c, id);
      case Save(_, _, _) => SaveMakesStale(cfg, w, o, c, id);
      case Provision(_) => ProvisionMakesStale(cfg, w, o, c, id);
      case Configure(_, _, _) => ProvisionMakesStale(cfg, w, o, c, id);
      case Undo(_) => UndoMakesStale(cfg, w, o, c, id);
      case _ => DeletionMakesStale(cfg, w, o, c, id);
    }
  }

  /** With a strict provider the stale rows are the frozen ACTIVE ones: those that stay and block for ever. */
  lemma StaleMeansStuck(cfg: Config, es: seq<Event>, id: KeyId)
    requires cfg.strict && cfg.box.Lawful()
    ensures var w := Run(cfg, INIT, es); Stale(w, id) <==> Frozen(w, id) && w.keys[id].status == Active
  {
    hide Run, SnapOk, OpOk;
    RunsAreLocked(cfg, es);
    var w := Run(cfg, INIT, es);
    forall o | id in w.keys && o in w.ops && Holds(w.ops[o]).Some?
      ensures Records(w, o, w.keys[id].ref) <==> Holds(w.ops[o]).value.id == id
    {
      assert OpLocked(w, w.ops[o]);
      var s := Holds(w.ops[o]).value;
      if s.row.ref == w.keys[id].ref {
        OneOwner(cfg, w, s.id, id);
      }
    }
  }
}
