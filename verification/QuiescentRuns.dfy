/**
 With a strict provider and no injected fault the two stores agree: whenever no request is in
 flight, the keys that work are exactly those of the ACTIVE rows, and each key that stopped
 working was revoked exactly once.
 */
module QuiescentRuns {
  import opened Bytes
  import opened Model
  import opened Protocol
  import opened ProtocolInvariant
  import opened StrictProtocol
  import opened StrictRuns

  /** What a step asks of the provider. */
  datatype Call = NoCall | DeleteCall(ref: Ref) | CreateCall

  function CallOf(op: Op): Call {
    match op
    case Retire(todo, _) => if todo == [] then NoCall else DeleteCall(todo[0].row.ref)
    case Remove(s) => DeleteCall(s.row.ref)
    case Rotate(s) => DeleteCall(s.row.ref)
    case Undo(ref) => DeleteCall(ref)
    case Provision(_) => CreateCall
    case _ => NoCall
  }

  function Answer(strict: bool, remote: Remote, call: Call, c: Choice): Remote {
    match call
    case NoCall => remote
    case DeleteCall(ref) => remote.Delete(strict, ref, c.outcome).0
    case CreateCall => remote.Create(c.credential, c.outcome).0
  }

  lemma StepCalls(cfg: Config, w: World, o: OpId, c: Choice)
    requires o in w.ops
    ensures Step(cfg, w, o, c).remote == Answer(cfg.strict, w.remote, CallOf(w.ops[o]), c)
  {
    hide WithCredential;
  }

  /** Each confirmed deletion was of a key that worked until then and never works again. */
  ghost predicate RevokedOnce(r: Remote) {
    && (forall i, j :: 0 <= i < j < |r.revoked| ==> r.revoked[i] != r.revoked[j])
    && (forall ref :: ref in r.revoked ==> ref !in r.live && ref < |r.issued|)
    && (forall ref :: ref in r.live ==> ref < |r.issued|)
  }

  lemma AnswerRevokesOnce(remote: Remote, call: Call, c: Choice)
    requires RevokedOnce(remote)
    ensures RevokedOnce(Answer(true, remote, call, c))
  {
  }

  /** Strict provider, any interleaving, any faults: no key is successfully revoked twice. */
  lemma {:induction false} EachKeyIsRevokedOnce(cfg: Config, w: World, es: seq<Event>)
    requires cfg.strict && RevokedOnce(w.remote)
    ensures RevokedOnce(Run(cfg, w, es).remote)
    decreases |es|
  {
    hide Step, BeginRequest, RevokedOnce;
    if es != [] {
      if Enabled(w, es[0]) {
        match es[0] {
          case Begin(o, request) => BeginHoldsNothing(w, o, request);
          case Advance(o, c) =>
            StepCalls(cfg, w, o, c);
            AnswerRevokesOnce(w.remote, CallOf(w.ops[o]), c);
        }
      }
      EachKeyIsRevokedOnce(cfg, Next(cfg, w, es[0]), es[1..]);
    }
  }

  predicate LockedBy(w: World, o: OpId, id: KeyId) {
    o in w.ops && id in w.keys && Holds(w.ops[o]) == Some(Snap(id, w.keys[id]))
  }

  predicate HeldBy(w: World, o: OpId, ref: Ref) { o in w.ops && Held(w.ops[o]) == Some(ref) }

  predicate RefersTo(w: World, id: KeyId, ref: Ref) { id in w.keys && w.keys[id].ref == ref }

  /** Between the steps of fault-free requests every key and every row is accounted for. */
  ghost predicate Settled(w: World) {
    && (forall id :: id in w.keys && w.keys[id].status == Active && w.keys[id].ref !in w.remote.live
                     ==> exists o :: LockedBy(w, o, id))
    && (forall ref :: ref in w.remote.live ==> (exists id :: RefersTo(w, id, ref)) || exists o :: HeldBy(w, o, ref))
    && (forall o :: o in w.ops ==> !w.ops[o].Undo?)
  }

  /** What one fault-free step does to locks, held references and rows. */
  ghost predicate CleanMove(w: World, w1: World, o: OpId)
    requires o in w.ops
  {
    && (forall id :: id in w1.keys && w1.keys[id].status == Active && !(id in w.keys && w1.keys[id] == w.keys[id])
                     ==> w1.keys[id].ref in w1.remote.live)
    && (forall ref :: ref in w.remote.live && ref !in w1.remote.live ==>
          o in w1.ops && Holds(w1.ops[o]).Some? && Holds(w1.ops[o]).value.row.ref == ref)
    && (Holds(w.ops[o]).Some? ==>
          var s := Holds(w.ops[o]).value;
          (o in w1.ops && Holds(w1.ops[o]) == Some(s)) || s.id !in w1.keys || w1.keys[s.id] != s.row)
    && (Held(w.ops[o]).Some? ==>
          var ref := Held(w.ops[o]).value; HeldBy(w1, o, ref) || exists id :: RefersTo(w1, id, ref))
    && (forall ref :: ref in w1.remote.live && ref !in w.remote.live ==> HeldBy(w1, o, ref))
    && (o in w1.ops ==> !w1.ops[o].Undo?)
  }

  lemma DeletionIsClean(cfg: Config, w: World, o: OpId, ref: Ref, outcome: Outcome, next: Op)
    requires cfg.strict && o in w.ops && outcome.Good? && Holds(w.ops[o]).None? && Held(w.ops[o]).None?
    requires ref in w.remote.live ==> Holds(next).Some? && Holds(next).value.row.ref == ref
    requires !next.Undo?
    ensures CleanMove(w, DeleteRemote(cfg, w, o, ref, outcome, next), o)
  {
  }

  lemma DeletionStepsAreClean(cfg: Config, w: World, o: OpId, c: Choice)
    requires cfg.strict && Inv(cfg, w) && o in w.ops && c.outcome.Good?
    requires w.ops[o].Retire? || w.ops[o].Remove? || w.ops[o].Rotate?
    ensures CleanMove(w, Step(cfg, w, o, c), o)
  {
    hide Step, DeleteRemote, SnapOk, CleanMove;
    assert OpOk(cfg, w, o, w.ops[o]);
    DeletionSteps(cfg, w, o, c);
    match w.ops[o] {
      case Retire(todo, target) =>
        DeletionIsClean(cfg, w, o, todo[0].row.ref, c.outcome, Retired(todo, target));
      case Remove(s) => DeletionIsClean(cfg, w, o, s.row.ref, c.outcome, Drop(s));
      case Rotate(s) => DeletionIsClean(cfg, w, o, s.row.ref, c.outcome, Provision(Replace(s)));
      case _ =>
    }
  }

  lemma RetiredIsClean(cfg: Config, w: World, o: OpId, c: Choice)
    requires o in w.ops && w.ops[o].Retired? && w.ops[o].todo != [] && w.ops[o].target != Active
    requires w.ops[o].todo[0].row.status == Active && c.outcome.Good?
    ensures CleanMove(w, Step(cfg, w, o, c), o)
  {
    hide Step;
    RetiredSteps(cfg, w, o, c);
  }

  lemma ProvisionIsClean(cfg: Config, w: World, o: OpId, c: Choice)
    requires o in w.ops && (w.ops[o].Provision? || w.ops[o].Configure?) && c.outcome.Good?
    requires w.ops[o].Configure? ==> w.ops[o].ref < |w.remote.issued|
    ensures CleanMove(w, Step(cfg, w, o, c), o)
  {
    hide WithCredential;
  }

  lemma WriteIsClean(cfg: Config, w: World, o: OpId, c: Choice)
    requires o in w.ops && (w.ops[o].Drop? || w.ops[o].Save?) && c.outcome.Good?
    requires w.ops[o].Save? ==> w.ops[o].row.ref == w.ops[o].ref && w.ops[o].ref in w.remote.live
    requires w.ops[o].Save? && w.ops[o].goal.Replace? ==> w.ops[o].goal.snap.row.ref !in w.remote.live
    ensures CleanMove(w, Step(cfg, w, o, c), o)
  {
    if w.ops[o].Save? {
      assert RefersTo(Step(cfg, w, o, c), GoalId(o, w.ops[o].goal), w.ops[o].ref);
    }
  }

  lemma StepIsClean(cfg: Config, w: World, o: OpId, c: Choice)
    requires cfg.strict && Inv(cfg, w) && Locked(w) && Settled(w) && o in w.ops && c.outcome.Good?
    ensures CleanMove(w, Step(cfg, w, o, c), o)
  {
    hide Step, CleanMove, SnapOk;
    assert OpOk(cfg, w, o, w.ops[o]) && OpLocked(w, w.ops[o]);
    match w.ops[o] {
      case Retired(_, _) => RetiredIsClean(cfg, w, o, c);
      case Provision(_) => ProvisionIsClean(cfg, w, o, c);
      case Configure(_, _, _) => ProvisionIsClean(cfg, w, o, c);
      case Drop(_) => WriteIsClean(cfg, w, o, c);
      case Save(_, _, _) => WriteIsClean(cfg, w, o, c);
      case _ => DeletionStepsAreClean(cfg, w, o, c);
    }
  }

  /** A row only disappears or changes under a request that found its key gone. */
  lemma OverwrittenIsDead(cfg: Config, w: World, e: Event, id: KeyId)
    requires cfg.strict && Inv(cfg, w) && Locked(w) && id in w.keys
    requires var w1 := Next(cfg, w, e); id !in w1.keys || w1.keys[id] != w.keys[id]
    ensures w.keys[id].ref !in w.remote.live
  {
    hide Next, SnapOk, Locked;
    NoLostWrite(cfg, w, e, id);
    var op := w.ops[e.op];
    assert OpOk(cfg, w, e.op, op);
  }

  lemma RowsStaySettled(cfg: Config, w: World, o: OpId, c: Choice, id: KeyId)
    requires cfg.strict && cfg.box.Lawful() && Inv(cfg, w) && Locked(w) && Settled(w) && o in w.ops && c.outcome.Good?
    requires var w1 := Step(cfg, w, o, c);
             id in w1.keys && w1.keys[id].status == Active && w1.keys[id].ref !in w1.remote.live
    ensures exists p :: LockedBy(Step(cfg, w, o, c), p, id)
  {
    hide Step, OpOk, SnapOk;
    var w1 := Step(cfg, w, o, c);
    StepIsClean(cfg, w, o, c);
    StepMoves(cfg, w, o, c);
    StepKeeps(cfg, w, o, c);
    StepKeepsLocks(cfg, w, o, c);
    assert id in w.keys && w1.keys[id] == w.keys[id];
    if w.keys[id].ref in w.remote.live {
      var s := Holds(w1.ops[o]).value;
      assert OpLocked(w1, w1.ops[o]);
      OneOwner(cfg, w1, id, s.id);
      assert LockedBy(w1, o, id);
    } else {
      var p :| LockedBy(w, p, id);
      assert LockedBy(w1, p, id);
    }
  }

  lemma KeysStaySettled(cfg: Config, w: World, o: OpId, c: Choice, ref: Ref)
    requires cfg.strict && Inv(cfg, w) && Locked(w) && Settled(w) && o in w.ops && c.outcome.Good?
    requires ref in Step(cfg, w, o, c).remote.live
    ensures var w1 := Step(cfg, w, o, c); (exists id :: RefersTo(w1, id, ref)) || exists p :: HeldBy(w1, p, ref)
  {
    hide Step, OpOk, SnapOk, Locked;
    var w1 := Step(cfg, w, o, c);
    StepIsClean(cfg, w, o, c);
    StepMoves(cfg, w, o, c);
    if ref !in w.remote.live {
      assert HeldBy(w1, o, ref);
    } else if id :| RefersTo(w, id, ref) {
      if id !in w1.keys || w1.keys[id] != w.keys[id] {
        assert Next(cfg, w, Advance(o, c)) == w1;
        OverwrittenIsDead(cfg, w, Advance(o, c), id);
      }
      assert RefersTo(w1, id, ref);
    } else {
      var p :| HeldBy(w, p, ref);
      assert p != o ==> HeldBy(w1, p, ref);
    }
  }

  lemma StepStaysSettled(cfg: Config, w: World, o: OpId, c: Choice)
    requires cfg.strict && cfg.box.Lawful() && Inv(cfg, w) && Locked(w) && Settled(w) && o in w.ops && c.outcome.Good?
    ensures Settled(Step(cfg, w, o, c))
  {
    hide Step, Inv, Locked;
    var w1 := Step(cfg, w, o, c);
    forall id | id in w1.keys && w1.keys[id].status == Active && w1.keys[id].ref !in w1.remote.live
      ensures exists p :: LockedBy(w1, p, id)
    {
      RowsStaySettled(cfg, w, o, c, id);
    }
    forall ref | ref in w1.remote.live
      ensures (exists id :: RefersTo(w1, id, ref)) || exists p :: HeldBy(w1, p, ref)
    {
      KeysStaySettled(cfg, w, o, c, ref);
    }
    StepIsClean(cfg, w, o, c);
    assert |w.makers| == |w.remote.issued| by { SameLengths(cfg, w); }
    StepMoves(cfg, w, o, c);
  }

  lemma SameLengths(cfg: Config, w: World)
    requires Inv(cfg, w)
    ensures |w.makers| == |w.remote.issued|
  {
  }

  lemma BeginStaysSettled(w: World, o: OpId, request: Request)
    requires Settled(w) && o !in w.ops && o !in w.done
    ensures Settled(BeginRequest(w, o, request))
  {
    hide BeginRequest;
    var w1 := BeginRequest(w, o, request);
    BeginHoldsNothing(w, o, request);
    BeginUndoesNothing(w, o, request);
    forall id | id in w1.keys && w1.keys[id].status == Active && w1.keys[id].ref !in w1.remote.live
      ensures exists p :: LockedBy(w1, p, id)
    {
      var p :| LockedBy(w, p, id);
      assert LockedBy(w1, p, id);
    }
    forall ref | ref in w1.remote.live
      ensures (exists id :: RefersTo(w1, id, ref)) || exists p :: HeldBy(w1, p, ref)
    {
      if id :| RefersTo(w, id, ref) {
        assert RefersTo(w1, id, ref);
      } else {
        var p :| HeldBy(w, p, ref);
        assert HeldBy(w1, p, ref);
      }
    }
  }

  lemma BeginUndoesNothing(w: World, o: OpId, request: Request)
    requires o !in w.ops
    ensures o in BeginRequest(w, o, request).ops ==> !BeginRequest(w, o, request).ops[o].Undo?
  {
    hide KeysOfUser, OverdueKeys, OnlyActive;
  }

  lemma {:induction false} RunStaysSettled(cfg: Config, w: World, es: seq<Event>)
    requires cfg.strict && cfg.box.Lawful() && Inv(cfg, w) && Locked(w) && Settled(w)
    requires forall e :: e in es ==> Clean(e)
    ensures Settled(Run(cfg, w, es))
    decreases |es|
  {
    hide Step, BeginRequest, Settled, Inv, Locked;
    if es != [] {
      var e := es[0];
      assert Clean(e);
      if Enabled(w, e) {
        match e {
          case Begin(o, request) => BeginStaysSettled(w, o, request);
          case Advance(o, c) => StepStaysSettled(cfg, w, o, c);
        }
      }
      NextKeeps(cfg, w, e);
      NextKeepsLocks(cfg, w, e);
      RunStaysSettled(cfg, Next(cfg, w, e), es[1..]);
    }
  }

  /** Every credential issued either still works or was revoked. */
  lemma {:induction false} RunStaysBalanced(cfg: Config, w: World, es: seq<Event>)
    requires cfg.strict && RevokedOnce(w.remote) && |w.remote.live| + |w.remote.revoked| == |w.remote.issued|
    requires forall e :: e in es ==> Clean(e)
    ensures var r := Run(cfg, w, es).remote; |r.live| + |r.revoked| == |r.issued|
    decreases |es|
  {
    hide Step, BeginRequest;
    if es != [] {
      var e := es[0];
      assert Clean(e);
      if Enabled(w, e) {
        match e {
          case Begin(o, request) => BeginHoldsNothing(w, o, request);
          case Advance(o, c) =>
            StepCalls(cfg, w, o, c);
            AnswerRevokesOnce(w.remote, CallOf(w.ops[o]), c);
        }
      }
      RunStaysBalanced(cfg, Next(cfg, w, e), es[1..]);
    }
  }

  /**
   Main agreement result: after any fault-free interleaving, with no request in flight, a key works
   exactly when some ACTIVE row refers to it, and all other keys ever issued were revoked once each.
   */
  lemma QuiescentStoresAgree(cfg: Config, es: seq<Event>)
    requires cfg.strict && cfg.box.Lawful() && forall e :: e in es ==> Clean(e)
    requires Run(cfg, INIT, es).ops == map[]
    ensures var w := Run(cfg, INIT, es);
            forall ref :: ref in w.remote.live
                          <==> exists id :: id in w.keys && w.keys[id].status == Active && w.keys[id].ref == ref
    ensures var r := Run(cfg, INIT, es).remote;
            RevokedOnce(r) && |r.live| + |r.revoked| == |r.issued|
  {
    hide Next;
    var w := Run(cfg, INIT, es);
    RunKeeps(cfg, INIT, es);
    RunStaysSettled(cfg, INIT, es);
    EachKeyIsRevokedOnce(cfg, INIT, es);
    RunStaysBalanced(cfg, INIT, es);
    forall ref | ref in w.remote.live
      ensures exists id :: id in w.keys && w.keys[id].status == Active && w.keys[id].ref == ref
    {
      assert !exists o :: HeldBy(w, o, ref);
      var id :| RefersTo(w, id, ref);
      assert SnapOk(cfg, w, Snap(id, w.keys[id]));
    }
    forall id | id in w.keys && w.keys[id].status == Active ensures w.keys[id].ref in w.remote.live {
      assert !exists o :: LockedBy(w, o, id);
    }
  }
}
