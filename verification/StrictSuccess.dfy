/**
 What success promises with a strict provider, in any interleaving and under any faults: a request
 that succeeds in retiring or deleting rows has done so for every row it found, for good.
 */
module StrictSuccess {
  import opened Model
  import opened Protocol
  import opened ProtocolInvariant
  import opened StrictProtocol
  import opened StrictRuns

  /** The rows a request still has to retire or delete before it can succeed. */
  function Targets(op: Op): seq<Snap> {
    match op
    case Retire(todo, _) => todo
    case Retired(todo, _) => todo
    case Remove(s) => [s]
    case Drop(s) => [s]
    case _ => []
  }

  /** The row is gone; or, unless it has to be `gone`, it is REVOKED or EXPIRED. */
  predicate Ended(w: World, id: KeyId, gone: bool) { id in w.keys ==> !gone && w.keys[id].status != Active }

  /** Request `o` has row `s` ahead of it, or has failed, or the row has ended. */
  predicate Pursued(w: World, o: OpId, s: Snap, gone: bool) {
    || Ended(w, s.id, gone)
    || (o in w.ops && s in Targets(w.ops[o]) && (gone ==> w.ops[o].Remove? || w.ops[o].Drop?))
    || (o in w.done && !w.done[o])
  }

  lemma EndedStays(cfg: Config, w: World, e: Event, id: KeyId, gone: bool)
    requires cfg.strict && cfg.box.Lawful() && Inv(cfg, w) && Locked(w) && Past(w, id) && Ended(w, id, gone)
    ensures Ended(Next(cfg, w, e), id, gone)
  {
    hide Next, SnapOk, OpOk, OpLocked;
    if id in w.keys {
      TerminalIsFrozen(cfg, w, id);
      FrozenStays(cfg, w, e, id);
    } else {
      GoneStaysGone(cfg, w, e, id);
    }
  }

  /** The request's own step on a row ahead of it: done with it, still ahead, or failed. */
  lemma OwnStepPursues(cfg: Config, w: World, o: OpId, c: Choice, s: Snap, gone: bool)
    requires o in w.ops && s in Targets(w.ops[o]) && (gone ==> w.ops[o].Remove? || w.ops[o].Drop?)
    requires w.ops[o].Retired? ==> w.ops[o].target != Active
    ensures Pursued(Step(cfg, w, o, c), o, s, gone)
  {
    hide Step;
    DeletionSteps(cfg, w, o, c);
    match w.ops[o] {
      case Retired(_, _) => RetiredSteps(cfg, w, o, c);
      case Drop(_) => DropSteps(cfg, w, o, c);
      case _ =>
    }
  }

  lemma NextPursues(cfg: Config, w: World, e: Event, o: OpId, s: Snap, gone: bool)
    requires cfg.strict && cfg.box.Lawful() && Inv(cfg, w) && Locked(w) && Past(w, s.id) && Pursued(w, o, s, gone)
    ensures Pursued(Next(cfg, w, e), o, s, gone)
  {
    hide Step, BeginRequest, SnapOk, OpLocked, Targets;
    if Ended(w, s.id, gone) {
      EndedStays(cfg, w, e, s.id, gone);
    } else if Enabled(w, e) {
      match e {
        case Begin(p, request) => BeginLeaves(w, p, request);
        case Advance(p, c) =>
          if p == o {
            assert OpOk(cfg, w, o, w.ops[o]);
            OwnStepPursues(cfg, w, o, c, s, gone);
          } else {
            StepMoves(cfg, w, p, c);
          }
      }
    }
  }

  lemma {:induction false} RunPursues(cfg: Config, w: World, es: seq<Event>, o: OpId, s: Snap, gone: bool)
    requires cfg.strict && cfg.box.Lawful() && Inv(cfg, w) && Locked(w) && Past(w, s.id) && Pursued(w, o, s, gone)
    ensures Pursued(Run(cfg, w, es), o, s, gone) && Inv(cfg, Run(cfg, w, es))
    decreases |es|
  {
    hide Next, Pursued;
    if es != [] {
      NextPursues(cfg, w, es[0], o, s, gone);
      NextKeeps(cfg, w, es[0]);
      NextKeepsLocks(cfg, w, es[0]);
      RunPursues(cfg, Next(cfg, w, es[0]), es[1..], o, s, gone);
    }
  }

  lemma BeginPursues(w: World, o: OpId, request: Request, id: KeyId)
    requires id in w.keys && MustDelete(w, request, id) && !request.RotateKey? && o !in w.ops
    ensures Pursued(BeginRequest(w, o, request), o, Snap(id, w.keys[id]), request.DeleteKey?)
  {
    if request.RevokeUser? {
      CascadeReads(w.keys, request.user, request.rank);
    } else if request.ExpireKeys? {
      SweepReads(w.keys, request.now, request.rank);
    }
  }

  /**
   In any run: once a revocation, cascade or key sweep has succeeded, every row it had to retire when
   it began is REVOKED, EXPIRED or deleted from then on, and once a deletion has succeeded the row is
   gone for good. So of the rows a user had when a successful cascade began, none is ACTIVE again.
   */
  lemma SuccessIsFinal(cfg: Config, es: seq<Event>, o: OpId, request: Request, later: seq<Event>, id: KeyId)
    requires cfg.strict && cfg.box.Lawful()
    requires var w := Run(cfg, INIT, es);
             && Enabled(w, Begin(o, request)) && id in w.keys
             && MustDelete(w, request, id) && !request.RotateKey?
    requires var w1 := Run(cfg, Run(cfg, INIT, es), [Begin(o, request)] + later); o in w1.done && w1.done[o]
    ensures var w1 := Run(cfg, Run(cfg, INIT, es), [Begin(o, request)] + later); Ended(w1, id, request.DeleteKey?)
  {
    hide Next, MustDelete, BeginRequest;
    RunsAreLocked(cfg, es);
    var w := Run(cfg, INIT, es);
    var w0, s := Next(cfg, w, Begin(o, request)), Snap(id, w.keys[id]);
    assert w0 == BeginRequest(w, o, request) by { BeginIsNext(cfg, w, o, request); }
    BeginPursues(w, o, request, id);
    RowIsPast(cfg, w, id);
    NextKeeps(cfg, w, Begin(o, request));
    NextKeepsLocks(cfg, w, Begin(o, request));
    RunPursues(cfg, w0, later, o, s, request.DeleteKey?);
    assert ([Begin(o, request)] + later)[1..] == later;
  }

  lemma BeginIsNext(cfg: Config, w: World, o: OpId, request: Request)
    requires Enabled(w, Begin(o, request))
    ensures Next(cfg, w, Begin(o, request)) == BeginRequest(w, o, request)
  {
    hide BeginRequest;
  }
}
