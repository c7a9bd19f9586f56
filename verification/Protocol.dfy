/**
 The access-key requests as an interleaved state machine. Every request reads its rows once,
 when it begins, and then makes one external call per step, so any number of requests, cascades
 and sweeps may be in flight between any two steps of one of them.
 */
module Protocol {
  import opened Model

  type OpId = nat

  /** Why a credential is being provisioned: for a new row, or to replace that of a row already read. */
  datatype Goal = Insert(template: Key) | Replace(snap: Snap)

  /** A request in flight, named after the call it makes next. */
  datatype Op =
    | Retire(todo: seq<Snap>, target: Status)     // delete todo[0] on the provider
    | Retired(todo: seq<Snap>, target: Status)    // save todo[0] with status target
    | Remove(snap: Snap)                          // delete on the provider, before the row
    | Drop(snap: Snap)                            // delete the row
    | Rotate(snap: Snap)                          // delete the old credential on the provider
    | Provision(goal: Goal)                       // create a key on the provider
    | Configure(goal: Goal, ref: Ref, calls: nat) // name and limit calls left; at 0, encrypt
    | Save(goal: Goal, ref: Ref, row: Key)        // write the row
    | Undo(ref: Ref)                              // best-effort deletion after a failed insert

  datatype Request =
    | CreateKey(input: KeyInput)
    | RevokeKey(id: KeyId)
    | RotateKey(id: KeyId)
    | DeleteKey(id: KeyId)
    | RevokeUser(user: UserId, rank: nat -> nat)
    | ExpireKeys(now: int, rank: nat -> nat)

  datatype Event = Begin(op: OpId, request: Request) | Advance(op: OpId, choice: Choice)

  /** History only: which request asked for a reference, and for which row. */
  datatype Maker = Maker(op: OpId, owner: KeyId)

  datatype World = World(keys: map<KeyId, Key>, remote: Remote, makers: seq<Maker>,
                         ops: map<OpId, Op>, done: map<OpId, bool>)

  const INIT: World := World(map[], Remote({}, [], []), [], map[], map[])

  function Finish(w: World, o: OpId, ok: bool): World {
    w.(ops := w.ops - {o}, done := w.done[o := ok])
  }

  function Put(w: World, o: OpId, op: Op): World { w.(ops := w.ops[o := op]) }

  /** A batch with nothing left to do has succeeded. */
  function Continue(w: World, o: OpId, todo: seq<Snap>, target: Status): World {
    if todo == [] then Finish(w, o, true) else Put(w, o, Retire(todo, target))
  }

  /** The row a goal is for; a new row takes the identifier of the request that creates it. */
  function GoalId(o: OpId, goal: Goal): KeyId {
    match goal case Insert(_) => o case Replace(s) => s.id
  }

  function GoalRow(goal: Goal): Key {
    match goal case Insert(row) => row case Replace(s) => s.row
  }

  /** A new request reads what it needs from the table. */
  function BeginRequest(w: World, o: OpId, request: Request): World {
    match request
    case CreateKey(input) => Put(w, o, Provision(Insert(NewRow(input))))
    case RevokeKey(id) =>
      if id !in w.keys then Finish(w, o, false) else Continue(w, o, [Snap(id, w.keys[id])], Revoked)
    case RotateKey(id) =>
      if id !in w.keys then Finish(w, o, false) else Put(w, o, Rotate(Snap(id, w.keys[id])))
    case DeleteKey(id) =>
      if id !in w.keys then Finish(w, o, false)
      else if w.keys[id].status == Active then Put(w, o, Remove(Snap(id, w.keys[id])))
      else Put(w, o, Drop(Snap(id, w.keys[id])))
    case RevokeUser(user, rank) => Continue(w, o, OnlyActive(KeysOfUser(w.keys, user, rank)), Revoked)
    case ExpireKeys(now, rank) => Continue(w, o, OverdueKeys(w.keys, now, rank), Expired)
  }

  /** The provider deletion of `s`, going on with `next` if it is confirmed. */
  function DeleteRemote(cfg: Config, w: World, o: OpId, ref: Ref, outcome: Outcome, next: Op): World {
    var (remote, ok) := w.remote.Delete(cfg.strict, ref, outcome);
    if ok then Put(w.(remote := remote), o, next) else Finish(w.(remote := remote), o, false)
  }

  /** The whole-row save of `row`, unless it fails without effect. */
  function Write(w: World, id: KeyId, row: Key, outcome: Outcome): World {
    if outcome.Bad? then w else w.(keys := w.keys[id := row])
  }

  function EraseRow(w: World, id: KeyId, outcome: Outcome): World {
    if outcome.Bad? then w else w.(keys := w.keys - {id})
  }

  /** One external call of request `o`. */
  function Step(cfg: Config, w: World, o: OpId, c: Choice): World
    requires o in w.ops
  {
    match w.ops[o]
    case Retire(todo, target) =>
      if todo == [] then Finish(w, o, true)
      else DeleteRemote(cfg, w, o, todo[0].row.ref, c.outcome, Retired(todo, target))
    case Retired(todo, target) =>
      if todo == [] then Finish(w, o, true)
      else
        var w1 := Write(w, todo[0].id, todo[0].row.(status := target), c.outcome);
        if c.outcome.Good? then Continue(w1, o, todo[1..], target) else Finish(w1, o, false)
    case Remove(s) => DeleteRemote(cfg, w, o, s.row.ref, c.outcome, Drop(s))
    case Drop(s) => Finish(EraseRow(w, s.id, c.outcome), o, c.outcome.Good?)
    case Rotate(s) => DeleteRemote(cfg, w, o, s.row.ref, c.outcome, Provision(Replace(s)))
    case Provision(goal) =>
      var (remote, ok) := w.remote.Create(c.credential, c.outcome);
      var w1 := if c.outcome.Bad? then w
                else w.(remote := remote, makers := w.makers + [Maker(o, GoalId(o, goal))]);
      if ok then Put(w1, o, Configure(goal, |w.remote.issued|, SetupCalls(GoalRow(goal))))
      else Finish(w1, o, false)
    case Configure(goal, ref, calls) =>
      if !c.outcome.Good? then Finish(w, o, false)
      else if calls > 0 then Put(w, o, Configure(goal, ref, calls - 1))
      else if ref >= |w.remote.issued| then Finish(w, o, false)
      else Put(w, o, Save(goal, ref, WithCredential(cfg.box, GoalRow(goal), ref, w.remote.issued[ref], c)))
    case Save(goal, ref, row) =>
      var w1 := Write(w, GoalId(o, goal), row, c.outcome);
      if c.outcome.Good? then Finish(w1, o, true)
      else if goal.Insert? then Put(w1, o, Undo(ref))
      else Finish(w1, o, false)
    case Undo(ref) =>
      var (remote, _) := w.remote.Delete(cfg.strict, ref, c.outcome);
      Finish(w.(remote := remote), o, false)
  }

  predicate Enabled(w: World, e: Event) {
    match e
    case Begin(o, _) => o !in w.ops && o !in w.done
    case Advance(o, _) => o in w.ops
  }

  function Next(cfg: Config, w: World, e: Event): World {
    if !Enabled(w, e) then w
    else match e
      case Begin(o, request) => BeginRequest(w, o, request)
      case Advance(o, c) => Step(cfg, w, o, c)
  }

  function Run(cfg: Config, w: World, es: seq<Event>): World
    decreases |es|
  {
    if es == [] then w else Run(cfg, Next(cfg, w, es[0]), es[1..])
  }

  /** No injected fault: the database answers, and the provider applies its own rule. */
  predicate Clean(e: Event) { e.Advance? ==> e.choice.outcome.Good? }

  lemma {:induction false} RunSplit(cfg: Config, w: World, es: seq<Event>, fs: seq<Event>)
    ensures Run(cfg, w, es + fs) == Run(cfg, Run(cfg, w, es), fs)
    decreases |es|
  {
    if es == [] {
      assert es + fs == fs;
    } else {
      assert (es + fs)[1..] == es[1..] + fs;
      RunSplit(cfg, Next(cfg, w, es[0]), es[1..], fs);
    }
  }
}
