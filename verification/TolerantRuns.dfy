/**
 What a tolerant provider does not guarantee: runs that show it, and the properties of all runs that
 hold exactly if the provider is strict.
 */
module TolerantRuns {
  import opened Bytes
  import opened SecretBox
  import opened Model
  import opened Protocol
  import opened StrictRuns
  import opened QuiescentRuns
  import opened Conservation

  /** One fault-free run, one event at a time. */
  ghost predicate CleanRun(cfg: Config, w: World, es: seq<Event>, w1: World) {
    Run(cfg, w, es) == w1 && forall e :: e in es ==> Clean(e)
  }

  lemma Extend(cfg: Config, w: World, es: seq<Event>, w1: World, e: Event)
    requires CleanRun(cfg, w, es, w1) && Clean(e)
    ensures CleanRun(cfg, w, es + [e], Next(cfg, w1, e))
  {
    hide Next;
    RunSplit(cfg, w, es, [e]);
    assert Run(cfg, w1, [e]) == Next(cfg, w1, e) by { assert [e][1..] == []; }
  }

  /** A fault-free creation by request 0, with nothing else in flight. */
  lemma CreateFirst(cfg: Config, input: KeyInput, c: Choice) returns (es: seq<Event>, w: World)
    requires c.outcome.Good? && input.name == [] && input.limit <= 0
    ensures CleanRun(cfg, INIT, es, w)
    ensures w == World(map[0 := WithCredential(cfg.box, NewRow(input), 0, c.credential, c)],
                       Remote({0}, [c.credential], []), [Maker(0, 0)], map[], map[0 := true])
  {
    hide WithCredential, Run;
    es, w := [Begin(0, CreateKey(input))], Next(cfg, INIT, Begin(0, CreateKey(input)));
    assert CleanRun(cfg, INIT, [], INIT) by { assert Run(cfg, INIT, []) == INIT by { EmptyRun(cfg); } }
    Extend(cfg, INIT, [], INIT, Begin(0, CreateKey(input)));
    assert [] + es == es;
    Extend(cfg, INIT, es, w, Advance(0, c));
    es, w := es + [Advance(0, c)], Next(cfg, w, Advance(0, c));
    assert w.ops == map[0 := Configure(Insert(NewRow(input)), 0, 0)];
    Extend(cfg, INIT, es, w, Advance(0, c));
    es, w := es + [Advance(0, c)], Next(cfg, w, Advance(0, c));
    assert w.ops == map[0 := Save(Insert(NewRow(input)), 0, WithCredential(cfg.box, NewRow(input), 0, c.credential, c))];
    Extend(cfg, INIT, es, w, Advance(0, c));
    es, w := es + [Advance(0, c)], Next(cfg, w, Advance(0, c));
    assert w.ops == map[];
  }

  lemma EmptyRun(cfg: Config)
    ensures Run(cfg, INIT, []) == INIT
  {
  }

  /** Row 0 as `CreateFirst` leaves it. */
  function First(cfg: Config, input: KeyInput, c: Choice): Snap {
    Snap(0, WithCredential(cfg.box, NewRow(input), 0, c.credential, c))
  }

  /** One more event of a fault-free run. */
  lemma Then(cfg: Config, es: seq<Event>, w: World, e: Event) returns (fs: seq<Event>, w1: World)
    requires CleanRun(cfg, INIT, es, w) && Clean(e)
    ensures fs == es + [e] && w1 == Next(cfg, w, e) && CleanRun(cfg, INIT, fs, w1)
  {
    fs, w1 := es + [e], Next(cfg, w, e);
    Extend(cfg, INIT, es, w, e);
  }

  /** Rotating row 0, from the deletion to the save, when nothing fails. */
  lemma RotateFirst(cfg: Config, s: Snap, c: Choice, es: seq<Event>, w: World, o: OpId)
    returns (fs: seq<Event>, w1: World)
    requires !cfg.strict && c.outcome.Good? && s.id == 0 && SetupCalls(s.row) == 0
    requires CleanRun(cfg, INIT, es, w) && o in w.ops && w.ops[o] == Rotate(s) && |w.remote.issued| == 1
    ensures CleanRun(cfg, INIT, fs, w1) && es <= fs
    ensures w1 == w.(keys := w.keys[0 := WithCredential(cfg.box, s.row, 1, c.credential, c)],
                     remote := Remote(w.remote.live - {s.row.ref} + {1}, w.remote.issued + [c.credential],
                                      w.remote.revoked + [s.row.ref]),
                     makers := w.makers + [Maker(o, 0)], ops := w.ops - {o}, done := w.done[o := true])
  {
    hide CleanRun;
    fs, w1 := Then(cfg, es, w, Advance(o, c));
    assert w1.ops[o] == Provision(Replace(s));
    fs, w1 := Then(cfg, fs, w1, Advance(o, c));
    assert w1.ops[o] == Configure(Replace(s), 1, 0);
    fs, w1 := Then(cfg, fs, w1, Advance(o, c));
    assert w1.ops[o] == Save(Replace(s), 1, WithCredential(cfg.box, s.row, 1, c.credential, c));
    fs, w1 := Then(cfg, fs, w1, Advance(o, c));
    assert w1.ops == w.ops - {o};
  }

  /** One Revoke has deleted the key of row 0, and one Rotate has replaced the row meanwhile. */
  lemma RevokeDuringRotate(cfg: Config, input: KeyInput, c: Choice) returns (es: seq<Event>, w: World)
    requires !cfg.strict && c.outcome.Good? && input.name == [] && input.limit <= 0
    ensures var s := First(cfg, input, c);
            && CleanRun(cfg, INIT, es, w) && w.ops == map[1 := Retired([s], Revoked)]
            && w.keys == map[0 := WithCredential(cfg.box, s.row, 1, c.credential, c)]
            && w.remote.live == {1} && w.remote.revoked == [0, 0]
  {
    hide CleanRun, WithCredential;
    var s := First(cfg, input, c);
    FirstRow(cfg, input, c);
    es, w := CreateFirst(cfg, input, c);
    es, w := Then(cfg, es, w, Begin(1, RevokeKey(0)));
    assert w.ops == map[1 := Retire([s], Revoked)];
    es, w := Then(cfg, es, w, Begin(2, RotateKey(0)));
    assert w.ops[2] == Rotate(s);
    es, w := RotateFirst(cfg, s, c, es, w, 2);
    assert w.ops == map[1 := Retire([s], Revoked)];
    es, w := Then(cfg, es, w, Advance(1, c));
  }

  /**
   Without the lock a fault-free interleaving of one Revoke and one Rotate loses the rotation: the row
   ends REVOKED under its old reference, whose key was deleted twice, and the new key works unowned.
   */
  lemma RotationIsLost(cfg: Config, input: KeyInput, c: Choice) returns (es: seq<Event>, w: World)
    requires !cfg.strict && c.outcome.Good? && input.name == [] && input.limit <= 0
    ensures CleanRun(cfg, INIT, es, w) && w.ops == map[]
    ensures 0 in w.keys && w.keys[0].status == Revoked && Orphan(w, 1)
    ensures w.remote.revoked == [0, 0]
  {
    hide CleanRun, WithCredential;
    var s := First(cfg, input, c);
    FirstRow(cfg, input, c);
    es, w := RevokeDuringRotate(cfg, input, c);
    es, w := Then(cfg, es, w, Advance(1, c));
    assert w.ops == map[] && w.keys == map[0 := s.row.(status := Revoked)];
    assert forall id :: !RefersTo(w, id, 1);
  }

  lemma FirstRow(cfg: Config, input: KeyInput, c: Choice)
    requires input.name == [] && input.limit <= 0
    ensures First(cfg, input, c).row.ref == 0 && First(cfg, input, c).row.status == Active
    ensures SetupCalls(First(cfg, input, c).row) == 0
  {
  }

  /** Nor is REVOKED absorbing: after a fault-free Revoke, a Rotate brings the row back, and a working key with it. */
  lemma RevokedRowReturns(cfg: Config, input: KeyInput, c: Choice)
    returns (es: seq<Event>, w: World, fs: seq<Event>, w1: World)
    requires !cfg.strict && c.outcome.Good? && input.name == [] && input.limit <= 0
    ensures CleanRun(cfg, INIT, es, w) && w.ops == map[] && 0 in w.keys && w.keys[0].status == Revoked
    ensures CleanRun(cfg, INIT, fs, w1) && es <= fs && 0 in w1.keys && w1.keys[0].status == Active
    ensures w1.keys[0].ref in w1.remote.live
  {
    hide CleanRun, WithCredential;
    var s := First(cfg, input, c);
    FirstRow(cfg, input, c);
    es, w := CreateFirst(cfg, input, c);
    es, w := Then(cfg, es, w, Begin(1, RevokeKey(0)));
    assert w.ops == map[1 := Retire([s], Revoked)];
    es, w := Then(cfg, es, w, Advance(1, c));
    assert w.ops == map[1 := Retired([s], Revoked)];
    es, w := Then(cfg, es, w, Advance(1, c));
    assert w.ops == map[] && w.keys == map[0 := s.row.(status := Revoked)];
    fs, w1 := RotateAgain(cfg, Snap(0, s.row.(status := Revoked)), c, es, w);
  }

  lemma RotateAgain(cfg: Config, s: Snap, c: Choice, es: seq<Event>, w: World) returns (fs: seq<Event>, w1: World)
    requires !cfg.strict && c.outcome.Good? && s.id == 0 && SetupCalls(s.row) == 0
    requires CleanRun(cfg, INIT, es, w) && w.ops == map[] && 2 !in w.done && |w.remote.issued| == 1
    requires 0 in w.keys && w.keys[0] == s.row
    ensures CleanRun(cfg, INIT, fs, w1) && es <= fs && 0 in w1.keys && w1.keys[0].status == Active
    ensures w1.keys[0].ref in w1.remote.live
  {
    hide CleanRun;
    fs, w1 := Then(cfg, es, w, Begin(2, RotateKey(0)));
    assert w1.ops == map[2 := Rotate(s)];
    assert es <= fs;
    var begun := fs;
    fs, w1 := RotateFirst(cfg, s, c, fs, w1, 2);
    assert begun <= fs;
  }

  // What separates the two kinds of provider: each of these holds of all runs exactly if the provider is strict.

  /** Between `es` and the end of `later`, a row that is not ACTIVE stays as it is, unless it is deleted. */
  predicate AbsorbedAfter(cfg: Config, es: seq<Event>, later: seq<Event>, id: KeyId) {
    var w := Run(cfg, INIT, es);
    var w1 := Run(cfg, w, later);
    id in w.keys && w.keys[id].status != Active && id in w1.keys ==> w1.keys[id] == w.keys[id]
  }

  /** After `es`, event `e` changes row `id` only if it belongs to a request that read exactly the stored row. */
  predicate WriteKeptAfter(cfg: Config, es: seq<Event>, e: Event, id: KeyId) {
    var w := Run(cfg, INIT, es);
    var w1 := Next(cfg, w, e);
    id in w.keys && (id !in w1.keys || w1.keys[id] != w.keys[id])
    ==> e.Advance? && e.op in w.ops && Overwrites(w.ops[e.op]) == Some(Snap(id, w.keys[id]))
  }

  /** If `es` is fault-free and leaves nothing in flight, the working keys are those of the ACTIVE rows. */
  ghost predicate AgreesAfter(cfg: Config, es: seq<Event>) {
    var w := Run(cfg, INIT, es);
    w.ops == map[] && (forall e :: e in es ==> Clean(e)) ==>
      forall ref :: ref in w.remote.live
                    <==> exists id :: id in w.keys && w.keys[id].status == Active && w.keys[id].ref == ref
  }

  /** Some request without a name or a limit, and a choice in which every call succeeds. */
  lemma Sample() returns (input: KeyInput, c: Choice)
    ensures c.outcome.Good? && input.name == [] && input.limit <= 0
  {
    input := KeyInput(0, 0, [], true, true, false, None, 0);
    var nonce: Nonce := seq(NONCE_SIZE, _ => 0);
    var random: PathSeed := seq(PATH_BYTES, _ => 0);
    c := Choice(Good, Credential([], [], 0), nonce, random, random, n => n);
  }

  lemma TerminalIsAbsorbingIfStrict(cfg: Config)
    requires cfg.box.Lawful()
    ensures (forall es, later, id :: AbsorbedAfter(cfg, es, later, id)) <==> cfg.strict
  {
    hide Run;
    if cfg.strict {
      forall es, later, id ensures AbsorbedAfter(cfg, es, later, id) {
        var w := Run(cfg, INIT, es);
        if id in w.keys && w.keys[id].status != Active {
          TerminalRowsNeverChange(cfg, es, later, id);
        }
      }
    } else {
      var input, c := Sample();
      var es, w, fs, w1 := RevokedRowReturns(cfg, input, c);
      var later := fs[|es|..];
      assert es + later == fs;
      RunSplit(cfg, INIT, es, later);
      assert !AbsorbedAfter(cfg, es, later, 0);
    }
  }

  lemma WritesAreKeptIfStrict(cfg: Config)
    requires cfg.box.Lawful()
    ensures (forall es, e, id :: WriteKeptAfter(cfg, es, e, id)) <==> cfg.strict
  {
    hide Run, Next;
    if cfg.strict {
      forall es, e, id ensures WriteKeptAfter(cfg, es, e, id) {
        var w := Run(cfg, INIT, es);
        if id in w.keys && (id !in Next(cfg, w, e).keys || Next(cfg, w, e).keys[id] != w.keys[id]) {
          WritesAreNeverLost(cfg, es, e, id);
        }
      }
    } else {
      var input, c := Sample();
      var es, w := RevokeDuringRotate(cfg, input, c);
      RevokeOverwrites(cfg, First(cfg, input, c), w, c);
      FirstRow(cfg, input, c);
      assert !WriteKeptAfter(cfg, es, Advance(1, c), 0);
    }
  }

  lemma RevokeOverwrites(cfg: Config, s: Snap, w: World, c: Choice)
    requires w.ops == map[1 := Retired([s], Revoked)] && c.outcome.Good?
    ensures Next(cfg, w, Advance(1, c)).keys == w.keys[s.id := s.row.(status := Revoked)]
  {
  }

  lemma KeysAreRevokedOnceIfStrict(cfg: Config)
    requires cfg.box.Lawful()
    ensures (forall es :: RevokedOnce(Run(cfg, INIT, es).remote)) <==> cfg.strict
  {
    hide Run;
    if cfg.strict {
      forall es ensures RevokedOnce(Run(cfg, INIT, es).remote) {
        EachKeyIsRevokedOnce(cfg, INIT, es);
      }
    } else {
      var input, c := Sample();
      var es, w := RotationIsLost(cfg, input, c);
      assert w.remote.revoked[0] == w.remote.revoked[1];
      assert !RevokedOnce(Run(cfg, INIT, es).remote);
    }
  }

  lemma StoresAgreeIfStrict(cfg: Config)
    requires cfg.box.Lawful()
    ensures (forall es :: AgreesAfter(cfg, es)) <==> cfg.strict
  {
    hide Run;
    if cfg.strict {
      forall es ensures AgreesAfter(cfg, es) {
        if Run(cfg, INIT, es).ops == map[] && forall e :: e in es ==> Clean(e) {
          QuiescentStoresAgree(cfg, es);
        }
      }
    } else {
      var input, c := Sample();
      var es, w := RotationIsLost(cfg, input, c);
      forall id ensures !(id in w.keys && w.keys[id].ref == 1) {
        assert !RefersTo(w, id, 1);
      }
      assert !AgreesAfter(cfg, es);
    }
  }
}
