/**
 What each call on one access key leaves behind, field by field: without faults, and for every way
 its calls to the database and the provider can turn out. The n-th call is the n-th one made.
 */
module KeyCalls {
  import opened Bytes
  import opened Model
  import opened SecretBox
  import opened Services
  import Base64

  predicate OnlyKeysDiffer(d: Data, e: Data) {
    e.users == d.users && e.devices == d.devices && e.servers == d.servers
  }

  predicate Good(env: Env, n: nat) { env(n).outcome.Good? }

  /** The n-th call takes effect, whether or not its caller learns of it. */
  predicate Effective(env: Env, n: nat) { !env(n).outcome.Bad? }

  /** Calls `from` to `to - 1` all succeed. */
  predicate AllGood(env: Env, from: nat, to: nat) { forall n :: from <= n < to ==> Good(env, n) }

  // Revoke.

  /** Without faults: the row is REVOKED, its key is gone, nothing else changes; or the provider refuses and nothing does. */
  lemma RevokeAchieves(cfg: Config, env: Env, d: Data, id: KeyId)
    requires FaultFree(env)
    ensures var (e, ok) := Services.Revoke(cfg, env, d, id);
            && OnlyKeysDiffer(d, e)
            && (ok <==> id in d.keys && (cfg.strict ==> d.keys[id].ref in d.remote.live))
            && (ok ==> e.keys == d.keys[id := d.keys[id].(status := Revoked)]
                       && e.remote == Remote(d.remote.live - {d.keys[id].ref}, d.remote.issued,
                                             d.remote.revoked + [d.keys[id].ref]))
            && (!ok ==> e.keys == d.keys && e.remote == d.remote)
  {
    hide RetireAll;
    RevokeInterrupted(cfg, env, d, id);
    assert Good(env, d.calls) && Good(env, d.calls + 1) && Good(env, d.calls + 2);
  }

  /** However it is interrupted: the key is gone if the deletion took effect, the row REVOKED if also the save did. */
  lemma RevokeInterrupted(cfg: Config, env: Env, d: Data, id: KeyId)
    ensures var (e, ok) := Services.Revoke(cfg, env, d, id);
            var n := d.calls;
            && OnlyKeysDiffer(d, e) && e.remote.issued == d.remote.issued
            && if !Good(env, n) || id !in d.keys then !ok && e.keys == d.keys && e.remote == d.remote
               else
                 var ref := d.keys[id].ref;
                 var confirmed := Good(env, n + 1) && (cfg.strict ==> ref in d.remote.live);
                 && (ok <==> confirmed && Good(env, n + 2))
                 && e.keys == (if confirmed && Effective(env, n + 2)
                               then d.keys[id := d.keys[id].(status := Revoked)] else d.keys)
                 && e.remote.live == (if confirmed || env(n + 1).outcome.Lost? then d.remote.live - {ref}
                                      else d.remote.live)
                 && e.remote.revoked == (if confirmed then d.remote.revoked + [ref] else d.remote.revoked)
  {
    if Good(env, d.calls) && id in d.keys {
      var d1, s := Read(env, d).0, Snap(id, d.keys[id]);
      var (d2, ok) := RetireOne(cfg, env, d1, s, Revoked);
      assert [s][1..] == [];
      assert RetireAll(cfg, env, d1, [s], Revoked)
             == if ok then RetireAll(cfg, env, d2, [], Revoked) else (d2, false);
    }
  }

  // Delete.

  /** Without faults: the row is gone, and so is its key if it was ACTIVE; or the provider refuses and nothing changes. */
  lemma DeleteAchieves(cfg: Config, env: Env, d: Data, id: KeyId)
    requires FaultFree(env)
    ensures var (e, ok) := Services.Delete(cfg, env, d, id);
            && OnlyKeysDiffer(d, e)
            && (ok <==> id in d.keys && (cfg.strict && d.keys[id].status == Active ==> d.keys[id].ref in d.remote.live))
            && (ok ==> e.keys == d.keys - {id}
                       && e.remote == if d.keys[id].status == Active
                                      then Remote(d.remote.live - {d.keys[id].ref}, d.remote.issued,
                                                  d.remote.revoked + [d.keys[id].ref])
                                      else d.remote)
            && (!ok ==> e.keys == d.keys && e.remote == d.remote)
  {
    DeleteInterrupted(cfg, env, d, id);
    assert Good(env, d.calls) && Good(env, d.calls + 1) && Good(env, d.calls + 2);
  }

  /** However it is interrupted: an ACTIVE row goes only after its key, and any other without asking the provider. */
  lemma DeleteInterrupted(cfg: Config, env: Env, d: Data, id: KeyId)
    ensures var (e, ok) := Services.Delete(cfg, env, d, id);
            var n := d.calls;
            && OnlyKeysDiffer(d, e) && e.remote.issued == d.remote.issued
            && if !Good(env, n) || id !in d.keys then !ok && e.keys == d.keys && e.remote == d.remote
               else if d.keys[id].status != Active then
                 && e.remote == d.remote && (ok <==> Good(env, n + 1))
                 && e.keys == (if Effective(env, n + 1) then d.keys - {id} else d.keys)
               else
                 var ref := d.keys[id].ref;
                 var confirmed := Good(env, n + 1) && (cfg.strict ==> ref in d.remote.live);
                 && (ok <==> confirmed && Good(env, n + 2))
                 && e.keys == (if confirmed && Effective(env, n + 2) then d.keys - {id} else d.keys)
                 && e.remote.live == (if confirmed || env(n + 1).outcome.Lost? then d.remote.live - {ref}
                                      else d.remote.live)
                 && e.remote.revoked == (if confirmed then d.remote.revoked + [ref] else d.remote.revoked)
  {
  }

  // Credentials.

  /** The row is ACTIVE and holds this credential under this reference. */
  predicate Carries(box: Aead, key: Key, ref: Ref, credential: Credential) {
    && key.status == Active
    && key.ref == ref
    && key.cipher == credential.cipher
    && key.port == credential.port
    && Decrypt(box, key.secret) == Some(credential.password)
  }

  /** Fresh WebSocket paths where the key uses them, and the old ones elsewhere. */
  predicate HasPaths(key: Key, oldPath: Text, oldUdpPath: Text, random: Choice) {
    && key.wsPath == (if key.webSocket then Base64.Encode(Base64.UrlSafe, random.tcpRandom) else oldPath)
    && key.wsUdpPath
       == (if key.webSocket && key.udp then Base64.Encode(Base64.UrlSafe, random.udpRandom) else oldUdpPath)
  }

  /** The row as it was, but for its credential and its paths. */
  predicate Reissued(before: Key, key: Key) {
    && key.user == before.user && key.server == before.server && key.name == before.name
    && key.tcp == before.tcp && key.udp == before.udp && key.webSocket == before.webSocket
    && key.expiresAt == before.expiresAt && key.limit == before.limit && key.used == before.used
  }

  /** The row as its creator asked for it. */
  predicate AskedFor(input: KeyInput, key: Key) {
    && key.user == input.user && key.server == input.server && key.name == input.name
    && key.tcp == input.tcp && key.udp == input.udp && key.webSocket == input.webSocket
    && key.expiresAt == input.expiresAt && key.limit == input.limit && key.used == 0
  }

  /** How many calls name and limit a key, each made only if asked for. */
  function Settings(name: Text, limit: int): nat {
    (if name != [] then 1 else 0) + (if limit > 0 then 1 else 0)
  }

  lemma CredentialFields(box: Aead, row: Key, ref: Ref, credential: Credential, random: Choice)
    requires box.Lawful()
    ensures var key := WithCredential(box, row, ref, credential, random);
            Reissued(row, key) && Carries(box, key, ref, credential) && HasPaths(key, row.wsPath, row.wsUdpPath, random)
  {
    hide Encrypt, Decrypt;
    DecryptEncrypt(box, random.nonce, credential.password);
  }

  /** The setup calls, as many as there are settings, and the read of randomness after them. */
  lemma SettingsCalls(env: Env, n: nat, row: Key)
    ensures var last := n + Settings(row.name, row.limit);
            var (calls, ok) := CountCalls(env, n, SetupCalls(row));
            (ok <==> AllGood(env, n, last)) && (ok ==> calls == last)
  {
    FewCalls(env, n);
    var last := n + Settings(row.name, row.limit);
    assert AllGood(env, n, last) <==> (last > n ==> Good(env, n)) && (last > n + 1 ==> Good(env, n + 1));
  }

  /** Provisioning creates the key if the POST takes effect, and succeeds only if all calls do. */
  lemma ProvisionInterrupted(cfg: Config, env: Env, d: Data, row: Key)
    requires cfg.box.Lawful()
    ensures var (e, full) := Services.Provision(cfg, env, d, row);
            var n, last, ref := d.calls, d.calls + 1 + Settings(row.name, row.limit), |d.remote.issued|;
            var credential := env(n).credential;
            && e == d.(remote := e.remote, calls := e.calls)
            && e.remote == (if Effective(env, n)
                            then Remote(d.remote.live + {ref}, d.remote.issued + [credential], d.remote.revoked)
                            else d.remote)
            && (full.Some? <==> AllGood(env, n, last + 1))
            && (full.Some? ==>
                  && e.calls == last + 1 && Reissued(row, full.value) && Carries(cfg.box, full.value, ref, credential)
                  && HasPaths(full.value, row.wsPath, row.wsUdpPath, env(last)))
  {
    hide WithCredential, Reissued, Carries, HasPaths, Settings, SetupCalls, CountCalls;
    var n, last := d.calls, d.calls + 1 + Settings(row.name, row.limit);
    SettingsCalls(env, n + 1, row);
    CredentialFields(cfg.box, row, |d.remote.issued|, env(n).credential, env(last));
    assert AllGood(env, n, last + 1) <==> Good(env, n) && AllGood(env, n + 1, last) && Good(env, last);
  }

  // Rotate.

  /**
   Without faults: the row keeps its settings and carries a new credential under a new reference, the
   old key is gone and the new one works; or the provider refuses and nothing changes.
   */
  lemma RotateAchieves(cfg: Config, env: Env, d: Data, id: KeyId)
    requires FaultFree(env) && cfg.box.Lawful()
    ensures var (e, ok) := Services.Rotate(cfg, env, d, id);
            && OnlyKeysDiffer(d, e)
            && (ok <==> id in d.keys && (cfg.strict ==> d.keys[id].ref in d.remote.live))
            && (!ok ==> e.keys == d.keys && e.remote == d.remote)
            && (ok ==>
                  var key, ref, credential := d.keys[id], |d.remote.issued|, env(d.calls + 2).credential;
                  && id in e.keys && e.keys == d.keys[id := e.keys[id]]
                  && Reissued(key, e.keys[id]) && Carries(cfg.box, e.keys[id], ref, credential)
                  && HasPaths(e.keys[id], key.wsPath, key.wsUdpPath, env(d.calls + 3 + Settings(key.name, key.limit)))
                  && e.remote == Remote(d.remote.live - {key.ref} + {ref}, d.remote.issued + [credential],
                                        d.remote.revoked + [key.ref]))
  {
    hide Services.Rotate, Reissued, Carries, HasPaths;
    RotateInterrupted(cfg, env, d, id);
    assert forall n :: Good(env, n);
  }

  /**
   However it is interrupted: the old key is gone if its deletion took effect; the new one works if also
   the POST did; the row carries it if everything up to the save succeeded and the save took effect.
   */
  lemma RotateInterrupted(cfg: Config, env: Env, d: Data, id: KeyId)
    requires cfg.box.Lawful()
    ensures var (e, ok) := Services.Rotate(cfg, env, d, id);
            var n := d.calls;
            && OnlyKeysDiffer(d, e)
            && if !Good(env, n) || id !in d.keys then !ok && e.keys == d.keys && e.remote == d.remote
               else
                 var key, ref, credential := d.keys[id], |d.remote.issued|, env(n + 2).credential;
                 var last := n + 3 + Settings(key.name, key.limit);
                 var confirmed := Good(env, n + 1) && (cfg.strict ==> key.ref in d.remote.live);
                 var kept := if confirmed || env(n + 1).outcome.Lost? then d.remote.live - {key.ref} else d.remote.live;
                 && (ok <==> confirmed && AllGood(env, n + 2, last + 2))
                 && (if confirmed && AllGood(env, n + 2, last + 1) && Effective(env, last + 1)
                     then id in e.keys && e.keys == d.keys[id := e.keys[id]]
                          && Reissued(key, e.keys[id]) && Carries(cfg.box, e.keys[id], ref, credential)
                          && HasPaths(e.keys[id], key.wsPath, key.wsUdpPath, env(last))
                     else e.keys == d.keys)
                 && e.remote == (if confirmed && Effective(env, n + 2)
                                 then Remote(kept + {ref}, d.remote.issued + [credential],
                                             d.remote.revoked + [key.ref])
                                 else Remote(kept, d.remote.issued,
                                             if confirmed then d.remote.revoked + [key.ref] else d.remote.revoked))
  {
    hide Services.Provision, Settings, Reissued, Carries, HasPaths;
    if Good(env, d.calls) && id in d.keys {
      var d1 := Read(env, d).0;
      var key := d.keys[id];
      var (d2, deleted) := DeleteOnProvider(cfg, env, d1, key.ref);
      var last := d.calls + 3 + Settings(key.name, key.limit);
      if deleted {
        ProvisionInterrupted(cfg, env, d2, key);
        var (d3, full) := Services.Provision(cfg, env, d2, key);
        assert full.Some? <==> AllGood(env, d.calls + 2, last + 1);
        assert full.Some? ==> Services.Rotate(cfg, env, d, id) == SaveKey(env, d3, id, full.value);
        assert AllGood(env, d.calls + 2, last + 2)
               <==> AllGood(env, d.calls + 2, last + 1) && Good(env, last + 1);
      }
    }
  }

  // Create.

  /** Without faults: the row is stored as asked for, with the one credential issued; it fails only for an unknown server. */
  lemma CreateAchieves(cfg: Config, env: Env, d: Data, id: KeyId, input: KeyInput)
    requires FaultFree(env) && cfg.box.Lawful()
    ensures var (e, ok) := Services.Create(cfg, env, d, id, input);
            && OnlyKeysDiffer(d, e)
            && (ok <==> input.server in d.servers)
            && (!ok ==> e.keys == d.keys && e.remote == d.remote)
            && (ok ==>
                  var ref, credential := |d.remote.issued|, env(d.calls + 1).credential;
                  && id in e.keys && e.keys == d.keys[id := e.keys[id]]
                  && AskedFor(input, e.keys[id]) && Carries(cfg.box, e.keys[id], ref, credential)
                  && HasPaths(e.keys[id], [], [], env(d.calls + 2 + Settings(input.name, input.limit)))
                  && e.remote == Remote(d.remote.live + {ref}, d.remote.issued + [credential], d.remote.revoked))
  {
    hide Services.Create, AskedFor, Carries, HasPaths;
    CreateInterrupted(cfg, env, d, id, input);
    assert forall n :: Good(env, n);
  }

  lemma NewRowFields(input: KeyInput, row: Key)
    ensures Reissued(NewRow(input), row) ==> AskedFor(input, row)
    ensures NewRow(input).name == input.name && NewRow(input).limit == input.limit
    ensures NewRow(input).wsPath == [] && NewRow(input).wsUdpPath == []
  {
  }

  /**
   However it is interrupted: the new key works if the POST took effect, unless the insert failed and the
   cleanup after it took effect; the row is stored if everything up to the insert succeeded and it took effect.
   */
  lemma CreateInterrupted(cfg: Config, env: Env, d: Data, id: KeyId, input: KeyInput)
    requires cfg.box.Lawful()
    ensures var (e, ok) := Services.Create(cfg, env, d, id, input);
            var n := d.calls;
            && OnlyKeysDiffer(d, e)
            && if !Good(env, n) || input.server !in d.servers then !ok && e.keys == d.keys && e.remote == d.remote
               else
                 var ref, credential := |d.remote.issued|, env(n + 1).credential;
                 var last := n + 2 + Settings(input.name, input.limit);
                 var ready := AllGood(env, n + 1, last + 1);
                 var undone := ready && !Good(env, last + 1);
                 && (ok <==> ready && Good(env, last + 1))
                 && (if ready && Effective(env, last + 1)
                     then id in e.keys && e.keys == d.keys[id := e.keys[id]]
                          && AskedFor(input, e.keys[id]) && Carries(cfg.box, e.keys[id], ref, credential)
                          && HasPaths(e.keys[id], [], [], env(last))
                     else e.keys == d.keys)
                 && e.remote.issued == (if Effective(env, n + 1) then d.remote.issued + [credential] else d.remote.issued)
                 && e.remote.live == (if !Effective(env, n + 1) then d.remote.live
                                      else if undone && Effective(env, last + 2) then d.remote.live - {ref}
                                      else d.remote.live + {ref})
                 && (undone && Effective(env, last + 2) && ref !in d.remote.live ==> e.remote.live == d.remote.live)
                 && e.remote.revoked == (if undone && Good(env, last + 2) then d.remote.revoked + [ref]
                                         else d.remote.revoked)
  {
    hide Services.Provision, NewRow, Settings, Reissued, AskedFor, Carries, HasPaths;
    if Good(env, d.calls) && input.server in d.servers {
      var d1 := Read(env, d).0;
      ProvisionInterrupted(cfg, env, d1, NewRow(input));
      var (d2, full) := Services.Provision(cfg, env, d1, NewRow(input));
      NewRowFields(input, if full.Some? then full.value else NewRow(input));
      var ref := |d.remote.issued|;
      assert full.Some? ==> Good(env, d1.calls);
      assert d.remote.live + {ref} - {ref} == d.remote.live - {ref};
    }
  }
}
