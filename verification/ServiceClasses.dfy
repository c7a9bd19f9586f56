/** The repositories, the provider client and the services as the objects they are, proved against `Services`. */
module ServiceClasses {
  import opened Bytes
  import opened Model
  import opened SecretBox
  import opened Services
  import ClientConfig
  import Pagination
  import ShadowsocksUri

  /** The outside world: the n-th call to the database or the provider turns out as `env(n)` says. */
  class Outside {
    const env: Env
    var calls: nat

    constructor (env: Env)
      ensures this.env == env && calls == 0
    {
      this.env, calls := env, 0;
    }

    method Call() returns (c: Choice)
      modifies this
      ensures c == env(old(calls)) && calls == old(calls) + 1
    {
      c := env(calls);
      calls := calls + 1;
    }
  }

  class AccessKeyRepository {
    const outside: Outside
    var rows: map<KeyId, Key>

    constructor (outside: Outside)
      ensures this.outside == outside && rows == map[]
    {
      this.outside, rows := outside, map[];
    }

    /** The whole-row save: an update, or an insert when the row is not there. */
    method Update(id: KeyId, key: Key) returns (ok: bool)
      modifies this, outside
      ensures outside.calls == old(outside.calls) + 1
      ensures ok == outside.env(old(outside.calls)).outcome.Good?
      ensures rows == if outside.env(old(outside.calls)).outcome.Bad? then old(rows) else old(rows)[id := key]
    {
      var c := outside.Call();
      if !c.outcome.Bad? {
        rows := rows[id := key];
      }
      ok := c.outcome.Good?;
    }

    method Delete(id: KeyId) returns (ok: bool)
      modifies this, outside
      ensures outside.calls == old(outside.calls) + 1
      ensures ok == outside.env(old(outside.calls)).outcome.Good?
      ensures rows == if outside.env(old(outside.calls)).outcome.Bad? then old(rows) else old(rows) - {id}
    {
      var c := outside.Call();
      if !c.outcome.Bad? {
        rows := rows - {id};
      }
      ok := c.outcome.Good?;
    }

    method FindByID(id: KeyId) returns (ok: bool, key: Option<Key>)
      modifies outside
      ensures outside.calls == old(outside.calls) + 1
      ensures ok == outside.env(old(outside.calls)).outcome.Good?
      ensures key == if id in rows then Some(rows[id]) else None
    {
      var c := outside.Call();
      ok := c.outcome.Good?;
      key := if id in rows then Some(rows[id]) else None;
    }

    method FindByUser(user: UserId) returns (ok: bool, keys: seq<Snap>)
      modifies outside
      ensures outside.calls == old(outside.calls) + 1
      ensures ok == outside.env(old(outside.calls)).outcome.Good?
      ensures keys == KeysOfUser(rows, user, outside.env(old(outside.calls)).rank)
      ensures forall s: Snap :: s in keys <==> s.id in rows && s.row == rows[s.id] && s.row.user == user
    {
      var c := outside.Call();
      QueryReads(rows, (set id | id in rows && rows[id].user == user), c.rank);
      ok, keys := c.outcome.Good?, KeysOfUser(rows, user, c.rank);
    }

    method FindExpired(now: int) returns (ok: bool, keys: seq<Snap>)
      modifies outside
      ensures outside.calls == old(outside.calls) + 1
      ensures ok == outside.env(old(outside.calls)).outcome.Good?
      ensures keys == OverdueKeys(rows, now, outside.env(old(outside.calls)).rank)
      ensures forall s: Snap :: s in keys
                <==> && s.id in rows && s.row == rows[s.id]
                     && s.row.status == Active && s.row.expiresAt.Some? && s.row.expiresAt.value < now
    {
      var c := outside.Call();
      SweepReads(rows, now, c.rank);
      ok, keys := c.outcome.Good?, OverdueKeys(rows, now, c.rank);
    }
  }

  class VPNUserRepository {
    const outside: Outside
    var rows: map<UserId, User>

    constructor (outside: Outside)
      ensures this.outside == outside && rows == map[]
    {
      this.outside, rows := outside, map[];
    }

    /** Soft-deleted users are not found. */
    method FindByID(id: UserId) returns (ok: bool, user: Option<User>)
      modifies outside
      ensures outside.calls == old(outside.calls) + 1
      ensures ok == outside.env(old(outside.calls)).outcome.Good?
      ensures user == if id in rows && !rows[id].deleted then Some(rows[id]) else None
    {
      var c := outside.Call();
      ok := c.outcome.Good?;
      user := if id in rows && !rows[id].deleted then Some(rows[id]) else None;
    }

    method Update(id: UserId, user: User) returns (ok: bool)
      modifies this, outside
      ensures outside.calls == old(outside.calls) + 1
      ensures ok == outside.env(old(outside.calls)).outcome.Good?
      ensures rows == if outside.env(old(outside.calls)).outcome.Bad? then old(rows) else old(rows)[id := user]
    {
      var c := outside.Call();
      if !c.outcome.Bad? {
        rows := rows[id := user];
      }
      ok := c.outcome.Good?;
    }

    method Delete(id: UserId) returns (ok: bool)
      modifies this, outside
      ensures outside.calls == old(outside.calls) + 1
      ensures ok == outside.env(old(outside.calls)).outcome.Good?
      ensures rows == if outside.env(old(outside.calls)).outcome.Bad? || id !in old(rows) then old(rows)
                      else old(rows)[id := old(rows)[id].(deleted := true)]
    {
      var c := outside.Call();
      if !c.outcome.Bad? && id in rows {
        rows := rows[id := rows[id].(deleted := true)];
      }
      ok := c.outcome.Good?;
    }

    method FindExpired(now: int) returns (ok: bool, users: seq<UserId>)
      modifies outside
      ensures outside.calls == old(outside.calls) + 1
      ensures ok == outside.env(old(outside.calls)).outcome.Good?
      ensures users == LapsedUsers(rows, now, outside.env(old(outside.calls)).rank)
      ensures forall u :: u in users
                <==> && u in rows && rows[u].status == UserActive && !rows[u].deleted
                     && rows[u].expiresAt.Some? && rows[u].expiresAt.value < now
    {
      var c := outside.Call();
      ok, users := c.outcome.Good?, LapsedUsers(rows, now, c.rank);
    }
  }

  class DeviceRepository {
    const outside: Outside
    var rows: seq<Device>

    constructor (outside: Outside)
      ensures this.outside == outside && rows == []
    {
      this.outside, rows := outside, [];
    }

    method Update(device: Device) returns (ok: bool)
      modifies this, outside
      ensures outside.calls == old(outside.calls) + 1
      ensures ok == outside.env(old(outside.calls)).outcome.Good?
      ensures rows == if outside.env(old(outside.calls)).outcome.Bad? then old(rows)
                      else ReplaceDevice(old(rows), device)
    {
      var c := outside.Call();
      if !c.outcome.Bad? {
        rows := ReplaceDevice(rows, device);
      }
      ok := c.outcome.Good?;
    }

    method ListOfUser(user: UserId, page: Pagination.Request) returns (ok: bool, devices: seq<Device>)
      modifies outside
      ensures outside.calls == old(outside.calls) + 1
      ensures ok == outside.env(old(outside.calls)).outcome.Good?
      ensures devices == Pagination.Page(DevicesOf(rows, user), page)
    {
      var c := outside.Call();
      ok, devices := c.outcome.Good?, Pagination.Page(DevicesOf(rows, user), page);
    }
  }

  class ServerRepository {
    const outside: Outside
    var rows: map<ServerId, Server>

    constructor (outside: Outside)
      ensures this.outside == outside && rows == map[]
    {
      this.outside, rows := outside, map[];
    }

    method FindByID(id: ServerId) returns (ok: bool, server: Option<Server>)
      modifies outside
      ensures outside.calls == old(outside.calls) + 1
      ensures ok == outside.env(old(outside.calls)).outcome.Good?
      ensures server == if id in rows then Some(rows[id]) else None
    {
      var c := outside.Call();
      ok := c.outcome.Good?;
      server := if id in rows then Some(rows[id]) else None;
    }
  }

  /** The Outline management client, with the server behind it. */
  class OutlineProvider {
    const outside: Outside
    const strict: bool
    var live: set<Ref>
    var issued: seq<Credential>
    var revoked: seq<Ref>

    constructor (outside: Outside, strict: bool)
      ensures this.outside == outside && this.strict == strict && State() == Remote({}, [], [])
    {
      this.outside, this.strict, live, issued, revoked := outside, strict, {}, [], [];
    }

    ghost function State(): Remote
      reads this
    {
      Remote(live, issued, revoked)
    }

    /** DELETE of one key; any answer but success is an error, whether or not the key is gone. */
    method RevokeAccessKey(ref: Ref) returns (ok: bool)
      modifies this, outside
      ensures outside.calls == old(outside.calls) + 1
      ensures (State(), ok) == old(State()).Delete(strict, ref, outside.env(old(outside.calls)).outcome)
    {
      var c := outside.Call();
      ok := c.outcome.Good? && (!strict || ref in live);
      if c.outcome.Lost? || ok {
        live := live - {ref};
      }
      if ok {
        revoked := revoked + [ref];
      }
    }

    /** POST, then naming and limiting if asked for; a failure on the way leaves the new key behind. */
    method CreateAccessKey(row: Key) returns (ok: bool, ref: Ref, credential: Credential)
      modifies this, outside
      ensures var c := outside.env(old(outside.calls));
              var (remote, created) := old(State()).Create(c.credential, c.outcome);
              && State() == remote
              && (outside.calls, ok) == (if created then CountCalls(outside.env, old(outside.calls) + 1, SetupCalls(row))
                                         else (old(outside.calls) + 1, false))
              && (ok ==> ref == |old(issued)| && credential == c.credential)
    {
      FewCalls(outside.env, outside.calls + 1);
      ref, credential, ok := 0, Credential([], [], 0), false;
      var c := outside.Call();
      if c.outcome.Bad? {
        return;
      }
      ref, credential := |issued|, c.credential;
      live, issued := live + {|issued|}, issued + [c.credential];
      if c.outcome.Lost? {
        return;
      }
      if row.name != [] {
        var named := outside.Call();
        if !named.outcome.Good? {
          return;
        }
      }
      if row.limit > 0 {
        var limited := outside.Call();
        if !limited.outcome.Good? {
          return;
        }
      }
      ok := true;
    }
  }

  /** The credential the in-memory provider makes up for key-n: chacha20-ietf-poly1305, test-password-key-n, port 17508. */
  function FakeCredential(n: nat): Credential {
    Credential([99, 104, 97, 99, 104, 97, 50, 48, 45, 105, 101, 116, 102, 45, 112, 111, 108, 121, 49, 51, 48, 53],
               [116, 101, 115, 116, 45, 112, 97, 115, 115, 119, 111, 114, 100, 45, 107, 101, 121, 45]  // test-password-key-
               + ShadowsocksUri.Decimal(n + 1),
               17508)
  }

  /** The in-memory provider of the tests: the tolerant provider whose calls never fail. Its key-n is reference n - 1. */
  class FakeVPNProvider {
    var nextId: nat
    var keys: set<Ref>
    var revoked: seq<Ref>
    var rotated: seq<Ref>

    constructor ()
      ensures State() == Remote({}, [], []) && rotated == []
    {
      nextId, keys, revoked, rotated := 0, {}, [], [];
    }

    ghost function State(): Remote
      reads this
    {
      Remote(keys, seq(nextId, n requires 0 <= n => FakeCredential(n)), revoked)
    }

    method CreateAccessKey() returns (ref: Ref, credential: Credential)
      modifies this
      ensures ref == |old(State()).issued| && rotated == old(rotated)
      ensures (State(), true) == old(State()).Create(credential, Good)
    {
      nextId := nextId + 1;
      ref, credential := nextId - 1, FakeCredential(nextId - 1);
      keys := keys + {ref};
      assert State().issued == old(State()).issued + [credential];
    }

    /** Deleting a key that is not there succeeds as well. */
    method RevokeAccessKey(ref: Ref) returns (ok: bool)
      modifies this
      ensures (State(), ok) == old(State()).Delete(false, ref, Good) && rotated == old(rotated)
    {
      keys, revoked, ok := keys - {ref}, revoked + [ref], true;
    }

    method RotateAccessKey(ref: Ref) returns (newRef: Ref, credential: Credential)
      modifies this
      ensures rotated == old(rotated) + [ref] && newRef == |old(State()).issued|
      ensures (State(), true) == old(State()).Delete(false, ref, Good).0.Create(credential, Good)
      ensures newRef in keys && (ref < newRef ==> ref !in keys)
    {
      rotated := rotated + [ref];
      var _ := RevokeAccessKey(ref);
      newRef, credential := CreateAccessKey();
    }
  }

  /** The repositories over one database, and the provider: what the services share. */
  class Backend {
    const outside: Outside
    const users: VPNUserRepository
    const devices: DeviceRepository
    const servers: ServerRepository
    const accessKeys: AccessKeyRepository
    const provider: OutlineProvider

    constructor (env: Env, strict: bool)
      ensures Wired() && outside.env == env && provider.strict == strict
      ensures View() == Data(map[], map[], [], map[], Remote({}, [], []), 0)
      ensures fresh(Parts())
    {
      var calls := new Outside(env);
      outside := calls;
      users := new VPNUserRepository(calls);
      devices := new DeviceRepository(calls);
      servers := new ServerRepository(calls);
      accessKeys := new AccessKeyRepository(calls);
      provider := new OutlineProvider(calls, strict);
    }

    ghost predicate Wired() {
      && users.outside == outside && devices.outside == outside && servers.outside == outside
      && accessKeys.outside == outside && provider.outside == outside
    }

    ghost function Parts(): set<object> { {outside, users, devices, servers, accessKeys, provider} }

    /** The tables, the data plane and the number of calls made, as one value. */
    ghost function View(): Data
      reads Parts()
    {
      Data(users.rows, accessKeys.rows, devices.rows, servers.rows, provider.State(), outside.calls)
    }

    /** What the sweep, the cascade and a revocation do to one row: delete on the provider, then save. */
    method Retire(key: Snap, target: Status, ghost cfg: Config) returns (ok: bool)
      requires Wired() && cfg.strict == provider.strict
      modifies Parts()
      ensures (View(), ok) == RetireOne(cfg, outside.env, old(View()), key, target)
    {
      var deleted := provider.RevokeAccessKey(key.row.ref);
      if !deleted {
        return false;
      }
      ok := accessKeys.Update(key.id, key.row.(status := target));
    }
  }

  lemma RetireAllStep(cfg: Config, env: Env, d: Data, todo: seq<Snap>, target: Status)
    ensures todo == [] ==> RetireAll(cfg, env, d, todo, target) == (d, true)
    ensures todo != [] ==>
              var (d1, ok) := RetireOne(cfg, env, d, todo[0], target);
              RetireAll(cfg, env, d, todo, target)
              == if ok then RetireAll(cfg, env, d1, todo[1..], target) else (d1, false)
  {
  }

  lemma NoneActive()
    ensures OnlyActive([]) == []
  {
  }

  lemma OnlyActiveStep(keys: seq<Snap>)
    requires keys != []
    ensures OnlyActive(keys)
            == (if keys[0].row.status == Active then [keys[0]] else []) + OnlyActive(keys[1..])
  {
  }

  class AccessKeyService {
    const backend: Backend
    const box: Aead

    constructor (backend: Backend, box: Aead)
      ensures this.backend == backend && this.box == box
    {
      this.backend, this.box := backend, box;
    }

    ghost function Cfg(): Config { Config(backend.provider.strict, box) }

    /** Revokes the key on the provider, then records it. */
    method Revoke(id: KeyId) returns (ok: bool)
      requires backend.Wired()
      modifies backend.Parts()
      ensures (backend.View(), ok) == Services.Revoke(Cfg(), backend.outside.env, old(backend.View()), id)
    {
      hide RetireAll, RetireOne;
      var found, key := backend.accessKeys.FindByID(id);
      if !found || key.None? {
        return false;
      }
      var s := Snap(id, key.value);
      RetireAllStep(Cfg(), backend.outside.env, backend.View(), [s], Revoked);
      ok := backend.Retire(s, Revoked, Cfg());
      RetireAllStep(Cfg(), backend.outside.env, backend.View(), [s][1..], Revoked);
    }

    /** Skips the provider for a row that is not ACTIVE. */
    method Delete(id: KeyId) returns (ok: bool)
      requires backend.Wired()
      modifies backend.Parts()
      ensures (backend.View(), ok) == Services.Delete(Cfg(), backend.outside.env, old(backend.View()), id)
    {
      var found, key := backend.accessKeys.FindByID(id);
      if !found || key.None? {
        return false;
      }
      if key.value.status == Active {
        var deleted := backend.provider.RevokeAccessKey(key.value.ref);
        if !deleted {
          return false;
        }
      }
      ok := backend.accessKeys.Delete(id);
    }

    /** A new credential for `row` from the provider, encrypted, with fresh WebSocket paths where needed. */
    method Provision(row: Key) returns (full: Option<Key>, ref: Ref)
      requires backend.Wired()
      modifies backend.Parts()
      ensures (backend.View(), full) == Services.Provision(Cfg(), backend.outside.env, old(backend.View()), row)
      ensures full.Some? ==> ref == |old(backend.provider.issued)|
    {
      var created, newRef, credential := backend.provider.CreateAccessKey(row);
      full, ref := None, newRef;
      if !created {
        return;
      }
      var random := backend.outside.Call();
      if !random.outcome.Good? {
        return;
      }
      full := Some(WithCredential(box, row, ref, credential, random));
    }

    /** Inserts the new row; if that fails, tries to take the new key off the provider again. */
    method Create(id: KeyId, input: KeyInput) returns (ok: bool)
      requires backend.Wired()
      modifies backend.Parts()
      ensures (backend.View(), ok) == Services.Create(Cfg(), backend.outside.env, old(backend.View()), id, input)
    {
      hide Services.Provision;
      var found, server := backend.servers.FindByID(input.server);
      if !found || server.None? {
        return false;
      }
      var full, ref := Provision(NewRow(input));
      if full.None? {
        return false;
      }
      ok := backend.accessKeys.Update(id, full.value);
      if !ok {
        var _ := backend.provider.RevokeAccessKey(ref);
      }
    }

    /** Replaces the credential, keeping the row's identity. */
    method Rotate(id: KeyId) returns (ok: bool)
      requires backend.Wired()
      modifies backend.Parts()
      ensures (backend.View(), ok) == Services.Rotate(Cfg(), backend.outside.env, old(backend.View()), id)
    {
      hide Services.Provision;
      var found, key := backend.accessKeys.FindByID(id);
      if !found || key.None? {
        return false;
      }
      var deleted := backend.provider.RevokeAccessKey(key.value.ref);
      if !deleted {
        return false;
      }
      var full, _ := Provision(key.value);
      if full.None? {
        return false;
      }
      ok := backend.accessKeys.Update(id, full.value);
    }

    /** Opens the stored secret for this one answer. */
    method GetConfig(id: KeyId, domain: Text) returns (config: Option<ClientConfig.KeyConfig>)
      requires backend.Wired()
      modifies backend.outside
      ensures var env, n := backend.outside.env, old(backend.outside.calls);
              config == if env(n).outcome.Good? && env(n + 1).outcome.Good?
                        then ClientConfig.GetConfig(Cfg(), domain, backend.accessKeys.rows, backend.servers.rows, id)
                        else None
    {
      var found, key := backend.accessKeys.FindByID(id);
      if !found || key.None? {
        return None;
      }
      var known, server := backend.servers.FindByID(key.value.server);
      if !known || server.None? {
        return None;
      }
      var password := Decrypt(box, key.value.secret);
      if password.None? {
        return None;
      }
      var uri := ShadowsocksUri.Print(
        ShadowsocksUri.Endpoint(key.value.cipher, password.value, server.value.hostname, server.value.tlsPort,
                                key.value.name));
      config := Some(ClientConfig.KeyConfig(
                       uri,
                       ShadowsocksUri.BuildCrossPlatform(domain, key.value.cipher, password.value, server.value.tlsPort,
                                                         key.value.wsPath, key.value.wsUdpPath, key.value.udp)));
    }

    /** Revokes every overdue key, stopping at the first error. */
    method SweepExpired(now: int) returns (count: Option<nat>)
      requires backend.Wired()
      modifies backend.Parts()
      ensures (backend.View(), count) == SweepKeys(Cfg(), backend.outside.env, old(backend.View()), now)
    {
      hide RetireAll, RetireOne, OverdueKeys;
      var found, expired := backend.accessKeys.FindExpired(now);
      if !found {
        return None;
      }
      ghost var start := backend.View();
      for i := 0 to |expired|
        invariant RetireAll(Cfg(), backend.outside.env, start, expired, Expired)
                  == RetireAll(Cfg(), backend.outside.env, backend.View(), expired[i..], Expired)
      {
        RetireAllStep(Cfg(), backend.outside.env, backend.View(), expired[i..], Expired);
        assert expired[i..][1..] == expired[i + 1..];
        var saved := backend.Retire(expired[i], Expired, Cfg());
        if !saved {
          return None;
        }
      }
      RetireAllStep(Cfg(), backend.outside.env, backend.View(), [], Expired);
      count := Some(|expired|);
    }
  }

  class UserService {
    const backend: Backend
    const box: Aead

    constructor (backend: Backend, box: Aead)
      ensures this.backend == backend && this.box == box
    {
      this.backend, this.box := backend, box;
    }

    ghost function Cfg(): Config { Config(backend.provider.strict, box) }

    method RevokeKeys(user: UserId) returns (ok: bool)
      requires backend.Wired()
      modifies backend.Parts()
      ensures var env := backend.outside.env;
              var (d1, read) := Read(env, old(backend.View()));
              (backend.View(), ok)
              == if !read then (d1, false)
                 else RetireAll(Cfg(), env, d1,
                                OnlyActive(KeysOfUser(d1.keys, user, env(old(backend.outside.calls)).rank)), Revoked)
    {
      hide RetireAll, RetireOne, KeysOfUser, OnlyActive;
      var found, keys := backend.accessKeys.FindByUser(user);
      if !found {
        return false;
      }
      ghost var start := backend.View();
      for i := 0 to |keys|
        invariant RetireAll(Cfg(), backend.outside.env, start, OnlyActive(keys), Revoked)
                  == RetireAll(Cfg(), backend.outside.env, backend.View(), OnlyActive(keys[i..]), Revoked)
      {
        OnlyActiveStep(keys[i..]);
        RetireAllStep(Cfg(), backend.outside.env, backend.View(), OnlyActive(keys[i..]), Revoked);
        assert keys[i..][1..] == keys[i + 1..];
        if keys[i].row.status != Active {
          assert OnlyActive(keys[i..]) == OnlyActive(keys[i + 1..]);
          continue;
        }
        assert OnlyActive(keys[i..])[0] == keys[i];
        assert OnlyActive(keys[i..])[1..] == OnlyActive(keys[i + 1..]);
        var saved := backend.Retire(keys[i], Revoked, Cfg());
        if !saved {
          return false;
        }
      }
      assert OnlyActive(keys[|keys|..]) == [] by { NoneActive(); }
      RetireAllStep(Cfg(), backend.outside.env, backend.View(), [], Revoked);
      ok := true;
    }

    method RevokeListedDevices(devices: seq<Device>) returns (ok: bool)
      requires backend.Wired()
      modifies backend.Parts()
      ensures (backend.View(), ok) == RevokeDevices(backend.outside.env, old(backend.View()), devices)
    {
      for i := 0 to |devices|
        invariant RevokeDevices(backend.outside.env, old(backend.View()), devices)
                  == RevokeDevices(backend.outside.env, backend.View(), devices[i..])
      {
        var device := devices[i];
        assert devices[i..][0] == device && devices[i..][1..] == devices[i + 1..];
        if device.status == DeviceRevoked {
          continue;
        }
        var saved := backend.devices.Update(device.(status := DeviceRevoked));
        if !saved {
          return false;
        }
      }
      ok := true;
    }

    /** The user's ACTIVE keys, then the listed devices; the listing asks for a page of 1000. */
    method RevokeAllAccess(user: UserId) returns (ok: bool)
      requires backend.Wired()
      modifies backend.Parts()
      ensures (backend.View(), ok)
              == Services.RevokeAllAccess(Cfg(), backend.outside.env, old(backend.View()), user)
    {
      hide RetireAll, RevokeDevices, KeysOfUser, OnlyActive, DevicesOf, Pagination.Page;
      var retired := RevokeKeys(user);
      if !retired {
        return false;
      }
      var listed, devices := backend.devices.ListOfUser(user, Pagination.Request(0, 1000));
      if !listed {
        return false;
      }
      ok := RevokeListedDevices(devices);
    }

    method Disable(user: UserId) returns (ok: bool)
      requires backend.Wired()
      modifies backend.Parts()
      ensures (backend.View(), ok) == Services.Disable(Cfg(), backend.outside.env, old(backend.View()), user)
    {
      hide Services.RevokeAllAccess;
      var found, row := backend.users.FindByID(user);
      if !found || row.None? {
        return false;
      }
      var saved := backend.users.Update(user, row.value.(status := UserDisabled));
      if !saved {
        return false;
      }
      ok := RevokeAllAccess(user);
    }

    method Delete(user: UserId) returns (ok: bool)
      requires backend.Wired()
      modifies backend.Parts()
      ensures (backend.View(), ok) == Services.DeleteUser(Cfg(), backend.outside.env, old(backend.View()), user)
    {
      hide Services.RevokeAllAccess;
      var found, row := backend.users.FindByID(user);
      if !found || row.None? {
        return false;
      }
      var revoked := RevokeAllAccess(user);
      if !revoked {
        return false;
      }
      ok := backend.users.Delete(user);
    }

    /** Stores each lapsed user as EXPIRED, then revokes their access, stopping at the first error. */
    method SweepExpired(now: int) returns (count: Option<nat>)
      requires backend.Wired()
      modifies backend.Parts()
      ensures (backend.View(), count) == SweepUsers(Cfg(), backend.outside.env, old(backend.View()), now)
    {
      hide Services.RevokeAllAccess, LapsedUsers;
      var found, expired := backend.users.FindExpired(now);
      var read := backend.users.rows;
      if !found {
        return None;
      }
      ghost var start := backend.View();
      for i := 0 to |expired|
        invariant ExpireUsers(Cfg(), backend.outside.env, start, expired, read)
                  == ExpireUsers(Cfg(), backend.outside.env, backend.View(), expired[i..], read)
      {
        var user := expired[i];
        assert expired[i..][0] == user && expired[i..][1..] == expired[i + 1..];
        var saved := backend.users.Update(user, read[user].(status := UserExpired));
        if !saved {
          return None;
        }
        var revoked := RevokeAllAccess(user);
        if !revoked {
          return None;
        }
      }
      count := Some(|expired|);
    }
  }

  /** The background ticker; its loop does nothing but this at every tick. */
  class ExpirationTicker {
    const users: UserService
    const keys: AccessKeyService

    constructor (users: UserService, keys: AccessKeyService)
      ensures this.users == users && this.keys == keys
    {
      this.users, this.keys := users, keys;
    }

    method Tick(usersNow: int, keysNow: int) returns (expiredUsers: Option<nat>, expiredKeys: Option<nat>)
      requires users.backend == keys.backend && users.box == keys.box && users.backend.Wired()
      modifies users.backend.Parts()
      ensures (users.backend.View(), expiredUsers, expiredKeys)
              == Services.Tick(users.Cfg(), users.backend.outside.env, old(users.backend.View()), usersNow, keysNow)
    {
      expiredUsers := users.SweepExpired(usersNow);
      expiredKeys := keys.SweepExpired(keysNow);
    }
  }
}
