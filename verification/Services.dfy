/**
 What each service call computes, as a function of the tables, the provider and the outcome of
 every external call it makes. The classes in `ServiceClasses` are proved to compute these.
 */
module Services {
  import opened Bytes
  import opened Model
  import Pagination

  datatype UserStatus = UserActive | UserDisabled | UserExpired
  datatype User = User(status: UserStatus, expiresAt: Option<int>, deleted: bool)
  datatype DeviceStatus = DeviceActive | DeviceDisabled | DeviceRevoked
  datatype Device = Device(id: nat, user: UserId, status: DeviceStatus)
  datatype Server = Server(hostname: Text, tlsPort: int)

  /** The control plane's tables (devices newest first), the data plane, and the number of calls made so far. */
  datatype Data = Data(users: map<UserId, User>, keys: map<KeyId, Key>, devices: seq<Device>,
                       servers: map<ServerId, Server>, remote: Remote, calls: nat)

  /** How the n-th external call turns out. */
  type Env = nat -> Choice

  ghost predicate FaultFree(env: Env) { forall n :: env(n).outcome.Good? }

  // Single calls. Each returns the data after the call and whether the caller sees success.

  function Read(env: Env, d: Data): (Data, bool) {
    (d.(calls := d.calls + 1), env(d.calls).outcome.Good?)
  }

  function DeleteOnProvider(cfg: Config, env: Env, d: Data, ref: Ref): (Data, bool) {
    var (remote, ok) := d.remote.Delete(cfg.strict, ref, env(d.calls).outcome);
    (d.(remote := remote, calls := d.calls + 1), ok)
  }

  /** The POST, and the reference the new key gets. */
  function CreateOnProvider(env: Env, d: Data): (Data, bool) {
    var (remote, ok) := d.remote.Create(env(d.calls).credential, env(d.calls).outcome);
    (d.(remote := remote, calls := d.calls + 1), ok)
  }

  function SaveKey(env: Env, d: Data, id: KeyId, row: Key): (Data, bool) {
    (d.(keys := if env(d.calls).outcome.Bad? then d.keys else d.keys[id := row], calls := d.calls + 1),
     env(d.calls).outcome.Good?)
  }

  function EraseKey(env: Env, d: Data, id: KeyId): (Data, bool) {
    (d.(keys := if env(d.calls).outcome.Bad? then d.keys else d.keys - {id}, calls := d.calls + 1),
     env(d.calls).outcome.Good?)
  }

  function SaveUser(env: Env, d: Data, id: UserId, user: User): (Data, bool) {
    (d.(users := if env(d.calls).outcome.Bad? then d.users else d.users[id := user], calls := d.calls + 1),
     env(d.calls).outcome.Good?)
  }

  /** The soft deletion of a user row. */
  function HideUser(env: Env, d: Data, id: UserId): (Data, bool) {
    (d.(users := if env(d.calls).outcome.Bad? || id !in d.users then d.users
                 else d.users[id := d.users[id].(deleted := true)],
        calls := d.calls + 1),
     env(d.calls).outcome.Good?)
  }

  /** The device table with the row of that identifier replaced. */
  function ReplaceDevice(devices: seq<Device>, device: Device): (s: seq<Device>)
    ensures |s| == |devices|
    ensures forall i :: 0 <= i < |s| ==> s[i] == if devices[i].id == device.id then device else devices[i]
  {
    seq(|devices|, i requires 0 <= i < |devices| => if devices[i].id == device.id then device else devices[i])
  }

  function SaveDevice(env: Env, d: Data, device: Device): (Data, bool) {
    (d.(devices := if env(d.calls).outcome.Bad? then d.devices else ReplaceDevice(d.devices, device),
        calls := d.calls + 1),
     env(d.calls).outcome.Good?)
  }

  // Access keys.

  /** Delete one key on the provider, then save its row with the target status. */
  function RetireOne(cfg: Config, env: Env, d: Data, s: Snap, target: Status): (Data, bool) {
    var (d1, deleted) := DeleteOnProvider(cfg, env, d, s.row.ref);
    if !deleted then (d1, false) else SaveKey(env, d1, s.id, s.row.(status := target))
  }

  /** The rows in order, stopping at the first error. */
  function RetireAll(cfg: Config, env: Env, d: Data, todo: seq<Snap>, target: Status): (Data, bool)
    decreases |todo|
  {
    if todo == [] then (d, true)
    else
      var (d1, ok) := RetireOne(cfg, env, d, todo[0], target);
      if !ok then (d1, false) else RetireAll(cfg, env, d1, todo[1..], target)
  }

  function Revoke(cfg: Config, env: Env, d: Data, id: KeyId): (Data, bool) {
    var (d1, ok) := Read(env, d);
    if !ok || id !in d1.keys then (d1, false)
    else RetireAll(cfg, env, d1, [Snap(id, d1.keys[id])], Revoked)
  }

  function Delete(cfg: Config, env: Env, d: Data, id: KeyId): (Data, bool) {
    var (d1, ok) := Read(env, d);
    if !ok || id !in d1.keys then (d1, false)
    else if d1.keys[id].status != Active then EraseKey(env, d1, id)
    else
      var (d2, deleted) := DeleteOnProvider(cfg, env, d1, d1.keys[id].ref);
      if !deleted then (d2, false) else EraseKey(env, d2, id)
  }

  /** `n` calls in a row that only have to succeed, from the `from`-th on: where they end, and how. */
  function CountCalls(env: Env, from: nat, n: nat): (nat, bool)
    decreases n
  {
    if n == 0 then (from, true)
    else if !env(from).outcome.Good? then (from + 1, false)
    else CountCalls(env, from + 1, n - 1)
  }

  lemma FewCalls(env: Env, from: nat)
    ensures CountCalls(env, from, 0) == (from, true)
    ensures CountCalls(env, from, 1) == (from + 1, env(from).outcome.Good?)
    ensures CountCalls(env, from, 2)
            == if env(from).outcome.Good? then (from + 2, env(from + 1).outcome.Good?) else (from + 1, false)
  {
    assert CountCalls(env, from + 1, 1) == (from + 2, env(from + 1).outcome.Good?);
  }

  function CallAll(env: Env, d: Data, n: nat): (Data, bool) {
    var (calls, ok) := CountCalls(env, d.calls, n);
    (d.(calls := calls), ok)
  }

  /** Provision a key for `row` and fill in its credential: POST, naming, limit, then fresh randomness. */
  function Provision(cfg: Config, env: Env, d: Data, row: Key): (Data, Option<Key>) {
    var ref := |d.remote.issued|;
    var (d1, created) := CreateOnProvider(env, d);
    if !created then (d1, None)
    else
      var (d2, configured) := CallAll(env, d1, SetupCalls(row));
      if !configured then (d2, None)
      else
        var (d3, sealed) := Read(env, d2);
        if !sealed then (d3, None)
        else (d3, Some(WithCredential(cfg.box, row, ref, env(d.calls).credential, env(d2.calls))))
  }

  function Rotate(cfg: Config, env: Env, d: Data, id: KeyId): (Data, bool) {
    var (d1, ok) := Read(env, d);
    if !ok || id !in d1.keys then (d1, false)
    else
      var (d2, deleted) := DeleteOnProvider(cfg, env, d1, d1.keys[id].ref);
      if !deleted then (d2, false)
      else
        var (d3, row) := Provision(cfg, env, d2, d1.keys[id]);
        if row.None? then (d3, false) else SaveKey(env, d3, id, row.value)
  }

  /** `id` is the identifier the new row gets. */
  function Create(cfg: Config, env: Env, d: Data, id: KeyId, input: KeyInput): (Data, bool) {
    var (d1, ok) := Read(env, d);
    if !ok || input.server !in d1.servers then (d1, false)
    else
      var ref := |d1.remote.issued|;
      var (d2, full) := Provision(cfg, env, d1, NewRow(input));
      if full.None? then (d2, false)
      else
        var (d3, saved) := SaveKey(env, d2, id, full.value);
        if saved then (d3, true) else (DeleteOnProvider(cfg, env, d3, ref).0, false)
  }

  /** The key sweep; the count is reported only when nothing failed. */
  function SweepKeys(cfg: Config, env: Env, d: Data, now: int): (Data, Option<nat>) {
    var (d1, ok) := Read(env, d);
    if !ok then (d1, None)
    else
      var todo := OverdueKeys(d1.keys, now, env(d.calls).rank);
      var (d2, done) := RetireAll(cfg, env, d1, todo, Expired);
      (d2, if done then Some(|todo|) else None)
  }

  // Users and devices.

  /** A user's devices, in the table's order. */
  function DevicesOf(devices: seq<Device>, user: UserId): seq<Device> {
    if devices == [] then []
    else
      var last := devices[|devices| - 1];
      DevicesOf(devices[..|devices| - 1], user) + if last.user == user then [last] else []
  }

  /** The listing the cascade works on: it asks for a page of 1000. */
  function CascadeDevices(devices: seq<Device>, user: UserId): seq<Device> {
    Pagination.Page(DevicesOf(devices, user), Pagination.Request(0, 1000))
  }

  function RevokeDevices(env: Env, d: Data, todo: seq<Device>): (Data, bool)
    decreases |todo|
  {
    if todo == [] then (d, true)
    else if todo[0].status == DeviceRevoked then RevokeDevices(env, d, todo[1..])
    else
      var (d1, ok) := SaveDevice(env, d, todo[0].(status := DeviceRevoked));
      if !ok then (d1, false) else RevokeDevices(env, d1, todo[1..])
  }

  /** The cascade: the user's ACTIVE keys, then the listed devices. */
  function RevokeAllAccess(cfg: Config, env: Env, d: Data, user: UserId): (Data, bool) {
    var (d1, ok) := Read(env, d);
    if !ok then (d1, false)
    else
      var (d2, retired) :=
        RetireAll(cfg, env, d1, OnlyActive(KeysOfUser(d1.keys, user, env(d.calls).rank)), Revoked);
      if !retired then (d2, false)
      else
        var (d3, listed) := Read(env, d2);
        if !listed then (d3, false) else RevokeDevices(env, d3, CascadeDevices(d3.devices, user))
  }

  predicate Known(d: Data, user: UserId) { user in d.users && !d.users[user].deleted }

  function Disable(cfg: Config, env: Env, d: Data, user: UserId): (Data, bool) {
    var (d1, ok) := Read(env, d);
    if !ok || !Known(d1, user) then (d1, false)
    else
      var (d2, saved) := SaveUser(env, d1, user, d1.users[user].(status := UserDisabled));
      if !saved then (d2, false) else RevokeAllAccess(cfg, env, d2, user)
  }

  /** The cascade, then a soft deletion of the user row. */
  function DeleteUser(cfg: Config, env: Env, d: Data, user: UserId): (Data, bool) {
    var (d1, ok) := Read(env, d);
    if !ok || !Known(d1, user) then (d1, false)
    else
      var (d2, revoked) := RevokeAllAccess(cfg, env, d1, user);
      if !revoked then (d2, false) else HideUser(env, d2, user)
  }

  predicate Lapsed(user: User, now: int) {
    !user.deleted && user.status == UserActive && user.expiresAt.Some? && user.expiresAt.value < now
  }

  function LapsedUsers(users: map<UserId, User>, now: int, rank: nat -> nat): (s: seq<UserId>)
    ensures forall u :: u in s
              <==> && u in users && users[u].status == UserActive && !users[u].deleted
                   && users[u].expiresAt.Some? && users[u].expiresAt.value < now
    ensures forall i, j :: 0 <= i < j < |s| ==> s[i] != s[j]
  {
    Arrange((set u | u in users && Lapsed(users[u], now)), rank)
  }

  /** Each user is stored as EXPIRED first and loses their access afterwards. */
  function ExpireUsers(cfg: Config, env: Env, d: Data, todo: seq<UserId>, read: map<UserId, User>): (Data, bool)
    requires forall u :: u in todo ==> u in read
    decreases |todo|
  {
    if todo == [] then (d, true)
    else
      var (d1, saved) := SaveUser(env, d, todo[0], read[todo[0]].(status := UserExpired));
      if !saved then (d1, false)
      else
        var (d2, revoked) := RevokeAllAccess(cfg, env, d1, todo[0]);
        if !revoked then (d2, false) else ExpireUsers(cfg, env, d2, todo[1..], read)
  }

  function SweepUsers(cfg: Config, env: Env, d: Data, now: int): (Data, Option<nat>) {
    var (d1, ok) := Read(env, d);
    if !ok then (d1, None)
    else
      var todo := LapsedUsers(d1.users, now, env(d.calls).rank);
      var (d2, done) := ExpireUsers(cfg, env, d1, todo, d1.users);
      (d2, if done then Some(|todo|) else None)
  }

  /** One tick of the expiration ticker: the user sweep, then the key sweep whatever came of it. */
  function Tick(cfg: Config, env: Env, d: Data, usersNow: int, keysNow: int): (Data, Option<nat>, Option<nat>) {
    var (d1, users) := SweepUsers(cfg, env, d, usersNow);
    var (d2, keys) := SweepKeys(cfg, env, d1, keysNow);
    (d2, users, keys)
  }
}
