/** The control plane's rows, the data plane's state, and how one external call can turn out. */
module Model {
  import opened Bytes
  import opened SecretBox
  import Base64

  type KeyId = nat
  type UserId = nat
  type ServerId = nat

  /** The provider's own identifier of a key; references are handed out once, in order. */
  type Ref = nat

  datatype Status = Active | Revoked | Expired

  /** What the provider hands back with a new key. */
  datatype Credential = Credential(cipher: Text, password: Text, port: int)

  /** One row of the access_keys table. */
  datatype Key = Key(
    user: UserId, server: ServerId, name: Text,
    ref: Ref, secret: Text, port: int, cipher: Text,
    tcp: bool, udp: bool, webSocket: bool, wsPath: Text, wsUdpPath: Text,
    expiresAt: Option<int>, limit: int, used: int, status: Status)

  /** What a caller asks for when creating a key. */
  datatype KeyInput = KeyInput(user: UserId, server: ServerId, name: Text, tcp: bool, udp: bool, webSocket: bool,
                               expiresAt: Option<int>, limit: int)

  /** The row of a new key, before it has a credential. */
  function NewRow(input: KeyInput): Key {
    Key(input.user, input.server, input.name, 0, [], 0, [], input.tcp, input.udp, input.webSocket, [], [],
        input.expiresAt, input.limit, 0, Active)
  }

  /** A row as some request read it. */
  datatype Snap = Snap(id: KeyId, row: Key)

  /**
   How a call to the database or the provider ends: it succeeds, it fails without effect,
   or it takes effect and is still reported as failed.
   */
  datatype Outcome = Good | Bad | Lost

  const PATH_BYTES: nat := 16

  type PathSeed = s: Text | |s| == PATH_BYTES witness seq(PATH_BYTES, _ => 0)

  /** The unguessable path of a WebSocket route, from 16 random bytes. */
  function SecretPath(random: PathSeed): Text { Base64.Encode(Base64.UrlSafe, random) }

  /** Different randomness gives different paths, and a path needs no escaping in a URL. */
  lemma SecretPathsAreUrlSafe(random: PathSeed, other: PathSeed)
    ensures |SecretPath(random)| == 22
    ensures forall b :: b in SecretPath(random) ==> IsAlphanumeric(b) || b in {45, 95}
    ensures SecretPath(random) == SecretPath(other) <==> random == other
  {
    Base64.DecodeEncode(Base64.UrlSafe, random);
    Base64.DecodeEncode(Base64.UrlSafe, other);
    assert forall b :: Base64.InAlphabet(Base64.UrlSafe, b) ==> IsAlphanumeric(b) || b in {45, 95};
  }

  /** Everything the outside world contributes to one call. */
  datatype Choice = Choice(outcome: Outcome, credential: Credential, nonce: Nonce,
                           tcpRandom: PathSeed, udpRandom: PathSeed, rank: nat -> nat)

  /**
   The fixed surroundings. A strict provider rejects the deletion of a key it does not have,
   as a non-2xx answer is an error for the Outline client; the in-memory one accepts it.
   */
  datatype Config = Config(strict: bool, box: Aead)

  /** The data plane: the keys that work, every credential ever issued, the deletions it confirmed. */
  datatype Remote = Remote(live: set<Ref>, issued: seq<Credential>, revoked: seq<Ref>) {

    /** DELETE of one key, and whether the caller sees success. */
    function Delete(strict: bool, ref: Ref, outcome: Outcome): (Remote, bool) {
      match outcome
      case Bad => (this, false)
      case Lost => (this.(live := live - {ref}), false)
      case Good =>
        if strict && ref !in live then (this, false)
        else (this.(live := live - {ref}, revoked := revoked + [ref]), true)
    }

    /** POST of a new key under the next unused reference, and whether the caller sees success. */
    function Create(credential: Credential, outcome: Outcome): (Remote, bool) {
      if outcome.Bad? then (this, false)
      else (this.(live := live + {|issued|}, issued := issued + [credential]), outcome.Good?)
    }
  }

  /** The calls that follow the POST: naming the key and setting its data limit, each only if asked for. */
  function SetupCalls(row: Key): nat {
    (if row.name != [] then 1 else 0) + (if row.limit > 0 then 1 else 0)
  }

  /** `row` carrying a freshly issued credential, and fresh WebSocket paths where it uses them. */
  function WithCredential(box: Aead, row: Key, ref: Ref, credential: Credential, c: Choice): Key {
    row.(ref := ref,
         secret := Encrypt(box, c.nonce, credential.password),
         port := credential.port,
         cipher := credential.cipher,
         status := Active,
         wsPath := if row.webSocket then SecretPath(c.tcpRandom) else row.wsPath,
         wsUdpPath := if row.webSocket && row.udp then SecretPath(c.udpRandom) else row.wsUdpPath)
  }

  /** The row's own fields describe exactly this credential. */
  predicate Describes(box: Aead, row: Key, credential: Credential) {
    row.cipher == credential.cipher && row.port == credential.port
    && Decrypt(box, row.secret) == Some(credential.password)
  }

  /** `x` comes before `y` when rows are returned by `rank`, ties broken by identifier. */
  predicate Before(rank: nat -> nat, x: nat, y: nat) {
    rank(x) < rank(y) || (rank(x) == rank(y) && x <= y)
  }

  lemma {:induction false} FindFirst(ids: set<nat>, rank: nat -> nat) returns (x: nat)
    requires ids != {}
    ensures x in ids && forall y :: y in ids ==> Before(rank, x, y)
  {
    var z :| z in ids;
    x := z;
    if ids != {z} {
      var first := FindFirst(ids - {z}, rank);
      x := if Before(rank, z, first) then z else first;
      forall y | y in ids ensures Before(rank, x, y) {
        assert y == z || y in ids - {z};
      }
    }
  }

  lemma HasFirst(ids: set<nat>, rank: nat -> nat)
    requires ids != {}
    ensures exists x :: x in ids && forall y :: y in ids ==> Before(rank, x, y)
  {
    var first := FindFirst(ids, rank);
  }

  /** The identifiers in the order the database happens to return them; any order is some rank's order. */
  function Arrange(ids: set<nat>, rank: nat -> nat): (s: seq<nat>)
    ensures forall x :: x in s <==> x in ids
    ensures forall i, j :: 0 <= i < j < |s| ==> s[i] != s[j]
    ensures |s| == |ids|
  {
    if ids == {} then []
    else
      HasFirst(ids, rank);
      var x :| x in ids && forall y :: y in ids ==> Before(rank, x, y);
      [x] + Arrange(ids - {x}, rank)
  }

  /** The rows whose identifiers are listed, as one query reads them. */
  function ReadRows(keys: map<KeyId, Key>, ids: seq<KeyId>): (s: seq<Snap>)
    requires forall id :: id in ids ==> id in keys
    ensures |s| == |ids|
    ensures forall i :: 0 <= i < |s| ==> s[i] == Snap(ids[i], keys[ids[i]])
  {
    seq(|ids|, i requires 0 <= i < |ids| => Snap(ids[i], keys[ids[i]]))
  }

  /** The rows among `s` still ACTIVE when they were read. */
  function OnlyActive(s: seq<Snap>): (t: seq<Snap>)
    ensures forall x :: x in t <==> x in s && x.row.status == Active
  {
    if s == [] then []
    else (if s[0].row.status == Active then [s[0]] else []) + OnlyActive(s[1..])
  }

  /** A user's keys, in the order of one query. */
  function KeysOfUser(keys: map<KeyId, Key>, user: UserId, rank: nat -> nat): seq<Snap> {
    ReadRows(keys, Arrange((set id | id in keys && keys[id].user == user), rank))
  }

  predicate Overdue(key: Key, now: int) {
    key.status == Active && key.expiresAt.Some? && key.expiresAt.value < now
  }

  /** The ACTIVE keys whose expiry lies before `now`, in the order of one query. */
  function OverdueKeys(keys: map<KeyId, Key>, now: int, rank: nat -> nat): seq<Snap> {
    ReadRows(keys, Arrange((set id | id in keys && Overdue(keys[id], now)), rank))
  }

  /** A query returns exactly the rows that match, whatever its order. */
  lemma QueryReads(keys: map<KeyId, Key>, ids: set<KeyId>, rank: nat -> nat)
    requires ids <= keys.Keys
    ensures forall s: Snap :: s in ReadRows(keys, Arrange(ids, rank)) <==> s.id in ids && s.row == keys[s.id]
  {
    var order := Arrange(ids, rank);
    var rows := ReadRows(keys, order);
    forall s: Snap | s.id in ids && s.row == keys[s.id] ensures s in rows {
      var i :| 0 <= i < |order| && order[i] == s.id;
      assert rows[i] == s;
    }
    forall s: Snap | s in rows ensures s.id in ids && s.row == keys[s.id] {
      var i :| 0 <= i < |rows| && rows[i] == s;
      assert order[i] in order;
    }
  }

  /** A cascade's batch is exactly the user's rows that are ACTIVE. */
  lemma CascadeReads(keys: map<KeyId, Key>, user: UserId, rank: nat -> nat)
    ensures forall s: Snap :: s in OnlyActive(KeysOfUser(keys, user, rank))
              <==> s.id in keys && s.row == keys[s.id] && s.row.user == user && s.row.status == Active
  {
    QueryReads(keys, (set id | id in keys && keys[id].user == user), rank);
  }

  /** A sweep's batch is exactly the ACTIVE rows with an expiry before `now`. */
  lemma SweepReads(keys: map<KeyId, Key>, now: int, rank: nat -> nat)
    ensures forall s: Snap :: s in OverdueKeys(keys, now, rank)
              <==> && s.id in keys && s.row == keys[s.id]
                   && s.row.status == Active && s.row.expiresAt.Some? && s.row.expiresAt.value < now
  {
    QueryReads(keys, (set id | id in keys && Overdue(keys[id], now)), rank);
  }
}
