/** The cache of Google's signing keys, under any interleaving of lookups and refreshes. */
module SigningKeys {
  import opened Bytes
  import Base64
  import Pagination

  /** One entry of a published key set. */
  datatype Jwk = Jwk(kid: Text, kty: Text, n: Text, e: Text)

  datatype PublicKey = PublicKey(modulus: nat, exponent: int)

  const RSA: Text := [82, 83, 65]

  function BigEndian(s: Text): nat {
    if s == [] then 0 else BigEndian(s[..|s| - 1]) * 256 + s[|s| - 1]
  }

  /** The RSA key of an entry, if it is one and both numbers decode; the exponent keeps its low 64 bits. */
  function PublicKeyOf(k: Jwk): Option<PublicKey> {
    var n, e := Base64.Decode(Base64.UrlSafe, k.n), Base64.Decode(Base64.UrlSafe, k.e);
    if k.kty != RSA || n.None? || e.None? then None
    else Some(PublicKey(BigEndian(n.value), Pagination.Wrap64(BigEndian(e.value))))
  }

  /** A number as big-endian bytes, the way key sets publish it. */
  function Octets(n: nat): Text {
    if n == 0 then [] else Octets(n / 256) + [n % 256]
  }

  lemma {:induction false} BigEndianOctets(n: nat)
    ensures BigEndian(Octets(n)) == n
    decreases n
  {
    if n > 0 {
      BigEndianOctets(n / 256);
      assert Octets(n)[..|Octets(n)| - 1] == Octets(n / 256);
    }
  }

  /** Modulus and exponent of a published RSA key are read back, and an entry of any other type is not used. */
  lemma PublishedKeysAreRead(kid: Text, kty: Text, modulus: nat, exponent: nat)
    requires exponent <= Pagination.MAX_INT64
    ensures var k := Jwk(kid, kty, Base64.Encode(Base64.UrlSafe, Octets(modulus)),
                         Base64.Encode(Base64.UrlSafe, Octets(exponent)));
            PublicKeyOf(k) == if kty == ['R' as int, 'S' as int, 'A' as int] then Some(PublicKey(modulus, exponent))
                              else None
  {
    Base64.DecodeEncode(Base64.UrlSafe, Octets(modulus));
    Base64.DecodeEncode(Base64.UrlSafe, Octets(exponent));
    BigEndianOctets(modulus);
    BigEndianOctets(exponent);
  }

  /** The key a set publishes under `kid`: that of its last usable entry with this identifier. */
  function LastValid(entries: seq<Jwk>, kid: Text): Option<PublicKey> {
    if entries == [] then None
    else
      var last := entries[|entries| - 1];
      if last.kid == kid && PublicKeyOf(last).Some? then PublicKeyOf(last)
      else LastValid(entries[..|entries| - 1], kid)
  }

  type Keys = map<Text, PublicKey>

  /** The map holds exactly what the set publishes. */
  ghost predicate Represents(keys: Keys, entries: seq<Jwk>) {
    forall kid: Text :: (kid in keys <==> LastValid(entries, kid).Some?)
                  && (kid in keys ==> LastValid(entries, kid) == Some(keys[kid]))
  }

  function KeyMap(entries: seq<Jwk>): (keys: Keys)
    ensures Represents(keys, entries)
  {
    if entries == [] then map[]
    else
      var last, before := entries[|entries| - 1], KeyMap(entries[..|entries| - 1]);
      if PublicKeyOf(last).None? then before else before[last.kid := PublicKeyOf(last).value]
  }

  // Times are in nanoseconds.

  const SECOND: int := 1_000_000_000
  const HOUR: int := 3600 * SECOND

  /** How long a response stays usable: its max-age if that is a positive 64-bit duration, else an hour. */
  function Lifetime(maxAge: Option<int>): (d: int)
    ensures d > 0
  {
    if maxAge.None? || maxAge.value <= 0 then HOUR
    else
      var d := Pagination.Wrap64(maxAge.value * SECOND);
      if d > 0 then d else HOUR
  }

  /** A response without a usable max-age stays for an hour, one with a sensible max-age for that many seconds. */
  lemma LifetimeIsExact(maxAge: int)
    ensures Lifetime(None) == 3_600_000_000_000
    ensures maxAge <= 0 ==> Lifetime(Some(maxAge)) == 3_600_000_000_000
    ensures 0 < maxAge <= 9_223_372_036 ==> Lifetime(Some(maxAge)) == maxAge * 1_000_000_000
  {
  }

  datatype Response = Response(keys: seq<Jwk>, maxAge: Option<int>)

  datatype Cache = Cache(keys: Keys, expiresAt: int)

  function Lookup(cache: Cache, kid: Text, now: int): Option<PublicKey> {
    if now > cache.expiresAt || kid !in cache.keys then None else Some(cache.keys[kid])
  }

  function Publish(response: Response, now: int): Cache {
    Cache(KeyMap(response.keys), now + Lifetime(response.maxAge))
  }

  // Many calls at once.

  type CallId = nat

  /** Where a call is: before its first lookup, its request to Google, its store, or its second lookup. */
  datatype Stage = First(kid: Text) | Fetching(kid: Text) | Storing(kid: Text, response: Response) | Second(kid: Text)

  /** A stored set: what was published, and until when it may be used. */
  datatype Stored = Stored(keys: seq<Jwk>, expiresAt: int)

  /** History: an answer, when it was looked up, and how many sets had been stored by then. */
  datatype Answer = Answer(call: CallId, kid: Text, key: PublicKey, at: int, generation: nat, first: bool)

  datatype World = World(cache: Cache, stored: seq<Stored>, calls: map<CallId, Stage>,
                         fetches: map<CallId, nat>, answers: seq<Answer>)

  datatype Event =
    | Begin(call: CallId, kid: Text)
    | Advance(call: CallId, now: int, fetched: Option<Response>)

  /** Nothing stored, and the zero time as expiry. */
  function Init(zero: int): World { World(Cache(map[], zero), [], map[], map[], []) }

  function Respond(w: World, call: CallId, key: PublicKey, now: int): World
    requires call in w.calls && (w.calls[call].First? || w.calls[call].Second?)
  {
    var stage := w.calls[call];
    w.(calls := w.calls - {call},
       answers := w.answers + [Answer(call, stage.kid, key, now, |w.stored|, stage.First?)])
  }

  function Next(w: World, e: Event): World {
    match e
    case Begin(call, kid) =>
      if call in w.fetches || kid == [] then w
      else w.(calls := w.calls[call := First(kid)], fetches := w.fetches[call := 0])
    case Advance(call, now, fetched) =>
      if call !in w.calls then w
      else match w.calls[call]
        case First(kid) =>
          var key := Lookup(w.cache, kid, now);
          if key.Some? then Respond(w, call, key.value, now) else w.(calls := w.calls[call := Fetching(kid)])
        case Fetching(kid) =>
          var w1 := w.(fetches := if call in w.fetches then w.fetches[call := w.fetches[call] + 1] else w.fetches);
          if fetched.None? then w1.(calls := w.calls - {call})
          else w1.(calls := w.calls[call := Storing(kid, fetched.value)])
        case Storing(kid, response) =>
          var cache := Publish(response, now);
          w.(cache := cache, stored := w.stored + [Stored(response.keys, cache.expiresAt)],
             calls := w.calls[call := Second(kid)])
        case Second(kid) =>
          var key := Lookup(w.cache, kid, now);
          if key.Some? then Respond(w, call, key.value, now) else w.(calls := w.calls - {call})
  }

  function Run(w: World, es: seq<Event>): World
    decreases |es|
  {
    if es == [] then w else Run(Next(w, es[0]), es[1..])
  }

  /** An answer came from the newest set stored at its lookup, unexpired, under the set's own entry for the kid. */
  predicate Genuine(w: World, a: Answer) {
    && 0 < a.generation <= |w.stored|
    && a.at <= w.stored[a.generation - 1].expiresAt
    && LastValid(w.stored[a.generation - 1].keys, a.kid) == Some(a.key)
  }

  /** At most one request to Google per call, and none by a call answered from its first lookup. */
  predicate Frugal(w: World, call: CallId)
    requires call in w.fetches
  {
    && w.fetches[call] <= 1
    && (call in w.calls && (w.calls[call].First? || w.calls[call].Fetching?) ==> w.fetches[call] == 0)
  }

  ghost predicate Inv(w: World) {
    && (w.stored == [] ==> w.cache.keys == map[])
    && (w.stored != [] ==>
          var newest := w.stored[|w.stored| - 1];
          Represents(w.cache.keys, newest.keys) && w.cache.expiresAt == newest.expiresAt)
    && (forall a :: a in w.answers ==> Genuine(w, a))
    && (forall call :: call in w.calls ==> call in w.fetches)
    && (forall call :: call in w.fetches ==> Frugal(w, call))
    && (forall a :: a in w.answers && a.first ==> a.call in w.fetches && a.call !in w.calls && w.fetches[a.call] == 0)
  }

  lemma LookupIsGenuine(w: World, kid: Text, now: int)
    requires Inv(w) && Lookup(w.cache, kid, now).Some?
    ensures w.stored != [] && now <= w.stored[|w.stored| - 1].expiresAt
    ensures LastValid(w.stored[|w.stored| - 1].keys, kid) == Lookup(w.cache, kid, now)
  {
  }

  lemma NextKeeps(w: World, e: Event)
    requires Inv(w)
    ensures Inv(Next(w, e))
  {
    hide KeyMap, PublicKeyOf, LastValid, Lifetime, Represents;
    var w1 := Next(w, e);
    if e.Advance? && e.call in w.calls {
      var stage := w.calls[e.call];
      if (stage.First? || stage.Second?) && Lookup(w.cache, stage.kid, e.now).Some? {
        LookupIsGenuine(w, stage.kid, e.now);
      }
    }
    forall a | a in w1.answers ensures Genuine(w1, a) {
      if a in w.answers {
        assert Genuine(w, a);
      }
    }
  }

  lemma {:induction false} RunKeeps(w: World, es: seq<Event>)
    requires Inv(w)
    ensures Inv(Run(w, es))
    decreases |es|
  {
    if es != [] {
      NextKeeps(w, es[0]);
      RunKeeps(Next(w, es[0]), es[1..]);
    }
  }

  /**
   Every key returned, in any interleaving: it is the one the newest stored set published for the kid,
   looked up before that set expired; its call made at most one request, and none on a first hit.
   */
  lemma AnswersAreGenuine(zero: int, es: seq<Event>, a: Answer)
    requires a in Run(Init(zero), es).answers
    ensures var w := Run(Init(zero), es);
            Genuine(w, a) && a.call in w.fetches && w.fetches[a.call] <= (if a.first then 0 else 1)
  {
    RunKeeps(Init(zero), es);
    AnswersAreOfCalls(Init(zero), es);
    var w := Run(Init(zero), es);
    assert Frugal(w, a.call);
  }

  /** In any run, a lookup answers exactly when the newest stored set is unexpired and publishes the kid. */
  lemma LookupsAnswerExactlyWhen(zero: int, es: seq<Event>, call: CallId, now: int, fetched: Option<Response>)
    requires var w := Run(Init(zero), es); call in w.calls && (w.calls[call].First? || w.calls[call].Second?)
    ensures var w := Run(Init(zero), es);
            var w1 := Next(w, Advance(call, now, fetched));
            |w1.answers| == |w.answers| + 1
            <==> && w.stored != [] && now <= w.stored[|w.stored| - 1].expiresAt
                 && LastValid(w.stored[|w.stored| - 1].keys, w.calls[call].kid).Some?
  {
    hide Run, LastValid, KeyMap, Lifetime;
    RunKeeps(Init(zero), es);
    var w := Run(Init(zero), es);
    assert w.stored == [] ==> w.cache.keys == map[];
  }

  /** Every call, answered or not, makes at most one request to Google. */
  lemma CallsFetchOnce(zero: int, es: seq<Event>)
    ensures var w := Run(Init(zero), es); forall call :: call in w.fetches ==> w.fetches[call] <= 1
  {
    RunKeeps(Init(zero), es);
    var w := Run(Init(zero), es);
    forall call | call in w.fetches ensures w.fetches[call] <= 1 {
      assert Frugal(w, call);
    }
  }

  /** Every answer belongs to a call that was begun. */
  lemma {:induction false} AnswersAreOfCalls(w: World, es: seq<Event>)
    requires Inv(w) && forall a :: a in w.answers ==> a.call in w.fetches
    ensures forall a :: a in Run(w, es).answers ==> a.call in Run(w, es).fetches
    decreases |es|
  {
    hide KeyMap, Lifetime, LastValid;
    if es != [] {
      NextKeeps(w, es[0]);
      AnswersAreOfCalls(Next(w, es[0]), es[1..]);
    }
  }

  lemma NextStores(w: World, e: Event)
    ensures var w1 := Next(w, e);
            && w.stored <= w1.stored && w.answers <= w1.answers
            && (forall a :: a in w1.answers[|w.answers|..] ==> a.generation == |w.stored|)
  {
    hide KeyMap, Lifetime;
  }

  lemma {:induction false} LaterAnswers(w: World, es: seq<Event>)
    ensures var w1 := Run(w, es);
            && w.stored <= w1.stored && w.answers <= w1.answers
            && forall a :: a in w1.answers[|w.answers|..] ==> a.generation >= |w.stored|
    decreases |es|
  {
    hide Next;
    if es != [] {
      var w1, w2 := Next(w, es[0]), Run(w, es);
      NextStores(w, es[0]);
      LaterAnswers(w1, es[1..]);
      forall a | a in w2.answers[|w.answers|..] ensures a.generation >= |w.stored| {
        var i :| |w.answers| <= i < |w2.answers| && w2.answers[i] == a;
        if i < |w1.answers| {
          assert w1.answers[|w.answers|..][i - |w.answers|] == a;
        } else {
          assert w2.answers[|w1.answers|..][i - |w1.answers|] == a;
        }
      }
    }
  }

  /** A key the newest stored set does not publish is not returned again until another set is stored. */
  lemma WithdrawnKeysAreNotReturned(zero: int, es: seq<Event>, later: seq<Event>, i: nat)
    requires var w := Run(Init(zero), es);
             && w.stored != [] && |w.answers| <= i < |Run(w, later).answers|
             && LastValid(w.stored[|w.stored| - 1].keys, Run(w, later).answers[i].kid).None?
    ensures var w := Run(Init(zero), es); Run(w, later).answers[i].generation > |w.stored|
  {
    hide Next, LastValid;
    var w := Run(Init(zero), es);
    RunKeeps(Init(zero), es);
    RunKeeps(w, later);
    LaterAnswers(w, later);
    var a := Run(w, later).answers[i];
    assert Run(w, later).answers[|w.answers|..][i - |w.answers|] == a;
    assert Genuine(Run(w, later), a);
  }

  /** A call alone: look up, on a miss fetch and store, and look up once more. */
  function KeyFuncOnce(cache: Cache, kid: Text, now: int, fetched: Option<Response>, stored: int, again: int)
    : (Cache, Option<PublicKey>)
  {
    if kid == [] then (cache, None)
    else if Lookup(cache, kid, now).Some? then (cache, Lookup(cache, kid, now))
    else if fetched.None? then (cache, None)
    else (Publish(fetched.value, stored), Lookup(Publish(fetched.value, stored), kid, again))
  }

  /**
   What a call alone answers when the cache holds the set `published`: that set's entry while it is unexpired,
   else that of the set it fetches, unless the fetch fails or the new set has expired again.
   */
  lemma KeyFuncAnswers(cache: Cache, published: seq<Jwk>, kid: Text, now: int, fetched: Option<Response>,
                       stored: int, again: int)
    requires Represents(cache.keys, published)
    ensures var (after, key) := KeyFuncOnce(cache, kid, now, fetched, stored, again);
            if kid == [] then key == None && after == cache
            else if now <= cache.expiresAt && LastValid(published, kid).Some? then
              key == LastValid(published, kid) && after == cache
            else if fetched.None? then key == None && after == cache
            else
              && Represents(after.keys, fetched.value.keys)
              && after.expiresAt == stored + Lifetime(fetched.value.maxAge)
              && key == if again <= after.expiresAt then LastValid(fetched.value.keys, kid) else None
  {
    hide Lifetime, LastValid;
  }

  /** It is a run of the interleaved model. */
  lemma KeyFuncIsRun(w: World, call: CallId, kid: Text, now: int, fetched: Option<Response>, stored: int, again: int)
    requires call !in w.fetches && call !in w.calls
    ensures exists es ::
              var (cache, key) := KeyFuncOnce(w.cache, kid, now, fetched, stored, again);
              var w1 := Run(w, es);
              && w1.cache == cache && w1.calls == w.calls
              && (if key.None? then w1.answers == w.answers
                  else |w1.answers| == |w.answers| + 1 && w1.answers[|w.answers|].key == key.value
                       && w1.answers[|w.answers|].kid == kid)
  {
    hide KeyMap, Lifetime, Publish, Lookup;
    var es := [Begin(call, kid), Advance(call, now, None), Advance(call, now, fetched),
               Advance(call, stored, None), Advance(call, again, None)];
    var w1 := Next(w, es[0]);
    var w2 := Next(w1, es[1]);
    var w3 := Next(w2, es[2]);
    var w4 := Next(w3, es[3]);
    var w5 := Next(w4, es[4]);
    RunFive(w, es);
    assert w5.calls == w.calls;
  }

  lemma RunFive(w: World, es: seq<Event>)
    requires |es| == 5
    ensures Run(w, es) == Next(Next(Next(Next(Next(w, es[0]), es[1]), es[2]), es[3]), es[4])
  {
    hide Next;
    var w1 := Next(w, es[0]);
    var w2 := Next(w1, es[1]);
    var w3 := Next(w2, es[2]);
    assert Run(w, es) == Run(w1, es[1..]) == Run(w2, es[1..][1..]) == Run(w3, es[1..][1..][1..]);
    var rest := es[1..][1..][1..];
    assert Run(w3, rest) == Run(Next(w3, rest[0]), rest[1..]) == Run(Next(Next(w3, rest[0]), rest[1..][0]), rest[1..][1..]);
  }

  /** The verifier's key cache; each method is one critical section of its lock. */
  class GoogleVerifier {
    var keys: Keys
    var expiresAt: int

    constructor (zero: int)
      ensures State() == Cache(map[], zero)
    {
      keys, expiresAt := map[], zero;
    }

    function State(): Cache
      reads this
    {
      Cache(keys, expiresAt)
    }

    method CachedKey(kid: Text, now: int) returns (key: Option<PublicKey>)
      ensures key == Lookup(State(), kid, now)
    {
      if now > expiresAt {
        return None;
      }
      key := if kid in keys then Some(keys[kid]) else None;
    }

    /** The loop that turns a response into a key map, skipping unusable entries. */
    static method BuildKeys(entries: seq<Jwk>) returns (built: Keys)
      ensures built == KeyMap(entries)
    {
      built := map[];
      for i := 0 to |entries|
        invariant built == KeyMap(entries[..i])
      {
        assert entries[..i + 1][..i] == entries[..i];
        var public := PublicKeyOf(entries[i]);
        if public.None? {
          continue;
        }
        built := built[entries[i].kid := public.value];
      }
      assert entries[..|entries|] == entries;
    }

    method RefreshKeys(fetched: Option<Response>, now: int) returns (ok: bool)
      modifies this
      ensures ok == fetched.Some?
      ensures State() == if ok then Publish(fetched.value, now) else old(State())
    {
      if fetched.None? {
        return false;
      }
      var built := BuildKeys(fetched.value.keys);
      keys, expiresAt := built, now + Lifetime(fetched.value.maxAge);
      ok := true;
    }

    method KeyFunc(kid: Text, now: int, fetched: Option<Response>, stored: int, again: int)
      returns (key: Option<PublicKey>)
      modifies this
      ensures (State(), key) == KeyFuncOnce(old(State()), kid, now, fetched, stored, again)
    {
      if kid == [] {
        return None;
      }
      key := CachedKey(kid, now);
      if key.Some? {
        return;
      }
      var ok := RefreshKeys(fetched, stored);
      if !ok {
        return None;
      }
      key := CachedKey(kid, again);
    }
  }
}
