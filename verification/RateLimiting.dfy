/** The per-client token buckets, emptied out by a periodic cleanup, over any trace of requests. */
module RateLimiting {
  import opened Bytes

  type Client = nat

  /**
   The contract assumed of one bucket, as the token-bucket library documents it: it starts full, refills
   at `rps` up to `burst`, and a request takes a whole token or is refused without a trace.
   */
  datatype Bucket = Bucket(tokens: real, last: real)

  datatype Limit = Limit(rps: real, burst: nat) {
    predicate Valid() { rps >= 0.0 }
  }

  type Buckets = map<Client, Bucket>

  function Least(x: real, y: real): real { if x < y then x else y }

  function Product(x: real, y: real): real { x * y }

  /** The tokens a client finds at time `t`; an unknown client finds a full bucket. */
  function Available(l: Limit, m: Buckets, ip: Client, t: real): real {
    if ip !in m then l.burst as real
    else if t < m[ip].last then Least(l.burst as real, m[ip].tokens)
    else Least(l.burst as real, m[ip].tokens + Product(t - m[ip].last, l.rps))
  }

  /** One request: look the bucket up, creating it if need be, and take a token if there is one. */
  function Allow(l: Limit, m: Buckets, ip: Client, t: real): (Buckets, bool) {
    var tokens := Available(l, m, ip, t);
    if tokens >= 1.0 then (m[ip := Bucket(tokens - 1.0, t)], true)
    else (if ip in m then m else m[ip := Bucket(l.burst as real, t)], false)
  }

  datatype Event = Request(ip: Client, at: real) | Cleanup(at: real)

  function Next(l: Limit, m: Buckets, e: Event): Buckets {
    match e
    case Request(ip, t) => Allow(l, m, ip, t).0
    case Cleanup(_) => map[]
  }

  /** The answers one client gets, in order. */
  function Answers(l: Limit, m: Buckets, trace: seq<Event>, ip: Client): seq<bool>
    decreases |trace|
  {
    if trace == [] then []
    else
      (if trace[0].Request? && trace[0].ip == ip then [Allow(l, m, ip, trace[0].at).1] else [])
      + Answers(l, Next(l, m, trace[0]), trace[1..], ip)
  }

  function Admitted(answers: seq<bool>): nat {
    if answers == [] then 0 else (if answers[0] then 1 else 0) + Admitted(answers[1..])
  }

  function Cleanups(trace: seq<Event>): nat {
    if trace == [] then 0 else (if trace[0].Cleanup? then 1 else 0) + Cleanups(trace[1..])
  }

  function After(l: Limit, m: Buckets, trace: seq<Event>): Buckets
    decreases |trace|
  {
    if trace == [] then m else After(l, Next(l, m, trace[0]), trace[1..])
  }

  /** Times do not go backwards, starting from `t`. */
  predicate Ordered(trace: seq<Event>, t: real)
    decreases |trace|
  {
    trace == [] || (t <= trace[0].at && Ordered(trace[1..], trace[0].at))
  }

  function End(trace: seq<Event>, t: real): real { if trace == [] then t else trace[|trace| - 1].at }

  /** Buckets as they occur: never negative or overfull, last used no later than `t`. */
  predicate Sane(l: Limit, m: Buckets, t: real) {
    forall ip :: ip in m ==> 0.0 <= m[ip].tokens <= l.burst as real && m[ip].last <= t
  }

  lemma NonNegative(x: real, y: real)
    requires x >= 0.0 && y >= 0.0
    ensures Product(x, y) >= 0.0
  {
  }

  lemma Distributes(x: real, a: real, b: real)
    ensures Product(a + b, x) == Product(a, x) + Product(b, x)
  {
  }

  lemma Units(x: real)
    ensures Product(0.0, x) == 0.0 && Product(1.0, x) == x
  {
  }

  lemma SaneStep(l: Limit, m: Buckets, e: Event, t: real)
    requires l.Valid() && Sane(l, m, t) && t <= e.at
    ensures Sane(l, Next(l, m, e), e.at)
  {
    hide Product;
    if e.Request? && e.ip in m {
      NonNegative(e.at - m[e.ip].last, l.rps);
    }
  }

  lemma {:induction false} SaneAfter(l: Limit, m: Buckets, trace: seq<Event>, t: real)
    requires l.Valid() && Sane(l, m, t) && Ordered(trace, t)
    ensures Sane(l, After(l, m, trace), End(trace, t)) && t <= End(trace, t)
    decreases |trace|
  {
    if trace != [] {
      SaneStep(l, m, trace[0], t);
      SaneAfter(l, Next(l, m, trace[0]), trace[1..], trace[0].at);
    }
  }

  /** Waiting refills at most at the rate. */
  lemma Refills(l: Limit, m: Buckets, ip: Client, t: real, u: real)
    requires l.Valid() && Sane(l, m, t) && t <= u
    ensures 0.0 <= Available(l, m, ip, t) <= l.burst as real
    ensures Available(l, m, ip, u) <= Available(l, m, ip, t) + Product(u - t, l.rps)
  {
    hide Product;
    NonNegative(u - t, l.rps);
    if ip in m {
      NonNegative(t - m[ip].last, l.rps);
      Distributes(l.rps, u - t, t - m[ip].last);
      assert u - t + (t - m[ip].last) == u - m[ip].last;
    }
  }

  /** A request takes one token from its own bucket and none from the others. */
  lemma Takes(l: Limit, m: Buckets, ip: Client, other: Client, t: real)
    requires l.Valid() && Sane(l, m, t)
    ensures var (m1, ok) := Allow(l, m, other, t);
            Available(l, m1, ip, t) == Available(l, m, ip, t) - if ok && ip == other then 1.0 else 0.0
  {
    hide Product;
    Units(l.rps);
    Refills(l, m, ip, t, t);
  }

  /** An event takes at most the token it hands out, and a cleanup adds at most a full bucket. */
  lemma EventCosts(l: Limit, m: Buckets, e: Event, ip: Client, t: real)
    requires l.Valid() && Sane(l, m, t) && t <= e.at
    ensures Available(l, Next(l, m, e), ip, e.at)
            <= Available(l, m, ip, e.at)
               + (if e.Cleanup? then l.burst as real else 0.0)
               - (if e.Request? && e.ip == ip && Allow(l, m, ip, e.at).1 then 1.0 else 0.0)
  {
    hide Product;
    SaneLater(l, m, t, e.at);
    Refills(l, m, ip, e.at, e.at);
    if e.Request? {
      Takes(l, m, ip, e.ip, e.at);
    }
  }

  /** In a window that starts at `t`, admissions are paid for by the tokens at hand, refills and cleanups. */
  lemma {:induction false} Budget(l: Limit, m: Buckets, trace: seq<Event>, ip: Client, t: real)
    requires l.Valid() && Sane(l, m, t) && Ordered(trace, t)
    ensures Admitted(Answers(l, m, trace, ip)) as real
            <= Available(l, m, ip, t) + Product(Cleanups(trace) as real, l.burst as real)
               + Product(End(trace, t) - t, l.rps)
    decreases |trace|
  {
    hide Available, Next, Sane, Allow, Admitted, Answers, Product;
    Refills(l, m, ip, t, t);
    Units(l.rps);
    Units(l.burst as real);
    if trace == [] {
      NoneAdmitted(l, m, ip);
    } else {
      var e, rest := trace[0], trace[1..];
      SaneStep(l, m, e, t);
      Budget(l, Next(l, m, e), rest, ip, e.at);
      Refills(l, m, ip, t, e.at);
      EventCosts(l, m, e, ip, t);
      AdmittedStep(l, m, trace, ip);
      Distributes(l.rps, e.at - t, End(rest, e.at) - e.at);
      Distributes(l.burst as real, Cleanups(rest) as real, 1.0);
      assert End(trace, t) == End(rest, e.at);
      assert e.at - t + (End(rest, e.at) - e.at) == End(trace, t) - t;
    }
  }

  lemma NoneAdmitted(l: Limit, m: Buckets, ip: Client)
    ensures Admitted(Answers(l, m, [], ip)) == 0
  {
  }

  lemma AdmittedStep(l: Limit, m: Buckets, trace: seq<Event>, ip: Client)
    requires trace != []
    ensures var e := trace[0];
            Admitted(Answers(l, m, trace, ip))
            == Admitted(Answers(l, Next(l, m, e), trace[1..], ip))
               + if e.Request? && e.ip == ip && Allow(l, m, ip, e.at).1 then 1 else 0
  {
    hide Allow, Next;
    var e, later := trace[0], Answers(l, Next(l, m, trace[0]), trace[1..], ip);
    if e.Request? && e.ip == ip {
      assert ([Allow(l, m, ip, e.at).1] + later)[1..] == later;
    } else {
      assert [] + later == later;
    }
  }

  lemma SaneLater(l: Limit, m: Buckets, t: real, u: real)
    requires Sane(l, m, t) && t <= u
    ensures Sane(l, m, u)
  {
  }

  lemma {:induction false} AnswersAfter(l: Limit, m: Buckets, before: seq<Event>, window: seq<Event>, ip: Client)
    ensures Answers(l, m, before + window, ip)
            == Answers(l, m, before, ip) + Answers(l, After(l, m, before), window, ip)
    decreases |before|
  {
    hide Next, Allow;
    if before == [] {
      assert before + window == window;
    } else {
      assert (before + window)[1..] == before[1..] + window;
      AnswersAfter(l, Next(l, m, before[0]), before[1..], window, ip);
    }
  }

  lemma {:induction false} OrderedSplit(before: seq<Event>, window: seq<Event>, t: real)
    requires Ordered(before + window, t)
    ensures Ordered(before, t) && Ordered(window, End(before, t))
    decreases |before|
  {
    if before == [] {
      assert before + window == window;
    } else {
      assert (before + window)[1..] == before[1..] + window;
      OrderedSplit(before[1..], window, before[0].at);
    }
  }

  /**
   In any window of a trace from a fresh limiter, of length T and holding R cleanups, one client is
   admitted at most (R + 1) * burst + rps * T times.
   */
  lemma AdmissionsAreBounded(l: Limit, before: seq<Event>, window: seq<Event>, t: real, ip: Client)
    requires l.Valid() && Ordered(before + window, t) && window != []
    ensures Admitted(Answers(l, After(l, map[], before), window, ip)) as real
            <= (Cleanups(window) + 1) as real * l.burst as real + (End(window, t) - window[0].at) * l.rps
  {
    hide Answers, Admitted, Cleanups, After, Ordered;
    WindowBudget(l, before, window, t, ip);
  }

  lemma WindowBudget(l: Limit, before: seq<Event>, window: seq<Event>, t: real, ip: Client)
    requires l.Valid() && Ordered(before + window, t) && window != []
    ensures Admitted(Answers(l, After(l, map[], before), window, ip)) as real
            <= Product((Cleanups(window) + 1) as real, l.burst as real) + Product(End(window, t) - window[0].at, l.rps)
  {
    hide Product, Answers, Admitted, Cleanups, After, Available;
    OrderedSplit(before, window, t);
    var m, start := After(l, map[], before), window[0].at;
    SaneAfter(l, map[], before, t);
    SaneLater(l, m, End(before, t), start);
    assert Ordered(window, start);
    Budget(l, m, window, ip, start);
    Refills(l, m, ip, start, start);
    Distributes(l.burst as real, Cleanups(window) as real, 1.0);
    Units(l.burst as real);
  }

  /** The events that can concern one client: its own requests, and the cleanups. */
  function Only(trace: seq<Event>, ip: Client): seq<Event> {
    if trace == [] then []
    else (if trace[0].Request? && trace[0].ip != ip then [] else [trace[0]]) + Only(trace[1..], ip)
  }

  predicate SameFor(m: Buckets, m1: Buckets, ip: Client) {
    (ip in m <==> ip in m1) && (ip in m ==> m[ip] == m1[ip])
  }

  /** Requests of other clients never change a client's answers. */
  lemma {:induction false} ClientsAreIsolated(l: Limit, m: Buckets, m1: Buckets, trace: seq<Event>, ip: Client)
    requires SameFor(m, m1, ip)
    ensures Answers(l, m, trace, ip) == Answers(l, m1, Only(trace, ip), ip)
    decreases |trace|
  {
    hide Available;
    if trace != [] {
      var e := trace[0];
      assert SameFor(Next(l, m, e), if e.Request? && e.ip != ip then m1 else Next(l, m1, e), ip) by {
        SameAvailable(l, m, m1, ip, e.at);
      }
      if e.Request? && e.ip != ip {
        ClientsAreIsolated(l, Next(l, m, e), m1, trace[1..], ip);
        assert [] + Only(trace[1..], ip) == Only(trace[1..], ip);
      } else {
        ClientsAreIsolated(l, Next(l, m, e), Next(l, m1, e), trace[1..], ip);
        SameAvailable(l, m, m1, ip, e.at);
        assert ([e] + Only(trace[1..], ip))[1..] == Only(trace[1..], ip);
      }
    }
  }

  lemma SameAvailable(l: Limit, m: Buckets, m1: Buckets, ip: Client, t: real)
    requires SameFor(m, m1, ip)
    ensures Available(l, m, ip, t) == Available(l, m1, ip, t)
  {
  }

  function Burst(n: nat, ip: Client, t: real): seq<Event> { seq(n, _ => Request(ip, t)) }

  /** Tokens at hand are all handed out at once if asked for. */
  lemma {:induction false} BurstIsAdmitted(l: Limit, m: Buckets, ip: Client, t: real, n: nat)
    requires l.Valid() && Sane(l, m, t) && Available(l, m, ip, t) >= n as real
    ensures Admitted(Answers(l, m, Burst(n, ip, t), ip)) == n
    decreases n
  {
    hide Available, Sane;
    if n > 0 {
      var trace := Burst(n, ip, t);
      assert trace[1..] == Burst(n - 1, ip, t);
      Takes(l, m, ip, ip, t);
      SaneStep(l, m, trace[0], t);
      AdmittedStep(l, m, trace, ip);
      BurstIsAdmitted(l, Next(l, m, trace[0]), ip, t, n - 1);
    }
  }

  /** The bound is attained: around a cleanup a client gets two full bursts at one instant. */
  lemma CleanupDoublesTheBurst(l: Limit, ip: Client, t: real)
    requires l.Valid()
    ensures Admitted(Answers(l, map[], Burst(l.burst, ip, t) + [Cleanup(t)] + Burst(l.burst, ip, t), ip)) == 2 * l.burst
  {
    hide Next, Burst;
    var burst := Burst(l.burst, ip, t);
    BurstIsAdmitted(l, map[], ip, t, l.burst);
    AnswersAfter(l, map[], burst, [Cleanup(t)] + burst, ip);
    assert burst + [Cleanup(t)] + burst == burst + ([Cleanup(t)] + burst);
    var m := After(l, map[], burst);
    AdmittedStep(l, m, [Cleanup(t)] + burst, ip);
    assert ([Cleanup(t)] + burst)[1..] == burst;
    assert Next(l, m, Cleanup(t)) == map[] by { CleanupEmpties(l, m, t); }
    AdmittedSum(Answers(l, map[], burst, ip), Answers(l, m, [Cleanup(t)] + burst, ip));
  }

  lemma CleanupEmpties(l: Limit, m: Buckets, t: real)
    ensures Next(l, m, Cleanup(t)) == map[]
  {
  }

  lemma {:induction false} AdmittedSum(s: seq<bool>, t: seq<bool>)
    ensures Admitted(s + t) == Admitted(s) + Admitted(t)
    decreases |s|
  {
    if s == [] {
      assert s + t == t;
    } else {
      assert (s + t)[1..] == s[1..] + t;
      AdmittedSum(s[1..], t);
    }
  }

  // A client that keeps to the rate.

  /** Each request of `ip` comes at least a token's refill time after the one before, the last being at `last`. */
  predicate Paced(l: Limit, trace: seq<Event>, ip: Client, last: Option<real>)
    decreases |trace|
  {
    trace == []
    || if trace[0].Request? && trace[0].ip == ip
       then (last.None? || Product(trace[0].at - last.value, l.rps) >= 1.0) && Paced(l, trace[1..], ip, Some(trace[0].at))
       else Paced(l, trace[1..], ip, last)
  }

  /** A bucket that exists was last used by the client's last request, and owes nothing. */
  predicate Rested(m: Buckets, ip: Client, last: Option<real>) {
    ip in m ==> last == Some(m[ip].last) && m[ip].tokens >= 0.0
  }

  lemma {:induction false} PacedIsAdmitted(l: Limit, m: Buckets, trace: seq<Event>, ip: Client, t: real,
                                           last: Option<real>)
    requires l.Valid() && l.burst >= 1 && Ordered(trace, t) && Paced(l, trace, ip, last) && Rested(m, ip, last)
    requires last.Some? ==> last.value <= t
    ensures forall answer :: answer in Answers(l, m, trace, ip) ==> answer
    decreases |trace|
  {
    hide Product;
    if trace != [] {
      var e := trace[0];
      PacedIsAdmitted(l, Next(l, m, e), trace[1..], ip, e.at,
                      if e.Request? && e.ip == ip then Some(e.at) else last);
    }
  }

  /** From a fresh limiter a client that keeps to the rate is never refused, whatever the others do. */
  lemma KeepingToTheRateIsEnough(l: Limit, trace: seq<Event>, ip: Client, t: real)
    requires l.Valid() && l.burst >= 1 && Ordered(trace, t) && Paced(l, trace, ip, None)
    ensures forall answer :: answer in Answers(l, map[], trace, ip) ==> answer
  {
    hide Answers, Paced, Ordered;
    PacedIsAdmitted(l, map[], trace, ip, t, None);
  }

  /** The middleware's limiter map, filled on demand and replaced by every cleanup. */
  class RateLimiter {
    const limit: Limit
    var limiters: Buckets

    constructor (limit: Limit)
      ensures this.limit == limit && limiters == map[]
    {
      this.limit, limiters := limit, map[];
    }

    method LimiterFor(ip: Client, now: real) returns (bucket: Bucket)
      modifies this
      ensures ip in limiters && bucket == limiters[ip]
      ensures limiters == if ip in old(limiters) then old(limiters)
                          else old(limiters)[ip := Bucket(limit.burst as real, now)]
    {
      if ip !in limiters {
        limiters := limiters[ip := Bucket(limit.burst as real, now)];
      }
      bucket := limiters[ip];
    }

    /** Whether the request goes on to its handler; otherwise the client is told it sent too many. */
    method Handle(ip: Client, now: real) returns (admitted: bool)
      modifies this
      ensures (limiters, admitted) == Allow(limit, old(limiters), ip, now)
    {
      hide Product;
      var bucket := LimiterFor(ip, now);
      var elapsed := if now < bucket.last then 0.0 else now - bucket.last;
      Units(limit.rps);
      var tokens := Least(limit.burst as real, bucket.tokens + Product(elapsed, limit.rps));
      admitted := tokens >= 1.0;
      if admitted {
        limiters := limiters[ip := Bucket(tokens - 1.0, now)];
        assert limiters == old(limiters)[ip := Bucket(tokens - 1.0, now)];
      }
    }

    method CleanUp(now: real)
      modifies this
      ensures limiters == Next(limit, old(limiters), Cleanup(now))
    {
      limiters := map[];
    }
  }
}
