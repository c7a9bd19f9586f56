/** Traffic totals summed in different ways, and the bandwidth windows. */
module UsageReports {
  import opened Bytes
  import opened Model
  import Pagination

  // The columns the reports read.

  datatype UserRow = UserRow(id: UserId, name: Text, email: Text, used: int, limit: int)
  datatype ServerRow = ServerRow(id: ServerId, name: Text)

  /** One recorded sample of a server. */
  datatype Sample = Sample(server: ServerId, at: int, bytesIn: int, bytesOut: int, connections: int)

  datatype Point = Point(at: int, bytesIn: int, bytesOut: int, connections: int)

  datatype ServerUsage = ServerUsage(id: ServerId, name: Text, used: int)
  datatype UserUsage = UserUsage(id: UserId, name: Text, email: Text, used: int, limit: int)

  /** Whether the n-th query of a report succeeds. */
  type Queries = nat -> bool

  predicate Succeed(queries: Queries, n: nat) { forall i :: 0 <= i < n ==> queries(i) }

  function TotalOfKeys(keys: seq<Key>): int {
    if keys == [] then 0 else keys[0].used + TotalOfKeys(keys[1..])
  }

  /** The database's sum over the keys of one server. */
  function SumByServer(keys: seq<Key>, server: ServerId): int {
    if keys == [] then 0 else (if keys[0].server == server then keys[0].used else 0) + SumByServer(keys[1..], server)
  }

  function UsageOf(keys: seq<Key>, server: ServerRow): ServerUsage {
    ServerUsage(server.id, server.name, SumByServer(keys, server.id))
  }

  function ServerRows(servers: seq<ServerRow>, keys: seq<Key>): seq<ServerUsage> {
    if servers == [] then []
    else ServerRows(servers[..|servers| - 1], keys) + [UsageOf(keys, servers[|servers| - 1])]
  }

  function TotalOfServers(rows: seq<ServerUsage>): int {
    if rows == [] then 0 else TotalOfServers(rows[..|rows| - 1]) + rows[|rows| - 1].used
  }

  /** One query for the servers, one more for each; the report exists only if all succeed. */
  method ByServer(servers: seq<ServerRow>, keys: seq<Key>, queries: Queries) returns (rows: Option<seq<ServerUsage>>)
    ensures rows == if Succeed(queries, |servers| + 1) then Some(ServerRows(servers, keys)) else None
  {
    if !queries(0) {
      return None;
    }
    var result := [];
    for i := 0 to |servers|
      invariant Succeed(queries, i + 1)
      invariant result == ServerRows(servers[..i], keys)
    {
      assert servers[..i + 1][..i] == servers[..i];
      if !queries(i + 1) {
        return None;
      }
      result := result + [ServerUsage(servers[i].id, servers[i].name, SumByServer(keys, servers[i].id))];
    }
    assert servers[..|servers|] == servers;
    rows := Some(result);
  }

  predicate DistinctServers(servers: seq<ServerRow>) {
    forall i, j :: 0 <= i < j < |servers| ==> servers[i].id != servers[j].id
  }

  predicate Listed(servers: seq<ServerRow>, id: ServerId) { exists s :: s in servers && s.id == id }

  /** The foreign key from access keys to servers. */
  predicate References(keys: seq<Key>, servers: seq<ServerRow>) {
    forall k :: k in keys ==> Listed(servers, k.server)
  }

  lemma TotalStep(servers: seq<ServerRow>, keys: seq<Key>)
    requires servers != []
    ensures var n := |servers| - 1;
            TotalOfServers(ServerRows(servers, keys))
            == TotalOfServers(ServerRows(servers[..n], keys)) + SumByServer(keys, servers[n].id)
  {
    var n := |servers| - 1;
    RowCount(servers[..n], keys);
    assert ServerRows(servers, keys)[..n] == ServerRows(servers[..n], keys);
  }

  lemma LastServer(servers: seq<ServerRow>, id: ServerId)
    requires DistinctServers(servers) && servers != []
    ensures var n := |servers| - 1;
            && DistinctServers(servers[..n])
            && (Listed(servers, id) <==> Listed(servers[..n], id) || servers[n].id == id)
            && (servers[n].id == id ==> !Listed(servers[..n], id))
  {
    var n := |servers| - 1;
    assert servers == servers[..n] + [servers[n]];
  }

  /** One more key adds its traffic to its own server's row and to no other. */
  lemma {:induction false} OneKey(servers: seq<ServerRow>, keys: seq<Key>)
    requires DistinctServers(servers) && keys != []
    ensures TotalOfServers(ServerRows(servers, keys))
            == TotalOfServers(ServerRows(servers, keys[1..]))
               + if Listed(servers, keys[0].server) then keys[0].used else 0
    decreases |servers|
  {
    hide TotalOfServers, DistinctServers;
    if servers == [] {
      assert ServerRows([], keys) == ServerRows([], keys[1..]);
    } else {
      TotalStep(servers, keys);
      TotalStep(servers, keys[1..]);
      LastServer(servers, keys[0].server);
      OneKey(servers[..|servers| - 1], keys);
    }
  }

  lemma {:induction false} RowCount(servers: seq<ServerRow>, keys: seq<Key>)
    ensures |ServerRows(servers, keys)| == |servers|
    decreases |servers|
  {
    if servers != [] {
      RowCount(servers[..|servers| - 1], keys);
    }
  }

  lemma {:induction false} NoKeys(servers: seq<ServerRow>)
    ensures TotalOfServers(ServerRows(servers, [])) == 0
    decreases |servers|
  {
    if servers != [] {
      var n := |servers| - 1;
      NoKeys(servers[..n]);
      RowCount(servers[..n], []);
      assert ServerRows(servers, [])[..n] == ServerRows(servers[..n], []);
    }
  }

  /** The per-server totals add up to the traffic of all access keys. */
  lemma {:induction false} ServersAccountForKeys(servers: seq<ServerRow>, keys: seq<Key>)
    requires DistinctServers(servers) && References(keys, servers)
    ensures TotalOfServers(ServerRows(servers, keys)) == TotalOfKeys(keys)
    decreases |keys|
  {
    if keys == [] {
      NoKeys(servers);
    } else {
      assert keys[0] in keys && forall k :: k in keys[1..] ==> k in keys;
      OneKey(servers, keys);
      ServersAccountForKeys(servers, keys[1..]);
    }
  }

  // Users, page by page.

  function UserRows(users: seq<UserRow>): (rows: seq<UserUsage>)
    ensures |rows| == |users|
  {
    if users == [] then []
    else
      var last := users[|users| - 1];
      UserRows(users[..|users| - 1]) + [UserUsage(last.id, last.name, last.email, last.used, last.limit)]
  }

  lemma {:induction false} UserRowFields(users: seq<UserRow>, i: nat)
    requires i < |users|
    ensures var row := UserRows(users)[i];
            && row.id == users[i].id && row.name == users[i].name && row.email == users[i].email
            && row.used == users[i].used && row.limit == users[i].limit
    decreases |users|
  {
    if i < |users| - 1 {
      UserRowFields(users[..|users| - 1], i);
    }
  }

  /** The database's sum over all users, as the summary reports it. */
  function SumTrafficUsed(users: seq<UserRow>): int {
    if users == [] then 0 else SumTrafficUsed(users[..|users| - 1]) + users[|users| - 1].used
  }

  function TotalOfUsers(rows: seq<UserUsage>): int {
    if rows == [] then 0 else TotalOfUsers(rows[..|rows| - 1]) + rows[|rows| - 1].used
  }

  /** A count and one page; both queries must succeed. The total counts all users, not the page. */
  method ByUser(users: seq<UserRow>, p: Pagination.Request, queries: Queries)
    returns (report: Option<(seq<UserUsage>, nat)>)
    ensures report == if Succeed(queries, 2) then Some((UserRows(Pagination.Page(users, p)), |users|)) else None
  {
    if !queries(0) || !queries(1) {
      return None;
    }
    var page := Pagination.Page(users, p);
    var rows := [];
    for i := 0 to |page|
      invariant rows == UserRows(page[..i])
    {
      assert page[..i + 1][..i] == page[..i];
      rows := rows + [UserUsage(page[i].id, page[i].name, page[i].email, page[i].used, page[i].limit)];
    }
    assert page[..|page|] == page;
    report := Some((rows, |users|));
  }

  lemma {:induction false} RowsTotal(users: seq<UserRow>)
    ensures TotalOfUsers(UserRows(users)) == SumTrafficUsed(users)
    decreases |users|
  {
    if users != [] {
      RowsTotal(users[..|users| - 1]);
      assert UserRows(users)[..|users| - 1] == UserRows(users[..|users| - 1]);
    }
  }

  lemma {:induction false} TotalOfSum(s: seq<UserRow>, t: seq<UserRow>)
    ensures SumTrafficUsed(s + t) == SumTrafficUsed(s) + SumTrafficUsed(t)
    decreases |t|
  {
    if t == [] {
      assert s + t == s;
    } else {
      var n := |t| - 1;
      assert (s + t)[..|s + t| - 1] == s + t[..n];
      TotalOfSum(s, t[..n]);
    }
  }

  /** The totals of pages 1 to `pages`, added up. */
  function TotalOfPages(users: seq<UserRow>, pageSize: int, pages: nat): int {
    if pages == 0 then 0
    else TotalOfPages(users, pageSize, pages - 1)
         + TotalOfUsers(UserRows(Pagination.Page(users, Pagination.Request(pages, pageSize))))
  }

  lemma {:induction false} PagesTotal(users: seq<UserRow>, pageSize: int, pages: nat)
    ensures TotalOfPages(users, pageSize, pages) == SumTrafficUsed(Pagination.Walk(users, pageSize, pages))
    decreases pages
  {
    if pages > 0 {
      var page := Pagination.Page(users, Pagination.Request(pages, pageSize));
      PagesTotal(users, pageSize, pages - 1);
      RowsTotal(page);
      TotalOfSum(Pagination.Walk(users, pageSize, pages - 1), page);
    }
  }

  /** All pages of a size within the limit add up to the summary's total. */
  lemma UsersAccountForSummary(users: seq<UserRow>, pageSize: int)
    requires |users| + Pagination.ReportedSize(Pagination.Request(1, pageSize)) - 1 <= Pagination.MAX_INT64
    requires pageSize <= Pagination.SIZE_LIMIT
    ensures var pages := Pagination.TotalPages(Pagination.Request(1, pageSize), |users|);
            pages >= 0 && TotalOfPages(users, pageSize, pages) == SumTrafficUsed(users)
  {
    Pagination.FullWalk(users, pageSize);
    PagesTotal(users, pageSize, Pagination.TotalPages(Pagination.Request(1, pageSize), |users|));
  }

  // Bandwidth.

  function PointOf(s: Sample): Point { Point(s.at, s.bytesIn, s.bytesOut, s.connections) }

  /** One server's samples from `since` on, in the order recorded. */
  function Since(samples: seq<Sample>, server: ServerId, since: int): seq<Sample> {
    if samples == [] then []
    else
      var last := samples[|samples| - 1];
      Since(samples[..|samples| - 1], server, since)
      + if last.server == server && last.at >= since then [last] else []
  }

  lemma {:induction false} SinceIsExact(samples: seq<Sample>, server: ServerId, since: int)
    ensures forall s :: s in Since(samples, server, since) <==> s in samples && s.server == server && s.at >= since
    decreases |samples|
  {
    if samples != [] {
      SinceIsExact(samples[..|samples| - 1], server, since);
      assert samples == samples[..|samples| - 1] + [samples[|samples| - 1]];
    }
  }

  function PointsOf(samples: seq<Sample>): (points: seq<Point>)
    ensures |points| == |samples| && forall i :: 0 <= i < |points| ==> points[i] == PointOf(samples[i])
    ensures forall i :: 0 <= i < |points| ==>
              && points[i].at == samples[i].at && points[i].connections == samples[i].connections
              && points[i].bytesIn == samples[i].bytesIn && points[i].bytesOut == samples[i].bytesOut
  {
    seq(|samples|, i requires 0 <= i < |samples| => PointOf(samples[i]))
  }

  /** Server by server, the points of the window that ends at `now`. */
  function Points(servers: seq<ServerRow>, samples: seq<Sample>, since: int): seq<Point> {
    if servers == [] then []
    else Points(servers[..|servers| - 1], samples, since)
         + PointsOf(Since(samples, servers[|servers| - 1].id, since))
  }

  /** One query for the servers, one more for each; the points exist only if all succeed. */
  method BandwidthSince(servers: seq<ServerRow>, samples: seq<Sample>, now: int, window: int, queries: Queries)
    returns (points: Option<seq<Point>>)
    ensures points == if Succeed(queries, |servers| + 1) then Some(Points(servers, samples, now - window)) else None
  {
    if !queries(0) {
      return None;
    }
    var since := now - window;
    var result := [];
    for i := 0 to |servers|
      invariant Succeed(queries, i + 1)
      invariant result == Points(servers[..i], samples, since)
    {
      assert servers[..i + 1][..i] == servers[..i];
      if !queries(i + 1) {
        return None;
      }
      var found := Since(samples, servers[i].id, since);
      ghost var before := result;
      for j := 0 to |found|
        invariant result == before + PointsOf(found[..j])
      {
        assert PointsOf(found[..j + 1]) == PointsOf(found[..j]) + [PointOf(found[j])];
        result := result + [Point(found[j].at, found[j].bytesIn, found[j].bytesOut, found[j].connections)];
      }
      assert found[..|found|] == found;
    }
    assert servers[..|servers|] == servers;
    points := Some(result);
  }

  /** The points not older than a cut-off. */
  function From(points: seq<Point>, since: int): seq<Point> {
    if points == [] then []
    else From(points[..|points| - 1], since) + if points[|points| - 1].at >= since then [points[|points| - 1]] else []
  }

  lemma {:induction false} FromSum(s: seq<Point>, t: seq<Point>, since: int)
    ensures From(s + t, since) == From(s, since) + From(t, since)
    decreases |t|
  {
    if t == [] {
      assert s + t == s;
    } else {
      assert (s + t)[..|s + t| - 1] == s + t[..|t| - 1];
      FromSum(s, t[..|t| - 1], since);
    }
  }

  lemma PointsOfSum(s: seq<Sample>, t: seq<Sample>)
    ensures PointsOf(s + t) == PointsOf(s) + PointsOf(t)
  {
  }

  lemma FromOne(p: Point, since: int)
    ensures From([p], since) == (if p.at >= since then [p] else []) && From([], since) == []
  {
    assert From([p][..0], since) == [];
  }

  lemma {:induction false} LaterSince(samples: seq<Sample>, server: ServerId, early: int, late: int)
    requires early <= late
    ensures From(PointsOf(Since(samples, server, early)), late) == PointsOf(Since(samples, server, late))
    decreases |samples|
  {
    hide PointsOf, From;
    assert PointsOf([]) == [];
    if samples == [] {
      FromOne(Point(0, 0, 0, 0), late);
    } else {
      var before, last := samples[..|samples| - 1], samples[|samples| - 1];
      LaterSince(before, server, early, late);
      var found := Since(before, server, early);
      var added := if last.server == server && last.at >= early then [last] else [];
      var kept := if last.server == server && last.at >= late then [last] else [];
      PointsOfSum(found, added);
      PointsOfSum(Since(before, server, late), kept);
      FromSum(PointsOf(found), PointsOf(added), late);
      assert PointsOf([last]) == [PointOf(last)] by { PointsOfOne(last); }
      FromOne(PointOf(last), late);
    }
  }

  lemma PointsOfOne(s: Sample)
    ensures PointsOf([s]) == [PointOf(s)]
  {
  }

  lemma {:induction false} LaterPoints(servers: seq<ServerRow>, samples: seq<Sample>, early: int, late: int)
    requires early <= late
    ensures From(Points(servers, samples, early), late) == Points(servers, samples, late)
    decreases |servers|
  {
    if servers != [] {
      var before, server := servers[..|servers| - 1], servers[|servers| - 1].id;
      LaterPoints(before, samples, early, late);
      LaterSince(samples, server, early, late);
      FromSum(Points(before, samples, early), PointsOf(Since(samples, server, early)), late);
    }
  }

  const DAY: int := 24 * 3600 * 1_000_000_000

  /**
   On one snapshot the daily points are exactly the monthly points from the daily cut-off on, even
   though the monthly window is taken at a later instant, up to 29 days later.
   */
  lemma {:induction false} DailyIsPartOfMonthly(servers: seq<ServerRow>, samples: seq<Sample>, now: int, later: int)
    requires now <= later <= now + 29 * DAY
    ensures Points(servers, samples, now - DAY)
            == From(Points(servers, samples, later - 30 * DAY), now - DAY)
  {
    LaterPoints(servers, samples, later - 30 * DAY, now - DAY);
  }

  datatype Summary = Summary(total: int, daily: seq<Point>, monthly: seq<Point>)

  /** The queries of one report after the first `n`. */
  function Later(queries: Queries, n: nat): Queries { (i: nat) => queries(n + i) }

  /** The total, then the last 24 hours, then the last 30 days; `later` is when the monthly window is taken. */
  method Summarize(users: seq<UserRow>, servers: seq<ServerRow>, samples: seq<Sample>,
                   now: int, later: int, queries: Queries) returns (summary: Option<Summary>)
    ensures summary == if Succeed(queries, 2 * |servers| + 3)
                       then Some(Summary(SumTrafficUsed(users),
                                         Points(servers, samples, now - 86_400_000_000_000),
                                         Points(servers, samples, later - 2_592_000_000_000_000)))
                       else None
  {
    var n := |servers| + 1;
    SucceedSplits(queries, 1, n);
    SucceedSplits(queries, 1 + n, n);
    if !queries(0) {
      return None;
    }
    var total := SumTrafficUsed(users);
    var daily := BandwidthSince(servers, samples, now, DAY, Later(queries, 1));
    if daily.None? {
      return None;
    }
    var monthly := BandwidthSince(servers, samples, later, 30 * DAY, Later(queries, 1 + n));
    if monthly.None? {
      return None;
    }
    summary := Some(Summary(total, daily.value, monthly.value));
  }

  lemma SucceedSplits(queries: Queries, n: nat, m: nat)
    ensures Succeed(queries, n + m) <==> Succeed(queries, n) && Succeed(Later(queries, n), m)
  {
    if Succeed(queries, n) && Succeed(Later(queries, n), m) {
      forall i | 0 <= i < n + m ensures queries(i) {
        assert i >= n ==> Later(queries, n)(i - n);
      }
    }
  }
}
