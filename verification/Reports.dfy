/** The two reports that count routes: the airports of an airline and the airlines of an airport. */
module Reports {

  import opened Sorting
  import opened Routes

  datatype Subject = OfAirline(code: string) | OfAirport(code: string)

  /** The keys that one route adds one to. */
  function Credits(s: Subject, r: Route): seq<string> {
    match s
    case OfAirline(code) => if r.airline == code then [r.src, r.dst] else []
    case OfAirport(code) => if r.src == code || r.dst == code then [r.airline] else []
  }

  function AllCredits(s: Subject, routes: seq<Route>): seq<string> {
    if routes == [] then [] else AllCredits(s, routes[..|routes| - 1]) + Credits(s, routes[|routes| - 1])
  }

  lemma CreditsMore(s: Subject, rs: seq<Route>, r: Route)
    ensures AllCredits(s, rs + [r]) == AllCredits(s, rs) + Credits(s, r)
  {
    assert (rs + [r])[..|rs|] == rs;
  }

  /** The search for the code drops no route that counts. */
  lemma {:induction false} SearchedCredits(s: Subject, routes: seq<Route>)
    ensures AllCredits(s, Search(routes, s.code)) == AllCredits(s, routes)
  {
    hide Hit;
    if routes != [] {
      var n := |routes| - 1;
      SearchedCredits(s, routes[..n]);
      var r, found := routes[n], Search(routes[..n], s.code);
      assert routes == routes[..n] + [r];
      CreditsMore(s, routes[..n], r);
      CreditsMore(s, found, r);
      if Credits(s, r) != [] {
        SearchLosesNothing(r, s.code);
      } else if !Hit(r, s.code) {
        assert found + [] == found && AllCredits(s, found) + [] == AllCredits(s, found);
      }
    }
  }

  // ---------------------------------------------------------------- counting

  ghost predicate Tallies(counts: map<string, int>, credits: seq<string>) {
    && (forall k :: k in counts <==> k in credits)
    && (forall k :: k in counts ==> counts[k] == multiset(credits)[k])
  }

  /** `++counts[k]`, where a missing key counts zero. */
  function Bumped(counts: map<string, int>, k: string): map<string, int> {
    counts[k := (if k in counts then counts[k] else 0) + 1]
  }

  lemma BumpTallies(counts: map<string, int>, credits: seq<string>, k: string)
    requires Tallies(counts, credits)
    ensures Tallies(Bumped(counts, k), credits + [k])
  {
    if k !in counts { assert k !in multiset(credits); }
  }

  method CountAirports(routes: seq<Route>, airline: string) returns (counts: map<string, int>)
    ensures Tallies(counts, AllCredits(OfAirline(airline), routes))
  {
    hide Tallies, Bumped;
    ghost var s := OfAirline(airline);
    var found := SearchRoutes(routes, airline);
    counts := map[];
    NothingTallied();
    for i := 0 to |found|
      invariant Tallies(counts, AllCredits(s, found[..i]))
    {
      var r := found[i];
      ghost var credits := AllCredits(s, found[..i]);
      assert found[..i + 1] == found[..i] + [r];
      CreditsMore(s, found[..i], r);
      if r.airline != airline {
        assert credits + [] == credits;
        continue;
      }
      BumpTallies(counts, credits, r.src);
      counts := Bumped(counts, r.src);
      BumpTallies(counts, credits + [r.src], r.dst);
      counts := Bumped(counts, r.dst);
      assert credits + [r.src] + [r.dst] == credits + [r.src, r.dst];
    }
    assert found[..|found|] == found;
    SearchedCredits(s, routes);
  }

  method CountAirlines(routes: seq<Route>, airport: string) returns (counts: map<string, int>)
    ensures Tallies(counts, AllCredits(OfAirport(airport), routes))
  {
    hide Tallies, Bumped;
    ghost var s := OfAirport(airport);
    var found := SearchRoutes(routes, airport);
    counts := map[];
    NothingTallied();
    for i := 0 to |found|
      invariant Tallies(counts, AllCredits(s, found[..i]))
    {
      var r := found[i];
      ghost var credits := AllCredits(s, found[..i]);
      assert found[..i + 1] == found[..i] + [r];
      CreditsMore(s, found[..i], r);
      if r.src == airport || r.dst == airport {
        BumpTallies(counts, credits, r.airline);
        counts := Bumped(counts, r.airline);
      } else {
        assert credits + [] == credits;
      }
    }
    assert found[..|found|] == found;
    SearchedCredits(s, routes);
  }

  lemma NothingTallied()
    ensures Tallies(map[], [])
  {
  }

  // ---------------------------------------------------------------- rows

  datatype Line = Line(iata: string, name: string, n: int)

  /** More routes first, then by code. */
  predicate LineLess(a: Line, b: Line) { a.n > b.n || (a.n == b.n && Before(a.iata, b.iata)) }

  lemma LineLessWeak()
    ensures Weak(LineLess)
  {
    forall x, y | LineLess(x, y) ensures !LineLess(y, x) { BeforeTotal(x.iata, y.iata); }
    forall x, y, z | !LineLess(y, x) && !LineLess(z, y)
      ensures !LineLess(z, x)
    {
      BeforeTotal(x.iata, y.iata);
      BeforeTotal(y.iata, z.iata);
      BeforeTotal(x.iata, z.iata);
      if Before(x.iata, y.iata) && Before(y.iata, z.iata) { BeforeChains(x.iata, y.iata, z.iata); }
    }
  }

  function NameOf(names: map<string, string>, k: string): string { if k in names then names[k] else "" }

  /** The lines of a report: one for each key that is counted. */
  ghost function Lines(credits: seq<string>, names: map<string, string>): set<Line> {
    set k | k in credits :: Line(k, NameOf(names, k), multiset(credits)[k])
  }

  ghost predicate IsReport(lines: seq<Line>, credits: seq<string>, names: map<string, string>) {
    multiset(lines) == multiset(Lines(credits, names)) && Ordered(lines, LineLess)
  }

  /** The rows, taken from the hash map in whatever order it yields them, and sorted. */
  method Report(counts: map<string, int>, names: map<string, string>, ghost credits: seq<string>)
    returns (lines: seq<Line>)
    requires Tallies(counts, credits)
    ensures IsReport(lines, credits, names)
  {
    lines := [];
    var left := counts.Keys;
    while left != {}
      invariant left <= counts.Keys
      invariant multiset(lines) == multiset(LinesOf(counts, names, counts.Keys - left))
      decreases |left|
    {
      var k :| k in left;
      OneMoreLine(counts, names, counts.Keys - left, k);
      assert counts.Keys - (left - {k}) == counts.Keys - left + {k};
      lines := lines + [Line(k, NameOf(names, k), counts[k])];
      left := left - {k};
    }
    assert counts.Keys - {} == counts.Keys;
    AllLines(counts, names, credits);
    LineLessWeak();
    lines := Sort(lines, LineLess);
  }

  ghost function LinesOf(counts: map<string, int>, names: map<string, string>, keys: set<string>): set<Line>
    requires keys <= counts.Keys
  {
    set k | k in keys :: Line(k, NameOf(names, k), counts[k])
  }

  lemma OneMoreLine(counts: map<string, int>, names: map<string, string>, keys: set<string>, k: string)
    requires keys <= counts.Keys && k in counts && k !in keys
    ensures multiset(LinesOf(counts, names, keys + {k})) ==
            multiset(LinesOf(counts, names, keys)) + multiset{Line(k, NameOf(names, k), counts[k])}
  {
    var line := Line(k, NameOf(names, k), counts[k]);
    assert line !in LinesOf(counts, names, keys);
    assert LinesOf(counts, names, keys + {k}) == LinesOf(counts, names, keys) + {line};
  }

  lemma AllLines(counts: map<string, int>, names: map<string, string>, credits: seq<string>)
    requires Tallies(counts, credits)
    ensures LinesOf(counts, names, counts.Keys) == Lines(credits, names)
  {
  }

  /** The handlers behind both forms of each report. */
  method AirportsByRoutes(routes: seq<Route>, names: map<string, string>, airline: string) returns (lines: seq<Line>)
    ensures IsReport(lines, AllCredits(OfAirline(airline), routes), names)
  {
    var counts := CountAirports(routes, airline);
    lines := Report(counts, names, AllCredits(OfAirline(airline), routes));
  }

  method AirlinesByRoutes(routes: seq<Route>, names: map<string, string>, airport: string) returns (lines: seq<Line>)
    ensures IsReport(lines, AllCredits(OfAirport(airport), routes), names)
  {
    var counts := CountAirlines(routes, airport);
    lines := Report(counts, names, AllCredits(OfAirport(airport), routes));
  }

  // ---------------------------------------------------------------- what a report says

  /** The order of the rows does not depend on the hash map. */
  lemma OneReport(a: seq<Line>, b: seq<Line>, credits: seq<string>, names: map<string, string>)
    requires IsReport(a, credits, names) && IsReport(b, credits, names)
    ensures a == b
  {
    forall x, y | x in a && y in a && !LineLess(x, y) && !LineLess(y, x)
      ensures x == y
    {
      BeforeTotal(x.iata, y.iata);
      assert x in multiset(a) && y in multiset(a);
    }
    forall x ensures !LineLess(x, x) { BeforeTotal(x.iata, x.iata); }
    OneOrder(a, b, LineLess);
  }

  function Total(lines: seq<Line>): int { if lines == [] then 0 else Total(lines[..|lines| - 1]) + lines[|lines| - 1].n }

  function TotalOver(keys: seq<string>, credits: seq<string>): int {
    if keys == [] then 0
    else TotalOver(keys[..|keys| - 1], credits) + multiset(credits)[keys[|keys| - 1]]
  }

  ghost predicate Different(keys: seq<string>) { forall i, j :: 0 <= i < j < |keys| ==> keys[i] != keys[j] }

  lemma {:induction false} OneMoreCredit(keys: seq<string>, credits: seq<string>, k: string)
    requires Different(keys)
    ensures TotalOver(keys, credits + [k]) == TotalOver(keys, credits) + if k in keys then 1 else 0
  {
    if keys != [] {
      var n := |keys| - 1;
      OneMoreCredit(keys[..n], credits, k);
      assert keys == keys[..n] + [keys[n]];
      assert multiset(credits + [k]) == multiset(credits) + multiset{k};
    }
  }

  lemma {:induction false} NoCredits(keys: seq<string>)
    ensures TotalOver(keys, []) == 0
  {
    if keys != [] { NoCredits(keys[..|keys| - 1]); }
  }

  lemma {:induction false} TotalIsAll(keys: seq<string>, credits: seq<string>)
    requires Different(keys) && forall k :: k in credits ==> k in keys
    ensures TotalOver(keys, credits) == |credits|
  {
    if credits == [] {
      NoCredits(keys);
    } else {
      var n := |credits| - 1;
      TotalIsAll(keys, credits[..n]);
      OneMoreCredit(keys, credits[..n], credits[n]);
      assert credits == credits[..n] + [credits[n]];
    }
  }

  function Iatas(lines: seq<Line>): (r: seq<string>)
    ensures |r| == |lines|
  {
    seq(|lines|, i requires 0 <= i < |lines| => lines[i].iata)
  }

  lemma {:induction false} TotalByKey(lines: seq<Line>, credits: seq<string>)
    requires forall i :: 0 <= i < |lines| ==> lines[i].n == multiset(credits)[lines[i].iata]
    ensures Total(lines) == TotalOver(Iatas(lines), credits)
  {
    if lines != [] {
      var n := |lines| - 1;
      TotalByKey(lines[..n], credits);
      assert Iatas(lines)[..n] == Iatas(lines[..n]);
    }
  }

  /** Every key has exactly one line. */
  lemma LinesDiffer(lines: seq<Line>, credits: seq<string>, names: map<string, string>)
    requires multiset(lines) == multiset(Lines(credits, names))
    ensures Different(Iatas(lines))
    ensures forall i :: 0 <= i < |lines| ==> lines[i] in Lines(credits, names)
    ensures forall k :: k in credits ==> k in Iatas(lines)
  {
    forall i | 0 <= i < |lines| ensures lines[i] in Lines(credits, names) {
      assert lines[i] in multiset(lines);
    }
    forall i, j | 0 <= i < j < |lines| ensures Iatas(lines)[i] != Iatas(lines)[j] {
      if lines[i].iata == lines[j].iata {
        assert lines[i] == lines[j];
        TwiceCounts(lines, i, j);
        assert false;
      }
    }
    forall k | k in credits ensures k in Iatas(lines) {
      var line := Line(k, NameOf(names, k), multiset(credits)[k]);
      assert line in Lines(credits, names);
      assert line in multiset(lines);
      var i :| 0 <= i < |lines| && lines[i] == line;
      assert Iatas(lines)[i] == k;
    }
  }

  lemma TwiceCounts(lines: seq<Line>, i: int, j: int)
    requires 0 <= i < j < |lines| && lines[i] == lines[j]
    ensures multiset(lines)[lines[i]] >= 2
  {
    assert lines == lines[..j] + [lines[j]] + lines[j + 1..];
    assert lines[i] in lines[..j];
    assert multiset(lines) == multiset(lines[..j]) + multiset{lines[j]} + multiset(lines[j + 1..]);
  }

  /** The counts of a report add up to the credits given. */
  lemma ReportTotal(lines: seq<Line>, credits: seq<string>, names: map<string, string>)
    requires IsReport(lines, credits, names)
    ensures Total(lines) == |credits|
  {
    LinesDiffer(lines, credits, names);
    TotalByKey(lines, credits);
    TotalIsAll(Iatas(lines), credits);
  }

  // ---------------------------------------------------------------- the counts against the table

  /** The positions of the routes that satisfy a condition. */
  function Where(routes: seq<Route>, p: Route -> bool): set<int> {
    set i | 0 <= i < |routes| && p(routes[i])
  }

  function By(airline: string): Route -> bool { (r: Route) => r.airline == airline }
  function At(airport: string): Route -> bool { (r: Route) => r.src == airport || r.dst == airport }
  function Leaving(airline: string, airport: string): Route -> bool {
    (r: Route) => r.airline == airline && r.src == airport
  }
  function Arriving(airline: string, airport: string): Route -> bool {
    (r: Route) => r.airline == airline && r.dst == airport
  }
  function Serving(airline: string, airport: string): Route -> bool {
    (r: Route) => r.airline == airline && (r.src == airport || r.dst == airport)
  }

  lemma NoneWhere(p: Route -> bool)
    ensures |Where([], p)| == 0
  {
    assert Where([], p) == {};
  }

  lemma OneMoreWhere(routes: seq<Route>, p: Route -> bool)
    requires routes != []
    ensures var n := |routes| - 1; |Where(routes, p)| == |Where(routes[..n], p)| + if p(routes[n]) then 1 else 0
  {
    var n := |routes| - 1;
    if p(routes[n]) {
      assert Where(routes, p) == Where(routes[..n], p) + {n};
    } else {
      assert Where(routes, p) == Where(routes[..n], p);
    }
  }

  /** Each route of the airline is counted twice; each route at the airport, once. */
  lemma {:induction false} CreditsGiven(routes: seq<Route>, code: string)
    ensures |AllCredits(OfAirline(code), routes)| == 2 * |Where(routes, By(code))|
    ensures |AllCredits(OfAirport(code), routes)| == |Where(routes, At(code))|
  {
    hide Where;
    if routes == [] {
      NoneWhere(By(code));
      NoneWhere(At(code));
    } else {
      CreditsGiven(routes[..|routes| - 1], code);
      OneMoreWhere(routes, By(code));
      OneMoreWhere(routes, At(code));
    }
  }

  function Times(credits: seq<string>, k: string): nat { multiset(credits)[k] }

  lemma TimesMore(s: Subject, routes: seq<Route>, k: string)
    requires routes != []
    ensures Times(AllCredits(s, routes), k) ==
            Times(AllCredits(s, routes[..|routes| - 1]), k) + Times(Credits(s, routes[|routes| - 1]), k)
  {
  }

  /** An airport's count is the routes of the airline that leave it and those that arrive. */
  lemma {:induction false} AirportCount(routes: seq<Route>, airline: string, airport: string)
    ensures Times(AllCredits(OfAirline(airline), routes), airport) ==
            |Where(routes, Leaving(airline, airport))| + |Where(routes, Arriving(airline, airport))|
  {
    hide Where;
    if routes == [] {
      NoneWhere(Leaving(airline, airport));
      NoneWhere(Arriving(airline, airport));
    } else {
      AirportCount(routes[..|routes| - 1], airline, airport);
      TimesMore(OfAirline(airline), routes, airport);
      hide AllCredits;
      OneMoreWhere(routes, Leaving(airline, airport));
      OneMoreWhere(routes, Arriving(airline, airport));
    }
  }

  /** An airline's count is its routes at the airport, each once. */
  lemma {:induction false} AirlineCount(routes: seq<Route>, airport: string, airline: string)
    ensures Times(AllCredits(OfAirport(airport), routes), airline) == |Where(routes, Serving(airline, airport))|
  {
    hide Where;
    if routes == [] {
      NoneWhere(Serving(airline, airport));
    } else {
      AirlineCount(routes[..|routes| - 1], airport, airline);
      TimesMore(OfAirport(airport), routes, airline);
      hide AllCredits;
      OneMoreWhere(routes, Serving(airline, airport));
    }
  }

  /** The two promises of the reports, over all route tables. */
  lemma ReportsAddUp(routes: seq<Route>, names: map<string, string>, code: string, airports: seq<Line>, airlines: seq<Line>)
    requires IsReport(airports, AllCredits(OfAirline(code), routes), names)
    requires IsReport(airlines, AllCredits(OfAirport(code), routes), names)
    ensures Total(airports) == 2 * |Where(routes, By(code))|
    ensures Total(airlines) == |Where(routes, At(code))|
  {
    ReportTotal(airports, AllCredits(OfAirline(code), routes), names);
    ReportTotal(airlines, AllCredits(OfAirport(code), routes), names);
    CreditsGiven(routes, code);
  }
}
