/** The route table: the substring search, and the one-hop connections against their definition as
    a join. */
module Routes {

  import opened Sorting

  datatype Route = Route(airline: string, src: string, dst: string, stops: int)

  // ---------------------------------------------------------------- searching

  function UpperChar(c: char): char { if 'a' <= c <= 'z' then 'A' + (c - 'a') else c }

  function Upper(s: string): (r: string)
    ensures |r| == |s|
  {
    seq(|s|, i requires 0 <= i < |s| => UpperChar(s[i]))
  }

  predicate At(s: string, i: nat, t: string) { i + |t| <= |s| && s[i..i + |t|] == t }

  predicate Contains(s: string, t: string) { exists i: nat :: i <= |s| && At(s, i, t) }

  /** The search takes a route if one of its three codes contains the token, in any case. */
  predicate Hit(r: Route, token: string) {
    || Contains(Upper(r.airline), Upper(token))
    || Contains(Upper(r.src), Upper(token))
    || Contains(Upper(r.dst), Upper(token))
  }

  function Search(routes: seq<Route>, token: string): seq<Route> {
    if routes == [] then []
    else
      var n := |routes| - 1;
      Search(routes[..n], token) + if Hit(routes[n], token) then [routes[n]] else []
  }

  /** `std::string::find` */
  method Find(s: string, t: string) returns (found: bool)
    ensures found == Contains(s, t)
  {
    var i := 0;
    while i + |t| <= |s|
      invariant forall k: nat :: k < i ==> !At(s, k, t)
    {
      if s[i..i + |t|] == t {
        assert At(s, i, t);
        return true;
      }
      i := i + 1;
    }
    return false;
  }

  method SearchRoutes(routes: seq<Route>, token: string) returns (out: seq<Route>)
    ensures out == Search(routes, token)
  {
    out := [];
    var t := Upper(token);
    for i := 0 to |routes|
      invariant out == Search(routes[..i], token)
    {
      var r := routes[i];
      var a := Find(Upper(r.airline), t);
      var s := Find(Upper(r.src), t);
      var d := Find(Upper(r.dst), t);
      assert routes[..i + 1][..i] == routes[..i];
      if a || s || d { out := out + [r]; }
    }
    assert routes[..|routes|] == routes;
  }

  /** A code contains itself. */
  lemma ContainsItself(s: string)
    ensures Contains(Upper(s), Upper(s))
  {
    assert At(Upper(s), 0, Upper(s));
  }

  /** What is selected after the search is what would be selected without it, if every selected
      route has the token for one of its codes. */
  lemma SearchLosesNothing(r: Route, token: string)
    requires r.airline == token || r.src == token || r.dst == token
    ensures Hit(r, token)
  {
    ContainsItself(token);
  }

  // ---------------------------------------------------------------- one hop

  predicate FirstLeg(r: Route, src: string, dst: string) { r.src == src && r.dst != dst && r.stops == 0 }
  predicate SecondLeg(r: Route, via: string, dst: string) { r.src == via && r.dst == dst && r.stops == 0 }

  datatype OneHop = OneHop(src: string, via: string, dst: string, leg1: string, leg2: string, miles: int)

  /** The airports with a record, and the rounded distance from one over another to a third, which is a
      parameter of the model. */
  datatype Airports = Airports(known: set<string>, miles: (string, string, string) -> int)

  function Hop(a: Route, b: Route, ap: Airports): OneHop {
    OneHop(a.src, a.dst, b.dst, a.airline, b.airline, ap.miles(a.src, a.dst, b.dst))
  }

  /** Route `i` and route `j` together are a connection. */
  predicate Connects(routes: seq<Route>, ap: Airports, src: string, dst: string, i: int, j: int) {
    && 0 <= i < |routes| && 0 <= j < |routes|
    && FirstLeg(routes[i], src, dst)
    && SecondLeg(routes[j], routes[i].dst, dst)
    && routes[i].dst in ap.known
  }

  /** All pairs of routes that make the connection `x`, the first among the first `m` routes. */
  function Pairs(routes: seq<Route>, ap: Airports, src: string, dst: string, m: nat, x: OneHop): set<(int, int)> {
    set i, j | 0 <= i < m && 0 <= j < |routes| && Connects(routes, ap, src, dst, i, j) &&
      Hop(routes[i], routes[j], ap) == x :: (i, j)
  }

  /** The second legs behind one first leg, among the first `n` routes. */
  function Legs(routes: seq<Route>, via: string, dst: string, n: nat): seq<Route>
    requires n <= |routes|
  {
    if n == 0 then []
    else Legs(routes, via, dst, n - 1) + if SecondLeg(routes[n - 1], via, dst) then [routes[n - 1]] else []
  }

  function HopsOver(a: Route, legs: seq<Route>, ap: Airports): seq<OneHop> {
    if legs == [] then [] else HopsOver(a, legs[..|legs| - 1], ap) + [Hop(a, legs[|legs| - 1], ap)]
  }

  /** The connections that begin with one of the first `m` routes. */
  function Joined(routes: seq<Route>, ap: Airports, src: string, dst: string, m: nat): seq<OneHop>
    requires m <= |routes|
  {
    if m == 0 then []
    else Joined(routes, ap, src, dst, m - 1) + From(routes, ap, src, dst, routes[m - 1])
  }

  function From(routes: seq<Route>, ap: Airports, src: string, dst: string, a: Route): seq<OneHop> {
    if FirstLeg(a, src, dst) && a.dst in ap.known then HopsOver(a, Legs(routes, a.dst, dst, |routes|), ap) else []
  }

  // The loops compute `Joined`.

  /** `GetRoutesFromTo`, and the filter to routes without stops. */
  method DirectRoutes(routes: seq<Route>, via: string, dst: string) returns (legs: seq<Route>)
    ensures legs == Legs(routes, via, dst, |routes|)
  {
    var all: seq<Route> := [];
    for i := 0 to |routes|
      invariant OnlyDirect(all) == Legs(routes, via, dst, i)
    {
      if routes[i].src == via && routes[i].dst == dst {
        OnlyDirectMore(all, routes[i]);
        all := all + [routes[i]];
      }
    }
    legs := [];
    for i := 0 to |all|
      invariant legs == OnlyDirect(all[..i])
    {
      OnlyDirectMore(all[..i], all[i]);
      assert all[..i + 1] == all[..i] + [all[i]];
      if all[i].stops == 0 { legs := legs + [all[i]]; }
    }
    assert all[..|all|] == all;
  }

  function OnlyDirect(rs: seq<Route>): seq<Route> {
    if rs == [] then []
    else OnlyDirect(rs[..|rs| - 1]) + if rs[|rs| - 1].stops == 0 then [rs[|rs| - 1]] else []
  }

  lemma OnlyDirectMore(rs: seq<Route>, r: Route)
    ensures OnlyDirect(rs + [r]) == OnlyDirect(rs) + if r.stops == 0 then [r] else []
  {
    assert (rs + [r])[..|rs|] == rs;
  }

  /** The first legs, found by the search and filtered. */
  function FirstLegs(rs: seq<Route>, src: string, dst: string): seq<Route> {
    if rs == [] then []
    else FirstLegs(rs[..|rs| - 1], src, dst) + if FirstLeg(rs[|rs| - 1], src, dst) then [rs[|rs| - 1]] else []
  }

  lemma FirstLegsMore(rs: seq<Route>, r: Route, src: string, dst: string)
    ensures FirstLegs(rs + [r], src, dst) == FirstLegs(rs, src, dst) + if FirstLeg(r, src, dst) then [r] else []
  {
    assert (rs + [r])[..|rs|] == rs;
  }

  lemma {:induction false} SearchedFirstLegs(rs: seq<Route>, src: string, dst: string)
    ensures FirstLegs(Search(rs, src), src, dst) == FirstLegs(rs, src, dst)
  {
    hide Hit;
    if rs != [] {
      var n := |rs| - 1;
      SearchedFirstLegs(rs[..n], src, dst);
      if FirstLeg(rs[n], src, dst) { SearchLosesNothing(rs[n], src); }
      FirstLegsMore(Search(rs[..n], src), rs[n], src, dst);
      assert Search(rs[..n], src) + [] == Search(rs[..n], src);
    }
  }

  /** The connections behind a list of first legs. */
  function FromAll(routes: seq<Route>, ap: Airports, src: string, dst: string, firsts: seq<Route>): seq<OneHop> {
    if firsts == [] then []
    else FromAll(routes, ap, src, dst, firsts[..|firsts| - 1]) + From(routes, ap, src, dst, firsts[|firsts| - 1])
  }

  lemma FromAllMore(routes: seq<Route>, ap: Airports, src: string, dst: string, firsts: seq<Route>, r: Route)
    ensures FromAll(routes, ap, src, dst, firsts + [r]) ==
            FromAll(routes, ap, src, dst, firsts) + From(routes, ap, src, dst, r)
  {
    assert (firsts + [r])[..|firsts|] == firsts;
  }

  lemma {:induction false} FromFirstLegs(routes: seq<Route>, ap: Airports, src: string, dst: string, m: nat)
    requires m <= |routes|
    ensures FromAll(routes, ap, src, dst, FirstLegs(routes[..m], src, dst)) == Joined(routes, ap, src, dst, m)
  {
    hide From;
    if m > 0 {
      FromFirstLegs(routes, ap, src, dst, m - 1);
      var r, firsts := routes[m - 1], FirstLegs(routes[..m - 1], src, dst);
      assert routes[..m] == routes[..m - 1] + [r];
      FirstLegsMore(routes[..m - 1], r, src, dst);
      if FirstLeg(r, src, dst) {
        FromAllMore(routes, ap, src, dst, firsts, r);
      } else {
        NoneFrom(routes, ap, src, dst, r);
        assert firsts + [] == firsts;
        assert Joined(routes, ap, src, dst, m - 1) + [] == Joined(routes, ap, src, dst, m - 1);
      }
    }
  }

  lemma NoneFrom(routes: seq<Route>, ap: Airports, src: string, dst: string, r: Route)
    requires !FirstLeg(r, src, dst)
    ensures From(routes, ap, src, dst, r) == []
  {
  }

  predicate Shorter(x: OneHop, y: OneHop) { x.miles < y.miles }

  datatype Reply = Hops(hops: seq<OneHop>) | NotFound

  /** The handler of `/onehop`, from the two codes to the list before it is printed. */
  method OneHops(routes: seq<Route>, ap: Airports, src: string, dst: string) returns (reply: Reply)
    ensures src == dst ==> reply == Hops([])
    ensures src != dst ==> (reply == NotFound <==> src !in ap.known || dst !in ap.known)
    ensures src != dst && reply.Hops? ==> multiset(reply.hops) == multiset(Joined(routes, ap, src, dst, |routes|))
    ensures reply.Hops? ==> Ordered(reply.hops, Shorter)
  {
    hide Search, FirstLegs, FromAll, From, Joined;
    if src == dst { return Hops([]); }
    if src !in ap.known || dst !in ap.known { return NotFound; }
    var found := SearchRoutes(routes, src);
    var fromSrc := SelectFirst(found, src, dst);
    var results := [];
    NoFirsts(routes, ap, src, dst);
    for i := 0 to |fromSrc|
      invariant results == FromAll(routes, ap, src, dst, fromSrc[..i])
    {
      var more := Connections(routes, ap, src, dst, fromSrc[i]);
      FromAllMore(routes, ap, src, dst, fromSrc[..i], fromSrc[i]);
      assert fromSrc[..i + 1] == fromSrc[..i] + [fromSrc[i]];
      results := results + more;
    }
    assert fromSrc[..|fromSrc|] == fromSrc && routes[..|routes|] == routes;
    SearchedFirstLegs(routes, src, dst);
    FromFirstLegs(routes, ap, src, dst, |routes|);
    results := Sort(results, Shorter);
    reply := Hops(results);
  }

  lemma NoFirsts(routes: seq<Route>, ap: Airports, src: string, dst: string)
    ensures FromAll(routes, ap, src, dst, []) == []
  {
  }

  method SelectFirst(found: seq<Route>, src: string, dst: string) returns (fromSrc: seq<Route>)
    ensures fromSrc == FirstLegs(found, src, dst)
    ensures forall r :: r in fromSrc ==> FirstLeg(r, src, dst)
  {
    fromSrc := [];
    for i := 0 to |found|
      invariant fromSrc == FirstLegs(found[..i], src, dst)
      invariant forall r :: r in fromSrc ==> FirstLeg(r, src, dst)
    {
      FirstLegsMore(found[..i], found[i], src, dst);
      assert found[..i + 1] == found[..i] + [found[i]];
      if found[i].src == src && found[i].dst != dst && found[i].stops == 0 { fromSrc := fromSrc + [found[i]]; }
    }
    assert found[..|found|] == found;
  }

  /** The inner part of the loop, for one first leg. */
  method Connections(routes: seq<Route>, ap: Airports, src: string, dst: string, leg1: Route) returns (more: seq<OneHop>)
    requires FirstLeg(leg1, src, dst)
    ensures more == From(routes, ap, src, dst, leg1)
  {
    hide Legs;
    more := [];
    var toDst := DirectRoutes(routes, leg1.dst, dst);
    if toDst == [] { return; }
    if leg1.dst !in ap.known { return; }
    for j := 0 to |toDst|
      invariant more == HopsOver(leg1, toDst[..j], ap)
    {
      assert toDst[..j + 1][..j] == toDst[..j] && toDst[..j + 1][j] == toDst[j];
      more := more + [Hop(leg1, toDst[j], ap)];
    }
    assert toDst[..|toDst|] == toDst;
  }

  // ---------------------------------------------------------------- the join, counted

  /** The pairs whose first route is number `i` and whose second is among the first `n`. */
  function Row(routes: seq<Route>, ap: Airports, src: string, dst: string, i: int, n: nat, x: OneHop): set<(int, int)>
    requires 0 <= i < |routes| && n <= |routes|
  {
    set j | 0 <= j < n && Connects(routes, ap, src, dst, i, j) && Hop(routes[i], routes[j], ap) == x :: (i, j)
  }

  /** The connections of those pairs. */
  function RowHops(routes: seq<Route>, ap: Airports, src: string, dst: string, i: int, n: nat): seq<OneHop>
    requires 0 <= i < |routes| && n <= |routes|
  {
    if n == 0 then []
    else
      RowHops(routes, ap, src, dst, i, n - 1) +
      if Connects(routes, ap, src, dst, i, n - 1) then [Hop(routes[i], routes[n - 1], ap)] else []
  }

  lemma {:induction false} FromIsRow(routes: seq<Route>, ap: Airports, src: string, dst: string, i: int, n: nat)
    requires 0 <= i < |routes| && n <= |routes|
    ensures RowHops(routes, ap, src, dst, i, n) ==
            if FirstLeg(routes[i], src, dst) && routes[i].dst in ap.known
            then HopsOver(routes[i], Legs(routes, routes[i].dst, dst, n), ap) else []
    decreases n
  {
    hide Hop;
    if n > 0 {
      FromIsRow(routes, ap, src, dst, i, n - 1);
      var legs := Legs(routes, routes[i].dst, dst, n - 1);
      assert (legs + [routes[n - 1]])[..|legs|] == legs;
      assert legs + [] == legs;
    }
  }

  lemma {:induction false} RowGrows(routes: seq<Route>, ap: Airports, src: string, dst: string, i: int, n: nat, x: OneHop)
    requires 0 <= i < |routes| && 0 < n <= |routes|
    ensures |Row(routes, ap, src, dst, i, n, x)| ==
            |Row(routes, ap, src, dst, i, n - 1, x)| +
            if Connects(routes, ap, src, dst, i, n - 1) && Hop(routes[i], routes[n - 1], ap) == x then 1 else 0
  {
    hide Hop, Connects;
    var before := Row(routes, ap, src, dst, i, n - 1, x);
    if Connects(routes, ap, src, dst, i, n - 1) && Hop(routes[i], routes[n - 1], ap) == x {
      assert Row(routes, ap, src, dst, i, n, x) == before + {(i, n - 1)};
    } else {
      assert Row(routes, ap, src, dst, i, n, x) == before;
    }
  }

  lemma {:induction false} RowCount(routes: seq<Route>, ap: Airports, src: string, dst: string, i: int, n: nat, x: OneHop)
    requires 0 <= i < |routes| && n <= |routes|
    ensures multiset(RowHops(routes, ap, src, dst, i, n))[x] == |Row(routes, ap, src, dst, i, n, x)|
    decreases n
  {
    hide Hop, Connects;
    if n == 0 {
      assert Row(routes, ap, src, dst, i, 0, x) == {};
    } else {
      hide Row;
      RowCount(routes, ap, src, dst, i, n - 1, x);
      RowGrows(routes, ap, src, dst, i, n, x);
    }
  }

  lemma {:induction false} PairsByRow(routes: seq<Route>, ap: Airports, src: string, dst: string, m: nat, x: OneHop)
    requires 0 < m <= |routes|
    ensures |Pairs(routes, ap, src, dst, m, x)| ==
            |Pairs(routes, ap, src, dst, m - 1, x)| + |Row(routes, ap, src, dst, m - 1, |routes|, x)|
  {
    hide Connects, Hop;
    var before, row := Pairs(routes, ap, src, dst, m - 1, x), Row(routes, ap, src, dst, m - 1, |routes|, x);
    assert Pairs(routes, ap, src, dst, m, x) == before + row;
    assert before !! row;
  }

  lemma {:induction false} FromCount(routes: seq<Route>, ap: Airports, src: string, dst: string, i: int, x: OneHop)
    requires 0 <= i < |routes|
    ensures multiset(From(routes, ap, src, dst, routes[i]))[x] == |Row(routes, ap, src, dst, i, |routes|, x)|
  {
    hide Row, RowHops, Connects, Hop, HopsOver, Legs, FirstLeg;
    RowCount(routes, ap, src, dst, i, |routes|, x);
    FromIsRow(routes, ap, src, dst, i, |routes|);
  }

  lemma NoPairs(routes: seq<Route>, ap: Airports, src: string, dst: string, x: OneHop)
    ensures |Pairs(routes, ap, src, dst, 0, x)| == 0
  {
    assert Pairs(routes, ap, src, dst, 0, x) == {};
  }

  /** Each connection appears as often as there are pairs of routes that make it. */
  lemma {:induction false} JoinedCount(routes: seq<Route>, ap: Airports, src: string, dst: string, m: nat, x: OneHop)
    requires m <= |routes|
    ensures multiset(Joined(routes, ap, src, dst, m))[x] == |Pairs(routes, ap, src, dst, m, x)|
  {
    hide Row, Pairs, From, Connects, Hop;
    if m == 0 {
      NoPairs(routes, ap, src, dst, x);
    } else {
      JoinedCount(routes, ap, src, dst, m - 1, x);
      FromCount(routes, ap, src, dst, m - 1, x);
      PairsByRow(routes, ap, src, dst, m, x);
    }
  }

  /** The result of the handler is exactly the join, with multiplicities. */
  lemma OneHopsAreTheJoin(routes: seq<Route>, ap: Airports, src: string, dst: string, results: seq<OneHop>, x: OneHop)
    requires multiset(results) == multiset(Joined(routes, ap, src, dst, |routes|))
    ensures multiset(results)[x] == |Pairs(routes, ap, src, dst, |routes|, x)|
    ensures x in results <==> exists i, j :: Connects(routes, ap, src, dst, i, j) && Hop(routes[i], routes[j], ap) == x
    ensures x in results ==> x.src == src && x.dst == dst && x.via != dst && x.via in ap.known
  {
    JoinedCount(routes, ap, src, dst, |routes|, x);
    var pairs := Pairs(routes, ap, src, dst, |routes|, x);
    assert x in results <==> x in multiset(results);
    if x in results {
      assert pairs != {};
      var p :| p in pairs;
      assert Connects(routes, ap, src, dst, p.0, p.1);
    }
    if i, j :| Connects(routes, ap, src, dst, i, j) && Hop(routes[i], routes[j], ap) == x {
      assert (i, j) in pairs;
    }
  }
}
