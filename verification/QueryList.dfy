/** Query lists: parsing and joining undo each other, and nothing but joined lists is accepted. */
module QueryList {
  import opened HttpText
  import opened UriMachine

  /** A query as written. */
  datatype Pair = Pair(name: string, value: string)

  predicate NameChars(s: string)
  {
    forall k :: 0 <= k < |s| ==> IsNameChar(s[k])
  }

  predicate PairOk(p: Pair)
  {
    |p.name| >= 1 && |p.value| >= 1 && NameChars(p.name) && NameChars(p.value)
  }

  predicate PairsOk(pairs: seq<Pair>)
  {
    |pairs| >= 1 && forall k :: 0 <= k < |pairs| ==> PairOk(pairs[k])
  }

  function PrintPair(p: Pair): string
  {
    p.name + ("=" + p.value)
  }

  /** Pairs joined by '&'. */
  function Join(pairs: seq<Pair>): string
  {
    if pairs == [] then "" else PrintPair(pairs[0]) + if |pairs| == 1 then "" else "&" + Join(pairs[1..])
  }

  function QueryOf(p: Pair, at: nat): Query
  {
    var v := at + |p.name| + 1;
    Query(View(at, at + |p.name|), View(v, v + |p.value|))
  }

  /** What is recorded of pairs joined from at on. */
  function QueriesOf(pairs: seq<Pair>, at: nat): seq<Query>
  {
    if pairs == [] then [] else [QueryOf(pairs[0], at)] + QueriesOf(pairs[1..], at + |PrintPair(pairs[0])| + 1)
  }

  function PairIn(buf: string, q: Query): Pair
  {
    Pair(Text(buf, q.name), Text(buf, q.value))
  }

  /** The pairs that recorded queries view. */
  function PairsIn(buf: string, queries: seq<Query>): seq<Pair>
  {
    if queries == [] then [] else [PairIn(buf, queries[0])] + PairsIn(buf, queries[1..])
  }

  // ---------------------------------------------------------------- reading

  lemma QueryStepsTo(q: QueryScan, buf: string, i: nat, hi: nat, t: QueryScan)
    requires i < hi <= |buf| && QueryStep(q, buf, i) == QueryGo(t)
    ensures QueryRun(q, buf, i, hi) == QueryRun(t, buf, i + 1, hi)
  {
  }

  lemma PassName(buf: string, i: nat, text: string, q: QueryScan, hi: nat)
    requires q.state in {QueryName, QueryValue} && NameChars(text) && At(buf, i, text) && i + |text| <= hi <= |buf|
    ensures QueryRun(q, buf, i, hi) == QueryRun(q, buf, i + |text|, hi)
  {
    hide QueryRun, At;
    forall k | i <= k < i + |text| ensures QueryStep(q, buf, k) == QueryGo(q) {
      AtChar(buf, i, text, k - i);
    }
    QueryRunOver(q, buf, i, i + |text|, hi);
  }

  lemma PairSplit(buf: string, at: nat, p: Pair)
    requires At(buf, at, PrintPair(p))
    ensures At(buf, at, p.name) && At(buf, at + |p.name|, "=") && At(buf, at + |p.name| + 1, p.value)
    ensures at + |PrintPair(p)| == at + |p.name| + 1 + |p.value| <= |buf|
  {
    hide At;
    AtText(buf, at, PrintPair(p));
    AtSplit(buf, at, p.name, "=" + p.value);
    AtSplit(buf, at + |p.name|, "=", p.value);
  }

  /** The scan at the end of the value of a pair that begins at at. */
  function PairScan(q: QueryScan, p: Pair, at: nat): QueryScan
  {
    q.(state := QueryValue, prev := at + |p.name| + 1, name := View(at, at + |p.name|))
  }

  lemma ReadPair(buf: string, at: nat, p: Pair, q: QueryScan, hi: nat)
    requires PairOk(p) && At(buf, at, PrintPair(p)) && at + |PrintPair(p)| <= hi <= |buf|
    requires q.state == QueryName && q.prev == at
    ensures QueryRun(q, buf, at, hi) == QueryRun(PairScan(q, p, at), buf, at + |PrintPair(p)|, hi)
  {
    hide QueryRun, At;
    PairSplit(buf, at, p);
    var e := at + |p.name|;
    AtChar(buf, e, "=", 0);
    AtChar(buf, e + 1, p.value, 0);
    PassName(buf, at, p.name, q, hi);
    var t := q.(state := QueryValueStart, name := View(at, e));
    QueryStepsTo(q, buf, e, hi, t);
    QueryStepsTo(t, buf, e + 1, hi, PairScan(q, p, at));
    QueryStepsTo(PairScan(q, p, at), buf, e + 1, hi, PairScan(q, p, at));
    PassName(buf, e + 1, p.value, PairScan(q, p, at), hi);
  }

  lemma JoinSplit(buf: string, at: nat, pairs: seq<Pair>)
    requires |pairs| >= 2 && At(buf, at, Join(pairs))
    ensures At(buf, at, PrintPair(pairs[0])) && At(buf, at + |PrintPair(pairs[0])|, "&")
    ensures At(buf, at + |PrintPair(pairs[0])| + 1, Join(pairs[1..]))
    ensures |Join(pairs)| == |PrintPair(pairs[0])| + 1 + |Join(pairs[1..])|
  {
    hide At, PrintPair;
    AtSplit(buf, at, PrintPair(pairs[0]), "&" + Join(pairs[1..]));
    AtSplit(buf, at + |PrintPair(pairs[0])|, "&", Join(pairs[1..]));
  }

  /** Between two queries: the scan behind a '&' at position at - 1. */
  lemma ReadAnd(buf: string, q: QueryScan, at: nat, hi: nat)
    requires 1 <= at < hi <= |buf| && q.state == QueryValue && buf[at - 1] == '&' && IsNameChar(buf[at])
    ensures QueryRun(q, buf, at - 1, hi)
        == QueryRun(q.(state := QueryName, prev := at, uri := AddQuery(q, at - 1)), buf, at, hi)
  {
  }

  lemma JoinStarts(pairs: seq<Pair>)
    requires PairsOk(pairs)
    ensures Join(pairs) != "" && IsNameChar(Join(pairs)[0])
  {
  }

  function WithQueries(uri: Fields, queries: seq<Query>): Fields
  {
    uri.(queries := uri.queries + queries)
  }

  lemma {:induction false} ReadJoined(buf: string, at: nat, pairs: seq<Pair>, q: QueryScan)
    requires PairsOk(pairs) && At(buf, at, Join(pairs)) && at + |Join(pairs)| <= |buf|
    requires q.state == QueryName && q.prev == at
    ensures QueryRun(q, buf, at, at + |Join(pairs)|)
         == Parsed(Completed, QueryValue, WithQueries(q.uri, QueriesOf(pairs, at)))
    decreases |pairs|
  {
    var p, hi := pairs[0], at + |Join(pairs)|;
    var e := at + |PrintPair(p)|;
    var t := PairScan(q, p, at);
    hide At, PairOk, PrintPair, QueryStep, QueryRun, QueriesOf, AddQuery, WithQueries;
    if |pairs| == 1 {
      assert PrintPair(p) + "" == PrintPair(p);
      ReadPair(buf, at, p, q, hi);
      QueryEnds(t, buf, hi);
      LastQuery(q, p, at, pairs);
      TextEnds(p, at);
    } else {
      JoinSplit(buf, at, pairs);
      hide Join;
      ReadPair(buf, at, p, q, hi);
      JoinStarts(pairs[1..]);
      AtChar(buf, e, "&", 0);
      AtChar(buf, e + 1, Join(pairs[1..]), 0);
      ReadAnd(buf, t, e + 1, hi);
      var u := t.(state := QueryName, prev := e + 1, uri := AddQuery(t, e));
      ReadJoined(buf, e + 1, pairs[1..], u);
      TextEnds(p, at);
      MoreQueries(q, p, at, pairs);
    }
  }

  lemma QueryEnds(q: QueryScan, buf: string, hi: nat)
    requires hi <= |buf| && q.state == QueryValue
    ensures QueryRun(q, buf, hi, hi) == Parsed(Completed, QueryValue, AddQuery(q, hi))
  {
  }

  lemma TextEnds(p: Pair, at: nat)
    ensures at + |PrintPair(p)| == at + |p.name| + 1 + |p.value|
  {
  }

  lemma LastQuery(q: QueryScan, p: Pair, at: nat, pairs: seq<Pair>)
    requires pairs == [p]
    ensures AddQuery(PairScan(q, p, at), at + |p.name| + 1 + |p.value|) == WithQueries(q.uri, QueriesOf(pairs, at))
  {
  }

  lemma MoreQueries(q: QueryScan, p: Pair, at: nat, pairs: seq<Pair>)
    requires pairs != [] && pairs[0] == p
    ensures WithQueries(AddQuery(PairScan(q, p, at), at + |p.name| + 1 + |p.value|),
                        QueriesOf(pairs[1..], at + |PrintPair(p)| + 1))
         == WithQueries(q.uri, QueriesOf(pairs, at))
  {
  }

  lemma PairText(buf: string, at: nat, p: Pair)
    requires At(buf, at, PrintPair(p))
    ensures PairIn(buf, QueryOf(p, at)) == p
  {
    hide At, Text;
    PairSplit(buf, at, p);
    AtText(buf, at, p.name);
    AtText(buf, at + |p.name| + 1, p.value);
  }

  lemma PairsStep(buf: string, at: nat, pairs: seq<Pair>)
    requires pairs != [] && PairIn(buf, QueryOf(pairs[0], at)) == pairs[0]
    requires PairsIn(buf, QueriesOf(pairs[1..], at + |PrintPair(pairs[0])| + 1)) == pairs[1..]
    ensures PairsIn(buf, QueriesOf(pairs, at)) == pairs
  {
  }

  lemma {:induction false} PairsText(buf: string, at: nat, pairs: seq<Pair>)
    requires At(buf, at, Join(pairs))
    ensures PairsIn(buf, QueriesOf(pairs, at)) == pairs
    decreases |pairs|
  {
    if |pairs| == 1 {
      assert PrintPair(pairs[0]) + "" == PrintPair(pairs[0]);
      hide At, PairIn, QueryOf, PrintPair;
      PairText(buf, at, pairs[0]);
      assert pairs[1..] == [];
      PairsStep(buf, at, pairs);
    } else if |pairs| >= 2 {
      hide At, PairIn, QueryOf, PrintPair, Join, PairsIn, QueriesOf;
      JoinSplit(buf, at, pairs);
      PairText(buf, at, pairs[0]);
      PairsText(buf, at + |PrintPair(pairs[0])| + 1, pairs[1..]);
      PairsStep(buf, at, pairs);
    }
  }

  // ---------------------------------------------------------------- nothing else is accepted

  lemma FindPair(buf: string, at: nat, q: QueryScan, hi: nat) returns (p: Pair)
    requires at < hi <= |buf| && q.state == QueryName && q.prev == at && IsNameChar(buf[at])
    requires QueryRun(q, buf, at, hi).outcome == Completed
    ensures PairOk(p) && At(buf, at, PrintPair(p)) && at + |PrintPair(p)| <= hi
    ensures at + |PrintPair(p)| < hi ==> buf[at + |PrintPair(p)|] == '&'
  {
    var e := QueryLeaves(q, buf, at, hi);
    assert e < hi && buf[e] == '=';
    var t := q.(state := QueryValueStart, name := View(at, e));
    QueryStepsTo(q, buf, e, hi, t);
    assert e + 1 < hi && IsNameChar(buf[e + 1]);
    var u := t.(state := QueryValue, prev := e + 1);
    QueryStepsTo(t, buf, e + 1, hi, u);
    var e2 := QueryLeaves(u, buf, e + 2, hi);
    assert e2 < hi ==> buf[e2] == '&';
    p := Pair(buf[at..e], buf[e + 1..e2]);
    hide QueryRun;
    forall k | at <= k < e ensures IsNameChar(buf[k]) {
      assert QueryStep(q, buf, k) == QueryGo(q);
    }
    forall k | e + 1 <= k < e2 ensures IsNameChar(buf[k]) {
      assert k > e + 1 ==> QueryStep(u, buf, k) == QueryGo(u);
    }
    hide QueryStep, IsNameChar;
    PairSliced(buf, at, e, e2);
  }

  lemma PairSliced(buf: string, at: nat, e: nat, e2: nat)
    requires at <= e < e2 <= |buf| && buf[e] == '='
    ensures At(buf, at, PrintPair(Pair(buf[at..e], buf[e + 1..e2])))
    ensures at + |PrintPair(Pair(buf[at..e], buf[e + 1..e2]))| == e2
  {
    assert buf[at..e2] == buf[at..e] + ("=" + buf[e + 1..e2]);
  }

  lemma AndFollowed(buf: string, q: QueryScan, e: nat, hi: nat)
    requires e < hi <= |buf| && q.state == QueryValue && buf[e] == '&' && QueryRun(q, buf, e, hi).outcome == Completed
    ensures e + 1 < hi && IsNameChar(buf[e + 1])
  {
  }

  lemma JoinMore(buf: string, at: nat, p: Pair, rest: seq<Pair>)
    requires rest != [] && At(buf, at, PrintPair(p)) && At(buf, at + |PrintPair(p)|, "&")
    requires At(buf, at + |PrintPair(p)| + 1, Join(rest))
    ensures At(buf, at, Join([p] + rest)) && |Join([p] + rest)| == |PrintPair(p)| + 1 + |Join(rest)|
  {
  }

  lemma {:induction false} FindJoined(buf: string, at: nat, q: QueryScan, hi: nat) returns (pairs: seq<Pair>)
    requires at < hi <= |buf| && q.state == QueryName && q.prev == at && IsNameChar(buf[at])
    requires QueryRun(q, buf, at, hi).outcome == Completed
    ensures PairsOk(pairs) && At(buf, at, Join(pairs)) && at + |Join(pairs)| == hi
    decreases hi - at
  {
    hide QueryRun, QueryStep, PairOk, PrintPair;
    var p := FindPair(buf, at, q, hi);
    var e := at + |PrintPair(p)|;
    if e == hi {
      pairs := [p];
      assert PrintPair(p) + "" == PrintPair(p);
    } else {
      assert At(buf, e, "&");
      hide At, Join;
      ReadPair(buf, at, p, q, hi);
      var t := PairScan(q, p, at);
      AndFollowed(buf, t, e, hi);
      ReadAnd(buf, t, e + 1, hi);
      var rest := FindJoined(buf, e + 1, t.(state := QueryName, prev := e + 1, uri := AddQuery(t, e)), hi);
      JoinMore(buf, at, p, rest);
      pairs := [p] + rest;
    }
  }

  // ---------------------------------------------------------------- both ways

  /** Parsing a joined list gives back the list. */
  lemma ParsesJoined(state: State, uri: Fields, buf: string, pairs: seq<Pair>)
    requires uri.queryText.lo <= uri.queryText.hi <= |buf| && PairsOk(pairs)
    requires Text(buf, uri.queryText) == Join(pairs)
    ensures ParseQueries(state, uri, buf)
         == Parsed(Completed, QueryValue, WithQueries(uri, QueriesOf(pairs, uri.queryText.lo)))
    ensures PairsIn(buf, QueriesOf(pairs, uri.queryText.lo)) == pairs
  {
    var at := uri.queryText.lo;
    assert At(buf, at, Join(pairs)) && at + |Join(pairs)| == uri.queryText.hi;
    JoinStarts(pairs);
    AtChar(buf, at, Join(pairs), 0);
    hide At, Join, QueryRun, PairsOk;
    ReadJoined(buf, at, pairs, QueryScan(QueryName, at, NO_VIEW, uri));
    PairsText(buf, at, pairs);
  }

  lemma FindQueries(state: State, uri: Fields, buf: string) returns (pairs: seq<Pair>)
    requires uri.queryText.lo < uri.queryText.hi <= |buf| && ParseQueries(state, uri, buf).outcome == Completed
    ensures PairsOk(pairs) && Text(buf, uri.queryText) == Join(pairs)
  {
    hide QueryRun, Join, PairsOk;
    var at := uri.queryText.lo;
    pairs := FindJoined(buf, at, QueryScan(QueryName, at, NO_VIEW, uri), uri.queryText.hi);
  }

  /** A non-empty query text is accepted if and only if it is a joined list of pairs. */
  lemma AcceptedExactly(state: State, uri: Fields, buf: string)
    requires uri.queryText.lo < uri.queryText.hi <= |buf|
    ensures ParseQueries(state, uri, buf).outcome == Completed
       <==> exists pairs :: PairsOk(pairs) && Text(buf, uri.queryText) == Join(pairs)
  {
    hide ParseQueries, PairsOk, Join, Text;
    if ParseQueries(state, uri, buf).outcome == Completed {
      var pairs := FindQueries(state, uri, buf);
    }
    if pairs :| PairsOk(pairs) && Text(buf, uri.queryText) == Join(pairs) {
      ParsesJoined(state, uri, buf, pairs);
    }
  }

  /** Joining what was parsed gives back the query text. */
  lemma Rejoins(state: State, uri: Fields, buf: string)
    requires uri.queryText.lo < uri.queryText.hi <= |buf| && uri.queries == []
    requires ParseQueries(state, uri, buf).outcome == Completed
    ensures Join(PairsIn(buf, ParseQueries(state, uri, buf).uri.queries)) == Text(buf, uri.queryText)
  {
    hide ParseQueries, PairsOk, Join, Text;
    var pairs := FindQueries(state, uri, buf);
    ParsesJoined(state, uri, buf, pairs);
    assert [] + QueriesOf(pairs, uri.queryText.lo) == QueriesOf(pairs, uri.queryText.lo);
  }
}
