/** The URI parser as functions: one iteration of each of its two loops. */
module UriMachine {
  import opened Options
  import opened HttpText

  datatype Outcome =
    | Incompleted
    | Completed
    | Error
    | Fault   // a port outside int

  datatype State =
    | SchemeStart
    | SchemeEnd
    | SchemeEndSlash
    | SchemeEndSlashSlash
    | UsernameOrHostname
    | PortOrPasswordStart
    | PortOrPassword
    | HostnameStart
    | Hostname
    | Password
    | PortStart
    | Port
    | Path
    | QueryStart
    | QueryText
    | HashStart
    | NewQueryStart
    | QueryName
    | QueryValueStart
    | QueryValue

  datatype Query = Query(name: View, value: View)

  /** The Uri a parse fills in; port is a uint16. */
  datatype Fields = Fields(
    scheme: View,
    username: View,
    password: View,
    hostname: View,
    portText: View,
    port: nat,
    path: View,
    queryText: View,
    queries: seq<Query>,
    fragment: View)

  const NO_FIELDS := Fields(NO_VIEW, NO_VIEW, NO_VIEW, NO_VIEW, NO_VIEW, 80, NO_VIEW, NO_VIEW, [], NO_VIEW)

  const TWO_16: nat := 0x1_0000

  predicate IsUnreserved(c: char)
  {
    IsAlnum(c) || c == '-' || c == '.' || c == '_' || c == '~'
  }

  /** A character of a name, also percent-encoded. */
  predicate IsNameChar(c: char)
  {
    IsUnreserved(c) || c == '%'
  }

  predicate IsSchemeChar(c: char)
  {
    IsAlnum(c) || c == '+' || c == '-' || c == '.'
  }

  predicate Empty(v: View)
  {
    v.lo == v.hi
  }

  /** What a call leaves behind: its result, the parser's state, and the URI. */
  datatype Parsed = Parsed(outcome: Outcome, state: State, uri: Fields)

  // ---------------------------------------------------------------- parse_queries

  /** The locals of the query loop: state, prev_it, query_name. */
  datatype QueryScan = QueryScan(state: State, prev: nat, name: View, uri: Fields)

  datatype QueryResult = QueryGo(scan: QueryScan) | QueryStop(state: State, uri: Fields)

  /** A query that ends at i. */
  function AddQuery(q: QueryScan, i: nat): Fields
  {
    q.uri.(queries := q.uri.queries + [Query(q.name, View(q.prev, i))])
  }

  /** One iteration of the query loop, at index i; it stops only on an error. */
  function QueryStep(q: QueryScan, buf: string, i: nat): QueryResult
    requires i < |buf|
  {
    var c := buf[i];
    if q.state == QueryName then
      if IsNameChar(c) then QueryGo(q)
      else if c == '=' then QueryGo(q.(state := QueryValueStart, name := View(q.prev, i)))
      else QueryStop(q.state, q.uri)
    else if q.state == QueryValueStart then
      if IsNameChar(c) then QueryGo(q.(state := QueryValue, prev := i)) else QueryStop(q.state, q.uri)
    else if q.state == QueryValue then
      if IsNameChar(c) then QueryGo(q)
      else if c == '&' then QueryGo(q.(state := NewQueryStart, uri := AddQuery(q, i)))
      else QueryStop(q.state, q.uri)
    else if q.state == NewQueryStart then
      if IsNameChar(c) then QueryGo(q.(state := QueryName, prev := i)) else QueryStop(q.state, q.uri)
    else QueryStop(q.state, q.uri)
  }

  /** The query loop from index i up to hi. */
  function QueryRun(q: QueryScan, buf: string, i: nat, hi: nat): Parsed
    requires i <= hi <= |buf|
    decreases hi - i
  {
    if i == hi then
      if q.state == QueryValue then Parsed(Completed, QueryValue, AddQuery(q, hi)) else Parsed(Error, q.state, q.uri)
    else match QueryStep(q, buf, i)
      case QueryGo(next) => QueryRun(next, buf, i + 1, hi)
      case QueryStop(state, uri) => Parsed(Error, state, uri)
  }

  function ParseQueries(state: State, uri: Fields, buf: string): Parsed
    requires uri.queryText.lo <= uri.queryText.hi <= |buf|
  {
    var v := uri.queryText;
    if Empty(v) then Parsed(Completed, state, uri)
    else if !IsNameChar(buf[v.lo]) then Parsed(Error, state, uri)
    else QueryRun(QueryScan(QueryName, v.lo, NO_VIEW, uri), buf, v.lo, v.hi)
  }

  // ---------------------------------------------------------------- parse

  /** The locals of the main loop: state, prev_it. */
  datatype Scan = Scan(state: State, prev: nat, uri: Fields)

  datatype Result = Go(scan: Scan) | Stop(parsed: Parsed)

  function Fail(s: Scan): Result
  {
    Stop(Parsed(Error, s.state, s.uri))
  }

  /** The '/' at i that ends a port. */
  function EndPort(s: Scan, buf: string, i: nat): Result
    requires i <= |buf|
  {
    var uri := s.uri.(portText := View(s.prev, i));
    if !AllDigits(Text(buf, uri.portText)) then Stop(Parsed(Error, s.state, uri))
    else if s.prev > i || Atoi(buf, s.prev) == None then Stop(Parsed(Fault, s.state, uri))
    else Go(Scan(Path, i, uri.(port := Atoi(buf, s.prev).value % TWO_16)))
  }

  /** What keeps the views in the buffer. */
  predicate Inside(s: Scan, buf: string, i: nat)
  {
    s.uri.queryText.lo <= s.uri.queryText.hi <= |buf| && s.prev <= i <= |buf|
  }

  /** One iteration of the main loop, at index i. */
  function Step(s: Scan, buf: string, i: nat): Result
    requires i < |buf| && Inside(s, buf, i)
  {
    var c := buf[i];
    match s.state
    case SchemeStart =>
      if IsSchemeChar(c) then Go(s)
      else if c == ':' then Go(s.(state := SchemeEnd, uri := s.uri.(scheme := View(s.prev, i))))
      else Fail(s)
    case SchemeEnd =>
      if c == '/' then Go(s.(state := SchemeEndSlash))
      else if IsAlnum(c) then Go(s.(state := UsernameOrHostname, prev := i)) else Fail(s)
    case SchemeEndSlash =>
      if c == '/' then Go(s.(state := SchemeEndSlashSlash))
      else if IsAlnum(c) then Go(s.(state := UsernameOrHostname, prev := i)) else Fail(s)
    case SchemeEndSlashSlash =>
      if IsAlnum(c) then Go(s.(state := UsernameOrHostname, prev := i)) else Fail(s)
    case UsernameOrHostname =>
      if IsNameChar(c) then Go(s)
      else if c == ':' then Go(s.(state := PortOrPasswordStart, uri := s.uri.(username := View(s.prev, i))))
      else if c == '@' then Go(s.(state := HostnameStart, uri := s.uri.(username := View(s.prev, i))))
      else if c == '/' then Go(s.(state := Path, prev := i, uri := s.uri.(hostname := View(s.prev, i))))
      else Fail(s)
    case PortOrPasswordStart =>
      if IsUnreserved(c) then Go(s.(state := PortOrPassword, prev := i)) else Fail(s)
    case PortOrPassword =>
      if IsDigit(c) then Go(s)
      else if c == '/' then EndPort(s.(uri := s.uri.(hostname := s.uri.username, username := s.uri.hostname)), buf, i)
      else if IsAlnum(c) || c == '%' then Go(s.(state := Password))
      else if c == '@' then Go(s.(state := HostnameStart, uri := s.uri.(password := View(s.prev, i))))
      else Fail(s)
    case Password =>
      if IsAlnum(c) || c == '%' then Go(s)
      else if c == '@' then Go(s.(state := HostnameStart, uri := s.uri.(password := View(s.prev, i))))
      else Fail(s)
    case HostnameStart => if IsNameChar(c) then Go(s.(state := Hostname, prev := i)) else Fail(s)
    case Hostname =>
      if IsNameChar(c) then Go(s)
      else if c == ':' then Go(s.(state := PortStart, uri := s.uri.(hostname := View(s.prev, i))))
      else if c == '/' then Go(s.(state := Path, prev := i, uri := s.uri.(hostname := View(s.prev, i))))
      else Fail(s)
    case PortStart => if IsDigit(c) then Go(s.(state := Port, prev := i)) else Fail(s)
    case Port => if IsDigit(c) then Go(s) else if c == '/' then EndPort(s, buf, i) else Fail(s)
    case Path =>
      if c == '#' then Go(s.(state := HashStart, uri := s.uri.(path := View(s.prev, i))))
      else if c == '?' then Go(s.(state := QueryStart, uri := s.uri.(path := View(s.prev, i))))
      else Go(s)
    case HashStart => Stop(ParseQueries(HashStart, s.uri.(fragment := View(i, |buf|)), buf))
    case QueryStart => Go(s.(state := QueryText, prev := i))
    case QueryText =>
      if c == '#' then Go(s.(state := HashStart, uri := s.uri.(queryText := View(s.prev, i)))) else Go(s)
    case NewQueryStart => Fail(s)
    case QueryName => Fail(s)
    case QueryValueStart => Fail(s)
    case QueryValue => Fail(s)
  }

  /** What is done at the end of the buffer, in whatever state. */
  function Finish(s: Scan, buf: string): Parsed
    requires Inside(s, buf, |buf|)
  {
    if Empty(s.uri.path) then Parsed(Completed, s.state, s.uri.(path := View(s.prev, |buf|)))
    else if Empty(s.uri.queryText) then ParseQueries(s.state, s.uri.(queryText := View(s.prev, |buf|)), buf)
    else Parsed(Incompleted, s.state, s.uri)
  }

  lemma StepInside(s: Scan, buf: string, i: nat)
    requires i < |buf| && Inside(s, buf, i)
    ensures Step(s, buf, i).Go? ==> Inside(Step(s, buf, i).scan, buf, i + 1)
  {
  }

  /** The main loop from index i on. */
  function Run(s: Scan, buf: string, i: nat): Parsed
    requires i <= |buf| && Inside(s, buf, i)
    decreases |buf| - i
  {
    if i == |buf| then Finish(s, buf) else
    StepInside(s, buf, i);
    match Step(s, buf, i)
    case Go(next) => Run(next, buf, i + 1)
    case Stop(parsed) => parsed
  }

  /** A URI that is used again may hold a query text, but one within this buffer. */
  predicate QueryWithin(uri: Fields, buf: string)
  {
    uri.queryText.lo <= uri.queryText.hi <= |buf|
  }

  function Parse(uri: Fields, buf: string): Parsed
    requires QueryWithin(uri, buf)
  {
    Run(Scan(SchemeStart, 0, uri), buf, 0)
  }

  // ---------------------------------------------------------------- moving along the buffer

  lemma StepsTo(s: Scan, buf: string, i: nat, t: Scan)
    requires i < |buf| && Inside(s, buf, i) && Step(s, buf, i) == Go(t)
    ensures Inside(t, buf, i + 1) && Run(s, buf, i) == Run(t, buf, i + 1)
  {
  }

  lemma {:induction false} RunOver(s: Scan, buf: string, i: nat, j: nat)
    requires i <= j <= |buf| && Inside(s, buf, i)
    requires forall k :: i <= k < j ==> Step(s, buf, k) == Go(s)
    ensures Run(s, buf, i) == Run(s, buf, j)
    decreases j - i
  {
    hide Step;
    if i < j {
      RunOver(s, buf, i + 1, j);
    }
  }

  /** Where the loop leaves a state that keeps its locals: at the end of the buffer, or before it. */
  lemma {:induction false} Leaves(s: Scan, buf: string, i: nat) returns (e: nat)
    requires i <= |buf| && Inside(s, buf, i)
    ensures i <= e <= |buf| && (e < |buf| ==> Step(s, buf, e) != Go(s))
    ensures forall k :: i <= k < e ==> Step(s, buf, k) == Go(s)
    ensures Run(s, buf, e) == Run(s, buf, i)
    decreases |buf| - i
  {
    hide Step;
    e := i;
    if i < |buf| && Step(s, buf, i) == Go(s) {
      e := Leaves(s, buf, i + 1);
    }
  }

  lemma {:induction false} QueryRunOver(q: QueryScan, buf: string, i: nat, j: nat, hi: nat)
    requires i <= j <= hi <= |buf|
    requires forall k :: i <= k < j ==> QueryStep(q, buf, k) == QueryGo(q)
    ensures QueryRun(q, buf, i, hi) == QueryRun(q, buf, j, hi)
    decreases j - i
  {
    hide QueryStep;
    if i < j {
      QueryRunOver(q, buf, i + 1, j, hi);
    }
  }

  lemma {:induction false} QueryLeaves(q: QueryScan, buf: string, i: nat, hi: nat) returns (e: nat)
    requires i <= hi <= |buf|
    ensures i <= e <= hi && (e < hi ==> QueryStep(q, buf, e) != QueryGo(q))
    ensures forall k :: i <= k < e ==> QueryStep(q, buf, k) == QueryGo(q)
    ensures QueryRun(q, buf, e, hi) == QueryRun(q, buf, i, hi)
    decreases hi - i
  {
    hide QueryStep;
    e := i;
    if i < hi && QueryStep(q, buf, i) == QueryGo(q) {
      e := QueryLeaves(q, buf, i + 1, hi);
    }
  }
}
