/** What the URI parser says of every buffer: complete, incomplete, rejected, or without a meaning. */
module UriOutcomes {
  import opened Options
  import opened HttpText
  import opened UriMachine
  import opened QueryList
  import opened UriGrammar
  import opened UriLanguage
  import opened UriStubs

  // ---------------------------------------------------------------- the texts

  /** The digits that a '/' behind the part would end as a port. */
  function PortDigits(part: Part): Option<string>
  {
    match part
    case Secret(_, text) => if AllDigits(text) then Some(text) else None
    case Digits(_, _, digits) => Some(digits)
    case _ => None
  }

  /** A port that is no int, in front of the path. */
  ghost predicate FaultyPort(buf: string, stub: Stub)
  {
    StubOk(stub) && stub.InAuthority? && PortDigits(stub.part).Some? && AllDigits(PortDigits(stub.part).value)
    && Decimal(PortDigits(stub.part).value) > INT_MAX && At(buf, 0, PrintStub(stub) + "/")
  }

  predicate NoHash(s: string)
  {
    forall k :: 1 <= k < |s| ==> s[k] != '#'
  }

  /** A query, and a '#' with nothing behind it. */
  ghost predicate EndsAtHash(buf: string, u: UriText, query: string)
  {
    UriOk(u) && u.query == None && u.fragment == None && |query| >= 1 && NoHash(query)
    && buf == Print(u) + ("?" + (query + "#"))
  }

  ghost predicate CompleteUri(buf: string)
  {
    (exists u :: UriOk(u) && buf == Print(u)) || (exists stub :: StubOk(stub) && buf == PrintStub(stub))
  }

  ghost predicate OpenUri(buf: string)
  {
    exists u, query :: EndsAtHash(buf, u, query)
  }

  ghost predicate FaultyUri(buf: string)
  {
    exists stub :: FaultyPort(buf, stub)
  }

  // ---------------------------------------------------------------- a port that is no int

  lemma EndPortFaults(s: Scan, buf: string, digits: string)
    requires At(buf, s.prev, digits + "/") && |digits| >= 1 && AllDigits(digits)
    ensures s.prev + |digits| < |buf| && buf[s.prev + |digits|] == '/'
    ensures var r := EndPort(s, buf, s.prev + |digits|);
            if Decimal(digits) > INT_MAX then r.Stop? && r.parsed.outcome == Fault else r.Go?
  {
    hide At, Atoi, Decimal, Text, AllDigits;
    AtSplit(buf, s.prev, digits, "/");
    AtChar(buf, s.prev + |digits|, "/", 0);
    AtText(buf, s.prev, digits);
    PlainDecimal(buf, s.prev, digits);
  }

  lemma StopsHere(s: Scan, buf: string, i: nat)
    requires i < |buf| && Inside(s, buf, i) && Step(s, buf, i).Stop?
    ensures Run(s, buf, i) == Step(s, buf, i).parsed
  {
  }

  /** Behind a stub with a port, a '/' ends the port. */
  lemma StepPort(s: Scan, buf: string, i: nat)
    requires i < |buf| && Inside(s, buf, i) && buf[i] == '/' && s.state in {Port, PortOrPassword}
    ensures Step(s, buf, i)
         == EndPort(if s.state == Port then s
                    else s.(uri := s.uri.(hostname := s.uri.username, username := s.uri.hostname)), buf, i)
  {
    hide EndPort;
  }

  /** Where the port of a stub stands. */
  lemma PortThere(buf: string, stub: Stub, digits: string)
    requires StubOk(stub) && stub.InAuthority? && PortDigits(stub.part) == Some(digits) && AllDigits(digits)
    requires At(buf, 0, PrintStub(stub) + "/")
    ensures var s := StubScan(stub);
            |digits| >= 1 && s.state in {Port, PortOrPassword} && s.prev + |digits| == |PrintStub(stub)|
            && At(buf, s.prev, digits + "/")
  {
    hide At;
    var prior := (stub.scheme + ":") + stub.slashes;
    if stub.part.Secret? {
      assert AllDigits(digits[1..]);
      assert PrintStub(stub) + "/" == (prior + (stub.part.name + ":")) + (digits + "/");
      AtSplit(buf, 0, prior + (stub.part.name + ":"), digits + "/");
    } else {
      hide PrintLogin, LoginOk, HostOk, LoginFields;
      var host := (PrintLogin(stub.part.login) + stub.part.host) + ":";
      assert PrintStub(stub) + "/" == (prior + host) + (digits + "/");
      AtSplit(buf, 0, prior + host, digits + "/");
    }
  }

  lemma PortFaults(buf: string, stub: Stub)
    requires FaultyPort(buf, stub)
    ensures Parse(NO_FIELDS, buf).outcome == Fault
  {
    hide Step, At, Decimal, AllDigits, StubScan, PrintStub, StubOk, EndPort, PortDigits;
    var digits := PortDigits(stub.part).value;
    var n := |PrintStub(stub)|;
    AtText(buf, 0, PrintStub(stub) + "/");
    AtSplit(buf, 0, PrintStub(stub), "/");
    AtIsPrefix(buf, PrintStub(stub));
    StubRead(buf, stub, n);
    PortThere(buf, stub, digits);
    var s := StubScan(stub);
    BehindInside(buf, stub, n);
    AtChar(buf, n, "/", 0);
    StepPort(s, buf, n);
    EndPortFaults(if s.state == Port then s
                  else s.(uri := s.uri.(hostname := s.uri.username, username := s.uri.hostname)), buf, digits);
    hide Run;
    StopsHere(s, buf, n);
  }

  lemma AtIsPrefix(buf: string, s: string)
    requires At(buf, 0, s)
    ensures |s| <= |buf| && buf[..|s|] == s
  {
  }

  lemma BehindInside(buf: string, stub: Stub, i: nat)
    requires Behind(buf, stub, i)
    ensures Inside(StubScan(stub), buf, i) && i <= |buf| && buf[..i] == PrintStub(stub) && StubOk(stub)
        && i == |PrintStub(stub)|
  {
  }

  // ---------------------------------------------------------------- how far the authority is read

  /** The end of a search along stubs: the buffer's end, a character that is rejected, a port without a meaning, or a
      '/'. */
  datatype Way = Broken | Rejected | Faulty | AtSlash

  ghost predicate Ended(buf: string, stub: Stub, i: nat, way: Way)
  {
    Behind(buf, stub, i)
    && match way
       case Broken => i == |buf|
       case Rejected => i < |buf| && Step(StubScan(stub), buf, i).Stop?
         && Step(StubScan(stub), buf, i).parsed.outcome == Error
       case Faulty => i < |buf| && Step(StubScan(stub), buf, i).Stop?
         && Step(StubScan(stub), buf, i).parsed.outcome == Fault
       case AtSlash => i < |buf| && Step(StubScan(stub), buf, i).Go? && Step(StubScan(stub), buf, i).scan.state == Path
  }

  /** Every buffer is read along stubs until one of these. */
  lemma {:induction false} FollowStubs(buf: string, stub: Stub, i: nat) returns (last: Stub, e: nat, way: Way)
    requires Behind(buf, stub, i)
    ensures Ended(buf, last, e, way) && Run(StubScan(stub), buf, i) == Run(StubScan(last), buf, e)
    decreases |buf| - i
  {
    hide Step, PrintStub, StubOk, After, StubScan;
    last, e := stub, i;
    StubState(stub);
    var s := StubScan(stub);
    if i == |buf| {
      way := Broken;
    } else if Step(s, buf, i).Stop? {
      StopsFail(s, buf, i);
      way := if Step(s, buf, i).parsed.outcome == Error then Rejected else Faulty;
    } else if Step(s, buf, i).scan.state == Path {
      way := AtSlash;
    } else {
      StubTakes(buf, stub, i);
      var next := After(stub, buf[i]);
      StepsTo(s, buf, i, StubScan(next));
      hide Behind, Run, Ended;
      last, e, way := FollowStubs(buf, next, i + 1);
    }
  }

  /** A step of a stub is a fault only at the end of a port. */
  lemma FaultsAtPort(s: Scan, buf: string, i: nat)
    requires i < |buf| && Inside(s, buf, i) && s.state !in {Path, HashStart, QueryStart, QueryText}
    requires Step(s, buf, i).Stop? && Step(s, buf, i).parsed.outcome == Fault
    ensures buf[i] == '/' && s.state in {Port, PortOrPassword} && AllDigits(Text(buf, View(s.prev, i)))
  {
  }

  /** And a path begins behind a host, or behind a port. */
  lemma SlashBehind(s: Scan, buf: string, i: nat)
    requires i < |buf| && Inside(s, buf, i) && s.state !in {Path, HashStart, QueryStart, QueryText}
    requires Step(s, buf, i).Go? && Step(s, buf, i).scan.state == Path
    ensures buf[i] == '/' && s.state in {UsernameOrHostname, Hostname, Port, PortOrPassword}
    ensures s.state in {Port, PortOrPassword} ==> AllDigits(Text(buf, View(s.prev, i)))
  {
  }

  lemma TailText(buf: string, prior: string, text: string, i: nat)
    requires i <= |buf| && buf[..i] == prior + text
    ensures |prior| + |text| == i && Text(buf, View(|prior|, i)) == text
  {
    assert buf[|prior|..i] == buf[..i][|prior|..];
  }

  /** A '/' behind digits where a port may stand. */
  lemma PortShape(buf: string, stub: Stub, i: nat)
    requires Behind(buf, stub, i) && i < |buf| && buf[i] == '/' && StubScan(stub).state in {Port, PortOrPassword}
    requires AllDigits(Text(buf, View(StubScan(stub).prev, i)))
    ensures stub.InAuthority? && (stub.part.Secret? || stub.part.Digits?)
    ensures PortDigits(stub.part).Some? && AllDigits(PortDigits(stub.part).value) && At(buf, 0, PrintStub(stub) + "/")
  {
    assert buf[..i + 1] == buf[..i] + "/";
    hide AllDigits, Text;
    var prior := (stub.scheme + ":") + stub.slashes;
    if stub.part.Secret? {
      assert PrintStub(stub) == (prior + (stub.part.name + ":")) + stub.part.text;
      TailText(buf, prior + (stub.part.name + ":"), stub.part.text, i);
    }
  }

  /** A fault on the way is a port without a meaning. */
  lemma FaultyFound(buf: string, stub: Stub, i: nat)
    requires Ended(buf, stub, i, Faulty)
    ensures FaultyPort(buf, stub)
  {
    StubState(stub);
    BehindInside(buf, stub, i);
    var s := StubScan(stub);
    FaultsAtPort(s, buf, i);
    hide Text;
    PortShape(buf, stub, i);
    var digits := PortDigits(stub.part).value;
    hide Step, At, Decimal, AllDigits, StubScan, PrintStub, StubOk, EndPort, PortDigits, Behind;
    PortThere(buf, stub, digits);
    StepPort(s, buf, i);
    EndPortFaults(if s.state == Port then s
                  else s.(uri := s.uri.(hostname := s.uri.username, username := s.uri.hostname)), buf, digits);
  }

  // ---------------------------------------------------------------- from a stub to its authority

  /** What a stub with a '/' behind it has for its authority. */
  function AuthorityIn(part: Part): Authority
    requires part.Name? || part.Secret? || part.Host? || part.Digits?
  {
    match part
    case Name(name) => HostOnly(name)
    case Secret(name, text) => HostPort(name, text)
    case Host(login, host) => Logged(login, host, None)
    case Digits(login, host, digits) => Logged(login, host, Some(digits))
  }

  function Logged(login: Login, host: string, port: Option<string>): Authority
  {
    if login.password == None then UserHost(login.user, host, port)
    else PasswordHost(login.user, login.password.value, host, port)
  }

  lemma LoggedPrints(login: Login, host: string, port: Option<string>)
    ensures PrintAuthority(Logged(login, host, port)) == (PrintLogin(login) + host) + PrintPort(port)
  {
    hide PrintPort;
    if login.password == None {
      assert login.user + ("@" + (host + PrintPort(port))) == ((login.user + "@") + host) + PrintPort(port);
    } else {
      var password := login.password.value;
      assert login.user + (":" + (password + ("@" + (host + PrintPort(port)))))
          == ((((login.user + ":") + password) + "@") + host) + PrintPort(port);
    }
  }

  lemma AuthorityPrints(part: Part)
    requires part.Name? || part.Secret? || part.Host? || part.Digits?
    ensures PrintAuthority(AuthorityIn(part)) == PrintPart(part)
  {
    hide PrintLogin;
    match part {
      case Name(_) =>
      case Secret(name, text) =>
        assert name + (":" + text) == (name + ":") + text;
      case Host(login, host) =>
        LoggedPrints(login, host, None);
        assert (PrintLogin(login) + host) + "" == PrintLogin(login) + host;
      case Digits(login, host, digits) =>
        LoggedPrints(login, host, Some(digits));
        assert (PrintLogin(login) + host) + (":" + digits) == ((PrintLogin(login) + host) + ":") + digits;
    }
  }

  lemma NamedBefore(stub: Stub)
    requires StubScan(stub).state in {UsernameOrHostname, Hostname, Port, PortOrPassword}
    ensures stub.InAuthority? && (stub.part.Name? || stub.part.Secret? || stub.part.Host? || stub.part.Digits?)
    ensures StubScan(stub).state in {UsernameOrHostname, Hostname} ==> stub.part.Name? || stub.part.Host?
  {
  }

  /** The authority of a buffer that gets to its path. */
  lemma AuthorityFound(buf: string, stub: Stub, i: nat) returns (a: Authority)
    requires Ended(buf, stub, i, AtSlash)
    ensures stub.InAuthority? && AuthorityOk(a) && PrintAuthority(a) == PrintPart(stub.part)
    ensures SchemeOk(stub.scheme) && stub.slashes in {"", "/", "//"} && i < |buf| && buf[i] == '/'
    ensures buf[..i] == (stub.scheme + ":") + (stub.slashes + PrintAuthority(a))
  {
    StubState(stub);
    BehindInside(buf, stub, i);
    var s := StubScan(stub);
    SlashBehind(s, buf, i);
    NamedBefore(stub);
    a := AuthorityIn(stub.part);
    AuthorityPrints(stub.part);
    Regroup(stub.scheme + ":", stub.slashes, PrintPart(stub.part));
    hide Text, PrintAuthority;
    if s.state in {Port, PortOrPassword} {
      PortShape(buf, stub, i);
      var digits := PortDigits(stub.part).value;
      PortGoes(buf, stub, i, digits);
    }
    hide Step, At, Decimal, AllDigits, StubScan, PrintStub, EndPort, Behind, HostOk, PasswordOk, FirstNameOk;
  }

  lemma PortGoes(buf: string, stub: Stub, i: nat, digits: string)
    requires Ended(buf, stub, i, AtSlash) && StubScan(stub).state in {Port, PortOrPassword} && buf[i] == '/'
    requires StubOk(stub) && stub.InAuthority? && PortDigits(stub.part) == Some(digits) && AllDigits(digits)
    requires At(buf, 0, PrintStub(stub) + "/")
    ensures PortOk(digits)
  {
    BehindInside(buf, stub, i);
    var s := StubScan(stub);
    hide At, Decimal, AllDigits, StubScan, PrintStub, StubOk, EndPort, PortDigits, Behind;
    PortThere(buf, stub, digits);
    StepPort(s, buf, i);
    hide Step;
    EndPortFaults(if s.state == Port then s
                  else s.(uri := s.uri.(hostname := s.uri.username, username := s.uri.hostname)), buf, digits);
  }

  // ---------------------------------------------------------------- from the path on

  lemma {:induction false} QueryRunDecides(q: QueryScan, buf: string, i: nat, hi: nat)
    requires i <= hi <= |buf|
    ensures QueryRun(q, buf, i, hi).outcome in {Completed, Error}
    decreases hi - i
  {
    hide QueryStep;
    if i < hi && QueryStep(q, buf, i).QueryGo? {
      QueryRunDecides(QueryStep(q, buf, i).scan, buf, i + 1, hi);
    }
  }

  lemma QueriesDecide(state: State, uri: Fields, buf: string)
    requires uri.queryText.lo <= uri.queryText.hi <= |buf|
    ensures ParseQueries(state, uri, buf).outcome in {Completed, Error}
  {
    var v := uri.queryText;
    if !Empty(v) && IsNameChar(buf[v.lo]) {
      QueryRunDecides(QueryScan(QueryName, v.lo, NO_VIEW, uri), buf, v.lo, v.hi);
    }
  }

  /** Behind a '#': the buffer's end, or a fragment. */
  lemma HashOutcome(s: Scan, buf: string, i: nat)
    requires i <= |buf| && Inside(s, buf, i) && s.state == HashStart && !Empty(s.uri.path)
    ensures Run(s, buf, i).outcome == Incompleted ==> i == |buf| && !Empty(s.uri.queryText)
    ensures Run(s, buf, i).outcome != Fault
    ensures i == |buf| && !Empty(s.uri.queryText) ==> Run(s, buf, i).outcome == Incompleted
  {
    hide ParseQueries;
    if i < |buf| {
      QueriesDecide(HashStart, s.uri.(fragment := View(i, |buf|)), buf);
    } else if Empty(s.uri.queryText) {
      QueriesDecide(s.state, s.uri.(queryText := View(s.prev, |buf|)), buf);
    }
  }

  lemma QueryTextOutcome(s: Scan, buf: string, q: nat) returns (e: nat)
    requires s.state == QueryText && s.prev == q < |buf| && Inside(s, buf, q + 1)
    requires !Empty(s.uri.path) && Empty(s.uri.queryText)
    ensures Run(s, buf, q + 1).outcome != Fault
    ensures Run(s, buf, q + 1).outcome == Incompleted ==>
              q < e && |buf| == e + 1 && buf[e] == '#' && NoHash(buf[q..e])
  {
    hide Run, ParseQueries;
    e := Leaves(s, buf, q + 1);
    forall k | q + 1 <= k < e ensures buf[k] != '#' {
      assert Step(s, buf, k) == Go(s);
    }
    if e == |buf| {
      FinishQuery(s, buf);
      QueriesDecide(s.state, s.uri.(queryText := View(s.prev, |buf|)), buf);
    } else {
      assert buf[e] == '#';
      var t := s.(state := HashStart, uri := s.uri.(queryText := View(q, e)));
      StepsTo(s, buf, e, t);
      HashOutcome(t, buf, e + 1);
    }
  }

  /** What a run from the path on may come to. */
  lemma PathOutcome(buf: string, at: nat, s: Scan) returns (e: nat)
    requires s.state == Path && s.prev == at < |buf| && buf[at] == '/' && Inside(s, buf, at) && FreshRest(s.uri)
    ensures Run(s, buf, at).outcome != Fault
    ensures Run(s, buf, at).outcome == Incompleted ==>
              at < e && e + 2 < |buf| && PathOk(buf[at..e]) && buf[e] == '?' && buf[|buf| - 1] == '#'
              && NoHash(buf[e + 1..|buf| - 1])
  {
    hide Run, PathOk, ParseQueries;
    e := FindPathEnd(buf, at, s);
    if e == |buf| {
      PathFinish(s, buf);
    } else if buf[e] == '#' {
      var t := s.(state := HashStart, uri := s.uri.(path := View(at, e)));
      StepsTo(s, buf, e, t);
      HashOutcome(t, buf, e + 1);
    } else {
      var t := s.(state := QueryStart, uri := s.uri.(path := View(at, e)));
      StepsTo(s, buf, e, t);
      if e + 1 == |buf| {
        FinishQuery(t, buf);
        QueriesDecide(t.state, t.uri.(queryText := View(t.prev, |buf|)), buf);
      } else {
        var u := t.(state := QueryText, prev := e + 1);
        StepsTo(t, buf, e + 1, u);
        var x := QueryTextOutcome(u, buf, e + 1);
      }
    }
  }

  lemma PathFinish(s: Scan, buf: string)
    requires Inside(s, buf, |buf|) && Empty(s.uri.path)
    ensures Run(s, buf, |buf|).outcome == Completed
  {
  }

  // ---------------------------------------------------------------- a query with an empty fragment

  lemma HashText(u: UriText, more: string)
    requires u.query == None && u.fragment == None
    ensures Print(u) + more
         == (u.scheme + ":") + (u.slashes + (PrintAuthority(u.authority) + (u.path + more)))
  {
    RestAlone(u);
    hide PrintAuthority, Print;
    var authority := PrintAuthority(u.authority);
    Longer3(u.scheme + ":", u.slashes, authority + u.path, more);
    Longer3("", authority, u.path, more);
    assert "" + (authority + u.path) == authority + u.path
      && "" + (authority + (u.path + more)) == authority + (u.path + more);
  }

  lemma Regroup(a: string, b: string, c: string)
    ensures (a + b) + c == a + (b + c)
  {
  }

  lemma Longer3(a: string, b: string, c: string, more: string)
    ensures (a + (b + c)) + more == a + (b + (c + more))
  {
  }

  /** The pieces of such a buffer. */
  lemma HashSplit(buf: string, u: UriText, query: string)
    requires EndsAtHash(buf, u, query)
    ensures SchemeOk(u.scheme) && u.slashes in {"", "/", "//"} && AuthorityOk(u.authority) && PathOk(u.path)
    ensures |query| >= 1 && NoHash(query)
    ensures var a := AuthorityStart(u);
            var e := a + |PrintAuthority(u.authority)|;
            At(buf, 0, u.scheme + ":") && At(buf, |u.scheme| + 1, u.slashes)
            && At(buf, a, PrintAuthority(u.authority)) && At(buf, a, PrintAuthority(u.authority) + "/")
            && At(buf, e, u.path) && At(buf, e + |u.path|, "?") && At(buf, e + |u.path| + 1, query + "#")
            && |buf| == e + |u.path| + 1 + |query| + 1
  {
    hide PrintAuthority, AuthorityOk, At, SchemeOk, PathOk, Print, PrintRest, NoHash;
    HashText(u, "?" + (query + "#"));
    PathFirst(u);
    SplitSix(buf, u.scheme + ":", u.slashes, PrintAuthority(u.authority), u.path, query);
  }

  lemma SplitSix(buf: string, scheme: string, slashes: string, authority: string, path: string, query: string)
    requires buf == scheme + (slashes + (authority + (path + ("?" + (query + "#"))))) && |path| >= 1 && path[0] == '/'
    ensures var a := |scheme| + |slashes|;
            var e := a + |authority|;
            At(buf, 0, scheme) && At(buf, |scheme|, slashes) && At(buf, a, authority) && At(buf, a, authority + "/")
            && At(buf, e, path) && At(buf, e + |path|, "?") && At(buf, e + |path| + 1, query + "#")
            && |buf| == e + |path| + 1 + |query| + 1
  {
    hide At;
    var a := |scheme| + |slashes|;
    var more := "?" + (query + "#");
    WholeAt(buf);
    AtSplit(buf, 0, scheme, slashes + (authority + (path + more)));
    AtSplit(buf, |scheme|, slashes, authority + (path + more));
    AtSplit(buf, a, authority, path + more);
    AtSplit(buf, a + |authority|, path, more);
    AtSplit(buf, a + |authority| + |path|, "?", query + "#");
    AtPrefix(buf, a + |authority|, path);
    AtJoin(buf, a, authority, "/");
  }

  lemma PathFirst(u: UriText)
    requires UriOk(u)
    ensures |u.path| >= 1 && u.path[0] == '/'
  {
  }

  lemma RestAlone(u: UriText)
    requires u.query == None && u.fragment == None
    ensures Print(u) == (u.scheme + ":") + (u.slashes + (PrintAuthority(u.authority) + u.path))
  {
    assert u.path + ("" + "") == u.path;
  }

  lemma HashOpen(buf: string, u: UriText, query: string)
    requires EndsAtHash(buf, u, query)
    ensures Parse(NO_FIELDS, buf).outcome == Incompleted
  {
    hide Run, Step, At, Print, SchemeOk, AuthorityOk, PathOk, PairsOk, PrintAuthority, NoHash, AuthorityStart, UriOk;
    HashSplit(buf, u, query);
    hide EndsAtHash;
    UpToAuthority(buf, u);
    var a := AuthorityStart(u);
    var uri := NO_FIELDS.(scheme := View(0, |u.scheme|));
    var s := Scan(UsernameOrHostname, a, uri);
    ReadAuthority(buf, a, u.authority, s);
    AuthorityFresh(uri, u.authority, a);
    var e := a + |PrintAuthority(u.authority)|;
    hide WithAuthority;
    QueryOpen(buf, e, u.path, query, PathScan(WithAuthority(uri, u.authority, a), e));
  }

  /** Scheme and slashes. */
  lemma UpToAuthority(buf: string, u: UriText)
    requires SchemeOk(u.scheme) && u.slashes in {"", "/", "//"} && AuthorityOk(u.authority)
    requires At(buf, 0, u.scheme + ":") && At(buf, |u.scheme| + 1, u.slashes)
    requires At(buf, AuthorityStart(u), PrintAuthority(u.authority))
    ensures AuthorityStart(u) < |buf|
    ensures var s := Scan(UsernameOrHostname, AuthorityStart(u), NO_FIELDS.(scheme := View(0, |u.scheme|)));
            Inside(s, buf, AuthorityStart(u)) && Parse(NO_FIELDS, buf) == Run(s, buf, AuthorityStart(u))
  {
    hide Run, Step, At, SchemeOk, AuthorityOk, PrintAuthority;
    var a := AuthorityStart(u);
    AuthorityStarts(u.authority);
    AtText(buf, a, PrintAuthority(u.authority));
    AtChar(buf, a, PrintAuthority(u.authority), 0);
    var s := Scan(SchemeStart, 0, NO_FIELDS);
    ReadScheme(buf, u.scheme, s);
    ReadSlashes(buf, |u.scheme| + 1, u.slashes,
                s.(state := SchemeEnd, uri := NO_FIELDS.(scheme := View(0, |u.scheme|))));
  }

  lemma QueryOpen(buf: string, at: nat, path: string, query: string, s: Scan)
    requires PathOk(path) && At(buf, at, path) && At(buf, at + |path|, "?") && At(buf, at + |path| + 1, query + "#")
    requires |buf| == at + |path| + 1 + |query| + 1 && |query| >= 1 && NoHash(query)
    requires s.state == Path && s.prev == at && Inside(s, buf, at) && FreshRest(s.uri)
    ensures Run(s, buf, at).outcome == Incompleted
  {
    hide Run, At, ParseQueries;
    assert |path| >= 1;
    var q := at + |path| + 1;
    ReadPath(buf, at, path, '?', s);
    var t := s.(state := QueryStart, uri := s.uri.(path := View(at, q - 1)));
    var u := t.(state := QueryText, prev := q);
    StepsTo(t, buf, q, u);
    AtSplit(buf, q, query, "#");
    AtChar(buf, q + |query|, "#", 0);
    forall k | q + 1 <= k < q + |query| ensures Step(u, buf, k) == Go(u) {
      AtChar(buf, q, query, k - q);
    }
    RunOver(u, buf, q + 1, q + |query|);
    var v := u.(state := HashStart, uri := u.uri.(queryText := View(q, q + |query|)));
    StepsTo(u, buf, q + |query|, v);
    HashOutcome(v, buf, |buf|);
  }

  // ---------------------------------------------------------------- every buffer

  /** What a buffer is said to be. */
  ghost predicate UriIs(buf: string, outcome: Outcome)
  {
    match outcome
    case Completed => CompleteUri(buf)
    case Incompleted => OpenUri(buf)
    case Fault => FaultyUri(buf)
    case Error => true
  }

  lemma FindUri(buf: string)
    ensures UriIs(buf, Parse(NO_FIELDS, buf).outcome)
  {
    CompletedExactly(buf);
    EmptyStub(buf);
    hide UriOk, Print, StubOk, PrintStub, Run, Ended;
    var stub, i, way := FollowStubs(buf, InScheme(""), 0);
    if way == AtSlash {
      SlashFound(buf, stub, i);
    } else if way == Faulty {
      FaultyFound(buf, stub, i);
      StopsAs(buf, stub, i, way);
    } else {
      StopsAs(buf, stub, i, way);
    }
    hide FaultyPort, EndsAtHash;
  }

  lemma StopsAs(buf: string, stub: Stub, i: nat, way: Way)
    requires Ended(buf, stub, i, way) && way != AtSlash
    ensures i <= |buf| && Inside(StubScan(stub), buf, i)
    ensures Run(StubScan(stub), buf, i).outcome
         == match way case Broken => Completed case Rejected => Error case _ => Fault
  {
    BehindInside(buf, stub, i);
    StubState(stub);
    hide Step, StubScan;
  }

  lemma SlashFound(buf: string, stub: Stub, i: nat)
    requires Ended(buf, stub, i, AtSlash)
    ensures i <= |buf| && Inside(StubScan(stub), buf, i)
    ensures Run(StubScan(stub), buf, i).outcome != Fault
    ensures Run(StubScan(stub), buf, i).outcome == Incompleted ==> OpenUri(buf)
  {
    hide Run, StubScan, PrintStub, StubOk, SchemeOk, AuthorityOk, PathOk, NoHash, PrintPart, PrintAuthority, OpenUri;
    var a := AuthorityFound(buf, stub, i);
    var t := PathReached(buf, stub, i);
    hide Ended;
    var e := PathOutcome(buf, i, t);
    if Run(t, buf, i).outcome == Incompleted {
      OpenFound(buf, stub.scheme, stub.slashes, a, i, e);
    }
  }

  lemma PathReached(buf: string, stub: Stub, i: nat) returns (t: Scan)
    requires Ended(buf, stub, i, AtSlash)
    ensures i < |buf| && buf[i] == '/' && Inside(StubScan(stub), buf, i) && Inside(t, buf, i)
    ensures t.state == Path && t.prev == i && FreshRest(t.uri) && Run(t, buf, i) == Run(StubScan(stub), buf, i)
  {
    BehindInside(buf, stub, i);
    StubState(stub);
    PathBegins(StubScan(stub), buf, i);
    t := Step(StubScan(stub), buf, i).scan;
    hide Step, Run, StubScan;
  }

  lemma OpenFound(buf: string, scheme: string, slashes: string, a: Authority, i: nat, e: nat)
    requires SchemeOk(scheme) && slashes in {"", "/", "//"} && AuthorityOk(a) && i < e && e + 2 < |buf|
    requires buf[..i] == (scheme + ":") + (slashes + PrintAuthority(a))
    requires PathOk(buf[i..e]) && buf[e] == '?' && buf[|buf| - 1] == '#' && NoHash(buf[e + 1..|buf| - 1])
    ensures OpenUri(buf)
  {
    hide SchemeOk, AuthorityOk, PathOk, NoHash, PrintAuthority, Print;
    var u := UriText(scheme, slashes, a, buf[i..e], None, None);
    var query := buf[e + 1..|buf| - 1];
    var more := "?" + (query + "#");
    HashText(u, more);
    CutThree(buf, i, e);
    Longer3(scheme + ":", slashes, PrintAuthority(a), u.path + more);
    HashIs(buf, u, query);
  }

  lemma HashIs(buf: string, u: UriText, query: string)
    requires SchemeOk(u.scheme) && u.slashes in {"", "/", "//"} && AuthorityOk(u.authority) && PathOk(u.path)
    requires u.query == None && u.fragment == None && |query| >= 1 && NoHash(query)
    requires buf == Print(u) + ("?" + (query + "#"))
    ensures OpenUri(buf)
  {
    hide Print, SchemeOk, AuthorityOk, PathOk, NoHash;
    assert EndsAtHash(buf, u, query);
  }

  lemma CutThree(buf: string, i: nat, e: nat)
    requires i < e && e + 2 < |buf| && buf[e] == '?' && buf[|buf| - 1] == '#'
    ensures buf == buf[..i] + (buf[i..e] + ("?" + (buf[e + 1..|buf| - 1] + "#")))
  {
  }

  /** What the parser says of every buffer there is: complete, broken off behind a '#', or without a meaning, each
      exactly for the texts that are; and every other buffer is an error. */
  lemma OutcomeExactly(buf: string)
    ensures Parse(NO_FIELDS, buf).outcome
         == if CompleteUri(buf) then Completed
            else if OpenUri(buf) then Incompleted
            else if FaultyUri(buf) then Fault
            else Error
  {
    FindUri(buf);
    CompletedExactly(buf);
    hide Parse, UriOk, Print, StubOk, PrintStub, FaultyPort, EndsAtHash;
    if u, query :| EndsAtHash(buf, u, query) {
      HashOpen(buf, u, query);
    }
    if stub :| FaultyPort(buf, stub) {
      PortFaults(buf, stub);
    }
  }
}
