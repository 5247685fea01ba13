/** URIs as written, and the parser's reading of them. */
module UriGrammar {
  import opened Options
  import opened HttpText
  import opened UriMachine
  import opened QueryList

  // ---------------------------------------------------------------- grammar

  datatype Authority =
    | HostOnly(host: string)
    | HostPort(host: string, portDigits: string)
    | UserHost(user: string, host: string, port: Option<string>)
    | PasswordHost(user: string, password: string, host: string, port: Option<string>)

  datatype UriText = UriText(
    scheme: string,
    slashes: string,
    authority: Authority,
    path: string,
    query: Option<seq<Pair>>,
    fragment: Option<string>)

  predicate SchemeOk(s: string)
  {
    forall k :: 0 <= k < |s| ==> IsSchemeChar(s[k])
  }

  /** The name right behind the slashes, a host's or a user's. */
  predicate FirstNameOk(s: string)
  {
    |s| >= 1 && IsAlnum(s[0]) && NameChars(s)
  }

  /** A host behind a '@'. */
  predicate HostOk(s: string)
  {
    |s| >= 1 && NameChars(s)
  }

  predicate PasswordChar(c: char)
  {
    IsAlnum(c) || c == '%'
  }

  predicate PasswordOk(s: string)
  {
    |s| >= 1 && IsUnreserved(s[0]) && forall k :: 1 <= k < |s| ==> PasswordChar(s[k])
  }

  predicate PortOk(s: string)
  {
    |s| >= 1 && AllDigits(s) && Decimal(s) <= INT_MAX
  }

  predicate AuthorityOk(a: Authority)
  {
    match a
    case HostOnly(host) => FirstNameOk(host)
    case HostPort(host, port) => FirstNameOk(host) && PortOk(port)
    case UserHost(user, host, port) => FirstNameOk(user) && HostOk(host) && (port.Some? ==> PortOk(port.value))
    case PasswordHost(user, password, host, port) =>
      FirstNameOk(user) && PasswordOk(password) && HostOk(host) && (port.Some? ==> PortOk(port.value))
  }

  predicate PathOk(s: string)
  {
    |s| >= 1 && s[0] == '/' && forall k :: 0 <= k < |s| ==> s[k] != '#' && s[k] != '?'
  }

  predicate UriOk(u: UriText)
  {
    SchemeOk(u.scheme) && u.slashes in {"", "/", "//"} && AuthorityOk(u.authority) && PathOk(u.path)
    && (u.query.Some? ==> PairsOk(u.query.value)) && (u.fragment.Some? ==> |u.fragment.value| >= 1)
  }

  function PrintPort(port: Option<string>): string
  {
    if port == None then "" else ":" + port.value
  }

  function PrintAuthority(a: Authority): string
  {
    match a
    case HostOnly(host) => host
    case HostPort(host, port) => host + (":" + port)
    case UserHost(user, host, port) => user + ("@" + (host + PrintPort(port)))
    case PasswordHost(user, password, host, port) => user + (":" + (password + ("@" + (host + PrintPort(port)))))
  }

  function PrintQuery(query: Option<seq<Pair>>): string
  {
    if query == None then "" else "?" + Join(query.value)
  }

  function PrintFragment(fragment: Option<string>): string
  {
    if fragment == None then "" else "#" + fragment.value
  }

  function PrintRest(u: UriText): string
  {
    u.path + (PrintQuery(u.query) + PrintFragment(u.fragment))
  }

  function Print(u: UriText): string
  {
    (u.scheme + ":") + (u.slashes + (PrintAuthority(u.authority) + PrintRest(u)))
  }

  // ---------------------------------------------------------------- the recorded views

  function PortNumber(s: string): nat
    requires PortOk(s)
  {
    Decimal(s) % TWO_16
  }

  /** An authority that begins at at, in a URI record whose port is still the default. */
  function WithAuthority(uri: Fields, a: Authority, at: nat): Fields
    requires AuthorityOk(a)
  {
    match a
    case HostOnly(host) => uri.(hostname := View(at, at + |host|))
    case HostPort(host, port) =>
      var p := at + |host| + 1;
      uri.(hostname := View(at, at + |host|), username := uri.hostname, portText := View(p, p + |port|),
           port := PortNumber(port))
    case UserHost(user, host, port) =>
      WithHost(uri.(username := View(at, at + |user|)), host, port, at + |user| + 1)
    case PasswordHost(user, password, host, port) =>
      var p := at + |user| + 1;
      WithHost(uri.(username := View(at, at + |user|), password := View(p, p + |password|)), host, port,
               p + |password| + 1)
  }

  function WithHost(uri: Fields, host: string, port: Option<string>, at: nat): Fields
    requires port.Some? ==> PortOk(port.value)
  {
    var uri := uri.(hostname := View(at, at + |host|));
    if port == None then uri else
    var p := at + |host| + 1;
    uri.(portText := View(p, p + |port.value|), port := PortNumber(port.value))
  }

  /** The rest of the URI, from a path that begins at at. */
  function WithRest(uri: Fields, u: UriText, at: nat): Fields
  {
    var q := at + |u.path|;
    var f := q + |PrintQuery(u.query)|;
    var uri := uri.(path := View(at, q));
    var uri := if u.query == None then uri
               else WithQueries(uri.(queryText := View(q + 1, f)), QueriesOf(u.query.value, q + 1));
    if u.fragment == None then uri else uri.(fragment := View(f + 1, f + 1 + |u.fragment.value|))
  }

  function AuthorityStart(u: UriText): nat
  {
    |u.scheme| + 1 + |u.slashes|
  }

  function FieldsOf(u: UriText): Fields
    requires UriOk(u)
  {
    var a := AuthorityStart(u);
    WithRest(WithAuthority(NO_FIELDS.(scheme := View(0, |u.scheme|)), u.authority, a), u,
             a + |PrintAuthority(u.authority)|)
  }

  // ---------------------------------------------------------------- reading names

  /** States that pass over the characters of a name. */
  predicate Passes(state: State, c: char)
  {
    match state
    case SchemeStart => IsSchemeChar(c)
    case UsernameOrHostname => IsNameChar(c)
    case Hostname => IsNameChar(c)
    case Password => PasswordChar(c)
    case PortOrPassword => IsDigit(c)
    case Port => IsDigit(c)
    case Path => c != '#' && c != '?'
    case QueryText => c != '#'
    case _ => false
  }

  predicate AllPass(state: State, s: string)
  {
    forall k :: 0 <= k < |s| ==> Passes(state, s[k])
  }

  lemma StepPasses(s: Scan, buf: string, i: nat)
    requires i < |buf| && Inside(s, buf, i) && Passes(s.state, buf[i])
    ensures Step(s, buf, i) == Go(s)
  {
  }

  lemma Pass(buf: string, i: nat, text: string, s: Scan)
    requires At(buf, i, text) && AllPass(s.state, text) && Inside(s, buf, i)
    ensures i + |text| <= |buf| && Inside(s, buf, i + |text|)
    ensures Run(s, buf, i) == Run(s, buf, i + |text|)
  {
    hide Run, Step, At, Passes;
    AtText(buf, i, text);
    forall k | i <= k < i + |text| ensures Step(s, buf, k) == Go(s) {
      AtChar(buf, i, text, k - i);
      StepPasses(s, buf, k);
    }
    RunOver(s, buf, i, i + |text|);
  }

  lemma ReadScheme(buf: string, scheme: string, s: Scan)
    requires SchemeOk(scheme) && At(buf, 0, scheme + ":") && s.state == SchemeStart && Inside(s, buf, 0)
    ensures var t := s.(state := SchemeEnd, uri := s.uri.(scheme := View(0, |scheme|)));
            Inside(t, buf, |scheme| + 1) && Run(s, buf, 0) == Run(t, buf, |scheme| + 1)
  {
    hide Run, At;
    AtSplit(buf, 0, scheme, ":");
    AtChar(buf, |scheme|, ":", 0);
    Pass(buf, 0, scheme, s);
    StepsTo(s, buf, |scheme|, s.(state := SchemeEnd, uri := s.uri.(scheme := View(0, |scheme|))));
  }

  lemma StartName(buf: string, i: nat, s: Scan)
    requires i < |buf| && s.state in {SchemeEnd, SchemeEndSlash, SchemeEndSlashSlash} && IsAlnum(buf[i])
        && Inside(s, buf, i)
    ensures var t := s.(state := UsernameOrHostname, prev := i);
            Inside(t, buf, i) && Run(s, buf, i) == Run(t, buf, i)
  {
  }

  lemma ReadSlashes(buf: string, i: nat, slashes: string, s: Scan)
    requires slashes in {"", "/", "//"} && At(buf, i, slashes) && s.state == SchemeEnd && Inside(s, buf, i)
    requires i + |slashes| < |buf| && IsAlnum(buf[i + |slashes|])
    ensures var t := s.(state := UsernameOrHostname, prev := i + |slashes|);
            Inside(t, buf, i + |slashes|) && Run(s, buf, i) == Run(t, buf, i + |slashes|)
  {
    hide Run, At;
    if |slashes| >= 1 {
      AtChar(buf, i, slashes, 0);
      StepsTo(s, buf, i, s.(state := SchemeEndSlash));
    }
    if |slashes| == 2 {
      AtChar(buf, i, slashes, 1);
      StepsTo(s.(state := SchemeEndSlash), buf, i + 1, s.(state := SchemeEndSlashSlash));
    }
    var state := if |slashes| == 0 then SchemeEnd else if |slashes| == 1 then SchemeEndSlash else SchemeEndSlashSlash;
    StartName(buf, i + |slashes|, s.(state := state));
  }

  // ---------------------------------------------------------------- reading the authority

  /** The scan at the '/' at i that ends the authority. */
  function PathScan(uri: Fields, i: nat): Scan
  {
    Scan(Path, i, uri)
  }

  lemma AtPath(buf: string, i: nat, s: Scan, uri: Fields)
    requires i < |buf| && buf[i] == '/' && Inside(s, buf, i) && Step(s, buf, i) == Go(PathScan(uri, i))
    ensures Inside(PathScan(uri, i), buf, i) && Run(s, buf, i) == Run(PathScan(uri, i), buf, i)
  {
  }

  lemma EndPortReads(buf: string, port: string, s: Scan)
    requires PortOk(port) && At(buf, s.prev, port + "/")
    ensures s.prev + |port| < |buf| && buf[s.prev + |port|] == '/'
    ensures EndPort(s, buf, s.prev + |port|)
         == Go(PathScan(s.uri.(portText := View(s.prev, s.prev + |port|), port := PortNumber(port)), s.prev + |port|))
  {
    hide At, Atoi, Decimal, Text, AllDigits;
    AtSplit(buf, s.prev, port, "/");
    AtChar(buf, s.prev + |port|, "/", 0);
    AtText(buf, s.prev, port);
    PlainDecimal(buf, s.prev, port);
  }

  lemma ReadPort(buf: string, i: nat, port: string, s: Scan)
    requires PortOk(port) && At(buf, i, port + "/") && s.state == PortStart && Inside(s, buf, i)
    ensures var t := PathScan(s.uri.(portText := View(i, i + |port|), port := PortNumber(port)), i + |port|);
            i + |port| < |buf| && buf[i + |port|] == '/' && Inside(t, buf, i + |port|)
              && Run(s, buf, i) == Run(t, buf, i + |port|)
  {
    hide Run, At, EndPort, Decimal, PortNumber;
    AtSplit(buf, i, port, "/");
    AtChar(buf, i, port, 0);
    var t := s.(state := Port, prev := i);
    StepsTo(s, buf, i, t);
    StepsTo(t, buf, i, t);
    Pass(buf, i, port, t);
    EndPortReads(buf, port, t);
    AtPath(buf, i + |port|, t, s.uri.(portText := View(i, i + |port|), port := PortNumber(port)));
  }

  /** A host behind a '@', up to the '/'. */
  lemma ReadHost(buf: string, i: nat, host: string, port: Option<string>, s: Scan)
    requires HostOk(host) && (port.Some? ==> PortOk(port.value)) && At(buf, i, (host + PrintPort(port)) + "/")
    requires s.state == HostnameStart && Inside(s, buf, i)
    ensures var e := i + |host| + |PrintPort(port)|;
            e < |buf| && buf[e] == '/' && Inside(PathScan(WithHost(s.uri, host, port, i), e), buf, e)
            && Run(s, buf, i) == Run(PathScan(WithHost(s.uri, host, port, i), e), buf, e)
  {
    hide Run, At, Decimal, PortNumber, PortOk;
    AtSplit(buf, i, host + PrintPort(port), "/");
    AtSplit(buf, i, host, PrintPort(port));
    AtChar(buf, i, host, 0);
    AtChar(buf, i + |host + PrintPort(port)|, "/", 0);
    var t := s.(state := Hostname, prev := i);
    StepsTo(s, buf, i, t);
    StepsTo(t, buf, i, t);
    Pass(buf, i, host, t);
    var e := i + |host|;
    if port.Some? {
      AtSplit(buf, e, ":", port.value);
      AtChar(buf, e, ":", 0);
      var u := t.(state := PortStart, uri := s.uri.(hostname := View(i, e)));
      StepsTo(t, buf, e, u);
      hide Step;
      AtJoin(buf, e + 1, port.value, "/");
      ReadPort(buf, e + 1, port.value, u);
    } else {
      AtPath(buf, e, t, s.uri.(hostname := View(i, e)));
    }
  }

  lemma ReadPassword(buf: string, i: nat, password: string, s: Scan)
    requires PasswordOk(password) && At(buf, i, password + "@") && s.state == PortOrPasswordStart && Inside(s, buf, i)
    ensures var t := s.(state := HostnameStart, prev := i, uri := s.uri.(password := View(i, i + |password|)));
            Inside(t, buf, i + |password| + 1) && Run(s, buf, i) == Run(t, buf, i + |password| + 1)
  {
    hide Run, At;
    AtSplit(buf, i, password, "@");
    AtText(buf, i, password);
    AtChar(buf, i, password, 0);
    var t := s.(state := PortOrPassword, prev := i);
    StepsTo(s, buf, i, t);
    AtChar(buf, i + |password|, "@", 0);
    PassPassword(buf, i, i + 1, password, t);
  }

  /** The rest of a password from k on: digits keep it open whether it is a port. */
  lemma {:induction false} PassPassword(buf: string, i: nat, k: nat, password: string, s: Scan)
    requires PasswordOk(password) && At(buf, i, password) && i + |password| < |buf| && buf[i + |password|] == '@'
    requires i < k <= i + |password| && s.state in {PortOrPassword, Password} && s.prev == i && Inside(s, buf, k)
    ensures var t := s.(state := HostnameStart, uri := s.uri.(password := View(i, i + |password|)));
            Inside(t, buf, i + |password| + 1) && Run(s, buf, k) == Run(t, buf, i + |password| + 1)
    decreases |password| + i - k
  {
    hide Run, At;
    if k == i + |password| {
      StepsTo(s, buf, k, s.(state := HostnameStart, uri := s.uri.(password := View(i, k))));
    } else {
      AtChar(buf, i, password, k - i);
      var t := if IsDigit(buf[k]) then s else s.(state := Password);
      StepsTo(s, buf, k, t);
      hide Step;
      PassPassword(buf, i, k + 1, password, t);
    }
  }

  lemma ReadUser(buf: string, i: nat, user: string, delimiter: string, s: Scan)
    requires FirstNameOk(user) && delimiter in {":", "@"} && At(buf, i, user + delimiter)
    requires s.state == UsernameOrHostname && s.prev == i && Inside(s, buf, i)
    ensures var t := s.(state := if delimiter == ":" then PortOrPasswordStart else HostnameStart,
                        uri := s.uri.(username := View(i, i + |user|)));
            Inside(t, buf, i + |user| + 1) && Run(s, buf, i) == Run(t, buf, i + |user| + 1)
  {
    hide Run, At;
    AtSplit(buf, i, user, delimiter);
    AtChar(buf, i + |user|, delimiter, 0);
    Pass(buf, i, user, s);
    StepsTo(s, buf, i + |user|, s.(state := if delimiter == ":" then PortOrPasswordStart else HostnameStart,
                                   uri := s.uri.(username := View(i, i + |user|))));
  }

  /** The end of an authority: where its path begins, the record holds its views. */
  predicate AuthorityRead(buf: string, i: nat, a: Authority, s: Scan)
    requires AuthorityOk(a) && i <= |buf| && Inside(s, buf, i)
  {
    var e := i + |PrintAuthority(a)|;
    e < |buf| && buf[e] == '/' && Inside(PathScan(WithAuthority(s.uri, a, i), e), buf, e)
    && Run(s, buf, i) == Run(PathScan(WithAuthority(s.uri, a, i), e), buf, e)
  }

  lemma ReadHostOnly(buf: string, i: nat, a: Authority, s: Scan)
    requires AuthorityOk(a) && a.HostOnly? && At(buf, i, PrintAuthority(a) + "/")
    requires s.state == UsernameOrHostname && s.prev == i && Inside(s, buf, i)
    ensures AuthorityRead(buf, i, a, s)
  {
    hide Run, At;
    AtSplit(buf, i, a.host, "/");
    AtChar(buf, i + |a.host|, "/", 0);
    Pass(buf, i, a.host, s);
    AtPath(buf, i + |a.host|, s, s.uri.(hostname := View(i, i + |a.host|)));
  }

  lemma ReadHostPort(buf: string, i: nat, a: Authority, s: Scan)
    requires AuthorityOk(a) && a.HostPort? && At(buf, i, PrintAuthority(a) + "/")
    requires s.state == UsernameOrHostname && s.prev == i && Inside(s, buf, i)
    ensures AuthorityRead(buf, i, a, s)
  {
    hide Run, At, EndPort, Decimal, PortNumber;
    AtSplit(buf, i, a.host + (":" + a.portDigits), "/");
    AtSplit(buf, i, a.host, ":" + a.portDigits);
    AtSplit(buf, i + |a.host|, ":", a.portDigits);
    AtJoin(buf, i, a.host, ":");
    ReadUser(buf, i, a.host, ":", s);
    var p := i + |a.host| + 1;
    var t := s.(state := PortOrPassword, prev := p, uri := s.uri.(username := View(i, i + |a.host|)));
    AtChar(buf, p, a.portDigits, 0);
    StepsTo(t.(state := PortOrPasswordStart, prev := i), buf, p, t);
    StepsTo(t, buf, p, t);
    Pass(buf, p, a.portDigits, t);
    AtJoin(buf, p, a.portDigits, "/");
    var swapped := s.uri.(hostname := View(i, i + |a.host|), username := s.uri.hostname);
    EndPortReads(buf, a.portDigits, t.(uri := swapped));
    AtPath(buf, p + |a.portDigits|, t,
           swapped.(portText := View(p, p + |a.portDigits|), port := PortNumber(a.portDigits)));
  }

  lemma ReadUserHost(buf: string, i: nat, a: Authority, s: Scan)
    requires AuthorityOk(a) && a.UserHost? && At(buf, i, PrintAuthority(a) + "/")
    requires s.state == UsernameOrHostname && s.prev == i && Inside(s, buf, i)
    ensures AuthorityRead(buf, i, a, s)
  {
    hide Run, At, Step, Decimal, PortNumber, PrintPort, HostOk, FirstNameOk, PortOk, WithHost;
    var host := a.host + PrintPort(a.port);
    AtSplit(buf, i, a.user + ("@" + host), "/");
    AtSplit(buf, i, a.user, "@" + host);
    AtSplit(buf, i + |a.user|, "@", host);
    AtJoin(buf, i, a.user, "@");
    AtJoin(buf, i + |a.user| + 1, host, "/");
    ReadUser(buf, i, a.user, "@", s);
    ReadHost(buf, i + |a.user| + 1, a.host, a.port,
             s.(state := HostnameStart, uri := s.uri.(username := View(i, i + |a.user|))));
  }

  lemma ReadPasswordHost(buf: string, i: nat, a: Authority, s: Scan)
    requires AuthorityOk(a) && a.PasswordHost? && At(buf, i, PrintAuthority(a) + "/")
    requires s.state == UsernameOrHostname && s.prev == i && Inside(s, buf, i)
    ensures AuthorityRead(buf, i, a, s)
  {
    hide Run, At, Step, Decimal, PortNumber, PrintPort, HostOk, FirstNameOk, PortOk, PasswordOk, WithHost;
    var host := a.host + PrintPort(a.port);
    AtSplit(buf, i, a.user + (":" + (a.password + ("@" + host))), "/");
    AtSplit(buf, i, a.user, ":" + (a.password + ("@" + host)));
    AtSplit(buf, i + |a.user|, ":", a.password + ("@" + host));
    var p := i + |a.user| + 1;
    AtSplit(buf, p, a.password, "@" + host);
    AtSplit(buf, p + |a.password|, "@", host);
    AtJoin(buf, i, a.user, ":");
    AtJoin(buf, p, a.password, "@");
    AtJoin(buf, p + |a.password| + 1, host, "/");
    ReadUser(buf, i, a.user, ":", s);
    var t := s.(state := PortOrPasswordStart, uri := s.uri.(username := View(i, i + |a.user|)));
    ReadPassword(buf, p, a.password, t);
    ReadHost(buf, p + |a.password| + 1, a.host, a.port,
             t.(state := HostnameStart, prev := p, uri := t.uri.(password := View(p, p + |a.password|))));
  }

  lemma ReadAuthority(buf: string, i: nat, a: Authority, s: Scan)
    requires AuthorityOk(a) && At(buf, i, PrintAuthority(a) + "/")
    requires s.state == UsernameOrHostname && s.prev == i && Inside(s, buf, i)
    ensures AuthorityRead(buf, i, a, s)
  {
    hide AuthorityOk, AuthorityRead, PrintAuthority, At;
    match a
    case HostOnly(_) => ReadHostOnly(buf, i, a, s);
    case HostPort(_, _) => ReadHostPort(buf, i, a, s);
    case UserHost(_, _, _) => ReadUserHost(buf, i, a, s);
    case PasswordHost(_, _, _, _) => ReadPasswordHost(buf, i, a, s);
  }

  // ---------------------------------------------------------------- reading path, query and fragment

  /** The state the parser ends in. */
  function LastState(u: UriText): State
  {
    if u.query.Some? then QueryValue else if u.fragment.Some? then HashStart else Path
  }

  predicate FreshRest(uri: Fields)
  {
    uri.path == NO_VIEW && uri.queryText == NO_VIEW && uri.queries == []
  }

  lemma ReadFragment(buf: string, i: nat, s: Scan)
    requires i < |buf| && s.state == HashStart && Inside(s, buf, i)
    ensures Run(s, buf, i) == ParseQueries(HashStart, s.uri.(fragment := View(i, |buf|)), buf)
  {
  }

  lemma ReadPathOnly(buf: string, at: nat, u: UriText, s: Scan)
    requires PathOk(u.path) && u.query == None && u.fragment == None && At(buf, at, PrintRest(u))
        && |buf| == at + |PrintRest(u)|
    requires s.state == Path && s.prev == at && Inside(s, buf, at) && FreshRest(s.uri)
    ensures Run(s, buf, at) == Parsed(Completed, Path, WithRest(s.uri, u, at))
  {
    assert PrintRest(u) == u.path;
    hide At;
    Pass(buf, at, u.path, s);
  }

  /** The path up to the character that ends it. */
  lemma ReadPath(buf: string, at: nat, path: string, end: char, s: Scan)
    requires PathOk(path) && end in {'#', '?'} && At(buf, at, path) && At(buf, at + |path|, [end])
    requires s.state == Path && s.prev == at && Inside(s, buf, at)
    ensures var e := at + |path|;
            var t := s.(state := if end == '#' then HashStart else QueryStart, uri := s.uri.(path := View(at, e)));
            Inside(t, buf, e + 1) && Run(s, buf, at) == Run(t, buf, e + 1)
  {
    hide Run, At;
    AtChar(buf, at + |path|, [end], 0);
    Pass(buf, at, path, s);
    StepsTo(s, buf, at + |path|,
            s.(state := if end == '#' then HashStart else QueryStart, uri := s.uri.(path := View(at, at + |path|))));
  }

  lemma ReadPathFragment(buf: string, at: nat, u: UriText, s: Scan)
    requires PathOk(u.path) && u.query == None && u.fragment.Some? && |u.fragment.value| >= 1
    requires At(buf, at, PrintRest(u)) && |buf| == at + |PrintRest(u)|
    requires s.state == Path && s.prev == at && Inside(s, buf, at) && FreshRest(s.uri)
    ensures Run(s, buf, at) == Parsed(Completed, HashStart, WithRest(s.uri, u, at))
  {
    var f := u.fragment.value;
    assert PrintRest(u) == u.path + ("#" + f);
    hide Run, At, PathOk;
    AtSplit(buf, at, u.path, "#" + f);
    AtSplit(buf, at + |u.path|, "#", f);
    ReadPath(buf, at, u.path, '#', s);
    ReadFragment(buf, at + |u.path| + 1, s.(state := HashStart, uri := s.uri.(path := View(at, at + |u.path|))));
  }

  /** The query text, up to its end: that of the buffer, or a '#'. */
  lemma ReadQueryText(buf: string, at: nat, u: UriText, s: Scan)
    requires PathOk(u.path) && u.query.Some? && PairsOk(u.query.value)
    requires At(buf, at, u.path) && At(buf, at + |u.path|, PrintQuery(u.query))
    requires s.state == Path && s.prev == at && Inside(s, buf, at)
    ensures var q := at + |u.path| + 1;
            var t := Scan(QueryText, q, s.uri.(path := View(at, at + |u.path|)));
            var e := q + |Join(u.query.value)|;
            Inside(t, buf, e) && Run(s, buf, at) == Run(t, buf, e)
  {
    hide Run, At, PathOk, PairsOk, Join;
    var text := Join(u.query.value);
    var q := at + |u.path| + 1;
    AtSplit(buf, q - 1, "?", text);
    ReadPath(buf, at, u.path, '?', s);
    JoinStarts(u.query.value);
    JoinedChars(u.query.value);
    AtText(buf, q, text);
    var t := Scan(QueryText, q, s.uri.(path := View(at, at + |u.path|)));
    StepsTo(t.(state := QueryStart, prev := at), buf, q, t);
    AtChar(buf, q, text, 0);
    StepPasses(t, buf, q);
    hide Step;
    StepsTo(t, buf, q, t);
    Pass(buf, q, text, t);
  }

  lemma {:induction false} JoinedChars(pairs: seq<Pair>)
    requires PairsOk(pairs)
    ensures AllPass(QueryText, Join(pairs))
    decreases |pairs|
  {
    assert PairOk(pairs[0]);
    hide IsAlnum, IsUnreserved;
    if |pairs| >= 2 {
      JoinedChars(pairs[1..]);
    }
  }

  /** A path and a query text that ends with the buffer. */
  lemma ReadUpToQuery(buf: string, at: nat, u: UriText, s: Scan)
    requires PathOk(u.path) && u.query.Some? && PairsOk(u.query.value) && u.fragment == None
    requires At(buf, at, PrintRest(u)) && |buf| == at + |PrintRest(u)|
    requires s.state == Path && s.prev == at && Inside(s, buf, at) && FreshRest(s.uri)
    ensures var q := at + |u.path| + 1;
            At(buf, q, Join(u.query.value)) && |buf| == q + |Join(u.query.value)|
            && Run(s, buf, at)
            == ParseQueries(QueryText, s.uri.(path := View(at, at + |u.path|), queryText := View(q, |buf|)), buf)
  {
    assert |u.path| >= 1;
    hide At, Join, PairsOk, PathOk, Run, ParseQueries;
    RestSplit(buf, at, u);
    var q := at + |u.path| + 1;
    ReadQueryText(buf, at, u, s);
    FinishQuery(Scan(QueryText, q, s.uri.(path := View(at, at + |u.path|))), buf);
  }

  lemma ReadPathQuery(buf: string, at: nat, u: UriText, s: Scan)
    requires PathOk(u.path) && u.query.Some? && PairsOk(u.query.value) && u.fragment == None
    requires At(buf, at, PrintRest(u)) && |buf| == at + |PrintRest(u)|
    requires s.state == Path && s.prev == at && Inside(s, buf, at) && FreshRest(s.uri)
    ensures Run(s, buf, at) == Parsed(Completed, QueryValue, WithRest(s.uri, u, at))
  {
    hide At, Join, PairsOk, PathOk, Run, ParseQueries, Text, QueriesOf, PairsIn, PrintRest;
    ReadUpToQuery(buf, at, u, s);
    var q := at + |u.path| + 1;
    AtText(buf, q, Join(u.query.value));
    ParsesJoined(QueryText, s.uri.(path := View(at, at + |u.path|), queryText := View(q, |buf|)), buf, u.query.value);
  }

  lemma RestSplit(buf: string, at: nat, u: UriText)
    requires At(buf, at, PrintRest(u)) && u.query.Some?
    ensures At(buf, at, u.path) && At(buf, at + |u.path|, PrintQuery(u.query))
    ensures At(buf, at + |u.path| + 1, Join(u.query.value))
    ensures At(buf, at + |u.path| + 1 + |Join(u.query.value)|, PrintFragment(u.fragment))
    ensures |PrintRest(u)| == |u.path| + 1 + |Join(u.query.value)| + |PrintFragment(u.fragment)|
  {
    hide At, Join, PrintFragment;
    AtSplit(buf, at, u.path, PrintQuery(u.query) + PrintFragment(u.fragment));
    AtSplit(buf, at + |u.path|, PrintQuery(u.query), PrintFragment(u.fragment));
    AtSplit(buf, at + |u.path|, "?", Join(u.query.value));
  }

  lemma FinishQuery(s: Scan, buf: string)
    requires Inside(s, buf, |buf|) && !Empty(s.uri.path) && Empty(s.uri.queryText)
    ensures Run(s, buf, |buf|) == ParseQueries(s.state, s.uri.(queryText := View(s.prev, |buf|)), buf)
  {
  }

  lemma ReadPathQueryFragment(buf: string, at: nat, u: UriText, s: Scan)
    requires PathOk(u.path) && u.query.Some? && PairsOk(u.query.value) && u.fragment.Some? && |u.fragment.value| >= 1
    requires At(buf, at, PrintRest(u)) && |buf| == at + |PrintRest(u)|
    requires s.state == Path && s.prev == at && Inside(s, buf, at) && FreshRest(s.uri)
    ensures Run(s, buf, at) == Parsed(Completed, QueryValue, WithRest(s.uri, u, at))
  {
    hide At, Join, PairsOk, Run, PathOk, ParseQueries, QueriesOf, PairsIn, Text;
    var q := at + |u.path| + 1;
    var text := Join(u.query.value);
    var f := u.fragment.value;
    RestSplit(buf, at, u);
    AtText(buf, q, text);
    var e := q + |text|;
    AtSplit(buf, e, "#", f);
    AtChar(buf, e, "#", 0);
    ReadQueryText(buf, at, u, s);
    var t := Scan(QueryText, q, s.uri.(path := View(at, at + |u.path|)));
    var v := t.(state := HashStart, uri := t.uri.(queryText := View(q, e)));
    StepsTo(t, buf, e, v);
    ReadFragment(buf, e + 1, v);
    ParsesJoined(HashStart, v.uri.(fragment := View(e + 1, |buf|)), buf, u.query.value);
  }

  lemma ReadRest(buf: string, at: nat, u: UriText, s: Scan)
    requires UriOk(u) && At(buf, at, PrintRest(u)) && |buf| == at + |PrintRest(u)|
    requires s.state == Path && s.prev == at && Inside(s, buf, at) && FreshRest(s.uri)
    ensures Run(s, buf, at) == Parsed(Completed, LastState(u), WithRest(s.uri, u, at))
  {
    hide At, Run, PathOk, PairsOk, PrintRest, WithRest, AuthorityOk, SchemeOk;
    if u.query.Some? && u.fragment.Some? {
      ReadPathQueryFragment(buf, at, u, s);
    } else if u.query.Some? {
      ReadPathQuery(buf, at, u, s);
    } else if u.fragment.Some? {
      ReadPathFragment(buf, at, u, s);
    } else {
      ReadPathOnly(buf, at, u, s);
    }
  }

  // ---------------------------------------------------------------- a whole URI

  lemma AuthorityStarts(a: Authority)
    requires AuthorityOk(a)
    ensures PrintAuthority(a) != "" && IsAlnum(PrintAuthority(a)[0])
  {
  }

  /** The pieces of a printed URI. */
  lemma UriSplit(u: UriText)
    requires UriOk(u)
    ensures var buf, a := Print(u), AuthorityStart(u);
            At(buf, 0, u.scheme + ":") && At(buf, |u.scheme| + 1, u.slashes) && At(buf, a, PrintAuthority(u.authority))
            && At(buf, a, PrintAuthority(u.authority) + "/")
            && At(buf, a + |PrintAuthority(u.authority)|, PrintRest(u))
            && |buf| == a + |PrintAuthority(u.authority)| + |PrintRest(u)|
  {
    var buf, a := Print(u), AuthorityStart(u);
    hide PrintAuthority, AuthorityOk, At, SchemeOk, PairsOk;
    var authority, rest := PrintAuthority(u.authority), PrintRest(u);
    WholeAt(buf);
    AtSplit(buf, 0, u.scheme + ":", u.slashes + (authority + rest));
    AtSplit(buf, |u.scheme| + 1, u.slashes, authority + rest);
    AtSplit(buf, a, authority, rest);
    AtSplit(buf, a + |authority|, u.path, PrintQuery(u.query) + PrintFragment(u.fragment));
    AtPrefix(buf, a + |authority|, u.path);
    AtJoin(buf, a, authority, "/");
  }

  lemma WholeAt(buf: string)
    ensures At(buf, 0, buf)
  {
  }

  lemma AtPrefix(buf: string, i: nat, path: string)
    requires At(buf, i, path) && |path| >= 1 && path[0] == '/'
    ensures At(buf, i, "/")
  {
  }

  /** A URI as written is parsed into its own pieces. */
  lemma ParsesAsWritten(u: UriText)
    requires UriOk(u)
    ensures Parse(NO_FIELDS, Print(u)) == Parsed(Completed, LastState(u), FieldsOf(u))
  {
    hide Run, Step, At, Print, PrintRest, SchemeOk, AuthorityOk, PathOk, PairsOk, WithRest, LastState, PrintAuthority;
    var buf, a := Print(u), AuthorityStart(u);
    UriSplit(u);
    AuthorityStarts(u.authority);
    AtText(buf, a, PrintAuthority(u.authority));
    AtChar(buf, a, PrintAuthority(u.authority), 0);
    var s := Scan(SchemeStart, 0, NO_FIELDS);
    ReadScheme(buf, u.scheme, s);
    var t := s.(state := SchemeEnd, uri := NO_FIELDS.(scheme := View(0, |u.scheme|)));
    ReadSlashes(buf, |u.scheme| + 1, u.slashes, t);
    var v := t.(state := UsernameOrHostname, prev := a);
    ReadAuthority(buf, a, u.authority, v);
    AuthorityFresh(t.uri, u.authority, a);
    var e := a + |PrintAuthority(u.authority)|;
    hide WithAuthority;
    ReadRest(buf, e, u, PathScan(WithAuthority(t.uri, u.authority, a), e));
  }

  lemma AuthorityFresh(uri: Fields, a: Authority, at: nat)
    requires AuthorityOk(a) && FreshRest(uri)
    ensures FreshRest(WithAuthority(uri, a, at))
  {
  }
}
