/** The language of the URI parser: printing and parsing undo each other, and no other buffer yields a path. */
module UriLanguage {
  import opened Options
  import opened HttpText
  import opened UriMachine
  import opened QueryList
  import opened UriGrammar

  // ---------------------------------------------------------------- every component comes back

  function TextOr(s: Option<string>): string
  {
    if s == None then "" else s.value
  }

  function HostOf(a: Authority): string
  {
    a.host
  }

  function UserOf(a: Authority): string
  {
    if a.UserHost? || a.PasswordHost? then a.user else ""
  }

  function PasswordOf(a: Authority): string
  {
    if a.PasswordHost? then a.password else ""
  }

  function PortOf(a: Authority): Option<string>
  {
    match a
    case HostOnly(_) => None
    case HostPort(_, port) => Some(port)
    case UserHost(_, _, port) => port
    case PasswordHost(_, _, _, port) => port
  }

  /** The recorded authority, whatever form it had: a port is a uint16, 80 when there is none. */
  predicate AuthorityMatches(buf: string, uri: Fields, a: Authority)
    requires AuthorityOk(a)
  {
    Text(buf, uri.hostname) == HostOf(a) && Text(buf, uri.username) == UserOf(a)
      && Text(buf, uri.password) == PasswordOf(a)
    && Text(buf, uri.portText) == TextOr(PortOf(a))
    && uri.port == if PortOf(a) == None then 80 else Decimal(PortOf(a).value) % TWO_16
  }

  predicate RestMatches(buf: string, uri: Fields, u: UriText)
  {
    Text(buf, uri.path) == u.path && Text(buf, uri.fragment) == TextOr(u.fragment)
    && Text(buf, uri.queryText) == (if u.query == None then "" else Join(u.query.value))
    && PairsIn(buf, uri.queries) == (if u.query == None then [] else u.query.value)
  }

  lemma HostMatches(buf: string, host: string, port: Option<string>, uri: Fields, i: nat)
    requires At(buf, i, host + PrintPort(port)) && (port.Some? ==> PortOk(port.value))
    ensures var r := WithHost(uri, host, port, i);
            Text(buf, r.hostname) == host && (port == None ==> r.portText == uri.portText && r.port == uri.port)
            && (port.Some? ==> Text(buf, r.portText) == port.value && r.port == Decimal(port.value) % TWO_16)
  {
    hide At, Text, Decimal;
    AtSplit(buf, i, host, PrintPort(port));
    AtText(buf, i, host);
    if port.Some? {
      AtSplit(buf, i + |host|, ":", port.value);
      AtText(buf, i + |host| + 1, port.value);
    }
  }

  lemma NoText(buf: string)
    ensures Text(buf, NO_VIEW) == ""
  {
  }

  lemma AuthorityText(buf: string, a: Authority, uri: Fields, i: nat)
    requires AuthorityOk(a) && At(buf, i, PrintAuthority(a))
    requires uri == NO_FIELDS.(scheme := uri.scheme)
    ensures AuthorityMatches(buf, WithAuthority(uri, a, i), a)
  {
    hide At, Text, Decimal, PrintPort, PortOk, WithHost, FirstNameOk, HostOk, PasswordOk;
    NoText(buf);
    match a {
      case HostOnly(host) =>
        AtText(buf, i, host);
      case HostPort(host, port) =>
        AtSplit(buf, i, host, ":" + port);
        AtText(buf, i, host);
        AtSplit(buf, i + |host|, ":", port);
        AtText(buf, i + |host| + 1, port);
      case UserHost(user, host, port) =>
        AtSplit(buf, i, user, "@" + (host + PrintPort(port)));
        AtText(buf, i, user);
        AtSplit(buf, i + |user|, "@", host + PrintPort(port));
        HostMatches(buf, host, port, uri.(username := View(i, i + |user|)), i + |user| + 1);
        HostKeeps(uri.(username := View(i, i + |user|)), host, port, i + |user| + 1);
      case PasswordHost(user, password, host, port) =>
        var p := i + |user| + 1;
        AtSplit(buf, i, user, ":" + (password + ("@" + (host + PrintPort(port)))));
        AtText(buf, i, user);
        AtSplit(buf, p - 1, ":", password + ("@" + (host + PrintPort(port))));
        AtSplit(buf, p, password, "@" + (host + PrintPort(port)));
        AtText(buf, p, password);
        AtSplit(buf, p + |password|, "@", host + PrintPort(port));
        var named := uri.(username := View(i, i + |user|), password := View(p, p + |password|));
        HostMatches(buf, host, port, named, p + |password| + 1);
        HostKeeps(named, host, port, p + |password| + 1);
    }
  }

  lemma HostKeeps(uri: Fields, host: string, port: Option<string>, at: nat)
    requires port.Some? ==> PortOk(port.value)
    ensures WithHost(uri, host, port, at).username == uri.username
        && WithHost(uri, host, port, at).password == uri.password
  {
  }

  lemma RestText(buf: string, u: UriText, uri: Fields, at: nat)
    requires At(buf, at, PrintRest(u)) && FreshRest(uri) && uri.fragment == NO_VIEW
    ensures RestMatches(buf, WithRest(uri, u, at), u)
  {
    hide At, Text, Join, PairsIn, QueriesOf;
    NoText(buf);
    var q := at + |u.path|;
    var f := q + |PrintQuery(u.query)|;
    AtSplit(buf, at, u.path, PrintQuery(u.query) + PrintFragment(u.fragment));
    AtSplit(buf, q, PrintQuery(u.query), PrintFragment(u.fragment));
    AtText(buf, at, u.path);
    if u.query.Some? {
      AtSplit(buf, q, "?", Join(u.query.value));
      AtText(buf, q + 1, Join(u.query.value));
      PairsText(buf, q + 1, u.query.value);
      assert [] + QueriesOf(u.query.value, q + 1) == QueriesOf(u.query.value, q + 1);
    } else {
      NoPairs(buf);
    }
    if u.fragment.Some? {
      AtSplit(buf, f, "#", u.fragment.value);
      AtText(buf, f + 1, u.fragment.value);
    }
  }

  lemma NoPairs(buf: string)
    ensures PairsIn(buf, []) == []
  {
  }

  /** Round trip: a URI as written is parsed back into every one of its components. */
  lemma RoundTrip(u: UriText)
    requires UriOk(u)
    ensures var r := Parse(NO_FIELDS, Print(u));
            r.outcome == Completed && Text(Print(u), r.uri.scheme) == u.scheme
            && AuthorityMatches(Print(u), r.uri, u.authority) && RestMatches(Print(u), r.uri, u)
  {
    hide Parse, At, Print, PrintRest, Text, AuthorityOk, AuthorityMatches, RestMatches, WithAuthority, WithRest,
      PairsOk, SchemeOk, PathOk;
    var buf, a := Print(u), AuthorityStart(u);
    UriSplit(u);
    ParsesAsWritten(u);
    AtSplit(buf, 0, u.scheme, ":");
    AtText(buf, 0, u.scheme);
    var uri := NO_FIELDS.(scheme := View(0, |u.scheme|));
    AuthorityText(buf, u.authority, uri, a);
    var named := WithAuthority(uri, u.authority, a);
    AuthorityFresh(uri, u.authority, a);
    AuthorityKeeps(uri, u.authority, a);
    RestText(buf, u, named, a + |PrintAuthority(u.authority)|);
    RestKeeps(buf, named, u, a + |PrintAuthority(u.authority)|);
  }

  lemma AuthorityKeeps(uri: Fields, a: Authority, at: nat)
    requires AuthorityOk(a)
    ensures WithAuthority(uri, a, at).scheme == uri.scheme && WithAuthority(uri, a, at).fragment == uri.fragment
  {
  }

  lemma RestKeeps(buf: string, uri: Fields, u: UriText, at: nat)
    ensures WithRest(uri, u, at).scheme == uri.scheme
    ensures forall a :: AuthorityOk(a) && AuthorityMatches(buf, uri, a) ==>
              AuthorityMatches(buf, WithRest(uri, u, at), a)
  {
  }

  // ---------------------------------------------------------------- nothing else yields a path

  /** A finished parse that has found a path: one that begins with a '/'. */
  predicate FoundPath(buf: string, r: Parsed)
  {
    r.outcome == Completed && Text(buf, r.uri.path) != "" && Text(buf, r.uri.path)[0] == '/'
  }

  /** Before the path: the parse will find one, and what prev_it points to is not its '/'. */
  predicate Seeking(buf: string, i: nat, s: Scan)
  {
    i <= |buf| && Inside(s, buf, i) && Empty(s.uri.path) && (s.prev < |buf| ==> buf[s.prev] != '/')
    && s.state !in {Path, HashStart, QueryStart, QueryText} && FoundPath(buf, Run(s, buf, i))
  }

  /** The buffer does not end here: if it did, what is taken for the path would not begin with a '/'. */
  lemma GoesOn(buf: string, i: nat, s: Scan)
    requires Seeking(buf, i, s)
    ensures i < |buf| && Inside(s, buf, i) && Step(s, buf, i).Go?
  {
    if i < |buf| && Step(s, buf, i).Stop? {
      StopsFail(s, buf, i);
    }
    hide Step;
  }

  lemma StopsFail(s: Scan, buf: string, i: nat)
    requires i < |buf| && Inside(s, buf, i) && s.state !in {Path, HashStart, QueryStart, QueryText}
        && Step(s, buf, i).Stop?
    ensures Step(s, buf, i).parsed.outcome in {Error, Fault}
  {
  }

  lemma SeeksOn(buf: string, i: nat, s: Scan, t: Scan)
    requires Seeking(buf, i, s) && i < |buf| && Inside(s, buf, i) && Step(s, buf, i) == Go(t)
    requires t.state !in {Path, HashStart, QueryStart, QueryText} && Empty(t.uri.path)
        && (t.prev == s.prev || buf[t.prev] != '/')
    ensures Seeking(buf, i + 1, t)
  {
    StepsTo(s, buf, i, t);
    hide Step, Run;
  }

  /** A name, and the character that ends it. */
  lemma FindName(buf: string, i: nat, s: Scan) returns (e: nat)
    requires Seeking(buf, i, s)
    requires s.state in {SchemeStart, UsernameOrHostname, Hostname, PortOrPassword, Password, Port}
    ensures i <= e < |buf| && Seeking(buf, e, s) && !Passes(s.state, buf[e]) && AllPass(s.state, buf[i..e])
  {
    hide Run, Step;
    e := Leaves(s, buf, i);
    assert Seeking(buf, e, s);
    hide Seeking, FoundPath;
    GoesOn(buf, e, s);
    forall k | i <= k < e ensures Passes(s.state, buf[k]) {
      assert Step(s, buf, k) == Go(s);
      GoPasses(s, buf, k);
    }
    if Passes(s.state, buf[e]) {
      StepPasses(s, buf, e);
    }
  }

  lemma GoPasses(s: Scan, buf: string, i: nat)
    requires i < |buf| && Inside(s, buf, i) && Step(s, buf, i) == Go(s)
    requires s.state in {SchemeStart, UsernameOrHostname, Hostname, PortOrPassword, Password, Port, Path}
    requires s.state == Path ==> Empty(s.uri.path) && s.prev < i
    ensures Passes(s.state, buf[i])
  {
  }

  /** The state in which the name behind a delimiter is read. */
  function NameState(state: State): State
  {
    if state == HostnameStart then Hostname else if state == PortStart then Port else PortOrPassword
  }

  /** The character behind a delimiter begins the next name. */
  lemma NameBegins(buf: string, i: nat, s: Scan) returns (t: Scan)
    requires Seeking(buf, i, s) && s.state in {HostnameStart, PortOrPasswordStart, PortStart}
    ensures i < |buf| && Seeking(buf, i + 1, t)
    ensures t == s.(state := NameState(s.state), prev := i)
    ensures match s.state
            case HostnameStart => IsNameChar(buf[i])
            case PortStart => IsDigit(buf[i])
            case _ => IsUnreserved(buf[i])
  {
    t := s.(state := NameState(s.state), prev := i);
    GoesOn(buf, i, s);
    assert Step(s, buf, i) == Go(t);
    SeeksOn(buf, i, s, t);
  }

  lemma {:induction false} AllPassMore(state: State, s: string, t: string)
    requires AllPass(state, t) && |s| == |t| + 1 && s[1..] == t && Passes(state, s[0])
    ensures AllPass(state, s)
  {
  }

  /** A whole name, its first character included. */
  lemma FindNameFrom(buf: string, i: nat, s: Scan) returns (e: nat)
    requires s.prev == i < |buf| && Seeking(buf, i + 1, s) && Passes(s.state, buf[i])
    requires s.state in {UsernameOrHostname, Hostname, Port}
    ensures i < e < |buf| && Seeking(buf, e, s) && !Passes(s.state, buf[e]) && AllPass(s.state, buf[i..e])
  {
    hide Seeking;
    e := FindName(buf, i + 1, s);
    hide Passes, AllPass;
    AllPassMore(s.state, buf[i..e], buf[i + 1..e]);
  }

  lemma NoSlash(buf: string, s: Scan)
    requires s.state == SchemeStart && Inside(s, buf, 0) && FoundPath(buf, Run(s, buf, 0))
    ensures buf != "" ==> buf[0] != '/'
  {
  }

  /** Which character ends a name. */
  lemma NameEnds(buf: string, e: nat, s: Scan)
    requires Seeking(buf, e, s) && e < |buf| && !Passes(s.state, buf[e])
    ensures s.state == SchemeStart ==> buf[e] == ':'
    ensures s.state == UsernameOrHostname ==> buf[e] in {'/', '@', ':'}
    ensures s.state == Hostname ==> buf[e] in {'/', ':'}
    ensures s.state == PortOrPassword ==> buf[e] in {'/', '@'} || PasswordChar(buf[e])
    ensures s.state == Password ==> buf[e] == '@'
    ensures s.state == Port ==> buf[e] == '/'
  {
  }

  /** Where the loop goes behind a name that does not end the authority. */
  function AfterName(s: Scan, c: char, e: nat): Scan
  {
    var name := View(s.prev, e);
    match s.state
    case UsernameOrHostname =>
      s.(state := if c == ':' then PortOrPasswordStart else HostnameStart, uri := s.uri.(username := name))
    case Hostname => s.(state := PortStart, uri := s.uri.(hostname := name))
    case PortOrPassword =>
      if c == '@' then s.(state := HostnameStart, uri := s.uri.(password := name)) else s.(state := Password)
    case _ => s.(state := HostnameStart, uri := s.uri.(password := name))
  }

  lemma NameFollowed(buf: string, e: nat, s: Scan)
    requires Seeking(buf, e, s) && e < |buf| && !Passes(s.state, buf[e]) && buf[e] != '/'
    requires s.state in {UsernameOrHostname, Hostname, PortOrPassword, Password}
    ensures Seeking(buf, e + 1, AfterName(s, buf[e], e))
  {
  }

  lemma FindScheme(buf: string, s: Scan) returns (scheme: string)
    requires s.state == SchemeStart && s.prev == 0 && Inside(s, buf, 0) && s.uri == NO_FIELDS
        && FoundPath(buf, Run(s, buf, 0))
    ensures SchemeOk(scheme) && At(buf, 0, scheme + ":") && buf[0] != '/'
  {
    NoSlash(buf, s);
    hide Run, Step;
    var e := FindName(buf, 0, s);
    NameEnds(buf, e, s);
    scheme := buf[..e];
    forall k | 0 <= k < e ensures IsSchemeChar(scheme[k]) {
      assert Passes(SchemeStart, buf[0..e][k]);
    }
    assert buf[..e + 1] == scheme + ":";
  }

  lemma FindSlashes(buf: string, i: nat, s: Scan) returns (slashes: string)
    requires s.state == SchemeEnd && Seeking(buf, i, s)
    ensures slashes in {"", "/", "//"} && At(buf, i, slashes)
    ensures i + |slashes| < |buf| && IsAlnum(buf[i + |slashes|]) && buf[i + |slashes|] != '/'
  {
    hide Run, Step, Seeking;
    var t, u := s.(state := SchemeEndSlash), s.(state := SchemeEndSlashSlash);
    GoesOn(buf, i, s);
    if IsAlnum(buf[i]) {
      slashes := "";
    } else {
      SlashFollows(buf, i, s);
      if IsAlnum(buf[i + 1]) {
        slashes := "/";
      } else {
        SlashFollows(buf, i + 1, t);
        LastSlash(buf, i + 2, u);
        slashes := "//";
        assert buf[i..i + 2] == "//";
      }
    }
  }

  lemma SlashFollows(buf: string, i: nat, s: Scan)
    requires Seeking(buf, i, s) && i < |buf| && s.state in {SchemeEnd, SchemeEndSlash} && !IsAlnum(buf[i])
    ensures i + 1 < |buf| && buf[i] == '/'
    ensures Seeking(buf, i + 1, s.(state := if s.state == SchemeEnd then SchemeEndSlash else SchemeEndSlashSlash))
  {
    var t := s.(state := if s.state == SchemeEnd then SchemeEndSlash else SchemeEndSlashSlash);
    GoesOn(buf, i, s);
    assert Step(s, buf, i) == Go(t);
    SeeksOn(buf, i, s, t);
    GoesOn(buf, i + 1, t);
  }

  lemma LastSlash(buf: string, i: nat, s: Scan)
    requires Seeking(buf, i, s) && s.state == SchemeEndSlashSlash
    ensures i < |buf| && IsAlnum(buf[i])
  {
  }

  /** The digits of a port that a '/' ends. */
  lemma PortFits(buf: string, s: Scan, e: nat)
    requires s.prev < e < |buf| && buf[e] == '/' && AllDigits(buf[s.prev..e]) && EndPort(s, buf, e).Go?
    ensures PortOk(buf[s.prev..e]) && At(buf, s.prev, buf[s.prev..e] + "/")
  {
    var port := buf[s.prev..e];
    assert buf[s.prev..e + 1] == port + "/";
    assert At(buf, s.prev, port);
    hide At, Decimal, Atoi;
    PlainDecimal(buf, s.prev, port);
  }

  lemma PortEnds(buf: string, s: Scan, e: nat) returns (t: Scan)
    requires Seeking(buf, e, s) && s.prev < e < |buf| && buf[e] == '/' && s.state in {Port, PortOrPassword}
    ensures t.prev == s.prev && EndPort(t, buf, e).Go?
  {
    GoesOn(buf, e, s);
    t := if s.state == Port then s else s.(uri := s.uri.(hostname := s.uri.username, username := s.uri.hostname));
    hide EndPort, Run;
  }

  lemma FindPort(buf: string, i: nat, s: Scan) returns (port: string)
    requires s.state == PortStart && Seeking(buf, i, s)
    ensures PortOk(port) && At(buf, i, port + "/")
  {
    hide Run, Step, EndPort, At, PortOk, Seeking;
    var t := NameBegins(buf, i, s);
    var e := FindNameFrom(buf, i, t);
    NameEnds(buf, e, t);
    PassesDigits(buf[i..e]);
    var u := PortEnds(buf, t, e);
    port := buf[i..e];
    PortFits(buf, u, e);
  }

  lemma PassesDigits(s: string)
    requires AllPass(Port, s) || AllPass(PortOrPassword, s)
    ensures AllDigits(s)
  {
  }

  lemma PassesNames(state: State, s: string)
    requires state in {UsernameOrHostname, Hostname} && AllPass(state, s)
    ensures NameChars(s)
  {
  }

  lemma FindHost(buf: string, i: nat, s: Scan) returns (host: string, port: Option<string>)
    requires s.state == HostnameStart && Seeking(buf, i, s)
    ensures HostOk(host) && (port.Some? ==> PortOk(port.value)) && At(buf, i, (host + PrintPort(port)) + "/")
  {
    hide Run, Step, PortOk, Seeking, NameChars;
    var t := NameBegins(buf, i, s);
    var e := FindNameFrom(buf, i, t);
    NameEnds(buf, e, t);
    host := buf[i..e];
    PassesNames(Hostname, host);
    if buf[e] == '/' {
      port := None;
      assert buf[i..e + 1] == (host + "") + "/";
    } else {
      NameFollowed(buf, e, t);
      assert At(buf, e, ":") && At(buf, i, host);
      hide At;
      var digits := FindPort(buf, e + 1, AfterName(t, ':', e));
      port := Some(digits);
      HostJoins(buf, i, host, digits);
    }
  }

  lemma HostJoins(buf: string, i: nat, host: string, digits: string)
    requires At(buf, i, host) && At(buf, i + |host|, ":") && At(buf, i + |host| + 1, digits + "/")
    ensures At(buf, i, (host + (":" + digits)) + "/")
  {
    hide At;
    AtSplit(buf, i + |host| + 1, digits, "/");
    AtJoin(buf, i + |host|, ":", digits);
    AtJoin(buf, i, host, ":" + digits);
    AtJoin(buf, i, host + (":" + digits), "/");
  }

  /** What follows the ':' behind the first name: a port that a '/' ends, or a password that a '@' ends. */
  lemma FindPortOrPassword(buf: string, i: nat, s: Scan) returns (text: string, isPort: bool)
    requires s.state == PortOrPasswordStart && Seeking(buf, i, s)
    ensures isPort ==> PortOk(text) && At(buf, i, text + "/")
    ensures !isPort ==> PasswordOk(text) && At(buf, i, text + "@")
  {
    hide Run, Step, PortOk, Seeking, At, EndPort, Passes;
    var t := NameBegins(buf, i, s);
    var e := FindName(buf, i + 1, t);
    PassesDigits(buf[i + 1..e]);
    if buf[e] == '/' {
      var u := PortEnds(buf, t, e);
      text, isPort := buf[i..e], true;
      PortIsDigits(buf, u, e);
      PortFits(buf, u, e);
    } else {
      isPort := false;
      text := FindPassword(buf, i, t, e);
    }
  }

  lemma PortIsDigits(buf: string, s: Scan, e: nat)
    requires s.prev <= e <= |buf| && EndPort(s, buf, e).Go?
    ensures AllDigits(buf[s.prev..e])
  {
  }

  lemma FindPassword(buf: string, i: nat, s: Scan, e: nat) returns (text: string)
    requires s.state == PortOrPassword && s.prev == i < e < |buf| && Seeking(buf, e, s) && !Passes(s.state, buf[e])
        && buf[e] != '/'
    requires IsUnreserved(buf[i]) && AllDigits(buf[i + 1..e])
    ensures PasswordOk(text) && At(buf, i, text + "@")
  {
    hide Run, Step, Seeking, AllDigits, PasswordOk;
    NameEnds(buf, e, s);
    var last := e;
    if buf[e] != '@' {
      NameFollowed(buf, e, s);
      var t := AfterName(s, buf[e], e);
      last := FindName(buf, e + 1, t);
      NameEnds(buf, last, t);
      forall k | e < k < last ensures PasswordChar(buf[k]) {
        assert Passes(Password, buf[e + 1..last][k - e - 1]);
      }
    }
    text := buf[i..last];
    PasswordRead(buf, i, e, last);
    assert buf[i..last + 1] == text + "@";
  }

  lemma PasswordRead(buf: string, i: nat, e: nat, last: nat)
    requires i < e <= last <= |buf| && IsUnreserved(buf[i]) && AllDigits(buf[i + 1..e])
    requires forall k :: e <= k < last ==> PasswordChar(buf[k])
    ensures PasswordOk(buf[i..last])
  {
    forall k | i + 1 <= k < last ensures PasswordChar(buf[k]) {
      if k < e {
        assert IsDigit(buf[i + 1..e][k - i - 1]);
      }
    }
  }

  /** The scan behind a password. */
  lemma PasswordPassed(buf: string, i: nat, password: string, s: Scan) returns (t: Scan)
    requires s.state == PortOrPasswordStart && Seeking(buf, i, s) && PasswordOk(password) && At(buf, i, password + "@")
    ensures t.state == HostnameStart && Seeking(buf, i + |password| + 1, t)
  {
    hide Step;
    ReadPassword(buf, i, password, s);
    AtText(buf, i, password + "@");
    AtChar(buf, i, password, 0) by {
      AtSplit(buf, i, password, "@");
    }
    hide At, Run;
    t := s.(state := HostnameStart, prev := i, uri := s.uri.(password := View(i, i + |password|)));
  }

  lemma FindAuthority(buf: string, i: nat, s: Scan) returns (a: Authority)
    requires s.state == UsernameOrHostname && s.prev == i < |buf| && Seeking(buf, i + 1, s) && IsAlnum(buf[i])
    ensures AuthorityOk(a) && At(buf, i, PrintAuthority(a) + "/")
  {
    hide Run, Step, PortOk, HostOk, PasswordOk, PrintPort, Seeking, NameChars;
    var e := FindNameFrom(buf, i, s);
    var name := buf[i..e];
    PassesNames(UsernameOrHostname, name);
    NameEnds(buf, e, s);
    assert FirstNameOk(name) && At(buf, i, name) && At(buf, e, [buf[e]]);
    if buf[e] == '/' {
      a := HostOnly(name);
      hide At;
      AtJoin(buf, i, name, "/");
    } else {
      NameFollowed(buf, e, s);
      hide At, FirstNameOk;
      var t := AfterName(s, buf[e], e);
      if buf[e] == '@' {
        var host, port := FindHost(buf, e + 1, t);
        a := UserHost(name, host, port);
        UserJoins(buf, i, name, "@", host + PrintPort(port), "/");
      } else {
        var text, isPort := FindPortOrPassword(buf, e + 1, t);
        if isPort {
          a := HostPort(name, text);
          UserJoins(buf, i, name, ":", text, "/");
        } else {
          var u := PasswordPassed(buf, e + 1, text, t);
          var host, port := FindHost(buf, e + 1 + |text| + 1, u);
          a := PasswordHost(name, text, host, port);
          PasswordJoins(buf, i, name, text, host + PrintPort(port));
        }
      }
    }
  }

  lemma UserJoins(buf: string, i: nat, name: string, delimiter: string, text: string, end: string)
    requires At(buf, i, name) && At(buf, i + |name|, delimiter) && At(buf, i + |name| + |delimiter|, text + end)
    ensures At(buf, i, (name + (delimiter + text)) + end)
  {
    hide At;
    AtSplit(buf, i + |name| + |delimiter|, text, end);
    AtJoin(buf, i + |name|, delimiter, text);
    AtJoin(buf, i, name, delimiter + text);
    AtJoin(buf, i, name + (delimiter + text), end);
  }

  lemma PasswordJoins(buf: string, i: nat, user: string, password: string, host: string)
    requires At(buf, i, user) && At(buf, i + |user|, ":") && At(buf, i + |user| + 1, password + "@")
    requires At(buf, i + |user| + 1 + |password| + 1, host + "/")
    ensures At(buf, i, (user + (":" + (password + ("@" + host)))) + "/")
  {
    hide At;
    AtSplit(buf, i + |user| + 1, password, "@");
    UserJoins(buf, i + |user| + 1, password, "@", host, "/");
    UserJoins(buf, i, user, ":", password + ("@" + host), "/");
  }

  // ---------------------------------------------------------------- the rest of an accepted URI

  /** Where the path ends: with the buffer, or at the first '#' or '?'. */
  lemma FindPathEnd(buf: string, at: nat, s: Scan) returns (e: nat)
    requires s.state == Path && s.prev == at < |buf| && buf[at] == '/' && Inside(s, buf, at) && Empty(s.uri.path)
    ensures at < e <= |buf| && PathOk(buf[at..e]) && Inside(s, buf, e) && Run(s, buf, e) == Run(s, buf, at)
    ensures e < |buf| ==> buf[e] in {'#', '?'}
  {
    hide Run;
    StepPasses(s, buf, at);
    StepsTo(s, buf, at, s);
    e := Leaves(s, buf, at + 1);
    forall k | at + 1 <= k < e ensures buf[k] != '#' && buf[k] != '?' {
      assert Step(s, buf, k) == Go(s);
      GoPasses(s, buf, k);
    }
    if e < |buf| && Passes(Path, buf[e]) {
      StepPasses(s, buf, e);
    }
  }

  /** Right behind a '#' or '?' the buffer goes on: there would be no query otherwise but the path itself. */
  lemma SomethingFollows(buf: string, i: nat, s: Scan)
    requires i <= |buf| && Inside(s, buf, i) && s.state in {HashStart, QueryStart} && s.prev < |buf|
        && buf[s.prev] == '/'
    requires !Empty(s.uri.path) && Empty(s.uri.queryText) && Run(s, buf, i).outcome == Completed
    ensures i < |buf|
  {
  }

  lemma FollowsQuery(buf: string, i: nat, s: Scan)
    requires i <= |buf| && Inside(s, buf, i) && s.state == HashStart
    requires !Empty(s.uri.path) && !Empty(s.uri.queryText) && Run(s, buf, i).outcome == Completed
    ensures i < |buf|
  {
  }

  lemma FindRest(buf: string, at: nat, s: Scan)
    returns (path: string, query: Option<seq<Pair>>, fragment: Option<string>)
    requires s.state == Path && s.prev == at < |buf| && buf[at] == '/' && Inside(s, buf, at) && FreshRest(s.uri)
    requires Run(s, buf, at).outcome == Completed
    ensures PathOk(path) && (query.Some? ==> PairsOk(query.value)) && (fragment.Some? ==> |fragment.value| >= 1)
    ensures buf[at..] == path + (PrintQuery(query) + PrintFragment(fragment))
  {
    hide Run, PairsOk, Join, ParseQueries, PathOk;
    var e := FindPathEnd(buf, at, s);
    path, query, fragment := buf[at..e], None, None;
    if e == |buf| {
    } else if buf[e] == '#' {
      var t := s.(state := HashStart, uri := s.uri.(path := View(at, e)));
      StepsTo(s, buf, e, t);
      SomethingFollows(buf, e + 1, t);
      fragment := Some(buf[e + 1..]);
      Sliced(buf, at, e);
    } else {
      var t := s.(state := QueryStart, uri := s.uri.(path := View(at, e)));
      StepsTo(s, buf, e, t);
      SomethingFollows(buf, e + 1, t);
      StepsTo(t, buf, e + 1, t.(state := QueryText, prev := e + 1));
      var pairs;
      pairs, fragment := FindQueryText(buf, e + 1, t.(state := QueryText, prev := e + 1));
      query := Some(pairs);
      Sliced(buf, at, e);
      assert "?" + (Join(pairs) + PrintFragment(fragment)) == ("?" + Join(pairs)) + PrintFragment(fragment);
    }
  }

  lemma Sliced(buf: string, at: nat, e: nat)
    requires at <= e < |buf|
    ensures buf[at..] == buf[at..e] + ([buf[e]] + buf[e + 1..])
  {
  }

  lemma FindQueryText(buf: string, q: nat, s: Scan) returns (pairs: seq<Pair>, fragment: Option<string>)
    requires s.state == QueryText && s.prev == q < |buf| && Inside(s, buf, q + 1) && !Empty(s.uri.path)
        && Empty(s.uri.queryText)
    requires Run(s, buf, q + 1).outcome == Completed
    ensures PairsOk(pairs) && (fragment.Some? ==> |fragment.value| >= 1)
    ensures buf[q..] == Join(pairs) + PrintFragment(fragment)
  {
    hide Run, PairsOk, Join, ParseQueries;
    var e := Leaves(s, buf, q + 1);
    var uri := s.uri.(queryText := View(q, e));
    if e == |buf| {
      FinishQuery(s, buf);
      pairs := FindQueries(QueryText, uri, buf);
      fragment := None;
    } else {
      assert buf[e] == '#';
      var t := s.(state := HashStart, uri := uri);
      StepsTo(s, buf, e, t);
      FollowsQuery(buf, e + 1, t);
      ReadFragment(buf, e + 1, t);
      pairs := FindQueries(HashStart, uri.(fragment := View(e + 1, |buf|)), buf);
      fragment := Some(buf[e + 1..]);
      Sliced(buf, q, e);
    }
  }

  // ---------------------------------------------------------------- equivalence

  lemma JoinUri(buf: string, u: UriText, a: nat)
    requires At(buf, 0, u.scheme + ":") && At(buf, |u.scheme| + 1, u.slashes) && a == AuthorityStart(u)
    requires At(buf, a, PrintAuthority(u.authority)) && a + |PrintAuthority(u.authority)| <= |buf|
    requires buf[a + |PrintAuthority(u.authority)|..] == PrintRest(u)
    ensures buf == Print(u)
  {
    var authority, rest := PrintAuthority(u.authority), PrintRest(u);
    hide PrintAuthority, PrintRest;
    assert At(buf, a + |authority|, rest);
    AtJoin(buf, a, authority, rest);
    AtJoin(buf, |u.scheme| + 1, u.slashes, authority + rest);
    AtJoin(buf, 0, u.scheme + ":", u.slashes + (authority + rest));
    assert buf[..|buf|] == buf;
  }

  lemma FindWritten(buf: string) returns (u: UriText)
    requires FoundPath(buf, Parse(NO_FIELDS, buf))
    ensures UriOk(u) && buf == Print(u)
  {
    hide Run, Step, At, SchemeOk, AuthorityOk, PathOk, PairsOk, FoundPath, PrintAuthority, Text;
    var s := Scan(SchemeStart, 0, NO_FIELDS);
    var scheme := FindScheme(buf, s);
    ReadScheme(buf, scheme, s);
    AtText(buf, 0, scheme + ":");
    var t := s.(state := SchemeEnd, uri := NO_FIELDS.(scheme := View(0, |scheme|)));
    var slashes := FindSlashes(buf, |scheme| + 1, t);
    ReadSlashes(buf, |scheme| + 1, slashes, t);
    var a := |scheme| + 1 + |slashes|;
    FirstPassed(buf, a, t.(state := UsernameOrHostname, prev := a));
    var authority := FindAuthority(buf, a, t.(state := UsernameOrHostname, prev := a));
    ReadAuthority(buf, a, authority, t.(state := UsernameOrHostname, prev := a));
    hide Seeking;
    var e := a + |PrintAuthority(authority)|;
    AuthorityFresh(t.uri, authority, a);
    hide WithAuthority;
    var v := PathScan(WithAuthority(t.uri, authority, a), e);
    PathCompleted(buf, e, v);
    hide Inside, FreshRest;
    var path, query, fragment := FindRest(buf, e, v);
    u := UriText(scheme, slashes, authority, path, query, fragment);
    AtSplit(buf, a, PrintAuthority(authority), "/");
    hide PrintQuery, PrintFragment;
    JoinUri(buf, u, a);
  }

  lemma FirstPassed(buf: string, i: nat, s: Scan)
    requires i < |buf| && s.state == UsernameOrHostname && s.prev == i && IsAlnum(buf[i]) && Seeking(buf, i, s)
    ensures Seeking(buf, i + 1, s)
  {
  }

  lemma PathCompleted(buf: string, i: nat, s: Scan)
    requires i <= |buf| && Inside(s, buf, i) && FoundPath(buf, Run(s, buf, i))
    ensures Run(s, buf, i).outcome == Completed
  {
  }

  /** The parser completes with a path that begins with a '/', if and only if the buffer is a URI as written. */
  lemma FoundPathExactly(buf: string)
    ensures FoundPath(buf, Parse(NO_FIELDS, buf)) <==> exists u :: UriOk(u) && buf == Print(u)
  {
    hide Parse, UriOk, Print;
    if FoundPath(buf, Parse(NO_FIELDS, buf)) {
      var u := FindWritten(buf);
    }
    if u :| UriOk(u) && buf == Print(u) {
      RoundTrip(u);
      PathStarts(u);
    }
  }

  lemma PathStarts(u: UriText)
    requires UriOk(u)
    ensures u.path != "" && u.path[0] == '/'
  {
  }
}
