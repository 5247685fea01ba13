/** The buffers that the URI parser calls complete although they are no URIs: those that break off before their path. */
module UriStubs {
  import opened Options
  import opened HttpText
  import opened UriMachine
  import opened QueryList
  import opened UriGrammar
  import opened UriLanguage

  // ---------------------------------------------------------------- grammar

  /** What stands before a '@'. */
  datatype Login = Login(user: string, password: Option<string>)

  /** How far an authority got. */
  datatype Part =
    | NoName
    | Name(name: string)
    | NameColon(name: string)
    | Secret(name: string, text: string)   // a port or a password
    | LoginOnly(login: Login)
    | Host(login: Login, host: string)
    | HostColon(login: Login, host: string)
    | Digits(login: Login, host: string, digits: string)

  /** A beginning of a URI that ends before the '/' of its path. */
  datatype Stub =
    | InScheme(scheme: string)
    | InAuthority(scheme: string, slashes: string, part: Part)

  predicate LoginOk(login: Login)
  {
    FirstNameOk(login.user) && (login.password.Some? ==> PasswordOk(login.password.value))
  }

  predicate PartOk(part: Part)
  {
    match part
    case NoName => true
    case Name(name) => FirstNameOk(name)
    case NameColon(name) => FirstNameOk(name)
    case Secret(name, text) => FirstNameOk(name) && PasswordOk(text)
    case LoginOnly(login) => LoginOk(login)
    case Host(login, host) => LoginOk(login) && HostOk(host)
    case HostColon(login, host) => LoginOk(login) && HostOk(host)
    case Digits(login, host, digits) => LoginOk(login) && HostOk(host) && |digits| >= 1 && AllDigits(digits)
  }

  predicate StubOk(stub: Stub)
  {
    SchemeOk(stub.scheme)
    && (stub.InAuthority? ==> stub.slashes in {"", "/", "//"} && PartOk(stub.part))
  }

  function PrintLogin(login: Login): string
  {
    (if login.password == None then login.user else (login.user + ":") + login.password.value) + "@"
  }

  function PrintPart(part: Part): string
  {
    match part
    case NoName => ""
    case Name(name) => name
    case NameColon(name) => name + ":"
    case Secret(name, text) => (name + ":") + text
    case LoginOnly(login) => PrintLogin(login)
    case Host(login, host) => PrintLogin(login) + host
    case HostColon(login, host) => (PrintLogin(login) + host) + ":"
    case Digits(login, host, digits) => ((PrintLogin(login) + host) + ":") + digits
  }

  function PrintStub(stub: Stub): string
  {
    if stub.InScheme? then stub.scheme else ((stub.scheme + ":") + stub.slashes) + PrintPart(stub.part)
  }

  // ---------------------------------------------------------------- what is recorded of them

  function LoginFields(uri: Fields, login: Login, at: nat): Fields
  {
    var p := at + |login.user| + 1;
    var uri := uri.(username := View(at, at + |login.user|));
    if login.password == None then uri else uri.(password := View(p, p + |login.password.value|))
  }

  /** prev_it behind a login: the start of its last name. */
  function LoginPrev(login: Login, at: nat): nat
  {
    if login.password == None then at else at + |login.user| + 1
  }

  function PartScan(uri: Fields, slashes: string, part: Part, at: nat): Scan
  {
    match part
    case NoName =>
      Scan(if |slashes| == 0 then SchemeEnd else if |slashes| == 1 then SchemeEndSlash else SchemeEndSlashSlash, 0, uri)
    case Name(name) => Scan(UsernameOrHostname, at, uri)
    case NameColon(name) => Scan(PortOrPasswordStart, at, uri.(username := View(at, at + |name|)))
    case Secret(name, text) =>
      Scan(if text != "" && AllDigits(text[1..]) then PortOrPassword else Password, at + |name| + 1,
           uri.(username := View(at, at + |name|)))
    case LoginOnly(login) => Scan(HostnameStart, LoginPrev(login, at), LoginFields(uri, login, at))
    case Host(login, host) => Scan(Hostname, at + |PrintLogin(login)|, LoginFields(uri, login, at))
    case HostColon(login, host) =>
      var h := at + |PrintLogin(login)|;
      Scan(PortStart, h, LoginFields(uri, login, at).(hostname := View(h, h + |host|)))
    case Digits(login, host, digits) =>
      var h := at + |PrintLogin(login)|;
      Scan(Port, h + |host| + 1, LoginFields(uri, login, at).(hostname := View(h, h + |host|)))
  }

  /** The locals of the loop where the buffer ends. */
  function StubScan(stub: Stub): Scan
  {
    match stub
    case InScheme(_) => Scan(SchemeStart, 0, NO_FIELDS)
    case InAuthority(scheme, slashes, part) =>
      PartScan(NO_FIELDS.(scheme := View(0, |scheme|)), slashes, part, |scheme| + 1 + |slashes|)
  }

  // ---------------------------------------------------------------- one character at a time

  function Short(s: string): string
  {
    if s == "" then "" else s[..|s| - 1]
  }

  /** A part without its last character. */
  function PartBefore(part: Part): Part
  {
    match part
    case NoName => NoName
    case Name(name) => if |name| == 1 then NoName else Name(Short(name))
    case NameColon(name) => Name(name)
    case Secret(name, text) => if |text| == 1 then NameColon(name) else Secret(name, Short(text))
    case LoginOnly(login) =>
      if login.password == None then Name(login.user) else Secret(login.user, login.password.value)
    case Host(login, host) => if |host| == 1 then LoginOnly(login) else Host(login, Short(host))
    case HostColon(login, host) => Host(login, host)
    case Digits(login, host, digits) =>
      if |digits| == 1 then HostColon(login, host) else Digits(login, host, Short(digits))
  }

  function Before(stub: Stub): Stub
  {
    if stub.InScheme? then InScheme(Short(stub.scheme))
    else if stub.part.NoName? then
      if stub.slashes == "" then InScheme(stub.scheme) else InAuthority(stub.scheme, Short(stub.slashes), NoName)
    else InAuthority(stub.scheme, stub.slashes, PartBefore(stub.part))
  }

  /** A part with one character more, when the loop takes it. */
  function PartAfter(part: Part, c: char): Part
  {
    match part
    case NoName => Name([c])
    case Name(name) =>
      if c == ':' then NameColon(name) else if c == '@' then LoginOnly(Login(name, None)) else Name(name + [c])
    case NameColon(name) => Secret(name, [c])
    case Secret(name, text) => if c == '@' then LoginOnly(Login(name, Some(text))) else Secret(name, text + [c])
    case LoginOnly(login) => Host(login, [c])
    case Host(login, host) => if c == ':' then HostColon(login, host) else Host(login, host + [c])
    case HostColon(login, host) => Digits(login, host, [c])
    case Digits(login, host, digits) => Digits(login, host, digits + [c])
  }

  function After(stub: Stub, c: char): Stub
  {
    match stub
    case InScheme(scheme) => if c == ':' then InAuthority(scheme, "", NoName) else InScheme(scheme + [c])
    case InAuthority(scheme, slashes, part) =>
      if part.NoName? && c == '/' then InAuthority(scheme, slashes + [c], NoName)
      else InAuthority(scheme, slashes, PartAfter(part, c))
  }

  /** The loop takes a character and is still before a path. */
  ghost predicate Takes(s: Scan, buf: string, i: nat)
  {
    i < |buf| && Inside(s, buf, i) && Step(s, buf, i).Go? && Step(s, buf, i).scan.state != Path
  }

  lemma Longer(s: string, t: string, c: char)
    ensures s + (t + [c]) == (s + t) + [c]
  {
  }

  lemma NameGrows(s: string, c: char)
    requires NameChars(s) && IsNameChar(c)
    ensures NameChars(s + [c])
  {
  }

  lemma SecretGrows(s: string, c: char)
    requires PasswordOk(s) && PasswordChar(c)
    ensures PasswordOk(s + [c]) && (AllDigits((s + [c])[1..]) <==> AllDigits(s[1..]) && IsDigit(c))
  {
    var t := s + [c];
    assert t[1..] == s[1..] + [c];
    assert t[1..][|s| - 1] == c;
    forall k | 0 <= k < |s| - 1 ensures t[1..][k] == s[1..][k] {
    }
  }

  /** One step at the end of a part: how it goes on, and where the loop is. */
  ghost predicate Follows(uri: Fields, slashes: string, part: Part, at: nat, buf: string, i: nat)
    requires i < |buf| && Inside(PartScan(uri, slashes, part, at), buf, i)
  {
    var next := PartAfter(part, buf[i]);
    PartOk(next) && PrintPart(next) == PrintPart(part) + [buf[i]]
    && Step(PartScan(uri, slashes, part, at), buf, i) == Go(PartScan(uri, slashes, next, at))
  }

  lemma NameTakes(uri: Fields, slashes: string, name: string, at: nat, buf: string)
    requires FirstNameOk(name) && Takes(PartScan(uri, slashes, Name(name), at), buf, at + |name|)
    ensures Follows(uri, slashes, Name(name), at, buf, at + |name|)
  {
    var c := buf[at + |name|];
    if c != ':' && c != '@' {
      NameGrows(name, c);
    }
    hide IsAlnum, IsUnreserved, NameChars;
  }

  lemma SecretTakes(uri: Fields, slashes: string, name: string, text: string, at: nat, buf: string)
    requires FirstNameOk(name) && PasswordOk(text)
    requires Takes(PartScan(uri, slashes, Secret(name, text), at), buf, at + |name| + 1 + |text|)
    ensures Follows(uri, slashes, Secret(name, text), at, buf, at + |name| + 1 + |text|)
  {
    var c := buf[at + |name| + 1 + |text|];
    hide FirstNameOk, AllDigits, EndPort;
    if c != '@' {
      Longer(name + ":", text, c);
      SecretStep(uri, slashes, name, text, at, buf);
      SecretGrows(text, c);
      hide PasswordOk;
    } else {
      hide PasswordOk, IsAlnum;
    }
  }

  lemma SecretStep(uri: Fields, slashes: string, name: string, text: string, at: nat, buf: string)
    requires PasswordOk(text)
    requires Takes(PartScan(uri, slashes, Secret(name, text), at), buf, at + |name| + 1 + |text|)
    requires buf[at + |name| + 1 + |text|] != '@'
    ensures var c := buf[at + |name| + 1 + |text|];
            var s := PartScan(uri, slashes, Secret(name, text), at);
            PasswordChar(c)
            && Step(s, buf, at + |name| + 1 + |text|)
                  == Go(if s.state == PortOrPassword && IsDigit(c) then s else s.(state := Password))
  {
    hide AllDigits, PasswordOk;
    var s := PartScan(uri, slashes, Secret(name, text), at);
    var i := at + |name| + 1 + |text|;
    if buf[i] == '/' {
      PortMoves(s.(uri := s.uri.(hostname := s.uri.username, username := s.uri.hostname)), buf, i);
    }
    hide EndPort;
  }

  lemma PortMoves(s: Scan, buf: string, i: nat)
    requires i <= |buf|
    ensures EndPort(s, buf, i).Go? ==> EndPort(s, buf, i).scan.state == Path
  {
    hide Text, Atoi, AllDigits;
  }

  lemma HostTakes(uri: Fields, slashes: string, login: Login, host: string, at: nat, buf: string)
    requires LoginOk(login) && HostOk(host)
    requires Takes(PartScan(uri, slashes, Host(login, host), at), buf, at + |PrintLogin(login)| + |host|)
    ensures Follows(uri, slashes, Host(login, host), at, buf, at + |PrintLogin(login)| + |host|)
  {
    var c := buf[at + |PrintLogin(login)| + |host|];
    hide LoginOk, PrintLogin, LoginFields, IsUnreserved;
    if c != ':' {
      NameGrows(host, c);
      Longer(PrintLogin(login), host, c);
    }
    hide NameChars;
  }

  lemma DigitsTake(uri: Fields, slashes: string, login: Login, host: string, digits: string, at: nat, buf: string)
    requires LoginOk(login) && HostOk(host) && |digits| >= 1 && AllDigits(digits)
    requires Takes(PartScan(uri, slashes, Digits(login, host, digits), at), buf,
                   at + |PrintLogin(login)| + |host| + 1 + |digits|)
    ensures Follows(uri, slashes, Digits(login, host, digits), at, buf,
                    at + |PrintLogin(login)| + |host| + 1 + |digits|)
  {
    var i := at + |PrintLogin(login)| + |host| + 1 + |digits|;
    hide LoginOk, HostOk, PrintLogin, LoginFields;
    Longer((PrintLogin(login) + host) + ":", digits, buf[i]);
    PortMoves(PartScan(uri, slashes, Digits(login, host, digits), at), buf, i);
    hide EndPort;
    assert IsDigit(buf[i]);
    assert AllDigits(digits + [buf[i]]);
    hide AllDigits;
  }

  lemma DelimiterTakes(uri: Fields, slashes: string, part: Part, at: nat, buf: string)
    requires PartOk(part) && (part.NoName? || part.NameColon? || part.LoginOnly? || part.HostColon?)
    requires part.NoName? ==> slashes in {"", "/", "//"}
    requires var i := at + |PrintPart(part)|;
             Takes(PartScan(uri, slashes, part, at), buf, i) && !(part.NoName? && buf[i] == '/')
    ensures Follows(uri, slashes, part, at, buf, at + |PrintPart(part)|)
  {
    hide LoginOk, PrintLogin, LoginFields;
    var c := buf[at + |PrintPart(part)|];
    assert [c][1..] == "" && AllDigits("");
    assert "" + [c] == [c];
  }

  /** The scan behind a part follows the parser. */
  lemma PartTakes(uri: Fields, slashes: string, part: Part, at: nat, buf: string)
    requires PartOk(part) && (part.NoName? ==> slashes in {"", "/", "//"})
    requires var i := at + |PrintPart(part)|;
             Takes(PartScan(uri, slashes, part, at), buf, i) && !(part.NoName? && buf[i] == '/')
    ensures Follows(uri, slashes, part, at, buf, at + |PrintPart(part)|)
  {
    hide Follows, Takes, PartScan, PrintLogin, LoginOk, FirstNameOk, PasswordOk, HostOk, AllDigits;
    match part
    case Name(name) => NameTakes(uri, slashes, name, at, buf);
    case Secret(name, text) => SecretTakes(uri, slashes, name, text, at, buf);
    case Host(login, host) => HostTakes(uri, slashes, login, host, at, buf);
    case Digits(login, host, digits) => DigitsTake(uri, slashes, login, host, digits, at, buf);
    case _ => DelimiterTakes(uri, slashes, part, at, buf);
  }

  /** The buffer begins with a stub, and the loop is behind it. */
  ghost predicate Behind(buf: string, stub: Stub, i: nat)
  {
    StubOk(stub) && i == |PrintStub(stub)| <= |buf| && buf[..i] == PrintStub(stub) && Inside(StubScan(stub), buf, i)
  }

  lemma ScanInside(buf: string, stub: Stub)
    requires StubOk(stub) && |PrintStub(stub)| <= |buf| && buf[..|PrintStub(stub)|] == PrintStub(stub)
    ensures Behind(buf, stub, |PrintStub(stub)|)
  {
  }

  lemma StubTakes(buf: string, stub: Stub, i: nat)
    requires i < |buf| && Behind(buf, stub, i) && Takes(StubScan(stub), buf, i)
    ensures Behind(buf, After(stub, buf[i]), i + 1)
    ensures Step(StubScan(stub), buf, i) == Go(StubScan(After(stub, buf[i])))
  {
    hide Behind, Takes, Step, StubScan;
    if stub.InScheme? {
      InSchemeTakes(buf, stub, i);
    } else if stub.part.NoName? && buf[i] == '/' {
      SlashTakes(buf, stub, i);
    } else {
      InPartTakes(buf, stub, i);
    }
  }

  lemma InPartTakes(buf: string, stub: Stub, i: nat)
    requires stub.InAuthority? && i < |buf| && Behind(buf, stub, i) && Takes(StubScan(stub), buf, i)
    requires !(stub.part.NoName? && buf[i] == '/')
    ensures Behind(buf, After(stub, buf[i]), i + 1)
    ensures Step(StubScan(stub), buf, i) == Go(StubScan(After(stub, buf[i])))
  {
    hide PrintPart, PartOk, PartScan, Takes, Step, PartAfter, SchemeOk;
    var uri := NO_FIELDS.(scheme := View(0, |stub.scheme|));
    PartTakes(uri, stub.slashes, stub.part, |stub.scheme| + 1 + |stub.slashes|, buf);
    Longer((stub.scheme + ":") + stub.slashes, PrintPart(stub.part), buf[i]);
    assert buf[..i + 1] == buf[..i] + [buf[i]];
    var next := PartAfter(stub.part, buf[i]);
    NamedAfter(stub.part, buf[i]);
    assert After(stub, buf[i]) == InAuthority(stub.scheme, stub.slashes, next);
    hide Inside;
    ScanInside(buf, After(stub, buf[i]));
  }

  lemma NamedAfter(part: Part, c: char)
    ensures !PartAfter(part, c).NoName?
  {
  }

  lemma InSchemeTakes(buf: string, stub: Stub, i: nat)
    requires stub.InScheme? && Behind(buf, stub, i) && Takes(StubScan(stub), buf, i)
    ensures Behind(buf, After(stub, buf[i]), i + 1)
    ensures Step(StubScan(stub), buf, i) == Go(StubScan(After(stub, buf[i])))
  {
    var c := buf[i];
    assert buf[..i + 1] == buf[..i] + [c];
    assert ((stub.scheme + [c]) + "") + "" == stub.scheme + [c];
  }

  lemma SlashTakes(buf: string, stub: Stub, i: nat)
    requires stub.InAuthority? && stub.part.NoName? && Behind(buf, stub, i) && Takes(StubScan(stub), buf, i)
        && buf[i] == '/'
    ensures Behind(buf, After(stub, buf[i]), i + 1)
    ensures Step(StubScan(stub), buf, i) == Go(StubScan(After(stub, buf[i])))
  {
    hide SchemeOk;
    assert buf[..i + 1] == buf[..i] + ['/'];
    Longer(stub.scheme + ":", stub.slashes, '/');
    assert stub.slashes in {"", "/"};
    assert stub.slashes + ['/'] == if stub.slashes == "" then "/" else "//";
    assert PrintStub(stub) == (stub.scheme + ":") + stub.slashes;
    assert PrintStub(After(stub, '/')) == (stub.scheme + ":") + (stub.slashes + ['/']);
  }

  // ---------------------------------------------------------------- every stub is read

  lemma ShortOf(s: string, t: string)
    requires t != ""
    ensures Short(s + t) == s + Short(t) && (s + t)[|s + t| - 1] == t[|t| - 1]
    ensures Short(t) + [t[|t| - 1]] == t
  {
  }

  /** A part is its shorter one with its last character taken. */
  ghost predicate Back(part: Part)
  {
    var text := PrintPart(part);
    var shorter := PartBefore(part);
    && text != "" && PartOk(shorter) && PrintPart(shorter) == Short(text)
    && !(shorter.NoName? && text[|text| - 1] == '/')
    && PartAfter(shorter, text[|text| - 1]) == part
  }

  lemma NameBack(name: string)
    requires FirstNameOk(name)
    ensures Back(Name(name))
  {
    ShortOf("", name);
    var c := name[|name| - 1];
    assert IsNameChar(c) && c != ':' && c != '@' && c != '/';
    if |name| == 1 {
      hide FirstNameOk;
      assert name == [c];
      assert Short(name) == "";
    } else {
      ShortName(name);
      hide FirstNameOk;
    }
  }

  lemma ShortName(name: string)
    requires FirstNameOk(name) && |name| > 1
    ensures FirstNameOk(Short(name))
  {
    hide IsAlnum, IsUnreserved;
  }

  lemma ColonBack(name: string)
    requires FirstNameOk(name)
    ensures Back(NameColon(name))
  {
    hide FirstNameOk;
    ShortOf(name, ":");
  }

  lemma SecretBack(name: string, text: string)
    requires FirstNameOk(name) && PasswordOk(text)
    ensures Back(Secret(name, text))
  {
    hide FirstNameOk, IsAlnum;
    ShortOf(name + ":", text);
    ShortPassword(text);
    var c := text[|text| - 1];
    assert c != '@';
    hide PasswordOk;
    if |text| == 1 {
      assert text == [c];
    }
  }

  lemma ShortPassword(text: string)
    requires PasswordOk(text)
    ensures |text| > 1 ==> PasswordOk(Short(text))
    ensures text[|text| - 1] != '@'
  {
    assert |text| > 1 ==> PasswordChar(text[|text| - 1]);
  }

  lemma LoginBack(login: Login)
    requires LoginOk(login)
    ensures Back(LoginOnly(login))
  {
    hide FirstNameOk, PasswordOk;
    ShortOf(if login.password == None then login.user else (login.user + ":") + login.password.value, "@");
  }

  lemma HostBack(login: Login, host: string)
    requires LoginOk(login) && HostOk(host)
    ensures Back(Host(login, host)) && Back(HostColon(login, host))
  {
    hide PrintLogin, LoginOk;
    ShortOf(PrintLogin(login), host);
    ShortOf(PrintLogin(login) + host, ":");
    var c := host[|host| - 1];
    assert IsNameChar(c) && c != ':';
    hide IsNameChar;
    if |host| == 1 {
      assert host == [c];
      assert PrintLogin(login) + Short(host) == PrintLogin(login);
    }
  }

  lemma DigitsBack(login: Login, host: string, digits: string)
    requires LoginOk(login) && HostOk(host) && |digits| >= 1 && AllDigits(digits)
    ensures Back(Digits(login, host, digits))
  {
    hide PrintLogin, LoginOk, HostOk, IsDigit;
    var prior := (PrintLogin(login) + host) + ":";
    ShortOf(prior, digits);
    if |digits| == 1 {
      assert digits == [digits[0]];
      assert prior + Short(digits) == prior;
    }
  }

  lemma PartBack(part: Part)
    requires PartOk(part) && !part.NoName?
    ensures Back(part)
  {
    hide Back, PrintLogin, LoginOk, FirstNameOk, HostOk, PasswordOk, AllDigits;
    match part
    case Name(name) => NameBack(name);
    case NameColon(name) => ColonBack(name);
    case Secret(name, text) => SecretBack(name, text);
    case LoginOnly(login) => LoginBack(login);
    case Host(login, host) => HostBack(login, host);
    case HostColon(login, host) => HostBack(login, host);
    case Digits(login, host, digits) => DigitsBack(login, host, digits);
  }

  /** A stub is its shorter one with its last character taken. */
  lemma StubBack(stub: Stub)
    requires StubOk(stub) && PrintStub(stub) != ""
    ensures var text := PrintStub(stub);
            StubOk(Before(stub)) && PrintStub(Before(stub)) == Short(text)
              && After(Before(stub), text[|text| - 1]) == stub
  {
    hide PartOk, PartBefore;
    if stub.InScheme? {
      SchemeBack(stub.scheme);
    } else if !stub.part.NoName? {
      hide PrintPart, PartAfter;
      PartBack(stub.part);
      ShortOf((stub.scheme + ":") + stub.slashes, PrintPart(stub.part));
    } else {
      SlashesBack(stub.scheme, stub.slashes);
    }
  }

  lemma SchemeBack(scheme: string)
    requires SchemeOk(scheme) && scheme != ""
    ensures SchemeOk(Short(scheme)) && After(InScheme(Short(scheme)), scheme[|scheme| - 1]) == InScheme(scheme)
  {
    assert IsSchemeChar(scheme[|scheme| - 1]);
    ShortOf("", scheme);
  }

  lemma SlashesBack(scheme: string, slashes: string)
    requires SchemeOk(scheme) && slashes in {"", "/", "//"}
    ensures var stub := InAuthority(scheme, slashes, NoName);
            var text := PrintStub(stub);
            text != "" && StubOk(Before(stub)) && PrintStub(Before(stub)) == Short(text)
            && After(Before(stub), text[|text| - 1]) == stub
  {
    hide SchemeOk;
    ShortOf(scheme, ":");
    if slashes == "" {
      assert ((scheme + ":") + "") + "" == scheme + ":";
    } else {
      ShortOf(scheme + ":", slashes);
      assert Short(slashes) == if slashes == "/" then "" else "/";
      assert ((scheme + ":") + slashes) + "" == (scheme + ":") + slashes;
      assert ((scheme + ":") + Short(slashes)) + "" == (scheme + ":") + Short(slashes);
    }
  }

  /** The characters with which the parser goes on and is still before a path. */
  predicate Taken(state: State, c: char)
  {
    match state
    case SchemeStart => IsSchemeChar(c) || c == ':'
    case SchemeEnd => c == '/' || IsAlnum(c)
    case SchemeEndSlash => c == '/' || IsAlnum(c)
    case SchemeEndSlashSlash => IsAlnum(c)
    case UsernameOrHostname => IsNameChar(c) || c == ':' || c == '@'
    case PortOrPasswordStart => IsUnreserved(c)
    case PortOrPassword => PasswordChar(c) || c == '@'
    case Password => PasswordChar(c) || c == '@'
    case HostnameStart => IsNameChar(c)
    case Hostname => IsNameChar(c) || c == ':'
    case PortStart => IsDigit(c)
    case Port => IsDigit(c)
    case _ => false
  }

  lemma TakenTakes(s: Scan, buf: string, i: nat)
    requires i < |buf| && Inside(s, buf, i) && Taken(s.state, buf[i])
    ensures Takes(s, buf, i)
  {
    hide EndPort;
  }

  /** The state behind a part is one that takes the character that makes it longer. */
  lemma PartTaken(uri: Fields, slashes: string, part: Part, at: nat, c: char)
    requires PartOk(part) && !part.NoName? && PrintPart(part) != "" && c == PrintPart(part)[|PrintPart(part)| - 1]
    ensures Taken(PartScan(uri, slashes, PartBefore(part), at).state, c)
  {
    hide IsUnreserved, PrintLogin, LoginOk;
    match part
    case Name(name) => FirstTaken(name); hide IsNameChar, IsAlnum;
    case Host(login, host) => LastOf(PrintLogin(login), host); hide IsNameChar;
    case Secret(name, text) => LastOf(name + ":", text); hide AllDigits, IsAlnum;
    case Digits(login, host, digits) => LastOf((PrintLogin(login) + host) + ":", digits);
    case LoginOnly(login) => LoginLast(login); hide AllDigits;
    case _ =>
  }

  lemma FirstTaken(name: string)
    requires FirstNameOk(name)
    ensures IsNameChar(name[|name| - 1]) && (|name| == 1 ==> IsAlnum(name[0]))
  {
  }

  lemma LoginLast(login: Login)
    ensures PrintLogin(login)[|PrintLogin(login)| - 1] == '@'
  {
  }

  lemma LastOf(s: string, t: string)
    requires t != ""
    ensures (s + t)[|s + t| - 1] == t[|t| - 1]
  {
  }

  lemma StubTaken(buf: string, stub: Stub, i: nat)
    requires StubOk(stub) && i + 1 == |PrintStub(stub)| <= |buf| && buf[..i + 1] == PrintStub(stub)
    ensures Behind(buf, Before(stub), i) && Takes(StubScan(Before(stub)), buf, i) && After(Before(stub), buf[i]) == stub
  {
    StubBack(stub);
    assert buf[i] == PrintStub(stub)[i];
    assert buf[..i] == Short(PrintStub(stub));
    hide PrintPart, PartAfter, PartOk, PartBefore, PartScan;
    ScanInside(buf, Before(stub));
    CharTaken(stub, buf[i]);
    hide Before, After, PrintStub, StubScan;
    TakenTakes(StubScan(Before(stub)), buf, i);
  }

  lemma CharTaken(stub: Stub, c: char)
    requires StubOk(stub) && PrintStub(stub) != "" && c == PrintStub(stub)[|PrintStub(stub)| - 1]
    ensures Taken(StubScan(Before(stub)).state, c)
  {
    hide PartAfter, PartOk, IsAlnum;
    if stub.InScheme? {
      assert IsSchemeChar(c);
    } else if stub.part.NoName? {
      assert PrintStub(stub) == (stub.scheme + ":") + stub.slashes;
      if stub.slashes != "" {
        LastOf(stub.scheme + ":", stub.slashes);
      }
    } else {
      PartBack(stub.part);
      hide PrintPart, PartBefore, PartScan;
      LastOf((stub.scheme + ":") + stub.slashes, PrintPart(stub.part));
      BeforePart(stub);
      PartTaken(NO_FIELDS.(scheme := View(0, |stub.scheme|)), stub.slashes, stub.part,
                |stub.scheme| + 1 + |stub.slashes|, c);
    }
  }

  lemma BeforePart(stub: Stub)
    requires stub.InAuthority? && !stub.part.NoName?
    ensures Before(stub) == InAuthority(stub.scheme, stub.slashes, PartBefore(stub.part))
  {
  }

  /** The parser reads every stub to its end. */
  lemma {:induction false} StubRead(buf: string, stub: Stub, i: nat)
    requires StubOk(stub) && i == |PrintStub(stub)| <= |buf| && buf[..i] == PrintStub(stub)
    ensures Behind(buf, stub, i) && Run(Scan(SchemeStart, 0, NO_FIELDS), buf, 0) == Run(StubScan(stub), buf, i)
    decreases i
  {
    hide Step, Takes, PartScan, PartOk, PrintPart;
    ScanInside(buf, stub);
    if i == 0 {
      assert stub == InScheme("");
    } else {
      StubTaken(buf, stub, i - 1);
      hide PrintStub, Before, After, StubScan;
      StubRead(buf, Before(stub), i - 1);
      StubTakes(buf, Before(stub), i - 1);
      StepsTo(StubScan(Before(stub)), buf, i - 1, StubScan(stub));
    }
  }

  // ---------------------------------------------------------------- and nothing else completes without a path

  /** Once a path has begun, a parse that completes has found it. */
  lemma PathIsFound(buf: string, at: nat, s: Scan)
    requires s.state == Path && s.prev == at < |buf| && buf[at] == '/' && Inside(s, buf, at) && FreshRest(s.uri)
    requires Run(s, buf, at).outcome == Completed
    ensures FoundPath(buf, Run(s, buf, at))
  {
    hide Run, PrintRest;
    var path, query, fragment := FindRest(buf, at, s);
    var u := UriText("", "", HostOnly("a"), path, query, fragment);
    assert UriOk(u);
    hide UriOk, PairsOk;
    RestIs(u);
    assert At(buf, at, PrintRest(u));
    hide At;
    ReadRest(buf, at, u, s);
    assert path != "" && path[0] == '/';
    PathReadBack(buf, at, u, s.uri);
  }

  lemma RestIs(u: UriText)
    ensures PrintRest(u) == u.path + (PrintQuery(u.query) + PrintFragment(u.fragment))
  {
  }

  lemma PathReadBack(buf: string, at: nat, u: UriText, uri: Fields)
    requires At(buf, at, PrintRest(u))
    ensures Text(buf, WithRest(uri, u, at).path) == u.path
  {
    hide At, Text, Join, QueriesOf, PrintQuery, PrintFragment;
    AtSplit(buf, at, u.path, PrintQuery(u.query) + PrintFragment(u.fragment));
    AtText(buf, at, u.path);
  }

  /** The state behind a stub comes before that of a path, and nothing of a path is recorded. */
  lemma StubState(stub: Stub)
    ensures StubScan(stub).state !in {Path, HashStart, QueryStart, QueryText} && FreshRest(StubScan(stub).uri)
  {
  }

  /** A path begins at its '/'. */
  lemma PathBegins(s: Scan, buf: string, i: nat)
    requires i < |buf| && Inside(s, buf, i) && s.state !in {Path, HashStart, QueryStart, QueryText} && FreshRest(s.uri)
    requires Step(s, buf, i).Go? && Step(s, buf, i).scan.state == Path
    ensures var t := Step(s, buf, i).scan;
            buf[i] == '/' && t.prev == i && Inside(t, buf, i) && FreshRest(t.uri) && Run(t, buf, i) == Run(s, buf, i)
  {
    hide Text, Atoi, AllDigits;
    var t := Step(s, buf, i).scan;
    StepPasses(t, buf, i);
  }

  /** A parse that completes without a path has read a stub. */
  lemma {:induction false} FindStub(buf: string, stub: Stub, i: nat) returns (last: Stub)
    requires Behind(buf, stub, i) && Run(StubScan(stub), buf, i).outcome == Completed
    requires !FoundPath(buf, Run(StubScan(stub), buf, i))
    ensures StubOk(last) && buf == PrintStub(last)
    decreases |buf| - i
  {
    hide Step, FoundPath, PrintStub, StubOk, After, StubScan, FreshRest;
    last := stub;
    StubState(stub);
    var s := StubScan(stub);
    if i < |buf| {
      if Step(s, buf, i).Stop? {
        StopsFail(s, buf, i);
      } else if Step(s, buf, i).scan.state == Path {
        PathBegins(s, buf, i);
        PathIsFound(buf, i, Step(s, buf, i).scan);
      } else {
        StubTakes(buf, stub, i);
        var next := After(stub, buf[i]);
        StepsTo(s, buf, i, StubScan(next));
        hide Behind, Run;
        last := FindStub(buf, next, i + 1);
      }
    } else {
      assert buf[..i] == buf;
    }
  }

  /** A stub is complete: what has begun last, up to the end of the buffer, is taken for the path. */
  lemma StubParsed(stub: Stub)
    requires StubOk(stub)
    ensures var s := StubScan(stub);
            var n := |PrintStub(stub)|;
            s.prev <= n
              && Parse(NO_FIELDS, PrintStub(stub)) == Parsed(Completed, s.state, s.uri.(path := View(s.prev, n)))
  {
    var buf := PrintStub(stub);
    assert buf[..|buf|] == buf;
    hide Step, PrintStub, StubScan;
    StubRead(buf, stub, |buf|);
    StubState(stub);
  }

  /** Completed, if and only if the buffer is a URI as written or one that breaks off before its path. */
  lemma CompletedExactly(buf: string)
    ensures Parse(NO_FIELDS, buf).outcome == Completed
       <==> (exists u :: UriOk(u) && buf == Print(u)) || (exists stub :: StubOk(stub) && buf == PrintStub(stub))
  {
    hide UriOk, Print, StubOk, PrintStub, FoundPath, Step, Run;
    FoundPathExactly(buf);
    FoundCompletes(buf);
    if Parse(NO_FIELDS, buf).outcome == Completed && !FoundPath(buf, Parse(NO_FIELDS, buf)) {
      EmptyStub(buf);
      var stub := FindStub(buf, InScheme(""), 0);
    }
    if stub :| StubOk(stub) && buf == PrintStub(stub) {
      StubParsed(stub);
    }
  }

  lemma FoundCompletes(buf: string)
    ensures FoundPath(buf, Parse(NO_FIELDS, buf)) ==> Parse(NO_FIELDS, buf).outcome == Completed
  {
  }

  lemma EmptyStub(buf: string)
    ensures Behind(buf, InScheme(""), 0) && StubScan(InScheme("")) == Scan(SchemeStart, 0, NO_FIELDS)
  {
  }

  // ---------------------------------------------------------------- what a stub is taken for

  function UserText(part: Part): string
  {
    match part
    case NameColon(name) => name
    case Secret(name, _) => name
    case LoginOnly(login) => login.user
    case Host(login, _) => login.user
    case HostColon(login, _) => login.user
    case Digits(login, _, _) => login.user
    case _ => ""
  }

  function PasswordText(part: Part): string
  {
    match part
    case LoginOnly(login) => TextOr(login.password)
    case Host(login, _) => TextOr(login.password)
    case HostColon(login, _) => TextOr(login.password)
    case Digits(login, _, _) => TextOr(login.password)
    case _ => ""
  }

  /** A host is recorded only once the ':' behind a login's host is there. */
  function HostText(part: Part): string
  {
    match part
    case HostColon(_, host) => host
    case Digits(_, host, _) => host
    case _ => ""
  }

  /** The last thing that began, with the delimiter behind it. */
  function PathText(stub: Stub): string
  {
    if stub.InScheme? then stub.scheme else
    match stub.part
    case NoName => PrintStub(stub)
    case Name(name) => name
    case NameColon(name) => name + ":"
    case Secret(_, text) => text
    case LoginOnly(login) => (if login.password == None then login.user else login.password.value) + "@"
    case Host(_, host) => host
    case HostColon(_, host) => host + ":"
    case Digits(_, _, digits) => digits
  }

  /** What is recorded of a login. */
  lemma LoginText(buf: string, at: nat, login: Login, uri: Fields)
    requires At(buf, at, PrintLogin(login))
    ensures Text(buf, LoginFields(uri, login, at).username) == login.user
    ensures uri.password == NO_VIEW ==> Text(buf, LoginFields(uri, login, at).password) == TextOr(login.password)
    ensures LoginPrev(login, at) <= at + |PrintLogin(login)|
    ensures Text(buf, View(LoginPrev(login, at), at + |PrintLogin(login)|))
        == PathText(InAuthority("", "", LoginOnly(login)))
  {
    hide At, Text;
    NoText(buf);
    if login.password == None {
      AtText(buf, at, login.user + "@");
      AtSplit(buf, at, login.user, "@");
      AtText(buf, at, login.user);
    } else {
      var password := login.password.value;
      assert (login.user + ":") + password + "@" == (login.user + ":") + (password + "@");
      AtSplit(buf, at, login.user + ":", password + "@");
      AtText(buf, at + |login.user| + 1, password + "@");
      AtSplit(buf, at, login.user, ":");
      AtText(buf, at, login.user);
      AtSplit(buf, at + |login.user| + 1, password, "@");
      AtText(buf, at + |login.user| + 1, password);
    }
  }

  /** What is recorded of a part, and taken for the path. */
  predicate PartRecorded(buf: string, s: Scan, part: Part)
  {
    && Text(buf, s.uri.username) == UserText(part) && Text(buf, s.uri.password) == PasswordText(part)
    && Text(buf, s.uri.hostname) == HostText(part)
    && (!part.NoName? ==> Text(buf, View(s.prev, |buf|)) == PathText(InAuthority("", "", part)))
  }

  lemma PartPieces(buf: string, at: nat, slashes: string, part: Part, uri: Fields)
    requires At(buf, at, PrintPart(part)) && |buf| == at + |PrintPart(part)|
    requires uri.username == NO_VIEW && uri.password == NO_VIEW && uri.hostname == NO_VIEW
    ensures PartRecorded(buf, PartScan(uri, slashes, part, at), part)
  {
    hide At, Text, PrintLogin, LoginFields, LoginPrev;
    NoText(buf);
    match part {
      case NoName =>
      case Name(name) =>
        AtText(buf, at, name);
      case NameColon(name) =>
        AtText(buf, at, name + ":");
        AtSplit(buf, at, name, ":");
        AtText(buf, at, name);
      case Secret(name, text) =>
        AtSplit(buf, at, name + ":", text);
        AtText(buf, at + |name| + 1, text);
        AtSplit(buf, at, name, ":");
        AtText(buf, at, name);
      case LoginOnly(login) =>
        LoginText(buf, at, login, uri);
        LoginKeeps(login, uri, at);
      case Host(login, host) =>
        AtSplit(buf, at, PrintLogin(login), host);
        LoginText(buf, at, login, uri);
        LoginKeeps(login, uri, at);
        AtText(buf, at + |PrintLogin(login)|, host);
      case HostColon(login, host) =>
        HostPieces(buf, at, login, host, uri);
        LoginKeeps(login, uri, at);
      case Digits(login, host, digits) =>
        AtSplit(buf, at, (PrintLogin(login) + host) + ":", digits);
        AtText(buf, at + |PrintLogin(login)| + |host| + 1, digits);
        HostPieces(buf, at, login, host, uri);
        LoginKeeps(login, uri, at);
    }
  }

  lemma HostPieces(buf: string, at: nat, login: Login, host: string, uri: Fields)
    requires At(buf, at, (PrintLogin(login) + host) + ":") && uri.password == NO_VIEW
    ensures var h := at + |PrintLogin(login)|;
            Text(buf, LoginFields(uri, login, at).username) == login.user
            && Text(buf, LoginFields(uri, login, at).password) == TextOr(login.password)
            && Text(buf, View(h, h + |host|)) == host && Text(buf, View(h, h + |host| + 1)) == host + ":"
  {
    hide At, Text, PrintLogin, LoginFields, LoginPrev;
    Longer(PrintLogin(login), host, ':');
    AtSplit(buf, at, PrintLogin(login), host + ":");
    AtText(buf, at + |PrintLogin(login)|, host + ":");
    AtSplit(buf, at, PrintLogin(login) + host, ":");
    AtSplit(buf, at, PrintLogin(login), host);
    LoginText(buf, at, login, uri);
    AtText(buf, at + |PrintLogin(login)|, host);
  }

  lemma LoginKeeps(login: Login, uri: Fields, at: nat)
    ensures LoginFields(uri, login, at).hostname == uri.hostname && LoginFields(uri, login, at).scheme == uri.scheme
  {
  }

  /** What a stub is taken for: its last piece is the path, and its host is recorded only when a port has begun behind
      it. */
  lemma StubPieces(stub: Stub)
    requires StubOk(stub)
    ensures var buf := PrintStub(stub);
            var r := Parse(NO_FIELDS, buf);
            r.outcome == Completed && Text(buf, r.uri.path) == PathText(stub)
            && (stub.InAuthority? ==>
                  Text(buf, r.uri.scheme) == stub.scheme && Text(buf, r.uri.username) == UserText(stub.part)
                  && Text(buf, r.uri.password) == PasswordText(stub.part)
                  && Text(buf, r.uri.hostname) == HostText(stub.part))
  {
    hide Parse, PrintStub, PathText, StubScan, Text, PartOk;
    StubParsed(stub);
    StubTexts(stub);
  }

  /** The texts of the views that the loop holds behind a stub. */
  ghost predicate TextsAre(stub: Stub)
  {
    var buf := PrintStub(stub);
    var s := StubScan(stub);
    Text(buf, View(s.prev, |buf|)) == PathText(stub)
    && (stub.InAuthority? ==>
          Text(buf, s.uri.scheme) == stub.scheme && Text(buf, s.uri.username) == UserText(stub.part)
          && Text(buf, s.uri.password) == PasswordText(stub.part) && Text(buf, s.uri.hostname) == HostText(stub.part))
  }

  lemma StubTexts(stub: Stub)
    ensures TextsAre(stub)
  {
    if stub.InScheme? {
      assert stub.scheme[0..|stub.scheme|] == stub.scheme;
    } else {
      hide TextsAre;
      AuthorityTexts(stub);
    }
  }

  lemma AuthorityTexts(stub: Stub)
    requires stub.InAuthority?
    ensures TextsAre(stub)
  {
    hide Text, PrintPart, PartScan, UserText, PasswordText, HostText, PathText, At, PartRecorded;
    var at := |stub.scheme| + 1 + |stub.slashes|;
    SchemeText(stub);
    var uri := NO_FIELDS.(scheme := View(0, |stub.scheme|));
    PartPieces(PrintStub(stub), at, stub.slashes, stub.part, uri);
    PartKeeps(uri, stub.slashes, stub.part, at);
    PathOfPart(stub);
    hide PrintStub;
    Recorded(PrintStub(stub), PartScan(uri, stub.slashes, stub.part, at), stub.part);
  }

  lemma Recorded(buf: string, s: Scan, part: Part)
    requires PartRecorded(buf, s, part)
    ensures Text(buf, s.uri.username) == UserText(part) && Text(buf, s.uri.password) == PasswordText(part)
    ensures Text(buf, s.uri.hostname) == HostText(part)
    ensures !part.NoName? ==> Text(buf, View(s.prev, |buf|)) == PathText(InAuthority("", "", part))
  {
  }

  lemma SchemeText(stub: Stub)
    requires stub.InAuthority?
    ensures var buf := PrintStub(stub);
            var at := |stub.scheme| + 1 + |stub.slashes|;
            Text(buf, View(0, |stub.scheme|)) == stub.scheme && Text(buf, View(0, |buf|)) == buf
            && At(buf, at, PrintPart(stub.part)) && |buf| == at + |PrintPart(stub.part)|
  {
    var buf := PrintStub(stub);
    hide At, Text, PrintPart;
    WholeAt(buf);
    AtText(buf, 0, buf);
    AtSplit(buf, 0, (stub.scheme + ":") + stub.slashes, PrintPart(stub.part));
    AtSplit(buf, 0, stub.scheme + ":", stub.slashes);
    AtSplit(buf, 0, stub.scheme, ":");
    AtText(buf, 0, stub.scheme);
  }

  lemma PathOfPart(stub: Stub)
    requires stub.InAuthority?
    ensures PathText(stub) == if stub.part.NoName? then PrintStub(stub) else PathText(InAuthority("", "", stub.part))
  {
  }

  lemma PartKeeps(uri: Fields, slashes: string, part: Part, at: nat)
    ensures PartScan(uri, slashes, part, at).uri.scheme == uri.scheme
    ensures part.NoName? ==> PartScan(uri, slashes, part, at).prev == 0
  {
  }

  /** One such buffer: the host of a URI without a path is taken for its path. */
  lemma HostTakenForPath()
    ensures var buf := "http://example.com";
            var r := Parse(NO_FIELDS, buf);
            r.outcome == Completed && r.uri.hostname == NO_VIEW && Text(buf, r.uri.path) == "example.com"
  {
    var stub := InAuthority("http", "//", Name("example.com"));
    assert PrintStub(stub) == "http://example.com";
    StubParsed(stub);
    StubPieces(stub);
  }
}
