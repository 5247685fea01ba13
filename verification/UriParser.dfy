/** The URI parser in the source's form: two loops that update the parser's state and the URI. */
module UriParser {
  import opened Options
  import opened HttpText
  import M = UriMachine
  import opened UriMachine

  class Uri {
    var scheme: View
    var username: View
    var password: View
    var hostname: View
    var portText: View
    var port: nat
    var path: View
    var queryText: View
    var queries: seq<Query>
    var fragment: View

    ghost function Value(): Fields
      reads this
    {
      Fields(scheme, username, password, hostname, portText, port, path, queryText, queries, fragment)
    }

    constructor ()
      ensures Value() == NO_FIELDS
    {
      scheme, username, password, hostname, portText := NO_VIEW, NO_VIEW, NO_VIEW, NO_VIEW, NO_VIEW;
      port, path, queryText, queries, fragment := 80, NO_VIEW, NO_VIEW, [], NO_VIEW;
    }
  }

  class Parser {
    var state: State
    var prev: nat

    constructor ()
    {
      state, prev := SchemeStart, 0;
    }

    ghost function ScanOf(uri: Uri): Scan
      reads this, uri
    {
      Scan(state, prev, uri.Value())
    }

    /** A finished call. */
    ghost predicate Ends(p: Parsed, uri: Uri, r: Outcome)
      reads this, uri
    {
      r == p.outcome && state == p.state && uri.Value() == p.uri
    }

    /** The parser and the URI are where r says: None to go on, or the result of the call. */
    ghost predicate Reached(r: Result, uri: Uri, done: Option<Outcome>)
      reads this, uri
    {
      match r
      case Go(next) => done == None && ScanOf(uri) == next
      case Stop(p) => done.Some? && Ends(p, uri, done.value)
    }

    /** Scheme and authority. */
    method Authority(uri: Uri, buf: string, i: nat) returns (done: Option<Outcome>)
      requires i < |buf| && Inside(ScanOf(uri), buf, i)
      requires state !in {Path, HashStart, QueryStart, QueryText}
      modifies this, uri
      ensures Reached(M.Step(old(ScanOf(uri)), buf, i), uri, done)
    {
      hide EndPort;
      var c := buf[i];
      done := None;
      match state {
        case SchemeStart =>
          if c == ':' {
            uri.scheme := View(prev, i);
            state := SchemeEnd;
          } else if !IsSchemeChar(c) { return Some(Error); }
        case SchemeEnd =>
          if c == '/' {
            state := SchemeEndSlash;
          } else if IsAlnum(c) {
            state, prev := UsernameOrHostname, i;
          } else { return Some(Error); }
        case SchemeEndSlash =>
          if c == '/' {
            state := SchemeEndSlashSlash;
          } else if IsAlnum(c) {
            state, prev := UsernameOrHostname, i;
          } else { return Some(Error); }
        case SchemeEndSlashSlash =>
          if !IsAlnum(c) { return Some(Error); }
          state, prev := UsernameOrHostname, i;
        case UsernameOrHostname =>
          if c == ':' {
            uri.username := View(prev, i);
            state := PortOrPasswordStart;
          } else if c == '@' {
            uri.username := View(prev, i);
            state := HostnameStart;
          } else if c == '/' {
            uri.hostname := View(prev, i);
            state, prev := Path, i;
          } else if !IsNameChar(c) { return Some(Error); }
        case PortOrPasswordStart =>
          if !IsUnreserved(c) { return Some(Error); }
          state, prev := PortOrPassword, i;
        case PortOrPassword =>
          if c == '/' {
            uri.hostname, uri.username := uri.username, uri.hostname;
            done := EndOfPort(uri, buf, i);
          } else if c == '@' {
            uri.password := View(prev, i);
            state := HostnameStart;
          } else if !IsDigit(c) {
            if !IsAlnum(c) && c != '%' { return Some(Error); }
            state := Password;
          }
        case Password =>
          if c == '@' {
            uri.password := View(prev, i);
            state := HostnameStart;
          } else if !IsAlnum(c) && c != '%' { return Some(Error); }
        case HostnameStart =>
          if !IsNameChar(c) { return Some(Error); }
          state, prev := Hostname, i;
        case Hostname =>
          if c == ':' {
            uri.hostname := View(prev, i);
            state := PortStart;
          } else if c == '/' {
            uri.hostname := View(prev, i);
            state, prev := Path, i;
          } else if !IsNameChar(c) { return Some(Error); }
        case PortStart =>
          if !IsDigit(c) { return Some(Error); }
          state, prev := Port, i;
        case Port =>
          if c == '/' {
            done := EndOfPort(uri, buf, i);
          } else if !IsDigit(c) { return Some(Error); }
        case _ =>
          return Some(Error);
      }
    }

    method EndOfPort(uri: Uri, buf: string, i: nat) returns (done: Option<Outcome>)
      requires i <= |buf|
      modifies this, uri
      ensures Reached(EndPort(old(ScanOf(uri)), buf, i), uri, done)
    {
      uri.portText := View(prev, i);
      if !AllDigits(Text(buf, uri.portText)) { return Some(Error); }
      if prev > i || Atoi(buf, prev) == None { return Some(Fault); }
      uri.port := Atoi(buf, prev).value % TWO_16;
      state, prev := Path, i;
      done := None;
    }

    /** Path, query text and fragment. */
    method Rest(uri: Uri, buf: string, i: nat) returns (done: Option<Outcome>)
      requires i < |buf| && Inside(ScanOf(uri), buf, i)
      requires state in {Path, HashStart, QueryStart, QueryText}
      modifies this, uri
      ensures Reached(M.Step(old(ScanOf(uri)), buf, i), uri, done)
    {
      hide M.ParseQueries;
      var c := buf[i];
      done := None;
      match state {
        case Path =>
          if c == '#' || c == '?' {
            uri.path := View(prev, i);
            state := if c == '#' then HashStart else QueryStart;
          }
        case HashStart =>
          uri.fragment := View(i, |buf|);
          var r := ParseQueries(uri, buf);
          done := Some(r);
        case QueryStart =>
          state, prev := QueryText, i;
        case QueryText =>
          if c == '#' {
            uri.queryText := View(prev, i);
            state := HashStart;
          }
      }
    }

    ghost predicate QueryReached(r: QueryResult, uri: Uri, name: View, failed: bool)
      reads this, uri
    {
      match r
      case QueryGo(q) => !failed && q == QueryScan(state, prev, name, uri.Value())
      case QueryStop(st, fields) => failed && state == st && uri.Value() == fields
    }

    /** One character of the query text. */
    method QueryChar(uri: Uri, buf: string, i: nat, name: View) returns (name': View, failed: bool)
      requires i < |buf|
      modifies this, uri
      ensures QueryReached(QueryStep(old(QueryScan(state, prev, name, uri.Value())), buf, i), uri, name', failed)
    {
      var c := buf[i];
      name', failed := name, false;
      if state == QueryName {
        if c == '=' {
          name' := View(prev, i);
          state := QueryValueStart;
        } else {
          failed := !IsNameChar(c);
        }
      } else if state == QueryValue {
        if c == '&' {
          uri.queries := uri.queries + [Query(name, View(prev, i))];
          state := NewQueryStart;
        } else {
          failed := !IsNameChar(c);
        }
      } else if state == QueryValueStart || state == NewQueryStart {
        failed := !IsNameChar(c);
        if !failed {
          state, prev := if state == QueryValueStart then QueryValue else QueryName, i;
        }
      } else {
        failed := true;
      }
    }

    /** parse_queries: the loop over the query text. */
    method ParseQueries(uri: Uri, buf: string) returns (r: Outcome)
      requires uri.queryText.lo <= uri.queryText.hi <= |buf|
      modifies this, uri
      ensures Ends(M.ParseQueries(old(state), old(uri.Value()), buf), uri, r)
    {
      var v := uri.queryText;
      if Empty(v) { return Completed; }
      if !IsNameChar(buf[v.lo]) { return Error; }
      ghost var expected := M.ParseQueries(state, uri.Value(), buf);
      state, prev := QueryName, v.lo;
      var name := NO_VIEW;
      var i := v.lo;
      while i < v.hi
        invariant v.lo <= i <= v.hi
        invariant QueryRun(QueryScan(state, prev, name, uri.Value()), buf, i, v.hi) == expected
      {
        hide QueryStep;
        var failed;
        name, failed := QueryChar(uri, buf, i, name);
        if failed { return Error; }
        i := i + 1;
      }
      if state != QueryValue { return Error; }
      uri.queries := uri.queries + [Query(name, View(prev, v.hi))];
      return Completed;
    }

    /** parse: the loop over the buffer, and what is left to do at its end. */
    method Parse(uri: Uri, buf: string) returns (r: Outcome)
      requires QueryWithin(uri.Value(), buf)
      modifies this, uri
      ensures Ends(M.Parse(old(uri.Value()), buf), uri, r)
    {
      state, prev := SchemeStart, 0;
      ghost var expected := M.Parse(uri.Value(), buf);
      var i := 0;
      while i < |buf|
        invariant Inside(ScanOf(uri), buf, i)
        invariant Run(ScanOf(uri), buf, i) == expected
      {
        hide M.Step;
        StepInside(ScanOf(uri), buf, i);
        var done: Option<Outcome>;
        if state in {Path, HashStart, QueryStart, QueryText} {
          done := Rest(uri, buf, i);
        } else {
          done := Authority(uri, buf, i);
        }
        if done != None {
          return done.value;
        }
        i := i + 1;
      }
      hide M.Step, M.ParseQueries;
      if Empty(uri.path) {
        uri.path := View(prev, |buf|);
        return Completed;
      } else if Empty(uri.queryText) {
        uri.queryText := View(prev, |buf|);
        r := ParseQueries(uri, buf);
      } else {
        return Incompleted;
      }
    }
  }
}
