/** The request parser in the source's form: one loop that updates the parser's state and the request. */
module RequestParser {
  import opened Options
  import opened HttpText
  import opened HttpHeaders
  import M = RequestMachine
  import opened RequestMachine

  class Request {
    var verb: View
    var uri: View
    var version: View
    var headers: seq<Header>
    var content: View
    var contentSize: nat
    var isMultipart: bool
    var boundary: View
    var parts: seq<Part>

    ghost function Value(): Fields
      reads this
    {
      Fields(verb, uri, version, headers, content, contentSize, isMultipart, boundary, parts)
    }

    constructor ()
      ensures Value() == NO_FIELDS
    {
      verb, uri, version, content, boundary := NO_VIEW, NO_VIEW, NO_VIEW, NO_VIEW, NO_VIEW;
      headers, parts, contentSize, isMultipart := [], [], 0, false;
    }
  }

  class Parser {
    var state: State
    var prev: nat
    var remaining: nat

    constructor ()
    {
      state, prev, remaining := MethodUnstart, 0, 0;
    }

    ghost function ScanOf(req: Request): Scan
      reads this, req
    {
      Scan(state, prev, remaining, req.Value())
    }

    /** The parser and the request are where r says: None to go on, or the result of the whole call. */
    ghost predicate Reached(r: Result, req: Request, done: Option<Outcome>)
      reads this, req
    {
      match r
      case Go(next) => done == None && ScanOf(req) == next
      case Stop(outcome, st, fields) => done == Some(outcome) && state == st && req.Value() == fields
    }

    /** The request line: method, URI and version. */
    method RequestLine(req: Request, buf: string, i: nat) returns (done: Option<Outcome>)
      requires i < |buf|
      requires state in {MethodUnstart, MethodStart, MethodEnd, UriStart, UriEnd, HttpStart, HttpEnd, VersionStart,
                         VersionEnd_r, VersionEnd_rn, VersionEnd_rnr, VersionEnd_rnrn}
      modifies this, req
      ensures Reached(M.Step(old(ScanOf(req)), buf, i), req, done)
    {
      var c := buf[i];
      done := None;
      match state {
        case MethodUnstart =>
          if !IsAlpha(c) { return Some(Error); }
          state := MethodStart;
        case MethodStart =>
          if c == ' ' {
            req.verb := View(prev, i);
            state := MethodEnd;
          } else if !IsAlpha(c) { return Some(Error); }
        case MethodEnd =>
          if Control(c) { return Some(Error); }
          state := UriStart;
          prev := i;
        case UriStart =>
          if c == ' ' {
            req.uri := View(prev, i);
            state := UriEnd;
          } else if Control(c) { return Some(Error); }
        case UriEnd =>
          if c != 'H' { return Some(Error); }
          state := HttpStart;
          prev := i;
        case HttpStart =>
          if c == '/' {
            if Text(buf, View(prev, i)) != "HTTP" { return Some(Error); }
            state := HttpEnd;
          } else if !IsAlpha(c) { return Some(Error); }
        case HttpEnd =>
          if !IsDigit(c) { return Some(Error); }
          state := VersionStart;
          prev := i;
        case VersionStart =>
          if c == '\r' {
            req.version := View(prev, i);
            state := VersionEnd_r;
          } else if !IsDigit(c) && c != '.' { return Some(Error); }
        case VersionEnd_r =>
          if c != '\n' { return Some(Error); }
          state := VersionEnd_rn;
        case VersionEnd_rn =>
          if c == '\r' {
            state := VersionEnd_rnr;
          } else if !Control(c) {
            state := HeaderStart;
            prev := i;
          } else { return Some(Error); }
        case VersionEnd_rnr =>
          if c != '\n' { return Some(Error); }
          state := VersionEnd_rnrn;
          return Some(Completed);
        case VersionEnd_rnrn =>
          return Some(Error);
      }
    }

    /** The headers, up to the blank line that ends them. */
    method Headers(req: Request, buf: string, i: nat) returns (done: Option<Outcome>)
      requires i < |buf|
      requires state in {HeaderStart, HeaderNameEnd, HeaderNameValueSpace, HeaderValueStart, Header_r, Header_rn,
                         Header_rnr}
      modifies this, req
      ensures Reached(M.Step(old(ScanOf(req)), buf, i), req, done)
    {
      var c := buf[i];
      done := None;
      match state {
        case HeaderStart =>
          if c == ':' {
            req.headers := req.headers + [Header(View(prev, i), NO_VIEW)];
            state := HeaderNameEnd;
          } else if Control(c) { return Some(Error); }
        case HeaderNameEnd =>
          if c == ' ' {
            state := HeaderNameValueSpace;
          } else if Control(c) {
            return Some(Error);
          } else {
            state := HeaderValueStart;
            prev := i;
          }
        case HeaderNameValueSpace =>
          if Control(c) { return Some(Error); }
          state := HeaderValueStart;
          prev := i;
        case HeaderValueStart =>
          if c == '\r' {
            done := EndOfValue(req, buf, i);
          } else if Control(c) { return Some(Error); }
        case Header_r =>
          if c != '\n' { return Some(Error); }
          state := Header_rn;
        case Header_rn =>
          if c == '\r' {
            state := Header_rnr;
          } else if !Control(c) {
            prev := i;
            state := HeaderStart;
          } else { return Some(Error); }
        case Header_rnr =>
          if c != '\n' { return Some(Error); }
          state := Header_rnrn;
          if i + 1 == |buf| { return Some(Completed); }
      }
    }

    method EndOfValue(req: Request, buf: string, i: nat) returns (done: Option<Outcome>)
      requires i < |buf|
      modifies this, req
      ensures Reached(EndValue(old(ScanOf(req)), buf, i), req, done)
    {
      hide Find, Atoi, Text;
      if req.headers == [] || prev > i { return Some(Fault); }
      var last := |req.headers| - 1;
      var name, value := req.headers[last].name, View(prev, i);
      req.headers := req.headers[..last] + [Header(name, value)];
      state := Header_r;
      if Text(buf, name) == "Content-Type" && Find(Text(buf, value), MULTIPART).Some? {
        req.isMultipart := true;
        var at := Find(Text(buf, value), BOUNDARY);
        if at == None { return Some(Fault); }
        req.boundary := View(prev + at.value + |BOUNDARY|, i);
      } else if Text(buf, name) == "Content-Length" {
        var n := Atoi(buf, prev);
        if n == None { return Some(Fault); }
        req.contentSize := if n.value >= 0 then n.value else TWO_64 + n.value;
        remaining := req.contentSize;
      }
      done := None;
    }

    /** The beginning of the body, and content counted by Content-Length. */
    method Content(req: Request, buf: string, i: nat) returns (done: Option<Outcome>)
      requires i < |buf|
      requires state in {Header_rnrn, PostDataStart}
      modifies this, req
      ensures Reached(M.Step(old(ScanOf(req)), buf, i), req, done)
    {
      var c := buf[i];
      done := None;
      match state {
        case Header_rnrn =>
          if Text(buf, req.verb) == "POST" || Text(buf, req.verb) == "PUT" {
            if !req.isMultipart {
              prev := i;
              remaining := Minus1(remaining);
              state := PostDataStart;
              if remaining == 0 {
                req.content := View(i, i + 1);
                return Some(Completed);
              }
            } else if c == '-' {
              prev := i;
              state := MultipartDataStart;
            } else { return Some(Error); }
          } else { return Some(Completed); }
        case PostDataStart =>
          remaining := Minus1(remaining);
          if remaining == 0 {
            req.content := View(prev, i + 1);
            return Some(Completed);
          }
      }
    }

    /** The boundaries of a multipart body. */
    method Boundary(req: Request, buf: string, i: nat) returns (done: Option<Outcome>)
      requires i < |buf|
      requires state in {MultipartDataStart, MultipartDataStart_, BoundaryMatchStart, LastBoundaryMatch,
                         BoundaryMatch_r, BoundaryMatch_rn}
      modifies this, req
      ensures Reached(M.Step(old(ScanOf(req)), buf, i), req, done)
    {
      hide EndBody, EndValue, BeginBody, Text;
      var c := buf[i];
      done := None;
      match state {
        case MultipartDataStart =>
          if c != '-' { return Some(Error); }
          state := MultipartDataStart_;
        case MultipartDataStart_ =>
          if Control(c) { return Some(Error); }
          prev := i;
          state := BoundaryMatchStart;
        case BoundaryMatchStart =>
          if c == '\r' {
            if Text(buf, View(prev, i)) != Text(buf, req.boundary) { return Some(Error); }
            state := BoundaryMatch_r;
          } else if Control(c) { return Some(Error); }
        case LastBoundaryMatch =>
          if c != '\n' { return Some(Error); }
          return Some(Completed);
        case BoundaryMatch_r =>
          if c != '\n' { return Some(Error); }
          state := BoundaryMatch_rn;
        case BoundaryMatch_rn =>
          if Control(c) { return Some(Error); }
          prev := i;
          state := PartInfoStart;
      }
    }

    /** A part: its info lines and its data. */
    method PartOf(req: Request, buf: string, i: nat) returns (done: Option<Outcome>)
      requires i < |buf|
      requires state in {PartInfoStart, PartInfo_r, PartInfo_rn, PartInfo_rnr, PartInfo_rnrn, PartBodyStart}
      modifies this, req
      ensures Reached(M.Step(old(ScanOf(req)), buf, i), req, done)
    {
      hide EndBody, EndValue, BeginBody, Text;
      var c := buf[i];
      done := None;
      match state {
        case PartInfoStart =>
          if c == '\r' {
            state := PartInfo_r;
          } else if Control(c) { return Some(Error); }
        case PartInfo_r =>
          if c != '\n' { return Some(Error); }
          state := PartInfo_rn;
        case PartInfo_rn =>
          if c == '\r' {
            if i < prev + 2 { return Some(Fault); }
            req.parts := req.parts + [Part(View(prev, i - 2), NO_VIEW)];
            state := PartInfo_rnr;
          } else if !Control(c) {
            state := PartInfoStart;
          } else { return Some(Error); }
        case PartInfo_rnr =>
          if c != '\n' { return Some(Error); }
          state := PartInfo_rnrn;
        case PartInfo_rnrn =>
          state := PartBodyStart;
          prev := i;
        case PartBodyStart =>
          if c == '\r' { done := EndOfBody(req, buf, i); }
      }
    }

    method EndOfBody(req: Request, buf: string, i: nat) returns (done: Option<Outcome>)
      requires i < |buf|
      modifies this, req
      ensures Reached(EndBody(old(ScanOf(req)), buf, i), req, done)
    {
      var size := if req.boundary.lo <= req.boundary.hi then req.boundary.hi - req.boundary.lo else 0;
      var boundary := Text(buf, req.boundary);
      if i < size + 2 || req.parts == [] { return Some(Fault); }
      var start, last := i - size, |req.parts| - 1;
      if buf[start..i] == boundary {
        if start < prev + 4 { return Some(Fault); }
        req.parts := req.parts[..last] + [Part(req.parts[last].info, View(prev, start - 4))];
        state := BoundaryMatch_r;
      } else if buf[i - 1] == '-' && buf[i - 2] == '-' && buf[start - 2..i - 2] == boundary {
        if start < prev + 6 { return Some(Fault); }
        req.parts := req.parts[..last] + [Part(req.parts[last].info, View(prev, start - 6))];
        state := LastBoundaryMatch;
      }
      done := None;
    }

    /**
      parse, on a request in any state: the loop over the buffer, with the state, prev_it and
      remaining_content_size kept in the parser.
     */
    method Parse(req: Request, buf: string) returns (r: Outcome)
      modifies this, req
      ensures var p := M.Parse(old(req.Value()), buf); r == p.outcome && state == p.state && req.Value() == p.req
    {
      state, prev, remaining := MethodUnstart, 0, 0;
      ghost var expected := M.Parse(req.Value(), buf);
      var i := 0;
      while i < |buf|
        invariant i <= |buf|
        invariant Run(ScanOf(req), buf, i) == expected
      {
        hide M.Step;
        ghost var s := ScanOf(req);
        var done: Option<Outcome>;
        if state in {MethodUnstart, MethodStart, MethodEnd, UriStart, UriEnd, HttpStart, HttpEnd, VersionStart,
                     VersionEnd_r, VersionEnd_rn, VersionEnd_rnr, VersionEnd_rnrn} {
          done := RequestLine(req, buf, i);
        } else if state in {HeaderStart, HeaderNameEnd, HeaderNameValueSpace, HeaderValueStart, Header_r, Header_rn,
                            Header_rnr} {
          done := Headers(req, buf, i);
        } else if state in {Header_rnrn, PostDataStart} {
          done := Content(req, buf, i);
        } else if state in {MultipartDataStart, MultipartDataStart_, BoundaryMatchStart, LastBoundaryMatch,
                            BoundaryMatch_r, BoundaryMatch_rn} {
          done := Boundary(req, buf, i);
        } else {
          done := PartOf(req, buf, i);
        }
        if done != None {
          return done.value;
        }
        i := i + 1;
      }
      return InCompleted;
    }
  }
}
