/** The response parser in the source's form: one loop that updates the parser's state and the response,
    and moves its index over the data of a chunk. */
module ResponseParser {
  import opened Options
  import opened HttpText
  import opened HttpHeaders
  import M = ResponseMachine
  import opened ResponseMachine

  class Response {
    var code: int
    var codeText: View
    var reason: View
    var version: View
    var headers: seq<Header>
    var content: View
    var isChunked: bool
    var chunks: seq<Chunk>

    ghost function Value(): Fields
      reads this
    {
      Fields(code, codeText, reason, version, headers, content, isChunked, chunks)
    }

    constructor ()
      ensures Value() == NO_FIELDS
    {
      codeText, reason, version, content := NO_VIEW, NO_VIEW, NO_VIEW, NO_VIEW;
      code, headers, isChunked, chunks := 0, [], false, [];
    }
  }

  class Parser {
    var state: State
    var prev: nat
    var name: View
    var length: int
    var size: nat

    constructor ()
    {
      state, prev, name, length, size := StatusStart, 0, NO_VIEW, 0, 0;
    }

    ghost function ScanOf(res: Response): Scan
      reads this, res
    {
      Scan(state, prev, name, length, size, res.Value())
    }

    /** The parser, the response and the index are where r says: None to go on, or the result of the call. */
    ghost predicate Reached(r: Result, res: Response, done: Option<Outcome>, next: nat)
      reads this, res
    {
      match r
      case Go(t, k) => done == None && ScanOf(res) == t && next == k
      case Stop(outcome, st, fields) => done == Some(outcome) && state == st && res.Value() == fields
    }

    /** The status line. */
    method StatusLine(res: Response, buf: string, i: nat) returns (done: Option<Outcome>)
      requires i < |buf|
      requires state in {StatusStart, StatusStart_h, StatusStart_ht, StatusStart_htt, StatusStart_http, HttpEnd,
                         VersionStart, VersionEnd, StatusCodeStart, StatusCodeEnd, StatusMsgStart, StatusMsg,
                         StatusMsgEnd, StatusMsgEnd_rn, StatusMsgEnd_rnr}
      modifies this, res
      ensures Reached(M.Step(old(ScanOf(res)), buf, i), res, done, i + 1)
    {
      hide Atoi;
      var c := buf[i];
      done := None;
      match state {
        case StatusStart =>
          if c != 'H' { return Some(Error); }
          state := StatusStart_h;
        case StatusStart_h =>
          if c != 'T' { return Some(Error); }
          state := StatusStart_ht;
        case StatusStart_ht =>
          if c != 'T' { return Some(Error); }
          state := StatusStart_htt;
        case StatusStart_htt =>
          if c != 'P' { return Some(Error); }
          state := StatusStart_http;
        case StatusStart_http =>
          if c != '/' { return Some(Error); }
          state := HttpEnd;
        case HttpEnd =>
          if !IsDigit(c) { return Some(Error); }
          state, prev := VersionStart, i;
        case VersionStart =>
          if c == ' ' {
            res.version := View(prev, i);
            state := VersionEnd;
          } else if !IsDigit(c) && c != '.' { return Some(Error); }
        case VersionEnd =>
          if !IsDigit(c) { return Some(Error); }
          state, prev := StatusCodeStart, i;
        case StatusCodeStart =>
          if c == ' ' {
            res.codeText := View(prev, i);
            if !AllDigits(Text(buf, res.codeText)) { return Some(Error); }
            if prev > i || Atoi(buf, prev) == None { return Some(Fault); }
            res.code := Atoi(buf, prev).value;
            state := StatusCodeEnd;
          } else if !IsDigit(c) { return Some(Error); }
        case StatusCodeEnd =>
          if Control(c) { return Some(Error); }
          state, prev := StatusMsgStart, i;
        case StatusMsgStart =>
          if Control(c) { return Some(Error); }
          state := StatusMsg;
        case StatusMsg =>
          if c == '\r' {
            res.reason := View(prev, i);
            state := StatusMsgEnd;
          } else if Control(c) { return Some(Error); }
        case StatusMsgEnd =>
          if c != '\n' { return Some(Error); }
          state := StatusMsgEnd_rn;
        case StatusMsgEnd_rn =>
          if c == '\r' {
            state := StatusMsgEnd_rnr;
          } else if IsAlnum(c) {
            state, prev := HeaderName, i;
          }
        case StatusMsgEnd_rnr =>
          return Some(if c == '\n' then Completed else Error);
      }
    }

    /** The headers, up to the blank line that ends them. */
    method Headers(res: Response, buf: string, i: nat) returns (done: Option<Outcome>)
      requires i < |buf|
      requires state in {HeaderName, HeaderNameEnd, HeaderNameValueSpace, HeaderValueStart, Header_r, Header_rn,
                         Header_rnr}
      modifies this, res
      ensures Reached(M.Step(old(ScanOf(res)), buf, i), res, done, i + 1)
    {
      hide Atoi;
      var c := buf[i];
      done := None;
      match state {
        case HeaderName =>
          if c == ':' {
            name := View(prev, i);
            state := HeaderNameEnd;
          } else if Control(c) { return Some(Error); }
        case HeaderNameEnd =>
          if c == ' ' {
            state := HeaderNameValueSpace;
          } else if !Control(c) {
            state, prev := HeaderValueStart, i;
          } else { return Some(Error); }
        case HeaderNameValueSpace =>
          if Control(c) { return Some(Error); }
          state, prev := HeaderValueStart, i;
        case HeaderValueStart =>
          if Control(c) {
            if c != '\r' { return Some(Error); }
            done := EndOfValue(res, buf, i);
          }
        case Header_r =>
          if c != '\n' { return Some(Error); }
          state := Header_rn;
        case Header_rn =>
          if c == '\r' {
            state := Header_rnr;
          } else if !Control(c) {
            state, prev := HeaderName, i;
          } else { return Some(Error); }
        case Header_rnr =>
          if c != '\n' { return Some(Error); }
          state := if res.isChunked then NewChunkStart else DataStart;
      }
    }

    method EndOfValue(res: Response, buf: string, i: nat) returns (done: Option<Outcome>)
      requires i <= |buf|
      modifies this, res
      ensures Reached(EndValue(old(ScanOf(res)), buf, i), res, done, i + 1)
    {
      hide Atoi;
      var value := View(prev, i);
      res.headers := res.headers + [Header(name, value)];
      if Text(buf, name) == "Transfer-Encoding" && Text(buf, value) == "chunked" {
        res.isChunked := true;
      } else if Text(buf, name) == "Content-Length" {
        if prev > i || Atoi(buf, prev) == None { return Some(Fault); }
        length := Atoi(buf, prev).value;
      }
      state := Header_r;
      done := None;
    }

    method EndOfSize(res: Response, buf: string, i: nat) returns (done: Option<Outcome>)
      requires i <= |buf|
      modifies this
      ensures Reached(EndSize(old(ScanOf(res)), buf, i), res, done, i + 1)
    {
      hide Hex, Text;
      var text := Text(buf, View(prev, i));
      if !AllHex(text) { return Some(Fault); }
      if Hex(text) > INT_MAX { return Some(Thrown); }
      size := Hex(text);
      state := if size != 0 then ChunkDataSize_r else ZeroChunkSize_r;
      done := None;
    }

    /** A chunk's data, if something follows it. */
    method TakeChunk(res: Response, buf: string, i: nat) returns (done: Option<Outcome>, next: nat)
      requires i < |buf| && state == ChunkDataSize_rn
      modifies this, res
      ensures Reached(M.Step(old(ScanOf(res)), buf, i), res, done, next)
    {
      if |buf| - i <= size { return Some(Error), i; }
      if size == 0 { return Some(Fault), i; }
      res.chunks := res.chunks + [Chunk(size, View(i, i + size))];
      state := ChunkDataEnd;
      done, next := None, i + size;
    }

    /** The body: content counted by Content-Length, or chunks. */
    method Body(res: Response, buf: string, i: nat) returns (done: Option<Outcome>, next: nat)
      requires i < |buf|
      requires state in {DataStart, NewChunkStart, ChunkDataSize, ChunkDataSize_r, ChunkDataSize_rn, ChunkDataEnd,
                         ChunkData_r, ZeroChunkSize_r}
      modifies this, res
      ensures Reached(M.Step(old(ScanOf(res)), buf, i), res, done, next)
    {
      hide EndSize;
      var c := buf[i];
      done, next := None, i + 1;
      match state {
        case DataStart =>
          if length < 0 || i + length > |buf| { return Some(Fault), next; }
          res.content := View(i, i + length);
          return Some(Completed), next;
        case NewChunkStart =>
          if !IsHex(c) { return Some(Error), next; }
          state, prev := ChunkDataSize, i;
        case ChunkDataSize =>
          if !IsHex(c) {
            if c != '\r' { return Some(Error), next; }
            done := EndOfSize(res, buf, i);
          }
        case ZeroChunkSize_r =>
          return Some(if c == '\n' then Completed else Error), next;
        case ChunkDataSize_r =>
          if c != '\n' { return Some(Error), next; }
          state := ChunkDataSize_rn;
        case ChunkDataSize_rn =>
          done, next := TakeChunk(res, buf, i);
        case ChunkDataEnd =>
          if c != '\r' { return Some(Error), next; }
          state := ChunkData_r;
        case ChunkData_r =>
          if c != '\n' { return Some(Error), next; }
          state := NewChunkStart;
      }
    }

    /** parse: the loop over the buffer. */
    method Parse(res: Response, buf: string) returns (r: Outcome)
      modifies this, res
      ensures var p := M.Parse(old(res.Value()), buf); r == p.outcome && state == p.state && res.Value() == p.res
    {
      state, prev, name, length, size := StatusStart, 0, NO_VIEW, 0, 0;
      ghost var expected := M.Parse(res.Value(), buf);
      var i := 0;
      while i < |buf|
        invariant i <= |buf|
        invariant Run(ScanOf(res), buf, i) == expected
      {
        hide M.Step;
        StepForward(ScanOf(res), buf, i);
        var done: Option<Outcome>;
        var next := i + 1;
        if state in {StatusStart, StatusStart_h, StatusStart_ht, StatusStart_htt, StatusStart_http, HttpEnd,
                     VersionStart, VersionEnd, StatusCodeStart, StatusCodeEnd, StatusMsgStart, StatusMsg, StatusMsgEnd,
                     StatusMsgEnd_rn, StatusMsgEnd_rnr} {
          done := StatusLine(res, buf, i);
        } else if state in {HeaderName, HeaderNameEnd, HeaderNameValueSpace, HeaderValueStart, Header_r, Header_rn,
                            Header_rnr} {
          done := Headers(res, buf, i);
        } else {
          done, next := Body(res, buf, i);
        }
        if done != None {
          return done.value;
        }
        i := next;
      }
      return InCompleted;
    }
  }
}
