/** The response parser as a function: what one iteration of its loop does. */
module ResponseMachine {
  import opened Options
  import opened HttpText
  import opened HttpHeaders

  datatype Outcome =
    | InCompleted
    | Completed
    | Error
    | Thrown   // stoi throws out_of_range
    | Fault    // a view beyond the buffer, or a number outside int: the source is left without a meaning

  datatype State =
    | StatusStart
    | StatusStart_h
    | StatusStart_ht
    | StatusStart_htt
    | StatusStart_http
    | HttpEnd
    | VersionStart
    | VersionEnd
    | StatusCodeStart
    | StatusCodeEnd
    | StatusMsgStart
    | StatusMsg
    | StatusMsgEnd
    | StatusMsgEnd_rn
    | StatusMsgEnd_rnr
    | HeaderName
    | HeaderNameEnd
    | HeaderNameValueSpace
    | HeaderValueStart
    | Header_r
    | Header_rn
    | Header_rnr
    | DataStart
    | NewChunkStart
    | ChunkDataSize
    | ChunkDataSize_r
    | ChunkDataSize_rn
    | ChunkDataEnd
    | ChunkData_r
    | ZeroChunkSize_r

  datatype Chunk = Chunk(size: nat, data: View)

  /** The Response a parse fills in. */
  datatype Fields = Fields(
    code: int,
    codeText: View,
    reason: View,
    version: View,
    headers: seq<Header>,
    content: View,
    isChunked: bool,
    chunks: seq<Chunk>)

  const NO_FIELDS := Fields(0, NO_VIEW, NO_VIEW, NO_VIEW, [], NO_VIEW, false, [])

  /** The locals of the loop: state, prev_it, header_name, content_length, new_chunk_size. */
  datatype Scan = Scan(state: State, prev: nat, name: View, length: int, size: nat, res: Fields)

  /** Go on at an index, or return. */
  datatype Result = Go(scan: Scan, next: nat) | Stop(outcome: Outcome, state: State, res: Fields)

  /** is_http_control: a char that is negative counts as a control character here. */
  predicate Control(c: char)
  {
    c as int <= 31 || c as int >= 127
  }

  predicate IsHex(c: char)
  {
    '0' <= c <= '9' || 'a' <= c <= 'f' || 'A' <= c <= 'F'
  }

  predicate AllHex(s: string)
  {
    forall k :: 0 <= k < |s| ==> IsHex(s[k])
  }

  function HexDigit(c: char): (r: nat)
    requires IsHex(c)
    ensures r < 16
  {
    if c <= '9' then (c - '0') as nat else if c <= 'F' then (c - 'A') as nat + 10 else (c - 'a') as nat + 10
  }

  /** The value of a string of hexadecimal digits. */
  function Hex(s: string): nat
    requires AllHex(s)
  {
    if s == [] then 0 else 16 * Hex(s[..|s| - 1]) + HexDigit(s[|s| - 1])
  }

  function Fail(s: Scan): Result
  {
    Stop(Error, s.state, s.res)
  }

  /** The end of the status code at i. */
  function EndCode(s: Scan, buf: string, i: nat): Result
    requires i <= |buf|
  {
    var text := View(s.prev, i);
    var res := s.res.(codeText := text);
    if !AllDigits(Text(buf, text)) then Stop(Error, s.state, res)
    else if s.prev > i || Atoi(buf, s.prev) == None then Stop(Fault, s.state, res)
    else Go(s.(state := StatusCodeEnd, res := res.(code := Atoi(buf, s.prev).value)), i + 1)
  }

  /** The end of a header value at i. */
  function EndValue(s: Scan, buf: string, i: nat): Result
    requires i <= |buf|
  {
    var value := View(s.prev, i);
    var res := s.res.(headers := s.res.headers + [Header(s.name, value)]);
    if Text(buf, s.name) == "Transfer-Encoding" && Text(buf, value) == "chunked" then
      Go(s.(state := Header_r, res := res.(isChunked := true)), i + 1)
    else if Text(buf, s.name) == "Content-Length" then
      if s.prev > i || Atoi(buf, s.prev) == None then Stop(Fault, s.state, res)
      else Go(s.(state := Header_r, length := Atoi(buf, s.prev).value, res := res), i + 1)
    else
      Go(s.(state := Header_r, res := res), i + 1)
  }

  /** The '\r' at i that ends a chunk size. */
  function EndSize(s: Scan, buf: string, i: nat): Result
    requires i <= |buf|
  {
    var text := Text(buf, View(s.prev, i));
    if !AllHex(text) then Stop(Fault, s.state, s.res)
    else if Hex(text) > INT_MAX then Stop(Thrown, s.state, s.res)
    else if Hex(text) == 0 then Go(s.(state := ZeroChunkSize_r, size := 0), i + 1)
    else Go(s.(state := ChunkDataSize_r, size := Hex(text)), i + 1)
  }

  /** One iteration of the loop, at index i; taking a chunk moves the index over its data. */
  function Step(s: Scan, buf: string, i: nat): Result
    requires i < |buf|
  {
    var c := buf[i];
    match s.state
    case StatusStart => if c == 'H' then Go(s.(state := StatusStart_h), i + 1) else Fail(s)
    case StatusStart_h => if c == 'T' then Go(s.(state := StatusStart_ht), i + 1) else Fail(s)
    case StatusStart_ht => if c == 'T' then Go(s.(state := StatusStart_htt), i + 1) else Fail(s)
    case StatusStart_htt => if c == 'P' then Go(s.(state := StatusStart_http), i + 1) else Fail(s)
    case StatusStart_http => if c == '/' then Go(s.(state := HttpEnd), i + 1) else Fail(s)
    case HttpEnd => if IsDigit(c) then Go(s.(state := VersionStart, prev := i), i + 1) else Fail(s)
    case VersionStart =>
      if IsDigit(c) || c == '.' then Go(s, i + 1)
      else if c == ' ' then Go(s.(state := VersionEnd, res := s.res.(version := View(s.prev, i))), i + 1)
      else Fail(s)
    case VersionEnd => if IsDigit(c) then Go(s.(state := StatusCodeStart, prev := i), i + 1) else Fail(s)
    case StatusCodeStart => if IsDigit(c) then Go(s, i + 1) else if c == ' ' then EndCode(s, buf, i) else Fail(s)
    case StatusCodeEnd => if Control(c) then Fail(s) else Go(s.(state := StatusMsgStart, prev := i), i + 1)
    case StatusMsgStart => if Control(c) then Fail(s) else Go(s.(state := StatusMsg), i + 1)
    case StatusMsg =>
      if c == '\r' then Go(s.(state := StatusMsgEnd, res := s.res.(reason := View(s.prev, i))), i + 1)
      else if Control(c) then Fail(s) else Go(s, i + 1)
    case StatusMsgEnd => if c == '\n' then Go(s.(state := StatusMsgEnd_rn), i + 1) else Fail(s)
    case StatusMsgEnd_rn =>
      if c == '\r' then Go(s.(state := StatusMsgEnd_rnr), i + 1)
      else if IsAlnum(c) then Go(s.(state := HeaderName, prev := i), i + 1)
      else Go(s, i + 1)
    case StatusMsgEnd_rnr => if c == '\n' then Stop(Completed, s.state, s.res) else Fail(s)

    case HeaderName =>
      if c == ':' then Go(s.(state := HeaderNameEnd, name := View(s.prev, i)), i + 1)
      else if Control(c) then Fail(s) else Go(s, i + 1)
    case HeaderNameEnd =>
      if c == ' ' then Go(s.(state := HeaderNameValueSpace), i + 1)
      else if Control(c) then Fail(s) else Go(s.(state := HeaderValueStart, prev := i), i + 1)
    case HeaderNameValueSpace => if Control(c) then Fail(s) else Go(s.(state := HeaderValueStart, prev := i), i + 1)
    case HeaderValueStart => if !Control(c) then Go(s, i + 1) else if c == '\r' then EndValue(s, buf, i) else Fail(s)
    case Header_r => if c == '\n' then Go(s.(state := Header_rn), i + 1) else Fail(s)
    case Header_rn =>
      if c == '\r' then Go(s.(state := Header_rnr), i + 1)
      else if Control(c) then Fail(s) else Go(s.(state := HeaderName, prev := i), i + 1)
    case Header_rnr =>
      if c == '\n' then Go(s.(state := if s.res.isChunked then NewChunkStart else DataStart), i + 1) else Fail(s)

    case DataStart =>
      if s.length < 0 || i + s.length > |buf| then Stop(Fault, s.state, s.res)
      else Stop(Completed, s.state, s.res.(content := View(i, i + s.length)))

    case NewChunkStart => if IsHex(c) then Go(s.(state := ChunkDataSize, prev := i), i + 1) else Fail(s)
    case ChunkDataSize => if IsHex(c) then Go(s, i + 1) else if c == '\r' then EndSize(s, buf, i) else Fail(s)
    case ZeroChunkSize_r => if c == '\n' then Stop(Completed, s.state, s.res) else Fail(s)
    case ChunkDataSize_r => if c == '\n' then Go(s.(state := ChunkDataSize_rn), i + 1) else Fail(s)
    case ChunkDataSize_rn =>
      if |buf| - i <= s.size then Fail(s)
      else if s.size == 0 then Stop(Fault, s.state, s.res)   // never after a chunk size: EndSize leaves it positive
      else Go(s.(state := ChunkDataEnd, res := s.res.(chunks := s.res.chunks + [Chunk(s.size, View(i, i + s.size))])),
              i + s.size)
    case ChunkDataEnd => if c == '\r' then Go(s.(state := ChunkData_r), i + 1) else Fail(s)
    case ChunkData_r => if c == '\n' then Go(s.(state := NewChunkStart), i + 1) else Fail(s)
  }

  /** What a parse leaves behind: its result, the state it ended in, the response, and how far it read. */
  datatype Parsed = Parsed(outcome: Outcome, state: State, res: Fields, used: nat)

  lemma StepForward(s: Scan, buf: string, i: nat)
    requires i < |buf|
    ensures Step(s, buf, i).Go? ==> i < Step(s, buf, i).next <= |buf|
  {
    hide Atoi, Hex, Text;
  }

  /** The loop from index i on. */
  function Run(s: Scan, buf: string, i: nat): Parsed
    requires i <= |buf|
    decreases |buf| - i
  {
    if i == |buf| then Parsed(InCompleted, s.state, s.res, i) else
    StepForward(s, buf, i);
    match Step(s, buf, i)
    case Go(t, next) => Run(t, buf, next)
    case Stop(outcome, state, res) => Parsed(outcome, state, res, i + 1)
  }

  function Parse(res: Fields, buf: string): Parsed
  {
    Run(Scan(StatusStart, 0, NO_VIEW, 0, 0, res), buf, 0)
  }

  // ---------------------------------------------------------------- moving along the buffer

  /** The loop passes over characters that leave its locals as they are. */
  lemma {:induction false} RunOver(s: Scan, buf: string, i: nat, j: nat)
    requires i <= j <= |buf|
    requires forall k :: i <= k < j ==> Step(s, buf, k) == Go(s, k + 1)
    ensures Run(s, buf, i) == Run(s, buf, j)
    decreases j - i
  {
    hide Step;
    if i < j {
      RunOver(s, buf, i + 1, j);
    }
  }

  lemma StepsTo(s: Scan, buf: string, i: nat, t: Scan, next: nat)
    requires i < |buf| && Step(s, buf, i) == Go(t, next)
    ensures i < next <= |buf| && Run(s, buf, i) == Run(t, buf, next)
  {
    StepForward(s, buf, i);
    hide Step;
  }

  /** A loop that completes leaves each state that keeps its locals. */
  lemma {:induction false} Leaves(s: Scan, buf: string, i: nat) returns (e: nat)
    requires i <= |buf| && Run(s, buf, i).outcome == Completed
    ensures i <= e < |buf| && Step(s, buf, e) != Go(s, e + 1)
    ensures forall k :: i <= k < e ==> Step(s, buf, k) == Go(s, k + 1)
    ensures Run(s, buf, e) == Run(s, buf, i)
    decreases |buf| - i
  {
    hide Step;
    e := i;
    if Step(s, buf, i) == Go(s, i + 1) {
      e := Leaves(s, buf, i + 1);
    }
  }
}
