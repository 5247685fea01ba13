/** The request parser as a function: what one iteration of its loop does with one character. */
module RequestMachine {
  import opened HttpText
  import opened HttpHeaders

  datatype Outcome =
    | InCompleted
    | Completed
    | Error
    | Fault   // the source would read outside its buffer, or is otherwise left without a meaning

  datatype State =
    | MethodUnstart
    | MethodStart
    | MethodEnd
    | UriStart
    | UriEnd
    | HttpStart
    | HttpEnd
    | VersionStart
    | VersionEnd_r
    | VersionEnd_rn
    | VersionEnd_rnr
    | VersionEnd_rnrn
    | HeaderStart
    | HeaderNameEnd
    | HeaderNameValueSpace
    | HeaderValueStart
    | Header_r
    | Header_rn
    | Header_rnr
    | Header_rnrn
    | PostDataStart
    | MultipartDataStart
    | MultipartDataStart_
    | BoundaryMatchStart
    | BoundaryMatch_r
    | BoundaryMatch_rn
    | PartInfoStart
    | PartInfo_r
    | PartInfo_rn
    | PartInfo_rnr
    | PartInfo_rnrn
    | PartBodyStart
    | LastBoundaryMatch

  datatype Part = Part(info: View, data: View)

  /** The Request a parse fills in. */
  datatype Fields = Fields(
    verb: View,
    uri: View,
    version: View,
    headers: seq<Header>,
    content: View,
    contentSize: nat,
    isMultipart: bool,
    boundary: View,
    parts: seq<Part>)

  const NO_FIELDS := Fields(NO_VIEW, NO_VIEW, NO_VIEW, [], NO_VIEW, 0, false, NO_VIEW, [])

  const TWO_64: nat := 0x1_0000_0000_0000_0000

  /** The locals of the loop: state, prev_it, remaining_content_size, and the request so far. */
  datatype Scan = Scan(state: State, prev: nat, remaining: nat, req: Fields)

  datatype Result = Go(scan: Scan) | Stop(outcome: Outcome, state: State, req: Fields)

  /** is_http_control: negative chars are not control characters here. */
  predicate Control(c: char)
  {
    c as int <= 31 || c as int == 127
  }

  function Minus1(n: nat): nat
  {
    if n == 0 then TWO_64 - 1 else n - 1
  }

  const MULTIPART := "multipart/form-data"
  const BOUNDARY := "boundary="

  predicate IsPostOrPut(buf: string, req: Fields)
  {
    Text(buf, req.verb) == "POST" || Text(buf, req.verb) == "PUT"
  }

  function Fail(s: Scan): Result
  {
    Stop(Error, s.state, s.req)
  }

  /** The end of a header value at i: the header is recorded and two headers are looked into. */
  function EndValue(s: Scan, buf: string, i: nat): Result
    requires i <= |buf|
  {
    if s.req.headers == [] || s.prev > i then Stop(Fault, s.state, s.req) else
    var name := s.req.headers[|s.req.headers| - 1].name;
    var value := View(s.prev, i);
    var req := s.req.(headers := s.req.headers[..|s.req.headers| - 1] + [Header(name, value)]);
    var text := Text(buf, value);
    if Text(buf, name) == "Content-Type" && Find(text, MULTIPART).Some? then
      (match Find(text, BOUNDARY)
       case None => Stop(Fault, Header_r, req.(isMultipart := true))
       case Some(at) =>
         Go(s.(state := Header_r, req := req.(isMultipart := true, boundary := View(s.prev + at + |BOUNDARY|, i)))))
    else if Text(buf, name) == "Content-Length" then
      (match Atoi(buf, s.prev)
       case None => Stop(Fault, Header_r, req)
       case Some(n) =>
         var size := if n >= 0 then n else TWO_64 + n;
         Go(s.(state := Header_r, remaining := size, req := req.(contentSize := size))))
    else
      Go(s.(state := Header_r, req := req))
  }

  /** A '\r' inside a part's body at i: it may end a boundary, or the last one. */
  function EndBody(s: Scan, buf: string, i: nat): Result
    requires i < |buf|
  {
    var size := if s.req.boundary.lo <= s.req.boundary.hi then s.req.boundary.hi - s.req.boundary.lo else 0;
    var boundary := Text(buf, s.req.boundary);
    if i < size + 2 || s.req.parts == [] then Stop(Fault, s.state, s.req) else
    var start := i - size;
    var last := s.req.parts[|s.req.parts| - 1];
    var others := s.req.parts[..|s.req.parts| - 1];
    if buf[start..i] == boundary then
      if start < s.prev + 4 then Stop(Fault, s.state, s.req) else
      Go(s.(state := BoundaryMatch_r, req := s.req.(parts := others + [Part(last.info, View(s.prev, start - 4))])))
    else if buf[i - 1] == '-' && buf[i - 2] == '-' && buf[start - 2..i - 2] == boundary then
      if start < s.prev + 6 then Stop(Fault, s.state, s.req) else
      Go(s.(state := LastBoundaryMatch, req := s.req.(parts := others + [Part(last.info, View(s.prev, start - 6))])))
    else
      Go(s)
  }

  /** The first character after the blank line at i, which begins the body. */
  function BeginBody(s: Scan, buf: string, i: nat): Result
    requires i < |buf|
  {
    if !IsPostOrPut(buf, s.req) then Stop(Completed, s.state, s.req)
    else if !s.req.isMultipart then
      if Minus1(s.remaining) == 0
      then Stop(Completed, PostDataStart, s.req.(content := View(i, i + 1)))
      else Go(s.(state := PostDataStart, prev := i, remaining := Minus1(s.remaining)))
    else if buf[i] == '-' then Go(s.(state := MultipartDataStart, prev := i))
    else Fail(s)
  }

  /** One iteration of the loop, at index i. */
  function Step(s: Scan, buf: string, i: nat): Result
    requires i < |buf|
  {
    var c := buf[i];
    match s.state
    case MethodUnstart => if IsAlpha(c) then Go(s.(state := MethodStart)) else Fail(s)
    case MethodStart =>
      if c == ' ' then Go(s.(state := MethodEnd, req := s.req.(verb := View(s.prev, i))))
      else if IsAlpha(c) then Go(s) else Fail(s)
    case MethodEnd => if Control(c) then Fail(s) else Go(s.(state := UriStart, prev := i))
    case UriStart =>
      if c == ' ' then Go(s.(state := UriEnd, req := s.req.(uri := View(s.prev, i))))
      else if Control(c) then Fail(s) else Go(s)
    case UriEnd => if c == 'H' then Go(s.(state := HttpStart, prev := i)) else Fail(s)
    case HttpStart =>
      if c == '/' then if Text(buf, View(s.prev, i)) == "HTTP" then Go(s.(state := HttpEnd)) else Fail(s)
      else if IsAlpha(c) then Go(s) else Fail(s)
    case HttpEnd => if IsDigit(c) then Go(s.(state := VersionStart, prev := i)) else Fail(s)
    case VersionStart =>
      if c == '\r' then Go(s.(state := VersionEnd_r, req := s.req.(version := View(s.prev, i))))
      else if IsDigit(c) || c == '.' then Go(s) else Fail(s)
    case VersionEnd_r => if c == '\n' then Go(s.(state := VersionEnd_rn)) else Fail(s)
    case VersionEnd_rn =>
      if c == '\r' then Go(s.(state := VersionEnd_rnr))
      else if Control(c) then Fail(s) else Go(s.(state := HeaderStart, prev := i))
    case VersionEnd_rnr => if c == '\n' then Stop(Completed, VersionEnd_rnrn, s.req) else Fail(s)

    case HeaderStart =>
      if c == ':' then
        Go(s.(state := HeaderNameEnd, req := s.req.(headers := s.req.headers + [Header(View(s.prev, i), NO_VIEW)])))
      else if Control(c) then Fail(s) else Go(s)
    case HeaderNameEnd =>
      if c == ' ' then Go(s.(state := HeaderNameValueSpace))
      else if Control(c) then Fail(s) else Go(s.(state := HeaderValueStart, prev := i))
    case HeaderNameValueSpace => if Control(c) then Fail(s) else Go(s.(state := HeaderValueStart, prev := i))
    case HeaderValueStart =>
      if c == '\r' then EndValue(s, buf, i) else if Control(c) then Fail(s) else Go(s)
    case Header_r => if c == '\n' then Go(s.(state := Header_rn)) else Fail(s)
    case Header_rn =>
      if c == '\r' then Go(s.(state := Header_rnr))
      else if Control(c) then Fail(s) else Go(s.(state := HeaderStart, prev := i))
    case Header_rnr =>
      if c != '\n' then Fail(s)
      else if i + 1 == |buf| then Stop(Completed, Header_rnrn, s.req)
      else Go(s.(state := Header_rnrn))
    case Header_rnrn => BeginBody(s, buf, i)

    case PostDataStart =>
      if Minus1(s.remaining) == 0
      then Stop(Completed, s.state, s.req.(content := View(s.prev, i + 1)))
      else Go(s.(remaining := Minus1(s.remaining)))

    case MultipartDataStart => if c == '-' then Go(s.(state := MultipartDataStart_)) else Fail(s)
    case MultipartDataStart_ => if Control(c) then Fail(s) else Go(s.(state := BoundaryMatchStart, prev := i))
    case BoundaryMatchStart =>
      if c == '\r' then
        if Text(buf, View(s.prev, i)) == Text(buf, s.req.boundary) then Go(s.(state := BoundaryMatch_r)) else Fail(s)
      else if Control(c) then Fail(s) else Go(s)
    case LastBoundaryMatch => if c == '\n' then Stop(Completed, s.state, s.req) else Fail(s)
    case BoundaryMatch_r => if c == '\n' then Go(s.(state := BoundaryMatch_rn)) else Fail(s)
    case BoundaryMatch_rn => if Control(c) then Fail(s) else Go(s.(state := PartInfoStart, prev := i))
    case PartInfoStart =>
      if c == '\r' then Go(s.(state := PartInfo_r)) else if Control(c) then Fail(s) else Go(s)
    case PartInfo_r => if c == '\n' then Go(s.(state := PartInfo_rn)) else Fail(s)
    case PartInfo_rn =>
      if c == '\r' then
        if i < s.prev + 2 then Stop(Fault, s.state, s.req) else
        Go(s.(state := PartInfo_rnr, req := s.req.(parts := s.req.parts + [Part(View(s.prev, i - 2), NO_VIEW)])))
      else if Control(c) then Fail(s) else Go(s.(state := PartInfoStart))
    case PartInfo_rnr => if c == '\n' then Go(s.(state := PartInfo_rnrn)) else Fail(s)
    case PartInfo_rnrn => Go(s.(state := PartBodyStart, prev := i))
    case PartBodyStart => if c == '\r' then EndBody(s, buf, i) else Go(s)
    case VersionEnd_rnrn => Fail(s)
  }

  /** What a parse leaves behind: its result, get_state(), the request, and how far it read. */
  datatype Parsed = Parsed(outcome: Outcome, state: State, req: Fields, used: nat)

  /** The loop from index i on. */
  function Run(s: Scan, buf: string, i: nat): Parsed
    requires i <= |buf|
    decreases |buf| - i
  {
    if i == |buf| then Parsed(InCompleted, s.state, s.req, i) else
    match Step(s, buf, i)
    case Go(next) => Run(next, buf, i + 1)
    case Stop(outcome, state, req) => Parsed(outcome, state, req, i + 1)
  }

  function Parse(req: Fields, buf: string): Parsed
  {
    Run(Scan(MethodUnstart, 0, 0, req), buf, 0)
  }

  // ---------------------------------------------------------------- moving along the buffer

  /** The loop passes over characters that leave its locals as they are. */
  lemma {:induction false} RunOver(s: Scan, buf: string, i: nat, j: nat)
    requires i <= j <= |buf|
    requires forall k :: i <= k < j ==> Step(s, buf, k) == Go(s)
    ensures Run(s, buf, i) == Run(s, buf, j)
    decreases j - i
  {
    if i < j {
      RunOver(s, buf, i + 1, j);
    }
  }
}
