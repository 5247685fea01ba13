/** Multipart bodies: a printer, and exactly when parsing undoes it. */
module RequestMultipart {
  import opened Options
  import opened HttpText
  import opened HttpHeaders
  import opened RequestMachine
  import opened RequestGrammar

  // ---------------------------------------------------------------- printing

  /** A part: the lines of its headers, and its data. */
  datatype PartText = PartText(info: seq<string>, data: string)

  function Lines(info: seq<string>): string
  {
    if info == [] then "" else if |info| == 1 then info[0] else info[0] + "\r\n" + Lines(info[1..])
  }

  predicate LineOk(line: string)
  {
    |line| >= 1 && NoControl(line)
  }

  predicate InfoOk(info: seq<string>)
  {
    |info| >= 1 && forall k :: 0 <= k < |info| ==> LineOk(info[k])
  }

  predicate InfosOk(parts: seq<PartText>)
  {
    forall k :: 0 <= k < |parts| ==> InfoOk(parts[k].info)
  }

  /** What follows a delimiter when parts are still to come. */
  function PrintParts(boundary: string, parts: seq<PartText>): string
  {
    if parts == [] then "--\r\n" else
    ("\r\n" + (Lines(parts[0].info) + "\r\n\r\n"))
      + ((parts[0].data + ("\r\n--" + boundary)) + PrintParts(boundary, parts[1..]))
  }

  function PrintMultipart(boundary: string, parts: seq<PartText>): string
  {
    ("--" + boundary) + PrintParts(boundary, parts)
  }

  // ---------------------------------------------------------------- when a part survives

  predicate Ends(s: string, t: string)
  {
    |t| <= |s| && s[|s| - |t|..] == t
  }

  /** The data seems to be over before its k-th character, a '\r' or the one of the delimiter. */
  predicate Cut(boundary: string, data: string, k: nat)
  {
    k <= |data| && (k == |data| || data[k] == '\r') && (Ends(data[..k], boundary) || Ends(data[..k], boundary + "--"))
  }

  predicate DataOk(boundary: string, data: string)
  {
    forall k :: 0 <= k <= |data| ==> !Cut(boundary, data, k)
  }

  predicate AllDashes(s: string)
  {
    forall k :: 0 <= k < |s| ==> s[k] == '-'
  }

  predicate Survive(boundary: string, parts: seq<PartText>)
  {
    !AllDashes(boundary) && forall k :: 0 <= k < |parts| ==> DataOk(boundary, parts[k].data)
  }

  // ---------------------------------------------------------------- the recorded views

  function InfoAt(at: nat): nat
  {
    at + 2
  }

  function DataAt(p: PartText, at: nat): nat
  {
    at + |Lines(p.info)| + 6
  }

  function NextAt(boundary: string, p: PartText, at: nat): nat
  {
    DataAt(p, at) + |p.data| + 4 + |boundary|
  }

  function PartViews(p: PartText, at: nat): Part
  {
    Part(View(InfoAt(at), InfoAt(at) + |Lines(p.info)|), View(DataAt(p, at), DataAt(p, at) + |p.data|))
  }

  function PartsOf(boundary: string, parts: seq<PartText>, at: nat): seq<Part>
  {
    if parts == [] then []
      else [PartViews(parts[0], at)] + PartsOf(boundary, parts[1..], NextAt(boundary, parts[0], at))
  }

  predicate PartsMatch(buf: string, got: seq<Part>, parts: seq<PartText>)
  {
    |got| == |parts|
    && forall k :: 0 <= k < |parts| ==>
         Text(buf, got[k].info) == Lines(parts[k].info) && Text(buf, got[k].data) == parts[k].data
  }

  // ---------------------------------------------------------------- reading a part's headers

  lemma ReadInfoBreak(buf: string, e: nat, s: Scan)
    requires s.state == PartInfoStart && At(buf, e, "\r\n")
    ensures Run(s, buf, e) == Run(s.(state := PartInfo_rn), buf, e + 2)
  {
    AtBreak(buf, e);
  }

  lemma StepInInfo(s: Scan, buf: string, i: nat)
    requires i < |buf| && s.state in {PartInfoStart, PartInfo_rn} && !Control(buf[i])
    ensures Step(s, buf, i) == Go(s.(state := PartInfoStart))
  {
  }

  lemma PassLine(buf: string, i: nat, line: string, s: Scan)
    requires s.state == PartInfoStart && NoControl(line) && At(buf, i, line)
    ensures Run(s, buf, i) == Run(s, buf, i + |line|)
  {
    hide Run, Step;
    forall k | i <= k < i + |line| ensures Step(s, buf, k) == Go(s) {
      AtChar(buf, i, line, k - i);
      StepInInfo(s, buf, k);
    }
    AtText(buf, i, line);
    hide At;
    RunOver(s, buf, i, i + |line|);
  }

  lemma ReadInfoLine(buf: string, i: nat, line: string, s: Scan)
    requires s.state in {PartInfoStart, PartInfo_rn} && LineOk(line) && At(buf, i, line + "\r\n")
    ensures Run(s, buf, i) == Run(s.(state := PartInfo_rn), buf, i + |line| + 2)
  {
    hide Run, Step;
    var t := s.(state := PartInfoStart);
    AtSplit(buf, i, line, "\r\n");
    assert buf[i] == line[0];
    StepInInfo(s, buf, i);
    StepInInfo(t, buf, i);
    hide At, LineOk;
    StepsTo(s, buf, i, t);
    StepsTo(t, buf, i, t);
    PassLine(buf, i, line, t);
    ReadInfoBreak(buf, i + |line|, t);
  }

  lemma {:induction false} ReadLines(buf: string, i: nat, info: seq<string>, s: Scan)
    requires s.state in {PartInfoStart, PartInfo_rn} && InfoOk(info) && At(buf, i, Lines(info) + "\r\n")
    ensures Run(s, buf, i) == Run(s.(state := PartInfo_rn), buf, i + |Lines(info)| + 2)
    decreases |info|
  {
    hide Run, Step, LineOk;
    if |info| == 1 {
      ReadInfoLine(buf, i, info[0], s);
    } else {
      assert Lines(info) + "\r\n" == (info[0] + "\r\n") + (Lines(info[1..]) + "\r\n");
      AtSplit(buf, i, info[0] + "\r\n", Lines(info[1..]) + "\r\n");
      ReadInfoLine(buf, i, info[0], s);
      ReadLines(buf, i + |info[0]| + 2, info[1..], s.(state := PartInfo_rn));
    }
  }

  lemma LinesStart(info: seq<string>)
    requires InfoOk(info)
    ensures |Lines(info)| >= 1 && !Control(Lines(info)[0])
  {
  }

  /** The scan once a part's headers at i are read. */
  function InfoScan(s: Scan, i: nat, info: seq<string>): Scan
  {
    s.(state := PartInfo_rnrn, prev := i,
       req := s.req.(parts := s.req.parts + [Part(View(i, i + |Lines(info)|), NO_VIEW)]))
  }

  lemma ReadInfoEnd(buf: string, e: nat, s: Scan)
    requires s.state == PartInfo_rn && At(buf, e, "\r\n") && e >= s.prev + 2
    ensures Run(s, buf, e)
         == Run(s.(state := PartInfo_rnrn, req := s.req.(parts := s.req.parts + [Part(View(s.prev, e - 2), NO_VIEW)])),
                buf, e + 2)
  {
    AtBreak(buf, e);
  }

  lemma ReadInfoStart(buf: string, i: nat, s: Scan)
    requires i < |buf| && s.state == BoundaryMatch_rn && !Control(buf[i])
    ensures Run(s, buf, i) == Run(s.(state := PartInfoStart, prev := i), buf, i)
  {
  }

  lemma ReadInfo(buf: string, i: nat, info: seq<string>, s: Scan)
    requires s.state == BoundaryMatch_rn && InfoOk(info) && At(buf, i, Lines(info) + "\r\n\r\n")
    ensures Run(s, buf, i) == Run(InfoScan(s, i, info), buf, i + |Lines(info)| + 4)
  {
    hide Run, Step, InfoOk;
    assert Lines(info) + "\r\n\r\n" == (Lines(info) + "\r\n") + "\r\n";
    AtSplit(buf, i, Lines(info) + "\r\n", "\r\n");
    AtSplit(buf, i, Lines(info), "\r\n");
    LinesStart(info);
    assert buf[i] == Lines(info)[0];
    hide Lines, At;
    ReadInfoStart(buf, i, s);
    var t := s.(state := PartInfoStart, prev := i);
    ReadLines(buf, i, info, t);
    ReadInfoEnd(buf, i + |Lines(info)| + 2, t.(state := PartInfo_rn));
  }

  // ---------------------------------------------------------------- looking back from a '\r'

  /** A window that ends inside the data cannot reach back over its start, where there is a '\n'. */
  lemma Window(buf: string, p: nat, data: string, k: nat, w: string)
    requires At(buf, p, data) && k <= |data| && 1 <= |w| <= p + k && NoControl(w)
    requires p >= 1 && buf[p - 1] == '\n'
    ensures buf[p + k - |w|..p + k] == w <==> Ends(data[..k], w)
  {
  }

  /** What the parser compares at a '\r'. */
  predicate AtBoundary(buf: string, i: nat, boundary: string)
  {
    |boundary| <= i <= |buf| && buf[i - |boundary|..i] == boundary
  }

  predicate BodyScan(s: Scan, buf: string, boundary: string)
  {
    s.state == PartBodyStart && s.req.parts != [] && |boundary| >= 1 && Text(buf, s.req.boundary) == boundary
  }

  /** The data of the last part ends at hi. */
  function Close(s: Scan, state: State, hi: nat): Scan
    requires s.req.parts != []
  {
    var last := s.req.parts[|s.req.parts| - 1];
    s.(state := state, req := s.req.(parts := s.req.parts[..|s.req.parts| - 1] + [Part(last.info, View(s.prev, hi))]))
  }

  lemma EndBodyCases(s: Scan, buf: string, i: nat, boundary: string)
    requires BodyScan(s, buf, boundary) && |boundary| + 2 <= i < |buf|
    ensures !AtBoundary(buf, i, boundary) && !AtBoundary(buf, i, boundary + "--") ==> EndBody(s, buf, i) == Go(s)
    ensures AtBoundary(buf, i, boundary) ==>
              EndBody(s, buf, i) == if i < s.prev + 4 + |boundary| then Stop(Fault, s.state, s.req)
                                    else Go(Close(s, BoundaryMatch_r, i - |boundary| - 4))
    ensures !AtBoundary(buf, i, boundary) && AtBoundary(buf, i, boundary + "--") ==>
              EndBody(s, buf, i) == if i < s.prev + 6 + |boundary| then Stop(Fault, s.state, s.req)
                                    else Go(Close(s, LastBoundaryMatch, i - |boundary| - 6))
  {
    var n := |boundary|;
    assert s.req.boundary.hi - s.req.boundary.lo == n;
    hide Text;
    var w := buf[i - n - 2..i];
    assert w[..n] == buf[i - n - 2..i - 2];
    assert w[n] == buf[i - 2] && w[n + 1] == buf[i - 1];
    if buf[i - 1] == '-' && buf[i - 2] == '-' && buf[i - n - 2..i - 2] == boundary {
      assert w == boundary + "--";
    } else {
      assert w != boundary + "--" by {
        assert (boundary + "--")[..n] == boundary;
        assert (boundary + "--")[n] == '-' && (boundary + "--")[n + 1] == '-';
      }
    }
  }

  /** The last delimiter seems to be an inner one exactly when the boundary is all dashes. */
  lemma LastWindow(boundary: string)
    requires |boundary| >= 1
    ensures Ends(boundary + "--", boundary) <==> AllDashes(boundary)
  {
    var n := |boundary|;
    var w := boundary + "--";
    assert w[2..] == w[|w| - n..];
    if Ends(w, boundary) {
      forall k | 0 <= k < n ensures boundary[k] == '-' {
        DashesBack(boundary, k);
      }
    }
    if AllDashes(boundary) {
      forall k | 0 <= k < n ensures w[2..][k] == boundary[k] {
        assert w[2..][k] == w[k + 2];
      }
      assert w[2..] == boundary;
    }
  }

  lemma {:induction false} DashesBack(boundary: string, k: nat)
    requires k < |boundary| && (boundary + "--")[2..] == boundary
    ensures boundary[k] == '-'
    decreases |boundary| - k
  {
    assert boundary[k] == (boundary + "--")[k + 2];
    if k + 2 < |boundary| {
      DashesBack(boundary, k + 2);
    }
  }

  // ---------------------------------------------------------------- reading a part's data

  lemma BoundaryAt(buf: string, p: nat, data: string, k: nat, boundary: string)
    requires At(buf, p, data) && k <= |data| && |boundary| >= 1 && |boundary| + 2 <= p + k && NoControl(boundary)
    requires p >= 1 && buf[p - 1] == '\n'
    ensures AtBoundary(buf, p + k, boundary) <==> Ends(data[..k], boundary)
    ensures AtBoundary(buf, p + k, boundary + "--") <==> Ends(data[..k], boundary + "--")
  {
    Window(buf, p, data, k, boundary);
    Window(buf, p, data, k, boundary + "--");
  }

  /** The loop passes over data and delimiter up to position e, as long as nothing cuts the data. */
  lemma PassData(s: Scan, buf: string, p: nat, data: string, boundary: string, i: nat, e: nat)
    requires BodyScan(s, buf, boundary) && NoControl(boundary) && |boundary| + 4 <= p <= |buf| && buf[p - 1] == '\n'
    requires At(buf, p, data) && p <= i <= e < |buf|
    requires forall k :: p + |data| < k < e ==> buf[k] != '\r'
    requires forall k :: i - p <= k <= |data| && k < e - p ==> !Cut(boundary, data, k)
    requires p + |data| < e ==> buf[p + |data|] == '\r'
    ensures Run(s, buf, i) == Run(s, buf, e)
  {
    hide Run, Step;
    forall k | i <= k < e ensures Step(s, buf, k) == Go(s) {
      if k <= p + |data| && buf[k] == '\r' {
        assert !Cut(boundary, data, k - p);
        BoundaryAt(buf, p, data, k - p, boundary);
        EndBodyCases(s, buf, k, boundary);
      }
      StepInBody(s, buf, k);
    }
    RunOver(s, buf, i, e);
  }

  lemma StepInBody(s: Scan, buf: string, i: nat)
    requires i < |buf| && s.state == PartBodyStart
    ensures Step(s, buf, i) == if buf[i] == '\r' then EndBody(s, buf, i) else Go(s)
  {
  }

  /** What follows a part's data, up to the '\r' after the delimiter. */
  function Tail(boundary: string, last: bool): string
  {
    "\r\n--" + boundary + if last then "--" else ""
  }

  lemma TailFacts(buf: string, d: nat, boundary: string, last: bool)
    requires At(buf, d, Tail(boundary, last)) && NoControl(boundary) && |boundary| >= 1
    ensures var e := d + |Tail(boundary, last)|;
            buf[d] == '\r' && (forall k :: d < k < e ==> buf[k] != '\r')
            && (last ==> AtBoundary(buf, e, boundary + "--") && (AtBoundary(buf, e, boundary) <==> AllDashes(boundary)))
            && (!last ==> AtBoundary(buf, e, boundary))
  {
    var w := if last then boundary + "--" else boundary;
    assert Tail(boundary, last) == "\r\n--" + w;
    hide Tail, At, AtBoundary;
    AtSplit(buf, d, "\r\n--", w);
    NoBreak(buf, d, w);
    if last {
      LastTail(buf, d + 4, boundary);
    } else {
      BoundaryHere(buf, d + 4, boundary);
    }
  }

  lemma NoBreak(buf: string, d: nat, w: string)
    requires At(buf, d, "\r\n--") && At(buf, d + 4, w) && NoControl(w)
    ensures d + 4 + |w| <= |buf| && buf[d] == '\r' && forall k :: d < k < d + 4 + |w| ==> buf[k] != '\r'
  {
  }

  lemma BoundaryHere(buf: string, i: nat, w: string)
    requires At(buf, i, w)
    ensures AtBoundary(buf, i + |w|, w)
  {
  }

  lemma LastTail(buf: string, i: nat, boundary: string)
    requires At(buf, i, boundary + "--") && |boundary| >= 1
    ensures AtBoundary(buf, i + |boundary| + 2, boundary + "--")
    ensures AtBoundary(buf, i + |boundary| + 2, boundary) <==> AllDashes(boundary)
  {
    var w := boundary + "--";
    LastWindow(boundary);
    hide AllDashes;
    assert buf[i + 2..i + |w|] == buf[i..i + |w|][2..] == w[2..];
  }

  /** The scan at the start of the data of the last part. */
  predicate DataScan(s: Scan, buf: string, p: nat, boundary: string)
  {
    s.state == PartInfo_rnrn && s.req.parts != [] && |boundary| >= 1 && NoControl(boundary)
    && Text(buf, s.req.boundary) == boundary && |boundary| + 4 <= p <= |buf| && buf[p - 1] == '\n'
  }

  lemma EnterData(s: Scan, buf: string, p: nat)
    requires s.state == PartInfo_rnrn && p < |buf|
    ensures Run(s, buf, p) == Run(s.(state := PartBodyStart, prev := p), buf, p + 1)
  {
  }

  lemma PassTail(s: Scan, buf: string, p: nat, data: string, boundary: string, last: bool)
    requires DataScan(s, buf, p, boundary) && DataOk(boundary, data)
    requires At(buf, p, data) && At(buf, p + |data|, Tail(boundary, last))
        && p + |data| + |Tail(boundary, last)| < |buf|
    ensures Run(s, buf, p) == Run(s.(state := PartBodyStart, prev := p), buf, p + |data| + |Tail(boundary, last)|)
  {
    hide Run, Step;
    TailFacts(buf, p + |data|, boundary, last);
    EnterData(s, buf, p);
    PassData(s.(state := PartBodyStart, prev := p), buf, p, data, boundary, p + 1, p + |data| + |Tail(boundary, last)|);
  }

  /** Data that nothing cuts is recorded whole. */
  lemma ReadData(s: Scan, buf: string, p: nat, data: string, boundary: string, last: bool)
    requires DataScan(s, buf, p, boundary) && DataOk(boundary, data) && (last ==> !AllDashes(boundary))
    requires At(buf, p, data) && At(buf, p + |data|, Tail(boundary, last) + "\r")
    ensures Run(s, buf, p)
         == Run(Close(s.(prev := p), if last then LastBoundaryMatch else BoundaryMatch_r, p + |data|),
                buf, p + |data| + |Tail(boundary, last)| + 1)
  {
    hide Run, Step, DataOk, AtBoundary, AllDashes, At, Text;
    AtSplit(buf, p + |data|, Tail(boundary, last), "\r");
    TailFacts(buf, p + |data|, boundary, last);
    var e := p + |data| + |Tail(boundary, last)|;
    AtChar(buf, e, "\r", 0);
    PassTail(s, buf, p, data, boundary, last);
    var t := s.(state := PartBodyStart, prev := p);
    EndBodyCases(t, buf, e, boundary);
    hide EndBody;
    StepInBody(t, buf, e);
    StepsTo(t, buf, e, Close(t, if last then LastBoundaryMatch else BoundaryMatch_r, p + |data|));
  }

  lemma StepsTo(s: Scan, buf: string, i: nat, t: Scan)
    requires i < |buf| && Step(s, buf, i) == Go(t)
    ensures Run(s, buf, i) == Run(t, buf, i + 1)
  {
  }

  // ---------------------------------------------------------------- data that something cuts

  /** How many of the parts are final. */
  function Settled(s: Scan): int
  {
    if s.state in {PartInfo_rnr, PartInfo_rnrn, PartBodyStart} then |s.req.parts| - 1 else |s.req.parts|
  }

  /** What a step may do to the final parts: nothing. */
  predicate Settles(s: Scan, r: Result)
  {
    match r
    case Go(t) => Settled(s) <= Settled(t) && |s.req.parts| <= |t.req.parts|
                  && forall k :: 0 <= k < Settled(s) ==> t.req.parts[k] == s.req.parts[k]
    case Stop(_, _, req) => req.parts == s.req.parts
  }

  lemma EndValueSettles(s: Scan, buf: string, i: nat)
    requires i < |buf| && s.state == HeaderValueStart
    ensures Settles(s, EndValue(s, buf, i))
  {
  }

  lemma EndBodySettles(s: Scan, buf: string, i: nat)
    requires i < |buf| && s.state == PartBodyStart
    ensures Settles(s, EndBody(s, buf, i))
  {
  }

  lemma StepSettles(s: Scan, buf: string, i: nat)
    requires i < |buf|
    ensures Settles(s, Step(s, buf, i))
  {
    if s.state == PartBodyStart {
      StepInBody(s, buf, i);
      EndBodySettles(s, buf, i);
      hide Step, EndBody;
    } else if s.state == HeaderValueStart {
      EndValueSettles(s, buf, i);
      hide EndValue;
    } else if s.state == PartInfo_rn {
      hide EndBody, EndValue;
    } else {
      hide EndBody, EndValue, Settles, Settled;
      var r := Step(s, buf, i);
      assert r.Stop? ==> r.req.parts == s.req.parts;
      assert r.Go? ==> r.scan.req.parts == s.req.parts;
      assert r.Go? && s.state !in {PartInfo_rnr, PartInfo_rnrn} ==>
          r.scan.state !in {PartInfo_rnr, PartInfo_rnrn, PartBodyStart};
      SameSettles(s, r);
    }
  }

  lemma SameSettles(s: Scan, r: Result)
    requires r.Stop? ==> r.req.parts == s.req.parts
    requires r.Go? ==> r.scan.req.parts == s.req.parts
    requires r.Go? && s.state !in {PartInfo_rnr, PartInfo_rnrn} ==>
              r.scan.state !in {PartInfo_rnr, PartInfo_rnrn, PartBodyStart}
    ensures Settles(s, r)
  {
  }

  /** Final parts are never touched again. */
  lemma {:induction false} RunSettles(s: Scan, buf: string, i: nat, k: nat)
    requires i <= |buf| && k < Settled(s)
    ensures k < |Run(s, buf, i).req.parts| && Run(s, buf, i).req.parts[k] == s.req.parts[k]
    decreases |buf| - i
  {
    if i < |buf| {
      StepSettles(s, buf, i);
      hide Step;
      if Step(s, buf, i).Go? {
        RunSettles(Step(s, buf, i).scan, buf, i + 1, k);
      }
    }
  }

  lemma FirstCut(boundary: string, data: string) returns (k: nat)
    requires !DataOk(boundary, data)
    ensures k <= |data| && Cut(boundary, data, k) && forall j :: 0 <= j < k ==> !Cut(boundary, data, j)
  {
    var some :| 0 <= some <= |data| && Cut(boundary, data, some);
    k := 0;
    while !Cut(boundary, data, k)
      invariant k <= some && forall j :: 0 <= j < k ==> !Cut(boundary, data, j)
      decreases some - k
    {
      k := k + 1;
    }
  }

  /** The last part does not end up with data of a given size. */
  predicate Wrong(buf: string, r: Parsed, n: nat, size: nat)
  {
    r.outcome == Completed ==> 1 <= n <= |r.req.parts| && |Text(buf, r.req.parts[n - 1].data)| != size
  }

  /** Closed with the wrong length, a part stays wrong. */
  lemma GoesWrong(s: Scan, buf: string, i: nat, state: State, hi: nat, size: nat)
    requires i < |buf| && s.req.parts != [] && state in {BoundaryMatch_r, LastBoundaryMatch}
    requires Step(s, buf, i) == Go(Close(s, state, hi)) && s.prev <= hi <= |buf| && hi - s.prev != size
    ensures Wrong(buf, Run(s, buf, i), |s.req.parts|, size)
  {
    hide Run, Step, Text;
    var t := Close(s, state, hi);
    StepsTo(s, buf, i, t);
    var n := |s.req.parts|;
    assert t.req.parts[n - 1].data == View(s.prev, hi);
    RunSettles(t, buf, i + 1, n - 1);
    TextLength(buf, View(s.prev, hi));
  }

  lemma TextLength(buf: string, v: View)
    requires v.lo <= v.hi <= |buf|
    ensures |Text(buf, v)| == v.hi - v.lo
  {
  }

  /** At a '\r' that seems to end a delimiter, the data has the length the place of the '\r' gives it. */
  lemma EndsWrong(s: Scan, buf: string, i: nat, boundary: string, size: nat)
    requires BodyScan(s, buf, boundary) && |boundary| + 2 <= i < |buf| && buf[i] == '\r'
    requires AtBoundary(buf, i, boundary) || AtBoundary(buf, i, boundary + "--")
    requires i - |boundary| - 4 - s.prev != size
    requires !AtBoundary(buf, i, boundary) ==> i - |boundary| - 6 - s.prev != size
    ensures Wrong(buf, Run(s, buf, i), |s.req.parts|, size)
  {
    hide Run, Step, AtBoundary, Text, Wrong, EndBody, Close;
    EndBodyCases(s, buf, i, boundary);
    StepInBody(s, buf, i);
    if Step(s, buf, i).Stop? {
      StopsAt(s, buf, i, size);
    } else if AtBoundary(buf, i, boundary) {
      GoesWrong(s, buf, i, BoundaryMatch_r, i - |boundary| - 4, size);
    } else {
      GoesWrong(s, buf, i, LastBoundaryMatch, i - |boundary| - 6, size);
    }
  }

  /** Data that is cut, or that the last delimiter of dashes ends, is recorded with another length. */
  lemma ReadCut(s: Scan, buf: string, p: nat, data: string, boundary: string, last: bool)
    requires DataScan(s, buf, p, boundary) && (!DataOk(boundary, data) || (last && AllDashes(boundary)))
    requires At(buf, p, data) && At(buf, p + |data|, Tail(boundary, last) + "\r")
    ensures Wrong(buf, Run(s, buf, p), |s.req.parts|, |data|)
  {
    hide Run, Step, Text, Cut, Wrong;
    AtSplit(buf, p + |data|, Tail(boundary, last), "\r");
    TailFacts(buf, p + |data|, boundary, last);
    if DataOk(boundary, data) {
      PassTail(s, buf, p, data, boundary, last);
      var e := p + |data| + |Tail(boundary, last)|;
      AtChar(buf, e, "\r", 0);
      hide DataOk, AtBoundary, At;
      EndsWrong(s.(state := PartBodyStart, prev := p), buf, e, boundary, |data|);
    } else {
      var k := FirstCut(boundary, data);
      CutEnds(s, buf, p, data, boundary, k);
    }
  }

  lemma CutEnds(s: Scan, buf: string, p: nat, data: string, boundary: string, k: nat)
    requires DataScan(s, buf, p, boundary) && k <= |data| && p + |data| < |buf| && buf[p + |data|] == '\r'
    requires Cut(boundary, data, k) && (forall j :: 0 <= j < k ==> !Cut(boundary, data, j))
    requires At(buf, p, data)
    ensures Wrong(buf, Run(s, buf, p), |s.req.parts|, |data|)
  {
    hide Run, Step, Text, Wrong, At, AtBoundary, Cut;
    var t := s.(state := PartBodyStart, prev := p);
    CutSeen(buf, p, data, boundary, k);
    EnterData(s, buf, p);
    PassData(t, buf, p, data, boundary, p + 1, p + k);
    EndsWrong(t, buf, p + k, boundary, |data|);
  }

  lemma CutSeen(buf: string, p: nat, data: string, boundary: string, k: nat)
    requires At(buf, p, data) && k <= |data| && p + |data| < |buf| && buf[p + |data|] == '\r'
    requires |boundary| >= 1 && NoControl(boundary) && |boundary| + 4 <= p && buf[p - 1] == '\n'
    requires Cut(boundary, data, k)
    ensures k >= 1 && buf[p + k] == '\r'
    ensures AtBoundary(buf, p + k, boundary) || AtBoundary(buf, p + k, boundary + "--")
  {
    BoundaryAt(buf, p, data, k, boundary);
    hide At, AtBoundary, NoControl;
    if k < |data| {
      AtChar(buf, p, data, k);
    }
  }

  lemma StopsAt(s: Scan, buf: string, i: nat, size: nat)
    requires i < |buf| && Step(s, buf, i).Stop? && Step(s, buf, i).outcome != Completed
    ensures Wrong(buf, Run(s, buf, i), |s.req.parts|, size)
  {
  }

  // ---------------------------------------------------------------- a list of parts

  lemma PartsBegin(boundary: string, parts: seq<PartText>) returns (rest: string)
    ensures PrintParts(boundary, parts) == (if parts == [] then "--\r" else "\r") + rest
  {
    var t := PrintParts(boundary, parts);
    rest := if parts == [] then t[3..] else t[1..];
  }

  /** Where the pieces of the first part lie. */
  ghost predicate PartAt(buf: string, at: nat, boundary: string, p: PartText, last: bool)
  {
    At(buf, at, "\r\n") && At(buf, InfoAt(at), Lines(p.info) + "\r\n\r\n")
    && At(buf, DataAt(p, at), p.data) && At(buf, DataAt(p, at) + |p.data|, Tail(boundary, last) + "\r")
  }

  lemma PartSplit(buf: string, at: nat, boundary: string, parts: seq<PartText>)
    requires parts != [] && At(buf, at, PrintParts(boundary, parts))
    ensures PartAt(buf, at, boundary, parts[0], |parts| == 1)
    ensures At(buf, NextAt(boundary, parts[0], at), PrintParts(boundary, parts[1..]))
  {
    var p := parts[0];
    var rest := PrintParts(boundary, parts[1..]);
    var info := Lines(p.info) + "\r\n\r\n";
    assert PrintParts(boundary, parts) == ("\r\n" + info) + ((p.data + ("\r\n--" + boundary)) + rest);
    hide PrintParts, Lines, At, Tail;
    assert |"\r\n" + info| == |Lines(p.info)| + 6;
    AtSplit(buf, at, "\r\n" + info, (p.data + ("\r\n--" + boundary)) + rest);
    AtSplit(buf, at, "\r\n", info);
    var d := DataAt(p, at);
    AtSplit(buf, d, p.data + ("\r\n--" + boundary), rest);
    AtSplit(buf, d, p.data, "\r\n--" + boundary);
    TailJoins(buf, d + |p.data|, boundary, parts[1..]);
    assert |parts| == 1 <==> parts[1..] == [];
  }

  lemma TailText(boundary: string, last: bool)
    ensures Tail(boundary, last) + "\r" == ("\r\n--" + boundary) + if last then "--\r" else "\r"
  {
  }

  lemma TailJoins(buf: string, e: nat, boundary: string, rest: seq<PartText>)
    requires At(buf, e, "\r\n--" + boundary) && At(buf, e + 4 + |boundary|, PrintParts(boundary, rest))
    ensures At(buf, e, Tail(boundary, rest == []) + "\r")
  {
    var more := PartsBegin(boundary, rest);
    TailText(boundary, rest == []);
    hide PrintParts, Tail, At;
    AtJoinFirst(buf, e, "\r\n--" + boundary, if rest == [] then "--\r" else "\r", more);
  }

  lemma AtJoinFirst(buf: string, e: nat, s: string, first: string, more: string)
    requires At(buf, e, s) && At(buf, e + |s|, first + more)
    ensures At(buf, e, s + first)
  {
    AtSplit(buf, e + |s|, first, more);
    AtJoin(buf, e, s, first);
  }

  /** The scan just behind the '\r' that follows a delimiter whose text ends at position at. */
  predicate Between(s: Scan, buf: string, at: nat, boundary: string)
  {
    s.state == BoundaryMatch_r && |boundary| >= 1 && NoControl(boundary)
    && Text(buf, s.req.boundary) == boundary && |boundary| <= at
  }

  lemma StepBetween(s: Scan, buf: string, i: nat)
    requires i < |buf| && s.state == BoundaryMatch_r && buf[i] == '\n'
    ensures Run(s, buf, i) == Run(s.(state := BoundaryMatch_rn), buf, i + 1)
  {
  }

  lemma ReadPartHead(s: Scan, buf: string, at: nat, boundary: string, info: seq<string>)
    requires Between(s, buf, at, boundary) && InfoOk(info)
    requires At(buf, at, "\r\n") && At(buf, InfoAt(at), Lines(info) + "\r\n\r\n")
    ensures var p := at + |Lines(info)| + 6;
            Run(s, buf, at + 1) == Run(InfoScan(s, InfoAt(at), info), buf, p)
            && DataScan(InfoScan(s, InfoAt(at), info), buf, p, boundary)
  {
    hide Run, Step, Lines, Text, At;
    AtBreak(buf, at);
    StepBetween(s, buf, at + 1);
    ReadInfo(buf, InfoAt(at), info, s.(state := BoundaryMatch_rn));
    AtSplit(buf, InfoAt(at), Lines(info), "\r\n\r\n");
    AtChar(buf, at + |Lines(info)| + 2, "\r\n\r\n", 3);
  }

  /** The scan once a part is read whole. */
  function PartScan(s: Scan, p: PartText, at: nat, last: bool): Scan
  {
    Scan(if last then LastBoundaryMatch else BoundaryMatch_r, DataAt(p, at), s.remaining,
         s.req.(parts := s.req.parts + [PartViews(p, at)]))
  }

  lemma ReadPart(s: Scan, buf: string, at: nat, boundary: string, p: PartText, last: bool)
    requires Between(s, buf, at, boundary) && InfoOk(p.info) && DataOk(boundary, p.data)
        && (last ==> !AllDashes(boundary))
    requires PartAt(buf, at, boundary, p, last)
    ensures Run(s, buf, at + 1) == Run(PartScan(s, p, at, last), buf, NextAt(boundary, p, at) + if last then 3 else 1)
  {
    hide Run, Step, InfoOk, DataOk, Text, Lines;
    ReadPartHead(s, buf, at, boundary, p.info);
    hide Between, DataScan;
    ReadData(InfoScan(s, InfoAt(at), p.info), buf, DataAt(p, at), p.data, boundary, last);
  }

  lemma LosePart(s: Scan, buf: string, at: nat, boundary: string, p: PartText, last: bool)
    requires Between(s, buf, at, boundary) && InfoOk(p.info)
        && (!DataOk(boundary, p.data) || (last && AllDashes(boundary)))
    requires PartAt(buf, at, boundary, p, last)
    ensures Wrong(buf, Run(s, buf, at + 1), |s.req.parts| + 1, |p.data|)
  {
    hide Run, Step, InfoOk, DataOk, Text, Lines, Wrong;
    ReadPartHead(s, buf, at, boundary, p.info);
    hide Between, DataScan;
    ReadCut(InfoScan(s, InfoAt(at), p.info), buf, DataAt(p, at), p.data, boundary, last);
  }

  /** Parts that survive are read back, to the end of the message. */
  lemma {:induction false} ReadParts(s: Scan, buf: string, at: nat, boundary: string, parts: seq<PartText>)
    requires Between(s, buf, at, boundary) && parts != [] && InfosOk(parts) && Survive(boundary, parts)
    requires At(buf, at, PrintParts(boundary, parts))
    ensures Run(s, buf, at + 1)
         == Parsed(Completed, LastBoundaryMatch, s.req.(parts := s.req.parts + PartsOf(boundary, parts, at)),
                   at + |PrintParts(boundary, parts)|)
    decreases |parts|
  {
    hide Run, Step, InfoOk, DataOk, AllDashes, Text, Lines;
    var next := NextAt(boundary, parts[0], at);
    var u := PartScan(s, parts[0], at, |parts| == 1);
    PartSplit(buf, at, boundary, parts);
    ReadPart(s, buf, at, boundary, parts[0], |parts| == 1);
    hide PartAt;
    if |parts| == 1 {
      AtSplit(buf, next, "--\r", "\n");
      AtChar(buf, next + 3, "\n", 0);
      ReadLast(u, buf, next + 3);
    } else {
      ReadParts(u, buf, next, boundary, parts[1..]);
    }
    hide At;
    PartsAppend(s, boundary, parts, at);
  }

  lemma ReadLast(s: Scan, buf: string, i: nat)
    requires i < |buf| && s.state == LastBoundaryMatch && buf[i] == '\n'
    ensures Run(s, buf, i) == Parsed(Completed, LastBoundaryMatch, s.req, i + 1)
  {
  }

  lemma PartsAppend(s: Scan, boundary: string, parts: seq<PartText>, at: nat)
    requires parts != []
    ensures s.req.parts + PartsOf(boundary, parts, at)
         == (s.req.parts + [PartViews(parts[0], at)]) + PartsOf(boundary, parts[1..], NextAt(boundary, parts[0], at))
  {
  }

  /** The parts read from the n-th on are not the printed ones. */
  predicate Differ(buf: string, r: Parsed, n: nat, parts: seq<PartText>)
  {
    r.outcome == Completed && n <= |r.req.parts| ==> !PartsMatch(buf, r.req.parts[n..], parts)
  }

  /** Parts that do not all survive are not read back. */
  lemma {:induction false} LoseParts(s: Scan, buf: string, at: nat, boundary: string, parts: seq<PartText>)
    requires Between(s, buf, at, boundary) && parts != [] && InfosOk(parts) && !Survive(boundary, parts)
    requires At(buf, at, PrintParts(boundary, parts))
    ensures Differ(buf, Run(s, buf, at + 1), |s.req.parts|, parts)
    decreases |parts|
  {
    hide Run, Step, InfoOk, DataOk, AllDashes, Text, Lines;
    PartSplit(buf, at, boundary, parts);
    hide PrintParts, At;
    if !DataOk(boundary, parts[0].data) || (|parts| == 1 && AllDashes(boundary)) {
      LosePart(s, buf, at, boundary, parts[0], |parts| == 1);
      WrongDiffers(buf, Run(s, buf, at + 1), |s.req.parts|, parts);
    } else {
      ReadPart(s, buf, at, boundary, parts[0], false);
      hide PartAt, Differ;
      LoseParts(PartScan(s, parts[0], at, false), buf, NextAt(boundary, parts[0], at), boundary, parts[1..]);
      RestDiffers(buf, Run(s, buf, at + 1), |s.req.parts|, parts);
    }
  }

  lemma WrongDiffers(buf: string, r: Parsed, n: nat, parts: seq<PartText>)
    requires parts != [] && Wrong(buf, r, n + 1, |parts[0].data|)
    ensures Differ(buf, r, n, parts)
  {
  }

  lemma RestDiffers(buf: string, r: Parsed, n: nat, parts: seq<PartText>)
    requires parts != [] && Differ(buf, r, n + 1, parts[1..])
    ensures Differ(buf, r, n, parts)
  {
  }

  // ---------------------------------------------------------------- whole messages

  /** The '--' and boundary the body begins with, up to the '\r' behind them. */
  lemma ReadFirstBoundary(s: Scan, buf: string, i: nat, boundary: string)
    requires s.state == Header_rnrn && s.req.isMultipart && IsPostOrPut(buf, s.req)
    requires |boundary| >= 1 && NoControl(boundary) && Text(buf, s.req.boundary) == boundary
    requires At(buf, i, "--" + boundary) && i + 2 + |boundary| < |buf| && buf[i + 2 + |boundary|] == '\r'
    ensures Run(s, buf, i) == Run(s.(state := BoundaryMatch_r, prev := i + 2), buf, i + |boundary| + 3)
  {
    hide Run, Step, IsPostOrPut, Text, At;
    AtSplit(buf, i, "--", boundary);
    AtChar(buf, i, "--", 0);
    AtChar(buf, i, "--", 1);
    AtChar(buf, i + 2, boundary, 0);
    EnterBoundary(s, buf, i);
    PassBoundary(s.(state := BoundaryMatchStart, prev := i + 2), buf, boundary);
  }

  lemma PassBoundary(s: Scan, buf: string, boundary: string)
    requires s.state == BoundaryMatchStart && |boundary| >= 1 && NoControl(boundary) && At(buf, s.prev, boundary)
    requires Text(buf, s.req.boundary) == boundary && s.prev + |boundary| < |buf| && buf[s.prev + |boundary|] == '\r'
    ensures Run(s, buf, s.prev + 1) == Run(s.(state := BoundaryMatch_r), buf, s.prev + |boundary| + 1)
  {
    hide Run, Step, Text, At;
    var e := s.prev + |boundary|;
    forall k | s.prev + 1 <= k < e ensures Step(s, buf, k) == Go(s) {
      AtChar(buf, s.prev, boundary, k - s.prev);
      StepInBoundary(s, buf, k);
    }
    RunOver(s, buf, s.prev + 1, e);
    StepInBoundary(s, buf, e);
    AtText(buf, s.prev, boundary);
    StepsTo(s, buf, e, s.(state := BoundaryMatch_r));
  }

  lemma EnterBoundary(s: Scan, buf: string, i: nat)
    requires i + 2 < |buf| && buf[i] == '-' && buf[i + 1] == '-' && !Control(buf[i + 2])
    requires s.state == Header_rnrn && s.req.isMultipart && IsPostOrPut(buf, s.req)
    ensures Run(s, buf, i) == Run(s.(state := BoundaryMatchStart, prev := i + 2), buf, i + 3)
  {
    hide IsPostOrPut;
    var t := s.(state := MultipartDataStart, prev := i);
    assert Step(s, buf, i) == Go(t);
    assert Step(t, buf, i + 1) == Go(t.(state := MultipartDataStart_));
    hide Step;
    StepsTo(s, buf, i, t);
    StepsTo(t, buf, i + 1, t.(state := MultipartDataStart_));
    EnterMatch(t.(state := MultipartDataStart_), buf, i + 2);
  }

  lemma EnterMatch(s: Scan, buf: string, i: nat)
    requires i < |buf| && s.state == MultipartDataStart_ && !Control(buf[i])
    ensures Run(s, buf, i) == Run(s.(state := BoundaryMatchStart, prev := i), buf, i + 1)
  {
  }

  lemma StepInBoundary(s: Scan, buf: string, i: nat)
    requires i < |buf| && s.state == BoundaryMatchStart
    ensures Step(s, buf, i)
         == if buf[i] == '\r' then
              if Text(buf, View(s.prev, i)) == Text(buf, s.req.boundary) then Go(s.(state := BoundaryMatch_r))
                else Fail(s)
            else if Control(buf[i]) then Fail(s) else Go(s)
  {
  }

  /** A POST or PUT head that announces multipart data, and a body printed with its boundary. */
  ghost predicate Multipart(buf: string, h: Head, facts: Facts, boundary: string, parts: seq<PartText>)
  {
    Begins(buf, h, facts) && facts.isMultipart && (h.verb == "POST" || h.verb == "PUT")
    && Text(buf, facts.boundary) == boundary && |boundary| >= 1 && NoControl(boundary)
    && parts != [] && InfosOk(parts)
    && At(buf, |PrintHead(h)|, PrintMultipart(boundary, parts))
  }

  lemma FieldsPresent(fields: seq<Field>, buf: string, at: nat, facts: Facts)
    requires at + |PrintFields(fields)| <= |buf| && LearnAll(NO_FACTS, fields, buf, at) == Some(facts)
        && facts.isMultipart
    ensures fields != []
  {
  }

  /** From the blank line to the first part. */
  lemma ReadIntoParts(s: Scan, buf: string, n: nat, boundary: string, parts: seq<PartText>)
    requires s.state == Header_rn && s.req.isMultipart && IsPostOrPut(buf, s.req)
    requires |boundary| >= 1 && NoControl(boundary) && Text(buf, s.req.boundary) == boundary && parts != []
    requires n >= 2 && At(buf, n - 2, "\r\n") && At(buf, n, PrintMultipart(boundary, parts))
    ensures var t := s.(state := BoundaryMatch_r, prev := n + 2);
            Run(s, buf, n - 2) == Run(t, buf, n + 3 + |boundary|) && Between(t, buf, n + 2 + |boundary|, boundary)
            && At(buf, n + 2 + |boundary|, PrintParts(boundary, parts))
  {
    hide Run, Step, PrintParts, IsPostOrPut, Text;
    AtSplit(buf, n, "--" + boundary, PrintParts(boundary, parts));
    PartSplit(buf, n + 2 + |boundary|, boundary, parts);
    FirstBreak(buf, n, boundary, parts);
    hide At, PartAt;
    ReadBlank(s, buf, n - 2);
    ReadFirstBoundary(s.(state := Header_rnrn), buf, n, boundary);
  }

  /** The scan at the first part. */
  function PartsScan(h: Head, facts: Facts): Scan
  {
    Scan(BoundaryMatch_r, |PrintHead(h)| + 2, facts.size, FieldsOf(h, facts))
  }

  function PartsStart(h: Head, boundary: string): nat
  {
    |PrintHead(h)| + 2 + |boundary|
  }

  lemma ReadUpToBody(buf: string, h: Head, facts: Facts, boundary: string, parts: seq<PartText>) returns (s: Scan)
    requires Multipart(buf, h, facts, boundary, parts)
    ensures Parse(NO_FIELDS, buf) == Run(s, buf, |PrintHead(h)| - 2)
    ensures s.state == Header_rn && s.remaining == facts.size && s.req == FieldsOf(h, facts)
    ensures IsPostOrPut(buf, s.req) && s.req.isMultipart && s.req.boundary == facts.boundary
    ensures At(buf, |PrintHead(h)| - 2, "\r\n")
  {
    hide Run, Step, Parse, Learn, HeadOk, LearnAll, PrintMultipart, PrintFields, PrintLine;
    FieldsPresent(h.fields, buf, |PrintLine(h)|, facts);
    var p := ReadHead(buf, h, facts);
    VerbText(buf, h, facts);
    s := Scan(Header_rn, p, facts.size, FieldsOf(h, facts));
  }

  lemma ReadUpToParts(buf: string, h: Head, facts: Facts, boundary: string, parts: seq<PartText>)
    requires Multipart(buf, h, facts, boundary, parts)
    ensures PartsStart(h, boundary) < |buf|
    ensures Parse(NO_FIELDS, buf) == Run(PartsScan(h, facts), buf, PartsStart(h, boundary) + 1)
    ensures Between(PartsScan(h, facts), buf, PartsStart(h, boundary), boundary)
    ensures At(buf, PartsStart(h, boundary), PrintParts(boundary, parts))
  {
    hide Run, Parse, PrintMultipart, PrintParts, FieldsOf, IsPostOrPut, Text, Begins, At;
    var s := ReadUpToBody(buf, h, facts, boundary, parts);
    hide PrintHead, Multipart;
    ReadIntoParts(s, buf, |PrintHead(h)|, boundary, parts);
    PartFits(buf, PartsStart(h, boundary), boundary, parts);
  }

  lemma PartFits(buf: string, at: nat, boundary: string, parts: seq<PartText>)
    requires parts != [] && At(buf, at, PrintParts(boundary, parts))
    ensures at < |buf|
  {
  }

  lemma FactsKept(h: Head, facts: Facts)
    ensures FieldsOf(h, facts).isMultipart == facts.isMultipart && FieldsOf(h, facts).boundary == facts.boundary
    ensures FieldsOf(h, facts).parts == []
  {
  }

  lemma FirstBreak(buf: string, n: nat, boundary: string, parts: seq<PartText>)
    requires At(buf, n, "--" + boundary) && parts != []
        && PartAt(buf, n + 2 + |boundary|, boundary, parts[0], |parts| == 1)
    ensures n + 2 + |boundary| < |buf| && buf[n + 2 + |boundary|] == '\r'
  {
  }

  /** Printing then parsing returns the same parts exactly when they survive: when the boundary is not
      all dashes and no part's data seems to end before its delimiter does. */
  lemma RoundTripExactly(buf: string, h: Head, facts: Facts, boundary: string, parts: seq<PartText>)
    requires Multipart(buf, h, facts, boundary, parts)
    ensures (Parse(NO_FIELDS, buf).outcome == Completed && PartsMatch(buf, Parse(NO_FIELDS, buf).req.parts, parts))
       <==> Survive(boundary, parts)
  {
    hide Run, Parse;
    ReadUpToParts(buf, h, facts, boundary, parts);
    var at := PartsStart(h, boundary);
    var s := PartsScan(h, facts);
    FactsKept(h, facts);
    hide Begins, PrintHead, FieldsOf, PrintMultipart;
    if Survive(boundary, parts) {
      ReadParts(s, buf, at, boundary, parts);
      PartsText(buf, at, boundary, parts);
      assert [] + PartsOf(boundary, parts, at) == PartsOf(boundary, parts, at);
    } else {
      LoseParts(s, buf, at, boundary, parts);
      var r := Run(s, buf, at + 1);
      assert r.req.parts[0..] == r.req.parts;
    }
  }

  /** On success the parse has read the printed message to its end, and all of the head is there too. */
  lemma RoundTripWhole(buf: string, h: Head, facts: Facts, boundary: string, parts: seq<PartText>)
    requires Multipart(buf, h, facts, boundary, parts) && Survive(boundary, parts)
    ensures Parse(NO_FIELDS, buf)
         == Parsed(Completed, LastBoundaryMatch,
                   FieldsOf(h, facts).(parts := PartsOf(boundary, parts, |PrintHead(h)| + 2 + |boundary|)),
                   |PrintHead(h)| + |PrintMultipart(boundary, parts)|)
  {
    hide Run, Parse, Begins, PrintHead, FieldsOf, At, Text, Survive, Between, PrintParts;
    ReadUpToParts(buf, h, facts, boundary, parts);
    var at := PartsStart(h, boundary);
    FactsKept(h, facts);
    ReadParts(PartsScan(h, facts), buf, at, boundary, parts);
    assert [] + PartsOf(boundary, parts, at) == PartsOf(boundary, parts, at);
  }

  lemma {:induction false} PartsText(buf: string, at: nat, boundary: string, parts: seq<PartText>)
    requires At(buf, at, PrintParts(boundary, parts))
    ensures PartsMatch(buf, PartsOf(boundary, parts, at), parts)
    decreases |parts|
  {
    if parts != [] {
      var p := parts[0];
      PartSplit(buf, at, boundary, parts);
      AtSplit(buf, InfoAt(at), Lines(p.info), "\r\n\r\n");
      assert Text(buf, PartViews(p, at).info) == Lines(p.info) && Text(buf, PartViews(p, at).data) == p.data;
      hide Text, At, PartAt, PrintParts, Lines;
      PartsText(buf, NextAt(boundary, p, at), boundary, parts[1..]);
      var rest := PartsOf(boundary, parts[1..], NextAt(boundary, p, at));
      forall k | 1 <= k < |parts|
        ensures Text(buf, ([PartViews(p, at)] + rest)[k].info) == Lines(parts[k].info)
             && Text(buf, ([PartViews(p, at)] + rest)[k].data) == parts[k].data {
        assert ([PartViews(p, at)] + rest)[k] == rest[k - 1] && parts[k] == parts[1..][k - 1];
      }
    }
  }

  // ---------------------------------------------------------------- the usual Content-Type

  const FORM_DATA := MULTIPART + ("; " + BOUNDARY)

  lemma NoBoundaryBefore(v: string, boundary: string, k: nat)
    requires v == FORM_DATA + boundary && Occurs(v, BOUNDARY, k)
    ensures k >= |MULTIPART| + 2
  {
    assert v[k] == v[k..k + |BOUNDARY|][0] == 'b';
    assert forall j :: 0 <= j < |MULTIPART| ==> v[j] == MULTIPART[j] != 'b';
  }

  lemma FormDataFinds(v: string, boundary: string)
    requires v == FORM_DATA + boundary
    ensures Find(v, MULTIPART).Some? && Find(v, BOUNDARY) == Some(|MULTIPART| + 2)
  {
    var n := |MULTIPART|;
    assert v[0..n] == MULTIPART;
    assert Occurs(v, MULTIPART, 0);
    assert v[n + 2..n + 2 + |BOUNDARY|] == BOUNDARY;
    assert Occurs(v, BOUNDARY, n + 2);
    var found := Find(v, BOUNDARY);
    assert found.Some? && found.value <= n + 2;
    NoBoundaryBefore(v, boundary, found.value);
  }

  /** The usual Content-Type value yields its boundary. */
  lemma FormDataLearnt(buf: string, facts: Facts, f: Field, at: nat, boundary: string)
    requires At(buf, at, f.value) && f.name == "Content-Type" && f.value == FORM_DATA + boundary
    ensures at <= |buf|
    ensures var learnt := Learn(facts, f, buf, at);
            learnt.Some? && learnt.value.isMultipart && Text(buf, learnt.value.boundary) == boundary
            && learnt.value.size == facts.size
  {
    hide Find, Text, At;
    FormDataFinds(f.value, boundary);
    AtText(buf, at, f.value);
    AtSplit(buf, at, FORM_DATA, boundary);
    AtText(buf, at + |FORM_DATA|, boundary);
  }

  // ---------------------------------------------------------------- one message that is lost

  const DASHES := "--"
  const FORM_FIELD := Field("Content-Type", true, FORM_DATA + DASHES)
  const FORM_HEAD := Head("POST", "/", "1.1", [FORM_FIELD])
  const FORM_PARTS := [PartText(["A: b"], "x")]

  lemma FormHeadBegins(buf: string) returns (facts: Facts)
    requires At(buf, 0, PrintHead(FORM_HEAD))
    ensures Begins(buf, FORM_HEAD, facts) && facts.isMultipart && Text(buf, facts.boundary) == DASHES
  {
    var h := FORM_HEAD;
    var f := FORM_FIELD;
    var at := |PrintLine(h)|;
    FormFieldOk();
    assert HeadOk(h);
    HeadSplit(buf, h);
    assert h.fields[1..] == [];
    hide HeadOk, PrintHead, PrintLine, FieldOk, At, Learn, PrintField, Text;
    FieldsSplit(buf, h.fields, at);
    FieldSplit(buf, at, f);
    FormDataLearnt(buf, NO_FACTS, f, ValueAt(f, at), DASHES);
    facts := Learn(NO_FACTS, f, buf, ValueAt(f, at)).value;
    assert LearnAll(facts, [], buf, at + |PrintField(f)|) == Some(facts);
  }

  lemma FormFieldOk()
    ensures FieldOk(FORM_FIELD)
  {
    var v := FORM_DATA + DASHES;
    forall k | 0 <= k < |v| ensures !Control(v[k]) {
      assert MULTIPART[..] == MULTIPART;
    }
  }

  /** A boundary of dashes: a message whose only part is lost, printed and parsed as any other. */
  lemma DashesLost(buf: string)
    requires buf == PrintHead(FORM_HEAD) + PrintMultipart(DASHES, FORM_PARTS)
    ensures !(Parse(NO_FIELDS, buf).outcome == Completed
              && PartsMatch(buf, Parse(NO_FIELDS, buf).req.parts, FORM_PARTS))
  {
    hide PrintMultipart, PrintHead, Parse, Text, Begins, PartsMatch, PrintParts;
    var n := |PrintHead(FORM_HEAD)|;
    Suffix(PrintHead(FORM_HEAD), PrintMultipart(DASHES, FORM_PARTS));
    assert At(buf, 0, PrintHead(FORM_HEAD)) && At(buf, n, PrintMultipart(DASHES, FORM_PARTS));
    hide At;
    var facts := FormHeadBegins(buf);
    assert LineOk("A: b");
    assert AllDashes(DASHES);
    RoundTripExactly(buf, FORM_HEAD, facts, DASHES, FORM_PARTS);
  }
}
