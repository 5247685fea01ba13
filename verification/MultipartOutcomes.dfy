/** Multipart bodies that were not printed: which are complete, which are open, and which end a part too early. */
module MultipartOutcomes {
  import opened HttpText
  import opened RequestMachine
  import opened RequestGrammar
  import opened RequestMultipart

  // ---------------------------------------------------------------- grammar

  /** The headers of a part behind a delimiter that ends at at, with the line ends around them. */
  ghost predicate HasInfo(buf: string, at: nat, info: seq<string>)
  {
    InfoOk(info) && At(buf, at, "\r\n") && At(buf, InfoAt(at), Lines(info) + "\r\n\r\n")
  }

  function DataStart(info: seq<string>, at: nat): nat
  {
    at + |Lines(info)| + 6
  }

  /** Between p and e no '\r' stands behind the boundary, or behind the boundary and "--". */
  ghost predicate Quiet(buf: string, p: nat, e: nat, boundary: string)
  {
    forall k :: p < k < e && k < |buf| && buf[k] == '\r' ==>
      !AtBoundary(buf, k, boundary) && !AtBoundary(buf, k, boundary + "--")
  }

  /** The first '\r' behind p that does so is at e; last says whether the "--" counts. */
  ghost predicate Delimits(buf: string, p: nat, e: nat, boundary: string, last: bool)
  {
    && p < e < |buf| && buf[e] == '\r' && Quiet(buf, p, e, boundary)
    && if last then !AtBoundary(buf, e, boundary) && AtBoundary(buf, e, boundary + "--")
       else AtBoundary(buf, e, boundary)
  }

  /** How much of what stands before that '\r' is no data: four characters, the boundary, and the "--". */
  function DelimiterSize(boundary: string, last: bool): nat
  {
    4 + |boundary| + if last then 2 else 0
  }

  /** A part that is closed at e: its headers, and data that its delimiter leaves room for. */
  ghost predicate ClosedPart(buf: string, at: nat, boundary: string, info: seq<string>, e: nat, last: bool)
  {
    HasInfo(buf, at, info) && Delimits(buf, DataStart(info, at), e, boundary, last)
    && DataStart(info, at) + DelimiterSize(boundary, last) <= e
  }

  /** The views of such a part. */
  function PartOf(at: nat, boundary: string, info: seq<string>, e: nat, last: bool): Part
    requires DelimiterSize(boundary, last) <= e
  {
    Part(View(InfoAt(at), InfoAt(at) + |Lines(info)|), View(DataStart(info, at), e - DelimiterSize(boundary, last)))
  }

  ghost predicate InnerPart(buf: string, at: nat, boundary: string, info: seq<string>, e: nat, part: Part)
  {
    ClosedPart(buf, at, boundary, info, e, false) && part == PartOf(at, boundary, info, e, false)
  }

  ghost predicate LastPart(buf: string, at: nat, boundary: string, info: seq<string>, e: nat, part: Part)
  {
    ClosedPart(buf, at, boundary, info, e, true) && part == PartOf(at, boundary, info, e, true) && At(buf, e, "\r\n")
  }

  /** Parts up to a last one, with the line end behind it. */
  ghost predicate CompleteParts(buf: string, at: nat, boundary: string, parts: seq<Part>)
    decreases |parts|
  {
    if parts == [] then false
    else if |parts| == 1 then exists info, e: nat :: LastPart(buf, at, boundary, info, e, parts[0])
    else exists info, e: nat ::
           InnerPart(buf, at, boundary, info, e, parts[0]) && CompleteParts(buf, e, boundary, parts[1..])
  }

  /** Lines of a part's headers, the last of them broken off. */
  ghost predicate OpenLines(buf: string, i: nat)
    requires i <= |buf|
    decreases |buf| - i, 1
  {
    NoControl(buf[i..]) || exists line :: OpenBehind(buf, i, line)
  }

  /** A line, and its line end or the blank line behind it broken off, or the lines behind it. */
  ghost predicate OpenBehind(buf: string, i: nat, line: string)
    requires i <= |buf|
    decreases |buf| - i, 0
  {
    LineOk(line) && At(buf, i, line + "\r")
    && (|buf| == i + |line| + 1
        || (At(buf, i, line + "\r\n") && (buf[i + |line| + 2..] == "\r" || OpenLines(buf, i + |line| + 2))))
  }

  ghost predicate OpenInfo(buf: string, at: nat)
  {
    at < |buf| && (buf[at..] == "\r" || (At(buf, at, "\r\n") && OpenLines(buf, at + 2)))
  }

  /** A part whose data nothing has ended yet. */
  ghost predicate OpenData(buf: string, at: nat, boundary: string, info: seq<string>)
  {
    HasInfo(buf, at, info) && DataStart(info, at) <= |buf| && Quiet(buf, DataStart(info, at), |buf|, boundary)
  }

  /** Parts of which the last one breaks off: in its headers, in its data, or in the line end behind the last
      delimiter. */
  ghost predicate OpenParts(buf: string, at: nat, boundary: string)
    decreases if at < |buf| then |buf| - at else 0
  {
    || OpenInfo(buf, at)
    || (exists info :: OpenData(buf, at, boundary, info))
    || (exists info, e: nat :: ClosedPart(buf, at, boundary, info, e, true) && |buf| == e + 1)
    || (exists info, e: nat :: ClosedPart(buf, at, boundary, info, e, false) && OpenParts(buf, e, boundary))
  }

  /** A part that ends too early. */
  ghost predicate ShortPart(buf: string, at: nat, boundary: string, info: seq<string>, e: nat, last: bool)
  {
    HasInfo(buf, at, info) && Delimits(buf, DataStart(info, at), e, boundary, last)
    && e < DataStart(info, at) + DelimiterSize(boundary, last)
  }

  /** Parts of which one ends before its delimiter can have begun. */
  ghost predicate FaultyParts(buf: string, at: nat, boundary: string)
    decreases if at < |buf| then |buf| - at else 0
  {
    || (exists info, e: nat, last :: ShortPart(buf, at, boundary, info, e, last))
    || (exists info, e: nat :: ClosedPart(buf, at, boundary, info, e, false) && FaultyParts(buf, e, boundary))
  }

  // ---------------------------------------------------------------- the end of the buffer

  /** Where the loop leaves a state that keeps its locals: at the end of the buffer, or before it. */
  lemma {:induction false} LeavesOrEnds(s: Scan, buf: string, i: nat) returns (e: nat)
    requires i <= |buf|
    ensures i <= e <= |buf| && (e < |buf| ==> Step(s, buf, e) != Go(s))
    ensures forall k :: i <= k < e ==> Step(s, buf, k) == Go(s)
    ensures Run(s, buf, e) == Run(s, buf, i)
    decreases |buf| - i
  {
    hide Step;
    e := i;
    if i < |buf| && Step(s, buf, i) == Go(s) {
      e := LeavesOrEnds(s, buf, i + 1);
    }
  }

  lemma RunEnds(s: Scan, buf: string)
    ensures Run(s, buf, |buf|) == Parsed(InCompleted, s.state, s.req, |buf|)
  {
  }

  lemma RunStops(s: Scan, buf: string, i: nat)
    requires i < |buf| && Step(s, buf, i).Stop?
    ensures Run(s, buf, i).outcome == Step(s, buf, i).outcome
  {
  }

  // ---------------------------------------------------------------- lines

  lemma StepInfoR(s: Scan, buf: string, i: nat)
    requires i < |buf| && s.state == PartInfo_r
    ensures Step(s, buf, i) == if buf[i] == '\n' then Go(s.(state := PartInfo_rn)) else Fail(s)
  {
  }

  lemma StepInfoStart(s: Scan, buf: string, i: nat)
    requires i < |buf| && s.state == PartInfoStart
    ensures Step(s, buf, i)
         == if buf[i] == '\r' then Go(s.(state := PartInfo_r)) else if Control(buf[i]) then Fail(s)
            else Go(s)
  {
  }

  /** A line that breaks off. */
  lemma LineOpen(buf: string, i: nat, s: Scan)
    requires i <= |buf| && s.state in {PartInfoStart, PartInfo_rn, BoundaryMatch_rn} && NoControl(buf[i..])
    ensures Run(s, buf, i).outcome == InCompleted
  {
    hide Run, Step;
    if i == |buf| {
      RunEnds(s, buf);
    } else {
      assert buf[i] == buf[i..][0];
      var t := s.(state := PartInfoStart, prev := if s.state == BoundaryMatch_rn then i else s.prev);
      FirstOfLine(buf, i, s);
      assert At(buf, i, buf[i..]);
      PassLine(buf, i, buf[i..], t);
      RunEnds(t, buf);
    }
  }

  /** The first character of a line. */
  lemma FirstOfLine(buf: string, i: nat, s: Scan)
    requires i < |buf| && !Control(buf[i]) && s.state in {PartInfoStart, PartInfo_rn, BoundaryMatch_rn}
    ensures Run(s, buf, i)
        == Run(s.(state := PartInfoStart, prev := if s.state == BoundaryMatch_rn then i else s.prev), buf, i)
  {
  }

  lemma {:induction false} LinesOpen(buf: string, i: nat, s: Scan)
    requires i <= |buf| && s.state in {PartInfoStart, PartInfo_rn, BoundaryMatch_rn} && OpenLines(buf, i)
    requires s.state != BoundaryMatch_rn ==> s.prev <= i
    ensures Run(s, buf, i).outcome == InCompleted
    decreases |buf| - i
  {
    hide Run, Step;
    if NoControl(buf[i..]) {
      LineOpen(buf, i, s);
    } else {
      var line :| OpenBehind(buf, i, line);
      hide OpenLines, NoControl, At;
      LinePassed(buf, i, line, s);
      var t := s.(state := PartInfo_r, prev := if s.state == BoundaryMatch_rn then i else s.prev);
      if |buf| == i + |line| + 1 {
        RunEnds(t, buf);
      } else {
        LineEnded(buf, i, line, t);
        var u := t.(state := PartInfo_rn);
        if buf[i + |line| + 2..] == "\r" {
          BlankOpen(buf, i + |line| + 2, u);
        } else {
          LinesOpen(buf, i + |line| + 2, u);
        }
      }
    }
  }

  lemma LinePassed(buf: string, i: nat, line: string, s: Scan)
    requires s.state in {PartInfoStart, PartInfo_rn, BoundaryMatch_rn} && LineOk(line) && At(buf, i, line + "\r")
    ensures i + |line| + 1 <= |buf|
    ensures Run(s, buf, i)
         == Run(s.(state := PartInfo_r, prev := if s.state == BoundaryMatch_rn then i else s.prev), buf, i + |line| + 1)
  {
    hide Run, Step, At;
    var e := i + |line|;
    AtSplit(buf, i, line, "\r");
    AtChar(buf, e, "\r", 0);
    AtChar(buf, i, line, 0);
    FirstOfLine(buf, i, s);
    var t := s.(state := PartInfoStart, prev := if s.state == BoundaryMatch_rn then i else s.prev);
    PassLine(buf, i, line, t);
    StepInfoStart(t, buf, e);
    StepsTo(t, buf, e, t.(state := PartInfo_r));
  }

  lemma LineEnded(buf: string, i: nat, line: string, s: Scan)
    requires s.state == PartInfo_r && At(buf, i, line + "\r\n")
    ensures i + |line| + 2 <= |buf| && Run(s, buf, i + |line| + 1) == Run(s.(state := PartInfo_rn), buf, i + |line| + 2)
  {
    hide Run, Step, At;
    AtSplit(buf, i, line, "\r\n");
    AtBreak(buf, i + |line|);
    StepInfoR(s, buf, i + |line| + 1);
    StepsTo(s, buf, i + |line| + 1, s.(state := PartInfo_rn));
  }

  lemma BlankOpen(buf: string, i: nat, s: Scan)
    requires s.state == PartInfo_rn && i <= |buf| && buf[i..] == "\r" && s.prev + 2 <= i
    ensures Run(s, buf, i).outcome == InCompleted
  {
    assert buf[i] == buf[i..][0] && i + 1 == |buf|;
  }

  lemma LinesOne(line: string)
    ensures Lines([line]) == line
  {
  }

  lemma LinesMore(line: string, info: seq<string>)
    requires info != []
    ensures Lines([line] + info) == line + "\r\n" + Lines(info)
  {
    assert ([line] + info)[1..] == info;
  }

  /** A line from i on that is ended by a '\r'. */
  lemma FindLine(buf: string, i: nat, s: Scan) returns (e: nat)
    requires i < |buf| && !Control(buf[i]) && s.state == PartInfoStart && Run(s, buf, i).outcome != Error
    ensures i < e <= |buf| && NoControl(buf[i..e])
    ensures e < |buf| ==> buf[e] == '\r' && Run(s, buf, i) == Run(s.(state := PartInfo_r), buf, e + 1)
  {
    hide Run, Step;
    e := LeavesOrEnds(s, buf, i);
    StepInfoStart(s, buf, i);
    forall k | i <= k < e ensures !Control(buf[k]) {
      StepInfoStart(s, buf, k);
    }
    if e < |buf| {
      StepInfoStart(s, buf, e);
      if buf[e] != '\r' {
        RunStops(s, buf, e);
      } else {
        StepsTo(s, buf, e, s.(state := PartInfo_r));
      }
    }
  }

  /** Lines to their blank line, or to the end of the buffer. */
  lemma {:induction false} FindLines(buf: string, i: nat, s: Scan) returns (open: bool, info: seq<string>)
    requires i < |buf| && !Control(buf[i]) && s.state == PartInfoStart && s.prev <= i && Run(s, buf, i).outcome != Error
    ensures open ==> OpenLines(buf, i)
    ensures !open ==> InfoOk(info) && At(buf, i, Lines(info) + "\r\n\r\n")
    decreases |buf| - i, 1
  {
    hide Run, Step, OpenLines, OpenBehind;
    var e := FindLine(buf, i, s);
    var line := buf[i..e];
    open, info := true, [line];
    assert LineOk(line);
    hide NoControl;
    if e == |buf| {
      assert buf[i..] == line;
      LineLeft(buf, i);
    } else {
      assert At(buf, i, line + "\r");
      var r := s.(state := PartInfo_r);
      if e + 1 == |buf| {
        LineEndLeft(buf, i, line);
      } else {
        StepInfoR(r, buf, e + 1);
        if buf[e + 1] != '\n' {
          RunStops(r, buf, e + 1);
          assert false;
        }
        assert At(buf, i, line + "\r\n");
        StepsTo(r, buf, e + 1, s.(state := PartInfo_rn));
        open, info := FindMore(buf, i, line, s.(state := PartInfo_rn));
      }
    }
  }

  lemma LineLeft(buf: string, i: nat)
    requires i <= |buf| && NoControl(buf[i..])
    ensures OpenLines(buf, i)
  {
  }

  lemma LineEndLeft(buf: string, i: nat, line: string)
    requires LineOk(line) && At(buf, i, line + "\r") && |buf| == i + |line| + 1
    ensures OpenLines(buf, i)
  {
    assert OpenBehind(buf, i, line);
  }

  lemma MoreLeft(buf: string, i: nat, line: string)
    requires LineOk(line) && At(buf, i, line + "\r") && At(buf, i, line + "\r\n")
    requires buf[i + |line| + 2..] == "\r" || OpenLines(buf, i + |line| + 2)
    ensures OpenLines(buf, i)
  {
    assert OpenBehind(buf, i, line);
  }

  lemma EmptyLeft(buf: string)
    ensures OpenLines(buf, |buf|)
  {
  }

  /** Behind a line: the blank line, or another line. */
  lemma {:induction false} FindMore(buf: string, i: nat, line: string, s: Scan) returns (open: bool, info: seq<string>)
    requires LineOk(line) && At(buf, i, line + "\r\n") && s.state == PartInfo_rn && s.prev <= i
    requires i + |line| + 2 <= |buf| && Run(s, buf, i + |line| + 2).outcome != Error
    ensures open ==> OpenLines(buf, i)
    ensures !open ==> InfoOk(info) && At(buf, i, Lines(info) + "\r\n\r\n")
    decreases |buf| - i, 0
  {
    hide Run, Step, OpenLines, OpenBehind;
    var j := i + |line| + 2;
    open, info := true, [line];
    LineCut(buf, i, line);
    if j == |buf| {
      EmptyLeft(buf);
      MoreLeft(buf, i, line);
    } else if buf[j] == '\r' {
      if j + 1 == |buf| {
        assert buf[j..] == "\r";
        MoreLeft(buf, i, line);
      } else {
        BlankEnds(buf, j, s);
        open := false;
        LinesOne(line);
        assert At(buf, j, "\r\n");
        LastLine(buf, i, line);
      }
    } else {
      BlankOrLine(buf, j, s);
      var more;
      open, more := FindLines(buf, j, s.(state := PartInfoStart));
      if open {
        MoreLeft(buf, i, line);
      } else {
        info := [line] + more;
        LinesMore(line, more);
        NextLine(buf, i, line, Lines(more));
      }
    }
  }

  lemma LineCut(buf: string, i: nat, line: string)
    requires At(buf, i, line + "\r\n")
    ensures At(buf, i, line + "\r")
  {
    assert line + "\r\n" == (line + "\r") + "\n";
    AtSplit(buf, i, line + "\r", "\n");
  }

  lemma BlankEnds(buf: string, j: nat, s: Scan)
    requires j + 1 < |buf| && s.state == PartInfo_rn && buf[j] == '\r' && s.prev + 2 <= j
        && Run(s, buf, j).outcome != Error
    ensures buf[j + 1] == '\n'
  {
  }

  lemma BlankOrLine(buf: string, j: nat, s: Scan)
    requires j < |buf| && s.state == PartInfo_rn && buf[j] != '\r' && Run(s, buf, j).outcome != Error
    ensures !Control(buf[j]) && Run(s, buf, j) == Run(s.(state := PartInfoStart), buf, j)
  {
  }

  lemma LastLine(buf: string, i: nat, line: string)
    requires At(buf, i, line + "\r\n") && At(buf, i + |line| + 2, "\r\n")
    ensures At(buf, i, line + "\r\n\r\n")
  {
    assert (line + "\r\n") + "\r\n" == line + "\r\n\r\n";
  }

  lemma NextLine(buf: string, i: nat, line: string, more: string)
    requires At(buf, i, line + "\r\n") && At(buf, i + |line| + 2, more + "\r\n\r\n")
    ensures At(buf, i, (line + "\r\n" + more) + "\r\n\r\n")
  {
    assert (line + "\r\n" + more) + "\r\n\r\n" == (line + "\r\n") + (more + "\r\n\r\n");
  }

  /** A part's headers behind a delimiter. */
  lemma FindInfo(buf: string, at: nat, s: Scan) returns (open: bool, info: seq<string>)
    requires at < |buf| && buf[at] == '\r' && s.state == BoundaryMatch_r && Run(s, buf, at + 1).outcome != Error
    ensures open ==> OpenInfo(buf, at)
    ensures !open ==> HasInfo(buf, at, info)
  {
    hide Run, Step, OpenLines, OpenBehind, InfoOk, NoControl;
    open, info := true, [];
    if at + 1 == |buf| {
      assert buf[at..] == "\r";
    } else {
      BreakBehind(buf, at, s);
      var t := s.(state := BoundaryMatch_rn);
      if at + 2 == |buf| {
        EmptyLeft(buf);
      } else {
        LineBegins(buf, at + 2, t);
        open, info := FindLines(buf, at + 2, t.(state := PartInfoStart, prev := at + 2));
      }
    }
  }

  lemma BreakBehind(buf: string, at: nat, s: Scan)
    requires at + 1 < |buf| && buf[at] == '\r' && s.state == BoundaryMatch_r && Run(s, buf, at + 1).outcome != Error
    ensures At(buf, at, "\r\n") && Run(s, buf, at + 1) == Run(s.(state := BoundaryMatch_rn), buf, at + 2)
  {
    assert buf[at + 1] == '\n';
  }

  lemma LineBegins(buf: string, i: nat, s: Scan)
    requires i < |buf| && s.state == BoundaryMatch_rn && Run(s, buf, i).outcome != Error
    ensures !Control(buf[i]) && Run(s, buf, i) == Run(s.(state := PartInfoStart, prev := i), buf, i)
  {
  }

  /** Headers that break off. */
  lemma InfoOpen(buf: string, at: nat, s: Scan)
    requires OpenInfo(buf, at) && buf[at] == '\r' && s.state == BoundaryMatch_r
    ensures Run(s, buf, at + 1).outcome == InCompleted
  {
    hide Run, Step, OpenLines, OpenBehind;
    if buf[at..] == "\r" {
      RunEnds(s, buf);
    } else {
      AtBreak(buf, at);
      StepBetween(s, buf, at + 1);
      LinesOpen(buf, at + 2, s.(state := BoundaryMatch_rn));
    }
  }

  // ---------------------------------------------------------------- data

  /** The loop passes over data in which nothing ends it. */
  lemma PassQuiet(s: Scan, buf: string, p: nat, e: nat, boundary: string)
    requires DataScan(s, buf, p, boundary) && p < e <= |buf| && Quiet(buf, p, e, boundary)
    ensures Run(s, buf, p) == Run(s.(state := PartBodyStart, prev := p), buf, e)
  {
    hide Run, Step, EndBody, AtBoundary;
    EnterData(s, buf, p);
    var t := s.(state := PartBodyStart, prev := p);
    forall k | p + 1 <= k < e ensures Step(t, buf, k) == Go(t) {
      StepInBody(t, buf, k);
      if buf[k] == '\r' {
        EndBodyCases(t, buf, k, boundary);
      }
    }
    RunOver(t, buf, p + 1, e);
  }

  /** Where the data ends, if it does. */
  lemma FindEnd(s: Scan, buf: string, p: nat, boundary: string) returns (e: nat, last: bool)
    requires DataScan(s, buf, p, boundary)
    ensures p <= e <= |buf| && Quiet(buf, p, e, boundary)
    ensures e < |buf| ==> Delimits(buf, p, e, boundary, last)
  {
    hide Run, Step, EndBody, AtBoundary;
    last := false;
    e := p;
    if p < |buf| {
      var t := s.(state := PartBodyStart, prev := p);
      e := LeavesOrEnds(t, buf, p + 1);
      forall k | p < k < e && buf[k] == '\r'
        ensures !AtBoundary(buf, k, boundary) && !AtBoundary(buf, k, boundary + "--")
      {
        StepInBody(t, buf, k);
        EndBodyCases(t, buf, k, boundary);
      }
      if e < |buf| {
        StepInBody(t, buf, e);
        assert buf[e] == '\r';
        EndBodyCases(t, buf, e, boundary);
        last := !AtBoundary(buf, e, boundary);
      }
    }
  }

  /** At its end the part is closed, or it is too short. */
  lemma EndsPart(s: Scan, buf: string, p: nat, e: nat, boundary: string, last: bool)
    requires DataScan(s, buf, p, boundary) && Delimits(buf, p, e, boundary, last)
    ensures var t := s.(state := PartBodyStart, prev := p);
            var size := DelimiterSize(boundary, last);
            var state := if last then LastBoundaryMatch else BoundaryMatch_r;
            if e < p + size then Run(s, buf, p).outcome == Fault
            else Run(s, buf, p) == Run(Close(t, state, e - size), buf, e + 1)
  {
    hide Run, Step, EndBody, AtBoundary;
    PassQuiet(s, buf, p, e, boundary);
    var t := s.(state := PartBodyStart, prev := p);
    EndBodyCases(t, buf, e, boundary);
    StepInBody(t, buf, e);
    if e < p + DelimiterSize(boundary, last) {
      RunStops(t, buf, e);
    } else {
      StepsTo(t, buf, e,
              Close(t, if last then LastBoundaryMatch else BoundaryMatch_r, e - DelimiterSize(boundary, last)));
    }
  }

  // ---------------------------------------------------------------- parts

  /** The scan behind a closed part. */
  function PartClosed(s: Scan, at: nat, boundary: string, info: seq<string>, e: nat, last: bool): Scan
    requires DelimiterSize(boundary, last) <= e
  {
    Scan(if last then LastBoundaryMatch else BoundaryMatch_r, DataStart(info, at), s.remaining,
         s.req.(parts := s.req.parts + [PartOf(at, boundary, info, e, last)]))
  }

  lemma ReadClosed(s: Scan, buf: string, at: nat, boundary: string, info: seq<string>, e: nat, last: bool)
    requires Between(s, buf, at, boundary) && ClosedPart(buf, at, boundary, info, e, last)
    ensures at < e < |buf| && buf[e] == '\r'
    ensures Run(s, buf, at + 1) == Run(PartClosed(s, at, boundary, info, e, last), buf, e + 1)
    ensures !last ==> Between(PartClosed(s, at, boundary, info, e, last), buf, e, boundary)
  {
    hide Run, Step, At, Lines, AtBoundary, Quiet, InfoOk, Text;
    ReadPartHead(s, buf, at, boundary, info);
    var t := InfoScan(s, InfoAt(at), info);
    EndsPart(t, buf, DataStart(info, at), e, boundary, last);
    CloseIs(s, at, boundary, info, e, last);
  }

  lemma CloseIs(s: Scan, at: nat, boundary: string, info: seq<string>, e: nat, last: bool)
    requires DataStart(info, at) + DelimiterSize(boundary, last) <= e
    ensures var t := InfoScan(s, InfoAt(at), info).(state := PartBodyStart, prev := DataStart(info, at));
            Close(t, if last then LastBoundaryMatch else BoundaryMatch_r, e - DelimiterSize(boundary, last))
            == PartClosed(s, at, boundary, info, e, last)
  {
    var open := s.req.parts + [Part(View(InfoAt(at), InfoAt(at) + |Lines(info)|), NO_VIEW)];
    assert open[..|open| - 1] == s.req.parts;
  }

  lemma {:induction false} PartsOpen(s: Scan, buf: string, at: nat, boundary: string)
    requires Between(s, buf, at, boundary) && at < |buf| && buf[at] == '\r' && OpenParts(buf, at, boundary)
    ensures Run(s, buf, at + 1).outcome == InCompleted
    decreases |buf| - at
  {
    hide Run, Step, OpenInfo, ClosedPart, OpenData, Between;
    if OpenInfo(buf, at) {
      StateBetween(s, buf, at, boundary);
      InfoOpen(buf, at, s);
    } else if info :| OpenData(buf, at, boundary, info) {
      DataOpen(s, buf, at, boundary, info);
    } else if info, e: nat :| ClosedPart(buf, at, boundary, info, e, true) && |buf| == e + 1 {
      ClosedFits(buf, at, boundary, info, e, true);
      ReadClosed(s, buf, at, boundary, info, e, true);
      RunEnds(PartClosed(s, at, boundary, info, e, true), buf);
    } else {
      var info, e: nat :| ClosedPart(buf, at, boundary, info, e, false) && OpenParts(buf, e, boundary);
      ClosedFits(buf, at, boundary, info, e, false);
      ReadClosed(s, buf, at, boundary, info, e, false);
      PartsOpen(PartClosed(s, at, boundary, info, e, false), buf, e, boundary);
    }
  }

  lemma StateBetween(s: Scan, buf: string, at: nat, boundary: string)
    requires Between(s, buf, at, boundary)
    ensures s.state == BoundaryMatch_r
  {
  }

  lemma ClosedFits(buf: string, at: nat, boundary: string, info: seq<string>, e: nat, last: bool)
    requires ClosedPart(buf, at, boundary, info, e, last)
    ensures at < e < |buf| && DelimiterSize(boundary, last) <= e
  {
  }

  lemma DataOpen(s: Scan, buf: string, at: nat, boundary: string, info: seq<string>)
    requires Between(s, buf, at, boundary) && OpenData(buf, at, boundary, info)
    ensures Run(s, buf, at + 1).outcome == InCompleted
  {
    hide Run, Step, At, Lines, Quiet, InfoOk, Text;
    ReadPartHead(s, buf, at, boundary, info);
    var t := InfoScan(s, InfoAt(at), info);
    var p := DataStart(info, at);
    if p == |buf| {
      RunEnds(t, buf);
    } else {
      PassQuiet(t, buf, p, |buf|, boundary);
      RunEnds(t.(state := PartBodyStart, prev := p), buf);
    }
  }

  lemma {:induction false} PartsFault(s: Scan, buf: string, at: nat, boundary: string)
    requires Between(s, buf, at, boundary) && at <= |buf| && FaultyParts(buf, at, boundary)
    ensures at < |buf| && Run(s, buf, at + 1).outcome == Fault
    decreases |buf| - at
  {
    hide Run, Step, ClosedPart, ShortPart, Between;
    if info, e: nat, last :| ShortPart(buf, at, boundary, info, e, last) {
      PartShort(s, buf, at, boundary, info, e, last);
    } else {
      var info, e: nat :| ClosedPart(buf, at, boundary, info, e, false) && FaultyParts(buf, e, boundary);
      ClosedFits(buf, at, boundary, info, e, false);
      ReadClosed(s, buf, at, boundary, info, e, false);
      PartsFault(PartClosed(s, at, boundary, info, e, false), buf, e, boundary);
    }
  }

  lemma PartShort(s: Scan, buf: string, at: nat, boundary: string, info: seq<string>, e: nat, last: bool)
    requires Between(s, buf, at, boundary) && ShortPart(buf, at, boundary, info, e, last)
    ensures at < |buf| && Run(s, buf, at + 1).outcome == Fault
  {
    hide Run, Step, At, Lines, AtBoundary, Quiet, InfoOk, Text;
    ReadPartHead(s, buf, at, boundary, info);
    EndsPart(InfoScan(s, InfoAt(at), info), buf, DataStart(info, at), e, boundary, last);
  }

  /** A complete body is recorded part by part. */
  lemma {:induction false} PartsComplete(s: Scan, buf: string, at: nat, boundary: string, parts: seq<Part>)
    requires Between(s, buf, at, boundary) && at < |buf| && CompleteParts(buf, at, boundary, parts)
    ensures Run(s, buf, at + 1).outcome == Completed && Run(s, buf, at + 1).state == LastBoundaryMatch
    ensures Run(s, buf, at + 1).req == s.req.(parts := s.req.parts + parts)
    decreases |parts|
  {
    hide Run, Step, ClosedPart, Between, At, PartOf;
    if |parts| == 1 {
      var info, e: nat :| LastPart(buf, at, boundary, info, e, parts[0]);
      ClosedFits(buf, at, boundary, info, e, true);
      ReadClosed(s, buf, at, boundary, info, e, true);
      AtBreak(buf, e);
      ReadLast(PartClosed(s, at, boundary, info, e, true), buf, e + 1);
      assert parts == [parts[0]];
    } else {
      var info, e: nat :| InnerPart(buf, at, boundary, info, e, parts[0])
        && CompleteParts(buf, e, boundary, parts[1..]);
      ClosedFits(buf, at, boundary, info, e, false);
      ReadClosed(s, buf, at, boundary, info, e, false);
      PartsComplete(PartClosed(s, at, boundary, info, e, false), buf, e, boundary, parts[1..]);
      assert (s.req.parts + [parts[0]]) + parts[1..] == s.req.parts + parts;
    }
  }

  /** What the body is said to be. */
  ghost predicate PartsAre(buf: string, at: nat, boundary: string, outcome: Outcome, parts: seq<Part>)
  {
    match outcome
    case Completed => CompleteParts(buf, at, boundary, parts)
    case InCompleted => OpenParts(buf, at, boundary)
    case Fault => FaultyParts(buf, at, boundary)
    case Error => true
  }

  /** And nothing else is. */
  lemma {:induction false} FindParts(s: Scan, buf: string, at: nat, boundary: string) returns (parts: seq<Part>)
    requires Between(s, buf, at, boundary) && at < |buf| && buf[at] == '\r'
    ensures PartsAre(buf, at, boundary, Run(s, buf, at + 1).outcome, parts)
    decreases |buf| - at, 1
  {
    hide Run, Step, OpenInfo, ClosedPart, OpenData, ShortPart, Delimits, Quiet, HasInfo, Text, NoControl;
    parts := [];
    var outcome := Run(s, buf, at + 1).outcome;
    if outcome != Error {
      var open, info := FindInfo(buf, at, s);
      if open {
        hide Between;
        InfoOpen(buf, at, s);
      } else {
        InfoRead(s, buf, at, boundary, info);
        var p := DataStart(info, at);
        var e, last := FindEnd(InfoScan(s, InfoAt(at), info), buf, p, boundary);
        hide Between, DataScan;
        if e == |buf| {
          OpenDataIs(buf, at, boundary, info);
          DataOpen(s, buf, at, boundary, info);
        } else {
          parts := FindBehind(s, buf, at, boundary, info, e, last);
        }
      }
    }
  }

  lemma InfoRead(s: Scan, buf: string, at: nat, boundary: string, info: seq<string>)
    requires Between(s, buf, at, boundary) && HasInfo(buf, at, info)
    ensures var p := DataStart(info, at);
            Run(s, buf, at + 1) == Run(InfoScan(s, InfoAt(at), info), buf, p)
            && DataScan(InfoScan(s, InfoAt(at), info), buf, p, boundary)
  {
    hide Run, Lines, At, InfoOk, Text;
    ReadPartHead(s, buf, at, boundary, info);
  }

  lemma OpenDataIs(buf: string, at: nat, boundary: string, info: seq<string>)
    requires HasInfo(buf, at, info) && DataStart(info, at) <= |buf| && Quiet(buf, DataStart(info, at), |buf|, boundary)
    ensures OpenData(buf, at, boundary, info)
  {
  }

  /** Behind a part's data. */
  lemma {:induction false} FindBehind(s: Scan, buf: string, at: nat, boundary: string, info: seq<string>, e: nat,
                                      last: bool)
    returns (parts: seq<Part>)
    requires Between(s, buf, at, boundary) && HasInfo(buf, at, info) && at < |buf|
    requires Delimits(buf, DataStart(info, at), e, boundary, last)
    ensures PartsAre(buf, at, boundary, Run(s, buf, at + 1).outcome, parts)
    decreases |buf| - at, 0
  {
    hide Run, Step, HasInfo, AtBoundary, Quiet, OpenInfo, OpenData;
    parts := [];
    if e < DataStart(info, at) + DelimiterSize(boundary, last) {
      assert ShortPart(buf, at, boundary, info, e, last);
      hide Delimits, Between, ShortPart;
      PartShort(s, buf, at, boundary, info, e, last);
    } else {
      assert ClosedPart(buf, at, boundary, info, e, last);
      hide Delimits, ClosedPart, ShortPart;
      ReadClosed(s, buf, at, boundary, info, e, last);
      hide Between;
      var part := PartOf(at, boundary, info, e, last);
      if last {
        parts := [part];
        LastBehind(s, buf, at, boundary, info, e);
      } else {
        var more := FindParts(PartClosed(s, at, boundary, info, e, false), buf, e, boundary);
        parts := [part] + more;
        InnerBehind(buf, at, boundary, info, e, Run(s, buf, at + 1).outcome, more);
      }
    }
  }

  lemma LastBehind(s: Scan, buf: string, at: nat, boundary: string, info: seq<string>, e: nat)
    requires Between(s, buf, at, boundary) && ClosedPart(buf, at, boundary, info, e, true) && at < |buf|
    ensures PartsAre(buf, at, boundary, Run(s, buf, at + 1).outcome, [PartOf(at, boundary, info, e, true)])
  {
    hide Run, Step, OpenInfo, OpenData, At, ShortPart;
    ReadClosed(s, buf, at, boundary, info, e, true);
    hide ClosedPart, Between;
    var t := PartClosed(s, at, boundary, info, e, true);
    if e + 1 == |buf| {
      RunEnds(t, buf);
    } else {
      LastEnds(t, buf, e);
      if buf[e + 1] == '\n' {
        IsBreak(buf, e);
        var parts := [PartOf(at, boundary, info, e, true)];
        assert LastPart(buf, at, boundary, info, e, parts[0]);
      }
    }
  }

  lemma LastEnds(s: Scan, buf: string, e: nat)
    requires e + 1 < |buf| && s.state == LastBoundaryMatch
    ensures Run(s, buf, e + 1).outcome == if buf[e + 1] == '\n' then Completed else Error
  {
  }

  lemma InnerBehind(buf: string, at: nat, boundary: string, info: seq<string>, e: nat, outcome: Outcome,
                    more: seq<Part>)
    requires ClosedPart(buf, at, boundary, info, e, false) && at < e < |buf|
        && PartsAre(buf, e, boundary, outcome, more)
    requires DelimiterSize(boundary, false) <= e
    ensures PartsAre(buf, at, boundary, outcome, [PartOf(at, boundary, info, e, false)] + more)
  {
    hide ClosedPart, OpenInfo, OpenData, ShortPart, LastPart;
    if outcome == Completed {
      var parts := [PartOf(at, boundary, info, e, false)] + more;
      assert more != [];
      assert parts[1..] == more && |parts| > 1;
      assert InnerPart(buf, at, boundary, info, e, parts[0]);
      hide InnerPart, PartOf;
    }
  }
}
