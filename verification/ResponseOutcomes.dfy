/** What the response parser says of every buffer: complete, incomplete, rejected, thrown, or without a meaning. */
module ResponseOutcomes {
  import opened Options
  import opened HttpText
  import opened HttpHeaders
  import opened ResponseMachine
  import opened ResponseGrammar
  import opened ResponseLanguage
  import opened ResponseStability
  import opened ChunkedBody

  // ---------------------------------------------------------------- status lines that break off, or have no meaning

  ghost predicate OpenReason(buf: string, i: nat)
  {
    i <= |buf|
    && (NoControl(buf[i..])
        || exists reason :: ReasonOk(reason) && At(buf, i, reason + "\r") && |buf| == i + |reason| + 1)
  }

  ghost predicate OpenCode(buf: string, i: nat)
  {
    i <= |buf|
    && (AllDigits(buf[i..]) || exists code :: CodeOk(code) && At(buf, i, code + " ") && OpenReason(buf, i + |code| + 1))
  }

  ghost predicate OpenVersion(buf: string, i: nat)
  {
    i <= |buf|
    && (buf[i..] == "" || VersionOk(buf[i..])
        || exists version :: VersionOk(version) && At(buf, i, version + " ") && OpenCode(buf, i + |version| + 1))
  }

  ghost predicate OpenStatus(buf: string)
  {
    buf in {"", "H", "HT", "HTT", "HTTP"} || (At(buf, 0, "HTTP/") && OpenVersion(buf, 5))
  }

  /** A code that is no int. */
  ghost predicate FaultyCode(buf: string, version: string, code: string)
  {
    && At(buf, 0, "HTTP/") && VersionOk(version) && At(buf, 5, version + " ")
    && |code| >= 1 && AllDigits(code) && Decimal(code) > INT_MAX && At(buf, |version| + 6, code + " ")
  }

  // ---------------------------------------------------------------- headers that break off, or have no meaning

  /** A status line, what stands between it and the headers, and headers, as far as at. */
  ghost predicate UpTo(buf: string, h: Head, facts: Facts, at: nat)
  {
    && HeadOk(h) && At(buf, 0, PrintLine(h)) && At(buf, |PrintLine(h)|, h.junk)
    && At(buf, FieldsStart(h), PrintFields(h.fields)) && at == FieldsStart(h) + |PrintFields(h.fields)| <= |buf|
    && LearnAll(NO_FACTS, h.fields, buf, FieldsStart(h)) == Some(facts)
  }

  /** The first header begins with a letter or digit. */
  predicate MayStart(buf: string, h: Head, at: nat)
  {
    at < |buf| && (h.fields == [] ==> IsAlnum(buf[at]))
  }

  ghost predicate OpenValue(buf: string, v: nat, space: bool)
  {
    v < |buf| && NoControl(buf[v..]) && (!space ==> buf[v] != ' ')
  }

  /** What is behind the ':' of a header that breaks off. */
  ghost predicate OpenNamed(buf: string, v: nat)
  {
    v <= |buf|
    && (v == |buf| || buf[v..] == " " || OpenValue(buf, v, false) || (buf[v] == ' ' && OpenValue(buf, v + 1, true)))
  }

  /** A header that breaks off in its name, at its ':' or in its value. */
  ghost predicate OpenName(buf: string, at: nat)
  {
    at < |buf|
    && (NameOk(buf[at..]) || exists name :: NameOk(name) && At(buf, at, name + ":") && OpenNamed(buf, at + |name| + 1))
  }

  /** A header that is all there but for the '\n' at its end. */
  ghost predicate AllButEnd(buf: string, at: nat, f: Field)
  {
    FieldOk(f) && At(buf, at, f.name + ":") && At(buf, at + |f.name| + 1, PrintValue(f) + "\r")
  }

  ghost predicate OpenField(buf: string, at: nat, facts: Facts)
  {
    || OpenName(buf, at)
    || exists f, more :: AllButEnd(buf, at, f) && |buf| == ValueAt(f, at) + |f.value| + 1
         && Learn(facts, f, buf, ValueAt(f, at)) == Some(more)
  }

  /** A length that is no int, or that atoi reads beyond the buffer for. */
  ghost predicate FaultyField(buf: string, at: nat, facts: Facts)
  {
    exists f :: AllButEnd(buf, at, f) && ValueAt(f, at) <= |buf| && Learn(facts, f, buf, ValueAt(f, at)) == None
  }

  ghost predicate OpenHead(buf: string, h: Head, facts: Facts, at: nat)
  {
    UpTo(buf, h, facts, at) && (buf[at..] in {"", "\r"} || (MayStart(buf, h, at) && OpenField(buf, at, facts)))
  }

  ghost predicate FaultyHead(buf: string, h: Head, facts: Facts, at: nat)
  {
    UpTo(buf, h, facts, at) && MayStart(buf, h, at) && FaultyField(buf, at, facts)
  }

  // ---------------------------------------------------------------- bodies

  /** A chunk that breaks off, but not in its data. */
  ghost predicate OpenChunk(buf: string, i: nat)
  {
    i <= |buf|
    && (AllHex(buf[i..])
        || exists size :: SizeOk(size) && At(buf, i, size + "\r") && OpenBehind(buf, i + |size| + 1, Hex(size)))
  }

  /** Behind the '\r' of a size: nothing, the '\n' alone, or all the data and a '\r'. */
  ghost predicate OpenBehind(buf: string, e: nat, size: nat)
  {
    || |buf| == e
    || (size > 0 && e < |buf| && buf[e] == '\n'
        && (|buf| == e + 1 || (|buf| == e + 1 + size + 1 && buf[e + 1 + size] == '\r')))
  }

  /** A size that is no int. */
  ghost predicate LargeChunk(buf: string, i: nat)
  {
    exists size :: |size| >= 1 && AllHex(size) && Hex(size) > INT_MAX && At(buf, i, size + "\r")
  }

  /** Chunks as far as at. */
  ghost predicate ChunksUpTo(buf: string, n: nat, chunks: seq<ChunkText>, at: nat)
  {
    ChunksOk(chunks) && At(buf, n, PrintSome(chunks)) && at == n + |PrintSome(chunks)| <= |buf|
  }

  ghost predicate OpenChunks(buf: string, n: nat)
  {
    exists chunks, at :: ChunksUpTo(buf, n, chunks, at) && OpenChunk(buf, at)
  }

  ghost predicate LargeChunks(buf: string, n: nat)
  {
    exists chunks, at :: ChunksUpTo(buf, n, chunks, at) && LargeChunk(buf, at)
  }

  // ---------------------------------------------------------------- whole responses

  ghost predicate CompleteResponse(buf: string, h: Head, facts: Facts)
  {
    Begins(buf, h, facts) && BodyFollows(buf, h, facts)
  }

  ghost predicate OpenResponse(buf: string, h: Head, facts: Facts)
  {
    Begins(buf, h, facts) && h.fields != []
    && (|buf| == |PrintHead(h)| || (facts.isChunked && OpenChunks(buf, |PrintHead(h)|)))
  }

  /** Content that is not all there, or whose length is negative. */
  ghost predicate FaultyResponse(buf: string, h: Head, facts: Facts)
  {
    Begins(buf, h, facts) && h.fields != [] && !facts.isChunked && |PrintHead(h)| < |buf|
    && !(0 <= facts.length <= |buf| - |PrintHead(h)|)
  }

  ghost predicate LargeResponse(buf: string, h: Head, facts: Facts)
  {
    Begins(buf, h, facts) && h.fields != [] && facts.isChunked && LargeChunks(buf, |PrintHead(h)|)
  }

  ghost predicate CompleteText(buf: string)
  {
    exists h, facts :: CompleteResponse(buf, h, facts)
  }

  ghost predicate OpenText(buf: string)
  {
    || OpenStatus(buf)
    || (exists h, facts, at :: OpenHead(buf, h, facts, at))
    || (exists h, facts :: OpenResponse(buf, h, facts))
  }

  ghost predicate FaultyText(buf: string)
  {
    || (exists version, code :: FaultyCode(buf, version, code))
    || (exists h, facts, at :: FaultyHead(buf, h, facts, at))
    || (exists h, facts :: FaultyResponse(buf, h, facts))
  }

  ghost predicate LargeText(buf: string)
  {
    exists h, facts :: LargeResponse(buf, h, facts)
  }

  // ---------------------------------------------------------------- the end of the buffer

  lemma {:induction false} LeavesOrEnds(s: Scan, buf: string, i: nat) returns (e: nat)
    requires i <= |buf|
    ensures i <= e <= |buf| && (e < |buf| ==> Step(s, buf, e) != Go(s, e + 1))
    ensures forall k :: i <= k < e ==> Step(s, buf, k) == Go(s, k + 1)
    ensures Run(s, buf, e) == Run(s, buf, i)
    decreases |buf| - i
  {
    hide Step;
    e := i;
    if i < |buf| && Step(s, buf, i) == Go(s, i + 1) {
      e := LeavesOrEnds(s, buf, i + 1);
    }
  }

  lemma RunEnds(s: Scan, buf: string)
    ensures Run(s, buf, |buf|) == Parsed(InCompleted, s.state, s.res, |buf|)
  {
  }

  lemma RunStops(s: Scan, buf: string, i: nat)
    requires i < |buf| && Step(s, buf, i).Stop?
    ensures Run(s, buf, i).outcome == Step(s, buf, i).outcome
  {
    hide Step;
  }

  /** A step that fails rejects. */
  lemma NoFail(s: Scan, buf: string, i: nat)
    requires i < |buf| && Run(s, buf, i).outcome != Error
    ensures Step(s, buf, i) != Fail(s)
  {
    hide Step;
  }

  // ---------------------------------------------------------------- the status line

  function ProtocolState(k: nat): State
    requires k <= 5
  {
    if k == 0 then StatusStart else if k == 1 then StatusStart_h else if k == 2 then StatusStart_ht
    else if k == 3 then StatusStart_htt else if k == 4 then StatusStart_http else HttpEnd
  }

  lemma StepProtocol(s: Scan, buf: string, k: nat)
    requires k < 5 && k < |buf| && s.state == ProtocolState(k)
    ensures Step(s, buf, k)
         == if buf[k] == "HTTP/"[k] then Go(s.(state := ProtocolState(k + 1)), k + 1) else Fail(s)
  {
  }

  lemma StepVersion(s: Scan, buf: string, i: nat)
    requires i < |buf| && s.state in {HttpEnd, VersionStart}
    ensures Step(s, buf, i)
         == if s.state == HttpEnd then
              if IsDigit(buf[i]) then Go(s.(state := VersionStart, prev := i), i + 1) else Fail(s)
            else if IsDigit(buf[i]) || buf[i] == '.' then Go(s, i + 1)
            else if buf[i] == ' ' then Go(s.(state := VersionEnd, res := s.res.(version := View(s.prev, i))), i + 1)
            else Fail(s)
  {
  }

  lemma StepCode(s: Scan, buf: string, i: nat)
    requires i < |buf| && s.state in {VersionEnd, StatusCodeStart}
    ensures Step(s, buf, i)
         == if s.state == VersionEnd then
              if IsDigit(buf[i]) then Go(s.(state := StatusCodeStart, prev := i), i + 1) else Fail(s)
            else if IsDigit(buf[i]) then Go(s, i + 1)
            else if buf[i] == ' ' then EndCode(s, buf, i) else Fail(s)
  {
    hide EndCode;
  }

  lemma StepReason(s: Scan, buf: string, i: nat)
    requires i < |buf| && s.state in {StatusCodeEnd, StatusMsgStart, StatusMsg}
    ensures Step(s, buf, i)
         == if s.state == StatusMsg && buf[i] == '\r'
            then Go(s.(state := StatusMsgEnd, res := s.res.(reason := View(s.prev, i))), i + 1)
            else if Control(buf[i]) then Fail(s)
            else if s.state == StatusCodeEnd then Go(s.(state := StatusMsgStart, prev := i), i + 1)
            else if s.state == StatusMsgStart then Go(s.(state := StatusMsg), i + 1)
            else Go(s, i + 1)
  {
  }

  /** A reason up to its end, however short. */
  lemma ReasonPasses(buf: string, i: nat, reason: string, s: Scan) returns (t: Scan)
    requires s.state == StatusCodeEnd && NoControl(reason) && At(buf, i, reason)
    ensures i + |reason| <= |buf| && Run(s, buf, i) == Run(t, buf, i + |reason|)
    ensures |reason| >= 2 ==> t == s.(state := StatusMsg, prev := i)
  {
    hide Run, Step, At, Control;
    AtText(buf, i, reason);
    t := s;
    if |reason| >= 1 {
      AtChar(buf, i, reason, 0);
      StepReason(s, buf, i);
      t := s.(state := StatusMsgStart, prev := i);
      StepsTo(s, buf, i, t, i + 1);
      if |reason| >= 2 {
        AtChar(buf, i, reason, 1);
        StepReason(t, buf, i + 1);
        var u := s.(state := StatusMsg, prev := i);
        StepsTo(t, buf, i + 1, u, i + 2);
        forall k | i + 2 <= k < i + |reason| ensures Step(u, buf, k) == Go(u, k + 1) {
          AtChar(buf, i, reason, k - i);
          StepReason(u, buf, k);
          NotBreak(reason[k - i]);
        }
        RunOver(u, buf, i + 2, i + |reason|);
        t := u;
      }
    }
  }

  lemma NotBreak(c: char)
    requires !Control(c)
    ensures c != '\r'
  {
  }

  lemma ReasonOpen(buf: string, i: nat, s: Scan)
    requires s.state == StatusCodeEnd && OpenReason(buf, i)
    ensures Run(s, buf, i).outcome == InCompleted
  {
    hide Run, Step, At, NoControl;
    if NoControl(buf[i..]) {
      AtRest(buf, i);
      var t := ReasonPasses(buf, i, buf[i..], s);
      RunEnds(t, buf);
    } else {
      var reason :| ReasonOk(reason) && At(buf, i, reason + "\r") && |buf| == i + |reason| + 1;
      AtSplit(buf, i, reason, "\r");
      var t := ReasonPasses(buf, i, reason, s);
      AtChar(buf, i + |reason|, "\r", 0);
      StepReason(t, buf, i + |reason|);
      var u := t.(state := StatusMsgEnd, res := t.res.(reason := View(t.prev, i + |reason|)));
      StepsTo(t, buf, i + |reason|, u, i + |reason| + 1);
      RunEnds(u, buf);
    }
  }

  lemma CodePasses(buf: string, i: nat, code: string, s: Scan)
    requires s.state == VersionEnd && |code| >= 1 && AllDigits(code) && At(buf, i, code)
    ensures i + |code| <= |buf| && Run(s, buf, i) == Run(s.(state := StatusCodeStart, prev := i), buf, i + |code|)
  {
    hide Run, Step, At, EndCode;
    AtText(buf, i, code);
    AtChar(buf, i, code, 0);
    var t := s.(state := StatusCodeStart, prev := i);
    StepCode(s, buf, i);
    StepsTo(s, buf, i, t, i + 1);
    forall k | i + 1 <= k < i + |code| ensures Step(t, buf, k) == Go(t, k + 1) {
      AtChar(buf, i, code, k - i);
      StepCode(t, buf, k);
    }
    RunOver(t, buf, i + 1, i + |code|);
  }

  lemma CodeOpen(buf: string, i: nat, s: Scan)
    requires s.state == VersionEnd && OpenCode(buf, i)
    ensures Run(s, buf, i).outcome == InCompleted
  {
    hide Run, Step, At, AllDigits, Decimal, OpenReason;
    if buf[i..] == "" {
      RunEnds(s, buf);
    } else if AllDigits(buf[i..]) {
      AtRest(buf, i);
      CodePasses(buf, i, buf[i..], s);
      RunEnds(s.(state := StatusCodeStart, prev := i), buf);
    } else {
      var code :| CodeOk(code) && At(buf, i, code + " ") && OpenReason(buf, i + |code| + 1);
      ReadCode(buf, i, code, s);
      ReasonOpen(buf, i + |code| + 1,
                 s.(state := StatusCodeEnd, prev := i,
                    res := s.res.(codeText := View(i, i + |code|), code := Decimal(code))));
    }
  }

  lemma CodeFaults(buf: string, i: nat, code: string, s: Scan)
    requires s.state == VersionEnd && |code| >= 1 && AllDigits(code) && Decimal(code) > INT_MAX
        && At(buf, i, code + " ")
    ensures i <= |buf| && Run(s, buf, i).outcome == Fault
  {
    hide Run, Step, At, AllDigits, Decimal, Atoi, Text;
    AtSplit(buf, i, code, " ");
    AtText(buf, i, code);
    AtChar(buf, i + |code|, " ", 0);
    CodePasses(buf, i, code, s);
    var t := s.(state := StatusCodeStart, prev := i);
    StepCode(t, buf, i + |code|);
    PlainDecimal(buf, i, code);
    RunStops(t, buf, i + |code|);
  }

  lemma VersionPasses(buf: string, i: nat, version: string, s: Scan)
    requires s.state == HttpEnd && VersionOk(version) && At(buf, i, version)
    ensures i + |version| <= |buf| && Run(s, buf, i) == Run(s.(state := VersionStart, prev := i), buf, i + |version|)
  {
    hide Run, Step, At;
    AtText(buf, i, version);
    AtChar(buf, i, version, 0);
    var t := s.(state := VersionStart, prev := i);
    StepVersion(s, buf, i);
    StepsTo(s, buf, i, t, i + 1);
    forall k | i + 1 <= k < i + |version| ensures Step(t, buf, k) == Go(t, k + 1) {
      AtChar(buf, i, version, k - i);
      StepVersion(t, buf, k);
    }
    RunOver(t, buf, i + 1, i + |version|);
  }

  lemma VersionOpen(buf: string, i: nat, s: Scan)
    requires s.state == HttpEnd && OpenVersion(buf, i)
    ensures Run(s, buf, i).outcome == InCompleted
  {
    hide Run, Step, At, VersionOk, OpenCode;
    if buf[i..] == "" {
      RunEnds(s, buf);
    } else if VersionOk(buf[i..]) {
      AtRest(buf, i);
      VersionPasses(buf, i, buf[i..], s);
      RunEnds(s.(state := VersionStart, prev := i), buf);
    } else {
      var version :| VersionOk(version) && At(buf, i, version + " ") && OpenCode(buf, i + |version| + 1);
      ReadVersion(buf, i, version, s);
      CodeOpen(buf, i + |version| + 1,
               s.(state := VersionEnd, prev := i, res := s.res.(version := View(i, i + |version|))));
    }
  }

  const START := Scan(StatusStart, 0, NO_VIEW, 0, 0, NO_FIELDS)

  /** A status line that breaks off is incomplete. */
  lemma StatusOpen(buf: string)
    requires OpenStatus(buf)
    ensures Parse(NO_FIELDS, buf).outcome == InCompleted
  {
    hide OpenVersion;
    if buf in {"", "H", "HT", "HTT", "HTTP"} {
    } else {
      hide Run, Step, At;
      ReadHttp(buf, START);
      VersionOpen(buf, 5, START.(state := HttpEnd));
    }
  }

  lemma StatusFaults(buf: string, version: string, code: string)
    requires FaultyCode(buf, version, code)
    ensures Parse(NO_FIELDS, buf).outcome == Fault
  {
    hide Run, Step, At, VersionOk, AllDigits, Decimal;
    ReadHttp(buf, START);
    ReadVersion(buf, 5, version, START.(state := HttpEnd));
    CodeFaults(buf, |version| + 6, code,
               START.(state := VersionEnd, prev := 5, res := NO_FIELDS.(version := View(5, 5 + |version|))));
  }

  // ---------------------------------------------------------------- finding the status line

  /** How a piece of a response ends: broken off, without a meaning, or with the line break that belongs there. */
  datatype End = Open | Faulty | Whole

  lemma {:induction false} FindHttp(buf: string, k: nat) returns (open: bool)
    requires k <= 5 && k <= |buf| && buf[..k] == "HTTP/"[..k]
    requires Run(START.(state := ProtocolState(k)), buf, k).outcome != Error
    ensures open ==> |buf| < 5 && buf == "HTTP/"[..|buf|]
    ensures !open ==> At(buf, 0, "HTTP/")
    decreases 5 - k
  {
    hide Run, Step;
    open := k == |buf| < 5;
    if k < 5 && k < |buf| {
      var s := START.(state := ProtocolState(k));
      NoFail(s, buf, k);
      StepProtocol(s, buf, k);
      StepsTo(s, buf, k, s.(state := ProtocolState(k + 1)), k + 1);
      assert buf[..k + 1] == buf[..k] + [buf[k]] == "HTTP/"[..k + 1];
      open := FindHttp(buf, k + 1);
    } else {
      assert buf[..k] == "HTTP/"[..k];
      assert "HTTP/"[..5] == "HTTP/";
    }
  }

  lemma ProtocolCut(buf: string)
    requires |buf| < 5 && buf == "HTTP/"[..|buf|]
    ensures buf in {"", "H", "HT", "HTT", "HTTP"}
  {
    assert "HTTP/"[..0] == "" && "HTTP/"[..1] == "H" && "HTTP/"[..2] == "HT";
    assert "HTTP/"[..3] == "HTT" && "HTTP/"[..4] == "HTTP";
  }

  lemma FindVersion(buf: string, i: nat, s: Scan) returns (open: bool, version: string)
    requires i <= |buf| && s.state == HttpEnd && Run(s, buf, i).outcome != Error
    ensures open ==> OpenVersion(buf, i)
    ensures !open ==> VersionOk(version) && At(buf, i, version + " ")
  {
    hide Run, Step, At, IsDigit, OpenCode;
    open, version := true, "";
    if i < |buf| {
      var t := s.(state := VersionStart, prev := i);
      NoFail(s, buf, i);
      StepVersion(s, buf, i);
      StepsTo(s, buf, i, t, i + 1);
      var e := LeavesOrEnds(t, buf, i + 1);
      version := buf[i..e];
      forall k | i + 1 <= k < e ensures IsDigit(buf[k]) || buf[k] == '.' {
        StepVersion(t, buf, k);
      }
      open := e == |buf|;
      if open {
        assert buf[i..] == version;
      } else {
        NoFail(t, buf, e);
        StepVersion(t, buf, e);
        AtSlice(buf, i, e);
      }
    }
  }

  lemma FindCode(buf: string, i: nat, s: Scan) returns (end: End, code: string)
    requires i <= |buf| && s.state == VersionEnd && Run(s, buf, i).outcome != Error
    ensures end == Open ==> OpenCode(buf, i)
    ensures end != Open ==> |code| >= 1 && AllDigits(code) && At(buf, i, code + " ")
    ensures end == Faulty ==> Decimal(code) > INT_MAX
    ensures end == Whole ==> CodeOk(code)
  {
    hide Run, Step, At, IsDigit, OpenReason, EndCode, Decimal;
    end, code := Open, "";
    if i < |buf| {
      var t := s.(state := StatusCodeStart, prev := i);
      NoFail(s, buf, i);
      StepCode(s, buf, i);
      StepsTo(s, buf, i, t, i + 1);
      var e := LeavesOrEnds(t, buf, i + 1);
      code := buf[i..e];
      forall k | i + 1 <= k < e ensures IsDigit(buf[k]) {
        StepCode(t, buf, k);
        EndCodeMoves(t, buf, k);
      }
      if e == |buf| {
        assert buf[i..] == code;
      } else {
        NoFail(t, buf, e);
        StepCode(t, buf, e);
        AtSlice(buf, i, e);
        end := if Decimal(code) > INT_MAX then Faulty else Whole;
      }
    }
  }

  lemma FindReason(buf: string, i: nat, s: Scan) returns (open: bool, reason: string)
    requires i <= |buf| && s.state == StatusCodeEnd && Run(s, buf, i).outcome != Error
    ensures open ==> OpenReason(buf, i)
    ensures !open ==> ReasonOk(reason) && At(buf, i, reason + "\r\n")
  {
    hide Run, Step, At, Control;
    open, reason := true, "";
    if i < |buf| {
      var t := s.(state := StatusMsgStart, prev := i);
      NoFail(s, buf, i);
      StepReason(s, buf, i);
      StepsTo(s, buf, i, t, i + 1);
      if i + 1 < |buf| {
        var u := s.(state := StatusMsg, prev := i);
        NoFail(t, buf, i + 1);
        StepReason(t, buf, i + 1);
        StepsTo(t, buf, i + 1, u, i + 2);
        open, reason := FindReasonEnd(buf, i, u);
      }
    }
  }

  lemma FindReasonEnd(buf: string, i: nat, s: Scan) returns (open: bool, reason: string)
    requires i + 2 <= |buf| && !Control(buf[i]) && !Control(buf[i + 1])
    requires s.state == StatusMsg && s.prev == i && Run(s, buf, i + 2).outcome != Error
    ensures open ==> OpenReason(buf, i)
    ensures !open ==> ReasonOk(reason) && At(buf, i, reason + "\r\n")
  {
    hide Run, Step, At, Control;
    var e := LeavesOrEnds(s, buf, i + 2);
    reason := buf[i..e];
    forall k | i + 2 <= k < e ensures !Control(buf[k]) {
      StepReason(s, buf, k);
    }
    open := e == |buf|;
    if open {
      assert buf[i..] == reason;
    } else {
      NoFail(s, buf, e);
      StepReason(s, buf, e);
      var t := s.(state := StatusMsgEnd, res := s.res.(reason := View(i, e)));
      StepsTo(s, buf, e, t, e + 1);
      AtSlice(buf, i, e);
      open := e + 1 == |buf|;
      if !open {
        ReasonEnds(t, buf, e + 1);
        IsBreak(buf, e);
        assert At(buf, i, reason) by { AtSplit(buf, i, reason, "\r"); }
        AtJoin(buf, i, reason, "\r\n");
      }
    }
  }

  lemma ReasonEnds(s: Scan, buf: string, i: nat)
    requires i < |buf| && s.state == StatusMsgEnd && Run(s, buf, i).outcome != Error
    ensures buf[i] == '\n'
  {
  }

  /** What follows the version. */
  lemma FindRestOfLine(buf: string, version: string, s: Scan) returns (end: End, h: Head)
    requires At(buf, 0, "HTTP/") && VersionOk(version) && At(buf, 5, version + " ") && |version| + 6 <= |buf|
    requires s.state == VersionEnd && Run(s, buf, |version| + 6).outcome != Error
    ensures end == Open ==> OpenVersion(buf, 5)
    ensures end == Faulty ==> FaultyCode(buf, version, h.code)
    ensures end == Whole ==> VersionOk(h.version) && CodeOk(h.code) && ReasonOk(h.reason)
    ensures end == Whole ==> h.junk == "" && h.fields == [] && At(buf, 0, PrintLine(h))
  {
    hide Run, Step, VersionOk, ReasonOk, At, OpenReason, Decimal, AllDigits;
    var c := |version| + 6;
    var code;
    end, code := FindCode(buf, c, s);
    h := Head(version, code, "", "", []);
    if end == Whole {
      hide OpenCode, OpenVersion;
      ReadCode(buf, c, code, s);
      AtText(buf, c, code + " ");
      var open, reason := FindReason(buf, c + |code| + 1,
                                     s.(state := StatusCodeEnd, prev := c,
                                        res := s.res.(codeText := View(c, c + |code|), code := Decimal(code))));
      if open {
        end := Open;
        ReasonLeft(buf, version, code);
      } else {
        h := Head(version, code, reason, "", []);
        LineJoins(buf, h);
      }
    } else if end == Open {
      hide OpenCode;
    }
  }

  lemma ReasonLeft(buf: string, version: string, code: string)
    requires VersionOk(version) && At(buf, 5, version + " ") && |version| + 6 <= |buf|
    requires CodeOk(code) && At(buf, |version| + 6, code + " ") && OpenReason(buf, |version| + 6 + |code| + 1)
    ensures OpenVersion(buf, 5)
  {
    hide VersionOk, CodeOk, OpenReason, At;
    assert OpenCode(buf, 5 + |version| + 1);
  }

  lemma LineJoins(buf: string, h: Head)
    requires At(buf, 0, "HTTP/") && At(buf, 5, h.version + " ") && At(buf, |h.version| + 6, h.code + " ")
    requires At(buf, |h.version| + 6 + |h.code| + 1, h.reason + "\r\n")
    ensures At(buf, 0, PrintLine(h))
  {
    hide At;
    AtJoin(buf, |h.version| + 6, h.code + " ", h.reason + "\r\n");
    AtJoin(buf, 5, h.version + " ", (h.code + " ") + (h.reason + "\r\n"));
    AtJoin(buf, 0, "HTTP/", (h.version + " ") + ((h.code + " ") + (h.reason + "\r\n")));
  }

  /** The status line of a buffer that is not rejected. */
  lemma FindStatus(buf: string) returns (end: End, version: string, h: Head)
    requires Parse(NO_FIELDS, buf).outcome != Error
    ensures end == Open ==> OpenStatus(buf)
    ensures end == Faulty ==> FaultyCode(buf, version, h.code)
    ensures end == Whole ==> VersionOk(h.version) && CodeOk(h.code) && ReasonOk(h.reason)
    ensures end == Whole ==> h.junk == "" && h.fields == [] && At(buf, 0, PrintLine(h))
  {
    hide Run, Step, VersionOk, ReasonOk, At, OpenVersion, Decimal, AllDigits, FaultyCode, CodeOk, PrintLine;
    end, version, h := Open, "", Head("", "", "", "", []);
    var open := FindHttp(buf, 0);
    if open {
      ProtocolCut(buf);
    } else {
      ReadHttp(buf, START);
      AtText(buf, 0, "HTTP/");
      open, version := FindVersion(buf, 5, START.(state := HttpEnd));
      if !open {
        ReadVersion(buf, 5, version, START.(state := HttpEnd));
        AtText(buf, 5, version + " ");
        end, h := FindRestOfLine(buf, version, START.(state := VersionEnd, prev := 5,
                                                      res := NO_FIELDS.(version := View(5, 5 + |version|))));
      }
    }
  }

  // ---------------------------------------------------------------- headers, read as far as they go

  /** A header may begin here. */
  predicate Starts(s: Scan, buf: string, i: nat)
  {
    BetweenFields(s) && i < |buf| && (s.state == StatusMsgEnd_rn ==> IsAlnum(buf[i]))
  }

  lemma NameMay(s: Scan, buf: string, i: nat, name: string)
    requires Starts(s, buf, i) && NameOk(name) && At(buf, i, name)
    ensures name != "" && NameStarts(s, name[0]) && buf[i] == name[0] != '\r'
  {
    AtChar(buf, i, name, 0);
  }

  lemma StepBetweenFields(s: Scan, buf: string, i: nat)
    requires i < |buf| && BetweenFields(s)
    ensures Step(s, buf, i)
         == if buf[i] == '\r' then
              Go(s.(state := if s.state == StatusMsgEnd_rn then StatusMsgEnd_rnr else Header_rnr), i + 1)
            else if s.state == StatusMsgEnd_rn && !IsAlnum(buf[i]) then Go(s, i + 1)
            else if Control(buf[i]) then Fail(s) else Go(s.(state := HeaderName, prev := i), i + 1)
  {
  }

  lemma StepName(s: Scan, buf: string, i: nat)
    requires i < |buf| && s.state == HeaderName
    ensures Step(s, buf, i)
         == if buf[i] == ':' then Go(s.(state := HeaderNameEnd, name := View(s.prev, i)), i + 1)
            else if Control(buf[i]) then Fail(s) else Go(s, i + 1)
  {
  }

  lemma StepValue(s: Scan, buf: string, i: nat)
    requires i < |buf| && s.state == HeaderValueStart
    ensures Step(s, buf, i)
         == if !Control(buf[i]) then Go(s, i + 1) else if buf[i] == '\r' then EndValue(s, buf, i) else Fail(s)
  {
    hide EndValue;
  }

  lemma NamePasses(buf: string, i: nat, name: string, s: Scan)
    requires NameOk(name) && At(buf, i, name) && NameStarts(s, name[0])
    ensures i + |name| <= |buf| && Run(s, buf, i) == Run(s.(state := HeaderName, prev := i), buf, i + |name|)
  {
    hide Run, Step, At;
    AtText(buf, i, name);
    AtChar(buf, i, name, 0);
    StepBetweenFields(s, buf, i);
    var t := s.(state := HeaderName, prev := i);
    StepsTo(s, buf, i, t, i + 1);
    forall k | i + 1 <= k < i + |name| ensures Step(t, buf, k) == Go(t, k + 1) {
      AtChar(buf, i, name, k - i);
      StepName(t, buf, k);
    }
    RunOver(t, buf, i + 1, i + |name|);
  }

  lemma ValueOpen(buf: string, v: nat, space: bool, s: Scan)
    requires s.state == HeaderNameEnd && OpenValue(buf, if space then v + 1 else v, space)
    requires space ==> v < |buf| && buf[v] == ' '
    ensures v <= |buf| && Run(s, buf, v).outcome == InCompleted
  {
    hide Run, Step, NoControl;
    var at := if space then v + 1 else v;
    var f := Field("", space, buf[at..]);
    assert At(buf, v, PrintValue(f)) by {
      assert buf[v..] == (if space then " " else "") + buf[at..];
    }
    hide At;
    ReadValue(buf, v, f, s);
    RunEnds(s.(state := HeaderValueStart, prev := at), buf);
  }

  lemma NameOpen(buf: string, at: nat, s: Scan)
    requires Starts(s, buf, at) && OpenName(buf, at)
    ensures Run(s, buf, at).outcome == InCompleted
  {
    hide Run, Step, At, NameOk, OpenNamed, NameStarts;
    if NameOk(buf[at..]) {
      AtRest(buf, at);
      NameMay(s, buf, at, buf[at..]);
      NamePasses(buf, at, buf[at..], s);
      RunEnds(s.(state := HeaderName, prev := at), buf);
    } else {
      var name :| NameOk(name) && At(buf, at, name + ":") && OpenNamed(buf, at + |name| + 1);
      AtSplit(buf, at, name, ":");
      NameMay(s, buf, at, name);
      NamedOpen(buf, at, name, s);
    }
  }

  lemma NamedOpen(buf: string, at: nat, name: string, s: Scan)
    requires NameOk(name) && NameStarts(s, name[0]) && At(buf, at, name + ":") && OpenNamed(buf, at + |name| + 1)
    ensures at <= |buf| && Run(s, buf, at).outcome == InCompleted
  {
    hide Run, Step, At, NameOk, OpenValue;
    var v := at + |name| + 1;
    ReadName(buf, at, Field(name, false, ""), s);
    var t := ValueScan(s, Field(name, false, ""), at).(state := HeaderNameEnd, prev := at);
    if v == |buf| {
      RunEnds(t, buf);
    } else if buf[v..] == " " {
      SpaceOpen(buf, v, t);
    } else if OpenValue(buf, v, false) {
      ValueOpen(buf, v, false, t);
    } else {
      ValueOpen(buf, v, true, t);
    }
  }

  lemma SpaceOpen(buf: string, v: nat, s: Scan)
    requires v <= |buf| && buf[v..] == " " && s.state == HeaderNameEnd
    ensures Run(s, buf, v).outcome == InCompleted
  {
    assert buf[v] == buf[v..][0];
  }

  /** A header up to the '\r' that ends its value. */
  lemma ReadAllButEnd(buf: string, at: nat, f: Field, s: Scan)
    requires Starts(s, buf, at) && AllButEnd(buf, at, f)
    ensures var e := ValueAt(f, at) + |f.value|;
            e < |buf| && buf[e] == '\r' && Run(s, buf, at) == Run(ValueScan(s, f, at), buf, e)
    ensures At(buf, at, f.name) && At(buf, ValueAt(f, at), f.value)
    ensures f.name != "" && NameStarts(s, f.name[0]) && f.name[0] == buf[at] != '\r'
  {
    hide Run, Step, At, NoControl, NameOk, NameStarts;
    AtSplit(buf, at, f.name, ":");
    NameMay(s, buf, at, f.name);
    ReadName(buf, at, f, s);
    var v := at + |f.name| + 1;
    AtSplit(buf, v, PrintValue(f), "\r");
    AtSplit(buf, v, if f.space then " " else "", f.value);
    AtChar(buf, v + |PrintValue(f)|, "\r", 0);
    ReadValue(buf, v, f, ValueScan(s, f, at).(state := HeaderNameEnd, prev := at));
  }

  lemma EndFaults(buf: string, f: Field, i: nat, s: Scan)
    requires At(buf, i, f.name) && At(buf, ValueAt(f, i), f.value) && BetweenFields(s)
    requires ValueAt(f, i) <= |buf| && Learn(FactsIn(s), f, buf, ValueAt(f, i)) == None
    ensures var r := EndValue(ValueScan(s, f, i), buf, ValueAt(f, i) + |f.value|); r.Stop? && r.outcome == Fault
  {
    hide Atoi, At, Text;
    AtText(buf, i, f.name);
    AtText(buf, ValueAt(f, i), f.value);
  }

  /** A header without a meaning. */
  lemma FieldFaults(buf: string, at: nat, facts: Facts, s: Scan)
    requires Starts(s, buf, at) && FactsIn(s) == facts && FaultyField(buf, at, facts)
    ensures Run(s, buf, at).outcome == Fault
  {
    hide Run, Step, Learn, EndValue;
    var f :| AllButEnd(buf, at, f) && ValueAt(f, at) <= |buf| && Learn(facts, f, buf, ValueAt(f, at)) == None;
    ReadAllButEnd(buf, at, f, s);
    hide AllButEnd, At;
    EndFaults(buf, f, at, s);
    StepValue(ValueScan(s, f, at), buf, ValueAt(f, at) + |f.value|);
    RunStops(ValueScan(s, f, at), buf, ValueAt(f, at) + |f.value|);
  }

  /** The blank line, broken off. */
  lemma BlankOpen(buf: string, at: nat, s: Scan)
    requires at <= |buf| && BetweenFields(s) && buf[at..] in {"", "\r"}
    ensures Run(s, buf, at).outcome == InCompleted
  {
    hide Run, Step;
    if buf[at..] == "\r" {
      assert buf[at] == buf[at..][0];
      StepBetweenFields(s, buf, at);
      var t := s.(state := if s.state == StatusMsgEnd_rn then StatusMsgEnd_rnr else Header_rnr);
      StepsTo(s, buf, at, t, at + 1);
      RunEnds(t, buf);
    } else {
      RunEnds(s, buf);
    }
  }

  /** A header that breaks off. */
  lemma FieldOpen(buf: string, at: nat, facts: Facts, s: Scan)
    requires Starts(s, buf, at) && FactsIn(s) == facts && OpenField(buf, at, facts)
    ensures Run(s, buf, at).outcome == InCompleted
  {
    hide Run, Step, Learn, EndValue, OpenName, AllButEnd;
    if OpenName(buf, at) {
      NameOpen(buf, at, s);
    } else {
      var f, more :| AllButEnd(buf, at, f) && |buf| == ValueAt(f, at) + |f.value| + 1
        && Learn(facts, f, buf, ValueAt(f, at)) == Some(more);
      ReadAllButEnd(buf, at, f, s);
      hide At;
      ReadEnd(buf, f, at, s, more);
      var t := FieldScan(s, f, at, more).(state := Header_r);
      StepValue(ValueScan(s, f, at), buf, |buf| - 1);
      StepsTo(ValueScan(s, f, at), buf, |buf| - 1, t, |buf|);
      RunEnds(t, buf);
    }
  }

  /** The scan behind what is whole. */
  lemma ReadUpTo(buf: string, h: Head, facts: Facts, at: nat) returns (s: Scan)
    requires UpTo(buf, h, facts, at)
    ensures BetweenFields(s) && FactsIn(s) == facts && Parse(NO_FIELDS, buf) == Run(s, buf, at)
    ensures MayStart(buf, h, at) ==> Starts(s, buf, at)
  {
    hide Run, Step, At, LearnAll, PrintLine, PrintFields, Parse, VersionOk, CodeOk, ReasonOk, JunkOk, HeadersOf;
    ReadLine(buf, h);
    ReadJunk(buf, |PrintLine(h)|, h.junk, LineScan(h));
    s := ReadFields(buf, FieldsStart(h), h.fields, LineScan(h), facts);
  }

  // ---------------------------------------------------------------- finding the headers

  ghost predicate Ends(buf: string, at: nat, facts: Facts, end: End)
  {
    at <= |buf|
    && (at < |buf| && end != Whole && buf[at..] != "\r" ==> buf[at] != '\r')
    && match end
       case Open => buf[at..] in {"", "\r"} || OpenField(buf, at, facts)
       case Faulty => at < |buf| && FaultyField(buf, at, facts)
       case Whole => At(buf, at, "\r\n")
  }

  lemma FindName(buf: string, i: nat, s: Scan) returns (open: bool, name: string)
    requires Starts(s, buf, i) && buf[i] != '\r' && Run(s, buf, i).outcome != Error
    ensures open ==> OpenName(buf, i)
    ensures !open ==> NameOk(name) && At(buf, i, name + ":")
  {
    hide Run, Step, At, Control;
    NoFail(s, buf, i);
    StepBetweenFields(s, buf, i);
    var t := s.(state := HeaderName, prev := i);
    StepsTo(s, buf, i, t, i + 1);
    var e := LeavesOrEnds(t, buf, i + 1);
    name := buf[i..e];
    forall k | i + 1 <= k < e ensures !Control(buf[k]) && buf[k] != ':' {
      StepName(t, buf, k);
    }
    open := e == |buf|;
    if open {
      assert buf[i..] == name;
    } else {
      NoFail(t, buf, e);
      StepName(t, buf, e);
      AtSlice(buf, i, e);
    }
  }

  lemma StepNameEnd(s: Scan, buf: string, i: nat)
    requires i < |buf| && s.state in {HeaderNameEnd, HeaderNameValueSpace}
    ensures Step(s, buf, i)
         == if s.state == HeaderNameEnd && buf[i] == ' ' then Go(s.(state := HeaderNameValueSpace), i + 1)
            else if Control(buf[i]) then Fail(s) else Go(s.(state := HeaderValueStart, prev := i), i + 1)
  {
  }

  /** A value from v on, to the '\r' that ends it or to the end of the buffer. */
  lemma FindValueEnd(buf: string, v: nat, s: Scan) returns (e: nat)
    requires v < |buf| && !Control(buf[v]) && s.state == HeaderValueStart && Run(s, buf, v + 1).outcome != Error
    ensures v < e <= |buf| && NoControl(buf[v..e]) && Run(s, buf, v + 1) == Run(s, buf, e)
    ensures e < |buf| ==> buf[e] == '\r'
  {
    hide Run, Step, EndValue, Control;
    e := LeavesOrEnds(s, buf, v + 1);
    forall k | v + 1 <= k < e ensures !Control(buf[k]) {
      StepValue(s, buf, k);
      EndValueMoves(s, buf, k);
    }
    if e < |buf| {
      NoFail(s, buf, e);
      StepValue(s, buf, e);
    }
  }

  /** What is behind a name and its ':'. */
  lemma FindNamed(buf: string, v: nat, s: Scan) returns (open: bool, space: bool, value: string)
    requires v <= |buf| && s.state == HeaderNameEnd && Run(s, buf, v).outcome != Error
    ensures open ==> OpenNamed(buf, v)
    ensures !open ==> |value| >= 1 && NoControl(value) && (!space ==> value[0] != ' ')
    ensures !open ==> At(buf, v, PrintValue(Field("", space, value)) + "\r")
  {
    hide Run, Step, At, NoControl, Control;
    open, space, value := true, false, "";
    if v < |buf| {
      space := buf[v] == ' ';
      NoFail(s, buf, v);
      StepNameEnd(s, buf, v);
      var w := if space then v + 1 else v;
      var u := s.(state := HeaderNameValueSpace);
      if space {
        StepsTo(s, buf, v, u, v + 1);
      }
      if w == |buf| {
        assert buf[v..] == " ";
      } else {
        if space {
          NoFail(u, buf, w);
          StepNameEnd(u, buf, w);
        }
        var t := s.(state := HeaderValueStart, prev := w);
        StepsTo(if space then u else s, buf, w, t, w + 1);
        var e := FindValueEnd(buf, w, t);
        value := buf[w..e];
        open := e == |buf|;
        if open {
          assert buf[w..] == value;
        } else {
          ValueCut(buf, v, space, e);
        }
      }
    }
  }

  /** A header that is whole, and begins at i. */
  ghost predicate OneField(buf: string, i: nat, s: Scan, f: Field, more: Facts)
  {
    FieldOk(f) && At(buf, i, PrintField(f)) && ValueAt(f, i) <= |buf| && NameStarts(s, f.name[0])
    && Learn(FactsIn(s), f, buf, ValueAt(f, i)) == Some(more)
  }

  /** One header, or where the headers end. */
  lemma FindOne(buf: string, i: nat, s: Scan) returns (whole: bool, end: End, f: Field, more: Facts)
    requires i <= |buf| && BetweenFields(s) && Run(s, buf, i).outcome != Error
    requires i < |buf| && buf[i] != '\r' ==> Starts(s, buf, i)
    ensures !whole ==> Ends(buf, i, FactsIn(s), end)
    ensures whole ==> OneField(buf, i, s, f, more) && i < |buf| && buf[i] != '\r'
  {
    hide Run, Step, Learn, AllButEnd, OneField, Starts;
    whole, end, f, more := false, Open, Field("", false, ""), FactsIn(s);
    if i == |buf| {
      assert buf[i..] == "";
    } else if buf[i] == '\r' {
      if i + 1 == |buf| {
        assert buf[i..] == "\r";
      } else {
        end := Whole;
        BlankBehind(buf, i, s);
      }
    } else {
      hide Ends;
      whole, end, f, more := FindNamedField(buf, i, s);
    }
  }

  lemma FindNamedField(buf: string, i: nat, s: Scan) returns (whole: bool, end: End, f: Field, more: Facts)
    requires Starts(s, buf, i) && buf[i] != '\r' && Run(s, buf, i).outcome != Error
    ensures !whole ==> Ends(buf, i, FactsIn(s), end)
    ensures whole ==> OneField(buf, i, s, f, more)
  {
    hide Run, Step, Learn, AllButEnd, OneField, At, NameOk, NoControl, NameStarts, OpenNamed;
    whole, end, f, more := false, Open, Field("", false, ""), FactsIn(s);
    var open, name := FindName(buf, i, s);
    if !open {
      AtSplit(buf, i, name, ":");
      NameMay(s, buf, i, name);
      ReadName(buf, i, Field(name, false, ""), s);
      hide OpenName;
      var v := i + |name| + 1;
      AtText(buf, i, name + ":");
      var space, value;
      var t := ValueScan(s, Field(name, false, ""), i).(state := HeaderNameEnd, prev := i);
      open, space, value := FindNamed(buf, v, t);
      if !open {
        f := Field(name, space, value);
        AllButEndIs(buf, i, f);
        whole, end, more := FindFieldEnd(buf, i, f, s);
      } else {
        NamedLeft(buf, i, name);
      }
    }
  }

  lemma NamedLeft(buf: string, i: nat, name: string)
    requires i < |buf| && NameOk(name) && At(buf, i, name + ":") && OpenNamed(buf, i + |name| + 1)
    ensures OpenName(buf, i)
  {
    hide NameOk, OpenNamed, At;
  }

  lemma AllButEndIs(buf: string, i: nat, f: Field)
    requires NameOk(f.name) && At(buf, i, f.name + ":") && At(buf, i + |f.name| + 1, PrintValue(f) + "\r")
    requires |f.value| >= 1 && NoControl(f.value) && (!f.space ==> f.value[0] != ' ')
    ensures AllButEnd(buf, i, f)
  {
  }

  lemma BlankBehind(buf: string, i: nat, s: Scan)
    requires i + 1 < |buf| && buf[i] == '\r' && BetweenFields(s) && Run(s, buf, i).outcome != Error
    ensures At(buf, i, "\r\n")
  {
    hide Run, Step;
    StepBetweenFields(s, buf, i);
    var t := s.(state := if s.state == StatusMsgEnd_rn then StatusMsgEnd_rnr else Header_rnr);
    StepsTo(s, buf, i, t, i + 1);
    BlankEnd(t, buf, i + 1);
    IsBreak(buf, i);
  }

  lemma BlankEnd(s: Scan, buf: string, i: nat)
    requires i < |buf| && s.state in {StatusMsgEnd_rnr, Header_rnr} && Run(s, buf, i).outcome != Error
    ensures buf[i] == '\n'
  {
  }

  /** The end of a header. */
  lemma FindFieldEnd(buf: string, i: nat, f: Field, s: Scan) returns (whole: bool, end: End, more: Facts)
    requires Starts(s, buf, i) && AllButEnd(buf, i, f) && Run(s, buf, i).outcome != Error
    ensures !whole ==> Ends(buf, i, FactsIn(s), end)
    ensures whole ==> OneField(buf, i, s, f, more)
  {
    hide Run, Step, Learn, EndValue, At, OpenName, NameStarts;
    ReadAllButEnd(buf, i, f, s);
    var e := ValueAt(f, i) + |f.value|;
    whole, end, more := false, Open, FactsIn(s);
    var learnt := Learn(FactsIn(s), f, buf, ValueAt(f, i));
    if learnt == None {
      end := Faulty;
      hide AllButEnd;
    } else {
      more := learnt.value;
      if e + 1 < |buf| {
        whole := true;
        ReadEnd(buf, f, i, s, more);
        var t := FieldScan(s, f, i, more).(state := Header_r);
        StepValue(ValueScan(s, f, i), buf, e);
        StepsTo(ValueScan(s, f, i), buf, e, t, e + 1);
        HeaderEnds(t, buf, e + 1);
        IsBreak(buf, e);
        PieceOf(buf, i, f);
        JoinField(buf, i, f);
      } else {
        hide AllButEnd;
      }
    }
  }

  lemma HeaderEnds(s: Scan, buf: string, i: nat)
    requires i < |buf| && s.state == Header_r && Run(s, buf, i).outcome != Error
    ensures buf[i] == '\n'
  {
  }

  lemma PieceOf(buf: string, i: nat, f: Field)
    requires AllButEnd(buf, i, f)
    ensures At(buf, i + |f.name| + 1, PrintValue(f)) && At(buf, i, f.name + ":") && FieldOk(f)
  {
    AtSplit(buf, i + |f.name| + 1, PrintValue(f), "\r");
  }

  /** Where the next header begins. */
  lemma NextMayStart(buf: string, i: nat, s: Scan)
    requires i < |buf| && s.state == Header_rn
    ensures Starts(s, buf, i)
  {
  }

  /** All headers, and how they end. */
  lemma {:induction false} FindFields(buf: string, i: nat, s: Scan) returns (fields: seq<Field>, facts: Facts, end: End)
    requires i <= |buf| && BetweenFields(s) && Run(s, buf, i).outcome != Error
    requires i < |buf| && buf[i] != '\r' ==> Starts(s, buf, i)
    ensures FieldsOk(fields) && At(buf, i, PrintFields(fields)) && i + |PrintFields(fields)| <= |buf|
    ensures FirstStarts(s, fields)
    ensures LearnAll(FactsIn(s), fields, buf, i) == Some(facts)
    ensures Ends(buf, i + |PrintFields(fields)|, facts, end)
    decreases |buf| - i
  {
    hide Run, Step, Learn, Ends, FieldOk, NameStarts, Starts;
    var whole, f, more;
    whole, end, f, more := FindOne(buf, i, s);
    fields, facts := [], FactsIn(s);
    if whole {
      FieldSplit(buf, i, f);
      ReadField(buf, i, f, s, more);
      var n, t := i + |PrintField(f)|, FieldScan(s, f, i, more);
      if n < |buf| {
        NextMayStart(buf, n, t);
      }
      var rest;
      rest, facts, end := FindFields(buf, n, t);
      fields := [f] + rest;
      FirstIs(buf, i, s, f, more, rest);
      MoreFields(buf, i, f, rest);
      hide At, PrintField;
      LearnFields(FactsIn(s), f, more, rest, facts, buf, i);
    }
  }

  lemma FirstIs(buf: string, i: nat, s: Scan, f: Field, more: Facts, rest: seq<Field>)
    requires OneField(buf, i, s, f, more)
    ensures FirstStarts(s, [f] + rest)
  {
    hide NameStarts, PrintField;
  }

  lemma MoreFields(buf: string, i: nat, f: Field, rest: seq<Field>)
    requires At(buf, i, PrintField(f)) && At(buf, i + |PrintField(f)|, PrintFields(rest))
    ensures At(buf, i, PrintFields([f] + rest)) && |PrintFields([f] + rest)| == |PrintField(f)| + |PrintFields(rest)|
    ensures i + |PrintFields([f] + rest)| <= |buf|
  {
    hide PrintField;
    assert ([f] + rest)[1..] == rest;
    AtJoin(buf, i, PrintField(f), PrintFields(rest));
  }

  /** What stands between the status line and the headers. */
  lemma FindJunk(buf: string, i: nat, s: Scan) returns (junk: string)
    requires i <= |buf| && s.state == StatusMsgEnd_rn
    ensures JunkOk(junk) && At(buf, i, junk) && i + |junk| <= |buf| && Run(s, buf, i + |junk|) == Run(s, buf, i)
    ensures i + |junk| < |buf| && buf[i + |junk|] != '\r' ==> Starts(s, buf, i + |junk|)
  {
    hide Run, Step, IsAlnum, Control;
    var e := LeavesOrEnds(s, buf, i);
    junk := buf[i..e];
    forall k | i <= k < e ensures buf[k] != '\r' && !IsAlnum(buf[k]) {
      StepBetweenFields(s, buf, k);
      AlnumIsPlain(buf[k]);
    }
    if e < |buf| {
      StepBetweenFields(s, buf, e);
    }
  }

  lemma AlnumIsPlain(c: char)
    ensures IsAlnum(c) ==> !Control(c)
  {
  }

  /** The headers behind a status line, and how they end. */
  lemma FindHeaders(buf: string, line: Head) returns (h: Head, facts: Facts, end: End)
    requires VersionOk(line.version) && CodeOk(line.code) && ReasonOk(line.reason) && line.junk == ""
        && line.fields == []
    requires At(buf, 0, PrintLine(line)) && Parse(NO_FIELDS, buf).outcome != Error
    ensures UpTo(buf, h, facts, FieldsStart(h) + |PrintFields(h.fields)|)
    ensures Ends(buf, FieldsStart(h) + |PrintFields(h.fields)|, facts, end)
    ensures var at := FieldsStart(h) + |PrintFields(h.fields)|;
            at < |buf| && buf[at] != '\r' ==> MayStart(buf, h, at)
  {
    hide Run, Step, Parse, At, LearnAll, PrintFields, VersionOk, CodeOk, ReasonOk, JunkOk, Ends, FieldsOk, NameStarts;
    ReadLine(buf, line);
    AtText(buf, 0, PrintLine(line));
    var n := |PrintLine(line)|;
    var junk := FindJunk(buf, n, LineScan(line));
    var fields;
    fields, facts, end := FindFields(buf, n + |junk|, LineScan(line));
    h := line.(junk := junk, fields := fields);
    LineOnly(line, h);
    hide PrintLine;
    FirstIsAlnum(line, fields);
    NoFacts(line);
    PrintNone();
  }

  lemma PrintNone()
    ensures PrintFields([]) == ""
  {
  }

  lemma NoFacts(line: Head)
    requires CodeOk(line.code)
    ensures FactsIn(LineScan(line)) == NO_FACTS
  {
  }

  lemma FirstIsAlnum(line: Head, fields: seq<Field>)
    requires CodeOk(line.code) && FirstStarts(LineScan(line), fields)
    ensures fields != [] ==> fields[0].name != "" && IsAlnum(fields[0].name[0])
  {
  }

  /** The head of a buffer that is not rejected, and how it ends. */
  lemma FindHead(buf: string) returns (line: End, version: string, h: Head, facts: Facts, end: End)
    requires Parse(NO_FIELDS, buf).outcome != Error
    ensures line == Open ==> OpenStatus(buf)
    ensures line == Faulty ==> FaultyCode(buf, version, h.code)
    ensures line == Whole ==> UpTo(buf, h, facts, FieldsStart(h) + |PrintFields(h.fields)|)
    ensures line == Whole ==> Ends(buf, FieldsStart(h) + |PrintFields(h.fields)|, facts, end)
    ensures var at := FieldsStart(h) + |PrintFields(h.fields)|;
            line == Whole && at < |buf| && buf[at] != '\r' ==> MayStart(buf, h, at)
  {
    hide Parse, Run, UpTo, Ends, OpenStatus, FaultyCode, MayStart, FieldsStart, PrintFields;
    facts, end := NO_FACTS, Open;
    line, version, h := FindStatus(buf);
    if line == Whole {
      h, facts, end := FindHeaders(buf, h);
    }
  }

  // ---------------------------------------------------------------- chunks, read as far as they go

  lemma StepSize(s: Scan, buf: string, i: nat)
    requires i < |buf| && s.state in {NewChunkStart, ChunkDataSize}
    ensures Step(s, buf, i)
         == if s.state == NewChunkStart then
              if IsHex(buf[i]) then Go(s.(state := ChunkDataSize, prev := i), i + 1) else Fail(s)
            else if IsHex(buf[i]) then Go(s, i + 1)
            else if buf[i] == '\r' then EndSize(s, buf, i) else Fail(s)
  {
    hide EndSize;
  }

  /** The digits of a size. */
  lemma SizePasses(buf: string, i: nat, size: string, s: Scan)
    requires |size| >= 1 && AllHex(size) && At(buf, i, size) && s.state == NewChunkStart
    ensures i + |size| <= |buf| && Run(s, buf, i) == Run(s.(state := ChunkDataSize, prev := i), buf, i + |size|)
  {
    hide Run, Step, At, EndSize;
    AtText(buf, i, size);
    AtChar(buf, i, size, 0);
    StepSize(s, buf, i);
    var t := s.(state := ChunkDataSize, prev := i);
    StepsTo(s, buf, i, t, i + 1);
    forall k | i + 1 <= k < i + |size| ensures Step(t, buf, k) == Go(t, k + 1) {
      AtChar(buf, i, size, k - i);
      StepSize(t, buf, k);
    }
    RunOver(t, buf, i + 1, i + |size|);
  }

  lemma EndSizeThrows(buf: string, size: string, s: Scan)
    requires AllHex(size) && Hex(size) > INT_MAX && At(buf, s.prev, size)
    ensures s.prev + |size| <= |buf| && EndSize(s, buf, s.prev + |size|) == Stop(Thrown, s.state, s.res)
  {
    hide Hex, At, Text, AllHex;
    AtText(buf, s.prev, size);
  }

  lemma ChunkLarge(buf: string, i: nat, s: Scan)
    requires i <= |buf| && s.state == NewChunkStart && LargeChunk(buf, i)
    ensures Run(s, buf, i).outcome == Thrown
  {
    hide Run, Step, At, EndSize, Hex, AllHex;
    var size :| |size| >= 1 && AllHex(size) && Hex(size) > INT_MAX && At(buf, i, size + "\r");
    AtSplit(buf, i, size, "\r");
    AtChar(buf, i + |size|, "\r", 0);
    SizePasses(buf, i, size, s);
    var t := s.(state := ChunkDataSize, prev := i);
    StepSize(t, buf, i + |size|);
    EndSizeThrows(buf, size, t);
    RunStops(t, buf, i + |size|);
  }

  /** What may stand behind the '\r' of a size. */
  lemma StepBehind(s: Scan, buf: string, i: nat)
    requires i < |buf| && s.state in {ZeroChunkSize_r, ChunkDataSize_r, ChunkDataEnd, ChunkData_r}
    ensures Step(s, buf, i)
         == if buf[i] != (if s.state == ChunkDataEnd then '\r' else '\n') then Fail(s)
            else match s.state
                 case ZeroChunkSize_r => Stop(Completed, s.state, s.res)
                 case ChunkDataSize_r => Go(s.(state := ChunkDataSize_rn), i + 1)
                 case ChunkDataEnd => Go(s.(state := ChunkData_r), i + 1)
                 case _ => Go(s.(state := NewChunkStart), i + 1)
  {
  }

  function DataScan(s: Scan, d: nat): Scan
  {
    s.(state := ChunkDataEnd, res := s.res.(chunks := s.res.chunks + [Chunk(s.size, View(d, d + s.size))]))
  }

  lemma StepData(s: Scan, buf: string, d: nat)
    requires d < |buf| && s.state == ChunkDataSize_rn && s.size >= 1
    ensures Step(s, buf, d) == if |buf| - d <= s.size then Fail(s) else Go(DataScan(s, d), d + s.size)
  {
  }

  /** The scan behind the '\r' of a size. */
  function SizeScan(s: Scan, i: nat, n: nat): Scan
  {
    s.(state := if n == 0 then ZeroChunkSize_r else ChunkDataSize_r, prev := i, size := n)
  }

  lemma BehindOpen(buf: string, e: nat, s: Scan)
    requires e <= |buf| && s.state == (if s.size == 0 then ZeroChunkSize_r else ChunkDataSize_r)
    requires OpenBehind(buf, e, s.size)
    ensures Run(s, buf, e).outcome == InCompleted
  {
    hide Run, Step;
    if |buf| == e {
      RunEnds(s, buf);
    } else {
      var t := s.(state := ChunkDataSize_rn);
      StepBehind(s, buf, e);
      StepsTo(s, buf, e, t, e + 1);
      if |buf| == e + 1 {
        RunEnds(t, buf);
      } else {
        var d := e + 1;
        var u := DataScan(t, d);
        StepData(t, buf, d);
        StepsTo(t, buf, d, u, d + s.size);
        StepBehind(u, buf, d + s.size);
        StepsTo(u, buf, d + s.size, u.(state := ChunkData_r), d + s.size + 1);
        RunEnds(u.(state := ChunkData_r), buf);
      }
    }
  }

  lemma ChunkOpen(buf: string, i: nat, s: Scan)
    requires s.state == NewChunkStart && OpenChunk(buf, i)
    ensures Run(s, buf, i).outcome == InCompleted
  {
    hide Run, Step, At, AllHex, Hex, OpenBehind;
    if buf[i..] == "" {
      RunEnds(s, buf);
    } else if AllHex(buf[i..]) {
      AtRest(buf, i);
      SizePasses(buf, i, buf[i..], s);
      RunEnds(s.(state := ChunkDataSize, prev := i), buf);
    } else {
      var size :| SizeOk(size) && At(buf, i, size + "\r") && OpenBehind(buf, i + |size| + 1, Hex(size));
      AtSplit(buf, i, size, "\r");
      AtChar(buf, i + |size|, "\r", 0);
      ReadSize(buf, i, size, s);
      BehindOpen(buf, i + |size| + 1, SizeScan(s, i, Hex(size)));
    }
  }

  // ---------------------------------------------------------------- finding the chunks

  /** How chunks end that are not complete. */
  ghost predicate ChunkCut(buf: string, i: nat, outcome: Outcome)
  {
    match outcome
    case InCompleted => OpenChunk(buf, i)
    case Thrown => LargeChunk(buf, i)
    case _ => false
  }

  predicate NotRead(outcome: Outcome)
  {
    outcome != Error && outcome != Completed
  }

  /** Where the data of a chunk and its line break are there. */
  predicate DataFollows(buf: string, e: nat, n: nat)
  {
    e < |buf| && buf[e] == '\n' && e + n + 2 < |buf| && buf[e + 1 + n] == '\r' && buf[e + 2 + n] == '\n'
  }

  lemma FindBehind(buf: string, e: nat, s: Scan)
    requires e <= |buf| && s.state == (if s.size == 0 then ZeroChunkSize_r else ChunkDataSize_r)
    requires NotRead(Run(s, buf, e).outcome)
    ensures (s.size > 0 && DataFollows(buf, e, s.size))
            || (OpenBehind(buf, e, s.size) && Run(s, buf, e).outcome == InCompleted)
  {
    hide Run, Step;
    if e == |buf| {
      RunEnds(s, buf);
    } else {
      NoFail(s, buf, e);
      StepBehind(s, buf, e);
      if s.size == 0 {
        RunStops(s, buf, e);
      } else {
        var t := s.(state := ChunkDataSize_rn);
        StepsTo(s, buf, e, t, e + 1);
        if e + 1 == |buf| {
          RunEnds(t, buf);
        } else {
          FindDataEnd(buf, e + 1, t);
        }
      }
    }
  }

  lemma FindDataEnd(buf: string, d: nat, s: Scan)
    requires d < |buf| && s.state == ChunkDataSize_rn && s.size >= 1 && NotRead(Run(s, buf, d).outcome)
    ensures d + s.size < |buf| && buf[d + s.size] == '\r'
    ensures if d + s.size + 1 < |buf| then buf[d + s.size + 1] == '\n' else Run(s, buf, d).outcome == InCompleted
  {
    hide Run, Step;
    NoFail(s, buf, d);
    StepData(s, buf, d);
    var t, b := DataScan(s, d), d + s.size;
    StepsTo(s, buf, d, t, b);
    NoFail(t, buf, b);
    StepBehind(t, buf, b);
    var u := t.(state := ChunkData_r);
    StepsTo(t, buf, b, u, b + 1);
    if b + 1 < |buf| {
      NoFail(u, buf, b + 1);
      StepBehind(u, buf, b + 1);
    } else {
      RunEnds(u, buf);
    }
  }

  /** The digits of a size, and the '\r' behind them, if it is there. */
  lemma FindDigits(buf: string, i: nat, s: Scan) returns (size: string)
    requires i < |buf| && s.state == NewChunkStart && Run(s, buf, i).outcome != Error
    ensures |size| >= 1 && AllHex(size) && At(buf, i, size) && i + |size| <= |buf|
    ensures i + |size| < |buf| ==> At(buf, i, size + "\r") && buf[i + |size|] == '\r'
  {
    hide Run, Step, IsHex, EndSize;
    NoFail(s, buf, i);
    StepSize(s, buf, i);
    var t := s.(state := ChunkDataSize, prev := i);
    StepsTo(s, buf, i, t, i + 1);
    var e := LeavesOrEnds(t, buf, i + 1);
    size := buf[i..e];
    forall k | i + 1 <= k < e ensures IsHex(buf[k]) {
      StepSize(t, buf, k);
      EndSizeMoves(t, buf, k);
    }
    if e < |buf| {
      NoFail(t, buf, e);
      StepSize(t, buf, e);
      AtSlice(buf, i, e);
    }
  }

  lemma WholeChunk(buf: string, i: nat, size: string) returns (c: ChunkText)
    requires SizeOk(size) && Hex(size) >= 1 && At(buf, i, size + "\r") && DataFollows(buf, i + |size| + 1, Hex(size))
    ensures ChunkOk(c) && At(buf, i, PrintChunk(c))
  {
    hide Hex, AllHex;
    var d := i + |size| + 2;
    c := ChunkText(size, buf[d..d + Hex(size)]);
    AtSplit(buf, i, size, "\r");
    IsBreak(buf, i + |size|);
    IsBreak(buf, d + |c.data|);
    assert At(buf, d, c.data);
    AtJoin(buf, i, size, "\r\n");
    AtJoin(buf, d, c.data, "\r\n");
    JoinChunk(buf, i, c);
  }

  /** One more chunk, or where the chunks end. */
  lemma FindNext(buf: string, i: nat, s: Scan) returns (whole: bool, c: ChunkText)
    requires i <= |buf| && s.state == NewChunkStart && NotRead(Run(s, buf, i).outcome)
    ensures whole ==> ChunkOk(c) && At(buf, i, PrintChunk(c))
    ensures !whole ==> ChunkCut(buf, i, Run(s, buf, i).outcome)
  {
    hide Run, Step, At, AllHex, Hex, OpenBehind, DataFollows;
    whole, c := false, ChunkText("", "");
    if i == |buf| {
      RunEnds(s, buf);
      NoDigits(buf);
    } else {
      var size := FindDigits(buf, i, s);
      if i + |size| == |buf| {
        SizePasses(buf, i, size, s);
        RunEnds(s.(state := ChunkDataSize, prev := i), buf);
        DigitsLeft(buf, i, size);
      } else if Hex(size) > INT_MAX {
        ChunkLarge(buf, i, s);
      } else {
        ReadSize(buf, i, size, s) by { AtSplit(buf, i, size, "\r"); }
        FindBehind(buf, i + |size| + 1, SizeScan(s, i, Hex(size)));
        whole := Hex(size) > 0 && DataFollows(buf, i + |size| + 1, Hex(size));
        if whole {
          c := WholeChunk(buf, i, size);
        } else {
          BehindLeft(buf, i, size);
        }
      }
    }
  }

  lemma DigitsLeft(buf: string, i: nat, size: string)
    requires AllHex(size) && At(buf, i, size) && i + |size| == |buf|
    ensures OpenChunk(buf, i)
  {
    assert buf[i..] == size;
  }

  lemma BehindLeft(buf: string, i: nat, size: string)
    requires i <= |buf| && SizeOk(size) && At(buf, i, size + "\r") && OpenBehind(buf, i + |size| + 1, Hex(size))
    ensures OpenChunk(buf, i)
  {
    hide SizeOk, At, Hex, OpenBehind;
  }

  lemma NoDigits(buf: string)
    ensures AllHex(buf[|buf|..])
  {
  }

  /** The chunks of a body that is not complete, and how they end. */
  lemma {:induction false} FindSome(buf: string, i: nat, s: Scan) returns (chunks: seq<ChunkText>)
    requires i <= |buf| && s.state == NewChunkStart && NotRead(Run(s, buf, i).outcome)
    ensures ChunksUpTo(buf, i, chunks, i + |PrintSome(chunks)|)
    ensures ChunkCut(buf, i + |PrintSome(chunks)|, Run(s, buf, i).outcome)
    decreases |buf| - i
  {
    hide Run, Step, ChunkCut, PrintChunk, ChunkOk, At;
    var whole, c := FindNext(buf, i, s);
    chunks := [];
    if whole {
      ReadChunk(buf, i, c, s);
      AtText(buf, i, PrintChunk(c));
      ChunkNotEmpty(c);
      var rest := FindSome(buf, i + |PrintChunk(c)|, ChunkScan(s, c, i));
      chunks := [c] + rest;
      MoreChunks(buf, i, c, rest);
    } else {
      NoneThere(buf, i);
    }
  }

  lemma ChunkNotEmpty(c: ChunkText)
    ensures |PrintChunk(c)| > 0
  {
  }

  lemma NoneThere(buf: string, i: nat)
    requires i <= |buf|
    ensures ChunksUpTo(buf, i, [], i) && PrintSome([]) == ""
  {
  }

  lemma MoreChunks(buf: string, i: nat, c: ChunkText, rest: seq<ChunkText>)
    requires ChunkOk(c) && At(buf, i, PrintChunk(c))
    requires ChunksUpTo(buf, i + |PrintChunk(c)|, rest, i + |PrintChunk(c)| + |PrintSome(rest)|)
    ensures |PrintSome([c] + rest)| == |PrintChunk(c)| + |PrintSome(rest)|
    ensures ChunksUpTo(buf, i, [c] + rest, i + |PrintSome([c] + rest)|)
  {
    hide PrintChunk, At, ChunkOk;
    assert ([c] + rest)[1..] == rest;
    AtJoin(buf, i, PrintChunk(c), PrintSome(rest));
    forall k | 0 <= k < |rest| + 1 ensures ChunkOk(([c] + rest)[k]) {
      if k > 0 {
        assert ([c] + rest)[k] == rest[k - 1];
      }
    }
  }

  // ---------------------------------------------------------------- bodies

  /** What a response with a whole head is. */
  ghost predicate ResponseIs(buf: string, h: Head, facts: Facts, outcome: Outcome)
  {
    match outcome
    case Completed => CompleteResponse(buf, h, facts)
    case InCompleted => OpenResponse(buf, h, facts)
    case Fault => FaultyResponse(buf, h, facts)
    case Thrown => LargeResponse(buf, h, facts)
    case Error => true
  }

  /** The body of a buffer that is not rejected. */
  lemma FindResponse(buf: string, h: Head, facts: Facts)
    requires Begins(buf, h, facts)
    ensures ResponseIs(buf, h, facts, Parse(NO_FIELDS, buf).outcome)
  {
    hide Run, Step, Begins, PrintHead, Parse, BodyFollows, OpenChunks, LargeChunks, FieldsOf;
    if Parse(NO_FIELDS, buf).outcome == Completed {
      CompletedFollows(buf, h, facts);
    } else if Parse(NO_FIELDS, buf).outcome != Error {
      var n := |PrintHead(h)|;
      var t := ReadUpToBody(buf, h, facts);
      if facts.isChunked {
        FindChunked(buf, n, t.(state := NewChunkStart));
      } else {
        ReadContent(t.(state := DataStart), buf, n);
        FactsAre(t, facts);
      }
    }
  }

  lemma FactsAre(t: Scan, facts: Facts)
    requires FactsIn(t) == facts
    ensures t.length == facts.length
  {
  }

  lemma FindChunked(buf: string, i: nat, s: Scan)
    requires i <= |buf| && s.state == NewChunkStart && NotRead(Run(s, buf, i).outcome)
    ensures match Run(s, buf, i).outcome
            case InCompleted => OpenChunks(buf, i)
            case Thrown => LargeChunks(buf, i)
            case _ => false
  {
    hide Run, Step, ChunksUpTo, OpenChunk, LargeChunk, PrintSome;
    var chunks := FindSome(buf, i, s);
  }

  /** A response with a whole head has the outcome that its body has. */
  lemma ResponseHas(buf: string, h: Head, facts: Facts)
    requires Begins(buf, h, facts)
    ensures OpenResponse(buf, h, facts) ==> Parse(NO_FIELDS, buf).outcome == InCompleted
    ensures FaultyResponse(buf, h, facts) ==> Parse(NO_FIELDS, buf).outcome == Fault
    ensures LargeResponse(buf, h, facts) ==> Parse(NO_FIELDS, buf).outcome == Thrown
  {
    hide Run, Step, Begins, PrintHead, Parse, OpenChunks, LargeChunks, FieldsOf;
    var n := |PrintHead(h)|;
    var t := ReadUpToBody(buf, h, facts);
    if h.fields != [] {
      if |buf| == n {
        RunEnds(t.(state := if facts.isChunked then NewChunkStart else DataStart), buf);
        if facts.isChunked {
          ChunkedHas(buf, n, t.(state := NewChunkStart));
        }
      } else if facts.isChunked {
        ChunkedHas(buf, n, t.(state := NewChunkStart));
      } else {
        ReadContent(t.(state := DataStart), buf, n);
        FactsAre(t, facts);
      }
    }
  }

  lemma ChunkedHas(buf: string, i: nat, s: Scan)
    requires i <= |buf| && s.state == NewChunkStart
    ensures OpenChunks(buf, i) ==> Run(s, buf, i).outcome == InCompleted
    ensures LargeChunks(buf, i) ==> Run(s, buf, i).outcome == Thrown
  {
    hide Run, Step, OpenChunk, LargeChunk, PrintSome, ChunksOk, At;
    if chunks, at :| ChunksUpTo(buf, i, chunks, at) && OpenChunk(buf, at) {
      var t := ReadSome(buf, i, chunks, s);
      ChunkOpen(buf, at, t);
    }
    if chunks, at :| ChunksUpTo(buf, i, chunks, at) && LargeChunk(buf, at) {
      var t := ReadSome(buf, i, chunks, s);
      ChunkLarge(buf, at, t);
    }
  }

  // ---------------------------------------------------------------- every buffer

  lemma BlankBegins(buf: string, h: Head, facts: Facts, at: nat)
    requires UpTo(buf, h, facts, at) && At(buf, at, "\r\n")
    ensures Begins(buf, h, facts)
  {
    hide At, LearnAll, PrintLine, PrintFields, HeadOk;
    AtJoin(buf, FieldsStart(h), PrintFields(h.fields), "\r\n");
    AtJoin(buf, |PrintLine(h)|, h.junk, PrintFields(h.fields) + "\r\n");
    AtJoin(buf, 0, PrintLine(h), h.junk + (PrintFields(h.fields) + "\r\n"));
  }

  /** What a buffer is said to be. */
  ghost predicate TextIs(buf: string, outcome: Outcome)
  {
    match outcome
    case Completed => CompleteText(buf)
    case InCompleted => OpenText(buf)
    case Fault => FaultyText(buf)
    case Thrown => LargeText(buf)
    case Error => true
  }

  lemma FindText(buf: string)
    ensures TextIs(buf, Parse(NO_FIELDS, buf).outcome)
  {
    hide Run, TextIs, OpenStatus, FaultyCode, UpTo, Ends, MayStart, FieldsStart, PrintFields;
    if Parse(NO_FIELDS, buf).outcome == Error {
      ErrorIs(buf);
    } else {
      var line, version, h, facts, end := FindHead(buf);
      hide Parse;
      if line == Whole {
        HeadIs(buf, h, facts, FieldsStart(h) + |PrintFields(h.fields)|, end);
      } else {
        LineIs(buf, line, version, h.code);
      }
    }
  }

  lemma ErrorIs(buf: string)
    ensures TextIs(buf, Error)
  {
  }

  lemma LineIs(buf: string, line: End, version: string, code: string)
    requires (line == Open && OpenStatus(buf)) || (line == Faulty && FaultyCode(buf, version, code))
    ensures TextIs(buf, Parse(NO_FIELDS, buf).outcome)
  {
    hide Parse, OpenStatus, FaultyCode, OpenHead, FaultyHead, CompleteResponse, OpenResponse, FaultyResponse;
    if line == Open {
      StatusOpen(buf);
    } else {
      StatusFaults(buf, version, code);
    }
  }

  lemma HeadIs(buf: string, h: Head, facts: Facts, at: nat, end: End)
    requires UpTo(buf, h, facts, at) && Ends(buf, at, facts, end)
    requires at < |buf| && buf[at] != '\r' ==> MayStart(buf, h, at)
    ensures TextIs(buf, Parse(NO_FIELDS, buf).outcome)
  {
    hide Parse, UpTo, OpenField, FaultyField, MayStart, TextIs, At;
    match end
    case Open =>
      if buf[at..] == "" {
      }
      assert OpenHead(buf, h, facts, at);
      HeadOpen(buf, h, facts, at);
      OpenIs(buf, h, facts, at);
    case Faulty =>
      assert buf[at..] == "\r" ==> buf[at] == '\r';
      FaultyHas(buf, at, facts);
      assert FaultyHead(buf, h, facts, at);
      HeadFaults(buf, h, facts, at);
      FaultyIs(buf, h, facts, at);
    case Whole =>
      BlankBegins(buf, h, facts, at);
      FindResponse(buf, h, facts);
      ResponseText(buf, h, facts);
  }

  /** It is no line break that such a header begins with. */
  lemma FaultyHas(buf: string, at: nat, facts: Facts)
    requires at < |buf| && FaultyField(buf, at, facts)
    ensures buf[at] != '\r'
  {
    hide Learn;
    var f :| AllButEnd(buf, at, f) && ValueAt(f, at) <= |buf| && Learn(facts, f, buf, ValueAt(f, at)) == None;
    AtChar(buf, at, f.name + ":", 0);
  }

  lemma OpenIs(buf: string, h: Head, facts: Facts, at: nat)
    requires OpenHead(buf, h, facts, at)
    ensures TextIs(buf, InCompleted)
  {
    hide OpenHead, OpenStatus, OpenResponse;
  }

  lemma FaultyIs(buf: string, h: Head, facts: Facts, at: nat)
    requires FaultyHead(buf, h, facts, at)
    ensures TextIs(buf, Fault)
  {
    hide FaultyHead, FaultyCode, FaultyResponse;
  }

  lemma ResponseText(buf: string, h: Head, facts: Facts)
    ensures forall outcome :: ResponseIs(buf, h, facts, outcome) ==> TextIs(buf, outcome)
  {
    hide OpenStatus, FaultyCode, OpenHead, FaultyHead, CompleteResponse, OpenResponse, FaultyResponse, LargeResponse;
  }

  lemma HeadOpen(buf: string, h: Head, facts: Facts, at: nat)
    requires OpenHead(buf, h, facts, at)
    ensures Parse(NO_FIELDS, buf).outcome == InCompleted
  {
    hide Parse, OpenField, Run, MayStart;
    var s := ReadUpTo(buf, h, facts, at);
    assert at <= |buf|;
    hide UpTo;
    if buf[at..] in {"", "\r"} {
      BlankOpen(buf, at, s);
    } else {
      FieldOpen(buf, at, facts, s);
    }
  }

  lemma HeadFaults(buf: string, h: Head, facts: Facts, at: nat)
    requires FaultyHead(buf, h, facts, at)
    ensures Parse(NO_FIELDS, buf).outcome == Fault
  {
    hide Parse, UpTo, FaultyField, Run;
    var s := ReadUpTo(buf, h, facts, at);
    FieldFaults(buf, at, facts, s);
  }

  lemma CompleteHas(buf: string)
    requires CompleteText(buf)
    ensures Parse(NO_FIELDS, buf).outcome == Completed
  {
    hide Parse, Begins, BodyFollows;
    var h, facts :| CompleteResponse(buf, h, facts);
    FollowsCompletes(buf, h, facts);
  }

  lemma OpenHas(buf: string)
    requires OpenText(buf)
    ensures Parse(NO_FIELDS, buf).outcome == InCompleted
  {
    hide Parse, OpenStatus, OpenHead, Begins, OpenChunks;
    if OpenStatus(buf) {
      StatusOpen(buf);
    } else if h, facts, at :| OpenHead(buf, h, facts, at) {
      HeadOpen(buf, h, facts, at);
    } else {
      var h, facts :| OpenResponse(buf, h, facts);
      ResponseHas(buf, h, facts);
    }
  }

  lemma FaultyTextHas(buf: string)
    requires FaultyText(buf)
    ensures Parse(NO_FIELDS, buf).outcome == Fault
  {
    hide Parse, FaultyCode, FaultyHead, Begins;
    if version, code :| FaultyCode(buf, version, code) {
      StatusFaults(buf, version, code);
    } else if h, facts, at :| FaultyHead(buf, h, facts, at) {
      HeadFaults(buf, h, facts, at);
    } else {
      var h, facts :| FaultyResponse(buf, h, facts);
      ResponseHas(buf, h, facts);
    }
  }

  lemma LargeHas(buf: string)
    requires LargeText(buf)
    ensures Parse(NO_FIELDS, buf).outcome == Thrown
  {
    hide Parse, Begins, LargeChunks;
    var h, facts :| LargeResponse(buf, h, facts);
    ResponseHas(buf, h, facts);
  }

  /** What the parser says of every buffer there is: complete, broken off, without a meaning, or with a chunk size that
      stoi throws for, each exactly for the texts that are; and every other buffer is an error. */
  lemma OutcomeExactly(buf: string)
    ensures Parse(NO_FIELDS, buf).outcome
         == if CompleteText(buf) then Completed
            else if OpenText(buf) then InCompleted
            else if FaultyText(buf) then Fault
            else if LargeText(buf) then Thrown
            else Error
  {
    hide Parse, CompleteText, OpenText, FaultyText, LargeText;
    FindText(buf);
    if CompleteText(buf) {
      CompleteHas(buf);
    } else if OpenText(buf) {
      OpenHas(buf);
    } else if FaultyText(buf) {
      FaultyTextHas(buf);
    } else if LargeText(buf) {
      LargeHas(buf);
    }
  }
}
