/** What a response parser says of a beginning of a complete message. */
module ResponsePrefixes {
  import opened HttpText
  import opened HttpHeaders
  import opened HttpPrefixes
  import opened ResponseMachine
  import opened ResponseGrammar
  import opened ResponseLanguage
  import opened ChunkedBody

  // ---------------------------------------------------------------- a run in the head

  predicate InHead(state: State)
  {
    state in {StatusStart, StatusStart_h, StatusStart_ht, StatusStart_htt, StatusStart_http, HttpEnd, VersionStart,
              VersionEnd, StatusCodeStart, StatusCodeEnd, StatusMsgStart, StatusMsg, StatusMsgEnd, StatusMsgEnd_rn,
              StatusMsgEnd_rnr, HeaderName, HeaderNameEnd, HeaderNameValueSpace, HeaderValueStart, Header_r, Header_rn,
              Header_rnr}
  }

  /** What has been read of a head up to i. */
  predicate Reading(s: Scan, i: nat)
  {
    && s.prev <= i && s.name.hi <= i
    && (s.state == StatusCodeStart ==> s.prev < i)
    && (s.state == Header_r ==> EndsAt(s.res.headers, i - 1))
    && (s.state == Header_rn ==> EndsAt(s.res.headers, i - 2))
    && (s.state == Header_rnr ==> EndsAt(s.res.headers, i - 3))
    && (!InHead(s.state) ==> EndsAt(s.res.headers, i - 4))
  }

  /** What one step of a head does to the headers: nothing, or the one whose value ends at i is recorded. */
  predicate Records(s: Scan, t: Scan, i: nat)
  {
    t.res.headers == s.res.headers
    || (s.state == HeaderValueStart && t.state == Header_r
        && t.res.headers == s.res.headers + [Header(s.name, View(s.prev, i))])
  }

  lemma EndValueRecords(s: Scan, buf: string, i: nat)
    requires i < |buf| && s.state == HeaderValueStart
    ensures match EndValue(s, buf, i)
            case Go(t, next) => next == i + 1 && t.state == Header_r && t.prev == s.prev && t.name == s.name
              && t.res.headers == s.res.headers + [Header(s.name, View(s.prev, i))]
            case Stop(outcome, _, _) => outcome == Fault
  {
    hide Atoi, Text;
  }

  lemma EndCodeRecords(s: Scan, buf: string, i: nat)
    requires i < |buf|
    ensures EndCode(s, buf, i).Go? ==>
              EndCode(s, buf, i).next == i + 1
              && EndCode(s, buf, i).scan == s.(state := StatusCodeEnd, res := EndCode(s, buf, i).scan.res)
              && EndCode(s, buf, i).scan.res.headers == s.res.headers
  {
    hide Atoi, Text, AllDigits;
  }

  lemma StepReads(s: Scan, buf: string, i: nat)
    requires i < |buf| && InHead(s.state) && Reading(s, i) && Step(s, buf, i).Go?
    ensures Step(s, buf, i).next == i + 1
    ensures Reading(Step(s, buf, i).scan, i + 1) && Records(s, Step(s, buf, i).scan, i)
  {
    hide EndValue, EndCode, Control, IsDigit, IsAlnum;
    if s.state == HeaderValueStart {
      EndValueRecords(s, buf, i);
    } else if s.state == StatusCodeStart {
      EndCodeRecords(s, buf, i);
    }
  }

  /** Behind the head no header is added. */
  lemma {:induction false} BodyKeeps(s: Scan, buf: string, i: nat)
    requires i <= |buf| && !InHead(s.state)
    ensures Run(s, buf, i).res.headers == s.res.headers
    decreases |buf| - i
  {
    if i < |buf| {
      BodyStep(s, buf, i);
      StepForward(s, buf, i);
      hide Step, InHead;
      if Step(s, buf, i).Go? {
        BodyKeeps(Step(s, buf, i).scan, buf, Step(s, buf, i).next);
      }
    }
  }

  lemma BodyStep(s: Scan, buf: string, i: nat)
    requires i < |buf| && !InHead(s.state)
    ensures match Step(s, buf, i)
            case Go(t, _) => !InHead(t.state) && t.res.headers == s.res.headers
            case Stop(_, _, res) => res.headers == s.res.headers
  {
    hide Text, Hex, AllHex;
  }

  /** A run that completes keeps the headers it has, and records every further one behind i. */
  predicate Extends(headers: seq<Header>, s: Scan, i: nat)
  {
    |s.res.headers| <= |headers| && headers[..|s.res.headers|] == s.res.headers
    && forall k :: |s.res.headers| <= k < |headers| ==> headers[k].value.hi >= i
  }

  lemma {:induction false} RunExtends(s: Scan, buf: string, i: nat)
    requires i <= |buf| && Reading(s, i) && Run(s, buf, i).outcome == Completed
    ensures Extends(Run(s, buf, i).res.headers, s, i)
    decreases |buf| - i
  {
    if !InHead(s.state) {
      BodyKeeps(s, buf, i);
    } else {
      StopKeeps(s, buf, i);
      var step := Step(s, buf, i);
      if step.Go? {
        StepReads(s, buf, i);
        hide Step, Reading, InHead, Records;
        RunExtends(step.scan, buf, i + 1);
        ExtendsBack(Run(step.scan, buf, i + 1).res.headers, s, step.scan, i);
      }
    }
  }

  lemma StopKeeps(s: Scan, buf: string, i: nat)
    requires i < |buf| && InHead(s.state)
    ensures Step(s, buf, i).Stop? && Step(s, buf, i).outcome == Completed ==>
              Step(s, buf, i).res == s.res && Step(s, buf, i).state == StatusMsgEnd_rnr
  {
    hide Text, Atoi, Control, IsDigit, IsAlnum;
  }

  lemma ExtendsBack(headers: seq<Header>, s: Scan, t: Scan, i: nat)
    requires Records(s, t, i) && Extends(headers, t, i + 1)
    ensures Extends(headers, s, i)
    ensures t.res.headers != s.res.headers ==>
              |headers| > |s.res.headers| && headers[|s.res.headers|] == Header(s.name, View(s.prev, i))
  {
    var n := |s.res.headers|;
    if t.res.headers != s.res.headers {
      assert headers[n] == headers[..n + 1][n] == t.res.headers[n];
      assert headers[..n] == headers[..n + 1][..n] == t.res.headers[..n];
    }
  }

  // ---------------------------------------------------------------- a step on a beginning of the buffer

  lemma EndCodeShrinks(s: Scan, buf: string, m: nat, i: nat)
    requires s.prev < i < m <= |buf| && buf[i] == ' ' && EndCode(s, buf, i).Go?
    ensures EndCode(s, buf[..m], i) == EndCode(s, buf, i)
  {
    hide Atoi, Decimal, AllDigits;
    TextPrefix(buf, View(s.prev, i), m);
    var code := buf[s.prev..i];
    assert Text(buf, View(s.prev, i)) == code;
    assert buf[..m][s.prev..i] == code;
    PlainDecimal(buf, s.prev, code);
    PlainDecimal(buf[..m], s.prev, code);
  }

  lemma EndValueShrinks(s: Scan, buf: string, m: nat, i: nat)
    requires s.prev <= i < m <= |buf| && s.name.hi <= i && EndValue(s, buf, i).Go?
    ensures EndValue(s, buf[..m], i).Go? <==> !Overruns(buf, Header(s.name, View(s.prev, i)), m)
    ensures EndValue(s, buf[..m], i).Go? ==> EndValue(s, buf[..m], i) == EndValue(s, buf, i)
    ensures EndValue(s, buf[..m], i).Stop? ==> EndValue(s, buf[..m], i).outcome == Fault
  {
    hide Atoi, AtoiEnd;
    TextPrefix(buf, s.name, m);
    TextPrefix(buf, View(s.prev, i), m);
    hide Text;
    if Text(buf, s.name) == "Content-Length" {
      AtoiPrefix(buf, m, s.prev);
    }
  }

  /** In the head a step on the beginning is the same step, unless it ends a length that runs on. */
  lemma StepShrinks(s: Scan, buf: string, i: nat, m: nat)
    requires i < m <= |buf| && InHead(s.state) && Reading(s, i) && Step(s, buf, i).Go?
    ensures var r := Step(s, buf[..m], i);
            var t := Step(s, buf, i).scan;
            if t.res.headers == s.res.headers then r == Go(t, i + 1)
            else if Overruns(buf, Header(s.name, View(s.prev, i)), m) then r.Stop? && r.outcome == Fault
            else r == Go(t, i + 1)
  {
    assert buf[..m][i] == buf[i];
    hide EndValue, EndCode, Overruns, Control, IsDigit, IsAlnum;
    StepReads(s, buf, i);
    if s.state == HeaderValueStart && buf[i] == '\r' && !(buf[i] as int > 31) {
      EndValueRecords(s, buf, i);
      if EndValue(s, buf, i).Go? {
        EndValueShrinks(s, buf, m, i);
      }
    } else if s.state == StatusCodeStart && buf[i] == ' ' {
      if EndCode(s, buf, i).Go? {
        EndCodeShrinks(s, buf, m, i);
      }
    }
  }

  /** What a run on the first m characters comes to: it gets to the body, or stops short of it and is then a fault
      exactly if a length runs on. */
  ghost predicate Comes(outcome: Outcome, inBody: bool, buf: string, headers: seq<Header>, from: nat, m: nat)
  {
    if inBody then !SomeOverruns(buf, headers, from, m) && exists e: nat :: EndsAt(headers, e) && e + 4 <= m
    else outcome == if SomeOverruns(buf, headers, from, m) then Fault else InCompleted
  }

  lemma ComesNext(outcome: Outcome, inBody: bool, buf: string, headers: seq<Header>, from: nat, m: nat)
    requires Comes(outcome, inBody, buf, headers, from + 1, m) && from < |headers| && !Overruns(buf, headers[from], m)
    ensures Comes(outcome, inBody, buf, headers, from, m)
  {
    hide Overruns, EndsAt;
  }

  lemma ComesHere(buf: string, headers: seq<Header>, from: nat, m: nat)
    requires from < |headers| && Overruns(buf, headers[from], m)
    ensures Comes(Fault, false, buf, headers, from, m)
  {
    hide Overruns, EndsAt;
  }

  /** A parse that went on to a body, or that ended behind m. */
  predicate BehindHead(p: Parsed, m: nat)
  {
    p.state == StatusMsgEnd_rnr ==> m < p.used
  }

  /** One step of both runs. */
  lemma HeadStep(s: Scan, buf: string, i: nat, m: nat)
    requires i < m <= |buf| && Reading(s, i) && InHead(s.state)
    requires Run(s, buf, i).outcome == Completed && BehindHead(Run(s, buf, i), m)
    ensures Step(s, buf, i).Go?
    ensures var t := Step(s, buf, i).scan;
            var headers := Run(s, buf, i).res.headers;
            Reading(t, i + 1) && Run(s, buf, i) == Run(t, buf, i + 1)
            && if t.res.headers == s.res.headers then Run(s, buf[..m], i) == Run(t, buf[..m], i + 1)
               else |t.res.headers| == |s.res.headers| + 1 <= |headers|
                    && if Overruns(buf, headers[|s.res.headers|], m) then Run(s, buf[..m], i).outcome == Fault
                       else Run(s, buf[..m], i) == Run(t, buf[..m], i + 1)
  {
    hide Step, Overruns, Extends, Reading, InHead, Records;
    StopKeeps(s, buf, i);
    var t := Step(s, buf, i).scan;
    StepReads(s, buf, i);
    StepShrinks(s, buf, i, m);
    RunExtends(t, buf, i + 1);
    ExtendsBack(Run(s, buf, i).res.headers, s, t, i);
    RecordsOne(s, t, i);
  }

  lemma RecordsOne(s: Scan, t: Scan, i: nat)
    requires Records(s, t, i)
    ensures t.res.headers == s.res.headers || |t.res.headers| == |s.res.headers| + 1
  {
  }

  /** Where no step is left to take. */
  lemma HeadEnds(s: Scan, buf: string, i: nat, m: nat)
    requires i <= m <= |buf| && Reading(s, i) && (!InHead(s.state) || i == m)
    requires Run(s, buf, i).outcome == Completed
    ensures Comes(Run(s, buf[..m], i).outcome, !InHead(s.state), buf, Run(s, buf, i).res.headers, |s.res.headers|, m)
  {
    RunExtends(s, buf, i);
    if !InHead(s.state) {
      BodyKeeps(s, buf, i);
      assert EndsAt(s.res.headers, i - 4);
    }
  }

  lemma {:induction false} HeadPrefix(s: Scan, buf: string, i: nat, m: nat) returns (inBody: bool)
    requires i <= m <= |buf| && Reading(s, i)
    requires Run(s, buf, i).outcome == Completed && BehindHead(Run(s, buf, i), m)
    ensures Comes(Run(s, buf[..m], i).outcome, inBody, buf, Run(s, buf, i).res.headers, |s.res.headers|, m)
    decreases m - i
  {
    hide Comes, Overruns, SomeOverruns, Reading, InHead, Step, Run, Extends;
    inBody := !InHead(s.state);
    if inBody || i == m {
      HeadEnds(s, buf, i, m);
    } else {
      var headers := Run(s, buf, i).res.headers;
      HeadStep(s, buf, i, m);
      var t := Step(s, buf, i).scan;
      if t.res.headers != s.res.headers && Overruns(buf, headers[|s.res.headers|], m) {
        ComesHere(buf, headers, |s.res.headers|, m);
      } else {
        inBody := HeadPrefix(t, buf, i + 1, m);
        if t.res.headers != s.res.headers {
          ComesNext(Run(t, buf[..m], i + 1).outcome, inBody, buf, headers, |s.res.headers|, m);
        }
      }
    }
  }

  // ---------------------------------------------------------------- the head of a beginning

  lemma LearnShrinks(facts: Facts, f: Field, buf: string, at: nat, m: nat)
    requires At(buf, at, PrintField(f)) && at + |PrintField(f)| <= m <= |buf|
    requires Learn(facts, f, buf, ValueAt(f, at)).Some? && !Overruns(buf, HeaderOf(f, at), m)
    ensures Learn(facts, f, buf[..m], ValueAt(f, at)) == Learn(facts, f, buf, ValueAt(f, at))
  {
    hide Atoi, AtoiEnd;
    FieldSplit(buf, at, f);
    FieldText(buf, f, at);
    hide At, PrintField, Text;
    if f.name == "Content-Length" {
      AtoiPrefix(buf, m, ValueAt(f, at));
    }
  }

  lemma {:induction false} LearnAllShrinks(facts: Facts, fields: seq<Field>, buf: string, at: nat, m: nat)
    requires At(buf, at, PrintFields(fields)) && at + |PrintFields(fields)| <= m <= |buf|
    requires LearnAll(facts, fields, buf, at).Some? && !SomeOverruns(buf, HeadersOf(fields, at), 0, m)
    ensures LearnAll(facts, fields, buf[..m], at) == LearnAll(facts, fields, buf, at)
    decreases |fields|
  {
    if fields != [] {
      hide Learn, Overruns, HeaderOf, PrintField, At;
      var next := at + |PrintField(fields[0])|;
      FieldsSplit(buf, fields, at);
      OverrunsFirst(buf, fields, at, m);
      LearnShrinks(facts, fields[0], buf, at, m);
      var more := Learn(facts, fields[0], buf, ValueAt(fields[0], at)).value;
      hide SomeOverruns, HeadersOf;
      LearnAllShrinks(more, fields[1..], buf, next, m);
    }
  }

  /** A head without an overrun still begins what is cut behind it. */
  lemma BeginsShrinks(buf: string, h: Head, facts: Facts, m: nat)
    requires Begins(buf, h, facts) && |PrintHead(h)| <= m <= |buf|
    requires !SomeOverruns(buf, HeadersOf(h.fields, FieldsStart(h)), 0, m)
    ensures Begins(buf[..m], h, facts)
  {
    hide PrintHead, PrintLine, PrintFields, At, LearnAll, HeadOk, SomeOverruns, HeadersOf;
    HeadSplit(buf, h);
    AtPrefix(buf, 0, PrintHead(h), m);
    LearnAllShrinks(NO_FACTS, h.fields, buf, FieldsStart(h), m);
  }

  /** A beginning of a complete message that does not reach its body, or whose lengths run on. */
  lemma HeadCut(buf: string, h: Head, facts: Facts, m: nat)
    requires Begins(buf, h, facts) && Parse(NO_FIELDS, buf).outcome == Completed
    requires m <= |buf| && BehindHead(Parse(NO_FIELDS, buf), m)
    requires m < |PrintHead(h)| || SomeOverruns(buf, HeadersOf(h.fields, FieldsStart(h)), 0, m)
    ensures Parse(NO_FIELDS, buf[..m]).outcome
         == if SomeOverruns(buf, HeadersOf(h.fields, FieldsStart(h)), 0, m) then Fault else InCompleted
  {
    var headers := HeadersOf(h.fields, FieldsStart(h));
    var inBody := HeadPrefix(Scan(StatusStart, 0, NO_VIEW, 0, 0, NO_FIELDS), buf, 0, m);
    hide Run, Begins, PrintLine, PrintFields, Overruns, SomeOverruns;
    var t := ReadUpToBody(buf, h, facts);
    if h.fields != [] {
      BodyKeeps(t.(state := if facts.isChunked then NewChunkStart else DataStart), buf, |PrintHead(h)|);
    }
    assert Parse(NO_FIELDS, buf).res.headers == headers;
    if h.fields != [] {
      FieldsEnd(h.fields, FieldsStart(h));
      HeadLength(h);
    }
    hide PrintHead, HeadersOf;
  }

  lemma HeadLength(h: Head)
    ensures |PrintHead(h)| == FieldsStart(h) + |PrintFields(h.fields)| + 2
  {
    hide PrintLine, PrintFields;
  }

  // ---------------------------------------------------------------- the chunks of a beginning

  /** The buffer ends inside a chunk's data, or right behind it. */
  ghost predicate CutsData(chunks: seq<Chunk>, m: nat)
  {
    exists k :: 0 <= k < |chunks| && chunks[k].data.lo < m <= chunks[k].data.hi
  }

  lemma SizeCut(buf: string, i: nat, size: string, s: Scan, m: nat)
    requires s.state == NewChunkStart && SizeOk(size) && At(buf, i, size + "\r\n")
    requires i <= m <= i + |size| + 2 && m <= |buf| && (Hex(size) == 0 ==> m < i + |size| + 2)
    ensures Run(s, buf[..m], i).outcome == InCompleted
  {
    hide At, Hex;
    AtSplit(buf, i, size, "\r\n");
    AtText(buf, i, size);
    AtBreak(buf, i + |size|);
    if m <= i + |size| {
      SizeRun(buf, i, size, s, m);
    } else {
      AtPrefix(buf, i, size, m);
      ReadSize(buf[..m], i, size, s);
      hide AllHex;
    }
  }

  lemma SizeRun(buf: string, i: nat, size: string, s: Scan, m: nat)
    requires s.state == NewChunkStart && SizeOk(size) && At(buf, i, size) && i <= m <= i + |size| <= |buf|
    ensures Run(s, buf[..m], i).outcome == InCompleted
  {
    hide Hex, EndSize;
    var t := s.(state := ChunkDataSize, prev := i);
    forall k | i <= k < m ensures IsHex(buf[..m][k]) {
      AtChar(buf, i, size, k - i);
    }
    hide At, IsHex;
    if i < m {
      RunOver(t, buf[..m], i + 1, m);
    }
  }

  lemma ChunkCut(buf: string, i: nat, c: ChunkText, s: Scan, m: nat)
    requires s.state == NewChunkStart && ChunkOk(c) && At(buf, i, PrintChunk(c))
    requires i <= m < i + |PrintChunk(c)| && m <= |buf|
    ensures Run(s, buf[..m], i).outcome
         == if ChunkView(c, i).data.lo < m <= ChunkView(c, i).data.hi then Error else InCompleted
  {
    hide At, Hex, AllHex, Run, Step;
    AtSplit(buf, i, c.size + "\r\n", c.data + "\r\n");
    if m <= DataAt(c, i) {
      SizeCut(buf, i, c.size, s, m);
    } else {
      SizeKept(buf, i, c, s, m);
      AtSplit(buf, DataAt(c, i), c.data, "\r\n");
      AtBreak(buf, DataAt(c, i) + |c.data|);
      DataCut(buf[..m], DataAt(c, i), s.(state := ChunkDataSize_rn, prev := i, size := |c.data|));
    }
  }

  /** A size that is there is read. */
  lemma SizeKept(buf: string, i: nat, c: ChunkText, s: Scan, m: nat)
    requires s.state == NewChunkStart && ChunkOk(c) && At(buf, i, c.size + "\r\n") && DataAt(c, i) <= m <= |buf|
    ensures Run(s, buf[..m], i)
         == Run(s.(state := ChunkDataSize_rn, prev := i, size := |c.data|), buf[..m], DataAt(c, i))
  {
    hide At, Hex, AllHex, Run, Step;
    AtPrefix(buf, i, c.size + "\r\n", m);
    AtSplit(buf[..m], i, c.size, "\r\n");
    AtBreak(buf[..m], i + |c.size|);
    ReadSize(buf[..m], i, c.size, s);
    SizeEnds(s.(state := ChunkDataSize_r, prev := i, size := |c.data|), buf[..m], DataAt(c, i) - 1);
  }

  lemma DataCut(buf: string, d: nat, s: Scan)
    requires s.state == ChunkDataSize_rn && s.size >= 1 && d < |buf| <= d + s.size + 1
    requires |buf| == d + s.size + 1 ==> buf[d + s.size] == '\r'
    ensures Run(s, buf, d).outcome == if |buf| <= d + s.size then Error else InCompleted
  {
    if |buf| == d + s.size + 1 {
      var t := s.(state := ChunkDataEnd, res := s.res.(chunks := s.res.chunks + [Chunk(s.size, View(d, d + s.size))]));
      StepsTo(s, buf, d, t, d + s.size);
      StepsTo(t, buf, d + s.size, t.(state := ChunkData_r), |buf|);
    }
  }

  lemma CutsFirst(chunks: seq<ChunkText>, at: nat, m: nat)
    requires chunks != []
    ensures CutsData(ChunksOf(chunks, at), m)
       <==> ChunkView(chunks[0], at).data.lo < m <= ChunkView(chunks[0], at).data.hi
            || CutsData(ChunksOf(chunks[1..], at + |PrintChunk(chunks[0])|), m)
  {
    hide ChunkView, PrintChunk;
    var rest := ChunksOf(chunks[1..], at + |PrintChunk(chunks[0])|);
    var all := ChunksOf(chunks, at);
    assert all == [ChunkView(chunks[0], at)] + rest && all[0] == ChunkView(chunks[0], at);
    if k :| 0 <= k < |rest| && rest[k].data.lo < m <= rest[k].data.hi {
      assert all[k + 1] == rest[k];
    }
    if k :| 0 <= k < |all| && all[k].data.lo < m <= all[k].data.hi {
      assert k > 0 ==> all[k] == rest[k - 1];
    }
  }

  /** Chunks cut behind m contain no data before m. */
  lemma {:induction false} CutsNone(chunks: seq<ChunkText>, at: nat, m: nat)
    requires m <= at
    ensures !CutsData(ChunksOf(chunks, at), m)
    decreases |chunks|
  {
    if chunks != [] {
      CutsNone(chunks[1..], at + |PrintChunk(chunks[0])|, m);
      CutsFirst(chunks, at, m);
      hide CutsData, ChunksOf;
    }
  }

  lemma {:induction false} ChunksCut(buf: string, i: nat, chunks: seq<ChunkText>, zero: string, s: Scan, m: nat)
    requires s.state == NewChunkStart && ChunksOk(chunks) && ZeroOk(zero) && At(buf, i, PrintChunks(chunks, zero))
    requires i <= m < i + |PrintChunks(chunks, zero)| && m <= |buf|
    ensures Run(s, buf[..m], i).outcome == if CutsData(ChunksOf(chunks, i), m) then Error else InCompleted
    decreases |chunks|
  {
    hide Run, Step, At, ChunkOk, PrintChunk, Hex, AllHex, CutsData;
    if chunks == [] {
      SizeCut(buf, i, zero, s, m);
      CutsNone([], i, i);
      assert ChunksOf(chunks, i) == [];
      assert !CutsData([], m) by { CutsNone([], m, m); }
    } else {
      var next := i + |PrintChunk(chunks[0])|;
      ChunksSplit(buf, i, chunks, zero);
      CutsFirst(chunks, i, m);
      hide ChunksOf;
      if m < next {
        ChunkCut(buf, i, chunks[0], s, m);
        CutsNone(chunks[1..], next, m);
      } else {
        AtPrefix(buf, i, PrintChunk(chunks[0]), m);
        ReadChunk(buf[..m], i, chunks[0], s);
        ChunksCut(buf, next, chunks[1..], zero, ChunkScan(s, chunks[0], i), m);
        ViewInside(chunks[0], i);
      }
    }
  }

  lemma ViewInside(c: ChunkText, at: nat)
    ensures ChunkView(c, at).data.hi + 2 == at + |PrintChunk(c)|
  {
  }

  // ---------------------------------------------------------------- every beginning of a complete message

  /** What a parser says of the first m characters of a complete chunked response: data that is cut is an error, a
      length that runs on is a fault, and everything else is incomplete. */
  lemma ChunkedPrefixExactly(buf: string, h: Head, facts: Facts, chunks: seq<ChunkText>, zero: string, m: nat)
    requires Begins(buf, h, facts) && h.fields != [] && facts.isChunked && HasChunks(buf, |PrintHead(h)|, chunks, zero)
    requires m < |PrintHead(h)| + |PrintChunks(chunks, zero)|
    ensures Parse(NO_FIELDS, buf[..m]).outcome
         == if SomeOverruns(buf, HeadersOf(h.fields, FieldsStart(h)), 0, m) then Fault
            else if CutsData(ChunksOf(chunks, |PrintHead(h)|), m) then Error
            else InCompleted
  {
    hide Parse, Run, FieldsOf, PrintHead, At, PrintChunks, ZeroOk, LearnAll, HeadOk, SomeOverruns, CutsData, PrintLine,
      HeadersOf;
    ChunkedParse(buf, h, facts, chunks, zero);
    AtText(buf, |PrintHead(h)|, PrintChunks(chunks, zero));
    if m < |PrintHead(h)| || SomeOverruns(buf, HeadersOf(h.fields, FieldsStart(h)), 0, m) {
      HeadCut(buf, h, facts, m);
      if m < |PrintHead(h)| {
        CutsNone(chunks, |PrintHead(h)|, m);
      }
    } else {
      BeginsShrinks(buf, h, facts, m);
      var t := ReadUpToBody(buf[..m], h, facts);
      ChunksCut(buf, |PrintHead(h)|, chunks, zero, t.(state := NewChunkStart), m);
    }
  }

  /** And of a response whose content is counted: content that is cut is a fault, since the view would leave the buffer,
      and only once the first character behind the head is there is it looked at. */
  lemma CountedPrefixExactly(buf: string, h: Head, facts: Facts, m: nat)
    requires Begins(buf, h, facts) && BodyFollows(buf, h, facts) && h.fields != [] && !facts.isChunked && m <= |buf|
    ensures Parse(NO_FIELDS, buf[..m]).outcome
         == if SomeOverruns(buf, HeadersOf(h.fields, FieldsStart(h)), 0, m) then Fault
            else if m <= |PrintHead(h)| then InCompleted
            else if m < |PrintHead(h)| + facts.length then Fault
            else Completed
  {
    hide Parse, Run, FieldsOf, PrintHead, At, LearnAll, HeadOk, SomeOverruns, PrintLine, HeadersOf, Begins;
    var t := ReadUpToBody(buf, h, facts);
    ReadContent(t.(state := DataStart), buf, |PrintHead(h)|);
    if m < |PrintHead(h)| || SomeOverruns(buf, HeadersOf(h.fields, FieldsStart(h)), 0, m) {
      HeadCut(buf, h, facts, m);
    } else {
      BeginsShrinks(buf, h, facts, m);
      var u := ReadUpToBody(buf[..m], h, facts);
      ReadContent(u.(state := DataStart), buf[..m], |PrintHead(h)|);
    }
  }

  // ---------------------------------------------------------------- one such beginning

  const CHUNKED_HEAD := Head("1.1", "200", "OK", "", [Field("Transfer-Encoding", true, "chunked")])
  const HELLO := ChunkText("5", "hello")

  lemma HelloOk()
    ensures ChunksOk([HELLO]) && ZeroOk("0")
    ensures |PrintChunks([HELLO], "0")| == 13
    ensures ChunksOf([HELLO], |PrintHead(CHUNKED_HEAD)|)
         == [Chunk(5, View(|PrintHead(CHUNKED_HEAD)| + 3, |PrintHead(CHUNKED_HEAD)| + 8))]
  {
    hide PrintHead;
    assert Hex("") == 0;
    assert Hex("5") == 5;
    assert Hex("0") == 0;
    assert [HELLO][1..] == [];
    assert |PrintChunk(HELLO)| == 10;
  }

  lemma ChunkedHeadBegins(buf: string)
    requires At(buf, 0, PrintHead(CHUNKED_HEAD))
    ensures Begins(buf, CHUNKED_HEAD, Facts(0, true))
    ensures !BlankLengths(CHUNKED_HEAD.fields)
  {
    var h := CHUNKED_HEAD;
    assert Decimal("") == 0 && Decimal("2") == 2 && Decimal("20") == 20 && Decimal("200") == 200;
    assert HeadOk(h);
    hide HeadOk;
    HeadSplit(buf, h);
    assert h.fields[1..] == [];
    hide PrintHead, PrintLine, At;
  }

  /** A chunked response is complete; cut inside the data of its chunk, it is an error. */
  lemma TruncationReached(buf: string)
    requires buf == PrintHead(CHUNKED_HEAD) + PrintChunks([HELLO], "0")
    ensures Parse(NO_FIELDS, buf).outcome == Completed
    ensures Parse(NO_FIELDS, buf[..|buf| - 7]).outcome == Error
  {
    hide Parse, PrintChunks, ChunksOk, ZeroOk;
    var h, facts := CHUNKED_HEAD, Facts(0, true);
    var n := |PrintHead(h)|;
    HelloOk();
    ChunkedHeadBegins(buf);
    assert HasChunks(buf, n, [HELLO], "0");
    hide PrintHead, Begins, HeadersOf, SomeOverruns;
    ChunkedParse(buf, h, facts, [HELLO], "0");
    NoLengths(buf, h, facts, n + 6);
    assert n + 3 < n + 6 <= ChunksOf([HELLO], n)[0].data.hi;
    assert CutsData(ChunksOf([HELLO], n), n + 6);
    hide HasChunks, CutsData, ChunksOf;
    ChunkedPrefixExactly(buf, h, facts, [HELLO], "0", n + 6);
  }

  /** Without a blank length no length runs on. */
  lemma NoLengths(buf: string, h: Head, facts: Facts, m: nat)
    requires Begins(buf, h, facts) && !BlankLengths(h.fields)
    ensures !SomeOverruns(buf, HeadersOf(h.fields, FieldsStart(h)), 0, m)
  {
    hide PrintHead, PrintLine, PrintFields, At, LearnAll, Overruns, SomeOverruns, HeadersOf;
    HeadSplit(buf, h);
    NoOverrun(buf, h.fields, FieldsStart(h), m);
  }
}
