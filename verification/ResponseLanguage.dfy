/** What the response parser accepts, and that it undoes the printing of chunked and counted bodies. */
module ResponseLanguage {
  import opened Options
  import opened HttpText
  import opened HttpHeaders
  import opened ResponseMachine
  import opened ResponseGrammar
  import opened ChunkedBody

  // ---------------------------------------------------------------- what follows a head

  lemma ReadBlank(s: Scan, buf: string, i: nat)
    requires s.state in {StatusMsgEnd_rn, Header_rn} && At(buf, i, "\r\n")
    ensures Run(s, buf, i)
         == if s.state == StatusMsgEnd_rn then Parsed(Completed, StatusMsgEnd_rnr, s.res, i + 2)
            else Run(s.(state := if s.res.isChunked then NewChunkStart else DataStart), buf, i + 2)
  {
    AtBreak(buf, i);
  }

  /** From the end of the head on. */
  lemma ReadUpToBody(buf: string, h: Head, facts: Facts) returns (t: Scan)
    requires Begins(buf, h, facts)
    ensures |PrintHead(h)| <= |buf| && t.res == FieldsOf(h, facts) && FactsIn(t) == facts
    ensures Parse(NO_FIELDS, buf)
         == if h.fields == [] then Parsed(Completed, StatusMsgEnd_rnr, FieldsOf(h, facts), |PrintHead(h)|)
            else Run(t.(state := if facts.isChunked then NewChunkStart else DataStart), buf, |PrintHead(h)|)
  {
    hide Run, Parse, FieldsOf;
    t := ReadHead(buf, h, facts);
    hide Begins, PrintHead;
    FactsKept(h, facts);
    ReadBlank(t, buf, |PrintHead(h)| - 2);
  }

  lemma FactsKept(h: Head, facts: Facts)
    requires CodeOk(h.code)
    ensures FieldsOf(h, facts).isChunked == facts.isChunked && FieldsOf(h, facts).chunks == []
  {
  }

  /** Content that is counted: it takes one more character after the head to see it. */
  lemma ReadContent(s: Scan, buf: string, i: nat)
    requires i <= |buf| && s.state == DataStart
    ensures Run(s, buf, i)
         == if i == |buf| then Parsed(InCompleted, DataStart, s.res, i)
            else if 0 <= s.length <= |buf| - i
            then Parsed(Completed, DataStart, s.res.(content := View(i, i + s.length)), i + 1)
            else Parsed(Fault, DataStart, s.res, i + 1)
  {
  }

  /** A buffer of a head and chunks is parsed into the head's pieces and a view of every chunk. */
  lemma ChunkedParse(buf: string, h: Head, facts: Facts, chunks: seq<ChunkText>, zero: string)
    requires Begins(buf, h, facts) && h.fields != [] && facts.isChunked
    requires ChunksOk(chunks) && ZeroOk(zero) && At(buf, |PrintHead(h)|, PrintChunks(chunks, zero))
    ensures Parse(NO_FIELDS, buf)
         == Parsed(Completed, ZeroChunkSize_r, FieldsOf(h, facts).(chunks := ChunksOf(chunks, |PrintHead(h)|)),
                   |PrintHead(h)| + |PrintChunks(chunks, zero)|)
  {
    hide Run, Parse, FieldsOf, PrintHead, At, PrintChunks, ZeroOk;
    var t := ReadUpToBody(buf, h, facts);
    FactsKept(h, facts);
    ReadChunks(buf, |PrintHead(h)|, chunks, zero, t.(state := NewChunkStart));
    assert [] + ChunksOf(chunks, |PrintHead(h)|) == ChunksOf(chunks, |PrintHead(h)|);
  }

  // ---------------------------------------------------------------- round trips

  /** The chunks a sender makes of the pieces of a body, each size spelled in hexadecimal in its own way. */
  function Chunked(pieces: seq<string>, spellings: seq<Spelling>): (r: seq<ChunkText>)
    requires |spellings| == |pieces|
    ensures |r| == |pieces|
  {
    if pieces == [] then []
    else [ChunkText(Spelled(|pieces[0]|, spellings[0]), pieces[0])] + Chunked(pieces[1..], spellings[1..])
  }

  function Concat(pieces: seq<string>): string
  {
    if pieces == [] then "" else pieces[0] + Concat(pieces[1..])
  }

  predicate PiecesOk(pieces: seq<string>)
  {
    forall k :: 0 <= k < |pieces| ==> 1 <= |pieces[k]| <= INT_MAX
  }

  lemma {:induction false} ChunkedOk(pieces: seq<string>, spellings: seq<Spelling>)
    requires PiecesOk(pieces) && |spellings| == |pieces|
    ensures ChunksOk(Chunked(pieces, spellings)) && Content(Chunked(pieces, spellings)) == Concat(pieces)
    decreases |pieces|
  {
    if pieces != [] {
      hide Spelled, Hex;
      HexOfPrint(|pieces[0]|, spellings[0]);
      ChunkedOk(pieces[1..], spellings[1..]);
      var c := ChunkText(Spelled(|pieces[0]|, spellings[0]), pieces[0]);
      assert ChunkOk(c);
      hide ChunkOk;
      var rest := Chunked(pieces[1..], spellings[1..]);
      forall k | 0 <= k < |pieces| ensures ChunkOk(([c] + rest)[k]) {
        if k > 0 {
          assert ([c] + rest)[k] == rest[k - 1];
        }
      }
      assert ([c] + rest)[1..] == rest;
    }
  }

  /** Round trip: every split of a body into non-empty chunks is read back, however the sizes are spelled, and the
      chunks join up to the body. */
  lemma ChunkedRoundTrip(buf: string, h: Head, facts: Facts, pieces: seq<string>, spellings: seq<Spelling>,
                         last: Spelling)
    requires |spellings| == |pieces|
    requires buf == PrintHead(h) + PrintChunks(Chunked(pieces, spellings), Spelled(0, last))
    requires Begins(buf, h, facts) && h.fields != [] && facts.isChunked && PiecesOk(pieces)
    ensures var r := Parse(NO_FIELDS, buf);
            r.outcome == Completed && r.used == |buf| && |r.res.chunks| == |pieces|
            && Joined(buf, r.res.chunks) == Concat(pieces)
  {
    hide Run, Parse, FieldsOf, PrintHead, PrintChunks, Begins, Joined, Content, Concat, Chunked, Spelled;
    var chunks, zero := Chunked(pieces, spellings), Spelled(0, last);
    ChunkedOk(pieces, spellings);
    ZeroSpelled(last);
    hide ZeroOk, ChunksOk;
    var n := |PrintHead(h)|;
    assert At(buf, n, PrintChunks(chunks, zero));
    hide At;
    ChunkedParse(buf, h, facts, chunks, zero);
    JoinedContent(buf, n, chunks, zero);
    ChunksCounted(chunks, n);
  }

  lemma ZeroSpelled(spelling: Spelling)
    ensures ZeroOk(Spelled(0, spelling))
  {
    HexOfPrint(0, spelling);
  }

  lemma ZeroIsOk()
    ensures ZeroOk("0")
  {
  }

  lemma {:induction false} ChunksCounted(chunks: seq<ChunkText>, at: nat)
    ensures |ChunksOf(chunks, at)| == |chunks|
    decreases |chunks|
  {
    if chunks != [] {
      hide PrintChunk;
      ChunksCounted(chunks[1..], at + |PrintChunk(chunks[0])|);
    }
  }

  /** Round trip of a counted body, present and followed by anything. */
  lemma ContentRoundTrip(buf: string, h: Head, facts: Facts, body: string, more: string)
    requires buf == PrintHead(h) + body + more && body + more != ""
    requires Begins(buf, h, facts) && h.fields != [] && !facts.isChunked && facts.length == |body|
    ensures var r := Parse(NO_FIELDS, buf);
            r.outcome == Completed && Text(buf, r.res.content) == body && r.res.headers == FieldsOf(h, facts).headers
  {
    hide Run, Parse, PrintHead, Begins, FieldsOf;
    var t := ReadUpToBody(buf, h, facts);
    ReadContent(t.(state := DataStart), buf, |PrintHead(h)|);
    assert buf[|PrintHead(h)|..|PrintHead(h)| + |body|] == body;
  }

  /** The texts of the recorded views of the head are those printed. */
  lemma HeadPieces(buf: string, h: Head, facts: Facts)
    requires Begins(buf, h, facts)
    ensures var res := FieldsOf(h, facts);
            Text(buf, res.version) == h.version && Text(buf, res.codeText) == h.code
              && Text(buf, res.reason) == h.reason
            && res.code == Decimal(h.code) && HeadersMatch(buf, res.headers, h.fields)
  {
    hide Text, At, PrintHead, LearnAll, Decimal, HeadersMatch, PrintFields, HeadersOf;
    HeadSplit(buf, h);
    LineSplit(buf, h);
    AtSplit(buf, 5, h.version, " ");
    AtText(buf, 5, h.version);
    AtSplit(buf, |h.version| + 6, h.code, " ");
    AtText(buf, |h.version| + 6, h.code);
    AtSplit(buf, |h.version| + |h.code| + 7, h.reason, "\r\n");
    AtText(buf, |h.version| + |h.code| + 7, h.reason);
    HeadersText(buf, h.fields, FieldsStart(h));
  }

  // ---------------------------------------------------------------- the head of an accepted buffer

  lemma FindOne(buf: string, i: nat, s: Scan)
    requires i <= |buf| && Run(s, buf, i).outcome == Completed
    requires s.state in {StatusStart, StatusStart_h, StatusStart_ht, StatusStart_htt, StatusStart_http}
    ensures i < |buf| && Step(s, buf, i).Go? && Step(s, buf, i).next == i + 1
    ensures Run(Step(s, buf, i).scan, buf, i + 1).outcome == Completed
  {
  }

  lemma FindHttp(buf: string, s: Scan)
    requires s.state == StatusStart && Run(s, buf, 0).outcome == Completed
    ensures At(buf, 0, "HTTP/")
  {
    hide Run;
    FindOne(buf, 0, s);
    FindOne(buf, 1, s.(state := StatusStart_h));
    FindOne(buf, 2, s.(state := StatusStart_ht));
    FindOne(buf, 3, s.(state := StatusStart_htt));
    FindOne(buf, 4, s.(state := StatusStart_http));
    assert buf[..5] == "HTTP/";
  }

  lemma FindVersion(buf: string, i: nat, s: Scan) returns (version: string)
    requires i <= |buf| && s.state == HttpEnd && Run(s, buf, i).outcome == Completed
    ensures VersionOk(version) && At(buf, i, version + " ")
  {
    var t := s.(state := VersionStart, prev := i);
    assert Step(s, buf, i) == Go(t, i + 1);
    var e := Leaves(t, buf, i + 1);
    version := buf[i..e];
    forall k | i + 1 <= k < e ensures IsDigit(buf[k]) || buf[k] == '.' {
      assert Step(t, buf, k) == Go(t, k + 1);
    }
    assert buf[i..e + 1] == version + " ";
  }

  lemma FindCode(buf: string, i: nat, s: Scan) returns (code: string)
    requires i <= |buf| && s.state == VersionEnd && Run(s, buf, i).outcome == Completed
    ensures CodeOk(code) && At(buf, i, code + " ")
  {
    hide EndCode;
    var t := s.(state := StatusCodeStart, prev := i);
    assert Step(s, buf, i) == Go(t, i + 1);
    var e := Leaves(t, buf, i + 1);
    code := buf[i..e];
    forall k | i + 1 <= k < e ensures IsDigit(buf[k]) {
      assert Step(t, buf, k) == Go(t, k + 1);
      EndCodeMoves(t, buf, k);
    }
    EndCodeMoves(t, buf, e);
    assert buf[i..e + 1] == code + " ";
    assert EndCode(t, buf, e).Go?;
    hide Step;
    CodeFits(t, buf, e, code);
  }

  lemma EndCodeMoves(s: Scan, buf: string, e: nat)
    requires e <= |buf|
    ensures EndCode(s, buf, e).Go? ==> EndCode(s, buf, e).scan.state == StatusCodeEnd
    ensures EndCode(s, buf, e).Stop? ==> EndCode(s, buf, e).outcome in {Error, Fault}
  {
  }

  lemma CodeFits(s: Scan, buf: string, e: nat, code: string)
    requires At(buf, s.prev, code + " ") && |code| >= 1 && AllDigits(code) && e == s.prev + |code|
    requires e <= |buf| && EndCode(s, buf, e).Go?
    ensures CodeOk(code)
  {
    hide At, Atoi, Decimal, AllDigits;
    AtSplit(buf, s.prev, code, " ");
    AtChar(buf, s.prev + |code|, " ", 0);
    AtText(buf, s.prev, code);
    PlainDecimal(buf, s.prev, code);
  }

  lemma FindReason(buf: string, i: nat, s: Scan) returns (reason: string)
    requires i <= |buf| && s.state == StatusCodeEnd && Run(s, buf, i).outcome == Completed
    ensures ReasonOk(reason) && At(buf, i, reason + "\r\n")
  {
    var t := s.(state := StatusMsg, prev := i);
    assert Step(s, buf, i) == Go(t.(state := StatusMsgStart), i + 1);
    assert i + 1 < |buf| && Step(t.(state := StatusMsgStart), buf, i + 1) == Go(t, i + 2);
    var e := Leaves(t, buf, i + 2);
    reason := buf[i..e];
    forall k | i + 2 <= k < e ensures !Control(buf[k]) {
      assert Step(t, buf, k) == Go(t, k + 1);
    }
    ReasonBreak(buf, e, t);
    assert buf[i..e + 2] == reason + "\r\n";
  }

  lemma ReasonBreak(buf: string, e: nat, s: Scan)
    requires e < |buf| && s.state == StatusMsg && Step(s, buf, e) != Go(s, e + 1) && Run(s, buf, e).outcome == Completed
    ensures e + 1 < |buf| && buf[e] == '\r' && buf[e + 1] == '\n'
  {
  }

  lemma FindJunk(buf: string, i: nat, s: Scan) returns (junk: string)
    requires i <= |buf| && s.state == StatusMsgEnd_rn && Run(s, buf, i).outcome == Completed
    ensures JunkOk(junk) && At(buf, i, junk)
    ensures i + |junk| < |buf| && (buf[i + |junk|] == '\r' || IsAlnum(buf[i + |junk|]))
    ensures Run(s, buf, i + |junk|) == Run(s, buf, i)
  {
    var e := Leaves(s, buf, i);
    junk := buf[i..e];
    forall k | i <= k < e ensures buf[k] != '\r' && !IsAlnum(buf[k]) {
      assert Step(s, buf, k) == Go(s, k + 1);
    }
  }

  lemma FindName(buf: string, i: nat, s: Scan) returns (name: string)
    requires i < |buf| && NameStarts(s, buf[i]) && Run(s, buf, i).outcome == Completed
    ensures NameOk(name) && At(buf, i, name + ":") && name[0] == buf[i]
  {
    var t := s.(state := HeaderName, prev := i);
    assert Step(s, buf, i) == Go(t, i + 1);
    var e := Leaves(t, buf, i + 1);
    name := buf[i..e];
    forall k | i + 1 <= k < e ensures !Control(buf[k]) && buf[k] != ':' {
      assert Step(t, buf, k) == Go(t, k + 1);
    }
    assert buf[i..e + 1] == name + ":";
  }

  lemma EndValueMoves(s: Scan, buf: string, e: nat)
    requires e <= |buf|
    ensures EndValue(s, buf, e).Go? ==> EndValue(s, buf, e).scan.state == Header_r && EndValue(s, buf, e).next == e + 1
    ensures EndValue(s, buf, e).Stop? ==> EndValue(s, buf, e).outcome == Fault
  {
  }

  /** The end of a value goes on only to a '\n'. */
  lemma BreakFollows(s: Scan, buf: string, e: nat)
    requires e < |buf| && s.state == HeaderValueStart && buf[e] == '\r' && Run(s, buf, e).outcome == Completed
    ensures EndValue(s, buf, e).Go? && At(buf, e, "\r\n")
  {
    EndValueMoves(s, buf, e);
    hide EndValue;
    assert Step(s, buf, e) == EndValue(s, buf, e);
    assert e + 1 < |buf| && buf[e + 1] == '\n';
    assert buf[e..e + 2] == "\r\n";
  }

  lemma ValueBegins(buf: string, i: nat, s: Scan)
    requires i <= |buf| && s.state == HeaderNameEnd && Run(s, buf, i).outcome == Completed
    ensures i < |buf|
    ensures var v := if buf[i] == ' ' then i + 1 else i;
            v < |buf| && !Control(buf[v]) && Run(s, buf, i) == Run(s.(state := HeaderValueStart, prev := v), buf, v + 1)
  {
  }

  lemma LeftAt(s: Scan, buf: string, e: nat)
    requires e < |buf| && s.state == HeaderValueStart && Step(s, buf, e) != Go(s, e + 1)
    requires Run(s, buf, e).outcome == Completed
    ensures buf[e] == '\r'
  {
    hide EndValue;
  }

  lemma ValuePassed(s: Scan, buf: string, from: nat, e: nat)
    requires s.state == HeaderValueStart && e <= |buf| && forall k :: from <= k < e ==> Step(s, buf, k) == Go(s, k + 1)
    ensures forall k :: from <= k < e ==> !Control(buf[k])
  {
    hide EndValue;
    forall k | from <= k < e ensures !Control(buf[k]) {
      assert Step(s, buf, k) == Go(s, k + 1);
      EndValueMoves(s, buf, k);
    }
  }

  lemma NoControlIn(buf: string, v: nat, e: nat)
    requires v <= e <= |buf| && forall k :: v <= k < e ==> !Control(buf[k])
    ensures NoControl(buf[v..e])
  {
  }

  lemma ValueThere(buf: string, i: nat, e: nat)
    requires i < |buf| && i + (if buf[i] == ' ' then 1 else 0) < e <= |buf|
    ensures var space := buf[i] == ' ';
            At(buf, i, PrintValue(Field("", space, buf[if space then i + 1 else i..e])))
  {
    assert buf[i..e] == [buf[i]] + buf[i + 1..e];
    assert "" + buf[i..e] == buf[i..e];
  }

  lemma ValueEnds(buf: string, v: nat, t: Scan) returns (e: nat)
    requires t.state == HeaderValueStart && v < |buf| && !Control(buf[v]) && Run(t, buf, v + 1).outcome == Completed
    ensures v < e <= |buf| && NoControl(buf[v..e]) && At(buf, e, "\r\n")
  {
    hide EndValue, Step, Run, NoControl, At, Control;
    e := Leaves(t, buf, v + 1);
    ValuePassed(t, buf, v + 1, e);
    NoControlIn(buf, v, e);
    LeftAt(t, buf, e);
    BreakFollows(t, buf, e);
  }

  lemma FindValue(buf: string, i: nat, s: Scan) returns (space: bool, value: string)
    requires i <= |buf| && s.state == HeaderNameEnd && Run(s, buf, i).outcome == Completed
    ensures |value| >= 1 && NoControl(value) && (!space ==> value[0] != ' ')
    ensures At(buf, i, PrintValue(Field("", space, value)))
    ensures At(buf, i + (if space then 1 else 0) + |value|, "\r\n")
  {
    hide Run, NoControl, PrintValue, At, Control;
    ValueBegins(buf, i, s);
    space := buf[i] == ' ';
    var v := if space then i + 1 else i;
    var e := ValueEnds(buf, v, s.(state := HeaderValueStart, prev := v));
    value := buf[v..e];
    ValueThere(buf, i, e);
  }

  /** A field without a meaning stops the loop. */
  lemma EndLearns(buf: string, f: Field, i: nat, s: Scan)
    requires At(buf, i, f.name) && At(buf, ValueAt(f, i), f.value)
    requires ValueAt(f, i) + |f.value| <= |buf| && EndValue(ValueScan(s, f, i), buf, ValueAt(f, i) + |f.value|).Go?
    ensures Learn(FactsIn(s), f, buf, ValueAt(f, i)).Some?
  {
  }

  lemma FindField(buf: string, i: nat, s: Scan) returns (f: Field, facts: Facts)
    requires i < |buf| && NameStarts(s, buf[i]) && Run(s, buf, i).outcome == Completed
    ensures FieldOk(f) && At(buf, i, PrintField(f)) && ValueAt(f, i) <= |buf| && f.name[0] == buf[i]
    ensures Learn(FactsIn(s), f, buf, ValueAt(f, i)) == Some(facts)
  {
    hide Run, Step, EndValue, Learn, At, NameStarts, NoControl;
    var name := FindName(buf, i, s);
    ReadName(buf, i, Field(name, false, ""), s);
    var t := ValueScan(s, Field(name, false, ""), i).(state := HeaderNameEnd, prev := i);
    var space, value := FindValue(buf, i + |name| + 1, t);
    f := Field(name, space, value);
    assert FieldOk(f);
    hide NameOk, FieldOk, PrintField;
    JoinField(buf, i, f);
    FieldSplit(buf, i, f);
    AtBreak(buf, ValueAt(f, i) + |f.value|);
    ReadText(buf, i, f, s);
    BreakFollows(ValueScan(s, f, i), buf, ValueAt(f, i) + |f.value|);
    EndLearns(buf, f, i, s);
    facts := Learn(FactsIn(s), f, buf, ValueAt(f, i)).value;
  }

  lemma BlankFollows(buf: string, i: nat, s: Scan)
    requires i < |buf| && buf[i] == '\r' && BetweenFields(s) && Run(s, buf, i).outcome == Completed
    ensures At(buf, i, "\r\n")
  {
  }

  lemma JoinFields(buf: string, i: nat, f: Field, rest: seq<Field>)
    requires At(buf, i, PrintField(f)) && At(buf, i + |PrintField(f)|, PrintFields(rest) + "\r\n")
    ensures At(buf, i, PrintFields([f] + rest) + "\r\n")
  {
  }

  lemma LearnFields(facts: Facts, f: Field, more: Facts, rest: seq<Field>, all: Facts, buf: string, i: nat)
    requires i + |PrintFields([f] + rest)| <= |buf| && ValueAt(f, i) <= |buf|
    requires Learn(facts, f, buf, ValueAt(f, i)) == Some(more)
    requires i + |PrintField(f)| + |PrintFields(rest)| <= |buf|
    requires LearnAll(more, rest, buf, i + |PrintField(f)|) == Some(all)
    ensures LearnAll(facts, [f] + rest, buf, i) == Some(all)
  {
  }

  lemma FieldStarts(buf: string, i: nat, s: Scan)
    requires i < |buf| && buf[i] != '\r' && s.state == Header_rn && Run(s, buf, i).outcome == Completed
    ensures NameStarts(s, buf[i])
  {
  }

  lemma {:induction false} FindFields(buf: string, i: nat, s: Scan) returns (fields: seq<Field>, facts: Facts)
    requires i < |buf| && (buf[i] == '\r' || NameStarts(s, buf[i])) && BetweenFields(s)
    requires Run(s, buf, i).outcome == Completed
    ensures FieldsOk(fields) && At(buf, i, PrintFields(fields) + "\r\n")
    ensures fields != [] ==> fields[0].name != "" && fields[0].name[0] == buf[i] && buf[i] != '\r'
    ensures LearnAll(FactsIn(s), fields, buf, i) == Some(facts)
    decreases |buf| - i
  {
    hide Step, Learn, Run, At;
    if buf[i] == '\r' {
      BlankFollows(buf, i, s);
      fields, facts := [], FactsIn(s);
      assert PrintFields([]) + "\r\n" == "\r\n";
    } else {
      var f, more := FindField(buf, i, s);
      assert f.name != "";
      hide LearnAll, PrintFields, FieldOk;
      ReadField(buf, i, f, s, more);
      AtText(buf, i, PrintField(f));
      var t, n := FieldScan(s, f, i, more), i + |PrintField(f)|;
      InsideStill(buf, n, t);
      if buf[n] != '\r' {
        FieldStarts(buf, n, t);
      }
      var rest;
      rest, facts := FindFields(buf, n, t);
      fields := [f] + rest;
      JoinFields(buf, i, f, rest);
      FieldsFit(buf, i, fields);
      FieldsFit(buf, n, rest);
      FieldSplit(buf, i, f);
      LearnFields(FactsIn(s), f, more, rest, facts, buf, i);
    }
  }

  lemma FieldsFit(buf: string, i: nat, fields: seq<Field>)
    requires At(buf, i, PrintFields(fields) + "\r\n")
    ensures i + |PrintFields(fields)| <= |buf|
  {
  }

  lemma InsideStill(buf: string, i: nat, s: Scan)
    requires i <= |buf| && Run(s, buf, i).outcome == Completed
    ensures i < |buf|
  {
  }

  lemma FindLine(buf: string) returns (h: Head)
    requires Parse(NO_FIELDS, buf).outcome == Completed
    ensures VersionOk(h.version) && CodeOk(h.code) && ReasonOk(h.reason) && h.junk == "" && h.fields == []
    ensures At(buf, 0, PrintLine(h))
  {
    hide Run, Step, ReasonOk, VersionOk, At, Decimal, AllDigits;
    var s := Scan(StatusStart, 0, NO_VIEW, 0, 0, NO_FIELDS);
    FindHttp(buf, s);
    AtText(buf, 0, "HTTP/");
    ReadHttp(buf, s);
    var version := FindVersion(buf, 5, s.(state := HttpEnd));
    ReadVersion(buf, 5, version, s.(state := HttpEnd));
    AtText(buf, 5, version + " ");
    var c := |version| + 6;
    var t := s.(state := VersionEnd, prev := 5, res := s.res.(version := View(5, 5 + |version|)));
    var code := FindCode(buf, c, t);
    ReadCode(buf, c, code, t);
    AtText(buf, c, code + " ");
    var r := c + |code| + 1;
    var u := t.(state := StatusCodeEnd, prev := c,
                res := t.res.(codeText := View(c, c + |code|), code := Decimal(code)));
    var reason := FindReason(buf, r, u);
    h := Head(version, code, reason, "", []);
    AtJoin(buf, c, code + " ", reason + "\r\n");
    AtJoin(buf, 5, version + " ", (code + " ") + (reason + "\r\n"));
    AtJoin(buf, 0, "HTTP/", (version + " ") + ((code + " ") + (reason + "\r\n")));
  }

  /** A buffer that is accepted begins with a head of the grammar. */
  lemma AcceptedBegins(buf: string) returns (h: Head, facts: Facts)
    requires Parse(NO_FIELDS, buf).outcome == Completed
    ensures Begins(buf, h, facts)
  {
    hide Run, Parse, At, LearnAll, PrintFields, FieldsOk, JunkOk, VersionOk, ReasonOk, Decimal, AllDigits, PrintLine;
    var line := FindLine(buf);
    ReadLine(buf, line);
    var n := |PrintLine(line)|;
    AtText(buf, 0, PrintLine(line));
    var junk := FindJunk(buf, n, LineScan(line));
    var fields;
    fields, facts := FindFields(buf, n + |junk|, LineScan(line));
    h := line.(junk := junk, fields := fields);
    LineOnly(line, h);
    AtJoin(buf, n, junk, PrintFields(fields) + "\r\n");
    AtJoin(buf, 0, PrintLine(line), junk + (PrintFields(fields) + "\r\n"));
    FieldsFit(buf, n + |junk|, fields);
  }

  lemma LineOnly(line: Head, h: Head)
    requires h == line.(junk := h.junk, fields := h.fields)
    ensures PrintLine(h) == PrintLine(line)
  {
  }

  // ---------------------------------------------------------------- equivalence

  /** A chunked body: chunks and a last one of size zero, then anything. */
  ghost predicate HasChunks(buf: string, at: nat, chunks: seq<ChunkText>, zero: string)
  {
    ChunksOk(chunks) && ZeroOk(zero) && At(buf, at, PrintChunks(chunks, zero))
  }

  /** What has to follow a head: nothing after a head without headers, chunks when it says so, and else at
      least one character and as many as the last Content-Length says. */
  ghost predicate BodyFollows(buf: string, h: Head, facts: Facts)
  {
    var n := |PrintHead(h)|;
    h.fields == []
    || (facts.isChunked && exists chunks, zero :: HasChunks(buf, n, chunks, zero))
    || (!facts.isChunked && n < |buf| && 0 <= facts.length <= |buf| - n)
  }

  /** Completed, if and only if the buffer begins with a head of the grammar and its body. */
  lemma CompletedExactly(buf: string)
    ensures Parse(NO_FIELDS, buf).outcome == Completed
       <==> exists h, facts :: Begins(buf, h, facts) && BodyFollows(buf, h, facts)
  {
    hide Begins, Parse, PrintHead, Run, HasChunks;
    if Parse(NO_FIELDS, buf).outcome == Completed {
      var h, facts := AcceptedBegins(buf);
      CompletedFollows(buf, h, facts);
      assert Begins(buf, h, facts) && BodyFollows(buf, h, facts);
    }
    hide BodyFollows;
    if h, facts :| Begins(buf, h, facts) && BodyFollows(buf, h, facts) {
      FollowsCompletes(buf, h, facts);
    }
  }

  lemma CompletedFollows(buf: string, h: Head, facts: Facts)
    requires Begins(buf, h, facts) && Parse(NO_FIELDS, buf).outcome == Completed
    ensures BodyFollows(buf, h, facts)
  {
    hide Begins, Parse, PrintHead, Run;
    var t := ReadUpToBody(buf, h, facts);
    if h.fields != [] {
      if facts.isChunked {
        var chunks, zero := FindChunks(buf, |PrintHead(h)|, t.(state := NewChunkStart));
        assert HasChunks(buf, |PrintHead(h)|, chunks, zero);
      } else {
        ReadContent(t.(state := DataStart), buf, |PrintHead(h)|);
      }
    }
  }

  lemma FollowsCompletes(buf: string, h: Head, facts: Facts)
    requires Begins(buf, h, facts) && BodyFollows(buf, h, facts)
    ensures Parse(NO_FIELDS, buf).outcome == Completed
  {
    hide Begins, Parse, PrintHead, Run;
    var t := ReadUpToBody(buf, h, facts);
    if h.fields != [] {
      if facts.isChunked {
        hide HasChunks;
        var chunks, zero :| HasChunks(buf, |PrintHead(h)|, chunks, zero);
        ReadThem(buf, h, facts, chunks, zero);
      } else {
        ReadContent(t.(state := DataStart), buf, |PrintHead(h)|);
      }
    }
  }

  lemma ReadThem(buf: string, h: Head, facts: Facts, chunks: seq<ChunkText>, zero: string)
    requires Begins(buf, h, facts) && h.fields != [] && facts.isChunked && HasChunks(buf, |PrintHead(h)|, chunks, zero)
    ensures Parse(NO_FIELDS, buf).outcome == Completed
  {
    ChunkedParse(buf, h, facts, chunks, zero);
  }

  // ---------------------------------------------------------------- the recorded pieces

  /** What a parse records of a head. */
  ghost predicate HeadRecorded(buf: string, res: Fields, h: Head)
  {
    && Text(buf, res.version) == h.version && Text(buf, res.codeText) == h.code && Text(buf, res.reason) == h.reason
    && AllDigits(h.code) && res.code == Decimal(h.code) && HeadersMatch(buf, res.headers, h.fields)
  }

  /** What it records of a body: the counted content, or every chunk of every spelling the buffer has. */
  ghost predicate BodyRecorded(buf: string, res: Fields, h: Head, facts: Facts)
  {
    var n := |PrintHead(h)|;
    if h.fields == [] then Text(buf, res.content) == "" && res.chunks == []
    else if facts.isChunked then
      Text(buf, res.content) == ""
      && forall chunks, zero :: HasChunks(buf, n, chunks, zero) ==>
           |res.chunks| == |chunks| && Joined(buf, res.chunks) == Content(chunks)
    else
      0 <= facts.length <= |buf| - n && Text(buf, res.content) == buf[n..n + facts.length] && res.chunks == []
  }

  /** Every derivation of an accepted buffer is the one the parse records. */
  lemma CompletedPieces(buf: string, h: Head, facts: Facts)
    requires Begins(buf, h, facts) && BodyFollows(buf, h, facts)
    ensures var r := Parse(NO_FIELDS, buf);
            r.outcome == Completed && HeadRecorded(buf, r.res, h) && BodyRecorded(buf, r.res, h, facts)
  {
    FollowsCompletes(buf, h, facts);
    HeadPieces(buf, h, facts);
    hide Run, Parse, PrintHead, Begins, FieldsOf, HasChunks, Joined, Content, HeadersMatch, Text, AllDigits;
    var n := |PrintHead(h)|;
    var t := ReadUpToBody(buf, h, facts);
    FactsKept(h, facts);
    NoContent(buf, h, facts);
    if h.fields != [] {
      if facts.isChunked {
        forall chunks, zero | HasChunks(buf, n, chunks, zero)
          ensures Parse(NO_FIELDS, buf).res == FieldsOf(h, facts).(chunks := ChunksOf(chunks, n))
          ensures |ChunksOf(chunks, n)| == |chunks| && Joined(buf, ChunksOf(chunks, n)) == Content(chunks)
        {
          ChunksRecorded(buf, h, facts, chunks, zero);
        }
      } else {
        ReadContent(t.(state := DataStart), buf, n);
        ContentText(buf, n, facts.length);
      }
    }
  }

  lemma ContentText(buf: string, n: nat, length: nat)
    requires n + length <= |buf|
    ensures Text(buf, View(n, n + length)) == buf[n..n + length]
  {
  }

  lemma NoContent(buf: string, h: Head, facts: Facts)
    requires CodeOk(h.code)
    ensures Text(buf, FieldsOf(h, facts).content) == ""
  {
  }

  lemma ChunksRecorded(buf: string, h: Head, facts: Facts, chunks: seq<ChunkText>, zero: string)
    requires Begins(buf, h, facts) && h.fields != [] && facts.isChunked && HasChunks(buf, |PrintHead(h)|, chunks, zero)
    ensures Parse(NO_FIELDS, buf).res == FieldsOf(h, facts).(chunks := ChunksOf(chunks, |PrintHead(h)|))
    ensures |ChunksOf(chunks, |PrintHead(h)|)| == |chunks|
        && Joined(buf, ChunksOf(chunks, |PrintHead(h)|)) == Content(chunks)
  {
    hide Run, Parse, PrintHead, Begins, FieldsOf, Joined, Content, At, PrintChunks;
    ChunkedParse(buf, h, facts, chunks, zero);
    ChunksCounted(chunks, |PrintHead(h)|);
    JoinedContent(buf, |PrintHead(h)|, chunks, zero);
  }
}
