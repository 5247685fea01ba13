/** The response parser's reading of a printed head: status line and headers. */
module ResponseGrammar {
  import opened Options
  import opened HttpText
  import opened HttpHeaders
  import opened ResponseMachine

  // ---------------------------------------------------------------- grammar

  /** A status line and headers.  Between the two the parser skips whatever is neither alphanumeric nor '\r'. */
  datatype Head = Head(version: string, code: string, reason: string, junk: string, fields: seq<Field>)

  predicate NoControl(s: string)
  {
    forall k :: 0 <= k < |s| ==> !Control(s[k])
  }

  predicate VersionOk(s: string)
  {
    |s| >= 1 && IsDigit(s[0]) && forall k :: 0 <= k < |s| ==> IsDigit(s[k]) || s[k] == '.'
  }

  predicate CodeOk(s: string)
  {
    |s| >= 1 && AllDigits(s) && Decimal(s) <= INT_MAX
  }

  predicate ReasonOk(s: string)
  {
    |s| >= 2 && NoControl(s)
  }

  predicate JunkOk(s: string)
  {
    forall k :: 0 <= k < |s| ==> s[k] != '\r' && !IsAlnum(s[k])
  }

  /** The first character of a name may be a colon; the others may not. */
  predicate NameOk(s: string)
  {
    |s| >= 1 && NoControl(s) && forall k :: 1 <= k < |s| ==> s[k] != ':'
  }

  predicate FieldOk(f: Field)
  {
    NameOk(f.name) && |f.value| >= 1 && NoControl(f.value) && (!f.space ==> f.value[0] != ' ')
  }

  predicate FieldsOk(fields: seq<Field>)
  {
    forall k :: 0 <= k < |fields| ==> FieldOk(fields[k])
  }

  /** The first header begins with a letter or digit. */
  predicate HeadOk(h: Head)
  {
    VersionOk(h.version) && CodeOk(h.code) && ReasonOk(h.reason) && JunkOk(h.junk) && FieldsOk(h.fields)
    && (h.fields != [] ==> h.fields[0].name != "" && IsAlnum(h.fields[0].name[0]))
  }

  function PrintLine(h: Head): string
  {
    "HTTP/" + ((h.version + " ") + ((h.code + " ") + (h.reason + "\r\n")))
  }

  function PrintHead(h: Head): string
  {
    PrintLine(h) + (h.junk + (PrintFields(h.fields) + "\r\n"))
  }

  function FieldsStart(h: Head): nat
  {
    |PrintLine(h)| + |h.junk|
  }

  // ---------------------------------------------------------------- what the grammar means

  /** What the headers say of the body. */
  datatype Facts = Facts(length: int, isChunked: bool)

  const NO_FACTS := Facts(0, false)

  /** One field whose value starts at position at of the buffer. */
  function Learn(facts: Facts, f: Field, buf: string, at: nat): Option<Facts>
    requires at <= |buf|
  {
    if f.name == "Transfer-Encoding" && f.value == "chunked" then Some(facts.(isChunked := true))
    else if f.name == "Content-Length" then
      (match Atoi(buf, at)
       case None => None
       case Some(n) => Some(facts.(length := n)))
    else Some(facts)
  }

  function LearnAll(facts: Facts, fields: seq<Field>, buf: string, at: nat): Option<Facts>
    requires at + |PrintFields(fields)| <= |buf|
    decreases fields
  {
    if fields == [] then Some(facts) else
    match Learn(facts, fields[0], buf, ValueAt(fields[0], at))
    case None => None
    case Some(more) => LearnAll(more, fields[1..], buf, at + |PrintField(fields[0])|)
  }

  /** What is recorded of a head printed at the start of the buffer. */
  function FieldsOf(h: Head, facts: Facts): Fields
    requires CodeOk(h.code)
  {
    var c := |h.version| + 6;
    var r := c + |h.code| + 1;
    Fields(Decimal(h.code), View(c, c + |h.code|), View(r, r + |h.reason|), View(5, 5 + |h.version|),
           HeadersOf(h.fields, FieldsStart(h)), NO_VIEW, facts.isChunked, [])
  }

  // ---------------------------------------------------------------- reading the status line

  lemma ReadHttp(buf: string, s: Scan)
    requires At(buf, 0, "HTTP/") && s.state == StatusStart
    ensures Run(s, buf, 0) == Run(s.(state := HttpEnd), buf, 5)
  {
    forall k | 0 <= k < 5 ensures buf[k] == "HTTP/"[k] {
      AtChar(buf, 0, "HTTP/", k);
    }
    assert buf[0] == 'H' && buf[1] == 'T' && buf[2] == 'T' && buf[3] == 'P' && buf[4] == '/';
    hide At;
    StepsTo(s, buf, 0, s.(state := StatusStart_h), 1);
    StepsTo(s.(state := StatusStart_h), buf, 1, s.(state := StatusStart_ht), 2);
    StepsTo(s.(state := StatusStart_ht), buf, 2, s.(state := StatusStart_htt), 3);
    StepsTo(s.(state := StatusStart_htt), buf, 3, s.(state := StatusStart_http), 4);
    StepsTo(s.(state := StatusStart_http), buf, 4, s.(state := HttpEnd), 5);
  }

  lemma ReadVersion(buf: string, i: nat, version: string, s: Scan)
    requires VersionOk(version) && At(buf, i, version + " ") && s.state == HttpEnd
    ensures Run(s, buf, i)
         == Run(s.(state := VersionEnd, prev := i, res := s.res.(version := View(i, i + |version|))), buf,
                i + |version| + 1)
  {
    hide Run;
    AtSplit(buf, i, version, " ");
    AtChar(buf, i, version, 0);
    AtChar(buf, i + |version|, " ", 0);
    var t := s.(state := VersionStart, prev := i);
    forall k | i + 1 <= k < i + |version| ensures Step(t, buf, k) == Go(t, k + 1) {
      AtChar(buf, i, version, k - i);
    }
    hide At;
    StepsTo(s, buf, i, t, i + 1);
    RunOver(t, buf, i + 1, i + |version|);
    StepsTo(t, buf, i + |version|, t.(state := VersionEnd, res := s.res.(version := View(i, i + |version|))),
            i + |version| + 1);
  }

  lemma EndCodeReads(buf: string, code: string, s: Scan)
    requires CodeOk(code) && At(buf, s.prev, code + " ")
    ensures EndCode(s, buf, s.prev + |code|)
         == Go(s.(state := StatusCodeEnd,
                  res := s.res.(codeText := View(s.prev, s.prev + |code|), code := Decimal(code))),
               s.prev + |code| + 1)
  {
    hide At, Atoi, Decimal, Text, AllDigits;
    AtSplit(buf, s.prev, code, " ");
    AtChar(buf, s.prev + |code|, " ", 0);
    AtText(buf, s.prev, code);
    PlainDecimal(buf, s.prev, code);
  }

  lemma ReadCode(buf: string, i: nat, code: string, s: Scan)
    requires CodeOk(code) && At(buf, i, code + " ") && s.state == VersionEnd
    ensures Run(s, buf, i)
         == Run(s.(state := StatusCodeEnd, prev := i,
                   res := s.res.(codeText := View(i, i + |code|), code := Decimal(code))),
                buf, i + |code| + 1)
  {
    hide Run, EndCode, Decimal, At;
    AtSplit(buf, i, code, " ");
    AtText(buf, i, code);
    AtChar(buf, i, code, 0);
    AtChar(buf, i + |code|, " ", 0);
    var t := s.(state := StatusCodeStart, prev := i);
    forall k | i + 1 <= k < i + |code| ensures Step(t, buf, k) == Go(t, k + 1) {
      AtChar(buf, i, code, k - i);
    }
    StepsTo(s, buf, i, t, i + 1);
    RunOver(t, buf, i + 1, i + |code|);
    EndCodeReads(buf, code, t);
    assert Step(t, buf, i + |code|) == EndCode(t, buf, i + |code|);
    hide Step;
    StepsTo(t, buf, i + |code|,
            t.(state := StatusCodeEnd, res := s.res.(codeText := View(i, i + |code|), code := Decimal(code))),
              i + |code| + 1);
  }

  lemma ReadReason(buf: string, i: nat, reason: string, s: Scan)
    requires ReasonOk(reason) && At(buf, i, reason + "\r\n") && s.state == StatusCodeEnd
    ensures Run(s, buf, i)
         == Run(s.(state := StatusMsgEnd_rn, prev := i, res := s.res.(reason := View(i, i + |reason|))), buf,
                i + |reason| + 2)
  {
    hide Run, At;
    AtSplit(buf, i, reason, "\r\n");
    AtText(buf, i, reason);
    var e := i + |reason|;
    AtBreak(buf, e);
    AtChar(buf, i, reason, 0);
    AtChar(buf, i, reason, 1);
    var t := s.(state := StatusMsg, prev := i);
    forall k | i + 2 <= k < e ensures Step(t, buf, k) == Go(t, k + 1) {
      AtChar(buf, i, reason, k - i);
    }
    StepsTo(s, buf, i, t.(state := StatusMsgStart), i + 1);
    StepsTo(t.(state := StatusMsgStart), buf, i + 1, t, i + 2);
    RunOver(t, buf, i + 2, e);
    var u := t.(state := StatusMsgEnd, res := s.res.(reason := View(i, e)));
    StepsTo(t, buf, e, u, e + 1);
    StepsTo(u, buf, e + 1, u.(state := StatusMsgEnd_rn), e + 2);
  }

  lemma ReadJunk(buf: string, i: nat, junk: string, s: Scan)
    requires JunkOk(junk) && At(buf, i, junk) && s.state == StatusMsgEnd_rn
    ensures i + |junk| <= |buf| && Run(s, buf, i) == Run(s, buf, i + |junk|)
  {
    hide Run, At;
    AtText(buf, i, junk);
    forall k | i <= k < i + |junk| ensures Step(s, buf, k) == Go(s, k + 1) {
      AtChar(buf, i, junk, k - i);
    }
    RunOver(s, buf, i, i + |junk|);
  }

  lemma LineSplit(buf: string, h: Head)
    requires At(buf, 0, PrintLine(h))
    ensures At(buf, 0, "HTTP/") && At(buf, 5, h.version + " ") && At(buf, |h.version| + 6, h.code + " ")
    ensures At(buf, |h.version| + |h.code| + 7, h.reason + "\r\n")
    ensures |PrintLine(h)| == |h.version| + |h.code| + |h.reason| + 9
  {
    hide At;
    AtSplit(buf, 0, "HTTP/", (h.version + " ") + ((h.code + " ") + (h.reason + "\r\n")));
    AtSplit(buf, 5, h.version + " ", (h.code + " ") + (h.reason + "\r\n"));
    AtSplit(buf, |h.version| + 6, h.code + " ", h.reason + "\r\n");
  }

  /** The scan once the status line is read. */
  function LineScan(h: Head): Scan
    requires CodeOk(h.code)
  {
    Scan(StatusMsgEnd_rn, |h.version| + |h.code| + 7, NO_VIEW, 0, 0, FieldsOf(h.(fields := []), NO_FACTS))
  }

  lemma ReadLine(buf: string, h: Head)
    requires VersionOk(h.version) && CodeOk(h.code) && ReasonOk(h.reason) && At(buf, 0, PrintLine(h))
    ensures Parse(NO_FIELDS, buf) == Run(LineScan(h), buf, |PrintLine(h)|)
  {
    hide Run, Step, VersionOk, ReasonOk, Decimal, AllDigits;
    LineSplit(buf, h);
    hide PrintLine, At;
    var s := Scan(StatusStart, 0, NO_VIEW, 0, 0, NO_FIELDS);
    ReadHttp(buf, s);
    ReadVersion(buf, 5, h.version, s.(state := HttpEnd));
    var c := |h.version| + 6;
    var t := s.(state := VersionEnd, prev := 5, res := s.res.(version := View(5, 5 + |h.version|)));
    ReadCode(buf, c, h.code, t);
    var u := t.(state := StatusCodeEnd, prev := c,
                res := t.res.(codeText := View(c, c + |h.code|), code := Decimal(h.code)));
    ReadReason(buf, c + |h.code| + 1, h.reason, u);
  }

  // ---------------------------------------------------------------- reading the headers

  function FactsIn(s: Scan): Facts
  {
    Facts(s.length, s.res.isChunked)
  }

  /** Where a header may begin: the first one only with a letter or digit. */
  predicate BetweenFields(s: Scan)
  {
    s.state in {StatusMsgEnd_rn, Header_rn}
  }

  predicate NameStarts(s: Scan, c: char)
  {
    BetweenFields(s) && !Control(c) && (s.state == StatusMsgEnd_rn ==> IsAlnum(c))
  }

  /** The scan at the end of the value of a field printed at i. */
  function ValueScan(s: Scan, f: Field, i: nat): Scan
  {
    s.(state := HeaderValueStart, prev := ValueAt(f, i), name := View(i, i + |f.name|))
  }

  /** The scan once a field printed at i is read. */
  function FieldScan(s: Scan, f: Field, i: nat, facts: Facts): Scan
  {
    Scan(Header_rn, ValueAt(f, i), View(i, i + |f.name|), facts.length, s.size,
         s.res.(headers := s.res.headers + [HeaderOf(f, i)], isChunked := facts.isChunked))
  }

  lemma ReadName(buf: string, i: nat, f: Field, s: Scan)
    requires NameOk(f.name) && At(buf, i, f.name + ":") && NameStarts(s, f.name[0])
    ensures Run(s, buf, i) == Run(ValueScan(s, f, i).(state := HeaderNameEnd, prev := i), buf, i + |f.name| + 1)
  {
    hide Run, At;
    AtSplit(buf, i, f.name, ":");
    AtText(buf, i, f.name);
    AtChar(buf, i, f.name, 0);
    AtChar(buf, i + |f.name|, ":", 0);
    var t := s.(state := HeaderName, prev := i);
    forall k | i + 1 <= k < i + |f.name| ensures Step(t, buf, k) == Go(t, k + 1) {
      AtChar(buf, i, f.name, k - i);
    }
    StepsTo(s, buf, i, t, i + 1);
    RunOver(t, buf, i + 1, i + |f.name|);
    StepsTo(t, buf, i + |f.name|, ValueScan(s, f, i).(state := HeaderNameEnd, prev := i), i + |f.name| + 1);
  }

  lemma StartValue(buf: string, i: nat, s: Scan)
    requires s.state == HeaderNameEnd && i < |buf| && (buf[i] == ' ' ==> i + 1 < |buf|)
    requires !Control(if buf[i] == ' ' then buf[i + 1] else buf[i])
    ensures var v := if buf[i] == ' ' then i + 1 else i;
            Run(s, buf, i) == Run(s.(state := HeaderValueStart, prev := v), buf, v + 1)
  {
  }

  lemma PassValue(buf: string, value: string, s: Scan)
    requires s.state == HeaderValueStart && |value| >= 1 && NoControl(value) && At(buf, s.prev, value)
    ensures Run(s, buf, s.prev + 1) == Run(s, buf, s.prev + |value|)
  {
    hide Run, At, EndValue;
    AtText(buf, s.prev, value);
    forall k | s.prev + 1 <= k < s.prev + |value| ensures Step(s, buf, k) == Go(s, k + 1) {
      AtChar(buf, s.prev, value, k - s.prev);
    }
    RunOver(s, buf, s.prev + 1, s.prev + |value|);
  }

  /** The value, up to the '\r' that ends it. */
  lemma ReadValue(buf: string, i: nat, f: Field, s: Scan)
    requires |f.value| >= 1 && NoControl(f.value) && (!f.space ==> f.value[0] != ' ')
    requires At(buf, i, PrintValue(f)) && s.state == HeaderNameEnd
    ensures var v := if f.space then i + 1 else i;
            Run(s, buf, i) == Run(s.(state := HeaderValueStart, prev := v), buf, v + |f.value|)
  {
    hide Run, Step, At;
    var v := if f.space then i + 1 else i;
    AtSplit(buf, i, if f.space then " " else "", f.value);
    if f.space {
      AtChar(buf, i, " ", 0);
    }
    AtChar(buf, v, f.value, 0);
    StartValue(buf, i, s);
    PassValue(buf, f.value, s.(state := HeaderValueStart, prev := v));
  }

  lemma ReadText(buf: string, i: nat, f: Field, s: Scan)
    requires FieldOk(f) && At(buf, i, PrintField(f)) && NameStarts(s, f.name[0])
    ensures ValueAt(f, i) + |f.value| <= |buf|
    ensures Run(s, buf, i) == Run(ValueScan(s, f, i), buf, ValueAt(f, i) + |f.value|)
  {
    hide Run, Step;
    FieldSplit(buf, i, f);
    hide At, PrintField, NoControl, NameOk, PrintValue, NameStarts;
    ReadName(buf, i, f, s);
    ReadValue(buf, i + |f.name| + 1, f, ValueScan(s, f, i).(state := HeaderNameEnd, prev := i));
  }

  /** The look into a header once its value has ended. */
  lemma ReadEnd(buf: string, f: Field, i: nat, s: Scan, facts: Facts)
    requires At(buf, i, f.name) && At(buf, ValueAt(f, i), f.value)
    requires Learn(FactsIn(s), f, buf, ValueAt(f, i)) == Some(facts)
    ensures EndValue(ValueScan(s, f, i), buf, ValueAt(f, i) + |f.value|)
         == Go(FieldScan(s, f, i, facts).(state := Header_r), ValueAt(f, i) + |f.value| + 1)
  {
  }

  lemma ReadBreak(s: Scan, buf: string, e: nat, t: Scan)
    requires s.state == HeaderValueStart && At(buf, e, "\r\n")
    requires EndValue(s, buf, e) == Go(t.(state := Header_r), e + 1) && t.state == Header_rn
    ensures Run(s, buf, e) == Run(t, buf, e + 2)
  {
    hide EndValue, Run;
    AtBreak(buf, e);
    hide At;
    StepsTo(s, buf, e, t.(state := Header_r), e + 1);
    StepsTo(t.(state := Header_r), buf, e + 1, t, e + 2);
  }

  lemma ReadField(buf: string, i: nat, f: Field, s: Scan, facts: Facts)
    requires FieldOk(f) && At(buf, i, PrintField(f)) && NameStarts(s, f.name[0])
    requires Learn(FactsIn(s), f, buf, ValueAt(f, i)) == Some(facts)
    ensures Run(s, buf, i) == Run(FieldScan(s, f, i, facts), buf, i + |PrintField(f)|)
  {
    hide Run, Step, EndValue, Learn, FieldOk, NameStarts;
    FieldSplit(buf, i, f);
    hide At, PrintField;
    ReadText(buf, i, f, s);
    ReadEnd(buf, f, i, s, facts);
    ReadBreak(ValueScan(s, f, i), buf, ValueAt(f, i) + |f.value|, FieldScan(s, f, i, facts));
  }

  /** A scan that has read a list of fields printed at i, whatever its prev_it and header_name are. */
  predicate HasRead(t: Scan, s: Scan, fields: seq<Field>, i: nat, facts: Facts)
  {
    t.state == (if fields == [] then s.state else Header_rn) && FactsIn(t) == facts && t.size == s.size
    && t.res == s.res.(headers := s.res.headers + HeadersOf(fields, i), isChunked := facts.isChunked)
  }

  lemma HasReadMore(t: Scan, s: Scan, fields: seq<Field>, i: nat, more: Facts, facts: Facts)
    requires fields != []
    requires HasRead(t, FieldScan(s, fields[0], i, more), fields[1..], i + |PrintField(fields[0])|, facts)
    ensures HasRead(t, s, fields, i, facts)
  {
  }

  predicate FirstStarts(s: Scan, fields: seq<Field>)
  {
    fields != [] ==> fields[0].name != "" && NameStarts(s, fields[0].name[0])
  }

  lemma NextStarts(s: Scan, fields: seq<Field>)
    requires FieldsOk(fields) && s.state == Header_rn
    ensures FirstStarts(s, fields)
  {
  }

  lemma {:induction false} ReadFields(buf: string, i: nat, fields: seq<Field>, s: Scan, facts: Facts) returns (t: Scan)
    requires FieldsOk(fields) && At(buf, i, PrintFields(fields)) && FirstStarts(s, fields)
    requires LearnAll(FactsIn(s), fields, buf, i) == Some(facts)
    ensures HasRead(t, s, fields, i, facts)
    ensures Run(s, buf, i) == Run(t, buf, i + |PrintFields(fields)|)
    decreases |fields|
  {
    hide Run, Step, Learn, FieldOk, NameStarts, At;
    AtText(buf, i, PrintFields(fields));
    if fields == [] {
      t := s;
      assert s.res.headers + [] == s.res.headers;
    } else {
      FieldsSplit(buf, fields, i);
      FieldSplit(buf, i, fields[0]);
      var more := Learn(FactsIn(s), fields[0], buf, ValueAt(fields[0], i)).value;
      hide HasRead;
      ReadField(buf, i, fields[0], s, more);
      var u := FieldScan(s, fields[0], i, more);
      NextStarts(u, fields[1..]);
      t := ReadFields(buf, i + |PrintField(fields[0])|, fields[1..], u, facts);
      HasReadMore(t, s, fields, i, more, facts);
    }
  }

  // ---------------------------------------------------------------- reading a head

  /** The grammar: buf begins with a head whose numbers are in range. */
  ghost predicate Begins(buf: string, h: Head, facts: Facts)
  {
    HeadOk(h) && At(buf, 0, PrintHead(h)) && LearnAll(NO_FACTS, h.fields, buf, FieldsStart(h)) == Some(facts)
  }

  lemma HeadSplit(buf: string, h: Head)
    requires At(buf, 0, PrintHead(h))
    ensures At(buf, 0, PrintLine(h)) && At(buf, |PrintLine(h)|, h.junk)
        && At(buf, FieldsStart(h), PrintFields(h.fields))
    ensures |PrintHead(h)| == FieldsStart(h) + |PrintFields(h.fields)| + 2 && At(buf, |PrintHead(h)| - 2, "\r\n")
    ensures FieldsStart(h) + |PrintFields(h.fields)| <= |buf|
  {
    hide PrintLine, PrintFields, At;
    AtSplit(buf, 0, PrintLine(h), h.junk + (PrintFields(h.fields) + "\r\n"));
    AtSplit(buf, |PrintLine(h)|, h.junk, PrintFields(h.fields) + "\r\n");
    AtSplit(buf, FieldsStart(h), PrintFields(h.fields), "\r\n");
    AtText(buf, FieldsStart(h), PrintFields(h.fields));
  }

  lemma ReadHead(buf: string, h: Head, facts: Facts) returns (t: Scan)
    requires Begins(buf, h, facts)
    ensures At(buf, |PrintHead(h)| - 2, "\r\n") && |PrintHead(h)| <= |buf|
    ensures Parse(NO_FIELDS, buf) == Run(t, buf, |PrintHead(h)| - 2)
    ensures t.state == (if h.fields == [] then StatusMsgEnd_rn else Header_rn) && FactsIn(t) == facts
    ensures t.res == FieldsOf(h, facts)
  {
    hide Run, Step, LearnAll, Parse, PrintLine, PrintFields, At, Decimal, VersionOk, ReasonOk, JunkOk, FieldsOk;
    HeadSplit(buf, h);
    AtBreak(buf, |PrintHead(h)| - 2);
    hide PrintHead;
    ReadLine(buf, h);
    ReadJunk(buf, |PrintLine(h)|, h.junk, LineScan(h));
    t := ReadFields(buf, FieldsStart(h), h.fields, LineScan(h), facts);
    assert [] + HeadersOf(h.fields, FieldsStart(h)) == HeadersOf(h.fields, FieldsStart(h));
  }
}
