/** The language of the request parser: a grammar with a printer, and both directions of acceptance. */
module RequestGrammar {
  import opened Options
  import opened HttpText
  import opened HttpHeaders
  import opened RequestMachine

  // ---------------------------------------------------------------- grammar

  /** A request line and headers. */
  datatype Head = Head(verb: string, uri: string, version: string, fields: seq<Field>)

  predicate NoControl(s: string)
  {
    forall k :: 0 <= k < |s| ==> !Control(s[k])
  }

  predicate VerbOk(s: string)
  {
    |s| >= 1 && AllAlpha(s)
  }

  /** The first character of a URI may even be a space; the others may not. */
  predicate UriOk(s: string)
  {
    |s| >= 1 && NoControl(s) && forall k :: 1 <= k < |s| ==> s[k] != ' '
  }

  predicate VersionOk(s: string)
  {
    |s| >= 1 && IsDigit(s[0]) && forall k :: 0 <= k < |s| ==> IsDigit(s[k]) || s[k] == '.'
  }

  /** The first character of a name may even be a colon; the others may not. */
  predicate NameOk(s: string)
  {
    |s| >= 1 && NoControl(s) && forall k :: 1 <= k < |s| ==> s[k] != ':'
  }

  predicate FieldOk(f: Field)
  {
    NameOk(f.name) && |f.value| >= 1 && NoControl(f.value) && (!f.space ==> f.value[0] != ' ')
  }

  predicate FieldsOk(fields: seq<Field>)
  {
    forall k :: 0 <= k < |fields| ==> FieldOk(fields[k])
  }

  predicate HeadOk(h: Head)
  {
    VerbOk(h.verb) && UriOk(h.uri) && VersionOk(h.version) && FieldsOk(h.fields)
  }

  function PrintLine(h: Head): string
  {
    (h.verb + " ") + ((h.uri + " ") + ("HTTP/" + (h.version + "\r\n")))
  }

  function PrintHead(h: Head): string
  {
    PrintLine(h) + (PrintFields(h.fields) + "\r\n")
  }

  // ---------------------------------------------------------------- what the grammar means

  /** What the headers say of the body, as far as the parser looks: the last multipart Content-Type
      gives the boundary, the last Content-Length the size. */
  datatype Facts = Facts(size: nat, isMultipart: bool, boundary: View)

  /** One field whose value starts at position at of the buffer. */
  function Learn(facts: Facts, f: Field, buf: string, at: nat): Option<Facts>
    requires at <= |buf|
  {
    if f.name == "Content-Type" && Find(f.value, MULTIPART).Some? then
      (match Find(f.value, BOUNDARY)
       case None => None
       case Some(k) => Some(facts.(isMultipart := true, boundary := View(at + k + |BOUNDARY|, at + |f.value|))))
    else if f.name == "Content-Length" then
      (match Atoi(buf, at)
       case None => None
       case Some(n) => Some(facts.(size := if n >= 0 then n else TWO_64 + n)))
    else Some(facts)
  }

  function LearnAll(facts: Facts, fields: seq<Field>, buf: string, at: nat): Option<Facts>
    requires at + |PrintFields(fields)| <= |buf|
    decreases fields
  {
    if fields == [] then Some(facts) else
    match Learn(facts, fields[0], buf, ValueAt(fields[0], at))
    case None => None
    case Some(more) => LearnAll(more, fields[1..], buf, at + |PrintField(fields[0])|)
  }

  /** The fields of the request once a head printed at the start of the buffer has been read. */
  function FieldsOf(h: Head, facts: Facts): Fields
  {
    var u := |h.verb| + 1;
    var v := u + |h.uri| + 6;
    Fields(View(0, |h.verb|), View(u, u + |h.uri|), View(v, v + |h.version|), HeadersOf(h.fields, |PrintLine(h)|),
           NO_VIEW, facts.size, facts.isMultipart, facts.boundary, [])
  }

  // ---------------------------------------------------------------- reading a head: the request line

  const NO_FACTS := Facts(0, false, NO_VIEW)

  lemma ReadVerb(buf: string, verb: string, req: Fields)
    requires VerbOk(verb) && At(buf, 0, verb + " ")
    ensures Run(Scan(MethodUnstart, 0, 0, req), buf, 0)
         == Run(Scan(MethodEnd, 0, 0, req.(verb := View(0, |verb|))), buf, |verb| + 1)
  {
    AtSplit(buf, 0, verb, " ");
    AtChar(buf, 0, verb, 0);
    AtChar(buf, |verb|, " ", 0);
    var s := Scan(MethodStart, 0, 0, req);
    forall k | 1 <= k < |verb| ensures Step(s, buf, k) == Go(s) {
      AtChar(buf, 0, verb, k);
    }
    hide At;
    RunOver(s, buf, 1, |verb|);
  }

  lemma ReadUri(buf: string, i: nat, uri: string, s: Scan)
    requires UriOk(uri) && At(buf, i, uri + " ") && s.state == MethodEnd
    ensures Run(s, buf, i)
         == Run(s.(state := UriEnd, prev := i, req := s.req.(uri := View(i, i + |uri|))), buf, i + |uri| + 1)
  {
    AtSplit(buf, i, uri, " ");
    var t := s.(state := UriStart, prev := i);
    AtChar(buf, i, uri, 0);
    AtChar(buf, i + |uri|, " ", 0);
    forall k | i + 1 <= k < i + |uri| ensures Step(t, buf, k) == Go(t) {
      AtChar(buf, i, uri, k - i);
    }
    hide At;
    RunOver(t, buf, i + 1, i + |uri|);
  }

  lemma ReadHttp(buf: string, i: nat, s: Scan)
    requires At(buf, i, "HTTP/") && s.state == UriEnd
    ensures Run(s, buf, i) == Run(s.(state := HttpEnd, prev := i), buf, i + 5)
  {
    var t := s.(state := HttpStart, prev := i);
    forall k | 0 <= k < 5 ensures buf[i + k] == "HTTP/"[k] {
      AtChar(buf, i, "HTTP/", k);
    }
    assert buf[i] == 'H' && buf[i + 1] == 'T' && buf[i + 2] == 'T' && buf[i + 3] == 'P' && buf[i + 4] == '/';
    RunOver(t, buf, i + 1, i + 4);
    assert buf[i..i + 4] == "HTTP";
  }

  lemma ReadVersion(buf: string, i: nat, version: string, s: Scan)
    requires VersionOk(version) && At(buf, i, version + "\r\n") && s.state == HttpEnd
    ensures Run(s, buf, i)
         == Run(s.(state := VersionEnd_rn, prev := i, req := s.req.(version := View(i, i + |version|))), buf,
                i + |version| + 2)
  {
    AtSplit(buf, i, version, "\r\n");
    var t := s.(state := VersionStart, prev := i);
    AtChar(buf, i, version, 0);
    forall k | i + 1 <= k < i + |version| ensures Step(t, buf, k) == Go(t) {
      AtChar(buf, i, version, k - i);
    }
    var e := i + |version|;
    AtBreak(buf, e);
    hide At;
    RunOver(t, buf, i + 1, e);
    var u := t.(state := VersionEnd_r, req := s.req.(version := View(i, e)));
    assert Step(t, buf, e) == Go(u);
  }

  /** The scan once the request line is read. */
  function LineScan(h: Head): Scan
  {
    Scan(VersionEnd_rn, |h.verb| + |h.uri| + 7, 0, FieldsOf(h.(fields := []), NO_FACTS))
  }

  lemma LineSplit(buf: string, h: Head)
    requires At(buf, 0, PrintLine(h))
    ensures At(buf, 0, h.verb + " ")
    ensures At(buf, |h.verb| + 1, h.uri + " ")
    ensures At(buf, |h.verb| + |h.uri| + 2, "HTTP/")
    ensures At(buf, |h.verb| + |h.uri| + 7, h.version + "\r\n")
    ensures |PrintLine(h)| == |h.verb| + |h.uri| + |h.version| + 9
  {
    hide At;
    var tail := (h.uri + " ") + ("HTTP/" + (h.version + "\r\n"));
    AtSplit(buf, 0, h.verb + " ", tail);
    AtSplit(buf, |h.verb| + 1, h.uri + " ", "HTTP/" + (h.version + "\r\n"));
    AtSplit(buf, |h.verb| + |h.uri| + 2, "HTTP/", h.version + "\r\n");
  }

  lemma ReadLine(buf: string, h: Head)
    requires VerbOk(h.verb) && UriOk(h.uri) && VersionOk(h.version) && At(buf, 0, PrintLine(h))
    ensures Parse(NO_FIELDS, buf) == Run(LineScan(h), buf, |PrintLine(h)|)
  {
    hide Run, Step, UriOk, VersionOk, VerbOk;
    LineSplit(buf, h);
    hide PrintLine, At;
    var u := |h.verb| + 1;
    var w := u + |h.uri| + 1;
    ReadVerb(buf, h.verb, NO_FIELDS);
    var s := Scan(MethodEnd, 0, 0, NO_FIELDS.(verb := View(0, |h.verb|)));
    ReadUri(buf, u, h.uri, s);
    var s2 := s.(state := UriEnd, prev := u, req := s.req.(uri := View(u, u + |h.uri|)));
    ReadHttp(buf, w, s2);
    ReadVersion(buf, w + 5, h.version, s2.(state := HttpEnd, prev := w));
  }

  // ---------------------------------------------------------------- reading a head: the headers

  /** The facts a scan holds; its countdown is the size until the body begins. */
  function FactsIn(s: Scan): Facts
  {
    Facts(s.req.contentSize, s.req.isMultipart, s.req.boundary)
  }

  function WithFacts(req: Fields, facts: Facts): Fields
  {
    req.(contentSize := facts.size, isMultipart := facts.isMultipart, boundary := facts.boundary)
  }

  predicate BetweenFields(s: Scan)
  {
    s.state in {VersionEnd_rn, Header_rn} && s.remaining == s.req.contentSize
  }

  /** The scan once a field printed at i is read. */
  function FieldScan(s: Scan, f: Field, i: nat, facts: Facts): Scan
  {
    Scan(Header_rn, ValueAt(f, i), facts.size, WithFacts(s.req.(headers := s.req.headers + [HeaderOf(f, i)]), facts))
  }

  /** The scan at the end of the value of a field printed at i. */
  function ValueScan(s: Scan, f: Field, i: nat): Scan
  {
    s.(state := HeaderValueStart, prev := ValueAt(f, i),
       req := s.req.(headers := s.req.headers + [Header(View(i, i + |f.name|), NO_VIEW)]))
  }

  lemma ReadName(buf: string, i: nat, f: Field, s: Scan)
    requires NameOk(f.name) && At(buf, i, f.name + ":") && BetweenFields(s)
    ensures Run(s, buf, i) == Run(ValueScan(s, f, i).(state := HeaderNameEnd, prev := i), buf, i + |f.name| + 1)
  {
    AtSplit(buf, i, f.name, ":");
    var t := s.(state := HeaderStart, prev := i);
    AtChar(buf, i, f.name, 0);
    AtChar(buf, i + |f.name|, ":", 0);
    forall k | i + 1 <= k < i + |f.name| ensures Step(t, buf, k) == Go(t) {
      AtChar(buf, i, f.name, k - i);
    }
    hide At;
    RunOver(t, buf, i + 1, i + |f.name|);
  }

  /** The value, up to the '\r' that ends it. */
  lemma ReadValue(buf: string, i: nat, f: Field, s: Scan)
    requires |f.value| >= 1 && NoControl(f.value) && (!f.space ==> f.value[0] != ' ')
    requires At(buf, i, PrintValue(f)) && s.state == HeaderNameEnd
    ensures var v := if f.space then i + 1 else i;
            Run(s, buf, i) == Run(s.(state := HeaderValueStart, prev := v), buf, v + |f.value|)
  {
    hide Run, Step, At;
    var v := if f.space then i + 1 else i;
    AtSplit(buf, i, if f.space then " " else "", f.value);
    if f.space {
      AtChar(buf, i, " ", 0);
    }
    AtChar(buf, v, f.value, 0);
    StartValue(buf, i, s);
    PassValue(buf, f.value, s.(state := HeaderValueStart, prev := v));
  }

  lemma StartValue(buf: string, i: nat, s: Scan)
    requires s.state == HeaderNameEnd && i < |buf| && (buf[i] == ' ' ==> i + 1 < |buf|)
    requires !Control(if buf[i] == ' ' then buf[i + 1] else buf[i])
    ensures var v := if buf[i] == ' ' then i + 1 else i;
            Run(s, buf, i) == Run(s.(state := HeaderValueStart, prev := v), buf, v + 1)
  {
  }

  lemma PassValue(buf: string, value: string, s: Scan)
    requires s.state == HeaderValueStart && |value| >= 1 && NoControl(value) && At(buf, s.prev, value)
    ensures Run(s, buf, s.prev + 1) == Run(s, buf, s.prev + |value|)
  {
    hide Run, At, EndValue;
    AtText(buf, s.prev, value);
    forall k | s.prev + 1 <= k < s.prev + |value| ensures Step(s, buf, k) == Go(s) {
      AtChar(buf, s.prev, value, k - s.prev);
    }
    RunOver(s, buf, s.prev + 1, s.prev + |value|);
  }

  /** The look into a header once its value has ended. */
  lemma ReadEnd(buf: string, f: Field, i: nat, s: Scan, facts: Facts)
    requires At(buf, i, f.name) && At(buf, ValueAt(f, i), f.value) && BetweenFields(s)
    requires Learn(FactsIn(s), f, buf, ValueAt(f, i)) == Some(facts)
    ensures EndValue(ValueScan(s, f, i), buf, ValueAt(f, i) + |f.value|)
        == Go(FieldScan(s, f, i, facts).(state := Header_r))
  {
    hide Find, Atoi;
    var hs := s.req.headers + [Header(View(i, i + |f.name|), NO_VIEW)];
    assert hs[|hs| - 1] == Header(View(i, i + |f.name|), NO_VIEW);
    var done := s.req.headers + [HeaderOf(f, i)];
    assert done == hs[..|hs| - 1] + [HeaderOf(f, i)];
    assert Text(buf, View(i, i + |f.name|)) == f.name;
    assert Text(buf, View(ValueAt(f, i), ValueAt(f, i) + |f.value|)) == f.value;
    hide At, Text;
  }

  lemma ReadBreak(s: Scan, buf: string, e: nat, t: Scan)
    requires s.state == HeaderValueStart && At(buf, e, "\r\n")
    requires EndValue(s, buf, e) == Go(t.(state := Header_r)) && t.state == Header_rn
    ensures Run(s, buf, e) == Run(t, buf, e + 2)
  {
    hide EndValue;
    AtBreak(buf, e);
    assert Step(s, buf, e) == Go(t.(state := Header_r));
  }

  lemma ReadText(buf: string, i: nat, f: Field, s: Scan)
    requires FieldOk(f) && At(buf, i, PrintField(f)) && BetweenFields(s)
    ensures ValueAt(f, i) + |f.value| <= |buf|
    ensures Run(s, buf, i) == Run(ValueScan(s, f, i), buf, ValueAt(f, i) + |f.value|)
  {
    hide Run, Step;
    FieldSplit(buf, i, f);
    hide At, PrintField, NoControl, NameOk, PrintValue;
    ReadName(buf, i, f, s);
    ReadValue(buf, i + |f.name| + 1, f, ValueScan(s, f, i).(state := HeaderNameEnd, prev := i));
  }

  lemma ReadField(buf: string, i: nat, f: Field, s: Scan, facts: Facts)
    requires FieldOk(f) && At(buf, i, PrintField(f)) && BetweenFields(s)
    requires Learn(FactsIn(s), f, buf, ValueAt(f, i)) == Some(facts)
    ensures Run(s, buf, i) == Run(FieldScan(s, f, i, facts), buf, i + |PrintField(f)|)
  {
    hide Run, Step, EndValue, Learn, FieldOk;
    FieldSplit(buf, i, f);
    hide At, PrintField;
    ReadText(buf, i, f, s);
    ReadEnd(buf, f, i, s, facts);
    ReadBreak(ValueScan(s, f, i), buf, ValueAt(f, i) + |f.value|, FieldScan(s, f, i, facts));
  }

  /** The scan once a list of fields printed at i is read. */
  function FieldsScan(s: Scan, fields: seq<Field>, i: nat, p: nat, facts: Facts): Scan
  {
    Scan(if fields == [] then s.state else Header_rn, p, facts.size,
         WithFacts(s.req.(headers := s.req.headers + HeadersOf(fields, i)), facts))
  }

  lemma FieldsScanStep(s: Scan, fields: seq<Field>, i: nat, p: nat, more: Facts, facts: Facts)
    requires fields != []
    ensures FieldsScan(s, fields, i, p, facts)
         == FieldsScan(FieldScan(s, fields[0], i, more), fields[1..], i + |PrintField(fields[0])|, p, facts)
  {
    hide PrintField, HeaderOf;
    var rest := HeadersOf(fields[1..], i + |PrintField(fields[0])|);
    assert s.req.headers + ([HeaderOf(fields[0], i)] + rest) == (s.req.headers + [HeaderOf(fields[0], i)]) + rest;
  }

  lemma {:induction false} ReadFields(buf: string, i: nat, fields: seq<Field>, s: Scan, facts: Facts) returns (p: nat)
    requires FieldsOk(fields) && At(buf, i, PrintFields(fields)) && BetweenFields(s)
    requires LearnAll(FactsIn(s), fields, buf, i) == Some(facts)
    ensures Run(s, buf, i) == Run(FieldsScan(s, fields, i, p, facts), buf, i + |PrintFields(fields)|)
    decreases |fields|
  {
    hide Run, Step, Learn, FieldOk;
    if fields == [] {
      p := s.prev;
      assert s.req.headers + [] == s.req.headers;
      assert FieldsScan(s, fields, i, p, facts) == s;
    } else {
      AtSplit(buf, i, PrintField(fields[0]), PrintFields(fields[1..]));
      var more := Learn(FactsIn(s), fields[0], buf, ValueAt(fields[0], i)).value;
      ReadField(buf, i, fields[0], s, more);
      p := ReadFields(buf, i + |PrintField(fields[0])|, fields[1..], FieldScan(s, fields[0], i, more), facts);
      FieldsScanStep(s, fields, i, p, more, facts);
    }
  }

  /** The grammar: buf begins with a head whose fields make sense together. */
  ghost predicate Begins(buf: string, h: Head, facts: Facts)
  {
    HeadOk(h) && At(buf, 0, PrintHead(h)) && LearnAll(NO_FACTS, h.fields, buf, |PrintLine(h)|) == Some(facts)
  }

  lemma HeadSplit(buf: string, h: Head)
    requires At(buf, 0, PrintHead(h))
    ensures At(buf, 0, PrintLine(h)) && At(buf, |PrintLine(h)|, PrintFields(h.fields))
    ensures |PrintHead(h)| == |PrintLine(h)| + |PrintFields(h.fields)| + 2 && At(buf, |PrintHead(h)| - 2, "\r\n")
  {
  }

  lemma ReadHead(buf: string, h: Head, facts: Facts) returns (p: nat)
    requires Begins(buf, h, facts)
    ensures Parse(NO_FIELDS, buf)
         == Run(Scan(if h.fields == [] then VersionEnd_rn else Header_rn, p, facts.size, FieldsOf(h, facts)), buf,
                |PrintHead(h)| - 2)
    ensures At(buf, |PrintHead(h)| - 2, "\r\n")
  {
    hide Run, Step, LearnAll, Parse;
    HeadSplit(buf, h);
    hide At, PrintLine, PrintFields;
    ReadLine(buf, h);
    p := ReadFields(buf, |PrintLine(h)|, h.fields, LineScan(h), facts);
    var hs := HeadersOf(h.fields, |PrintLine(h)|);
    assert [] + hs == hs;
    assert FieldsScan(LineScan(h), h.fields, |PrintLine(h)|, p, facts)
        == Scan(if h.fields == [] then VersionEnd_rn else Header_rn, p, facts.size, FieldsOf(h, facts));
  }

  // ---------------------------------------------------------------- the body

  /** How many characters the countdown takes: it wraps when it starts at zero. */
  function BodySize(facts: Facts): nat
  {
    if facts.size == 0 then TWO_64 else facts.size
  }

  lemma {:induction false} CountBody(s: Scan, buf: string, i: nat)
    requires i <= |buf| && s.state == PostDataStart && s.remaining >= 1
    ensures Run(s, buf, i)
         == if s.remaining <= |buf| - i
            then Parsed(Completed, PostDataStart, s.req.(content := View(s.prev, i + s.remaining)), i + s.remaining)
            else Parsed(InCompleted, PostDataStart, s.req, |buf|)
    decreases |buf| - i
  {
    if i < |buf| && s.remaining > 1 {
      CountBody(s.(remaining := s.remaining - 1), buf, i + 1);
    }
  }

  /** What the grammar says of a buffer that begins with a head that is not multipart. */
  function Verdict(h: Head, facts: Facts, buf: string): Parsed
    requires |PrintHead(h)| <= |buf|
  {
    var n := |PrintHead(h)|;
    var req := FieldsOf(h, facts);
    if h.fields == [] then Parsed(Completed, VersionEnd_rnrn, req, n)
    else if |buf| == n then Parsed(Completed, Header_rnrn, req, n)
    else if h.verb != "POST" && h.verb != "PUT" then Parsed(Completed, Header_rnrn, req, n + 1)
    else if BodySize(facts) <= |buf| - n
    then Parsed(Completed, PostDataStart, req.(content := View(n, n + BodySize(facts))), n + BodySize(facts))
    else Parsed(InCompleted, PostDataStart, req, |buf|)
  }

  lemma VerbText(buf: string, h: Head, facts: Facts)
    requires At(buf, 0, PrintHead(h))
    ensures Text(buf, FieldsOf(h, facts).verb) == h.verb
  {
  }

  lemma ReadBlank(s: Scan, buf: string, i: nat)
    requires s.state in {VersionEnd_rn, Header_rn} && At(buf, i, "\r\n")
    ensures Run(s, buf, i)
         == if s.state == VersionEnd_rn then Parsed(Completed, VersionEnd_rnrn, s.req, i + 2)
            else if |buf| == i + 2 then Parsed(Completed, Header_rnrn, s.req, i + 2)
            else Run(s.(state := Header_rnrn), buf, i + 2)
  {
  }

  lemma ReadBody(s: Scan, buf: string, i: nat)
    requires s.state == Header_rnrn && i < |buf| && !s.req.isMultipart && s.remaining < TWO_64
    ensures Run(s, buf, i)
         == (var size := BodySize(FactsIn(s).(size := s.remaining));
             if !IsPostOrPut(buf, s.req) then Parsed(Completed, Header_rnrn, s.req, i + 1)
             else if size <= |buf| - i
             then Parsed(Completed, PostDataStart, s.req.(content := View(i, i + size)), i + size)
             else Parsed(InCompleted, PostDataStart, s.req, |buf|))
  {
    hide IsPostOrPut;
    if IsPostOrPut(buf, s.req) && Minus1(s.remaining) != 0 {
      CountBody(s.(state := PostDataStart, prev := i, remaining := Minus1(s.remaining)), buf, i + 1);
    }
  }

  lemma {:induction false} SizesFit(facts: Facts, fields: seq<Field>, buf: string, at: nat)
    requires at + |PrintFields(fields)| <= |buf| && facts.size < TWO_64
    ensures LearnAll(facts, fields, buf, at).Some? ==> LearnAll(facts, fields, buf, at).value.size < TWO_64
    decreases |fields|
  {
    if fields != [] {
      hide Find, Atoi;
      var learnt := Learn(facts, fields[0], buf, ValueAt(fields[0], at));
      if learnt.Some? {
        SizesFit(learnt.value, fields[1..], buf, at + |PrintField(fields[0])|);
      }
    }
  }

  /** A buffer that the grammar derives is parsed into the grammar's pieces. */
  lemma ParsesAsDerived(buf: string, h: Head, facts: Facts)
    requires Begins(buf, h, facts) && !facts.isMultipart
    ensures Parse(NO_FIELDS, buf) == Verdict(h, facts, buf)
  {
    hide Run, Step, LearnAll, Learn, HeadOk, Parse, PrintFields, PrintLine;
    SizesFit(NO_FACTS, h.fields, buf, |PrintLine(h)|);
    var p := ReadHead(buf, h, facts);
    VerbText(buf, h, facts);
    var n := |PrintHead(h)|;
    hide PrintHead, At;
    var s := Scan(if h.fields == [] then VersionEnd_rn else Header_rn, p, facts.size, FieldsOf(h, facts));
    ReadBlank(s, buf, n - 2);
    if h.fields != [] && n < |buf| {
      ReadBody(s.(state := Header_rnrn), buf, n);
    }
  }

  // ---------------------------------------------------------------- and nothing else is accepted

  /** A loop that completes leaves each state that keeps its locals. */
  lemma {:induction false} Leaves(s: Scan, buf: string, i: nat) returns (e: nat)
    requires i <= |buf| && Run(s, buf, i).outcome == Completed
    ensures i <= e < |buf| && Step(s, buf, e) != Go(s)
    ensures forall k :: i <= k < e ==> Step(s, buf, k) == Go(s)
    ensures Run(s, buf, e) == Run(s, buf, i)
    decreases |buf| - i
  {
    hide Step;
    e := i;
    if Step(s, buf, i) == Go(s) {
      e := Leaves(s, buf, i + 1);
    }
  }

  lemma FindVerb(buf: string, req: Fields) returns (verb: string)
    requires Parse(req, buf).outcome == Completed
    ensures VerbOk(verb) && At(buf, 0, verb + " ")
  {
    var s := Scan(MethodStart, 0, 0, req);
    var e := Leaves(s, buf, 1);
    verb := buf[..e];
    forall k | 1 <= k < e ensures IsAlpha(verb[k]) {
      assert Step(s, buf, k) == Go(s);
    }
    assert buf[..e + 1] == verb + " ";
  }

  lemma FindUri(buf: string, i: nat, s: Scan) returns (uri: string)
    requires i <= |buf| && s.state == MethodEnd && Run(s, buf, i).outcome == Completed
    ensures UriOk(uri) && At(buf, i, uri + " ")
  {
    var t := s.(state := UriStart, prev := i);
    var e := Leaves(t, buf, i + 1);
    uri := buf[i..e];
    forall k | i + 1 <= k < e ensures !Control(buf[k]) && buf[k] != ' ' {
      assert Step(t, buf, k) == Go(t);
    }
    assert buf[i..e + 1] == uri + " ";
  }

  lemma FindHttp(buf: string, i: nat, s: Scan)
    requires i <= |buf| && s.state == UriEnd && Run(s, buf, i).outcome == Completed
    ensures At(buf, i, "HTTP/")
  {
    var t := s.(state := HttpStart, prev := i);
    var e := Leaves(t, buf, i + 1);
    assert buf[i..e] == "HTTP";
    assert e == i + 4;
    assert buf[i..e + 1] == "HTTP" + "/";
  }

  lemma FindVersion(buf: string, i: nat, s: Scan) returns (version: string)
    requires i <= |buf| && s.state == HttpEnd && Run(s, buf, i).outcome == Completed
    ensures VersionOk(version) && At(buf, i, version + "\r\n")
  {
    var t := s.(state := VersionStart, prev := i);
    var e := Leaves(t, buf, i + 1);
    version := buf[i..e];
    forall k | i + 1 <= k < e ensures IsDigit(buf[k]) || buf[k] == '.' {
      assert Step(t, buf, k) == Go(t);
    }
    assert buf[e] == '\r';
    assert e + 1 < |buf| && buf[e + 1] == '\n';
    assert buf[i..e + 2] == version + "\r\n";
  }
}
