/** What a request parser says of a beginning of an accepted buffer, and exactly which results more input overturns. */
module RequestPrefixes {
  import opened Options
  import opened HttpText
  import opened HttpHeaders
  import opened HttpPrefixes
  import opened RequestMachine
  import opened RequestStability
  import opened RequestGrammar
  import opened RequestLanguage

  // ---------------------------------------------------------------- what a run records

  /** Inside a header, between the end of its name and the end of its value. */
  predicate InValue(state: State)
  {
    state in {HeaderNameEnd, HeaderNameValueSpace, HeaderValueStart}
  }

  /** Behind the blank line. */
  predicate InBody(state: State)
  {
    state in {Header_rnrn, PostDataStart, MultipartDataStart, MultipartDataStart_, BoundaryMatchStart, BoundaryMatch_r,
              BoundaryMatch_rn, PartInfoStart, PartInfo_r, PartInfo_rn, PartInfo_rnr, PartInfo_rnrn, PartBodyStart,
              LastBoundaryMatch}
  }

  predicate Pending(s: Scan)
  {
    InValue(s.state) ==> s.req.headers != []
  }

  /** How many headers have their values recorded. */
  function Complete(s: Scan): nat
  {
    if InValue(s.state) && s.req.headers != [] then |s.req.headers| - 1 else |s.req.headers|
  }

  /** The first n headers are the same, and the one that is under way has the same name. */
  predicate Keeps(headers: seq<Header>, s: Scan)
    requires Pending(s)
  {
    |s.req.headers| <= |headers| && headers[..Complete(s)] == s.req.headers[..Complete(s)]
    && (InValue(s.state) ==> headers[Complete(s)].name == s.req.headers[Complete(s)].name)
  }

  /** What one step does to the headers: nothing, or it begins one, or it ends one at i. */
  predicate Records(s: Scan, t: Scan, i: nat)
    requires Pending(s)
  {
    Pending(t) && Keeps(t.req.headers, s) && Complete(s) <= Complete(t) <= Complete(s) + 1
    && (Complete(t) == Complete(s) + 1 ==>
          InValue(s.state) && t.req.headers[Complete(s)].value == View(s.prev, i) && s.state == HeaderValueStart)
  }

  lemma EndValueRecords(s: Scan, buf: string, i: nat)
    requires i < |buf| && s.state == HeaderValueStart && Pending(s)
    ensures EndValue(s, buf, i).Stop? ==> EndValue(s, buf, i).outcome == Fault
    ensures EndValue(s, buf, i).Go? ==>
              Records(s, EndValue(s, buf, i).scan, i) && EndValue(s, buf, i).scan.state == Header_r
  {
    hide Text, Find, Atoi;
  }

  /** Outside the body only the two ends of a header's name and value touch the headers. */
  lemma StepElsewhere(s: Scan, buf: string, i: nat)
    requires i < |buf| && !InBody(s.state) && s.state != HeaderStart && s.state != HeaderValueStart
    ensures match Step(s, buf, i)
            case Go(t) => t.req.headers == s.req.headers && (InValue(t.state) <==> InValue(s.state))
            case Stop(outcome, _, req) => req.headers == s.req.headers && (outcome == Completed ==> !InValue(s.state))
  {
    hide EndValue, EndBody, BeginBody, Text, Control, IsAlpha, IsDigit;
  }

  lemma StepRecords(s: Scan, buf: string, i: nat)
    requires i < |buf| && Pending(s)
    ensures Step(s, buf, i).Go? ==> Records(s, Step(s, buf, i).scan, i)
    ensures Step(s, buf, i).Stop? && Step(s, buf, i).outcome == Completed ==>
              !InValue(s.state) && Step(s, buf, i).req.headers == s.req.headers
  {
    hide EndValue, Text;
    if s.state == HeaderValueStart {
      EndValueRecords(s, buf, i);
    } else if InBody(s.state) {
      BodyStep(s, buf, i);
      hide Step;
    } else if s.state != HeaderStart {
      StepElsewhere(s, buf, i);
      hide Step;
    }
  }

  /** Behind the blank line no header is added, and the line is not met again. */
  lemma {:induction false} BodyKeeps(s: Scan, buf: string, i: nat)
    requires i <= |buf| && InBody(s.state)
    ensures Run(s, buf, i).req.headers == s.req.headers
    ensures s.state != Header_rnrn ==> Run(s, buf, i).state != Header_rnrn
    decreases |buf| - i
  {
    if i < |buf| {
      BodyStep(s, buf, i);
      hide Step, InBody;
      if Step(s, buf, i).Go? {
        BodyKeeps(Step(s, buf, i).scan, buf, i + 1);
      }
    }
  }

  lemma BodyStep(s: Scan, buf: string, i: nat)
    requires i < |buf| && InBody(s.state)
    ensures match Step(s, buf, i)
            case Go(t) => InBody(t.state) && t.state != Header_rnrn && t.req.headers == s.req.headers
            case Stop(_, state, req) =>
              (s.state != Header_rnrn ==> state != Header_rnrn) && req.headers == s.req.headers
  {
    hide Text, IsPostOrPut, EndValue;
  }

  /** From a scan on, a run that completes keeps what is recorded and ends every further value behind it. */
  lemma {:induction false} RunRecords(s: Scan, buf: string, i: nat)
    requires i <= |buf| && Pending(s) && Run(s, buf, i).outcome == Completed
    ensures var headers := Run(s, buf, i).req.headers;
            Keeps(headers, s) && forall k :: Complete(s) <= k < |headers| ==> headers[k].value.hi >= i
    decreases |buf| - i
  {
    StepRecords(s, buf, i);
    hide Step;
    if Step(s, buf, i).Go? {
      var t := Step(s, buf, i).scan;
      RunRecords(t, buf, i + 1);
      hide Run;
      KeepsOn(Run(t, buf, i + 1).req.headers, s, t, i);
    }
  }

  lemma KeepsOn(headers: seq<Header>, s: Scan, t: Scan, i: nat)
    requires Pending(s) && Records(s, t, i) && Keeps(headers, t)
    requires forall k :: Complete(t) <= k < |headers| ==> headers[k].value.hi >= i + 1
    ensures Keeps(headers, s) && forall k :: Complete(s) <= k < |headers| ==> headers[k].value.hi >= i
    ensures Complete(t) == Complete(s) + 1 ==>
              headers[Complete(s)].value == View(s.prev, i)
                && headers[Complete(s)].name == s.req.headers[Complete(s)].name
  {
    var n := Complete(s);
    assert forall k :: 0 <= k < n ==>
        headers[k] == headers[..Complete(t)][k] == t.req.headers[k] == t.req.headers[..n][k];
    if Complete(t) == n + 1 {
      assert headers[n] == headers[..n + 1][n] == t.req.headers[n];
    }
  }

  // ---------------------------------------------------------------- a step on a beginning of the buffer

  lemma EndValueShrinks(s: Scan, buf: string, m: nat, i: nat)
    requires i < m <= |buf| && Fits(s, i) && s.req.headers != [] && EndValue(s, buf, i).Go?
    ensures var name := s.req.headers[|s.req.headers| - 1].name;
            EndValue(s, buf[..m], i).Go? <==> !Overruns(buf, Header(name, View(s.prev, i)), m)
    ensures EndValue(s, buf[..m], i).Go? ==> EndValue(s, buf[..m], i) == EndValue(s, buf, i)
    ensures EndValue(s, buf[..m], i).Stop? ==> EndValue(s, buf[..m], i).outcome == Fault
  {
    hide Find, Atoi, AtoiEnd;
    var name := s.req.headers[|s.req.headers| - 1].name;
    assert buf[..m] + buf[m..] == buf;
    SameText(buf[..m], buf[m..], name);
    SameText(buf[..m], buf[m..], View(s.prev, i));
    hide Text;
    if Text(buf, name) == "Content-Length" {
      AtoiPrefix(buf, m, s.prev);
    }
  }

  lemma StepShrinks(s: Scan, buf: string, m: nat, i: nat)
    requires i < m <= |buf| && Fits(s, i) && Pending(s)
    requires !(s.state == HeaderValueStart && buf[i] == '\r') && !(s.state == Header_rnr && i + 1 == m)
    requires !(s.state == Header_rnr && i + 1 == |buf|)
    ensures Step(s, buf[..m], i) == Step(s, buf, i)
  {
    assert buf[..m] + buf[m..] == buf;
    StepSame(s, buf[..m], buf[m..], i);
  }

  // ---------------------------------------------------------------- a run on a beginning of the buffer

  /** Behind a header the loop counts the characters of the two line ends. */
  predicate Tight(s: Scan, i: nat)
  {
    && (s.state == Header_r ==> EndsAt(s.req.headers, i - 1))
    && (s.state == Header_rn ==> EndsAt(s.req.headers, i - 2))
    && (s.state == Header_rnr ==> EndsAt(s.req.headers, i - 3))
  }

  lemma StepTight(s: Scan, buf: string, i: nat)
    requires i < |buf| && Tight(s, i) && Step(s, buf, i).Go?
    ensures Tight(Step(s, buf, i).scan, i + 1)
  {
    hide Text, Find, Atoi, Control, IsAlpha, IsDigit, IsPostOrPut;
  }

  /** Run on its first m characters, a buffer that is accepted later faults exactly if an atoi overruns them, and is
      never rejected. */
  lemma {:induction false} PrefixRun(s: Scan, buf: string, i: nat, m: nat)
    requires i <= m <= |buf| && Fits(s, i) && Pending(s) && Tight(s, i)
    requires Run(s, buf, i).outcome == Completed && m < Run(s, buf, i).used
    ensures Run(s, buf[..m], i).outcome != Error
    ensures Run(s, buf[..m], i).outcome == Fault
       <==> SomeOverruns(buf, Run(s, buf, i).req.headers, Complete(s), m)
    ensures Run(s, buf[..m], i).outcome == Completed ==>
              EndsAt(Run(s, buf[..m], i).req.headers, m - 4)
                && Run(s, buf[..m], i).req.headers == Run(s, buf, i).req.headers
    decreases m - i
  {
    RunRecords(s, buf, i);
    var headers := Run(s, buf, i).req.headers;
    if i < m {
      assert Step(s, buf, i).Go?;
      var t := Step(s, buf, i).scan;
      StepRecords(s, buf, i);
      StepFits(s, buf, i);
      StepTight(s, buf, i);
      RunRecords(t, buf, i + 1);
      KeepsOn(headers, s, t, i);
      PrefixStep(s, buf, i, m);
      var r := Step(s, buf[..m], i);
      assert Run(s, buf[..m], i) == if r.Go? then Run(r.scan, buf[..m], i + 1)
        else Parsed(r.outcome, r.state, r.req, i + 1);
      hide Step, Overruns, Records, Keeps, Fits, Pending, InValue;
      if r == Go(t) {
        hide Tight, EndsAt;
        PrefixRun(t, buf, i + 1, m);
        hide Run;
        FromNext(s, t, buf, headers, i, m);
      } else if r.outcome == Fault {
        hide Run, Tight, EndsAt;
        assert Overruns(buf, headers[Complete(s)], m);
      } else {
        BodyKeeps(t, buf, m);
      }
    }
  }

  /** The end of a value completes a header, and nothing else does. */
  lemma EndsOne(s: Scan, buf: string, i: nat)
    requires i < |buf| && Pending(s) && s.state == HeaderValueStart && buf[i] == '\r' && Step(s, buf, i).Go?
    ensures Step(s, buf, i) == EndValue(s, buf, i) && Pending(Step(s, buf, i).scan)
    ensures Complete(Step(s, buf, i).scan) == Complete(s) + 1
  {
    hide Text, Find, Atoi;
  }

  lemma EndsNone(s: Scan, buf: string, i: nat)
    requires i < |buf| && Pending(s) && !(s.state == HeaderValueStart && buf[i] == '\r') && Step(s, buf, i).Go?
    ensures Pending(Step(s, buf, i).scan) && Complete(Step(s, buf, i).scan) == Complete(s)
  {
    hide EndValue, Text;
  }

  lemma FromNext(s: Scan, t: Scan, buf: string, headers: seq<Header>, i: nat, m: nat)
    requires Pending(s) && Records(s, t, i) && Complete(t) <= |headers|
    requires Complete(t) == Complete(s) + 1 ==> !Overruns(buf, headers[Complete(s)], m)
    ensures SomeOverruns(buf, headers, Complete(s), m) <==> SomeOverruns(buf, headers, Complete(t), m)
  {
    hide Overruns;
  }

  /** What a step of the run on the beginning does, when the run on the whole goes on. */
  lemma PrefixStep(s: Scan, buf: string, i: nat, m: nat)
    requires i < m <= |buf| && Fits(s, i) && Pending(s) && Step(s, buf, i).Go?
    ensures var r := Step(s, buf[..m], i);
            StepOk(s, Step(s, buf, i).scan, buf, r, i, m)
  {
    hide Text, AtoiEnd, Fits;
    assert buf[..m][i] == buf[i];
    if s.state == HeaderValueStart && buf[i] == '\r' {
      EndValueShrinks(s, buf, m, i);
      EndValueRecords(s, buf, i);
      StepRecords(s, buf, i);
      EndsOne(s, buf, i);
      assert Step(s, buf[..m], i) == EndValue(s, buf[..m], i);
      hide Step, EndValue, Records;
    } else if s.state == Header_rnr && i + 1 == m {
    } else {
      StepShrinks(s, buf, m, i);
      EndsNone(s, buf, i);
      hide Step;
    }
  }

  /** The same step; or, at the end of a value, a fault if its atoi overruns; or the blank line at the very end. */
  predicate StepOk(s: Scan, t: Scan, buf: string, r: Result, i: nat, m: nat)
    requires Pending(s)
  {
    if Complete(t) == Complete(s) + 1 && InValue(s.state) then
      (r == Go(t) || (r.Stop? && r.outcome == Fault))
      && (r == Go(t) <==> !Overruns(buf, Header(s.req.headers[Complete(s)].name, View(s.prev, i)), m))
    else
      Complete(t) == Complete(s)
      && (r == Go(t) || (r == Stop(Completed, Header_rnrn, s.req) && i + 1 == m
          && s.state == Header_rnr && t == s.(state := Header_rnrn)))
  }

  // ---------------------------------------------------------------- the head of a beginning

  lemma HeadEnd(h: Head)
    requires h.fields != []
    ensures var headers := HeadersOf(h.fields, |PrintLine(h)|);
            headers != [] && EndsAt(headers, |PrintHead(h)| - 4)
  {
    HeadLength(h);
    FieldsEnd(h.fields, |PrintLine(h)|);
  }

  /** Whatever a body does, the headers of the parse are those of the head. */
  lemma HeadKept(buf: string, h: Head, facts: Facts)
    requires Begins(buf, h, facts)
    ensures var p := Parse(NO_FIELDS, buf);
            && p.req.headers == HeadersOf(h.fields, |PrintLine(h)|)
            && (h.fields == [] ==> p.state == VersionEnd_rnrn && p.used == |PrintHead(h)|)
            && (|buf| == |PrintHead(h)| ==> p.outcome == Completed)
  {
    hide Run, Step, Begins, Parse, PrintHead;
    var p := ReadHead(buf, h, facts);
    var n := |PrintHead(h)|;
    var s := Scan(if h.fields == [] then VersionEnd_rn else Header_rn, p, facts.size, FieldsOf(h, facts));
    HeadLength(h);
    AtBreak(buf, n - 2);
    ReadBlank(s, buf, n - 2);
    BodyKeeps(s.(state := Header_rnrn), buf, n);
    hide HeadersOf, PrintLine, At;
  }

  lemma LearnShrinks(facts: Facts, f: Field, buf: string, at: nat, m: nat)
    requires At(buf, at, PrintField(f)) && at + |PrintField(f)| <= m <= |buf|
    requires Learn(facts, f, buf, ValueAt(f, at)).Some? && !Overruns(buf, HeaderOf(f, at), m)
    ensures Learn(facts, f, buf[..m], ValueAt(f, at)) == Learn(facts, f, buf, ValueAt(f, at))
  {
    hide Find, Atoi, AtoiEnd;
    FieldSplit(buf, at, f);
    FieldText(buf, f, at);
    hide At, PrintField, Text;
    if f.name == "Content-Length" {
      AtoiPrefix(buf, m, ValueAt(f, at));
    }
  }

  lemma {:induction false} LearnAllShrinks(facts: Facts, fields: seq<Field>, buf: string, at: nat, m: nat)
    requires At(buf, at, PrintFields(fields)) && at + |PrintFields(fields)| <= m <= |buf|
    requires LearnAll(facts, fields, buf, at).Some? && !SomeOverruns(buf, HeadersOf(fields, at), 0, m)
    ensures LearnAll(facts, fields, buf[..m], at) == LearnAll(facts, fields, buf, at)
    decreases |fields|
  {
    if fields != [] {
      hide Learn, Overruns, HeaderOf, PrintField, At;
      var next := at + |PrintField(fields[0])|;
      FieldsSplit(buf, fields, at);
      OverrunsFirst(buf, fields, at, m);
      LearnShrinks(facts, fields[0], buf, at, m);
      var more := Learn(facts, fields[0], buf, ValueAt(fields[0], at)).value;
      hide SomeOverruns, HeadersOf;
      LearnAllShrinks(more, fields[1..], buf, next, m);
    }
  }

  /** A head without an overrun still begins what is cut behind it. */
  lemma BeginsShrinks(buf: string, h: Head, facts: Facts, m: nat)
    requires Begins(buf, h, facts) && |PrintHead(h)| <= m <= |buf|
    requires !SomeOverruns(buf, HeadersOf(h.fields, |PrintLine(h)|), 0, m)
    ensures Begins(buf[..m], h, facts)
  {
    hide PrintHead, PrintLine, PrintFields, At, LearnAll, HeadOk, SomeOverruns, HeadersOf;
    HeadSplit(buf, h);
    AtPrefix(buf, 0, PrintHead(h), m);
    LearnAllShrinks(NO_FACTS, h.fields, buf, |PrintLine(h)|, m);
  }

  // ---------------------------------------------------------------- every beginning of an accepted buffer

  /** What a parser says of the first m characters of an accepted buffer, when all of it was read to know: the head
      alone is complete; an atoi that runs past them is a fault; and everything else is incomplete. */
  lemma PrefixExactly(buf: string, h: Head, facts: Facts, m: nat)
    requires Begins(buf, h, facts)
    requires Parse(NO_FIELDS, buf).outcome == Completed && m <= |buf| && m < Parse(NO_FIELDS, buf).used
    ensures Parse(NO_FIELDS, buf[..m]).outcome
         == if SomeOverruns(buf, HeadersOf(h.fields, |PrintLine(h)|), 0, m) then Fault
            else if h.fields != [] && m == |PrintHead(h)| then Completed
            else InCompleted
  {
    var s := Scan(MethodUnstart, 0, 0, NO_FIELDS);
    var headers := HeadersOf(h.fields, |PrintLine(h)|);
    RunExtend(s, buf, "", 0);
    PrefixRun(s, buf, 0, m);
    hide Run, Step, Begins, Overruns;
    HeadKept(buf, h, facts);
    if h.fields != [] {
      HeadEnd(h);
      if m == |PrintHead(h)| && !SomeOverruns(buf, headers, 0, m) {
        BeginsShrinks(buf, h, facts, m);
        HeadKept(buf[..m], h, facts);
      }
    }
    hide SomeOverruns;
  }

  /** Every strict beginning of a message is incomplete, or is its whole head, when each Content-Length has a character
      that is not a space. */
  lemma NoFault(buf: string, h: Head, facts: Facts, m: nat)
    requires Begins(buf, h, facts)
    requires Parse(NO_FIELDS, buf).outcome == Completed && m <= |buf| && m < Parse(NO_FIELDS, buf).used
    requires !BlankLengths(h.fields)
    ensures Parse(NO_FIELDS, buf[..m]).outcome
         == if h.fields != [] && m == |PrintHead(h)| then Completed else InCompleted
  {
    hide Parse, LearnAll, PrintHead, PrintLine, PrintFields, At, Overruns, HeadersOf;
    PrefixExactly(buf, h, facts, m);
    HeadSplit(buf, h);
    NoOverrun(buf, h.fields, |PrintLine(h)|, m);
  }

  const BLANK_LENGTH := Field("Content-Length", true, " ")
  const NUMBER := Field("5", false, "a")
  const LENGTH_HEAD := Head("POST", "/", "1.1", [BLANK_LENGTH, NUMBER])

  lemma LengthPieces(buf: string)
    requires buf == PrintHead(LENGTH_HEAD) + "hello"
    ensures |PrintLine(LENGTH_HEAD)| == 17 && |PrintFields(LENGTH_HEAD.fields)| == 24
    ensures |PrintField(BLANK_LENGTH)| == 19 && |PrintField(NUMBER)| == 5
    ensures At(buf, 0, PrintHead(LENGTH_HEAD)) && At(buf, 17, PrintField(BLANK_LENGTH))
        && At(buf, 36, PrintField(NUMBER))
    ensures HeadersOf(LENGTH_HEAD.fields, 17) != []
        && HeadersOf(LENGTH_HEAD.fields, 17)[0] == HeaderOf(BLANK_LENGTH, 17)
  {
    var h := LENGTH_HEAD;
    HeadLength(h);
    assert |PrintLine(h)| == 17 && |PrintField(BLANK_LENGTH)| == 19 && |PrintField(NUMBER)| == 5;
    assert h.fields[1..] == [NUMBER] && [NUMBER][1..] == [];
    hide PrintField, PrintLine, HeaderOf;
    assert PrintFields([NUMBER]) == PrintField(NUMBER) + PrintFields([]) == PrintField(NUMBER);
    HeadSplit(buf, h);
    hide PrintHead, At;
    FieldsSplit(buf, h.fields, 17);
  }

  /** The scan passes over the blank value and its line end, and reads the next name. */
  lemma LengthScanned(buf: string)
    requires At(buf, 17, PrintField(BLANK_LENGTH)) && At(buf, 36, PrintField(NUMBER))
    ensures Atoi(buf, 33) == Some(5) && AtoiEnd(buf, 33) == 37
  {
    FieldSplit(buf, 17, BLANK_LENGTH);
    FieldSplit(buf, 36, NUMBER);
    hide PrintField;
    AtChar(buf, 33, " ", 0);
    AtBreak(buf, 34);
    AtChar(buf, 36, "5:", 0);
    AtChar(buf, 36, "5:", 1);
    hide At;
    assert SkipSpaces(buf, 36) == 36 && SkipSpaces(buf, 35) == 36 && SkipSpaces(buf, 34) == 36;
    assert SkipSpaces(buf, 33) == 36;
    assert DigitsEnd(buf, 37) == 37 && DigitsEnd(buf, 36) == 37;
    assert buf[36..37] == "5";
    assert Decimal("") == 0 && Decimal("5") == 5;
  }

  lemma LengthLearntHere(buf: string)
    requires 41 <= |buf| && Atoi(buf, 33) == Some(5)
    requires |PrintField(BLANK_LENGTH)| == 19 && |PrintField(NUMBER)| == 5 && |PrintFields(LENGTH_HEAD.fields)| == 24
    ensures LearnAll(NO_FACTS, LENGTH_HEAD.fields, buf, 17) == Some(Facts(5, false, NO_VIEW))
  {
    hide PrintField, Atoi, Find;
    var facts := Facts(5, false, NO_VIEW);
    assert LENGTH_HEAD.fields[1..] == [NUMBER] && [NUMBER][1..] == [];
    assert ValueAt(BLANK_LENGTH, 17) == 33 && ValueAt(NUMBER, 36) == 38;
    assert Learn(NO_FACTS, BLANK_LENGTH, buf, 33) == Some(facts);
    assert Learn(facts, NUMBER, buf, 38) == Some(facts);
    hide Learn;
    assert LearnAll(facts, [], buf, 41) == Some(facts);
    assert LearnAll(facts, [NUMBER], buf, 36) == Some(facts);
  }

  lemma LengthOverruns(buf: string)
    requires At(buf, 17, PrintField(BLANK_LENGTH)) && AtoiEnd(buf, 33) == 37
    ensures Overruns(buf, HeaderOf(BLANK_LENGTH, 17), 37)
  {
    FieldText(buf, BLANK_LENGTH, 17);
    hide AtoiEnd, PrintField, Text;
    assert HeaderOf(BLANK_LENGTH, 17) == Header(View(17, 31), View(33, 34));
  }

  /** One such beginning: the length is read out of the next header's name, and the buffer ends inside it. */
  lemma OverrunReached(buf: string)
    requires buf == PrintHead(LENGTH_HEAD) + "hello"
    ensures |buf| == 48 && Parse(NO_FIELDS, buf).outcome == Completed && Parse(NO_FIELDS, buf[..37]).outcome == Fault
  {
    hide Parse, PrintHead, Atoi, AtoiEnd, At, LearnAll;
    var facts := Facts(5, false, NO_VIEW);
    LengthPieces(buf);
    LengthScanned(buf);
    HeadLength(LENGTH_HEAD);
    LengthLearntHere(buf);
    LengthOverruns(buf);
    hide PrintLine, PrintFields, HeadersOf, Overruns;
    assert FieldOk(BLANK_LENGTH) && FieldOk(NUMBER);
    assert Begins(buf, LENGTH_HEAD, facts);
    hide HeadOk, FieldOk, Begins;
    ParsesAsDerived(buf, LENGTH_HEAD, facts);
    PrefixExactly(buf, LENGTH_HEAD, facts, 37);
  }

  // ---------------------------------------------------------------- exactly which results more input overturns

  /** A POST or PUT of a head with fields, and the buffer ends with it. */
  ghost predicate BodyMissing(buf: string, h: Head, facts: Facts)
  {
    Begins(buf, h, facts) && h.fields != [] && |buf| == |PrintHead(h)| && (h.verb == "POST" || h.verb == "PUT")
  }

  lemma BlankOnlyEnd(s: Scan, buf: string, i: nat)
    requires i < |buf| && s.state == Header_rnrn && Run(s, buf, i).outcome == Completed
    requires Run(s, buf, i).state == Header_rnrn
    ensures !IsPostOrPut(buf, s.req) && Run(s, buf, i).req == s.req
  {
    hide IsPostOrPut;
    if Step(s, buf, i).Go? {
      BodyStep(s, buf, i);
      BodyKeeps(Step(s, buf, i).scan, buf, i + 1);
    }
  }

  lemma MissingBegins(buf: string, h: Head, facts: Facts)
    requires BodyMissing(buf, h, facts)
    ensures Begins(buf, h, facts)
  {
  }

  lemma MissingEnds(buf: string, h: Head, facts: Facts)
    requires Begins(buf, h, facts) && Parse(NO_FIELDS, buf).outcome == Completed
    ensures EndedAtBlankLine(Parse(NO_FIELDS, buf), buf) <==> BodyMissing(buf, h, facts)
  {
    HeadKept(buf, h, facts);
    VerbText(buf, h, facts);
    HeadLength(h);
    hide Run, Step, Begins, Parse, PrintHead;
    var p := ReadHead(buf, h, facts);
    var n := |PrintHead(h)|;
    var s := Scan(if h.fields == [] then VersionEnd_rn else Header_rn, p, facts.size, FieldsOf(h, facts));
    AtBreak(buf, n - 2);
    ReadBlank(s, buf, n - 2);
    hide FieldsOf, At, Text;
    if h.fields != [] && n < |buf| && EndedAtBlankLine(Parse(NO_FIELDS, buf), buf) {
      BlankOnlyEnd(s.(state := Header_rnrn), buf, n);
    }
  }

  /** A completed parse is left alone by every continuation of the input, unless the input is a POST or PUT that ends
      with its head: that one is told complete before its body has come. */
  lemma CompletedStaysExactly(buf: string)
    requires Parse(NO_FIELDS, buf).outcome == Completed
    ensures (forall ext :: SameResult(Parse(NO_FIELDS, buf + ext), Parse(NO_FIELDS, buf)))
       <==> !exists h, facts :: BodyMissing(buf, h, facts)
  {
    CompletedStays(buf);
    hide Parse, EndedAtBlankLine, Begins, BodyMissing;
    var h, facts := AcceptedBegins(buf);
    MissingEnds(buf, h, facts);
    if h, facts :| BodyMissing(buf, h, facts) {
      MissingBegins(buf, h, facts);
      MissingEnds(buf, h, facts);
    }
  }

  /** Printing a head with one field. */
  lemma PrintOne(h: Head)
    requires |h.fields| == 1
    ensures PrintFields(h.fields) == PrintField(h.fields[0])
    ensures HeadersOf(h.fields, |PrintLine(h)|) == [HeaderOf(h.fields[0], |PrintLine(h)|)]
  {
    hide PrintField, HeaderOf;
    assert PrintFields(h.fields[1..]) == []
      && HeadersOf(h.fields[1..], |PrintLine(h)| + |PrintField(h.fields[0])|) == [];
  }

  const POST_HEAD := Head("POST", "/", "1.1", [Field("A", true, "b")])
  const POST_TEXT := "POST / HTTP/1.1\r\nA: b\r\n\r\n"

  lemma PostText()
    ensures PrintHead(POST_HEAD) == POST_TEXT && HeadOk(POST_HEAD)
    ensures LearnAll(NO_FACTS, POST_HEAD.fields, POST_TEXT, |PrintLine(POST_HEAD)|) == Some(NO_FACTS)
  {
    PrintOne(POST_HEAD);
    assert PrintField(POST_HEAD.fields[0]) == "A: b\r\n";
    assert PrintLine(POST_HEAD) == "POST / HTTP/1.1\r\n";
    hide PrintField, PrintLine;
    assert POST_HEAD.fields[1..] == [];
  }

  /** One such input: it is complete, and with the first character of its body it is not. */
  lemma MissingBodyOvertaken()
    ensures BodyMissing(POST_TEXT, POST_HEAD, NO_FACTS)
    ensures Parse(NO_FIELDS, POST_TEXT).outcome == Completed && Parse(NO_FIELDS, POST_TEXT + "x").outcome == InCompleted
  {
    PostText();
    hide HeadOk, Parse, PrintHead, PrintLine;
    ParsesAsDerived(POST_TEXT, POST_HEAD, NO_FACTS);
    ParsesAsDerived(POST_TEXT + "x", POST_HEAD, NO_FACTS);
  }
}
