/** What the request parser accepts: exactly the grammar's buffers, each into its own pieces. */
module RequestLanguage {
  import opened Options
  import opened HttpText
  import opened HttpHeaders
  import opened RequestMachine
  import opened RequestGrammar

  // ---------------------------------------------------------------- the head of an accepted buffer

  lemma FindName(buf: string, i: nat, s: Scan) returns (name: string)
    requires i < |buf| && buf[i] != '\r' && BetweenFields(s) && Run(s, buf, i).outcome == Completed
    ensures NameOk(name) && At(buf, i, name + ":")
  {
    var t := s.(state := HeaderStart, prev := i);
    var e := Leaves(t, buf, i + 1);
    name := buf[i..e];
    forall k | i + 1 <= k < e ensures !Control(buf[k]) && buf[k] != ':' {
      assert Step(t, buf, k) == Go(t);
    }
    assert buf[i..e + 1] == name + ":";
  }

  /** The end of a value goes on only to a '\n'. */
  lemma BreakFollows(s: Scan, buf: string, e: nat)
    requires e < |buf| && s.state == HeaderValueStart && buf[e] == '\r' && Run(s, buf, e).outcome == Completed
    ensures EndValue(s, buf, e).Go? && At(buf, e, "\r\n")
  {
    hide Find, Atoi;
    assert Step(s, buf, e) == EndValue(s, buf, e);
    var t := EndValue(s, buf, e).scan;
    assert t.state == Header_r;
    assert e + 1 < |buf| && Step(t, buf, e + 1).Go?;
    assert buf[e..e + 2] == "\r\n";
  }

  lemma EndValueMoves(s: Scan, buf: string, e: nat)
    requires e <= |buf|
    ensures EndValue(s, buf, e).Go? ==> EndValue(s, buf, e).scan.state == Header_r
  {
  }

  lemma FindValue(buf: string, i: nat, s: Scan) returns (space: bool, value: string)
    requires i <= |buf| && s.state == HeaderNameEnd && Run(s, buf, i).outcome == Completed
    ensures |value| >= 1 && NoControl(value) && (!space ==> value[0] != ' ')
    ensures At(buf, i, PrintValue(Field("", space, value)))
    ensures At(buf, i + (if space then 1 else 0) + |value|, "\r\n")
  {
    hide EndValue;
    space := buf[i] == ' ';
    var v := if space then i + 1 else i;
    var t := s.(state := HeaderValueStart, prev := v);
    assert v < |buf| && !Control(buf[v]);
    assert Run(t, buf, v + 1) == Run(s, buf, i);
    var e := Leaves(t, buf, v + 1);
    value := buf[v..e];
    forall k | v + 1 <= k < e ensures !Control(buf[k]) {
      assert Step(t, buf, k) == Go(t);
      EndValueMoves(t, buf, k);
    }
    assert buf[i..e] == (if space then " " else "") + value;
    assert buf[e] == '\r';
    hide Run, Step;
    BreakFollows(t, buf, e);
  }

  /** A field without a meaning stops the loop. */
  lemma EndLearns(buf: string, f: Field, i: nat, s: Scan)
    requires At(buf, i, f.name) && At(buf, ValueAt(f, i), f.value) && BetweenFields(s)
    requires EndValue(ValueScan(s, f, i), buf, ValueAt(f, i) + |f.value|).Go?
    ensures Learn(FactsIn(s), f, buf, ValueAt(f, i)).Some?
  {
    hide Find, Atoi;
    var hs := s.req.headers + [Header(View(i, i + |f.name|), NO_VIEW)];
    assert hs[|hs| - 1] == Header(View(i, i + |f.name|), NO_VIEW);
    assert Text(buf, View(i, i + |f.name|)) == f.name;
    assert Text(buf, View(ValueAt(f, i), ValueAt(f, i) + |f.value|)) == f.value;
    hide At, Text;
  }

  lemma FindField(buf: string, i: nat, s: Scan) returns (f: Field, facts: Facts)
    requires i < |buf| && buf[i] != '\r' && BetweenFields(s) && Run(s, buf, i).outcome == Completed
    ensures FieldOk(f) && At(buf, i, PrintField(f)) && ValueAt(f, i) <= |buf|
    ensures Learn(FactsIn(s), f, buf, ValueAt(f, i)) == Some(facts)
  {
    hide Run, Step, EndValue, Learn;
    var name := FindName(buf, i, s);
    ReadName(buf, i, Field(name, false, ""), s);
    var t := ValueScan(s, Field(name, false, ""), i).(state := HeaderNameEnd, prev := i);
    var space, value := FindValue(buf, i + |name| + 1, t);
    f := Field(name, space, value);
    hide NameOk, NoControl;
    JoinField(buf, i, f);
    FieldSplit(buf, i, f);
    var e := ValueAt(f, i) + |f.value|;
    AtBreak(buf, e);
    hide At;
    ReadText(buf, i, f, s);
    BreakFollows(ValueScan(s, f, i), buf, e);
    EndLearns(buf, f, i, s);
    facts := Learn(FactsIn(s), f, buf, ValueAt(f, i)).value;
  }

  lemma BlankFollows(buf: string, i: nat, s: Scan)
    requires i < |buf| && buf[i] == '\r' && BetweenFields(s) && Run(s, buf, i).outcome == Completed
    ensures At(buf, i, "\r\n")
  {
  }

  lemma JoinFields(buf: string, i: nat, f: Field, rest: seq<Field>)
    requires At(buf, i, PrintField(f)) && At(buf, i + |PrintField(f)|, PrintFields(rest) + "\r\n")
    ensures At(buf, i, PrintFields([f] + rest) + "\r\n")
  {
    hide PrintField;
    AtJoin(buf, i, PrintField(f), PrintFields(rest) + "\r\n");
    assert ([f] + rest)[1..] == rest;
    assert PrintField(f) + (PrintFields(rest) + "\r\n") == PrintFields([f] + rest) + "\r\n";
  }

  lemma LearnFields(facts: Facts, f: Field, more: Facts, rest: seq<Field>, all: Facts, buf: string, i: nat)
    requires i + |PrintFields([f] + rest)| <= |buf| && ValueAt(f, i) <= |buf|
    requires Learn(facts, f, buf, ValueAt(f, i)) == Some(more)
    requires i + |PrintField(f)| + |PrintFields(rest)| <= |buf|
    requires LearnAll(more, rest, buf, i + |PrintField(f)|) == Some(all)
    ensures LearnAll(facts, [f] + rest, buf, i) == Some(all)
  {
    hide PrintField, Learn;
    assert ([f] + rest)[1..] == rest;
  }

  lemma {:induction false} FindFields(buf: string, i: nat, s: Scan) returns (fields: seq<Field>, facts: Facts)
    requires i <= |buf| && BetweenFields(s) && Run(s, buf, i).outcome == Completed
    ensures FieldsOk(fields) && At(buf, i, PrintFields(fields) + "\r\n")
    ensures LearnAll(FactsIn(s), fields, buf, i) == Some(facts)
    decreases |buf| - i
  {
    hide Step, Learn, FieldOk;
    assert i < |buf|;
    hide Run;
    if buf[i] == '\r' {
      BlankFollows(buf, i, s);
      fields, facts := [], FactsIn(s);
      assert PrintFields([]) + "\r\n" == "\r\n";
    } else {
      var f, more := FindField(buf, i, s);
      ReadField(buf, i, f, s, more);
      hide LearnAll, PrintFields;
      var rest;
      rest, facts := FindFields(buf, i + |PrintField(f)|, FieldScan(s, f, i, more));
      fields := [f] + rest;
      JoinFields(buf, i, f, rest);
      LearnFields(FactsIn(s), f, more, rest, facts, buf, i);
    }
  }

  lemma FindLine(buf: string) returns (verb: string, uri: string, version: string)
    requires Parse(NO_FIELDS, buf).outcome == Completed
    ensures VerbOk(verb) && UriOk(uri) && VersionOk(version)
    ensures At(buf, 0, PrintLine(Head(verb, uri, version, [])))
  {
    verb := FindVerb(buf, NO_FIELDS);
    ReadVerb(buf, verb, NO_FIELDS);
    hide Run, Step, UriOk, VersionOk, VerbOk, At;
    var u := |verb| + 1;
    var s := Scan(MethodEnd, 0, 0, NO_FIELDS.(verb := View(0, |verb|)));
    uri := FindUri(buf, u, s);
    ReadUri(buf, u, uri, s);
    var w := u + |uri| + 1;
    var s2 := s.(state := UriEnd, prev := u, req := s.req.(uri := View(u, u + |uri|)));
    FindHttp(buf, w, s2);
    ReadHttp(buf, w, s2);
    version := FindVersion(buf, w + 5, s2.(state := HttpEnd, prev := w));
    AtJoin(buf, w, "HTTP/", version + "\r\n");
    AtJoin(buf, u, uri + " ", "HTTP/" + (version + "\r\n"));
    AtJoin(buf, 0, verb + " ", (uri + " ") + ("HTTP/" + (version + "\r\n")));
  }

  /** A buffer that is accepted begins with a head of the grammar. */
  lemma AcceptedBegins(buf: string) returns (h: Head, facts: Facts)
    requires Parse(NO_FIELDS, buf).outcome == Completed
    ensures Begins(buf, h, facts)
  {
    var verb, uri, version := FindLine(buf);
    hide Run, Step, Parse;
    h := Head(verb, uri, version, []);
    ReadLine(buf, h);
    var fields;
    fields, facts := FindFields(buf, |PrintLine(h)|, LineScan(h));
    AtJoin(buf, 0, PrintLine(h), PrintFields(fields) + "\r\n");
    h := h.(fields := fields);
  }

  // ---------------------------------------------------------------- equivalence

  /** A buffer the grammar accepts as complete: no headers, or nothing after them, or no body to read,
      or at least as much of a body as the last Content-Length says. */
  ghost predicate Accepts(buf: string, h: Head, facts: Facts)
  {
    Begins(buf, h, facts)
    && (|h.fields| == 0 || |buf| == |PrintHead(h)| || (h.verb != "POST" && h.verb != "PUT")
        || BodySize(facts) <= |buf| - |PrintHead(h)|)
  }

  lemma {:induction false} StaysMultipart(s: Scan, buf: string, i: nat)
    requires i <= |buf| && s.req.isMultipart
    ensures Run(s, buf, i).req.isMultipart
    decreases |buf| - i
  {
    if i < |buf| {
      StepMultipart(s, buf, i);
      hide Step;
      if Step(s, buf, i).Go? {
        StaysMultipart(Step(s, buf, i).scan, buf, i + 1);
      }
    }
  }

  lemma StepMultipart(s: Scan, buf: string, i: nat)
    requires i < |buf| && s.req.isMultipart
    ensures match Step(s, buf, i) case Go(t) => t.req.isMultipart case Stop(_, _, req) => req.isMultipart
  {
    hide Find, Atoi;
  }

  /** Completed on input that is not multipart, if and only if the grammar accepts. */
  lemma CompletedExactly(buf: string)
    ensures Parse(NO_FIELDS, buf).outcome == Completed && !Parse(NO_FIELDS, buf).req.isMultipart
       <==> exists h, facts :: Accepts(buf, h, facts) && !facts.isMultipart
  {
    var r := Parse(NO_FIELDS, buf);
    if r.outcome == Completed && !r.req.isMultipart {
      var h, facts := AcceptedBegins(buf);
      hide Parse, PrintHead, Run;
      if facts.isMultipart {
        var p := ReadHead(buf, h, facts);
        StaysMultipart(Scan(if h.fields == [] then VersionEnd_rn else Header_rn, p, facts.size, FieldsOf(h, facts)),
                       buf, |PrintHead(h)| - 2);
      }
      ParsesAsDerived(buf, h, facts);
      assert Accepts(buf, h, facts);
    }
    hide Parse, PrintHead, Run;
    if h, facts :| Accepts(buf, h, facts) && !facts.isMultipart {
      ParsesAsDerived(buf, h, facts);
    }
  }

  // ---------------------------------------------------------------- the recorded views

  lemma LineText(buf: string, h: Head, facts: Facts)
    requires At(buf, 0, PrintHead(h))
    ensures Text(buf, FieldsOf(h, facts).verb) == h.verb
    ensures Text(buf, FieldsOf(h, facts).uri) == h.uri
    ensures Text(buf, FieldsOf(h, facts).version) == h.version
    ensures At(buf, |PrintLine(h)|, PrintFields(h.fields))
  {
    HeadSplit(buf, h);
    LineSplit(buf, h);
    hide PrintLine, PrintHead, PrintFields;
    var u := |h.verb| + 1;
    AtSplit(buf, 0, h.verb, " ");
    AtSplit(buf, u, h.uri, " ");
    AtSplit(buf, u + |h.uri| + 6, h.version, "\r\n");
    hide At;
  }

  /** Every derivation of an accepted buffer is the one the parse records. */
  lemma CompletedPieces(buf: string, h: Head, facts: Facts)
    requires Accepts(buf, h, facts) && !facts.isMultipart
    ensures var r := Parse(NO_FIELDS, buf);
            r.outcome == Completed
            && Text(buf, r.req.verb) == h.verb && Text(buf, r.req.uri) == h.uri && Text(buf, r.req.version) == h.version
            && HeadersMatch(buf, r.req.headers, h.fields)
            && Text(buf, r.req.content) ==
                 if h.fields != [] && (h.verb == "POST" || h.verb == "PUT") && |buf| > |PrintHead(h)|
                 then buf[|PrintHead(h)|..|PrintHead(h)| + BodySize(facts)] else ""
  {
    hide Parse, LearnAll, Learn, HeadOk;
    ParsesAsDerived(buf, h, facts);
    LineText(buf, h, facts);
    HeadersText(buf, h.fields, |PrintLine(h)|);
    hide PrintHead, PrintLine, At, HeadersOf;
  }

  /** Views that lie in order from lo on and end before hi, none of them empty, no two of them touching. */
  predicate Chain(views: seq<View>, lo: nat, hi: nat)
  {
    if views == [] then lo <= hi else lo <= views[0].lo < views[0].hi && Chain(views[1..], views[0].hi + 1, hi)
  }

  function HeaderViews(headers: seq<Header>): seq<View>
  {
    if headers == [] then [] else [headers[0].name, headers[0].value] + HeaderViews(headers[1..])
  }

  /** All the views a parse recorded, in the order of the message. */
  function Views(req: Fields): seq<View>
  {
    [req.verb, req.uri, req.version] + HeaderViews(req.headers) + if req.content == NO_VIEW then [] else [req.content]
  }

  lemma {:induction false} ChainApart(views: seq<View>, lo: nat, hi: nat, a: nat, b: nat)
    requires Chain(views, lo, hi) && a < b < |views|
    ensures lo <= views[a].lo < views[a].hi < views[b].lo < views[b].hi < hi
    decreases |views|
  {
    if a == 0 {
      ChainWithin(views[1..], views[0].hi + 1, hi, b - 1);
    } else {
      ChainApart(views[1..], views[0].hi + 1, hi, a - 1, b - 1);
    }
  }

  lemma {:induction false} ChainWithin(views: seq<View>, lo: nat, hi: nat, a: nat)
    requires Chain(views, lo, hi) && a < |views|
    ensures lo <= views[a].lo < views[a].hi < hi
    decreases |views|
  {
    if a > 0 {
      ChainWithin(views[1..], views[0].hi + 1, hi, a - 1);
    } else {
      ChainBounds(views[1..], views[0].hi + 1, hi);
    }
  }

  lemma {:induction false} ChainBounds(views: seq<View>, lo: nat, hi: nat)
    requires Chain(views, lo, hi)
    ensures lo <= hi
    decreases |views|
  {
    if views != [] {
      ChainBounds(views[1..], views[0].hi + 1, hi);
    }
  }

  lemma ChainCons(v: View, views: seq<View>, lo: nat, next: nat, hi: nat)
    requires lo <= v.lo < v.hi < next && Chain(views, next, hi)
    ensures Chain([v] + views, lo, hi)
  {
  }

  /** The views of printed fields, and whatever follows them. */
  lemma {:induction false} FieldsChain(fields: seq<Field>, at: nat, more: seq<View>, hi: nat)
    requires FieldsOk(fields) && Chain(more, at + |PrintFields(fields)|, hi)
    ensures Chain(HeaderViews(HeadersOf(fields, at)) + more, at, hi)
    decreases |fields|
  {
    if fields == [] {
      assert [] + more == more;
    } else {
      hide Chain;
      var next := at + |PrintField(fields[0])|;
      FieldsChain(fields[1..], next, more, hi);
      var hs := HeadersOf(fields, at);
      assert hs[1..] == HeadersOf(fields[1..], next);
      var rest := HeaderViews(hs[1..]) + more;
      ChainCons(hs[0].value, rest, hs[0].value.lo, next, hi);
      ChainCons(hs[0].name, [hs[0].value] + rest, at, hs[0].value.lo, hi);
      assert HeaderViews(hs) + more == [hs[0].name] + ([hs[0].value] + rest);
    }
  }

  lemma HeadLength(h: Head)
    ensures |PrintHead(h)| == |PrintLine(h)| + |PrintFields(h.fields)| + 2
    ensures |PrintLine(h)| == |h.verb| + |h.uri| + |h.version| + 9
  {
  }

  lemma DerivedInOrder(h: Head, facts: Facts, content: View, hi: nat)
    requires HeadOk(h) && |PrintHead(h)| <= hi
    requires content == NO_VIEW || |PrintHead(h)| <= content.lo < content.hi < hi
    ensures Chain(Views(FieldsOf(h, facts).(content := content)), 0, hi)
  {
    HeadLength(h);
    hide PrintHead, PrintLine, PrintFields, HeaderViews, HeadersOf;
    var req := FieldsOf(h, facts);
    var more := if content == NO_VIEW then [] else [content];
    var rest := HeaderViews(req.headers) + more;
    if content != NO_VIEW {
      assert more[1..] == [];
    }
    FieldsChain(h.fields, |PrintLine(h)|, more, hi);
    hide Chain;
    ChainCons(req.version, rest, req.version.lo, |PrintLine(h)|, hi);
    ChainCons(req.uri, [req.version] + rest, req.uri.lo, req.version.lo, hi);
    ChainCons(req.verb, [req.uri] + ([req.version] + rest), 0, req.uri.lo, hi);
    assert Views(req.(content := content)) == [req.verb] + ([req.uri] + ([req.version] + rest));
  }

  /** A completed parse records its views in the order of the message, in bounds and apart. */
  lemma CompletedInOrder(buf: string)
    requires Parse(NO_FIELDS, buf).outcome == Completed && !Parse(NO_FIELDS, buf).req.isMultipart
    ensures var views := Views(Parse(NO_FIELDS, buf).req);
            (forall a :: 0 <= a < |views| ==> views[a].lo < views[a].hi <= |buf|)
            && (forall a, b :: 0 <= a < b < |views| ==> views[a].hi < views[b].lo)
  {
    CompletedExactly(buf);
    hide Parse, PrintHead, LearnAll, Learn, Views, Chain;
    var h, facts :| Accepts(buf, h, facts) && !facts.isMultipart;
    ParsesAsDerived(buf, h, facts);
    var req := Verdict(h, facts, buf).req;
    DerivedInOrder(h, facts, req.content, |buf| + 1);
    assert req == FieldsOf(h, facts).(content := req.content);
    hide Verdict, Accepts, FieldsOf;
    var views := Views(req);
    forall a | 0 <= a < |views| ensures views[a].lo < views[a].hi <= |buf| {
      ChainWithin(views, 0, |buf| + 1, a);
    }
    forall a, b | 0 <= a < b < |views| ensures views[a].hi < views[b].lo {
      ChainApart(views, 0, |buf| + 1, a, b);
    }
  }

  // ---------------------------------------------------------------- the body size

  /** A value that atoi reads as a number: spaces, perhaps a sign, digits, and a rest that continues none of them. */
  ghost predicate NumberText(value: string, spaces: string, sign: string, digits: string, rest: string)
  {
    && value == (spaces + (sign + digits)) + rest && AllSpaces(spaces) && sign in {"", "+", "-"} && AllDigits(digits)
    && (rest != "" ==> !IsDigit(rest[0]))
    && (digits == "" && sign == "" ==> rest != "" && !IsSpace(rest[0]) && rest[0] != '+' && rest[0] != '-')
  }

  /** What a Content-Length that is a number makes of the size: a negative one is taken modulo 2^64. */
  function SizeOf(n: int): nat
    requires INT_MIN <= n <= INT_MAX
  {
    if n >= 0 then n else TWO_64 + n
  }

  lemma NumberThere(buf: string, f: Field, at: nat, spaces: string, sign: string, digits: string, rest: string)
    requires At(buf, at, PrintField(f)) && NumberText(f.value, spaces, sign, digits, rest)
    ensures NumberAt(buf, ValueAt(f, at), spaces, sign, digits)
  {
    var v := ValueAt(f, at);
    FieldSplit(buf, at, f);
    hide At, PrintField, AllSpaces, AllDigits;
    AtSplit(buf, v, spaces + (sign + digits), rest);
    if rest == "" {
      AtBreak(buf, v + |f.value|);
    } else {
      AtChar(buf, v + |spaces + (sign + digits)|, rest, 0);
    }
  }

  lemma LengthLearnt(buf: string, facts: Facts, f: Field, at: nat, spaces: string, sign: string, digits: string,
                     rest: string)
    requires At(buf, at, PrintField(f)) && f.name == "Content-Length" && NumberText(f.value, spaces, sign, digits, rest)
    ensures ValueAt(f, at) <= |buf|
    ensures var n := Signed(sign, digits);
            Learn(facts, f, buf, ValueAt(f, at))
            == if INT_MIN <= n <= INT_MAX then Some(facts.(size := SizeOf(n))) else None
  {
    NumberThere(buf, f, at, spaces, sign, digits, rest);
    hide PrintField, Atoi, Find, At, NumberAt;
    AnyNumber(buf, ValueAt(f, at), spaces, sign, digits);
  }

  /** Every value with a character that is no space is such a number. */
  lemma NumberSplit(value: string) returns (spaces: string, sign: string, digits: string, rest: string)
    requires !AllSpaces(value)
    ensures NumberText(value, spaces, sign, digits, rest)
  {
    var j := SkipSpaces(value, 0);
    assert j < |value|;
    var k := if value[j] == '-' || value[j] == '+' then j + 1 else j;
    var e := DigitsEnd(value, k);
    spaces, sign, digits, rest := value[..j], value[j..k], value[k..e], value[e..];
    hide SkipSpaces, DigitsEnd, IsSpace, IsDigit;
    assert value == (value[..j] + (value[j..k] + value[k..e])) + value[e..];
    assert k == j + 1 ==> sign == [value[j]];
    assert rest != "" ==> rest[0] == value[e];
  }

  /** The last Content-Length, when it is a number, decides the size of the body. */
  lemma {:induction false} LastLength(buf: string, facts: Facts, fields: seq<Field>, at: nat, j: nat,
                                      spaces: string, sign: string, digits: string, rest: string)
    requires FieldsOk(fields) && At(buf, at, PrintFields(fields))
    requires LearnAll(facts, fields, buf, at).Some?
    requires j < |fields| && fields[j].name == "Content-Length"
        && NumberText(fields[j].value, spaces, sign, digits, rest)
    requires forall k :: j < k < |fields| ==> fields[k].name != "Content-Length"
    ensures var n := Signed(sign, digits);
            INT_MIN <= n <= INT_MAX && LearnAll(facts, fields, buf, at).value.size == SizeOf(n)
    decreases |fields|
  {
    hide Learn, FieldOk, Decimal, NumberText;
    var f := fields[0];
    var next := at + |PrintField(f)|;
    AtSplit(buf, at, PrintField(f), PrintFields(fields[1..]));
    var more := Learn(facts, f, buf, ValueAt(f, at)).value;
    if j > 0 {
      LastLength(buf, more, fields[1..], next, j - 1, spaces, sign, digits, rest);
    } else {
      LengthLearnt(buf, facts, f, at, spaces, sign, digits, rest);
      SizeKept(buf, more, fields[1..], next);
    }
  }

  lemma {:induction false} SizeKept(buf: string, facts: Facts, fields: seq<Field>, at: nat)
    requires at + |PrintFields(fields)| <= |buf| && LearnAll(facts, fields, buf, at).Some?
    requires forall k :: 0 <= k < |fields| ==> fields[k].name != "Content-Length"
    ensures LearnAll(facts, fields, buf, at).value.size == facts.size
    decreases |fields|
  {
    if fields != [] {
      hide Find, Atoi, PrintField;
      var more := Learn(facts, fields[0], buf, ValueAt(fields[0], at)).value;
      assert more.size == facts.size;
      SizeKept(buf, more, fields[1..], at + |PrintField(fields[0])|);
    }
  }

  lemma PlainNumber(digits: string)
    requires |digits| >= 1 && AllDigits(digits)
    ensures NumberText(digits, "", "", digits, "")
  {
    assert ("" + ("" + digits)) + "" == digits;
  }

  lemma LengthRead(buf: string, h: Head, j: nat, body: string, facts: Facts)
    requires Begins(buf, h, facts) && |body| >= 1
    requires j < |h.fields| && h.fields[j].name == "Content-Length" && h.fields[j].value == PrintDecimal(|body|)
    requires forall k :: j < k < |h.fields| ==> h.fields[k].name != "Content-Length"
    ensures BodySize(facts) == |body|
  {
    hide Learn, LearnAll, PrintDecimal, Decimal, PrintLine, PrintHead, PrintFields, At, FieldsOf, FieldOk;
    HeadSplit(buf, h);
    DecimalOfPrint(|body|);
    PlainNumber(PrintDecimal(|body|));
    LastLength(buf, NO_FACTS, h.fields, |PrintLine(h)|, j, "", "", PrintDecimal(|body|), "");
  }

  /** Round trip: a request printed with its body and the body's length is read back. */
  lemma BodyRoundTrip(buf: string, h: Head, j: nat, body: string, facts: Facts)
    requires buf == PrintHead(h) + body && |body| >= 1
    requires Begins(buf, h, facts) && !facts.isMultipart
    requires h.verb == "POST" || h.verb == "PUT"
    requires j < |h.fields| && h.fields[j].name == "Content-Length" && h.fields[j].value == PrintDecimal(|body|)
    requires forall k :: j < k < |h.fields| ==> h.fields[k].name != "Content-Length"
    ensures var r := Parse(NO_FIELDS, buf);
            r.outcome == Completed && r.used == |buf|
            && Text(buf, r.req.verb) == h.verb && Text(buf, r.req.uri) == h.uri && Text(buf, r.req.version) == h.version
            && HeadersMatch(buf, r.req.headers, h.fields) && Text(buf, r.req.content) == body
  {
    hide Learn, LearnAll, PrintDecimal, PrintHead, Parse, Text, At, HeadersMatch, HeadOk, FieldsOf, Begins;
    LengthRead(buf, h, j, body, facts);
    Suffix(PrintHead(h), body);
    ParsesAsDerived(buf, h, facts);
    CompletedPieces(buf, h, facts);
  }
}
