/** What the request parser says of every buffer: complete, incomplete, rejected, or without a meaning. */
module RequestOutcomes {
  import opened Options
  import opened HttpText
  import opened HttpHeaders
  import opened RequestMachine
  import opened RequestGrammar
  import opened RequestLanguage
  import opened RequestMultipart
  import opened MultipartOutcomes

  // ---------------------------------------------------------------- request lines that break off

  /** From the version on: its first characters, or all of it and the '\r' behind it. */
  ghost predicate OpenVersion(buf: string, i: nat)
  {
    i <= |buf|
    && (buf[i..] == "" || VersionOk(buf[i..])
        || exists version :: VersionOk(version) && At(buf, i, version + "\r") && |buf| == i + |version| + 1)
  }

  /** From the protocol on: before the '/' any letters are taken that begin with an 'H'. */
  ghost predicate OpenHttp(buf: string, i: nat)
  {
    i <= |buf|
    && (buf[i..] == "" || (buf[i] == 'H' && AllAlpha(buf[i..])) || (At(buf, i, "HTTP/") && OpenVersion(buf, i + 5)))
  }

  ghost predicate OpenUri(buf: string, i: nat)
  {
    i <= |buf|
    && (buf[i..] == "" || UriOk(buf[i..])
        || exists uri :: UriOk(uri) && At(buf, i, uri + " ") && OpenHttp(buf, i + |uri| + 1))
  }

  ghost predicate OpenLine(buf: string)
  {
    buf == "" || VerbOk(buf) || exists verb :: VerbOk(verb) && At(buf, 0, verb + " ") && OpenUri(buf, |verb| + 1)
  }

  // ---------------------------------------------------------------- headers that break off, or have no meaning

  /** A request line and headers that are whole, as far as at. */
  ghost predicate UpTo(buf: string, h: Head, facts: Facts, at: nat)
  {
    && HeadOk(h) && At(buf, 0, PrintLine(h)) && At(buf, |PrintLine(h)|, PrintFields(h.fields))
    && at == |PrintLine(h)| + |PrintFields(h.fields)| <= |buf|
    && LearnAll(NO_FACTS, h.fields, buf, |PrintLine(h)|) == Some(facts)
  }

  /** The value of a header from v on, broken off. */
  ghost predicate OpenValue(buf: string, v: nat, space: bool)
  {
    v < |buf| && NoControl(buf[v..]) && (!space ==> buf[v] != ' ')
  }

  /** What is behind the ':' of such a header. */
  ghost predicate OpenNamed(buf: string, v: nat)
  {
    v <= |buf|
    && (v == |buf| || buf[v..] == " " || OpenValue(buf, v, false) || (buf[v] == ' ' && OpenValue(buf, v + 1, true)))
  }

  /** A header that breaks off in its name, at its ':' or in its value. */
  ghost predicate OpenName(buf: string, at: nat)
  {
    at <= |buf|
    && (buf[at..] == "" || NameOk(buf[at..])
        || exists name :: NameOk(name) && At(buf, at, name + ":") && OpenNamed(buf, at + |name| + 1))
  }

  /** A header that is all there but for the '\n' at its end. */
  ghost predicate AllButEnd(buf: string, at: nat, f: Field)
  {
    FieldOk(f) && At(buf, at, f.name + ":") && At(buf, at + |f.name| + 1, PrintValue(f) + "\r")
  }

  ghost predicate OpenField(buf: string, at: nat, facts: Facts)
  {
    at <= |buf|
    && (buf[at..] == "\r" || OpenName(buf, at)
        || exists f, more :: AllButEnd(buf, at, f) && |buf| == ValueAt(f, at) + |f.value| + 1
             && Learn(facts, f, buf, ValueAt(f, at)) == Some(more))
  }

  /** A header whose value has no meaning: a length that is no int or that atoi reads beyond the buffer for, or
      multipart data without a boundary. */
  ghost predicate FaultyField(buf: string, at: nat, facts: Facts)
  {
    exists f :: AllButEnd(buf, at, f) && ValueAt(f, at) <= |buf| && Learn(facts, f, buf, ValueAt(f, at)) == None
  }

  // ---------------------------------------------------------------- whole requests

  predicate WithBody(h: Head)
  {
    h.fields != [] && (h.verb == "POST" || h.verb == "PUT")
  }

  /** A multipart body: the "--", the boundary, and parts. */
  ghost predicate FirstBoundary(buf: string, n: nat, boundary: string)
  {
    |boundary| >= 1 && NoControl(boundary) && At(buf, n, "--" + boundary)
    && n + 2 + |boundary| < |buf| && buf[n + 2 + |boundary|] == '\r'
  }

  ghost predicate OpenBoundary(buf: string, n: nat)
  {
    n <= |buf| && (buf[n..] == "-" || (At(buf, n, "--") && NoControl(buf[n + 2..])))
  }

  ghost predicate HasParts(buf: string, at: nat, boundary: string)
  {
    exists parts :: CompleteParts(buf, at, boundary, parts)
  }

  /** A request that is complete: with nothing behind its head, or no body to read, or enough of it. */
  ghost predicate CompleteRequest(buf: string, h: Head, facts: Facts)
  {
    var n := |PrintHead(h)|;
    var boundary := Text(buf, facts.boundary);
    && Begins(buf, h, facts)
    && (!WithBody(h) || |buf| == n
        || (!facts.isMultipart && BodySize(facts) <= |buf| - n)
        || (facts.isMultipart && FirstBoundary(buf, n, boundary)
            && HasParts(buf, n + 2 + |boundary|, boundary)))
  }

  /** A request whose body breaks off. */
  ghost predicate OpenRequest(buf: string, h: Head, facts: Facts)
  {
    var n := |PrintHead(h)|;
    var boundary := Text(buf, facts.boundary);
    && Begins(buf, h, facts) && WithBody(h) && n < |buf|
    && (if facts.isMultipart
        then OpenBoundary(buf, n) || (FirstBoundary(buf, n, boundary) && OpenParts(buf, n + 2 + |boundary|, boundary))
        else |buf| - n < BodySize(facts))
  }

  /** A request with a part that ends too early. */
  ghost predicate FaultyRequest(buf: string, h: Head, facts: Facts)
  {
    var n := |PrintHead(h)|;
    var boundary := Text(buf, facts.boundary);
    && Begins(buf, h, facts) && WithBody(h) && facts.isMultipart
    && FirstBoundary(buf, n, boundary) && FaultyParts(buf, n + 2 + |boundary|, boundary)
  }

  ghost predicate CompleteText(buf: string)
  {
    exists h, facts :: CompleteRequest(buf, h, facts)
  }

  ghost predicate OpenText(buf: string)
  {
    || OpenLine(buf)
    || (exists h, facts, at :: UpTo(buf, h, facts, at) && OpenField(buf, at, facts))
    || (exists h, facts :: OpenRequest(buf, h, facts))
  }

  ghost predicate FaultyText(buf: string)
  {
    || (exists h, facts, at :: UpTo(buf, h, facts, at) && FaultyField(buf, at, facts))
    || (exists h, facts :: FaultyRequest(buf, h, facts))
  }

  // ---------------------------------------------------------------- the request line

  lemma StepVerb(s: Scan, buf: string, i: nat)
    requires i < |buf| && s.state == MethodStart
    ensures Step(s, buf, i)
         == if buf[i] == ' ' then Go(s.(state := MethodEnd, req := s.req.(verb := View(s.prev, i))))
            else if IsAlpha(buf[i]) then Go(s) else Fail(s)
  {
  }

  lemma StepUri(s: Scan, buf: string, i: nat)
    requires i < |buf| && s.state == UriStart
    ensures Step(s, buf, i)
         == if buf[i] == ' ' then Go(s.(state := UriEnd, req := s.req.(uri := View(s.prev, i))))
            else if Control(buf[i]) then Fail(s) else Go(s)
  {
  }

  lemma StepHttp(s: Scan, buf: string, i: nat)
    requires i < |buf| && s.state == HttpStart
    ensures Step(s, buf, i)
         == if buf[i] == '/' then if Text(buf, View(s.prev, i)) == "HTTP" then Go(s.(state := HttpEnd)) else Fail(s)
            else if IsAlpha(buf[i]) then Go(s) else Fail(s)
  {
  }

  lemma StepVersion(s: Scan, buf: string, i: nat)
    requires i < |buf| && s.state == VersionStart
    ensures Step(s, buf, i)
         == if buf[i] == '\r' then Go(s.(state := VersionEnd_r, req := s.req.(version := View(s.prev, i))))
            else if IsDigit(buf[i]) || buf[i] == '.' then Go(s) else Fail(s)
  {
  }

  /** The first character of each piece. */
  lemma StepFirst(s: Scan, buf: string, i: nat)
    requires i < |buf| && s.state in {MethodUnstart, MethodEnd, UriEnd, HttpEnd}
    ensures Step(s, buf, i)
         == if s.state == MethodUnstart then if IsAlpha(buf[i]) then Go(s.(state := MethodStart)) else Fail(s)
            else if s.state == MethodEnd then if Control(buf[i]) then Fail(s) else Go(s.(state := UriStart, prev := i))
            else if s.state == UriEnd then if buf[i] == 'H' then Go(s.(state := HttpStart, prev := i)) else Fail(s)
            else if IsDigit(buf[i]) then Go(s.(state := VersionStart, prev := i)) else Fail(s)
  {
  }

  lemma VersionPasses(buf: string, i: nat, version: string, s: Scan)
    requires s.state == HttpEnd && VersionOk(version) && At(buf, i, version)
    ensures i + |version| <= |buf|
    ensures Run(s, buf, i) == Run(s.(state := VersionStart, prev := i), buf, i + |version|)
  {
    hide Run, Step, At;
    AtText(buf, i, version);
    AtChar(buf, i, version, 0);
    StepFirst(s, buf, i);
    var t := s.(state := VersionStart, prev := i);
    StepsTo(s, buf, i, t);
    forall k | i + 1 <= k < i + |version| ensures Step(t, buf, k) == Go(t) {
      AtChar(buf, i, version, k - i);
      StepVersion(t, buf, k);
    }
    RunOver(t, buf, i + 1, i + |version|);
  }

  lemma VersionOpen(buf: string, i: nat, s: Scan)
    requires s.state == HttpEnd && OpenVersion(buf, i)
    ensures Run(s, buf, i).outcome == InCompleted
  {
    hide Run, Step, At, VersionOk;
    var t := s.(state := VersionStart, prev := i);
    if buf[i..] == "" {
      RunEnds(s, buf);
    } else if VersionOk(buf[i..]) {
      AtRest(buf, i);
      VersionPasses(buf, i, buf[i..], s);
      RunEnds(t, buf);
    } else {
      var version :| VersionOk(version) && At(buf, i, version + "\r") && |buf| == i + |version| + 1;
      AtSplit(buf, i, version, "\r");
      VersionPasses(buf, i, version, s);
      AtChar(buf, i + |version|, "\r", 0);
      StepVersion(t, buf, i + |version|);
      var u := t.(state := VersionEnd_r, req := s.req.(version := View(i, i + |version|)));
      StepsTo(t, buf, i + |version|, u);
      RunEnds(u, buf);
    }
  }

  lemma HttpOpen(buf: string, i: nat, s: Scan)
    requires s.state == UriEnd && OpenHttp(buf, i)
    ensures Run(s, buf, i).outcome == InCompleted
  {
    hide Run, Step, OpenVersion, At;
    if buf[i..] == "" {
      RunEnds(s, buf);
    } else if buf[i] == 'H' && AllAlpha(buf[i..]) {
      var t := s.(state := HttpStart, prev := i);
      StepFirst(s, buf, i);
      StepsTo(s, buf, i, t);
      forall k | i + 1 <= k < |buf| ensures Step(t, buf, k) == Go(t) {
        assert IsAlpha(buf[i..][k - i]);
        StepHttp(t, buf, k);
      }
      RunOver(t, buf, i + 1, |buf|);
      RunEnds(t, buf);
    } else {
      ReadHttp(buf, i, s);
      VersionOpen(buf, i + 5, s.(state := HttpEnd, prev := i));
    }
  }

  lemma UriOpen(buf: string, i: nat, s: Scan)
    requires s.state == MethodEnd && OpenUri(buf, i)
    ensures Run(s, buf, i).outcome == InCompleted
  {
    hide Run, Step, OpenHttp, At;
    if buf[i..] == "" {
      RunEnds(s, buf);
    } else if UriOk(buf[i..]) {
      UriBroken(buf, i, s);
    } else {
      hide UriOk;
      var uri :| UriOk(uri) && At(buf, i, uri + " ") && OpenHttp(buf, i + |uri| + 1);
      ReadUri(buf, i, uri, s);
      HttpOpen(buf, i + |uri| + 1, s.(state := UriEnd, prev := i, req := s.req.(uri := View(i, i + |uri|))));
    }
  }

  lemma UriBroken(buf: string, i: nat, s: Scan)
    requires s.state == MethodEnd && i <= |buf| && UriOk(buf[i..])
    ensures Run(s, buf, i).outcome == InCompleted
  {
    hide Run, Step;
    var t := s.(state := UriStart, prev := i);
    assert buf[i] == buf[i..][0];
    StepFirst(s, buf, i);
    StepsTo(s, buf, i, t);
    forall k | i + 1 <= k < |buf| ensures Step(t, buf, k) == Go(t) {
      assert buf[k] == buf[i..][k - i];
      StepUri(t, buf, k);
    }
    RunOver(t, buf, i + 1, |buf|);
    RunEnds(t, buf);
  }

  lemma VerbBroken(buf: string)
    requires VerbOk(buf)
    ensures Parse(NO_FIELDS, buf).outcome == InCompleted
  {
    hide Run, Step;
    var s, t := Scan(MethodUnstart, 0, 0, NO_FIELDS), Scan(MethodStart, 0, 0, NO_FIELDS);
    StepFirst(s, buf, 0);
    StepsTo(s, buf, 0, t);
    forall k | 1 <= k < |buf| ensures Step(t, buf, k) == Go(t) {
      assert IsAlpha(buf[k]);
      StepVerb(t, buf, k);
    }
    RunOver(t, buf, 1, |buf|);
    RunEnds(t, buf);
  }

  /** A request line that breaks off is incomplete. */
  lemma LineOpen(buf: string)
    requires OpenLine(buf)
    ensures Parse(NO_FIELDS, buf).outcome == InCompleted
  {
    hide Run, Step, OpenUri, VerbOk, At;
    if buf == "" {
      RunEnds(Scan(MethodUnstart, 0, 0, NO_FIELDS), buf);
    } else if VerbOk(buf) {
      VerbBroken(buf);
    } else {
      var verb :| VerbOk(verb) && At(buf, 0, verb + " ") && OpenUri(buf, |verb| + 1);
      ReadVerb(buf, verb, NO_FIELDS);
      UriOpen(buf, |verb| + 1, Scan(MethodEnd, 0, 0, NO_FIELDS.(verb := View(0, |verb|))));
    }
  }

  // ---------------------------------------------------------------- finding the request line

  /** A step that fails rejects. */
  lemma NoFail(s: Scan, buf: string, i: nat)
    requires i < |buf| && Run(s, buf, i).outcome != Error
    ensures Step(s, buf, i) != Fail(s)
  {
    hide Step;
  }

  lemma FindVerb(buf: string) returns (open: bool, verb: string)
    requires Parse(NO_FIELDS, buf).outcome != Error
    ensures open ==> OpenLine(buf)
    ensures !open ==> VerbOk(verb) && At(buf, 0, verb + " ")
  {
    hide Run, Step, At, OpenUri, IsAlpha;
    open, verb := true, "";
    if buf != "" {
      var s, t := Scan(MethodUnstart, 0, 0, NO_FIELDS), Scan(MethodStart, 0, 0, NO_FIELDS);
      NoFail(s, buf, 0);
      StepFirst(s, buf, 0);
      StepsTo(s, buf, 0, t);
      var e := LeavesOrEnds(t, buf, 1);
      verb := buf[..e];
      forall k | 0 <= k < e ensures IsAlpha(verb[k]) {
        if k >= 1 {
          StepVerb(t, buf, k);
          NotItself(t, buf, k);
        }
      }
      open := e == |buf|;
      if !open {
        NoFail(t, buf, e);
        StepVerb(t, buf, e);
        AtSlice(buf, 0, e);
      } else {
        assert buf == verb;
      }
    }
  }

  /** A step that keeps the locals is no failure, and moves to no other state. */
  lemma NotItself(s: Scan, buf: string, i: nat)
    requires i < |buf| && Step(s, buf, i) == Go(s)
    ensures Step(s, buf, i) != Fail(s) && forall t: Scan :: t.state != s.state ==> Step(s, buf, i) != Go(t)
  {
    hide Step;
  }

  lemma FindUri(buf: string, i: nat, s: Scan) returns (open: bool, uri: string)
    requires i <= |buf| && s.state == MethodEnd && Run(s, buf, i).outcome != Error
    ensures open ==> OpenUri(buf, i)
    ensures !open ==> UriOk(uri) && At(buf, i, uri + " ")
  {
    hide Run, Step, At, OpenHttp, Control;
    open, uri := true, "";
    if i < |buf| {
      var t := s.(state := UriStart, prev := i);
      NoFail(s, buf, i);
      StepFirst(s, buf, i);
      StepsTo(s, buf, i, t);
      var e := LeavesOrEnds(t, buf, i + 1);
      uri := buf[i..e];
      forall k | i + 1 <= k < e ensures !Control(buf[k]) && buf[k] != ' ' {
        StepUri(t, buf, k);
      }
      open := e == |buf|;
      if !open {
        NoFail(t, buf, e);
        StepUri(t, buf, e);
        AtSlice(buf, i, e);
      } else {
        assert buf[i..] == uri;
      }
    }
  }

  lemma FindHttp(buf: string, i: nat, s: Scan) returns (open: bool)
    requires i <= |buf| && s.state == UriEnd && Run(s, buf, i).outcome != Error
    ensures open ==> OpenHttp(buf, i)
    ensures !open ==> At(buf, i, "HTTP/")
  {
    hide Run, Step, OpenVersion;
    open := true;
    if i < |buf| {
      var t := s.(state := HttpStart, prev := i);
      NoFail(s, buf, i);
      StepFirst(s, buf, i);
      StepsTo(s, buf, i, t);
      var e := LeavesOrEnds(t, buf, i + 1);
      forall k | i + 1 <= k < e ensures IsAlpha(buf[k]) {
        StepHttp(t, buf, k);
      }
      open := e == |buf|;
      if !open {
        NoFail(t, buf, e);
        StepHttp(t, buf, e);
        assert buf[i..e] == "HTTP";
        AtSlice(buf, i, e);
      }
    }
  }

  lemma FindVersion(buf: string, i: nat, s: Scan) returns (open: bool, version: string)
    requires i <= |buf| && s.state == HttpEnd && Run(s, buf, i).outcome != Error
    ensures open ==> OpenVersion(buf, i)
    ensures !open ==> VersionOk(version) && At(buf, i, version + "\r\n")
  {
    hide Run, Step, At, IsDigit;
    open, version := true, "";
    if i < |buf| {
      var t := s.(state := VersionStart, prev := i);
      NoFail(s, buf, i);
      StepFirst(s, buf, i);
      StepsTo(s, buf, i, t);
      var e := LeavesOrEnds(t, buf, i + 1);
      version := buf[i..e];
      forall k | i + 1 <= k < e ensures IsDigit(buf[k]) || buf[k] == '.' {
        StepVersion(t, buf, k);
      }
      if e == |buf| {
        assert buf[i..] == version;
      } else {
        NoFail(t, buf, e);
        StepVersion(t, buf, e);
        AtSlice(buf, i, e);
        StepsTo(t, buf, e, t.(state := VersionEnd_r, req := s.req.(version := View(i, e))));
        open := e + 1 == |buf|;
        if !open {
          VersionEnds(t.(state := VersionEnd_r, req := s.req.(version := View(i, e))), buf, e + 1);
          IsBreak(buf, e);
          assert At(buf, i, version) by { AtSplit(buf, i, version, "\r"); }
          AtJoin(buf, i, version, "\r\n");
        }
      }
    }
  }

  lemma VersionEnds(s: Scan, buf: string, i: nat)
    requires i < |buf| && s.state == VersionEnd_r && Run(s, buf, i).outcome != Error
    ensures buf[i] == '\n'
  {
  }

  /** What follows the verb. */
  lemma FindRestOfLine(buf: string, verb: string, s: Scan) returns (open: bool, h: Head)
    requires VerbOk(verb) && At(buf, 0, verb + " ") && |verb| + 1 <= |buf|
    requires s.state == MethodEnd && Run(s, buf, |verb| + 1).outcome != Error
    ensures open ==> OpenLine(buf)
    ensures !open ==> h.fields == [] && HeadOk(h) && At(buf, 0, PrintLine(h))
  {
    hide Run, Step, UriOk, VersionOk, VerbOk, At, OpenHttp, OpenVersion;
    h := Head("", "", "", []);
    var u := |verb| + 1;
    var uri;
    open, uri := FindUri(buf, u, s);
    if !open {
      hide OpenUri, OpenLine;
      ReadUri(buf, u, uri, s);
      AtText(buf, u, uri + " ");
      var w := u + |uri| + 1;
      var t := s.(state := UriEnd, prev := u, req := s.req.(uri := View(u, u + |uri|)));
      open := FindHttp(buf, w, t);
      if open {
        HttpLeft(buf, verb, uri);
      } else {
        ReadHttp(buf, w, t);
        AtText(buf, w, "HTTP/");
        var version;
        open, version := FindVersion(buf, w + 5, t.(state := HttpEnd, prev := w));
        if open {
          VersionLeft(buf, verb, uri);
        } else {
          h := Head(verb, uri, version, []);
          LineJoins(buf, h);
        }
      }
    }
  }

  lemma LineJoins(buf: string, h: Head)
    requires At(buf, 0, h.verb + " ") && At(buf, |h.verb| + 1, h.uri + " ")
    requires At(buf, |h.verb| + |h.uri| + 2, "HTTP/") && At(buf, |h.verb| + |h.uri| + 7, h.version + "\r\n")
    ensures At(buf, 0, PrintLine(h))
  {
    hide At;
    var w := |h.verb| + |h.uri| + 2;
    AtJoin(buf, w, "HTTP/", h.version + "\r\n");
    AtJoin(buf, |h.verb| + 1, h.uri + " ", "HTTP/" + (h.version + "\r\n"));
    AtJoin(buf, 0, h.verb + " ", (h.uri + " ") + ("HTTP/" + (h.version + "\r\n")));
  }

  /** The request line of a buffer that is not rejected. */
  lemma FindLine(buf: string) returns (open: bool, h: Head)
    requires Parse(NO_FIELDS, buf).outcome != Error
    ensures open ==> OpenLine(buf)
    ensures !open ==> h.fields == [] && HeadOk(h) && At(buf, 0, PrintLine(h))
  {
    hide Run, Step, VerbOk, At, OpenLine, HeadOk;
    h := Head("", "", "", []);
    var verb;
    open, verb := FindVerb(buf);
    if !open {
      ReadVerb(buf, verb, NO_FIELDS);
      AtText(buf, 0, verb + " ");
      open, h := FindRestOfLine(buf, verb, Scan(MethodEnd, 0, 0, NO_FIELDS.(verb := View(0, |verb|))));
    }
  }

  lemma HttpLeft(buf: string, verb: string, uri: string)
    requires VerbOk(verb) && At(buf, 0, verb + " ") && UriOk(uri) && At(buf, |verb| + 1, uri + " ")
    requires OpenHttp(buf, |verb| + 1 + |uri| + 1)
    ensures OpenLine(buf)
  {
    hide OpenHttp, UriOk, VerbOk;
    assert OpenUri(buf, |verb| + 1);
  }

  lemma VersionLeft(buf: string, verb: string, uri: string)
    requires VerbOk(verb) && At(buf, 0, verb + " ") && UriOk(uri) && At(buf, |verb| + 1, uri + " ")
    requires At(buf, |verb| + 1 + |uri| + 1, "HTTP/") && OpenVersion(buf, |verb| + 1 + |uri| + 1 + 5)
    ensures OpenLine(buf)
  {
    hide OpenVersion, UriOk, VerbOk;
    assert OpenHttp(buf, |verb| + 1 + |uri| + 1);
    HttpLeft(buf, verb, uri);
  }

  // ---------------------------------------------------------------- headers, read as far as they go

  lemma StepName(s: Scan, buf: string, i: nat)
    requires i < |buf| && s.state == HeaderStart && buf[i] != ':'
    ensures Step(s, buf, i) == if Control(buf[i]) then Fail(s) else Go(s)
  {
  }

  lemma StepBetweenFields(s: Scan, buf: string, i: nat)
    requires i < |buf| && BetweenFields(s)
    ensures Step(s, buf, i)
         == if buf[i] == '\r' then Go(s.(state := if s.state == VersionEnd_rn then VersionEnd_rnr else Header_rnr))
            else if Control(buf[i]) then Fail(s) else Go(s.(state := HeaderStart, prev := i))
  {
  }

  lemma NamePasses(buf: string, i: nat, name: string, s: Scan)
    requires BetweenFields(s) && NameOk(name) && At(buf, i, name)
    ensures i + |name| <= |buf| && Run(s, buf, i) == Run(s.(state := HeaderStart, prev := i), buf, i + |name|)
  {
    hide Run, Step, At;
    AtText(buf, i, name);
    AtChar(buf, i, name, 0);
    StepBetweenFields(s, buf, i);
    var t := s.(state := HeaderStart, prev := i);
    StepsTo(s, buf, i, t);
    forall k | i + 1 <= k < i + |name| ensures Step(t, buf, k) == Go(t) {
      AtChar(buf, i, name, k - i);
      StepName(t, buf, k);
    }
    RunOver(t, buf, i + 1, i + |name|);
  }

  lemma ValueOpen(buf: string, v: nat, space: bool, s: Scan)
    requires s.state == HeaderNameEnd && OpenValue(buf, if space then v + 1 else v, space)
    requires space ==> v < |buf| && buf[v] == ' '
    ensures v <= |buf| && Run(s, buf, v).outcome == InCompleted
  {
    hide Run, Step, NoControl;
    var at := if space then v + 1 else v;
    var f := Field("", space, buf[at..]);
    assert At(buf, v, PrintValue(f)) by {
      assert buf[v..] == (if space then " " else "") + buf[at..];
    }
    hide At;
    ReadValue(buf, v, f, s);
    RunEnds(s.(state := HeaderValueStart, prev := at), buf);
  }

  lemma NameOpen(buf: string, at: nat, s: Scan)
    requires BetweenFields(s) && OpenName(buf, at)
    ensures Run(s, buf, at).outcome == InCompleted
  {
    hide Run, Step, At, NameOk, OpenNamed;
    if buf[at..] == "" {
      RunEnds(s, buf);
    } else if NameOk(buf[at..]) {
      AtRest(buf, at);
      NamePasses(buf, at, buf[at..], s);
      RunEnds(s.(state := HeaderStart, prev := at), buf);
    } else {
      var name :| NameOk(name) && At(buf, at, name + ":") && OpenNamed(buf, at + |name| + 1);
      NamedOpen(buf, at, name, s);
    }
  }

  lemma NamedOpen(buf: string, at: nat, name: string, s: Scan)
    requires BetweenFields(s) && NameOk(name) && At(buf, at, name + ":") && OpenNamed(buf, at + |name| + 1)
    ensures Run(s, buf, at).outcome == InCompleted
  {
    hide Run, Step, At, NameOk, OpenValue;
    var v := at + |name| + 1;
    ReadName(buf, at, Field(name, false, ""), s);
    var t := ValueScan(s, Field(name, false, ""), at).(state := HeaderNameEnd, prev := at);
    if v == |buf| {
      RunEnds(t, buf);
    } else if buf[v..] == " " {
      SpaceOpen(buf, v, t);
    } else if OpenValue(buf, v, false) {
      ValueOpen(buf, v, false, t);
    } else {
      ValueOpen(buf, v, true, t);
    }
  }

  lemma SpaceOpen(buf: string, v: nat, s: Scan)
    requires v <= |buf| && buf[v..] == " " && s.state == HeaderNameEnd
    ensures Run(s, buf, v).outcome == InCompleted
  {
    assert buf[v] == buf[v..][0];
  }

  /** A header up to the '\r' that ends its value. */
  lemma ReadAllButEnd(buf: string, at: nat, f: Field, s: Scan)
    requires BetweenFields(s) && AllButEnd(buf, at, f)
    ensures var e := ValueAt(f, at) + |f.value|;
            e < |buf| && buf[e] == '\r' && Run(s, buf, at) == Run(ValueScan(s, f, at), buf, e)
    ensures At(buf, at, f.name) && At(buf, ValueAt(f, at), f.value)
  {
    hide Run, Step, At, NoControl, NameOk;
    AtSplit(buf, at, f.name, ":");
    ReadName(buf, at, f, s);
    var v := at + |f.name| + 1;
    AtSplit(buf, v, PrintValue(f), "\r");
    AtSplit(buf, v, if f.space then " " else "", f.value);
    AtChar(buf, v + |PrintValue(f)|, "\r", 0);
    ReadValue(buf, v, f, ValueScan(s, f, at).(state := HeaderNameEnd, prev := at));
  }

  lemma StepValue(s: Scan, buf: string, i: nat)
    requires i < |buf| && s.state == HeaderValueStart
    ensures Step(s, buf, i)
         == if buf[i] == '\r' then EndValue(s, buf, i) else if Control(buf[i]) then Fail(s) else Go(s)
  {
    hide EndValue;
  }

  lemma EndFaults(buf: string, f: Field, i: nat, s: Scan)
    requires At(buf, i, f.name) && At(buf, ValueAt(f, i), f.value) && BetweenFields(s)
    requires ValueAt(f, i) <= |buf| && Learn(FactsIn(s), f, buf, ValueAt(f, i)) == None
    ensures var r := EndValue(ValueScan(s, f, i), buf, ValueAt(f, i) + |f.value|); r.Stop? && r.outcome == Fault
  {
    hide Find, Atoi, At, Text;
    var hs := s.req.headers + [Header(View(i, i + |f.name|), NO_VIEW)];
    assert hs[|hs| - 1] == Header(View(i, i + |f.name|), NO_VIEW);
    AtText(buf, i, f.name);
    AtText(buf, ValueAt(f, i), f.value);
  }

  /** A header without a meaning. */
  lemma FieldFaults(buf: string, at: nat, facts: Facts, s: Scan)
    requires BetweenFields(s) && FactsIn(s) == facts && at <= |buf| && FaultyField(buf, at, facts)
    ensures Run(s, buf, at).outcome == Fault
  {
    hide Run, Step, Learn, EndValue;
    var f :| AllButEnd(buf, at, f) && ValueAt(f, at) <= |buf| && Learn(facts, f, buf, ValueAt(f, at)) == None;
    ReadAllButEnd(buf, at, f, s);
    hide AllButEnd, At;
    EndFaults(buf, f, at, s);
    StepValue(ValueScan(s, f, at), buf, ValueAt(f, at) + |f.value|);
    RunStops(ValueScan(s, f, at), buf, ValueAt(f, at) + |f.value|);
  }

  /** A header, or the blank line, that breaks off. */
  lemma FieldOpen(buf: string, at: nat, facts: Facts, s: Scan)
    requires BetweenFields(s) && FactsIn(s) == facts && OpenField(buf, at, facts)
    ensures Run(s, buf, at).outcome == InCompleted
  {
    hide Run, Step, Learn, EndValue, OpenName, AllButEnd;
    if buf[at..] == "\r" {
      assert buf[at] == buf[at..][0];
      StepBetweenFields(s, buf, at);
      var t := s.(state := if s.state == VersionEnd_rn then VersionEnd_rnr else Header_rnr);
      StepsTo(s, buf, at, t);
      RunEnds(t, buf);
    } else if OpenName(buf, at) {
      NameOpen(buf, at, s);
    } else {
      var f, more :| AllButEnd(buf, at, f) && |buf| == ValueAt(f, at) + |f.value| + 1
        && Learn(facts, f, buf, ValueAt(f, at)) == Some(more);
      ReadAllButEnd(buf, at, f, s);
      hide At;
      ReadEnd(buf, f, at, s, more);
      var t := FieldScan(s, f, at, more).(state := Header_r);
      StepValue(ValueScan(s, f, at), buf, |buf| - 1);
      StepsTo(ValueScan(s, f, at), buf, |buf| - 1, t);
      RunEnds(t, buf);
    }
  }

  /** The scan behind what is whole. */
  lemma ReadUpTo(buf: string, h: Head, facts: Facts, at: nat) returns (s: Scan)
    requires UpTo(buf, h, facts, at)
    ensures BetweenFields(s) && FactsIn(s) == facts && Parse(NO_FIELDS, buf) == Run(s, buf, at)
  {
    hide Run, Step, At, LearnAll, PrintLine, PrintFields, Parse, VerbOk, UriOk, VersionOk, FieldsOk, HeadersOf;
    ReadLine(buf, h);
    var p := ReadFields(buf, |PrintLine(h)|, h.fields, LineScan(h), facts);
    s := FieldsScan(LineScan(h), h.fields, |PrintLine(h)|, p, facts);
  }

  // ---------------------------------------------------------------- finding the headers

  /** How a list of headers ends: broken off, in a header without a meaning, or with the blank line. */
  datatype End = Open | Faulty | Blank

  ghost predicate Ends(buf: string, at: nat, facts: Facts, end: End)
  {
    match end
    case Open => OpenField(buf, at, facts)
    case Faulty => FaultyField(buf, at, facts)
    case Blank => At(buf, at, "\r\n")
  }

  lemma FindName(buf: string, i: nat, s: Scan) returns (open: bool, name: string)
    requires i < |buf| && buf[i] != '\r' && BetweenFields(s) && Run(s, buf, i).outcome != Error
    ensures open ==> OpenName(buf, i)
    ensures !open ==> NameOk(name) && At(buf, i, name + ":")
  {
    hide Run, Step, At, Control;
    NoFail(s, buf, i);
    StepBetweenFields(s, buf, i);
    var t := s.(state := HeaderStart, prev := i);
    StepsTo(s, buf, i, t);
    var e := LeavesOrEnds(t, buf, i + 1);
    name := buf[i..e];
    forall k | i + 1 <= k < e ensures !Control(buf[k]) && buf[k] != ':' {
      if buf[k] == ':' {
        ColonMoves(t, buf, k);
      } else {
        StepName(t, buf, k);
      }
    }
    open := e == |buf|;
    if open {
      assert buf[i..] == name;
    } else {
      if buf[e] != ':' {
        NoFail(t, buf, e);
        StepName(t, buf, e);
      }
      AtSlice(buf, i, e);
    }
  }

  lemma ColonMoves(s: Scan, buf: string, i: nat)
    requires i < |buf| && s.state == HeaderStart && buf[i] == ':'
    ensures Step(s, buf, i) != Go(s)
  {
  }

  lemma StepNameEnd(s: Scan, buf: string, i: nat)
    requires i < |buf| && s.state in {HeaderNameEnd, HeaderNameValueSpace}
    ensures Step(s, buf, i)
         == if s.state == HeaderNameEnd && buf[i] == ' ' then Go(s.(state := HeaderNameValueSpace))
            else if Control(buf[i]) then Fail(s) else Go(s.(state := HeaderValueStart, prev := i))
  {
  }

  lemma EndValueGoes(s: Scan, buf: string, e: nat)
    requires e <= |buf|
    ensures EndValue(s, buf, e) != Go(s) || s.state == Header_r
    ensures EndValue(s, buf, e).Go? ==> EndValue(s, buf, e).scan.state == Header_r
  {
  }

  /** A value from v on, to the '\r' that ends it or to the end of the buffer. */
  lemma FindValueEnd(buf: string, v: nat, s: Scan) returns (e: nat)
    requires v < |buf| && !Control(buf[v]) && s.state == HeaderValueStart && Run(s, buf, v + 1).outcome != Error
    ensures v < e <= |buf| && NoControl(buf[v..e]) && Run(s, buf, v + 1) == Run(s, buf, e)
    ensures e < |buf| ==> buf[e] == '\r'
  {
    hide Run, Step, EndValue, Control;
    e := LeavesOrEnds(s, buf, v + 1);
    forall k | v + 1 <= k < e ensures !Control(buf[k]) {
      StepValue(s, buf, k);
      EndValueGoes(s, buf, k);
    }
    if e < |buf| {
      NoFail(s, buf, e);
      StepValue(s, buf, e);
    }
  }

  /** What is behind a name and its ':'. */
  lemma FindNamed(buf: string, v: nat, s: Scan) returns (open: bool, space: bool, value: string)
    requires v <= |buf| && s.state == HeaderNameEnd && Run(s, buf, v).outcome != Error
    ensures open ==> OpenNamed(buf, v)
    ensures !open ==> |value| >= 1 && NoControl(value) && (!space ==> value[0] != ' ')
    ensures !open ==> At(buf, v, PrintValue(Field("", space, value)) + "\r")
  {
    hide Run, Step, At, NoControl, Control;
    open, space, value := true, false, "";
    if v < |buf| {
      space := buf[v] == ' ';
      NoFail(s, buf, v);
      StepNameEnd(s, buf, v);
      var w := if space then v + 1 else v;
      var u := s.(state := HeaderNameValueSpace);
      if space {
        StepsTo(s, buf, v, u);
      }
      if w == |buf| {
        assert buf[v..] == " ";
      } else {
        if space {
          NoFail(u, buf, w);
          StepNameEnd(u, buf, w);
        }
        var t := s.(state := HeaderValueStart, prev := w);
        StepsTo(if space then u else s, buf, w, t);
        var e := FindValueEnd(buf, w, t);
        value := buf[w..e];
        open := e == |buf|;
        if open {
          assert buf[w..] == value;
        } else {
          ValueCut(buf, v, space, e);
        }
      }
    }
  }

  /** One header, or where the headers end. */
  lemma FindOne(buf: string, i: nat, s: Scan) returns (whole: bool, end: End, f: Field, more: Facts)
    requires i <= |buf| && BetweenFields(s) && Run(s, buf, i).outcome != Error
    ensures !whole ==> Ends(buf, i, FactsIn(s), end)
    ensures whole ==> FieldOk(f) && At(buf, i, PrintField(f)) && ValueAt(f, i) <= |buf|
                      && Learn(FactsIn(s), f, buf, ValueAt(f, i)) == Some(more)
  {
    hide Run, Step, Learn, AllButEnd;
    whole, end, f, more := false, Open, Field("", false, ""), FactsIn(s);
    if i == |buf| {
      assert buf[i..] == "";
    } else if buf[i] == '\r' {
      if i + 1 == |buf| {
        assert buf[i..] == "\r";
      } else {
        end := Blank;
        BlankBehind(buf, i, s);
      }
    } else {
      var open, name := FindName(buf, i, s);
      if !open {
        ReadName(buf, i, Field(name, false, ""), s);
        var v := i + |name| + 1;
        AtText(buf, i, name + ":");
        var space, value;
        var t := ValueScan(s, Field(name, false, ""), i).(state := HeaderNameEnd, prev := i);
        open, space, value := FindNamed(buf, v, t);
        if !open {
          f := Field(name, space, value);
          AllButEndIs(buf, i, f);
          whole, end, more := FindFieldEnd(buf, i, f, s);
        } else {
          NamedLeft(buf, i, name);
        }
      }
    }
  }

  lemma NamedLeft(buf: string, i: nat, name: string)
    requires i <= |buf| && NameOk(name) && At(buf, i, name + ":") && OpenNamed(buf, i + |name| + 1)
    ensures OpenName(buf, i)
  {
    hide NameOk, OpenNamed, At;
  }

  lemma AllButEndIs(buf: string, i: nat, f: Field)
    requires NameOk(f.name) && At(buf, i, f.name + ":") && At(buf, i + |f.name| + 1, PrintValue(f) + "\r")
    requires |f.value| >= 1 && NoControl(f.value) && (!f.space ==> f.value[0] != ' ')
    ensures AllButEnd(buf, i, f)
  {
  }

  lemma BlankBehind(buf: string, i: nat, s: Scan)
    requires i + 1 < |buf| && buf[i] == '\r' && BetweenFields(s) && Run(s, buf, i).outcome != Error
    ensures At(buf, i, "\r\n")
  {
    hide Run, Step;
    StepBetweenFields(s, buf, i);
    var t := s.(state := if s.state == VersionEnd_rn then VersionEnd_rnr else Header_rnr);
    StepsTo(s, buf, i, t);
    BlankEnd(t, buf, i + 1);
    IsBreak(buf, i);
  }

  lemma BlankEnd(s: Scan, buf: string, i: nat)
    requires i < |buf| && s.state in {VersionEnd_rnr, Header_rnr} && Run(s, buf, i).outcome != Error
    ensures buf[i] == '\n'
  {
  }

  /** The end of a header. */
  lemma FindFieldEnd(buf: string, i: nat, f: Field, s: Scan) returns (whole: bool, end: End, more: Facts)
    requires BetweenFields(s) && AllButEnd(buf, i, f) && i <= |buf| && Run(s, buf, i).outcome != Error
    ensures !whole ==> Ends(buf, i, FactsIn(s), end)
    ensures whole ==> FieldOk(f) && At(buf, i, PrintField(f)) && ValueAt(f, i) <= |buf|
                      && Learn(FactsIn(s), f, buf, ValueAt(f, i)) == Some(more)
  {
    hide Run, Step, Learn, EndValue, At, OpenName;
    ReadAllButEnd(buf, i, f, s);
    var e := ValueAt(f, i) + |f.value|;
    whole, end, more := false, Open, FactsIn(s);
    var learnt := Learn(FactsIn(s), f, buf, ValueAt(f, i));
    if learnt == None {
      end := Faulty;
      hide AllButEnd;
    } else {
      more := learnt.value;
      if e + 1 < |buf| {
        whole := true;
        ReadEnd(buf, f, i, s, more);
        var t := FieldScan(s, f, i, more).(state := Header_r);
        StepValue(ValueScan(s, f, i), buf, e);
        StepsTo(ValueScan(s, f, i), buf, e, t);
        HeaderEnds(t, buf, e + 1);
        IsBreak(buf, e);
        PieceOf(buf, i, f);
        JoinField(buf, i, f);
      } else {
        hide AllButEnd;
      }
    }
  }

  lemma HeaderEnds(s: Scan, buf: string, i: nat)
    requires i < |buf| && s.state == Header_r && Run(s, buf, i).outcome != Error
    ensures buf[i] == '\n'
  {
  }

  lemma PieceOf(buf: string, i: nat, f: Field)
    requires AllButEnd(buf, i, f)
    ensures At(buf, i + |f.name| + 1, PrintValue(f)) && At(buf, i, f.name + ":") && FieldOk(f)
  {
    AtSplit(buf, i + |f.name| + 1, PrintValue(f), "\r");
  }

  /** All headers, and how they end. */
  lemma {:induction false} FindFields(buf: string, i: nat, s: Scan) returns (fields: seq<Field>, facts: Facts, end: End)
    requires i <= |buf| && BetweenFields(s) && Run(s, buf, i).outcome != Error
    ensures FieldsOk(fields) && At(buf, i, PrintFields(fields)) && i + |PrintFields(fields)| <= |buf|
    ensures LearnAll(FactsIn(s), fields, buf, i) == Some(facts)
    ensures Ends(buf, i + |PrintFields(fields)|, facts, end)
    decreases |buf| - i
  {
    hide Run, Step, Learn, Ends, FieldOk;
    var whole, f, more;
    whole, end, f, more := FindOne(buf, i, s);
    fields, facts := [], FactsIn(s);
    if whole {
      FieldSplit(buf, i, f);
      ReadField(buf, i, f, s, more);
      var rest;
      rest, facts, end := FindFields(buf, i + |PrintField(f)|, FieldScan(s, f, i, more));
      fields := [f] + rest;
      MoreFields(buf, i, f, rest);
      hide At, PrintField;
      LearnFields(FactsIn(s), f, more, rest, facts, buf, i);
    }
  }

  lemma MoreFields(buf: string, i: nat, f: Field, rest: seq<Field>)
    requires At(buf, i, PrintField(f)) && At(buf, i + |PrintField(f)|, PrintFields(rest))
    ensures At(buf, i, PrintFields([f] + rest)) && |PrintFields([f] + rest)| == |PrintField(f)| + |PrintFields(rest)|
    ensures i + |PrintFields([f] + rest)| <= |buf|
  {
    hide PrintField;
    assert ([f] + rest)[1..] == rest;
    AtJoin(buf, i, PrintField(f), PrintFields(rest));
  }

  // ---------------------------------------------------------------- bodies

  /** The scan at the first character of a body. */
  function BodyScanOf(h: Head, facts: Facts, p: nat): Scan
  {
    Scan(Header_rnrn, p, facts.size, FieldsOf(h, facts))
  }

  /** From the end of a head on. */
  lemma ReadUpToBody(buf: string, h: Head, facts: Facts) returns (p: nat)
    requires Begins(buf, h, facts)
    ensures |PrintHead(h)| <= |buf| && facts.size < TWO_64
    ensures var s := BodyScanOf(h, facts, p);
            s.req.isMultipart == facts.isMultipart && s.req.boundary == facts.boundary
            && (IsPostOrPut(buf, s.req) <==> h.verb == "POST" || h.verb == "PUT")
    ensures if h.fields == [] || |buf| == |PrintHead(h)| then Parse(NO_FIELDS, buf).outcome == Completed
            else Parse(NO_FIELDS, buf) == Run(BodyScanOf(h, facts, p), buf, |PrintHead(h)|)
  {
    hide Run, Step, LearnAll, Learn, HeadOk, Parse, PrintFields, PrintLine;
    SizesFit(NO_FACTS, h.fields, buf, |PrintLine(h)|);
    p := ReadHead(buf, h, facts);
    VerbText(buf, h, facts);
    HeadLength(h);
    var n := |PrintHead(h)|;
    AtBreak(buf, n - 2);
    ReadBlank(Scan(if h.fields == [] then VersionEnd_rn else Header_rn, p, facts.size, FieldsOf(h, facts)), buf, n - 2);
    hide PrintHead, At, Text;
  }

  /** A body that is not read. */
  lemma NoBody(buf: string, i: nat, s: Scan)
    requires i < |buf| && s.state == Header_rnrn && !IsPostOrPut(buf, s.req)
    ensures Run(s, buf, i).outcome == Completed
  {
  }

  predicate Multi(buf: string, s: Scan)
  {
    s.state == Header_rnrn && IsPostOrPut(buf, s.req) && s.req.isMultipart
  }

  lemma StepDash(s: Scan, buf: string, i: nat)
    requires i < |buf| && Multi(buf, s)
    ensures Step(s, buf, i) == if buf[i] == '-' then Go(s.(state := MultipartDataStart, prev := i)) else Fail(s)
  {
    hide IsPostOrPut;
  }

  lemma StepDashes(s: Scan, buf: string, i: nat)
    requires i < |buf| && s.state in {MultipartDataStart, MultipartDataStart_}
    ensures Step(s, buf, i)
         == if s.state == MultipartDataStart then
              if buf[i] == '-' then Go(s.(state := MultipartDataStart_)) else Fail(s)
            else if Control(buf[i]) then Fail(s) else Go(s.(state := BoundaryMatchStart, prev := i))
  {
  }

  /** The scan at a '\r', or the end, behind the "--" and a line. */
  lemma PassFirst(buf: string, n: nat, line: string, s: Scan)
    requires Multi(buf, s) && At(buf, n, "--" + line) && NoControl(line)
    ensures n + 2 + |line| <= |buf|
    ensures var t := s.(state := if line == "" then MultipartDataStart_ else BoundaryMatchStart,
                        prev := if line == "" then n else n + 2);
            Run(s, buf, n) == Run(t, buf, n + 2 + |line|)
  {
    hide Run, Step, At;
    AtSplit(buf, n, "--", line);
    AtText(buf, n + 2, line);
    AtChar(buf, n, "--", 0);
    AtChar(buf, n, "--", 1);
    var t := s.(state := MultipartDataStart, prev := n);
    StepDash(s, buf, n);
    hide Multi;
    StepsTo(s, buf, n, t);
    StepDashes(t, buf, n + 1);
    var u := t.(state := MultipartDataStart_);
    StepsTo(t, buf, n + 1, u);
    if line != "" {
      AtChar(buf, n + 2, line, 0);
      StepDashes(u, buf, n + 2);
      var v := s.(state := BoundaryMatchStart, prev := n + 2);
      StepsTo(u, buf, n + 2, v);
      forall k | n + 3 <= k < n + 2 + |line| ensures Step(v, buf, k) == Go(v) {
        AtChar(buf, n + 2, line, k - n - 2);
        StepInBoundary(v, buf, k);
      }
      RunOver(v, buf, n + 3, n + 2 + |line|);
    }
  }

  lemma BoundaryOpen(buf: string, n: nat, s: Scan)
    requires Multi(buf, s) && n < |buf| && OpenBoundary(buf, n)
    ensures Run(s, buf, n).outcome == InCompleted
  {
    hide Run, Step, NoControl;
    if buf[n..] == "-" {
      assert buf[n] == buf[n..][0];
      StepDash(s, buf, n);
      hide Multi;
      StepsTo(s, buf, n, s.(state := MultipartDataStart, prev := n));
      RunEnds(s.(state := MultipartDataStart, prev := n), buf);
    } else {
      var line := buf[n + 2..];
      AtRest(buf, n + 2);
      AtJoin(buf, n, "--", line);
      hide At;
      PassFirst(buf, n, line, s);
      hide Multi;
      RunEnds(s.(state := if line == "" then MultipartDataStart_ else BoundaryMatchStart,
                 prev := if line == "" then n else n + 2), buf);
    }
  }

  /** The first delimiter of a body that is not rejected. */
  lemma FindBoundary(buf: string, n: nat, s: Scan, boundary: string) returns (open: bool)
    requires Multi(buf, s) && n < |buf| && Run(s, buf, n).outcome != Error && Text(buf, s.req.boundary) == boundary
    ensures open ==> OpenBoundary(buf, n)
    ensures !open ==> FirstBoundary(buf, n, boundary)
  {
    hide Run, Step, Control, Text;
    open := true;
    NoFail(s, buf, n);
    StepDash(s, buf, n);
    hide Multi;
    var t := s.(state := MultipartDataStart, prev := n);
    StepsTo(s, buf, n, t);
    if n + 1 == |buf| {
      assert buf[n..] == "-";
    } else {
      NoFail(t, buf, n + 1);
      StepDashes(t, buf, n + 1);
      var u := t.(state := MultipartDataStart_);
      StepsTo(t, buf, n + 1, u);
      assert At(buf, n, "--");
      if n + 2 < |buf| {
        NoFail(u, buf, n + 2);
        StepDashes(u, buf, n + 2);
        var v := s.(state := BoundaryMatchStart, prev := n + 2);
        StepsTo(u, buf, n + 2, v);
        open := FindBoundaryEnd(buf, n, v, boundary);
      }
    }
  }

  lemma FindBoundaryEnd(buf: string, n: nat, s: Scan, boundary: string) returns (open: bool)
    requires n + 2 < |buf| && At(buf, n, "--") && !Control(buf[n + 2]) && s.state == BoundaryMatchStart
        && s.prev == n + 2
    requires Run(s, buf, n + 3).outcome != Error && Text(buf, s.req.boundary) == boundary
    ensures open ==> OpenBoundary(buf, n)
    ensures !open ==> FirstBoundary(buf, n, boundary)
  {
    hide Run, Step, Control;
    var e := LeavesOrEnds(s, buf, n + 3);
    var line := buf[n + 2..e];
    forall k | n + 3 <= k < e ensures !Control(buf[k]) {
      StepInBoundary(s, buf, k);
    }
    open := e == |buf|;
    if open {
      assert buf[n + 2..] == line;
    } else {
      NoFail(s, buf, e);
      StepInBoundary(s, buf, e);
      assert line == boundary;
      assert At(buf, n + 2, line);
      AtJoin(buf, n, "--", line);
    }
  }

  lemma FirstRead(buf: string, n: nat, s: Scan, boundary: string) returns (t: Scan)
    requires Multi(buf, s) && Text(buf, s.req.boundary) == boundary && FirstBoundary(buf, n, boundary)
    ensures var at := n + 2 + |boundary|;
            Run(s, buf, n) == Run(t, buf, at + 1) && Between(t, buf, at, boundary) && t.req == s.req
  {
    hide Run, Step, IsPostOrPut, Text;
    ReadFirstBoundary(s, buf, n, boundary);
    t := s.(state := BoundaryMatch_r, prev := n + 2);
  }

  /** What a request with a whole head is. */
  ghost predicate RequestIs(buf: string, h: Head, facts: Facts, outcome: Outcome)
  {
    match outcome
    case Completed => CompleteRequest(buf, h, facts)
    case InCompleted => OpenRequest(buf, h, facts)
    case Fault => FaultyRequest(buf, h, facts)
    case Error => true
  }

  lemma FindMultipart(buf: string, h: Head, facts: Facts, s: Scan)
    requires Begins(buf, h, facts) && WithBody(h) && |PrintHead(h)| < |buf| && facts.isMultipart
    requires Multi(buf, s) && s.req.boundary == facts.boundary
    ensures RequestIs(buf, h, facts, Run(s, buf, |PrintHead(h)|).outcome)
  {
    hide Run, Step, Begins, PrintHead, Multi, At, CompleteParts, OpenParts, FaultyParts, OpenBoundary, Text;
    var n := |PrintHead(h)|;
    var boundary := Text(buf, facts.boundary);
    if Run(s, buf, n).outcome != Error {
      var open := FindBoundary(buf, n, s, boundary);
      if open {
        BoundaryOpen(buf, n, s);
      } else {
        var t := FirstRead(buf, n, s, boundary);
        hide Between, WithBody, NoControl;
        var parts := FindParts(t, buf, n + 2 + |boundary|, boundary);
      }
    }
  }

  /** The body of a buffer that is not rejected. */
  lemma FindRequest(buf: string, h: Head, facts: Facts)
    requires Begins(buf, h, facts)
    ensures RequestIs(buf, h, facts, Parse(NO_FIELDS, buf).outcome)
  {
    hide Run, Step, Begins, PrintHead, Parse, At, FieldsOf, IsPostOrPut, FirstBoundary, HasParts, Text;
    var p := ReadUpToBody(buf, h, facts);
    var s := BodyScanOf(h, facts, p);
    var n := |PrintHead(h)|;
    if h.fields != [] && n < |buf| {
      if !WithBody(h) {
        NoBody(buf, n, s);
      } else if facts.isMultipart {
        hide RequestIs, WithBody;
        FindMultipart(buf, h, facts, s);
      } else {
        ReadBody(s, buf, n);
      }
    }
  }

  /** A multipart request is what its body is. */
  lemma MultipartIs(buf: string, h: Head, facts: Facts, s: Scan)
    requires |PrintHead(h)| < |buf| && facts.isMultipart && Multi(buf, s) && s.req.boundary == facts.boundary
    ensures CompleteRequest(buf, h, facts) && WithBody(h) ==> Run(s, buf, |PrintHead(h)|).outcome == Completed
    ensures OpenRequest(buf, h, facts) ==> Run(s, buf, |PrintHead(h)|).outcome == InCompleted
    ensures FaultyRequest(buf, h, facts) ==> Run(s, buf, |PrintHead(h)|).outcome == Fault
  {
    hide Run, Step, Begins, PrintHead, Multi, CompleteParts, OpenParts, FaultyParts, OpenBoundary, Text, At, NoControl;
    var n := |PrintHead(h)|;
    var boundary := Text(buf, facts.boundary);
    var at := n + 2 + |boundary|;
    if OpenBoundary(buf, n) {
      BoundaryOpen(buf, n, s);
      OpenNotFirst(buf, n, boundary);
    } else if FirstBoundary(buf, n, boundary) {
      var t := FirstRead(buf, n, s, boundary);
      hide Between;
      if OpenParts(buf, at, boundary) {
        PartsOpen(t, buf, at, boundary);
      }
      if FaultyParts(buf, at, boundary) {
        PartsFault(t, buf, at, boundary);
      }
      if parts :| CompleteParts(buf, at, boundary, parts) {
        PartsComplete(t, buf, at, boundary, parts);
      }
    }
  }

  lemma OpenNotFirst(buf: string, n: nat, boundary: string)
    requires OpenBoundary(buf, n)
    ensures !FirstBoundary(buf, n, boundary)
  {
  }

  /** A request with a whole head has the outcome that its body has. */
  lemma RequestHas(buf: string, h: Head, facts: Facts)
    requires Begins(buf, h, facts)
    ensures CompleteRequest(buf, h, facts) ==> Parse(NO_FIELDS, buf).outcome == Completed
    ensures OpenRequest(buf, h, facts) ==> Parse(NO_FIELDS, buf).outcome == InCompleted
    ensures FaultyRequest(buf, h, facts) ==> Parse(NO_FIELDS, buf).outcome == Fault
  {
    hide Run, Step, Begins, PrintHead, Parse, At, FieldsOf, IsPostOrPut, Text, HasParts, OpenBoundary, FaultyParts,
      OpenParts;
    var p := ReadUpToBody(buf, h, facts);
    var s := BodyScanOf(h, facts, p);
    var n := |PrintHead(h)|;
    if h.fields != [] && n < |buf| {
      if !WithBody(h) {
        NoBody(buf, n, s);
      } else if facts.isMultipart {
        MultipartIs(buf, h, facts, s);
      } else {
        ReadBody(s, buf, n);
      }
    } else if |buf| == n {
      hide NoControl;
    }
  }

  /** A complete multipart request is recorded whole, head and parts. */
  lemma MultipartRecorded(buf: string, h: Head, facts: Facts, parts: seq<Part>)
    requires Begins(buf, h, facts) && WithBody(h) && facts.isMultipart
    requires var boundary := Text(buf, facts.boundary);
             FirstBoundary(buf, |PrintHead(h)|, boundary)
             && CompleteParts(buf, |PrintHead(h)| + 2 + |boundary|, boundary, parts)
    ensures Parse(NO_FIELDS, buf).outcome == Completed
    ensures Parse(NO_FIELDS, buf).req == FieldsOf(h, facts).(parts := parts)
  {
    hide Run, Step, Begins, PrintHead, Parse, At, IsPostOrPut, Text, CompleteParts, NoControl;
    var n := |PrintHead(h)|;
    var boundary := Text(buf, facts.boundary);
    var p := ReadUpToBody(buf, h, facts);
    var t := FirstRead(buf, n, BodyScanOf(h, facts, p), boundary);
    PartsComplete(t, buf, n + 2 + |boundary|, boundary, parts);
    assert [] + parts == parts;
  }

  // ---------------------------------------------------------------- every buffer

  lemma BlankBegins(buf: string, h: Head, facts: Facts, at: nat)
    requires UpTo(buf, h, facts, at) && At(buf, at, "\r\n")
    ensures Begins(buf, h, facts)
  {
    hide At, LearnAll, PrintLine, PrintFields, HeadOk;
    AtJoin(buf, |PrintLine(h)|, PrintFields(h.fields), "\r\n");
    AtJoin(buf, 0, PrintLine(h), PrintFields(h.fields) + "\r\n");
  }

  /** The head of a buffer that is not rejected, and how it ends. */
  lemma FindHead(buf: string) returns (open: bool, h: Head, facts: Facts, end: End)
    requires Parse(NO_FIELDS, buf).outcome != Error
    ensures open ==> OpenLine(buf)
    ensures !open ==> UpTo(buf, h, facts, |PrintLine(h)| + |PrintFields(h.fields)|)
                      && Ends(buf, |PrintLine(h)| + |PrintFields(h.fields)|, facts, end)
  {
    hide Run, Step, Parse, At, LearnAll, PrintFields, VerbOk, UriOk, VersionOk, OpenLine, Ends;
    open, h := FindLine(buf);
    facts, end := NO_FACTS, Open;
    if !open {
      ReadLine(buf, h);
      AtText(buf, 0, PrintLine(h));
      var fields;
      fields, facts, end := FindFields(buf, |PrintLine(h)|, LineScan(h));
      SameLine(h, fields);
      h := h.(fields := fields);
    }
  }

  lemma SameLine(h: Head, fields: seq<Field>)
    ensures PrintLine(h.(fields := fields)) == PrintLine(h)
  {
  }

  /** What a buffer is said to be. */
  ghost predicate TextIs(buf: string, outcome: Outcome)
  {
    match outcome
    case Completed => CompleteText(buf)
    case InCompleted => OpenText(buf)
    case Fault => FaultyText(buf)
    case Error => true
  }

  lemma FindText(buf: string)
    ensures TextIs(buf, Parse(NO_FIELDS, buf).outcome)
  {
    hide Run, TextIs, OpenLine, UpTo, Ends, PrintLine, PrintFields;
    if Parse(NO_FIELDS, buf).outcome == Error {
      ErrorIs(buf);
    } else {
      var open, h, facts, end := FindHead(buf);
      hide Parse;
      if open {
        LineIs(buf);
      } else {
        HeadIs(buf, h, facts, |PrintLine(h)| + |PrintFields(h.fields)|, end);
      }
    }
  }

  lemma ErrorIs(buf: string)
    ensures TextIs(buf, Error)
  {
  }

  lemma LineIs(buf: string)
    requires OpenLine(buf)
    ensures TextIs(buf, Parse(NO_FIELDS, buf).outcome)
  {
    hide Parse, OpenLine, UpTo, OpenField, OpenRequest;
    LineOpen(buf);
  }

  lemma HeadIs(buf: string, h: Head, facts: Facts, at: nat, end: End)
    requires UpTo(buf, h, facts, at) && Ends(buf, at, facts, end)
    ensures TextIs(buf, Parse(NO_FIELDS, buf).outcome)
  {
    hide Parse, OpenLine, UpTo, OpenField, FaultyField, CompleteRequest, OpenRequest, FaultyRequest;
    match end
    case Open => UpToOpen(buf, h, facts, at);
    case Faulty => UpToFaulty(buf, h, facts, at);
    case Blank =>
      BlankBegins(buf, h, facts, at);
      FindRequest(buf, h, facts);
      RequestText(buf, h, facts);
  }

  lemma RequestText(buf: string, h: Head, facts: Facts)
    ensures forall outcome :: RequestIs(buf, h, facts, outcome) ==> TextIs(buf, outcome)
  {
    hide OpenLine, UpTo, OpenField, FaultyField, CompleteRequest, OpenRequest, FaultyRequest;
  }

  lemma UpToOpen(buf: string, h: Head, facts: Facts, at: nat)
    requires UpTo(buf, h, facts, at) && OpenField(buf, at, facts)
    ensures Parse(NO_FIELDS, buf).outcome == InCompleted
  {
    hide Parse, UpTo, OpenField, Run;
    var s := ReadUpTo(buf, h, facts, at);
    FieldOpen(buf, at, facts, s);
  }

  lemma UpToFaulty(buf: string, h: Head, facts: Facts, at: nat)
    requires UpTo(buf, h, facts, at) && FaultyField(buf, at, facts)
    ensures Parse(NO_FIELDS, buf).outcome == Fault
  {
    var s := ReadUpTo(buf, h, facts, at);
    assert at <= |buf|;
    hide Parse, UpTo, FaultyField, Run;
    FieldFaults(buf, at, facts, s);
  }

  lemma TextHas(buf: string)
    ensures CompleteText(buf) ==> Parse(NO_FIELDS, buf).outcome == Completed
    ensures OpenText(buf) ==> Parse(NO_FIELDS, buf).outcome == InCompleted
    ensures FaultyText(buf) ==> Parse(NO_FIELDS, buf).outcome == Fault
  {
    hide Parse, OpenLine, UpTo, OpenField, FaultyField, Begins;
    if h, facts :| CompleteRequest(buf, h, facts) {
      RequestHas(buf, h, facts);
    }
    if OpenLine(buf) {
      LineOpen(buf);
    }
    if h, facts, at :| UpTo(buf, h, facts, at) && OpenField(buf, at, facts) {
      UpToOpen(buf, h, facts, at);
    }
    if h, facts :| OpenRequest(buf, h, facts) {
      RequestHas(buf, h, facts);
    }
    if h, facts, at :| UpTo(buf, h, facts, at) && FaultyField(buf, at, facts) {
      UpToFaulty(buf, h, facts, at);
    }
    if h, facts :| FaultyRequest(buf, h, facts) {
      RequestHas(buf, h, facts);
    }
    hide CompleteRequest, OpenRequest, FaultyRequest;
  }

  /** What the parser says of every buffer there is: complete, broken off, or without a meaning, each exactly for the
      texts that are; and every other buffer is an error. */
  lemma OutcomeExactly(buf: string)
    ensures Parse(NO_FIELDS, buf).outcome
         == if CompleteText(buf) then Completed
            else if OpenText(buf) then InCompleted
            else if FaultyText(buf) then Fault
            else Error
  {
    hide Parse, CompleteText, OpenText, FaultyText;
    FindText(buf);
    TextHas(buf);
  }
}
