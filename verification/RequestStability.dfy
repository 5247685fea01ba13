/** What more input can change: nothing that was decided, with one exception. */
module RequestStability {
  import opened HttpText
  import opened HttpPrefixes
  import opened RequestMachine

  /** Everything recorded lies in the part of the buffer already read. */
  ghost predicate Fits(s: Scan, i: nat)
  {
    && s.prev <= i && s.req.verb.hi <= i && s.req.uri.hi <= i && s.req.version.hi <= i
    && s.req.content.hi <= i && s.req.boundary.hi <= i
    && (forall k :: 0 <= k < |s.req.headers| ==> s.req.headers[k].name.hi <= i && s.req.headers[k].value.hi <= i)
    && (forall k :: 0 <= k < |s.req.parts| ==> s.req.parts[k].info.hi <= i && s.req.parts[k].data.hi <= i)
  }

  lemma EndValueExtend(s: Scan, buf: string, ext: string, i: nat)
    requires Fits(s, i) && i < |buf|
    requires EndValue(s, buf, i).Go? || EndValue(s, buf, i).outcome != Fault
    ensures EndValue(s, buf + ext, i) == EndValue(s, buf, i)
  {
    hide Find, Atoi;
    var name := s.req.headers[|s.req.headers| - 1].name;
    SameText(buf, ext, name);
    SameText(buf, ext, View(s.prev, i));
    hide Text;
    if Text(buf, name) == "Content-Length" && Text(buf, name) != "Content-Type" {
      AtoiExtend(buf, ext, s.prev);
    }
  }

  lemma EndBodyExtend(s: Scan, buf: string, ext: string, i: nat)
    requires Fits(s, i) && i < |buf|
    ensures EndBody(s, buf + ext, i) == EndBody(s, buf, i)
  {
    SameText(buf, ext, s.req.boundary);
    hide Text;
    var size := if s.req.boundary.lo <= s.req.boundary.hi then s.req.boundary.hi - s.req.boundary.lo else 0;
    if i >= size + 2 {
      SamePart(buf, ext, i - size, i);
      SamePart(buf, ext, i - size - 2, i - 2);
      SamePart(buf, ext, i - 2, i);
      assert (buf + ext)[i - 1] == buf[i - 1] && (buf + ext)[i - 2] == buf[i - 2];
    }
  }

  lemma BeginBodyExtend(s: Scan, buf: string, ext: string, i: nat)
    requires Fits(s, i) && i < |buf|
    ensures BeginBody(s, buf + ext, i) == BeginBody(s, buf, i)
  {
  }

  lemma EndFits(s: Scan, buf: string, i: nat)
    requires Fits(s, i) && i < |buf|
    ensures EndValue(s, buf, i).Go? ==> Fits(EndValue(s, buf, i).scan, i + 1)
    ensures EndBody(s, buf, i).Go? ==> Fits(EndBody(s, buf, i).scan, i + 1)
  {
    hide Text, Find, Atoi;
  }

  lemma StepFits(s: Scan, buf: string, i: nat)
    requires Fits(s, i) && i < |buf|
    ensures Step(s, buf, i).Go? ==> Fits(Step(s, buf, i).scan, i + 1)
  {
    hide Text;
    if s.state == HeaderValueStart {
      EndFits(s, buf, i);
      hide EndValue, Fits;
      LaterFits(s, i);
    } else if s.state == PartBodyStart {
      EndFits(s, buf, i);
      hide EndBody, Fits;
      LaterFits(s, i);
    } else {
      hide EndValue, EndBody;
    }
  }

  lemma LaterFits(s: Scan, i: nat)
    requires Fits(s, i)
    ensures Fits(s, i + 1)
  {
  }

  /** One iteration sees only what has been read, except that the blank line asks for the buffer's end, and that
      the end of a header value may be followed by a scan. */
  lemma StepSame(s: Scan, buf: string, ext: string, i: nat)
    requires Fits(s, i) && i < |buf|
    requires !(s.state == Header_rnr && (i + 1 == |buf| || i + 1 == |buf + ext|))
    requires !(s.state == HeaderValueStart && buf[i] == '\r')
    ensures Step(s, buf + ext, i) == Step(s, buf, i)
  {
    assert (buf + ext)[i] == buf[i];
    SameText(buf, ext, View(s.prev, i));
    SameText(buf, ext, s.req.boundary);
    hide Text, EndValue, EndBody, BeginBody;
    BeginBodyExtend(s, buf, ext, i);
    if s.state == PartBodyStart && buf[i] == '\r' {
      EndBodyExtend(s, buf, ext, i);
    }
    hide Fits, Control, IsAlpha, IsDigit;
  }

  lemma StepExtend(s: Scan, buf: string, ext: string, i: nat)
    requires Fits(s, i) && i < |buf|
    requires !(s.state == Header_rnr && i + 1 == |buf|)
    requires Step(s, buf, i).Go? || Step(s, buf, i).outcome != Fault
    ensures Step(s, buf + ext, i) == Step(s, buf, i)
    ensures Step(s, buf, i).Go? ==> Fits(Step(s, buf, i).scan, i + 1)
  {
    StepFits(s, buf, i);
    if s.state == HeaderValueStart && buf[i] == '\r' {
      assert (buf + ext)[i] == buf[i];
      EndValueExtend(s, buf, ext, i);
      hide EndValue, Fits;
    } else {
      StepSame(s, buf, ext, i);
    }
  }

  /** The parse ended at the blank line of a POST or PUT: the one result that more input overturns. */
  ghost predicate EndedAtBlankLine(p: Parsed, buf: string)
  {
    p.outcome == Completed && p.state == Header_rnrn && IsPostOrPut(buf, p.req)
  }

  ghost predicate SameResult(p: Parsed, q: Parsed)
  {
    p.outcome == q.outcome && p.state == q.state && p.req == q.req
  }

  lemma {:induction false} RunExtend(s: Scan, buf: string, ext: string, i: nat)
    requires i <= |buf| && Fits(s, i)
    requires Run(s, buf, i).outcome == Error || Run(s, buf, i).outcome == Completed
    ensures Run(s, buf, i).used <= |buf|
    ensures Run(s, buf, i).outcome == Completed && Run(s, buf, i).state == Header_rnrn ==>
              Run(s, buf, i).used == |buf| || !IsPostOrPut(buf, Run(s, buf, i).req)
    ensures EndedAtBlankLine(Run(s, buf, i), buf) || SameResult(Run(s, buf + ext, i), Run(s, buf, i))
    ensures Run(s, buf, i).state != Header_rnrn ==> Run(s, buf + ext, i) == Run(s, buf, i)
    decreases |buf| - i
  {
    if s.state == Header_rnr && i + 1 == |buf| {
      BlankLine(s, buf, ext, i);
    } else {
      StepExtend(s, buf, ext, i);
      var step := Step(s, buf, i);
      if step.Stop? && step.outcome == Completed && step.state == Header_rnrn {
        StopStates(s, buf, i);
      }
      hide Step;
      if step.Go? {
        RunExtend(step.scan, buf, ext, i + 1);
      }
    }
  }

  /** Only the two places that test for the blank line's end stop in state Header_rnrn. */
  lemma StopStates(s: Scan, buf: string, i: nat)
    requires i < |buf| && Step(s, buf, i).Stop? && Step(s, buf, i).outcome == Completed
        && Step(s, buf, i).state == Header_rnrn
    ensures (s.state == Header_rnr && i + 1 == |buf|) || !IsPostOrPut(buf, Step(s, buf, i).req)
  {
  }

  lemma BlankLine(s: Scan, buf: string, ext: string, i: nat)
    requires i < |buf| && Fits(s, i) && s.state == Header_rnr && i + 1 == |buf|
    ensures Run(s, buf, i) == if buf[i] == '\n' then Parsed(Completed, Header_rnrn, s.req, i + 1)
                              else Parsed(Error, Header_rnr, s.req, i + 1)
    ensures buf[i] != '\n' || ext == [] || !IsPostOrPut(buf, s.req) ==> SameResult(Run(s, buf + ext, i), Run(s, buf, i))
    ensures buf[i] != '\n' ==> Run(s, buf + ext, i) == Run(s, buf, i)
  {
    if ext == [] {
      assert buf + ext == buf;
    } else {
      SameText(buf, ext, s.req.verb);
      var longer := buf + ext;
      if buf[i] == '\n' {
        var next := s.(state := Header_rnrn);
        assert Step(s, longer, i) == Go(next);
        assert !IsPostOrPut(buf, s.req) ==> Step(next, longer, i + 1) == Stop(Completed, Header_rnrn, s.req);
      }
    }
  }

  /** An error stays an error, with the same request, whatever follows. */
  lemma ErrorStays(buf: string, ext: string)
    requires Parse(NO_FIELDS, buf).outcome == Error
    ensures SameResult(Parse(NO_FIELDS, buf + ext), Parse(NO_FIELDS, buf))
  {
    RunExtend(Scan(MethodUnstart, 0, 0, NO_FIELDS), buf, ext, 0);
  }

  /** A completed parse is left alone by every continuation of the input exactly when it is not a POST
      or PUT that ended with its buffer at the blank line. */
  lemma CompletedStays(buf: string)
    requires Parse(NO_FIELDS, buf).outcome == Completed
    ensures (forall ext :: SameResult(Parse(NO_FIELDS, buf + ext), Parse(NO_FIELDS, buf)))
       <==> !EndedAtBlankLine(Parse(NO_FIELDS, buf), buf)
  {
    var p := Parse(NO_FIELDS, buf);
    var s := Scan(MethodUnstart, 0, 0, NO_FIELDS);
    forall ext ensures EndedAtBlankLine(p, buf) || SameResult(Parse(NO_FIELDS, buf + ext), p) {
      RunExtend(s, buf, ext, 0);
    }
    if EndedAtBlankLine(p, buf) {
      OneMore(s, buf, "-", 0);
      assert !SameResult(Parse(NO_FIELDS, buf + "-"), p);
    }
  }

  /** One more character after the blank line of a POST or PUT: the result is another one. */
  lemma {:induction false} OneMore(s: Scan, buf: string, c: string, i: nat)
    requires i <= |buf| && Fits(s, i) && |c| == 1 && s.req.content == NO_VIEW
    requires EndedAtBlankLine(Run(s, buf, i), buf)
    ensures !SameResult(Run(s, buf + c, i), Run(s, buf, i))
    decreases |buf| - i
  {
    RunExtend(s, buf, c, i);
    if s.state == Header_rnr && i + 1 == |buf| {
      AfterBlank(s, buf, c, i);
    } else {
      StepExtend(s, buf, c, i);
      KeepsContent(s, buf, i);
      var step := Step(s, buf, i);
      if step.Stop? {
        StopStates(s, buf, i);
      }
      hide Step;
      if step.Go? {
        OneMore(step.scan, buf, c, i + 1);
      }
    }
  }

  lemma KeepsContent(s: Scan, buf: string, i: nat)
    requires i < |buf| && Step(s, buf, i).Go?
    ensures Step(s, buf, i).scan.req.content == s.req.content
  {
    hide Text, Find, Atoi;
  }

  lemma AfterBlank(s: Scan, buf: string, c: string, i: nat)
    requires i + 1 == |buf| && Fits(s, i) && |c| == 1 && s.req.content == NO_VIEW && s.state == Header_rnr
    requires EndedAtBlankLine(Run(s, buf, i), buf)
    ensures !SameResult(Run(s, buf + c, i), Run(s, buf, i))
  {
    var longer := buf + c;
    var next := s.(state := Header_rnrn);
    SameText(buf, c, s.req.verb);
    assert longer[i] == buf[i];
    assert Step(s, longer, i) == Go(next);
    var step := Step(next, longer, i + 1);
    assert step == BeginBody(next, longer, i + 1);
    assert step.Go? ==> Run(next, longer, i + 1) == Run(step.scan, longer, i + 2);
  }
}
