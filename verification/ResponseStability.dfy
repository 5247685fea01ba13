/** What more input can change about a response: nothing that is complete, and an error only where chunk data was
    cut. */
module ResponseStability {
  import opened HttpText
  import opened HttpPrefixes
  import opened ResponseMachine
  import opened ResponseGrammar
  import opened ResponseLanguage
  import opened ResponsePrefixes
  import opened ChunkedBody

  // ---------------------------------------------------------------- one step

  /** The loop looks back at what has been read. */
  predicate Fits(s: Scan, i: nat)
  {
    s.prev <= i && s.name.hi <= i
  }

  /** The test for chunk data that is not all there. */
  predicate DataMissing(s: Scan, buf: string, i: nat)
  {
    s.state == ChunkDataSize_rn && |buf| - i <= s.size
  }

  predicate Decided(r: Result)
  {
    r.Go? || r.outcome == Completed || r.outcome == Error
  }

  lemma EndCodeExtends(s: Scan, buf: string, ext: string, i: nat)
    requires i < |buf| && Fits(s, i) && Decided(EndCode(s, buf, i))
    ensures EndCode(s, buf + ext, i) == EndCode(s, buf, i)
  {
    hide Atoi, AllDigits;
    SameText(buf, ext, View(s.prev, i));
    hide Text;
    if EndCode(s, buf, i).Go? {
      AtoiExtend(buf, ext, s.prev);
    }
  }

  lemma EndValueExtends(s: Scan, buf: string, ext: string, i: nat)
    requires i < |buf| && Fits(s, i) && Decided(EndValue(s, buf, i))
    ensures EndValue(s, buf + ext, i) == EndValue(s, buf, i)
  {
    hide Atoi;
    SameText(buf, ext, s.name);
    SameText(buf, ext, View(s.prev, i));
    hide Text;
    if Atoi(buf, s.prev).Some? {
      AtoiExtend(buf, ext, s.prev);
    }
  }

  lemma StepExtends(s: Scan, buf: string, ext: string, i: nat)
    requires i < |buf| && Fits(s, i) && Decided(Step(s, buf, i)) && !DataMissing(s, buf, i)
    ensures Step(s, buf + ext, i) == Step(s, buf, i)
  {
    assert (buf + ext)[i] == buf[i];
    SameText(buf, ext, View(s.prev, i));
    hide EndValue, EndCode, Text, AllHex, Hex, Control, IsHex, IsDigit, IsAlnum;
    if s.state == HeaderValueStart && Step(s, buf, i) == EndValue(s, buf, i) {
      EndValueExtends(s, buf, ext, i);
    } else if s.state == StatusCodeStart && Step(s, buf, i) == EndCode(s, buf, i) {
      EndCodeExtends(s, buf, ext, i);
    }
  }

  lemma StepFits(s: Scan, buf: string, i: nat)
    requires i < |buf| && Fits(s, i)
    ensures Step(s, buf, i).Go? ==> Fits(Step(s, buf, i).scan, Step(s, buf, i).next)
  {
    hide Text, Atoi, AllHex, Hex, AllDigits, Control, IsHex, IsDigit, IsAlnum;
  }

  /** Only that test fails in the state behind a chunk size. */
  lemma FailsThere(s: Scan, buf: string, i: nat)
    requires i < |buf| && Step(s, buf, i).Stop? && Step(s, buf, i).outcome == Error
    ensures Step(s, buf, i).state == ChunkDataSize_rn <==> DataMissing(s, buf, i)
  {
    hide Text, Atoi, AllHex, Hex, AllDigits, Control, IsHex, IsDigit, IsAlnum;
  }

  lemma MissingFails(s: Scan, buf: string, i: nat)
    requires i < |buf| && DataMissing(s, buf, i)
    ensures Step(s, buf, i) == Stop(Error, ChunkDataSize_rn, s.res)
  {
  }

  // ---------------------------------------------------------------- a run

  /** An error that was not met at the test for chunk data. */
  predicate Final(p: Parsed)
  {
    p.outcome == Completed || (p.outcome == Error && p.state != ChunkDataSize_rn)
  }

  lemma {:induction false} RunExtends(s: Scan, buf: string, ext: string, i: nat)
    requires i <= |buf| && Fits(s, i) && Final(Run(s, buf, i))
    ensures Run(s, buf + ext, i) == Run(s, buf, i)
    decreases |buf| - i
  {
    assert i < |buf|;
    if DataMissing(s, buf, i) {
      MissingFails(s, buf, i);
    }
    hide DataMissing;
    StepExtends(s, buf, ext, i);
    StepFits(s, buf, i);
    var step := Step(s, buf, i);
    StepForward(s, buf, i);
    hide Step;
    if step.Go? {
      RunExtends(step.scan, buf, ext, step.next);
    }
  }

  /** Completed stays, with the same response, whatever follows. */
  lemma CompletedStays(buf: string, ext: string)
    requires Parse(NO_FIELDS, buf).outcome == Completed
    ensures Parse(NO_FIELDS, buf + ext) == Parse(NO_FIELDS, buf)
  {
    RunExtends(Scan(StatusStart, 0, NO_VIEW, 0, 0, NO_FIELDS), buf, ext, 0);
  }

  lemma ErrorStays(buf: string, ext: string)
    requires Parse(NO_FIELDS, buf).outcome == Error && Parse(NO_FIELDS, buf).state != ChunkDataSize_rn
    ensures Parse(NO_FIELDS, buf + ext) == Parse(NO_FIELDS, buf)
  {
    RunExtends(Scan(StatusStart, 0, NO_VIEW, 0, 0, NO_FIELDS), buf, ext, 0);
  }

  // ---------------------------------------------------------------- data that was cut can be completed

  /** The rest of the data, and a last chunk. */
  lemma FillData(s: Scan, buf: string, i: nat) returns (ext: string)
    requires i < |buf| && DataMissing(s, buf, i)
    ensures Run(s, buf + ext, i).outcome == Completed && Run(s, buf + ext, i).state == ZeroChunkSize_r
    ensures Run(s, buf + ext, i).used == |buf + ext| > |buf|
  {
    var rest := seq(s.size - (|buf| - i), _ => ' ');
    var data := buf[i..] + rest;
    ext := rest + ("\r\n" + "0\r\n");
    DataThere(buf, i, rest);
    hide At, Run, Step;
    ReadData(buf + ext, i, data, s);
    ZeroIsOk();
    hide ZeroOk;
    ReadZero(buf + ext, i + |data| + 2, "0",
             s.(state := NewChunkStart, res := s.res.(chunks := s.res.chunks + [Chunk(|data|, View(i, i + |data|))])));
  }

  lemma DataThere(buf: string, i: nat, rest: string)
    requires i < |buf|
    ensures var data := buf[i..] + rest;
            var whole := buf + (rest + ("\r\n" + "0\r\n"));
            At(whole, i, data + "\r\n") && At(whole, i + |data| + 2, "0" + "\r\n") && |whole| == i + |data| + 5
  {
    var data := buf[i..] + rest;
    var whole := buf + (rest + ("\r\n" + "0\r\n"));
    assert whole == (buf[..i] + (data + "\r\n")) + "0\r\n";
    Suffix(buf[..i], data + "\r\n");
    Suffix(buf[..i] + (data + "\r\n"), "0\r\n");
    assert At(buf[..i] + (data + "\r\n"), i, data + "\r\n");
  }

  lemma {:induction false} FillRun(s: Scan, buf: string, i: nat) returns (ext: string)
    requires i <= |buf| && Fits(s, i)
    requires Run(s, buf, i).outcome == Error && Run(s, buf, i).state == ChunkDataSize_rn
    ensures Run(s, buf + ext, i).outcome == Completed && Run(s, buf + ext, i).state == ZeroChunkSize_r
    ensures Run(s, buf + ext, i).used == |buf + ext| > |buf|
    decreases |buf| - i
  {
    var step := Step(s, buf, i);
    if step.Stop? {
      FailsThere(s, buf, i);
      ext := FillData(s, buf, i);
    } else {
      if DataMissing(s, buf, i) {
        MissingFails(s, buf, i);
      }
      hide DataMissing;
      StepFits(s, buf, i);
      StepForward(s, buf, i);
      hide Step;
      ext := FillRun(step.scan, buf, step.next);
      StepExtends(s, buf, ext, i);
      StepsTo(s, buf + ext, i, step.scan, step.next);
    }
  }

  // ---------------------------------------------------------------- which buffers these are

  /** Chunks without a last one. */
  function PrintSome(chunks: seq<ChunkText>): string
  {
    if chunks == [] then "" else PrintChunk(chunks[0]) + PrintSome(chunks[1..])
  }

  /** A chunked response, up to the size of one more chunk. */
  function UpToData(h: Head, chunks: seq<ChunkText>, size: string): string
  {
    PrintHead(h) + (PrintSome(chunks) + (size + "\r\n"))
  }

  /** The buffer ends inside the data of a chunk, or right behind it. */
  ghost predicate EndsInData(buf: string, h: Head, facts: Facts, chunks: seq<ChunkText>, size: string)
  {
    && Begins(buf, h, facts) && h.fields != [] && facts.isChunked && ChunksOk(chunks) && SizeOk(size)
    && At(buf, |PrintHead(h)|, PrintSome(chunks) + (size + "\r\n"))
    && |UpToData(h, chunks, size)| < |buf| <= |UpToData(h, chunks, size)| + Hex(size)
  }

  lemma {:induction false} ReadSome(buf: string, i: nat, chunks: seq<ChunkText>, s: Scan) returns (t: Scan)
    requires ChunksOk(chunks) && At(buf, i, PrintSome(chunks)) && s.state == NewChunkStart
    ensures t.state == NewChunkStart && i + |PrintSome(chunks)| <= |buf|
    ensures Run(s, buf, i) == Run(t, buf, i + |PrintSome(chunks)|)
    decreases |chunks|
  {
    hide Run, Step, At, ChunkOk, PrintChunk;
    AtText(buf, i, PrintSome(chunks));
    if chunks == [] {
      t := s;
    } else {
      AtSplit(buf, i, PrintChunk(chunks[0]), PrintSome(chunks[1..]));
      ReadChunk(buf, i, chunks[0], s);
      t := ReadSome(buf, i + |PrintChunk(chunks[0])|, chunks[1..], ChunkScan(s, chunks[0], i));
    }
  }

  /** On such a buffer the parser stops at the test for chunk data. */
  lemma EndsInDataFails(buf: string, h: Head, facts: Facts, chunks: seq<ChunkText>, size: string)
    requires EndsInData(buf, h, facts, chunks, size)
    ensures Parse(NO_FIELDS, buf).outcome == Error && Parse(NO_FIELDS, buf).state == ChunkDataSize_rn
  {
    hide Parse, Run, Step, Begins, PrintHead, PrintSome, At, Hex, AllHex, ChunksOk;
    var n := |PrintHead(h)|;
    var t := ReadUpToBody(buf, h, facts);
    AtSplit(buf, n, PrintSome(chunks), size + "\r\n");
    var u := ReadSome(buf, n, chunks, t.(state := NewChunkStart));
    var i := n + |PrintSome(chunks)|;
    AtSplit(buf, i, size, "\r\n");
    AtBreak(buf, i + |size|);
    ReadSize(buf, i, size, u);
    var v := u.(state := ChunkDataSize_r, prev := i, size := Hex(size));
    SizeEnds(v, buf, i + |size| + 1);
    RunMissing(v.(state := ChunkDataSize_rn), buf, i + |size| + 2);
  }

  lemma RunMissing(s: Scan, buf: string, i: nat)
    requires i < |buf| && DataMissing(s, buf, i)
    ensures Run(s, buf, i) == Parsed(Error, ChunkDataSize_rn, s.res, i + 1)
  {
    MissingFails(s, buf, i);
    hide Step;
  }

  /** The chunks before the one that is cut. */
  lemma {:induction false} SplitAt(buf: string, i: nat, chunks: seq<ChunkText>, zero: string, m: nat) returns (k: nat)
    requires ChunksOk(chunks) && At(buf, i, PrintChunks(chunks, zero)) && CutsData(ChunksOf(chunks, i), m)
    ensures k < |chunks|
    ensures var text := PrintSome(chunks[..k]) + (chunks[k].size + "\r\n");
            At(buf, i, text) && i + |text| < m <= i + |text| + |chunks[k].data|
    decreases |chunks|
  {
    hide At, PrintSome, CutsData, ChunkOk;
    assert chunks != [] by {
      CutsNone([], i, i);
      NoChunksCut(i, m);
    }
    var c := chunks[0];
    CutsFirst(chunks, i, m);
    ChunksSplit(buf, i, chunks, zero);
    AtSplit(buf, i, c.size + "\r\n", c.data + "\r\n");
    hide ChunksOf;
    if ChunkView(c, i).data.lo < m <= ChunkView(c, i).data.hi {
      k := 0;
      SomeNone(chunks, c.size + "\r\n");
    } else {
      hide PrintChunk;
      var rest := chunks[1..];
      var next := i + |PrintChunk(c)|;
      var l := SplitAt(buf, next, rest, zero, m);
      k := l + 1;
      SomeFirst(chunks, k);
      var text := PrintSome(rest[..l]) + (rest[l].size + "\r\n");
      AtJoin(buf, i, PrintChunk(c), text);
      assert PrintChunk(c) + text == PrintSome(chunks[..k]) + (chunks[k].size + "\r\n");
    }
  }

  lemma NoChunksCut(at: nat, m: nat)
    ensures !CutsData(ChunksOf([], at), m)
  {
  }

  lemma SomeNone(chunks: seq<ChunkText>, text: string)
    ensures PrintSome(chunks[..0]) + text == text
  {
  }

  lemma SomeFirst(chunks: seq<ChunkText>, k: nat)
    requires 0 < k <= |chunks|
    ensures PrintSome(chunks[..k]) == PrintChunk(chunks[0]) + PrintSome(chunks[1..][..k - 1])
  {
    hide PrintChunk;
    assert chunks[..k][1..] == chunks[1..][..k - 1];
  }

  /** Whatever stops there is such a buffer. */
  lemma FindCut(buf: string) returns (h: Head, facts: Facts, chunks: seq<ChunkText>, size: string)
    requires Parse(NO_FIELDS, buf).outcome == Error && Parse(NO_FIELDS, buf).state == ChunkDataSize_rn
    ensures EndsInData(buf, h, facts, chunks, size)
  {
    var ext := FillRun(Scan(StatusStart, 0, NO_VIEW, 0, 0, NO_FIELDS), buf, 0);
    var whole := buf + ext;
    hide Run, Step;
    assert Parse(NO_FIELDS, whole).state == ZeroChunkSize_r;
    hide Parse;
    h, facts := AcceptedBegins(whole);
    var n := |PrintHead(h)|;
    var all, zero := ChunksFound(whole, h, facts);
    hide Begins, PrintHead, At, PrintChunks;
    ChunkedParse(whole, h, facts, all, zero);
    var m := |buf|;
    assert whole[..m] == buf;
    ChunkedPrefixExactly(whole, h, facts, all, zero, m);
    if m <= n {
      CutsNone(all, n, m);
    }
    BeginsShrinks(whole, h, facts, m);
    var k := SplitAt(whole, n, all, zero, m);
    chunks, size := all[..k], all[k].size;
    hide HeadOk;
    AtPrefix(whole, n, PrintSome(chunks) + (size + "\r\n"), m);
    assert ChunkOk(all[k]);
  }

  /** A parse that ends behind chunks has read them. */
  lemma ChunksFound(buf: string, h: Head, facts: Facts) returns (chunks: seq<ChunkText>, zero: string)
    requires Begins(buf, h, facts) && Parse(NO_FIELDS, buf).outcome == Completed
    requires Parse(NO_FIELDS, buf).state == ZeroChunkSize_r
    ensures h.fields != [] && facts.isChunked && HasChunks(buf, |PrintHead(h)|, chunks, zero)
  {
    hide Begins, Parse, PrintHead, Run, Step;
    var t := ReadUpToBody(buf, h, facts);
    if h.fields != [] && !facts.isChunked {
      ReadContent(t.(state := DataStart), buf, |PrintHead(h)|);
    }
    chunks, zero := FindChunks(buf, |PrintHead(h)|, t.(state := NewChunkStart));
  }

  /** An error is overturned by more input, and then even to Completed, exactly if the buffer is a chunked response that
      ends inside the data of a chunk, or right behind it. */
  lemma ErrorOverturnedExactly(buf: string)
    requires Parse(NO_FIELDS, buf).outcome == Error
    ensures (exists ext :: Parse(NO_FIELDS, buf + ext) != Parse(NO_FIELDS, buf))
       <==> exists h, facts, chunks, size :: EndsInData(buf, h, facts, chunks, size)
    ensures (exists ext :: Parse(NO_FIELDS, buf + ext).outcome == Completed)
       <==> exists h, facts, chunks, size :: EndsInData(buf, h, facts, chunks, size)
  {
    hide EndsInData, Run, Step;
    if Parse(NO_FIELDS, buf).state == ChunkDataSize_rn {
      var h, facts, chunks, size := FindCut(buf);
      var ext := FillRun(Scan(StatusStart, 0, NO_VIEW, 0, 0, NO_FIELDS), buf, 0);
      assert Parse(NO_FIELDS, buf + ext).outcome == Completed;
    } else {
      hide Parse;
      forall ext ensures Parse(NO_FIELDS, buf + ext) == Parse(NO_FIELDS, buf) {
        ErrorStays(buf, ext);
      }
      if h, facts, chunks, size :| EndsInData(buf, h, facts, chunks, size) {
        EndsInDataFails(buf, h, facts, chunks, size);
        assert false;
      }
    }
  }
}
