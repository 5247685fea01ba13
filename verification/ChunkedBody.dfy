/** Chunked bodies: a grammar, its reading, and hexadecimal sizes. */
module ChunkedBody {
  import opened HttpText
  import opened ResponseMachine

  // ---------------------------------------------------------------- hexadecimal

  /** A digit, from 10 on as a letter of either case. */
  function PrintDigit(n: nat, upper: bool): (c: char)
    requires n < 16
    ensures IsHex(c) && HexDigit(c) == n
  {
    if n < 10 then ('0' as int + n) as char else ((if upper then 'A' else 'a') as int + n - 10) as char
  }

  /** How a sender writes a number: leading zeros, and the case of every letter, from the last digit on. */
  datatype Spelling = Spelling(zeros: nat, upper: seq<bool>)

  predicate First(upper: seq<bool>)
  {
    upper != [] && upper[0]
  }

  function Rest(upper: seq<bool>): seq<bool>
  {
    if upper == [] then [] else upper[1..]
  }

  /** Printing a natural number in hexadecimal. */
  function PrintHex(n: nat, upper: seq<bool>): (r: string)
    ensures |r| >= 1 && AllHex(r)
    decreases n
  {
    var last := [PrintDigit(n % 16, First(upper))];
    if n < 16 then last else PrintHex(n / 16, Rest(upper)) + last
  }

  function Zeros(n: nat): (r: string)
    ensures |r| == n && AllHex(r)
  {
    seq(n, _ => '0')
  }

  function Spelled(n: nat, spelling: Spelling): (r: string)
    ensures |r| >= 1 && AllHex(r)
  {
    Zeros(spelling.zeros) + PrintHex(n, spelling.upper)
  }

  lemma HexMore(s: string, c: char)
    requires AllHex(s) && IsHex(c)
    ensures AllHex(s + [c]) && Hex(s + [c]) == 16 * Hex(s) + HexDigit(c)
  {
    assert (s + [c])[..|s|] == s;
  }

  lemma {:induction false} ZerosHex(n: nat, s: string)
    requires AllHex(s)
    ensures Hex(Zeros(n) + s) == Hex(s)
    decreases |s|, n
  {
    if s == [] {
      assert Zeros(n) + s == Zeros(n) && Hex([]) == 0;
      if n > 0 {
        ZerosHex(n - 1, []);
        assert Zeros(n - 1) + [] == Zeros(n - 1);
        assert Zeros(n) == Zeros(n - 1) + ['0'];
        HexMore(Zeros(n - 1), '0');
      }
    } else {
      var t, c := s[..|s| - 1], s[|s| - 1];
      assert s == t + [c] && Zeros(n) + s == (Zeros(n) + t) + [c];
      ZerosHex(n, t);
      HexMore(Zeros(n) + t, c);
      HexMore(t, c);
    }
  }

  lemma {:induction false} HexOfDigits(n: nat, upper: seq<bool>)
    ensures Hex(PrintHex(n, upper)) == n
    decreases n
  {
    var c := PrintDigit(n % 16, First(upper));
    if n >= 16 {
      HexOfDigits(n / 16, Rest(upper));
      HexMore(PrintHex(n / 16, Rest(upper)), c);
    } else {
      assert Hex([]) == 0 && [] + [c] == [c];
      HexMore([], c);
    }
  }

  /** However a number is spelled, it is read. */
  lemma HexOfPrint(n: nat, spelling: Spelling)
    ensures Hex(Spelled(n, spelling)) == n
  {
    HexOfDigits(n, spelling.upper);
    ZerosHex(spelling.zeros, PrintHex(n, spelling.upper));
  }

  lemma DigitPrinted(c: char)
    requires IsHex(c)
    ensures c == PrintDigit(HexDigit(c), 'A' <= c <= 'F')
  {
  }

  lemma {:induction false} DigitsMore(n: nat, upper: seq<bool>, d: nat, big: bool)
    requires n > 0 && d < 16
    ensures PrintHex(16 * n + d, [big] + upper) == PrintHex(n, upper) + [PrintDigit(d, big)]
  {
    assert ([big] + upper)[1..] == upper;
  }

  lemma OneDigit(c: char, zeros: nat)
    requires IsHex(c)
    ensures Spelled(HexDigit(c), Spelling(zeros, ['A' <= c <= 'F'])) == Zeros(zeros) + [c] && Hex([]) == 0
    ensures Zeros(0) == []
  {
    DigitPrinted(c);
  }

  lemma ZeroSpelling(s: string, spelling: Spelling)
    requires s == Spelled(0, spelling)
    ensures s == Zeros(spelling.zeros + 1)
  {
    assert PrintHex(0, spelling.upper) == ['0'];
    assert Zeros(spelling.zeros) + ['0'] == Zeros(spelling.zeros + 1);
  }

  /** One digit more. */
  lemma SpellingMore(t: string, n: nat, short: Spelling, c: char) returns (spelling: Spelling)
    requires t == Spelled(n, short) && IsHex(c)
    ensures t + [c] == Spelled(16 * n + HexDigit(c), spelling)
  {
    var upper := 'A' <= c <= 'F';
    DigitPrinted(c);
    if n == 0 {
      spelling := Spelling(short.zeros + 1, [upper]);
      ZeroSpelling(t, short);
      OneDigit(c, short.zeros + 1);
    } else {
      spelling := Spelling(short.zeros, [upper] + short.upper);
      DigitsMore(n, short.upper, HexDigit(c), upper);
      hide PrintHex, PrintDigit;
      assert (Zeros(short.zeros) + PrintHex(n, short.upper)) + [c]
        == Zeros(short.zeros) + (PrintHex(n, short.upper) + [c]);
    }
  }

  /** And whatever is read is a spelling of its value. */
  lemma {:induction false} EverySpelling(s: string) returns (spelling: Spelling)
    requires |s| >= 1 && AllHex(s)
    ensures s == Spelled(Hex(s), spelling)
    decreases |s|
  {
    if |s| == 1 {
      spelling := OneSpelling(s[0]);
      assert s == [s[0]];
    } else {
      hide Spelled, Hex, HexDigit;
      var t, c := s[..|s| - 1], s[|s| - 1];
      var short := EverySpelling(t);
      spelling := SpellingMore(t, Hex(t), short, c);
      HexMore(t, c);
      assert s == t + [c];
    }
  }

  lemma OneSpelling(c: char) returns (spelling: Spelling)
    requires IsHex(c)
    ensures [c] == Spelled(Hex([c]), spelling)
  {
    spelling := Spelling(0, ['A' <= c <= 'F']);
    OneDigit(c, 0);
    HexMore([], c);
    assert [] + [c] == [c];
  }

  // ---------------------------------------------------------------- grammar

  /** A chunk: its size as written, and its data. */
  datatype ChunkText = ChunkText(size: string, data: string)

  predicate SizeOk(size: string)
  {
    |size| >= 1 && AllHex(size) && Hex(size) <= INT_MAX
  }

  predicate ChunkOk(c: ChunkText)
  {
    SizeOk(c.size) && Hex(c.size) == |c.data| >= 1
  }

  predicate ZeroOk(zero: string)
  {
    SizeOk(zero) && Hex(zero) == 0
  }

  predicate ChunksOk(chunks: seq<ChunkText>)
  {
    forall k :: 0 <= k < |chunks| ==> ChunkOk(chunks[k])
  }

  function PrintChunk(c: ChunkText): string
  {
    (c.size + "\r\n") + (c.data + "\r\n")
  }

  function PrintChunks(chunks: seq<ChunkText>, zero: string): string
  {
    if chunks == [] then zero + "\r\n" else PrintChunk(chunks[0]) + PrintChunks(chunks[1..], zero)
  }

  /** The body a list of chunks carries. */
  function Content(chunks: seq<ChunkText>): string
  {
    if chunks == [] then "" else chunks[0].data + Content(chunks[1..])
  }

  function DataAt(c: ChunkText, at: nat): nat
  {
    at + |c.size| + 2
  }

  function ChunkView(c: ChunkText, at: nat): Chunk
  {
    Chunk(|c.data|, View(DataAt(c, at), DataAt(c, at) + |c.data|))
  }

  /** What is recorded of chunks printed from at on. */
  function ChunksOf(chunks: seq<ChunkText>, at: nat): seq<Chunk>
  {
    if chunks == [] then [] else [ChunkView(chunks[0], at)] + ChunksOf(chunks[1..], at + |PrintChunk(chunks[0])|)
  }

  /** The texts of the recorded chunks, one after the other. */
  function Joined(buf: string, chunks: seq<Chunk>): string
  {
    if chunks == [] then "" else Text(buf, chunks[0].data) + Joined(buf, chunks[1..])
  }

  // ---------------------------------------------------------------- reading chunks

  lemma EndSizeReads(buf: string, size: string, s: Scan)
    requires SizeOk(size) && At(buf, s.prev, size)
    ensures EndSize(s, buf, s.prev + |size|)
         == Go(s.(state := if Hex(size) == 0 then ZeroChunkSize_r else ChunkDataSize_r, size := Hex(size)),
               s.prev + |size| + 1)
  {
    hide Hex, At, Text, AllHex;
    AtText(buf, s.prev, size);
  }

  lemma ReadSize(buf: string, i: nat, size: string, s: Scan)
    requires SizeOk(size) && At(buf, i, size) && s.state == NewChunkStart
    requires i + |size| < |buf| && buf[i + |size|] == '\r'
    ensures Run(s, buf, i)
         == Run(s.(state := if Hex(size) == 0 then ZeroChunkSize_r else ChunkDataSize_r, prev := i, size := Hex(size)),
                buf, i + |size| + 1)
  {
    hide Run, Hex, At, EndSize;
    AtText(buf, i, size);
    AtChar(buf, i, size, 0);
    var t := s.(state := ChunkDataSize, prev := i);
    forall k | i + 1 <= k < i + |size| ensures Step(t, buf, k) == Go(t, k + 1) {
      AtChar(buf, i, size, k - i);
    }
    StepsTo(s, buf, i, t, i + 1);
    RunOver(t, buf, i + 1, i + |size|);
    EndSizeReads(buf, size, t);
    assert Step(t, buf, i + |size|) == EndSize(t, buf, i + |size|);
    hide Step;
    StepsTo(t, buf, i + |size|,
            t.(state := if Hex(size) == 0 then ZeroChunkSize_r else ChunkDataSize_r, size := Hex(size)),
              i + |size| + 1);
  }

  lemma ReadData(buf: string, d: nat, data: string, s: Scan)
    requires s.state == ChunkDataSize_rn && |data| >= 1 && s.size == |data| && At(buf, d, data + "\r\n")
    ensures Run(s, buf, d)
         == Run(s.(state := NewChunkStart,
                   res := s.res.(chunks := s.res.chunks + [Chunk(|data|, View(d, d + |data|))])),
                buf, d + |data| + 2)
  {
    hide Run, At;
    AtSplit(buf, d, data, "\r\n");
    AtBreak(buf, d + |data|);
    var t := s.(state := ChunkDataEnd, res := s.res.(chunks := s.res.chunks + [Chunk(|data|, View(d, d + |data|))]));
    StepsTo(s, buf, d, t, d + |data|);
    StepsTo(t, buf, d + |data|, t.(state := ChunkData_r), d + |data| + 1);
    StepsTo(t.(state := ChunkData_r), buf, d + |data| + 1, t.(state := NewChunkStart), d + |data| + 2);
  }

  /** The scan once a chunk printed at i is read. */
  function ChunkScan(s: Scan, c: ChunkText, i: nat): Scan
  {
    s.(prev := i, size := |c.data|, res := s.res.(chunks := s.res.chunks + [ChunkView(c, i)]))
  }

  lemma ReadChunk(buf: string, i: nat, c: ChunkText, s: Scan)
    requires ChunkOk(c) && At(buf, i, PrintChunk(c)) && s.state == NewChunkStart
    ensures Run(s, buf, i) == Run(ChunkScan(s, c, i), buf, i + |PrintChunk(c)|)
  {
    hide Run, At, Hex, AllHex;
    AtSplit(buf, i, c.size + "\r\n", c.data + "\r\n");
    AtSplit(buf, i, c.size, "\r\n");
    AtBreak(buf, i + |c.size|);
    ReadSize(buf, i, c.size, s);
    var t := s.(state := ChunkDataSize_r, prev := i, size := |c.data|);
    StepsTo(t, buf, DataAt(c, i) - 1, t.(state := ChunkDataSize_rn), DataAt(c, i));
    hide Step;
    ReadData(buf, DataAt(c, i), c.data, t.(state := ChunkDataSize_rn));
  }

  lemma ReadZero(buf: string, i: nat, zero: string, s: Scan)
    requires ZeroOk(zero) && At(buf, i, zero + "\r\n") && s.state == NewChunkStart
    ensures Run(s, buf, i) == Parsed(Completed, ZeroChunkSize_r, s.res, i + |zero| + 2)
  {
    hide At, Hex, AllHex;
    AtSplit(buf, i, zero, "\r\n");
    AtBreak(buf, i + |zero|);
    ReadSize(buf, i, zero, s);
  }

  lemma ChunksSplit(buf: string, i: nat, chunks: seq<ChunkText>, zero: string)
    requires chunks != [] && At(buf, i, PrintChunks(chunks, zero))
    ensures At(buf, i, PrintChunk(chunks[0])) && At(buf, i + |PrintChunk(chunks[0])|, PrintChunks(chunks[1..], zero))
  {
    hide At;
    AtSplit(buf, i, PrintChunk(chunks[0]), PrintChunks(chunks[1..], zero));
  }

  lemma ChunksAppend(s: Scan, chunks: seq<ChunkText>, i: nat)
    requires chunks != []
    ensures s.res.chunks + ChunksOf(chunks, i)
         == ChunkScan(s, chunks[0], i).res.chunks + ChunksOf(chunks[1..], i + |PrintChunk(chunks[0])|)
  {
    hide PrintChunk, ChunkView;
    var rest := ChunksOf(chunks[1..], i + |PrintChunk(chunks[0])|);
    assert s.res.chunks + ([ChunkView(chunks[0], i)] + rest) == (s.res.chunks + [ChunkView(chunks[0], i)]) + rest;
  }

  /** Chunks and a last chunk are read to their end. */
  lemma {:induction false} ReadChunks(buf: string, i: nat, chunks: seq<ChunkText>, zero: string, s: Scan)
    requires ChunksOk(chunks) && ZeroOk(zero) && At(buf, i, PrintChunks(chunks, zero)) && s.state == NewChunkStart
    ensures Run(s, buf, i)
         == Parsed(Completed, ZeroChunkSize_r, s.res.(chunks := s.res.chunks + ChunksOf(chunks, i)),
                   i + |PrintChunks(chunks, zero)|)
    decreases |chunks|
  {
    hide Run, Step, At, ChunkOk, ZeroOk, PrintChunk;
    if chunks == [] {
      ReadZero(buf, i, zero, s);
      assert s.res.chunks + [] == s.res.chunks;
    } else {
      ChunksSplit(buf, i, chunks, zero);
      ReadChunk(buf, i, chunks[0], s);
      ReadChunks(buf, i + |PrintChunk(chunks[0])|, chunks[1..], zero, ChunkScan(s, chunks[0], i));
      ChunksAppend(s, chunks, i);
    }
  }

  lemma ChunkTextRead(buf: string, i: nat, c: ChunkText)
    requires At(buf, i, PrintChunk(c))
    ensures Text(buf, ChunkView(c, i).data) == c.data
  {
    hide At, Text;
    AtSplit(buf, i, c.size + "\r\n", c.data + "\r\n");
    AtSplit(buf, DataAt(c, i), c.data, "\r\n");
    AtText(buf, DataAt(c, i), c.data);
  }

  lemma JoinedStep(buf: string, i: nat, chunks: seq<ChunkText>)
    requires chunks != [] && Text(buf, ChunkView(chunks[0], i).data) == chunks[0].data
    requires Joined(buf, ChunksOf(chunks[1..], i + |PrintChunk(chunks[0])|)) == Content(chunks[1..])
    ensures Joined(buf, ChunksOf(chunks, i)) == Content(chunks)
  {
  }

  /** The recorded views join up to the body. */
  lemma {:induction false} JoinedContent(buf: string, i: nat, chunks: seq<ChunkText>, zero: string)
    requires At(buf, i, PrintChunks(chunks, zero))
    ensures Joined(buf, ChunksOf(chunks, i)) == Content(chunks)
    decreases |chunks|
  {
    if chunks != [] {
      hide At, Text, PrintChunks, Joined, ChunksOf, Content, PrintChunk;
      ChunksSplit(buf, i, chunks, zero);
      ChunkTextRead(buf, i, chunks[0]);
      JoinedContent(buf, i + |PrintChunk(chunks[0])|, chunks[1..], zero);
      JoinedStep(buf, i, chunks);
    }
  }

  // ---------------------------------------------------------------- nothing else completes

  lemma FindSize(buf: string, i: nat, s: Scan) returns (size: string)
    requires i <= |buf| && s.state == NewChunkStart && Run(s, buf, i).outcome == Completed
    ensures SizeOk(size) && At(buf, i, size + "\r\n")
  {
    hide EndSize;
    var t := s.(state := ChunkDataSize, prev := i);
    assert Step(s, buf, i) == Go(t, i + 1);
    var e := Leaves(t, buf, i + 1);
    size := buf[i..e];
    forall k | i + 1 <= k < e ensures IsHex(buf[k]) {
      assert Step(t, buf, k) == Go(t, k + 1);
      EndSizeMoves(t, buf, k);
    }
    assert Step(t, buf, e) == EndSize(t, buf, e);
    EndSizeMoves(t, buf, e);
    hide Step;
    assert EndSize(t, buf, e).Go?;
    SizeFits(t, buf, e);
    SizeBreak(t, buf, e);
    assert buf[i..e + 2] == size + "\r\n";
  }

  lemma EndSizeMoves(s: Scan, buf: string, e: nat)
    requires e <= |buf|
    ensures EndSize(s, buf, e).Stop? ==> EndSize(s, buf, e).outcome in {Fault, Thrown}
    ensures EndSize(s, buf, e).Go? ==> EndSize(s, buf, e).scan.state in {ZeroChunkSize_r, ChunkDataSize_r}
    ensures EndSize(s, buf, e).Go? ==> EndSize(s, buf, e).next == e + 1
  {
  }

  lemma SizeFits(s: Scan, buf: string, e: nat)
    requires s.prev < e <= |buf| && AllHex(buf[s.prev..e]) && EndSize(s, buf, e).Go?
    ensures SizeOk(buf[s.prev..e])
  {
  }

  lemma SizeBreak(s: Scan, buf: string, e: nat)
    requires e < |buf| && s.state == ChunkDataSize && buf[e] == '\r' && Run(s, buf, e).outcome == Completed
    ensures e + 1 < |buf| && buf[e + 1] == '\n'
  {
  }

  lemma FindData(buf: string, d: nat, s: Scan) returns (data: string)
    requires d <= |buf| && s.state == ChunkDataSize_rn && s.size >= 1 && Run(s, buf, d).outcome == Completed
    ensures |data| == s.size && At(buf, d, data + "\r\n")
  {
    assert |buf| - d > s.size;
    data := buf[d..d + s.size];
    var e := d + s.size;
    var t := s.(state := ChunkDataEnd, res := s.res.(chunks := s.res.chunks + [Chunk(s.size, View(d, e))]));
    assert Step(s, buf, d) == Go(t, e);
    assert Run(t, buf, e).outcome == Completed;
    EndsChunk(buf, e, t);
    assert buf[d..e + 2] == data + "\r\n";
  }

  lemma EndsChunk(buf: string, e: nat, s: Scan)
    requires e <= |buf| && s.state == ChunkDataEnd && Run(s, buf, e).outcome == Completed
    ensures e + 1 < |buf| && buf[e] == '\r' && buf[e + 1] == '\n'
  {
  }

  lemma JoinChunk(buf: string, i: nat, c: ChunkText)
    requires At(buf, i, c.size + "\r\n") && At(buf, DataAt(c, i), c.data + "\r\n")
    ensures At(buf, i, PrintChunk(c))
  {
  }

  lemma JoinChunks(buf: string, i: nat, c: ChunkText, rest: seq<ChunkText>, zero: string)
    requires At(buf, i, PrintChunk(c)) && At(buf, i + |PrintChunk(c)|, PrintChunks(rest, zero))
    ensures At(buf, i, PrintChunks([c] + rest, zero))
  {
  }

  /** A chunk, once its size is known. */
  lemma FindChunk(buf: string, i: nat, size: string, s: Scan) returns (c: ChunkText)
    requires s.state == NewChunkStart && SizeOk(size) && Hex(size) >= 1 && At(buf, i, size + "\r\n")
    requires i <= |buf| && Run(s, buf, i).outcome == Completed
    ensures ChunkOk(c) && c.size == size && At(buf, i, PrintChunk(c))
  {
    hide Run, Step, At, Hex, AllHex;
    AtSplit(buf, i, size, "\r\n");
    AtBreak(buf, i + |size|);
    ReadSize(buf, i, size, s);
    var t := s.(state := ChunkDataSize_r, prev := i, size := Hex(size));
    SizeEnds(t, buf, i + |size| + 1);
    var data := FindData(buf, i + |size| + 2, t.(state := ChunkDataSize_rn));
    c := ChunkText(size, data);
    hide PrintChunk;
    JoinChunk(buf, i, c);
  }

  /** A body that completes is a list of chunks with a last one of size zero. */
  lemma {:induction false} FindChunks(buf: string, i: nat, s: Scan) returns (chunks: seq<ChunkText>, zero: string)
    requires i <= |buf| && s.state == NewChunkStart && Run(s, buf, i).outcome == Completed
    ensures ChunksOk(chunks) && ZeroOk(zero) && At(buf, i, PrintChunks(chunks, zero))
    decreases |buf| - i
  {
    hide Run, Step, At, Hex;
    var size := FindSize(buf, i, s);
    AtSplit(buf, i, size, "\r\n");
    AtBreak(buf, i + |size|);
    ReadSize(buf, i, size, s);
    if Hex(size) == 0 {
      chunks, zero := [], size;
    } else {
      var c := FindChunk(buf, i, size, s);
      AtText(buf, i, PrintChunk(c));
      ReadChunk(buf, i, c, s);
      var rest;
      rest, zero := FindChunks(buf, i + |PrintChunk(c)|, ChunkScan(s, c, i));
      chunks := [c] + rest;
      JoinChunks(buf, i, c, rest, zero);
    }
  }

  lemma SizeEnds(s: Scan, buf: string, i: nat)
    requires i < |buf| && s.state == ChunkDataSize_r && buf[i] == '\n'
    ensures Run(s, buf, i) == Run(s.(state := ChunkDataSize_rn), buf, i + 1)
  {
  }
}
