/** More and less of a message: what a parser sees of the same headers in a longer buffer, and in its first m
    characters. */
module HttpPrefixes {
  import opened Options
  import opened HttpText
  import opened HttpHeaders

  // ---------------------------------------------------------------- a longer buffer

  lemma SameText(buf: string, ext: string, v: View)
    requires v.hi <= |buf|
    ensures Text(buf + ext, v) == Text(buf, v)
  {
  }

  lemma {:induction false} SkipSpacesExtend(buf: string, ext: string, i: nat)
    requires i <= |buf|
    ensures SkipSpaces(buf, i) < |buf| ==> SkipSpaces(buf + ext, i) == SkipSpaces(buf, i)
    decreases |buf| - i
  {
    if i < |buf| && IsSpace(buf[i]) {
      SkipSpacesExtend(buf, ext, i + 1);
    }
  }

  lemma {:induction false} DigitsEndExtend(buf: string, ext: string, i: nat)
    requires i <= |buf|
    ensures DigitsEnd(buf, i) < |buf| ==> DigitsEnd(buf + ext, i) == DigitsEnd(buf, i)
    decreases |buf| - i
  {
    if i < |buf| && IsDigit(buf[i]) {
      DigitsEndExtend(buf, ext, i + 1);
    }
  }

  /** A number that atoi could read without leaving the buffer is not changed by what follows. */
  lemma AtoiExtend(buf: string, ext: string, i: nat)
    requires i <= |buf| && Atoi(buf, i).Some?
    ensures Atoi(buf + ext, i) == Atoi(buf, i)
  {
    var j := SkipSpaces(buf, i);
    SkipSpacesExtend(buf, ext, i);
    assert j < |buf|;
    var k := if buf[j] == '-' || buf[j] == '+' then j + 1 else j;
    DigitsEndExtend(buf, ext, k);
    SamePart(buf, ext, k, DigitsEnd(buf, k));
    hide SkipSpaces, DigitsEnd, Decimal, AllDigits;
  }

  lemma SamePart(buf: string, ext: string, a: nat, b: nat)
    requires a <= b <= |buf|
    ensures (buf + ext)[a..b] == buf[a..b]
  {
  }

  // ---------------------------------------------------------------- a shorter one

  lemma AtPrefix(buf: string, i: nat, s: string, m: nat)
    requires At(buf, i, s) && i + |s| <= m <= |buf|
    ensures At(buf[..m], i, s)
  {
  }

  lemma TextPrefix(buf: string, v: View, m: nat)
    requires v.hi <= m <= |buf|
    ensures Text(buf[..m], v) == Text(buf, v)
  {
  }

  // ---------------------------------------------------------------- where the headers end

  predicate EndsAt(headers: seq<Header>, e: int)
  {
    headers != [] && headers[|headers| - 1].value.hi == e
  }

  lemma {:induction false} FieldsEnd(fields: seq<Field>, at: nat)
    requires fields != []
    ensures EndsAt(HeadersOf(fields, at), at + |PrintFields(fields)| - 2)
    decreases |fields|
  {
    var first := PrintField(fields[0]);
    if |fields| > 1 {
      FieldsEnd(fields[1..], at + |first|);
    }
    assert HeaderOf(fields[0], at).value.hi + 2 == at + |first|;
    hide PrintField, HeaderOf;
  }

  // ---------------------------------------------------------------- atoi on a beginning

  lemma {:induction false} SkipSpacesPrefix(s: string, m: nat, i: nat)
    requires i <= m <= |s|
    ensures SkipSpaces(s[..m], i) == if SkipSpaces(s, i) < m then SkipSpaces(s, i) else m
    decreases m - i
  {
    if i < m && IsSpace(s[i]) {
      SkipSpacesPrefix(s, m, i + 1);
    }
  }

  lemma {:induction false} DigitsEndPrefix(s: string, m: nat, i: nat)
    requires i <= m <= |s|
    ensures DigitsEnd(s[..m], i) == if DigitsEnd(s, i) < m then DigitsEnd(s, i) else m
    decreases m - i
  {
    if i < m && IsDigit(s[i]) {
      DigitsEndPrefix(s, m, i + 1);
    }
  }

  /** A number that atoi could read is read from the first m characters exactly if its scan stops among them. */
  lemma AtoiPrefix(s: string, m: nat, i: nat)
    requires i <= m <= |s| && Atoi(s, i).Some?
    ensures Atoi(s[..m], i) == if m <= AtoiEnd(s, i) then None else Atoi(s, i)
  {
    hide SkipSpaces, DigitsEnd, Decimal, AllDigits;
    SkipSpacesPrefix(s, m, i);
    var j := SkipSpaces(s, i);
    var k := if j < |s| && (s[j] == '-' || s[j] == '+') then j + 1 else j;
    if j < m {
      DigitsEndPrefix(s, m, k);
      if DigitsEnd(s, k) < m {
        assert s[..m][k..DigitsEnd(s, k)] == s[k..DigitsEnd(s, k)];
      }
    }
  }

  // ---------------------------------------------------------------- lengths that run on

  /** The scan of a Content-Length value runs past the first m characters: its value has no digit to stop at. */
  predicate Overruns(buf: string, header: Header, m: nat)
  {
    Text(buf, header.name) == "Content-Length" && header.value.lo <= |buf|
    && header.value.hi < m <= AtoiEnd(buf, header.value.lo)
  }

  ghost predicate SomeOverruns(buf: string, headers: seq<Header>, from: nat, m: nat)
  {
    exists k :: from <= k < |headers| && Overruns(buf, headers[k], m)
  }

  lemma OverrunsFirst(buf: string, fields: seq<Field>, at: nat, m: nat)
    requires fields != []
    ensures SomeOverruns(buf, HeadersOf(fields, at), 0, m)
       <==> Overruns(buf, HeaderOf(fields[0], at), m)
            || SomeOverruns(buf, HeadersOf(fields[1..], at + |PrintField(fields[0])|), 0, m)
  {
    hide Overruns, HeaderOf, PrintField;
    var rest := HeadersOf(fields[1..], at + |PrintField(fields[0])|);
    var headers := HeadersOf(fields, at);
    assert headers == [HeaderOf(fields[0], at)] + rest && headers[0] == HeaderOf(fields[0], at);
    if k :| 0 <= k < |rest| && Overruns(buf, rest[k], m) {
      assert headers[k + 1] == rest[k];
    }
    if k :| 0 <= k < |headers| && Overruns(buf, headers[k], m) {
      assert k > 0 ==> headers[k] == rest[k - 1];
    }
  }

  /** Only a value of nothing but spaces lets atoi run on. */
  lemma OverrunIsBlank(buf: string, f: Field, at: nat, m: nat)
    requires At(buf, at, PrintField(f)) && |f.value| >= 1
    requires Overruns(buf, HeaderOf(f, at), m)
    ensures f.name == "Content-Length" && AllSpaces(f.value)
  {
    hide IsSpace, AtoiEnd, At, PrintField, Text;
    FieldSplit(buf, at, f);
    FieldText(buf, f, at);
    var v := ValueAt(f, at);
    AtBreak(buf, v + |f.value|);
    forall k | 0 <= k < |f.value| ensures IsSpace(f.value[k]) {
      AtChar(buf, v, f.value, k);
      if !IsSpace(buf[v + k]) {
        ScanStops(buf, v, v + k, v + |f.value|);
      }
    }
  }

  /** A scan that meets something else than spaces ends at the first character behind that is no digit. */
  lemma ScanStops(s: string, i: nat, k: nat, e: nat)
    requires i <= k < e < |s| && !IsSpace(s[k]) && !IsDigit(s[e])
    ensures AtoiEnd(s, i) <= e
  {
    var j := SkipSpaces(s, i);
    assert j <= k;
    hide IsDigit, IsSpace, SkipSpaces, DigitsEnd;
    DigitsStop(s, if s[j] == '-' || s[j] == '+' then j + 1 else j, e);
  }

  lemma {:induction false} DigitsStop(s: string, i: nat, e: nat)
    requires i <= e < |s| && !IsDigit(s[e])
    ensures DigitsEnd(s, i) <= e
    decreases e - i
  {
    if i < e && IsDigit(s[i]) {
      DigitsStop(s, i + 1, e);
    }
  }

  /** Some Content-Length has a value of nothing but spaces. */
  ghost predicate BlankLengths(fields: seq<Field>)
  {
    exists k :: 0 <= k < |fields| && fields[k].name == "Content-Length" && AllSpaces(fields[k].value)
  }

  lemma BlankFirst(fields: seq<Field>)
    requires fields != []
    ensures BlankLengths(fields[1..]) || (fields[0].name == "Content-Length" && AllSpaces(fields[0].value)) ==>
              BlankLengths(fields)
  {
    hide AllSpaces;
    var rest := fields[1..];
    if k :| 0 <= k < |rest| && rest[k].name == "Content-Length" && AllSpaces(rest[k].value) {
      assert fields[k + 1] == rest[k];
    }
  }

  lemma {:induction false} NoOverrun(buf: string, fields: seq<Field>, at: nat, m: nat)
    requires (forall k :: 0 <= k < |fields| ==> fields[k].value != "") && At(buf, at, PrintFields(fields))
    requires !BlankLengths(fields)
    ensures !SomeOverruns(buf, HeadersOf(fields, at), 0, m)
    decreases |fields|
  {
    hide Overruns, At, PrintField, AllSpaces, HeaderOf;
    if fields != [] {
      BlankFirst(fields);
      hide BlankLengths, HeadersOf, SomeOverruns;
      FieldsSplit(buf, fields, at);
      NoOverrun(buf, fields[1..], at + |PrintField(fields[0])|, m);
      if Overruns(buf, HeaderOf(fields[0], at), m) {
        OverrunIsBlank(buf, fields[0], at, m);
      }
      OverrunsFirst(buf, fields, at, m);
    }
  }
}
