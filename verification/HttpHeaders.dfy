/** Header fields: how they are written, and the views that are recorded of them. */
module HttpHeaders {
  import opened HttpText

  /** The views recorded for a header. */
  datatype Header = Header(name: View, value: View)

  /** A header field as written: name ':' [' '] value. */
  datatype Field = Field(name: string, space: bool, value: string)

  function PrintValue(f: Field): string
  {
    (if f.space then " " else "") + f.value
  }

  function PrintField(f: Field): string
  {
    (f.name + ":") + (PrintValue(f) + "\r\n")
  }

  function PrintFields(fields: seq<Field>): string
  {
    if fields == [] then "" else PrintField(fields[0]) + PrintFields(fields[1..])
  }

  function ValueAt(f: Field, at: nat): nat
  {
    at + |f.name| + 1 + (if f.space then 1 else 0)
  }

  /** The views the parser records for a field printed at position at. */
  function HeaderOf(f: Field, at: nat): Header
  {
    Header(View(at, at + |f.name|), View(ValueAt(f, at), ValueAt(f, at) + |f.value|))
  }

  function HeadersOf(fields: seq<Field>, at: nat): seq<Header>
  {
    if fields == [] then [] else [HeaderOf(fields[0], at)] + HeadersOf(fields[1..], at + |PrintField(fields[0])|)
  }

  lemma FieldSplit(buf: string, i: nat, f: Field)
    requires At(buf, i, PrintField(f))
    ensures At(buf, i, f.name + ":") && At(buf, i, f.name)
    ensures At(buf, i + |f.name| + 1, PrintValue(f))
    ensures At(buf, ValueAt(f, i), f.value) && At(buf, ValueAt(f, i) + |f.value|, "\r\n")
    ensures i + |PrintField(f)| == ValueAt(f, i) + |f.value| + 2 <= |buf|
  {
    hide At;
    var value := PrintValue(f);
    AtSplit(buf, i, f.name + ":", value + "\r\n");
    AtText(buf, i + |f.name| + 1, value + "\r\n");
    AtSplit(buf, i, f.name, ":");
    AtSplit(buf, i + |f.name| + 1, value, "\r\n");
    AtSplit(buf, i + |f.name| + 1, if f.space then " " else "", f.value);
  }

  lemma JoinField(buf: string, i: nat, f: Field)
    requires At(buf, i, f.name + ":") && At(buf, i + |f.name| + 1, PrintValue(f))
    requires At(buf, ValueAt(f, i) + |f.value|, "\r\n")
    ensures At(buf, i, PrintField(f))
  {
  }

  /** A value and the '\r' behind it. */
  lemma ValueCut(buf: string, v: nat, space: bool, e: nat)
    requires v < |buf| && space == (buf[v] == ' ')
    requires (if space then v + 1 else v) < e < |buf| && buf[e] == '\r'
    ensures At(buf, v, PrintValue(Field("", space, buf[if space then v + 1 else v..e])) + "\r")
  {
    var value := buf[if space then v + 1 else v..e];
    assert buf[v..e] == (if space then " " else "") + value;
    AtSlice(buf, v, e);
  }

  predicate HeadersMatch(buf: string, headers: seq<Header>, fields: seq<Field>)
  {
    |headers| == |fields|
    && forall k :: 0 <= k < |fields| ==>
         Text(buf, headers[k].name) == fields[k].name && Text(buf, headers[k].value) == fields[k].value
  }

  lemma MatchFirst(buf: string, f: Field, fields: seq<Field>, at: nat, headers: seq<Header>)
    requires Text(buf, HeaderOf(f, at).name) == f.name && Text(buf, HeaderOf(f, at).value) == f.value
    requires HeadersMatch(buf, headers, fields)
    ensures HeadersMatch(buf, [HeaderOf(f, at)] + headers, [f] + fields)
  {
  }

  lemma FieldText(buf: string, f: Field, at: nat)
    requires At(buf, at, PrintField(f))
    ensures Text(buf, HeaderOf(f, at).name) == f.name && Text(buf, HeaderOf(f, at).value) == f.value
  {
    FieldSplit(buf, at, f);
    hide PrintField;
  }

  lemma FieldsSplit(buf: string, fields: seq<Field>, at: nat)
    requires fields != [] && At(buf, at, PrintFields(fields))
    ensures At(buf, at, PrintField(fields[0])) && At(buf, at + |PrintField(fields[0])|, PrintFields(fields[1..]))
  {
    AtSplit(buf, at, PrintField(fields[0]), PrintFields(fields[1..]));
  }

  lemma HeadersStep(buf: string, fields: seq<Field>, at: nat)
    requires fields != [] && At(buf, at, PrintField(fields[0]))
    requires HeadersMatch(buf, HeadersOf(fields[1..], at + |PrintField(fields[0])|), fields[1..])
    ensures HeadersMatch(buf, HeadersOf(fields, at), fields)
  {
    hide PrintField, HeaderOf, Text, At, HeadersMatch;
    FieldText(buf, fields[0], at);
    MatchFirst(buf, fields[0], fields[1..], at, HeadersOf(fields[1..], at + |PrintField(fields[0])|));
    assert [fields[0]] + fields[1..] == fields;
  }

  lemma {:induction false} HeadersText(buf: string, fields: seq<Field>, at: nat)
    requires At(buf, at, PrintFields(fields))
    ensures HeadersMatch(buf, HeadersOf(fields, at), fields)
    decreases |fields|
  {
    if fields != [] {
      hide PrintField, PrintFields, HeadersOf, At, HeadersMatch;
      FieldsSplit(buf, fields, at);
      HeadersText(buf, fields[1..], at + |PrintField(fields[0])|);
      HeadersStep(buf, fields, at);
    }
  }
}
