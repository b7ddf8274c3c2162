/** The hand-written DNS client: query builder and answer parser, against the message format of
    sections 4.1.1 to 4.1.4 of RFC 1035. */
module DnsMessage {
  import opened Prelude

  type Byte = x: int | 0 <= x < 256

  const DOT: Byte := 46
  const HEADER: nat := 12
  const TYPE_A: nat := 1

  /** Python's failures: a length byte above 255, an index past the data, a short slice given to struct. */
  datatype Error = ValueError | IndexError | StructError

  // ----- Wire primitives

  function U16(x: nat): seq<Byte>
    requires x < 0x1_0000
  {
    [x / 256, x % 256]
  }

  function U32(x: nat): seq<Byte>
    requires x < 0x1_0000_0000
  {
    U16(x / 0x1_0000) + U16(x % 0x1_0000)
  }

  function Read16(data: seq<Byte>, off: nat): nat
    requires off + 2 <= |data|
  {
    var hi: int, lo: int := data[off], data[off + 1];
    hi * 256 + lo
  }

  ghost predicate At(data: seq<Byte>, off: nat, x: seq<Byte>) {
    off + |x| <= |data| && data[off..off + |x|] == x
  }

  lemma AtSplit(data: seq<Byte>, off: nat, x: seq<Byte>, y: seq<Byte>)
    requires At(data, off, x + y)
    ensures At(data, off, x) && At(data, off + |x|, y)
  {
    assert x == (x + y)[..|x|] && y == (x + y)[|x|..];
  }

  lemma Read16At(data: seq<Byte>, off: nat, x: nat)
    requires x < 0x1_0000 && At(data, off, U16(x))
    ensures Read16(data, off) == x
  {
    assert data[off] == data[off..off + 2][0] && data[off + 1] == data[off..off + 2][1];
  }

  // ----- Names

  predicate LabelsFit(labels: seq<seq<Byte>>) {
    forall i :: 0 <= i < |labels| ==> |labels[i]| < 256
  }

  predicate NoEmptyLabel(labels: seq<seq<Byte>>) {
    forall i :: 0 <= i < |labels| ==> labels[i] != []
  }

  function EncodeLabels(labels: seq<seq<Byte>>): seq<Byte>
    requires LabelsFit(labels)
  {
    if labels == [] then [] else [|labels[0]|] + labels[0] + EncodeLabels(labels[1..])
  }

  lemma {:induction false} EncodeAppend(a: seq<seq<Byte>>, b: seq<seq<Byte>>)
    requires LabelsFit(a) && LabelsFit(b)
    ensures LabelsFit(a + b) && EncodeLabels(a + b) == EncodeLabels(a) + EncodeLabels(b)
  {
    if a == [] {
      assert a + b == b;
    } else {
      assert (a + b)[1..] == a[1..] + b && (a + b)[0] == a[0];
      EncodeAppend(a[1..], b);
      var head: seq<Byte> := [|a[0]|] + a[0];
      assert head + (EncodeLabels(a[1..]) + EncodeLabels(b)) == head + EncodeLabels(a[1..]) + EncodeLabels(b);
    }
  }

  /** The skip loop: position of the zero byte that ends a label sequence, or `None` past the data. */
  function SkipLabels(data: seq<Byte>, off: nat): (z: Option<nat>)
    ensures z.Some? ==> off <= z.value < |data| && data[z.value] == 0
    decreases |data| - off
  {
    if off >= |data| then None
    else if data[off] == 0 then Some(off)
    else SkipLabels(data, off + data[off] + 1)
  }

  lemma EncodeHead(labels: seq<seq<Byte>>, tail: seq<Byte>)
    requires labels != [] && LabelsFit(labels)
    ensures EncodeLabels(labels) + tail == ([|labels[0]|] + labels[0]) + (EncodeLabels(labels[1..]) + tail)
    ensures |EncodeLabels(labels)| == 1 + |labels[0]| + |EncodeLabels(labels[1..])|
  {
    hide EncodeLabels;
    EncodeUnfold(labels);
    var head: seq<Byte> := [|labels[0]|] + labels[0];
    AppendAssociates(head, EncodeLabels(labels[1..]), tail);
  }

  lemma EncodeUnfold(labels: seq<seq<Byte>>)
    requires labels != [] && LabelsFit(labels)
    ensures EncodeLabels(labels) == [|labels[0]|] + labels[0] + EncodeLabels(labels[1..])
  {
  }

  lemma EncodeNone()
    ensures EncodeLabels([]) == []
  {
  }

  lemma AppendAssociates(x: seq<Byte>, y: seq<Byte>, z: seq<Byte>)
    ensures (x + y) + z == x + (y + z)
  {
  }

  /** The first byte of what stands at an offset. */
  lemma FirstByte(data: seq<Byte>, off: nat, x: seq<Byte>)
    requires x != [] && At(data, off, x)
    ensures data[off] == x[0]
  {
    assert data[off] == data[off..off + |x|][0];
  }

  /** A non-empty label at an offset: its length byte, its bytes, and what follows it. */
  lemma LabelAt(data: seq<Byte>, off: nat, part: seq<Byte>, rest: seq<Byte>)
    requires 1 <= |part| < 256 && At(data, off, ([|part|] + part) + rest)
    ensures data[off] == |part| && At(data, off + 1, part) && At(data, off + 1 + |part|, rest)
  {
    hide At;
    AtSplit(data, off, [|part|] + part, rest);
    AtSplit(data, off, [|part|], part);
    FirstByte(data, off, [|part|]);
  }

  lemma SkipOne(data: seq<Byte>, off: nat)
    requires off < |data| && data[off] != 0
    ensures SkipLabels(data, off) == SkipLabels(data, off + 1 + data[off])
  {
  }

  lemma SkipZero(data: seq<Byte>, off: nat)
    requires off < |data| && data[off] == 0
    ensures SkipLabels(data, off) == Some(off)
  {
  }

  /** Over the encoding of non-empty labels the loop comes to the byte after them. */
  lemma {:induction false} SkipPasses(data: seq<Byte>, off: nat, labels: seq<seq<Byte>>, tail: seq<Byte>)
    requires LabelsFit(labels) && NoEmptyLabel(labels) && At(data, off, EncodeLabels(labels) + tail)
    ensures SkipLabels(data, off) == SkipLabels(data, off + |EncodeLabels(labels)|)
    ensures At(data, off + |EncodeLabels(labels)|, tail)
    decreases |labels|
  {
    hide EncodeLabels, SkipLabels, At;
    if labels == [] {
      EncodeNone();
      assert [] + tail == tail;
    } else {
      EncodeHead(labels, tail);
      LabelAt(data, off, labels[0], EncodeLabels(labels[1..]) + tail);
      AtRange(data, off + 1, labels[0]);
      SkipOne(data, off);
      SkipPasses(data, off + 1 + |labels[0]|, labels[1..], tail);
    }
  }

  lemma AtRange(data: seq<Byte>, off: nat, x: seq<Byte>)
    requires At(data, off, x)
    ensures off + |x| <= |data|
  {
  }

  /** Followed by a zero byte, it stops at that byte. */
  lemma SkipStopsAfter(data: seq<Byte>, off: nat, labels: seq<seq<Byte>>)
    requires LabelsFit(labels) && NoEmptyLabel(labels) && At(data, off, EncodeLabels(labels) + [0])
    ensures SkipLabels(data, off) == Some(off + |EncodeLabels(labels)|)
  {
    hide EncodeLabels, SkipLabels, At;
    SkipPasses(data, off, labels, [0]);
    var z := off + |EncodeLabels(labels)|;
    AtRange(data, z, [0]);
    FirstByte(data, z, [0]);
    SkipZero(data, z);
  }

  /** Reference reader of a plain label sequence, as section 4.1.2 describes it. */
  function ReadLabels(data: seq<Byte>, off: nat): Option<seq<seq<Byte>>>
    decreases |data| - off
  {
    if off >= |data| then None
    else if data[off] == 0 then Some([])
    else if off + 1 + data[off] > |data| then None
    else
      var rest := ReadLabels(data, off + 1 + data[off]);
      if rest.None? then None else Some([data[off + 1..off + 1 + data[off]]] + rest.value)
  }

  lemma ReadOneLabel(data: seq<Byte>, off: nat)
    requires off < |data| && data[off] != 0 && off + 1 + data[off] <= |data|
    ensures var rest := ReadLabels(data, off + 1 + data[off]);
            ReadLabels(data, off) == if rest.None? then None else Some([data[off + 1..off + 1 + data[off]]] + rest.value)
  {
  }

  lemma ReadNoLabel(data: seq<Byte>, off: nat)
    requires off < |data| && data[off] == 0
    ensures ReadLabels(data, off) == Some([])
  {
  }

  lemma {:induction false} ReadBack(data: seq<Byte>, off: nat, labels: seq<seq<Byte>>)
    requires LabelsFit(labels) && NoEmptyLabel(labels) && At(data, off, EncodeLabels(labels) + [0])
    ensures ReadLabels(data, off) == Some(labels)
    decreases |labels|
  {
    hide EncodeLabels, ReadLabels;
    if labels == [] {
      EncodeNone();
      assert [] + [0] == [0];
      FirstByte(data, off, [0]);
      ReadNoLabel(data, off);
    } else {
      EncodeHead(labels, [0]);
      LabelAt(data, off, labels[0], EncodeLabels(labels[1..]) + [0]);
      ReadOneLabel(data, off);
      ReadBack(data, off + 1 + |labels[0]|, labels[1..]);
      assert labels == [labels[0]] + labels[1..];
    }
  }

  // ----- Building the query

  /** Python's `split(b".")`: the parts between dots, at least one. */
  function SplitDots(host: seq<Byte>): (parts: seq<seq<Byte>>)
    ensures parts != []
    ensures forall i :: 0 <= i < |parts| ==> DOT !in parts[i]
  {
    if host == [] then [[]]
    else
      var rest := SplitDots(host[1..]);
      if host[0] == DOT then [[]] + rest else [[host[0]] + rest[0]] + rest[1..]
  }

  /** The parts joined by full stops, ASCII 46. */
  function JoinDots(parts: seq<seq<Byte>>): seq<Byte>
    requires parts != []
  {
    if |parts| == 1 then parts[0] else parts[0] + [46] + JoinDots(parts[1..])
  }

  lemma {:induction false} JoinSplit(host: seq<Byte>)
    ensures JoinDots(SplitDots(host)) == host
  {
    if host != [] {
      JoinSplit(host[1..]);
      var rest := SplitDots(host[1..]);
      if host[0] == DOT {
        assert ([[]] + rest)[1..] == rest;
        assert [] + [DOT] + JoinDots(rest) == host;
      } else {
        var parts := [[host[0]] + rest[0]] + rest[1..];
        assert parts[1..] == rest[1..];
        assert JoinDots(parts) == [host[0]] + JoinDots(rest);
      }
    }
  }

  function QueryHeader(): seq<Byte> {
    [0xaa, 0xbb] + [0x01, 0x00] + U16(1) + U16(0) + U16(0) + U16(0)
  }

  function Question(labels: seq<seq<Byte>>, qtype: nat, qclass: nat): seq<Byte>
    requires LabelsFit(labels) && qtype < 0x1_0000 && qclass < 0x1_0000
  {
    EncodeLabels(labels) + [0] + (U16(qtype) + U16(qclass))
  }

  /** Builds the query packet for a host name, failing when a label is longer than a byte can say. */
  method BuildQuery(host: seq<Byte>) returns (r: Result<seq<Byte>, Error>)
    ensures LabelsFit(SplitDots(host)) ==> r == Ok(QueryHeader() + Question(SplitDots(host), 1, 1))
    ensures !LabelsFit(SplitDots(host)) ==> r == Err(ValueError)
  {
    var parts := SplitDots(host);
    var question: seq<Byte> := [];
    for i := 0 to |parts|
      invariant LabelsFit(parts[..i]) && question == EncodeLabels(parts[..i])
    {
      if |parts[i]| > 255 {
        return Err(ValueError);
      }
      assert parts[..i + 1] == parts[..i] + [parts[i]];
      EncodeAppend(parts[..i], [parts[i]]);
      EncodeOne(parts[i]);
      question := question + ([|parts[i]|] + parts[i]);
    }
    assert parts[..|parts|] == parts;
    question := question + [0] + (U16(1) + U16(1));
    r := Ok(QueryHeader() + question);
  }

  lemma EncodeOne(part: seq<Byte>)
    requires |part| < 256
    ensures EncodeLabels([part]) == [|part|] + part
  {
    assert [part][1..] == [];
  }

  lemma {:induction false} FirstEmpty(labels: seq<seq<Byte>>) returns (i: nat)
    requires !NoEmptyLabel(labels)
    ensures i < |labels| && labels[i] == [] && NoEmptyLabel(labels[..i])
  {
    if labels[0] == [] {
      i := 0;
    } else {
      i := FirstEmpty(labels[1..]);
      i := i + 1;
      assert forall j :: 0 < j < i ==> labels[..i][j] == labels[1..][..i - 1][j - 1];
    }
  }

  /** The skip loop lands just after the question the builder itself writes exactly when the host name has no
      empty label: no leading, trailing or doubled dot, and not the empty name. */
  lemma SkipsOwnQuestionIff(host: seq<Byte>)
    requires LabelsFit(SplitDots(host))
    ensures var packet := QueryHeader() + Question(SplitDots(host), 1, 1);
            SkipLabels(packet, HEADER) == Some(|packet| - 5) <==> NoEmptyLabel(SplitDots(host))
  {
    hide SplitDots, SkipLabels, NoEmptyLabel;
    var labels := SplitDots(host);
    var packet := QueryHeader() + Question(labels, 1, 1);
    QuestionStarts(labels);
    SkipStopsIff(packet, HEADER, labels);
  }

  lemma QuestionStarts(labels: seq<seq<Byte>>)
    requires LabelsFit(labels)
    ensures var packet := QueryHeader() + Question(labels, 1, 1);
            At(packet, HEADER, EncodeLabels(labels) + [0]) && |packet| == HEADER + |EncodeLabels(labels)| + 5
  {
    hide EncodeLabels;
    var packet := QueryHeader() + Question(labels, 1, 1);
    assert packet[HEADER..] == Question(labels, 1, 1);
    AtSplit(packet, HEADER, EncodeLabels(labels) + [0], U16(1) + U16(1));
  }

  lemma SkipStopsIff(data: seq<Byte>, off: nat, labels: seq<seq<Byte>>)
    requires LabelsFit(labels) && At(data, off, EncodeLabels(labels) + [0])
    ensures SkipLabels(data, off) == Some(off + |EncodeLabels(labels)|) <==> NoEmptyLabel(labels)
  {
    if NoEmptyLabel(labels) {
      SkipStopsAfter(data, off, labels);
    } else {
      hide SkipLabels;
      var i := FirstEmpty(labels);
      var before, after := labels[..i], labels[i + 1..];
      assert labels == before + ([[]] + after);
      EncodeAppend([[]], after);
      EncodeOne([]);
      EncodeAppend(before, [[]] + after);
      hide EncodeLabels;
      assert EncodeLabels(labels) + [0] == (EncodeLabels(before) + [0]) + (EncodeLabels(after) + [0]);
      AtSplit(data, off, EncodeLabels(before) + [0], EncodeLabels(after) + [0]);
      SkipStopsAfter(data, off, before);
    }
  }

  /** Under that condition the name on the wire, read back label by label and joined by dots, is the host name. */
  lemma QueryNameRoundTrip(host: seq<Byte>)
    requires LabelsFit(SplitDots(host)) && NoEmptyLabel(SplitDots(host))
    ensures var packet := QueryHeader() + Question(SplitDots(host), 1, 1);
            var labels := ReadLabels(packet, HEADER);
            labels.Some? && labels.value != [] && JoinDots(labels.value) == host
  {
    var labels := SplitDots(host);
    var packet := QueryHeader() + Question(labels, 1, 1);
    QuestionStarts(labels);
    ReadBack(packet, HEADER, labels);
    JoinSplit(host);
  }

  // ----- Parsing the response

  /** What one answer record contributes, and where the next one starts. */
  datatype Parsed = Parsed(ips: seq<seq<Byte>>, next: nat)

  /** End of the record's name: any byte with one of the two top bits set is taken for a two-byte pointer. */
  function NameEnd(data: seq<Byte>, off: nat): Option<nat> {
    if off >= |data| then None
    else if data[off] >= 64 then Some(off + 2)
    else
      var z := SkipLabels(data, off);
      if z.None? then None else Some(z.value + 1)
  }

  /** Python slice data[off:off+4], short at the end of the data. */
  function SliceFour(data: seq<Byte>, off: nat): (s: seq<Byte>)
    requires off <= |data|
    ensures s <= data[off..] && |s| == if off + 4 <= |data| then 4 else |data| - off
  {
    if off + 4 <= |data| then data[off..off + 4] else data[off..]
  }

  function ReadRecord(data: seq<Byte>, off: nat): Result<Parsed, Error> {
    var e := NameEnd(data, off);
    if e.None? then Err(IndexError)
    else if e.value + 10 > |data| then Err(StructError)
    else
      var body := e.value + 10;
      var rtype, rdlength := Read16(data, e.value), Read16(data, e.value + 8);
      Ok(Parsed(if rtype == TYPE_A && rdlength == 4 then [SliceFour(data, body)] else [], body + rdlength))
  }

  function ReadAnswers(data: seq<Byte>, off: nat, n: nat): Result<seq<seq<Byte>>, Error>
    decreases n
  {
    if n == 0 then Ok([])
    else
      var p := ReadRecord(data, off);
      if p.Err? then Err(p.error) else Prepend(p.value.ips, ReadAnswers(data, p.value.next, n - 1))
  }

  function Prepend(ips: seq<seq<Byte>>, r: Result<seq<seq<Byte>>, Error>): Result<seq<seq<Byte>>, Error> {
    if r.Err? then r else Ok(ips + r.value)
  }

  lemma PrependNone(r: Result<seq<seq<Byte>>, Error>)
    ensures Prepend([], r) == r
  {
    if r.Ok? {
      assert [] + r.value == r.value;
    }
  }

  /** The parser as a function of the datagram. */
  function Parse(data: seq<Byte>): Result<seq<seq<Byte>>, Error> {
    var z := SkipLabels(data, HEADER);
    if z.None? then Err(IndexError) else ReadAnswers(data, z.value + 5, Read16(data, 6))
  }

  /** The test `& 0xC0` on a name's first byte: any of its two top bits makes it a pointer of two bytes. */
  lemma NameEndByBits(data: seq<Byte>, off: nat)
    requires off < |data|
    ensures if (data[off] as bv8) & 0xC0 != 0 then NameEnd(data, off) == Some(off + 2)
            else NameEnd(data, off) == match SkipLabels(data, off) case None => None case Some(z) => Some(z + 1)
  {
    TopBits(data[off]);
  }

  lemma TopBits(b: Byte)
    ensures (b as bv8) & 0xC0 != 0 <==> b >= 64
  {
    var v := b as bv8;
    assert v & 0xC0 == 0 <==> v < 64;
  }

  /** A record fails in two ways: its name runs past the data, or fewer than ten bytes follow it. */
  lemma RecordErrors(data: seq<Byte>, off: nat)
    ensures ReadRecord(data, off) == Err(IndexError) <==> NameEnd(data, off) == None
    ensures ReadRecord(data, off) == Err(StructError) <==>
            NameEnd(data, off).Some? && |data| - NameEnd(data, off).value < 10
  {
    hide NameEnd, Read16;
  }

  method SkipLoop(data: seq<Byte>, start: nat) returns (r: Option<nat>)
    ensures r == SkipLabels(data, start)
  {
    var offset: nat := start;
    while offset < |data| && data[offset] != 0
      invariant SkipLabels(data, offset) == SkipLabels(data, start)
      decreases |data| - offset
    {
      offset := offset + data[offset] + 1;
    }
    r := if offset < |data| then Some(offset) else None;
  }

  /** One pass of the loop over the answers. */
  method ReadOne(data: seq<Byte>, start: nat) returns (r: Result<Parsed, Error>)
    ensures r == ReadRecord(data, start)
  {
    hide SkipLabels, Read16;
    var offset: nat := start;
    if offset >= |data| {
      return Err(IndexError);
    } else if data[offset] >= 64 {
      offset := offset + 2;
    } else {
      var z := SkipLoop(data, offset);
      if z.None? {
        return Err(IndexError);
      }
      offset := z.value + 1;
    }
    if offset + 10 > |data| {
      return Err(StructError);
    }
    var rtype, rdlength := Read16(data, offset), Read16(data, offset + 8);
    offset := offset + 10;
    var ips: seq<seq<Byte>> := if rtype == TYPE_A && rdlength == 4 then [SliceFour(data, offset)] else [];
    r := Ok(Parsed(ips, offset + rdlength));
  }

  lemma AnswersStep(data: seq<Byte>, off: nat, n: nat, ips: seq<seq<Byte>>)
    requires n >= 1
    ensures var p := ReadRecord(data, off);
            Prepend(ips, ReadAnswers(data, off, n)) ==
            if p.Err? then Err(p.error) else Prepend(ips + p.value.ips, ReadAnswers(data, p.value.next, n - 1))
  {
    hide ReadRecord;
    var p := ReadRecord(data, off);
    if p.Ok? {
      var rest := ReadAnswers(data, p.value.next, n - 1);
      if rest.Ok? {
        assert ips + (p.value.ips + rest.value) == ips + p.value.ips + rest.value;
      }
    }
  }

  lemma NoAnswers(data: seq<Byte>, off: nat, ips: seq<seq<Byte>>)
    ensures Prepend(ips, ReadAnswers(data, off, 0)) == Ok(ips)
  {
    assert ips + [] == ips;
  }

  method ParseResponse(data: seq<Byte>) returns (r: Result<seq<seq<Byte>>, Error>)
    ensures r == Parse(data)
  {
    hide SkipLabels, ReadRecord, ReadAnswers, Prepend, Read16;
    var zero := SkipLoop(data, HEADER);
    if zero.None? {
      return Err(IndexError);
    }
    var offset: nat := zero.value + 5;
    var answers := Read16(data, 6);
    var ips: seq<seq<Byte>> := [];
    PrependNone(Parse(data));
    for i := 0 to answers
      invariant Parse(data) == Prepend(ips, ReadAnswers(data, offset, answers - i))
    {
      AnswersStep(data, offset, answers - i, ips);
      var p := ReadOne(data, offset);
      if p.Err? {
        return Err(p.error);
      }
      ips, offset := ips + p.value.ips, p.value.next;
    }
    NoAnswers(data, offset, ips);
    r := Ok(ips);
  }

  // ----- Well-formed responses

  /** The three forms of a name in section 4.1.4: a pointer, labels ending in a zero byte, labels ending in a pointer. */
  datatype Name =
    | Pointer(hi: Byte, lo: Byte)
    | Labels(labels: seq<seq<Byte>>)
    | Mixed(first: seq<seq<Byte>>, hi: Byte, lo: Byte)

  predicate ValidLabels(labels: seq<seq<Byte>>) {
    forall i :: 0 <= i < |labels| ==> 1 <= |labels[i]| <= 63
  }

  /** A pointer has both top bits set; labels have 1 to 63 bytes. */
  predicate ValidName(n: Name) {
    match n
    case Pointer(hi, _) => hi >= 192
    case Labels(labels) => ValidLabels(labels)
    case Mixed(first, hi, _) => first != [] && ValidLabels(first) && hi >= 192
  }

  function EncodeName(n: Name): seq<Byte>
    requires ValidName(n)
  {
    match n
    case Pointer(hi, lo) => [hi, lo]
    case Labels(labels) => EncodeLabels(labels) + [0]
    case Mixed(first, hi, lo) => EncodeLabels(first) + [hi, lo]
  }

  datatype Record = Record(name: Name, rtype: nat, rclass: nat, ttl: nat, rdata: seq<Byte>)

  /** A record whose name is a pointer or plain labels. */
  predicate ValidRecord(a: Record) {
    ValidName(a.name) && !a.name.Mixed? && a.rtype < 0x1_0000 && a.rclass < 0x1_0000 && a.ttl < 0x1_0000_0000 && |a.rdata| < 0x1_0000
  }

  function Fixed(a: Record): (s: seq<Byte>)
    requires ValidRecord(a)
    ensures |s| == 10
  {
    U16(a.rtype) + (U16(a.rclass) + U32(a.ttl) + U16(|a.rdata|))
  }

  function EncodeRecord(a: Record): seq<Byte>
    requires ValidRecord(a)
  {
    EncodeName(a.name) + (Fixed(a) + a.rdata)
  }

  predicate ValidRecords(answers: seq<Record>) {
    forall i :: 0 <= i < |answers| ==> ValidRecord(answers[i])
  }

  function EncodeRecords(answers: seq<Record>): seq<Byte>
    requires ValidRecords(answers)
  {
    if answers == [] then [] else EncodeRecord(answers[0]) + EncodeRecords(answers[1..])
  }

  /** Type 1 is the host address of section 3.2.2. */
  function AddressesOf(a: Record): seq<seq<Byte>> {
    if a.rtype == 1 && |a.rdata| == 4 then [a.rdata] else []
  }

  /** The addresses of the A records, in order. */
  function Addresses(answers: seq<Record>): seq<seq<Byte>> {
    if answers == [] then [] else AddressesOf(answers[0]) + Addresses(answers[1..])
  }

  lemma FixedFields(data: seq<Byte>, off: nat, a: Record)
    requires ValidRecord(a) && At(data, off, Fixed(a))
    ensures Read16(data, off) == a.rtype && Read16(data, off + 8) == |a.rdata|
  {
    AtSplit(data, off, U16(a.rtype), U16(a.rclass) + U32(a.ttl) + U16(|a.rdata|));
    AtSplit(data, off + 2, U16(a.rclass) + U32(a.ttl), U16(|a.rdata|));
    Read16At(data, off, a.rtype);
    Read16At(data, off + 8, |a.rdata|);
  }

  /** After labels ending in a pointer the skip loop takes the pointer's first byte for a length and leaps over it. */
  lemma MixedNameLeaps(data: seq<Byte>, off: nat, first: seq<seq<Byte>>, hi: Byte, lo: Byte)
    requires ValidName(Mixed(first, hi, lo)) && At(data, off, EncodeLabels(first) + [hi, lo])
    ensures SkipLabels(data, off) == SkipLabels(data, off + |EncodeLabels(first)| + hi + 1)
  {
    hide EncodeLabels, SkipLabels, At;
    SkipPasses(data, off, first, [hi, lo]);
    var p := off + |EncodeLabels(first)|;
    AtRange(data, p, [hi, lo]);
    FirstByte(data, p, [hi, lo]);
    SkipOne(data, p);
  }

  lemma FirstOfName(data: seq<Byte>, off: nat, n: Name)
    requires ValidName(n) && At(data, off, EncodeName(n))
    ensures off < |data| && (data[off] >= 64 <==> n.Pointer?)
  {
    match n
    case Pointer(hi, lo) =>
      FirstByte(data, off, [hi, lo]);
    case Labels(labels) =>
      if labels != [] {
        EncodeHead(labels, [0]);
        LabelAt(data, off, labels[0], EncodeLabels(labels[1..]) + [0]);
      } else {
        assert EncodeLabels(labels) + [0] == [0];
        FirstByte(data, off, [0]);
      }
    case Mixed(first, hi, lo) =>
      EncodeHead(first, [hi, lo]);
      LabelAt(data, off, first[0], EncodeLabels(first[1..]) + [hi, lo]);
  }

  /** A valid name is skipped correctly if and only if it is not one of labels ending in a pointer. */
  lemma NameSkippedIff(data: seq<Byte>, off: nat, n: Name)
    requires ValidName(n) && At(data, off, EncodeName(n))
    ensures NameEnd(data, off) == Some(off + |EncodeName(n)|) <==> !n.Mixed?
  {
    hide EncodeLabels, SkipLabels, At;
    FirstOfName(data, off, n);
    match n
    case Pointer(_, _) =>
    case Labels(labels) =>
      SkipStopsAfter(data, off, labels);
    case Mixed(first, hi, lo) =>
      MixedNameLeaps(data, off, first, hi, lo);
  }

  lemma RecordAt(data: seq<Byte>, off: nat, a: Record)
    requires ValidRecord(a) && At(data, off, EncodeRecord(a))
    ensures ReadRecord(data, off) == Ok(Parsed(AddressesOf(a), off + |EncodeRecord(a)|))
  {
    hide At, EncodeName, Fixed, NameEnd, Read16;
    var name := EncodeName(a.name);
    var e := off + |name|;
    AtSplit(data, off, name, Fixed(a) + a.rdata);
    AtSplit(data, e, Fixed(a), a.rdata);
    NameSkippedIff(data, off, a.name);
    FixedFields(data, e, a);
    AtRange(data, e, Fixed(a));
    if |a.rdata| == 4 {
      SliceFourAt(data, e + 10, a.rdata);
    }
  }

  lemma SliceFourAt(data: seq<Byte>, off: nat, x: seq<Byte>)
    requires |x| == 4 && At(data, off, x)
    ensures off <= |data| && SliceFour(data, off) == x
  {
  }

  lemma {:induction false} RecordsAt(data: seq<Byte>, off: nat, answers: seq<Record>)
    requires ValidRecords(answers) && At(data, off, EncodeRecords(answers))
    ensures ReadAnswers(data, off, |answers|) == Ok(Addresses(answers))
    decreases |answers|
  {
    hide ReadRecord, EncodeRecord, At;
    if answers != [] {
      var first, rest := EncodeRecord(answers[0]), EncodeRecords(answers[1..]);
      AtSplit(data, off, first, rest);
      RecordAt(data, off, answers[0]);
      RecordsAt(data, off + |first|, answers[1..]);
    }
  }

  /** A response: header, one uncompressed question, answers, and any authority or additional bytes after them. */
  datatype Response = Response(id: nat, flags: nat, authorities: nat, additionals: nat,
                               qname: seq<seq<Byte>>, qtype: nat, qclass: nat,
                               answers: seq<Record>, trailer: seq<Byte>)

  predicate ValidResponse(m: Response) {
    && m.id < 0x1_0000 && m.flags < 0x1_0000 && m.authorities < 0x1_0000 && m.additionals < 0x1_0000
    && m.qtype < 0x1_0000 && m.qclass < 0x1_0000 && |m.answers| < 0x1_0000
    && ValidName(Labels(m.qname)) && ValidRecords(m.answers)
  }

  function ResponseHeader(m: Response): (h: seq<Byte>)
    requires ValidResponse(m)
    ensures |h| == HEADER
  {
    (U16(m.id) + U16(m.flags) + U16(1)) + (U16(|m.answers|) + (U16(m.authorities) + U16(m.additionals)))
  }

  function Encode(m: Response): seq<Byte>
    requires ValidResponse(m)
  {
    ResponseHeader(m) + (Question(m.qname, m.qtype, m.qclass) + (EncodeRecords(m.answers) + m.trailer))
  }

  lemma AnswerCount(data: seq<Byte>, m: Response)
    requires ValidResponse(m) && At(data, 0, ResponseHeader(m))
    ensures Read16(data, 6) == |m.answers|
  {
    AtSplit(data, 0, U16(m.id) + U16(m.flags) + U16(1), U16(|m.answers|) + (U16(m.authorities) + U16(m.additionals)));
    AtSplit(data, 6, U16(|m.answers|), U16(m.authorities) + U16(m.additionals));
    Read16At(data, 6, |m.answers|);
  }

  lemma QuestionAt(data: seq<Byte>, m: Response)
    requires ValidResponse(m) && At(data, HEADER, Question(m.qname, m.qtype, m.qclass))
    ensures SkipLabels(data, HEADER) == Some(HEADER + |Question(m.qname, m.qtype, m.qclass)| - 5)
  {
    AtSplit(data, HEADER, EncodeLabels(m.qname) + [0], U16(m.qtype) + U16(m.qclass));
    SkipStopsAfter(data, HEADER, m.qname);
  }

  /** Every well-formed response parses to exactly its A-record addresses, in order. */
  lemma ParsesEveryResponse(m: Response)
    requires ValidResponse(m)
    ensures Parse(Encode(m)) == Ok(Addresses(m.answers))
  {
    hide Question, ResponseHeader, EncodeRecords, Addresses, SkipLabels, ReadAnswers, Read16;
    var data := Encode(m);
    var question := Question(m.qname, m.qtype, m.qclass);
    assert At(data, 0, data);
    AtSplit(data, 0, ResponseHeader(m), question + (EncodeRecords(m.answers) + m.trailer));
    AtSplit(data, HEADER, question, EncodeRecords(m.answers) + m.trailer);
    AtSplit(data, HEADER + |question|, EncodeRecords(m.answers), m.trailer);
    AnswerCount(data, m);
    QuestionAt(data, m);
    RecordsAt(data, HEADER + |question|, m.answers);
  }

  // ----- Cut responses

  lemma {:induction false} SkipPrefix(data: seq<Byte>, n: nat, off: nat)
    requires n <= |data|
    ensures SkipLabels(data[..n], off).Some? ==> SkipLabels(data, off) == SkipLabels(data[..n], off)
    decreases n - off
  {
    if off < n && data[off] != 0 {
      SkipPrefix(data, n, off + data[off] + 1);
    }
  }

  /** A record read from a cut datagram has its name and fixed fields before the cut, and ends where it ends uncut. */
  lemma RecordPrefix(data: seq<Byte>, n: nat, off: nat)
    requires n <= |data| && ReadRecord(data[..n], off).Ok?
    ensures NameEnd(data, off).Some? && NameEnd(data, off).value + 10 <= n
    ensures ReadRecord(data, off).Ok? && ReadRecord(data, off).value.next == ReadRecord(data[..n], off).value.next
  {
    hide SkipLabels;
    SkipPrefix(data, n, off);
  }

  /** Offset of the data of the last answer, counted from the first. */
  function LastData(answers: seq<Record>): int
    requires answers != [] && ValidRecords(answers)
  {
    |EncodeRecords(answers)| - |answers[|answers| - 1].rdata|
  }

  lemma LastDataStep(answers: seq<Record>)
    requires |answers| >= 2 && ValidRecords(answers)
    ensures LastData(answers) == |EncodeRecord(answers[0])| + LastData(answers[1..])
  {
    hide EncodeRecord;
  }

  lemma LastDataOne(answers: seq<Record>)
    requires |answers| == 1 && ValidRecords(answers)
    ensures LastData(answers) == |EncodeName(answers[0].name)| + 10
  {
    hide EncodeName, Fixed;
    assert EncodeRecords(answers[1..]) == [];
  }

  lemma {:induction false} AnswersPrefix(data: seq<Byte>, n: nat, off: nat, answers: seq<Record>)
    requires n <= |data| && answers != [] && ValidRecords(answers) && At(data, off, EncodeRecords(answers))
    requires ReadAnswers(data[..n], off, |answers|).Ok?
    ensures off + LastData(answers) <= n
    decreases |answers|
  {
    hide ReadRecord, EncodeRecord, At, LastData, EncodeName, NameEnd;
    var first, rest := EncodeRecord(answers[0]), EncodeRecords(answers[1..]);
    AtSplit(data, off, first, rest);
    RecordAt(data, off, answers[0]);
    RecordPrefix(data, n, off);
    if |answers| == 1 {
      LastDataOne(answers);
      NameOfRecord(data, off, answers[0]);
    } else {
      LastDataStep(answers);
      AnswersPrefix(data, n, off + |first|, answers[1..]);
    }
  }

  lemma NameOfRecord(data: seq<Byte>, off: nat, a: Record)
    requires ValidRecord(a) && At(data, off, EncodeRecord(a))
    ensures NameEnd(data, off) == Some(off + |EncodeName(a.name)|)
  {
    hide At, EncodeName, Fixed, NameEnd;
    AtSplit(data, off, EncodeName(a.name), Fixed(a) + a.rdata);
    NameSkippedIff(data, off, a.name);
  }

  /** A response cut anywhere before the data of its last answer is refused, never read as a shorter answer. */
  lemma CutIsRefused(m: Response, n: nat)
    requires ValidResponse(m) && m.answers != []
    requires n < HEADER + |Question(m.qname, m.qtype, m.qclass)| + LastData(m.answers)
    ensures n <= |Encode(m)| && Parse(Encode(m)[..n]).Err?
  {
    hide Question, ResponseHeader, EncodeRecords, SkipLabels, ReadAnswers, Read16;
    var data := Encode(m);
    var question := Question(m.qname, m.qtype, m.qclass);
    assert At(data, 0, data);
    AtSplit(data, 0, ResponseHeader(m), question + (EncodeRecords(m.answers) + m.trailer));
    AtSplit(data, HEADER, question, EncodeRecords(m.answers) + m.trailer);
    AtSplit(data, HEADER + |question|, EncodeRecords(m.answers), m.trailer);
    var cut := data[..n];
    SkipPrefix(data, n, HEADER);
    if SkipLabels(cut, HEADER).Some? {
      QuestionAt(data, m);
      AnswerCount(data, m);
      SameRead16(data, n, 6);
      if ReadAnswers(cut, HEADER + |question|, |m.answers|).Ok? {
        AnswersPrefix(data, n, HEADER + |question|, m.answers);
        assert false;
      }
    }
  }

  lemma SameRead16(data: seq<Byte>, n: nat, off: nat)
    requires off + 2 <= n <= |data|
    ensures Read16(data[..n], off) == Read16(data, off)
  {
  }

  /** A 39-byte response: question `com`, one A record with address 1.2.3.4 whose name is `a` followed by a pointer to
      the question. */
  function MixedResponse(): seq<Byte> {
    [0xaa, 0xbb, 0x81, 0x80, 0, 1, 0, 1, 0, 0, 0, 0]
    + [3, 99, 111, 109, 0, 0, 1, 0, 1]
    + [1, 97, 192, 12] + [0, 1, 0, 1, 0, 0, 0, 60, 0, 4, 1, 2, 3, 4]
  }

  /** The response holds a valid name and a whole record, and the parser fails on it. */
  lemma MixedResponseFails()
    ensures var name := Mixed([[97]], 192, 12);
            && ValidName(name) && At(MixedResponse(), 21, EncodeName(name)) && |MixedResponse()| == 21 + |EncodeName(name)| + 14
    ensures Parse(MixedResponse()) == Err(IndexError)
  {
    hide SkipLabels, MixedResponse, EncodeLabels;
    var data := MixedResponse();
    MixedBytes();
    EncodeOne([97]);
    SkipOne(data, 12);
    SkipZero(data, 16);
    FirstOfName(data, 21, Mixed([[97]], 192, 12));
    MixedNameLeaps(data, 21, [[97]], 192, 12);
    SkipPast(data, 216);
    FirstAnswerFails(data, 16);
  }

  lemma MixedBytes()
    ensures var data := MixedResponse();
            && |data| == 39 && data[6] == 0 && data[7] == 1 && data[12] == 3 && data[16] == 0
            && data[21..25] == [1] + [97] + [192, 12]
  {
  }

  lemma FirstAnswerFails(data: seq<Byte>, z: nat)
    requires SkipLabels(data, HEADER) == Some(z) && Read16(data, 6) >= 1 && NameEnd(data, z + 5) == None
    ensures Parse(data) == Err(IndexError)
  {
    hide SkipLabels, Read16, NameEnd;
  }

  lemma SkipPast(data: seq<Byte>, off: nat)
    requires off >= |data|
    ensures SkipLabels(data, off) == None
  {
  }

  /** The query is itself a message of that format: id 0xaabb, recursion desired, one question of type A and class
      IN, nothing else. So it parses, to no address at all. */
  lemma QueryIsMessage(host: seq<Byte>)
    requires ValidName(Labels(SplitDots(host)))
    ensures var m := Response(0xaabb, 0x0100, 0, 0, SplitDots(host), 1, 1, [], []);
            && ValidResponse(m) && LabelsFit(SplitDots(host))
            && QueryHeader() + Question(SplitDots(host), 1, 1) == Encode(m)
            && Parse(QueryHeader() + Question(SplitDots(host), 1, 1)) == Ok([])
  {
    hide SplitDots, Parse, Question, ResponseHeader, QueryHeader;
    var m := Response(0xaabb, 0x0100, 0, 0, SplitDots(host), 1, 1, [], []);
    ParsesEveryResponse(m);
    QueryHeaderIs(m);
    var question := Question(m.qname, 1, 1);
    assert question + (EncodeRecords(m.answers) + m.trailer) == question;
  }

  lemma QueryHeaderIs(m: Response)
    requires ValidResponse(m)
    requires m.id == 0xaabb && m.flags == 0x0100 && m.authorities == 0 && m.additionals == 0 && m.answers == []
    ensures ResponseHeader(m) == QueryHeader()
  {
  }
}
