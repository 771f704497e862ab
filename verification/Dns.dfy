/** The bootstrap resolver: its query, the replies it accepts, and the ECH configuration it reads out of them. */
module Dns {
  import opened Wrappers
  import opened Varint

  type Bytes = seq<byte>

  const DOT: byte := 46
  const RR_HTTPS: nat := 65
  const SVCPARAM_ECH: nat := 5
  const HEADER: nat := 12

  function U16(s: Bytes, at: nat): nat
    requires at + 2 <= |s|
  {
    256 * (s[at] as int) + s[at + 1] as int
  }

  function ToU16(v: nat): (s: Bytes)
    requires v < 0x1_0000
    ensures |s| == 2 && U16(s, 0) == v
  {
    [v / 256, v % 256]
  }

  /** `s` stands in `msg` at `pos`. */
  predicate At(msg: Bytes, pos: nat, s: Bytes) {
    pos + |s| <= |msg| && msg[pos..pos + |s|] == s
  }

  lemma AtSplit(msg: Bytes, pos: nat, a: Bytes, b: Bytes)
    requires At(msg, pos, a + b)
    ensures At(msg, pos, a) && At(msg, pos + |a|, b)
  {
    assert msg[pos..pos + |a| + |b|][..|a|] == a;
    assert msg[pos..pos + |a| + |b|][|a|..] == b;
  }

  lemma AtU16(msg: Bytes, pos: nat, v: nat)
    requires v < 0x1_0000 && At(msg, pos, ToU16(v))
    ensures U16(msg, pos) == v
  {
    assert msg[pos..pos + 2][0] == msg[pos] && msg[pos..pos + 2][1] == msg[pos + 1];
  }

  lemma AtByte(msg: Bytes, pos: nat, b: byte)
    requires At(msg, pos, [b])
    ensures msg[pos] == b
  {
    assert msg[pos..pos + 1][0] == msg[pos];
  }

  // ---------------------------------------------------------------- names and questions

  /** The nonempty pieces of a name between its dots. */
  function Labels(name: Bytes): seq<Bytes> {
    LabelsAfter([], name)
  }

  /** The labels of `name`, with `start` already read of the first. */
  function LabelsAfter(start: Bytes, name: Bytes): seq<Bytes>
    decreases |name|
  {
    if name == [] then if start == [] then [] else [start]
    else if name[0] == DOT then (if start == [] then [] else [start]) + LabelsAfter([], name[1..])
    else LabelsAfter(start + [name[0]], name[1..])
  }

  lemma {:induction false} LabelsNonempty(start: Bytes, name: Bytes)
    ensures forall i :: 0 <= i < |LabelsAfter(start, name)| ==> LabelsAfter(start, name)[i] != []
    decreases |name|
  {
    if name != [] {
      if name[0] == DOT { LabelsNonempty([], name[1..]); } else { LabelsNonempty(start + [name[0]], name[1..]); }
    }
  }

  /** Labels as the query writes them: a length byte, which holds only the low byte of the length, and the label. */
  function EncodeLabels(labels: seq<Bytes>): Bytes {
    if labels == [] then [] else [|labels[0]| % 256] + labels[0] + EncodeLabels(labels[1..])
  }

  function Question(name: Bytes, qtype: nat): Bytes
    requires qtype < 0x1_0000
  {
    EncodeLabels(Labels(name)) + [0] + ToU16(qtype) + [0, 1]
  }

  lemma {:induction false} EncodeLabelsSnoc(labels: seq<Bytes>, piece: Bytes)
    ensures EncodeLabels(labels + [piece]) == EncodeLabels(labels) + ([|piece| % 256] + piece)
  {
    if labels == [] {
      assert labels + [piece] == [piece];
    } else {
      assert (labels + [piece])[1..] == labels[1..] + [piece];
      EncodeLabelsSnoc(labels[1..], piece);
    }
  }

  method BuildQuery(name: Bytes, qtype: nat, id: nat) returns (q: Bytes)
    requires qtype < 0x1_0000 && id < 0x1_0000
    ensures q == ToU16(id) + [1, 0, 0, 1, 0, 0, 0, 0, 0, 0] + Question(name, qtype)
  {
    var head := ToU16(id) + [1, 0] + [0, 1] + [0, 0, 0, 0, 0, 0];
    q := head;
    var labels := Labels(name);
    for i := 0 to |labels|
      invariant q == head + EncodeLabels(labels[..i])
    {
      EncodeLabelsSnoc(labels[..i], labels[i]);
      assert labels[..i + 1] == labels[..i] + [labels[i]];
      q := q + [|labels[i]| % 256] + labels[i];
    }
    assert labels[..|labels|] == labels;
    q := q + [0] + ToU16(qtype) + [0, 1];
  }

  function Lower(b: byte): byte {
    if 65 <= b <= 90 then b + 32 else b
  }

  /** Equal but for the case of ASCII letters. */
  predicate SameIgnoringCase(a: Bytes, b: Bytes) {
    |a| == |b| && forall i :: 0 <= i < |a| ==> Lower(a[i]) == Lower(b[i])
  }

  /** Where the labels end if they stand in `msg` at `pos`, whatever their case. */
  function LabelsEnd(msg: Bytes, pos: nat, labels: seq<Bytes>): (r: Option<nat>)
    requires pos <= |msg|
    ensures r.Some? ==> pos <= r.value <= |msg|
    decreases |labels|
  {
    if labels == [] then Some(pos)
    else
      var len := |labels[0]|;
      if pos >= |msg| || msg[pos] as nat != len || pos + 1 + len > |msg|
         || !SameIgnoringCase(msg[pos + 1..pos + 1 + len], labels[0]) then None
      else LabelsEnd(msg, pos + 1 + len, labels[1..])
  }

  predicate HeaderMatches(msg: Bytes, id: nat) {
    |msg| >= HEADER && U16(msg, 0) == id && msg[2] >= 128 && U16(msg, 4) == 1
  }

  /** A reply to this query: header, name, and type, whatever the class. */
  predicate Matches(msg: Bytes, id: nat, name: Bytes, qtype: nat) {
    && HeaderMatches(msg, id)
    && var end := LabelsEnd(msg, HEADER, Labels(name));
       end.Some? && end.value + 5 <= |msg| && msg[end.value] == 0 && U16(msg, end.value + 1) == qtype
  }

  method ResponseMatches(msg: Bytes, id: nat, name: Bytes, qtype: nat) returns (r: bool)
    ensures r <==> Matches(msg, id, name, qtype)
  {
    if |msg| < 12 {
      return false;
    }
    if U16(msg, 0) != id || msg[2] / 128 == 0 || U16(msg, 4) != 1 {
      return false;
    }
    var pos := 12;
    var labels := Labels(name);
    assert labels[0..] == labels;
    for i := 0 to |labels|
      invariant 12 <= pos <= |msg|
      invariant LabelsEnd(msg, pos, labels[i..]) == LabelsEnd(msg, HEADER, labels)
    {
      assert labels[i..][0] == labels[i] && labels[i..][1..] == labels[i + 1..];
      if pos >= |msg| || msg[pos] as nat != |labels[i]| {
        return false;
      }
      pos := pos + 1;
      var end := pos + |labels[i]|;
      if end > |msg| || !SameIgnoringCase(msg[pos..end], labels[i]) {
        return false;
      }
      pos := end;
    }
    assert labels[|labels|..] == [];
    if pos >= |msg| || msg[pos] != 0 {
      return false;
    }
    pos := pos + 1;
    if pos + 4 > |msg| {
      return false;
    }
    return U16(msg, pos) == qtype;
  }

  ghost predicate ShortLabels(labels: seq<Bytes>) {
    forall i :: 0 <= i < |labels| ==> |labels[i]| <= 255
  }

  lemma ShortHead(labels: seq<Bytes>)
    requires labels != []
    ensures ShortLabels(labels) <==> |labels[0]| <= 255 && ShortLabels(labels[1..])
  {
    assert forall i :: 1 <= i < |labels| ==> labels[i] == labels[1..][i - 1];
  }

  lemma OneLabelAt(msg: Bytes, pos: nat, piece: Bytes, more: Bytes)
    requires At(msg, pos, [|piece| % 256] + piece + more)
    ensures msg[pos] == |piece| % 256 && At(msg, pos + 1, piece) && At(msg, pos + 1 + |piece|, more)
  {
    assert [|piece| % 256] + piece + more == [|piece| % 256] + (piece + more);
    AtSplit(msg, pos, [|piece| % 256], piece + more);
    AtByte(msg, pos, |piece| % 256);
    AtSplit(msg, pos + 1, piece, more);
  }

  /** Encoded labels are found where they stand exactly when every length fits its byte. */
  lemma {:induction false} LabelsFoundIff(msg: Bytes, pos: nat, labels: seq<Bytes>)
    requires At(msg, pos, EncodeLabels(labels))
    ensures LabelsEnd(msg, pos, labels) == if ShortLabels(labels) then Some(pos + |EncodeLabels(labels)|) else None
    decreases |labels|
  {
    if labels != [] {
      var piece, rest := labels[0], labels[1..];
      OneLabelAt(msg, pos, piece, EncodeLabels(rest));
      ShortHead(labels);
      if |piece| <= 255 {
        LabelsFoundIff(msg, pos + 1 + |piece|, rest);
      }
    }
  }

  /** A reply that echoes the question is accepted exactly when no label is longer than its length byte can say. */
  lemma EchoAcceptedIff(msg: Bytes, id: nat, name: Bytes, qtype: nat)
    requires HeaderMatches(msg, id) && qtype < 0x1_0000 && At(msg, HEADER, Question(name, qtype))
    ensures Matches(msg, id, name, qtype) <==> ShortLabels(Labels(name))
  {
    hide Labels, EncodeLabels, At, ToU16;
    var q := EncodeLabels(Labels(name));
    var end := HEADER + |q|;
    AtSplit(msg, HEADER, q + [0] + ToU16(qtype), [0, 1]);
    AtSplit(msg, HEADER, q + [0], ToU16(qtype));
    AtSplit(msg, HEADER, q, [0]);
    AtByte(msg, end, 0);
    AtU16(msg, end + 1, qtype);
    LabelsFoundIff(msg, HEADER, Labels(name));
    EnoughRoom(msg, end + 3);
  }

  /** A name that is one label of 256 bytes: the query writes its length as zero, and its own echo is refused. */
  lemma LongLabelRefused(msg: Bytes, id: nat, name: Bytes, qtype: nat)
    requires |name| == 256 && DOT !in name && id < 0x1_0000 && qtype < 0x1_0000
    requires msg == ToU16(id) + [0x80, 0, 0, 1, 0, 0, 0, 0, 0, 0] + Question(name, qtype)
    ensures HeaderMatches(msg, id) && At(msg, HEADER, Question(name, qtype)) && !Matches(msg, id, name, qtype)
  {
    OneLabel([], name);
    assert [] + name == name;
    assert msg[2] == 0x80 && U16(msg, 0) == id && U16(msg, 4) == 1;
    assert msg[HEADER..] == Question(name, qtype);
    assert |Labels(name)[0]| > 255;
    EchoAcceptedIff(msg, id, name, qtype);
  }

  lemma {:induction false} OneLabel(start: Bytes, name: Bytes)
    requires DOT !in name
    ensures LabelsAfter(start, name) == if start + name == [] then [] else [start + name]
    decreases |name|
  {
    if name == [] {
      assert start + name == start;
    } else {
      OneLabel(start + [name[0]], name[1..]);
      assert start + [name[0]] + name[1..] == start + name;
    }
  }

  lemma EnoughRoom(msg: Bytes, pos: nat)
    requires At(msg, pos, [0, 1])
    ensures pos + 2 <= |msg|
  {
  }

  lemma {:induction false} LabelsTakeRoom(msg: Bytes, pos: nat, labels: seq<Bytes>)
    requires pos <= |msg| && LabelsEnd(msg, pos, labels).Some?
    ensures LabelsEnd(msg, pos, labels).value == pos + |EncodeLabels(labels)|
    decreases |labels|
  {
    if labels != [] {
      LabelsTakeRoom(msg, pos + 1 + |labels[0]|, labels[1..]);
    }
  }

  /** No message is accepted before its whole header and question are there, whatever the name. */
  lemma TruncationRejected(msg: Bytes, id: nat, name: Bytes, qtype: nat)
    requires qtype < 0x1_0000
    ensures |msg| < HEADER + |Question(name, qtype)| ==> !Matches(msg, id, name, qtype)
  {
    hide Labels;
    if Matches(msg, id, name, qtype) {
      LabelsTakeRoom(msg, HEADER, Labels(name));
    }
  }

  // ---------------------------------------------------------------- answers

  /** The position behind a name, compressed or not. */
  function SkipName(buf: Bytes, pos: nat): (r: Option<nat>)
    ensures r.Some? ==> pos < r.value <= |buf| + 1
    decreases |buf| - pos
  {
    if pos >= |buf| then None
    else
      var len := buf[pos];
      if len >= 0xc0 then Some(pos + 2)
      else if len == 0 then Some(pos + 1)
      else SkipName(buf, pos + 1 + len)
  }

  /** The first ECH parameter between `p` and `end`. */
  function EchParam(msg: Bytes, p: nat, end: nat): Option<Bytes>
    requires end <= |msg|
    decreases end - p
  {
    if p + 4 > end then None
    else
      var len := U16(msg, p + 2);
      if p + 4 + len > end then None
      else if U16(msg, p) == SVCPARAM_ECH then Some(msg[p + 4..p + 4 + len])
      else EchParam(msg, p + 4 + len, end)
  }

  function SvcParamsEch(msg: Bytes, start: nat, rdlen: nat): Option<Bytes>
    requires start + rdlen <= |msg|
  {
    if rdlen < 2 then None
    else
      match SkipName(msg, start + 2)
      case None => None
      case Some(p) => EchParam(msg, p, start + rdlen)
  }

  function SkipQuestions(msg: Bytes, pos: nat, n: nat): Option<nat>
    decreases n
  {
    if n == 0 then Some(pos)
    else
      match SkipName(msg, pos)
      case None => None
      case Some(p) => SkipQuestions(msg, p + 4, n - 1)
  }

  /** The record at `pos`: its type, and where its data starts and ends. */
  function RecordAt(msg: Bytes, pos: nat): (r: Option<(nat, nat, nat)>)
    ensures r.Some? ==> pos < r.value.1 <= r.value.2 <= |msg|
  {
    match SkipName(msg, pos)
    case None => None
    case Some(p) =>
      if p + 10 > |msg| || p + 10 + U16(msg, p + 8) > |msg| then None
      else Some((U16(msg, p), p + 10, p + 10 + U16(msg, p + 8)))
  }

  function EchInAnswers(msg: Bytes, pos: nat, n: nat): Option<Bytes>
    decreases n
  {
    if n == 0 then None
    else
      match RecordAt(msg, pos)
      case None => None
      case Some((rtype, start, end)) =>
        var ech := if rtype == RR_HTTPS then SvcParamsEch(msg, start, end - start) else None;
        if ech.Some? then ech else EchInAnswers(msg, end, n - 1)
  }

  function HttpsEch(msg: Bytes): Option<Bytes> {
    if |msg| < HEADER then None
    else
      match SkipQuestions(msg, HEADER, U16(msg, 4))
      case None => None
      case Some(pos) => EchInAnswers(msg, pos, U16(msg, 6))
  }

  method SkipNameFrom(buf: Bytes, start: nat) returns (r: Option<nat>)
    ensures r == SkipName(buf, start)
  {
    var pos := start;
    while true
      invariant SkipName(buf, pos) == SkipName(buf, start)
      decreases |buf| - pos
    {
      if pos >= |buf| {
        return None;
      }
      var len := buf[pos];
      if len / 64 == 3 {
        return Some(pos + 2);
      }
      if len == 0 {
        return Some(pos + 1);
      }
      pos := pos + 1 + len;
    }
  }

  method ParseSvcParamsEch(msg: Bytes, start: nat, rdlen: nat) returns (r: Option<Bytes>)
    requires start + rdlen <= |msg|
    ensures r == SvcParamsEch(msg, start, rdlen)
  {
    var end := start + rdlen;
    if start + 2 > end {
      return None;
    }
    var first := SkipNameFrom(msg, start + 2);
    if first.None? {
      return None;
    }
    var p := first.value;
    while p + 4 <= end
      invariant EchParam(msg, p, end) == EchParam(msg, first.value, end)
      decreases end - p
    {
      var key, len := U16(msg, p), U16(msg, p + 2);
      p := p + 4;
      if p + len > end {
        return None;
      }
      if key == SVCPARAM_ECH {
        return Some(msg[p..p + len]);
      }
      p := p + len;
    }
    return None;
  }

  method ParseHttpsEch(msg: Bytes) returns (r: Option<Bytes>)
    ensures r == HttpsEch(msg)
  {
    if |msg| < 12 {
      return None;
    }
    var qd, an := U16(msg, 4), U16(msg, 6);
    var pos: nat := 12;
    for i := 0 to qd
      invariant SkipQuestions(msg, HEADER, qd) == SkipQuestions(msg, pos, qd - i)
    {
      var next := SkipNameFrom(msg, pos);
      if next.None? {
        return None;
      }
      pos := next.value + 4;
    }
    ghost var answers := pos;
    for i := 0 to an
      invariant EchInAnswers(msg, answers, an) == EchInAnswers(msg, pos, an - i)
    {
      var next := SkipNameFrom(msg, pos);
      if next.None? {
        return None;
      }
      pos := next.value;
      if pos + 10 > |msg| {
        return None;
      }
      var rtype, rdlen := U16(msg, pos), U16(msg, pos + 8);
      pos := pos + 10;
      if pos + rdlen > |msg| {
        return None;
      }
      if rtype == RR_HTTPS {
        var ech := ParseSvcParamsEch(msg, pos, rdlen);
        if ech.Some? {
          return ech;
        }
      }
      pos := pos + rdlen;
    }
    return None;
  }

  // ---------------------------------------------------------------- well-formed messages

  /** A name on the wire (section 4.1.4 of RFC 1035): labels, then the root or a pointer. */
  datatype WireName = WireName(labels: seq<Bytes>, pointer: Option<(byte, byte)>) {
    ghost predicate Valid() {
      && (forall i :: 0 <= i < |labels| ==> 1 <= |labels[i]| <= 63)
      && (pointer.Some? ==> pointer.value.0 >= 0xc0)
    }

    function Text(): (s: Bytes)
      ensures s != []
    {
      EncodeLabels(labels) + if pointer.Some? then [pointer.value.0, pointer.value.1] else [0]
    }
  }

  /** One service parameter (section 2.2 of RFC 9460). */
  datatype Param = Param(key: nat, value: Bytes) {
    predicate Valid() {
      key < 0x1_0000 && |value| < 0x1_0000
    }

    function Text(): Bytes
      requires Valid()
    {
      ToU16(key) + ToU16(|value|) + value
    }
  }

  ghost predicate AllParams(params: seq<Param>) {
    forall i :: 0 <= i < |params| ==> params[i].Valid()
  }

  function ParamsText(params: seq<Param>): Bytes
    requires AllParams(params)
  {
    if params == [] then [] else params[0].Text() + ParamsText(params[1..])
  }

  /** The value of the first ECH parameter. */
  function FirstEch(params: seq<Param>): Option<Bytes> {
    if params == [] then None
    else if params[0].key == SVCPARAM_ECH then Some(params[0].value)
    else FirstEch(params[1..])
  }

  datatype Data = Service(priority: nat, target: WireName, params: seq<Param>) | Raw(bytes: Bytes) {
    ghost predicate Valid() {
      match this
      case Service(priority, target, params) => priority < 0x1_0000 && target.Valid() && AllParams(params)
      case Raw(_) => true
    }

    function Text(): Bytes
      requires Valid()
    {
      match this
      case Service(priority, target, params) => ToU16(priority) + target.Text() + ParamsText(params)
      case Raw(bytes) => bytes
    }
  }

  datatype Record = Record(name: WireName, rtype: nat, classAndTtl: Bytes, data: Data) {
    /** An HTTPS record carries service data; any other record may carry anything. */
    ghost predicate Valid() {
      && name.Valid() && rtype < 0x1_0000 && |classAndTtl| == 6 && data.Valid() && |data.Text()| < 0x1_0000
      && (rtype == RR_HTTPS ==> data.Service?)
    }

    function Text(): Bytes
      requires Valid()
    {
      name.Text() + ToU16(rtype) + classAndTtl + ToU16(|data.Text()|) + data.Text()
    }
  }

  datatype QuestionEntry = QuestionEntry(name: WireName, typeAndClass: Bytes) {
    ghost predicate Valid() {
      name.Valid() && |typeAndClass| == 4
    }

    function Text(): Bytes {
      name.Text() + typeAndClass
    }
  }

  ghost predicate AllQuestions(qs: seq<QuestionEntry>) {
    forall i :: 0 <= i < |qs| ==> qs[i].Valid()
  }

  ghost predicate AllRecords(rs: seq<Record>) {
    forall i :: 0 <= i < |rs| ==> rs[i].Valid()
  }

  function QuestionsText(qs: seq<QuestionEntry>): Bytes {
    if qs == [] then [] else qs[0].Text() + QuestionsText(qs[1..])
  }

  function RecordsText(rs: seq<Record>): Bytes
    requires AllRecords(rs)
  {
    if rs == [] then [] else rs[0].Text() + RecordsText(rs[1..])
  }

  /** The first ECH parameter of the first HTTPS record that has one. */
  function FirstEchOf(rs: seq<Record>): Option<Bytes> {
    if rs == [] then None
    else
      var mine := if rs[0].rtype == RR_HTTPS && rs[0].data.Service? then FirstEch(rs[0].data.params) else None;
      if mine.Some? then mine else FirstEchOf(rs[1..])
  }

  lemma SkipsTail(msg: Bytes, pos: nat, name: WireName)
    requires name.Valid() && name.labels == [] && At(msg, pos, name.Text())
    ensures SkipName(msg, pos) == Some(pos + |name.Text()|)
  {
    assert EncodeLabels(name.labels) == [];
    assert msg[pos..pos + |name.Text()|][0] == msg[pos];
  }

  lemma {:induction false} SkipsName(msg: Bytes, pos: nat, name: WireName)
    requires name.Valid() && At(msg, pos, name.Text())
    ensures SkipName(msg, pos) == Some(pos + |name.Text()|)
    decreases |name.labels|
  {
    if name.labels == [] {
      SkipsTail(msg, pos, name);
    } else {
      hide At;
      var piece, rest := name.labels[0], WireName(name.labels[1..], name.pointer);
      assert name.Text() == [|piece| % 256] + piece + rest.Text();
      OneLabelAt(msg, pos, piece, rest.Text());
      SkipsName(msg, pos + 1 + |piece|, rest);
    }
  }

  lemma {:induction false} FindsEchParam(msg: Bytes, pos: nat, params: seq<Param>)
    requires AllParams(params) && At(msg, pos, ParamsText(params))
    ensures pos + |ParamsText(params)| <= |msg|
    ensures EchParam(msg, pos, pos + |ParamsText(params)|) == FirstEch(params)
    decreases |params|
  {
    if params == [] {
      hide Param.Text, U16, ToU16;
      assert ParamsText(params) == [];
    } else {
      hide EchParam, At, Param.Text, U16, ToU16;
      var one, rest := params[0], params[1..];
      assert one.Valid() && AllParams(rest);
      AtSplit(msg, pos, one.Text(), ParamsText(rest));
      FindsEchParam(msg, pos + |one.Text()|, rest);
      EchParamStep(msg, pos, one, pos + |ParamsText(params)|);
    }
  }

  lemma EchParamStep(msg: Bytes, pos: nat, one: Param, end: nat)
    requires one.Valid() && At(msg, pos, one.Text()) && pos + |one.Text()| <= end <= |msg|
    ensures EchParam(msg, pos, end) ==
            if one.key == SVCPARAM_ECH then Some(one.value) else EchParam(msg, pos + |one.Text()|, end)
  {
    hide At;
    ParamAt(msg, pos, one);
  }

  lemma ParamAt(msg: Bytes, pos: nat, one: Param)
    requires one.Valid() && At(msg, pos, one.Text())
    ensures U16(msg, pos) == one.key && U16(msg, pos + 2) == |one.value|
    ensures msg[pos + 4..pos + 4 + |one.value|] == one.value
  {
    AtSplit(msg, pos, ToU16(one.key) + ToU16(|one.value|), one.value);
    AtSplit(msg, pos, ToU16(one.key), ToU16(|one.value|));
    AtU16(msg, pos, one.key);
    AtU16(msg, pos + 2, |one.value|);
  }

  /** Service data in its place yields its first ECH parameter. */
  lemma FindsEch(msg: Bytes, pos: nat, d: Data)
    requires d.Service? && d.Valid() && At(msg, pos, d.Text())
    ensures SvcParamsEch(msg, pos, |d.Text()|) == FirstEch(d.params)
  {
    hide EchParam, SkipName, FirstEch;
    var head, name, params := ToU16(d.priority), d.target.Text(), ParamsText(d.params);
    AtSplit(msg, pos, head + name, params);
    AtSplit(msg, pos, head, name);
    SkipsName(msg, pos + 2, d.target);
    FindsEchParam(msg, pos + 2 + |name|, d.params);
  }

  lemma FindsRecord(msg: Bytes, pos: nat, r: Record)
    requires r.Valid() && At(msg, pos, r.Text())
    ensures var start := pos + |r.Text()| - |r.data.Text()|;
            RecordAt(msg, pos) == Some((r.rtype, start, pos + |r.Text()|)) && At(msg, start, r.data.Text())
  {
    hide SkipName, ToU16;
    var name, rtype, size, data := r.name.Text(), ToU16(r.rtype), ToU16(|r.data.Text()|), r.data.Text();
    AtSplit(msg, pos, name + rtype + r.classAndTtl + size, data);
    AtSplit(msg, pos, name + rtype + r.classAndTtl, size);
    AtSplit(msg, pos, name + rtype, r.classAndTtl);
    AtSplit(msg, pos, name, rtype);
    SkipsName(msg, pos, r.name);
    AtU16(msg, pos + |name|, r.rtype);
    AtU16(msg, pos + |name| + 8, |data|);
  }

  /** What one record adds to the search. */
  lemma FindsEchInOne(msg: Bytes, pos: nat, r: Record, n: nat)
    requires r.Valid() && At(msg, pos, r.Text())
    ensures var mine := if r.rtype == RR_HTTPS && r.data.Service? then FirstEch(r.data.params) else None;
            EchInAnswers(msg, pos, n + 1) ==
              if mine.Some? then mine else EchInAnswers(msg, pos + |r.Text()|, n)
  {
    hide RecordAt, SvcParamsEch, FirstEch, At, Record.Text, Data.Text;
    FindsRecord(msg, pos, r);
    if r.rtype == RR_HTTPS {
      FindsEch(msg, pos + |r.Text()| - |r.data.Text()|, r.data);
    }
  }

  lemma {:induction false} FindsEchInAnswers(msg: Bytes, pos: nat, rs: seq<Record>)
    requires AllRecords(rs) && At(msg, pos, RecordsText(rs))
    ensures EchInAnswers(msg, pos, |rs|) == FirstEchOf(rs)
    decreases |rs|
  {
    hide FirstEch, At, Record.Text, Data.Text;
    if rs == [] {
    } else {
      hide EchInAnswers;
      var r, rest := rs[0], rs[1..];
      AtSplit(msg, pos, r.Text(), RecordsText(rest));
      FindsEchInOne(msg, pos, r, |rest|);
      FindsEchInAnswers(msg, pos + |r.Text()|, rest);
    }
  }

  lemma {:induction false} SkipsQuestions(msg: Bytes, pos: nat, qs: seq<QuestionEntry>)
    requires AllQuestions(qs) && At(msg, pos, QuestionsText(qs))
    ensures SkipQuestions(msg, pos, |qs|) == Some(pos + |QuestionsText(qs)|)
    decreases |qs|
  {
    hide SkipName;
    if qs != [] {
      var q, rest := qs[0], qs[1..];
      assert q.Valid() && AllQuestions(rest);
      AtSplit(msg, pos, q.Text(), QuestionsText(rest));
      AtSplit(msg, pos, q.name.Text(), q.typeAndClass);
      SkipsName(msg, pos, q.name);
      SkipsQuestions(msg, pos + |q.Text()|, rest);
    }
  }

  /**
   On every well-formed reply, whatever sections follow its answers, the parser returns the first ECH
   parameter of the first HTTPS record that has one.
   */
  lemma EchOfWellFormed(msg: Bytes, qs: seq<QuestionEntry>, rs: seq<Record>)
    requires |msg| >= HEADER && U16(msg, 4) == |qs| && U16(msg, 6) == |rs|
    requires AllQuestions(qs) && AllRecords(rs)
    requires At(msg, HEADER, QuestionsText(qs) + RecordsText(rs))
    ensures HttpsEch(msg) == FirstEchOf(rs)
  {
    hide SkipQuestions, EchInAnswers, FirstEchOf, At, QuestionsText, RecordsText;
    AtSplit(msg, HEADER, QuestionsText(qs), RecordsText(rs));
    SkipsQuestions(msg, HEADER, qs);
    FindsEchInAnswers(msg, HEADER + |QuestionsText(qs)|, rs);
  }
}
