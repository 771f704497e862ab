/** Decoding the chunked transfer coding (section 7.1 of RFC 9112), as leniently as the API client does. */
module Chunked {
  import opened Wrappers
  import opened Varint

  const CR: byte := 13
  const LF: byte := 10
  const PLUS: byte := 43
  const SEMICOLON: byte := 59
  const USIZE_LIMIT: nat := 0x1_0000_0000_0000_0000

  predicate CrlfAt(s: seq<byte>, i: nat) {
    i + 1 < |s| && s[i] == CR && s[i + 1] == LF
  }

  /** Where the first CRLF at or after `from` starts. */
  function FirstCrlf(s: seq<byte>, from: nat): (r: Option<nat>)
    requires from <= |s|
    ensures r.Some? ==> from <= r.value && CrlfAt(s, r.value) && forall i :: from <= i < r.value ==> !CrlfAt(s, i)
    ensures r.None? ==> forall i :: from <= i ==> !CrlfAt(s, i)
    decreases |s| - from
  {
    if from + 1 >= |s| then None else if CrlfAt(s, from) then Some(from) else FirstCrlf(s, from + 1)
  }

  /** The white space of one, two and three bytes in UTF-8; bytes that spell no character are no white space. */
  predicate IsSpace(b: byte) {
    9 <= b <= 13 || b == 32
  }

  predicate IsSpace2(a: byte, b: byte) {
    a == 0xc2 && (b == 0x85 || b == 0xa0)
  }

  predicate IsSpace3(a: byte, b: byte, c: byte) {
    || (a == 0xe1 && b == 0x9a && c == 0x80)
    || (a == 0xe2 && b == 0x80 && (0x80 <= c <= 0x8a || c == 0xa8 || c == 0xa9 || c == 0xaf))
    || (a == 0xe2 && b == 0x81 && c == 0x9f)
    || (a == 0xe3 && b == 0x80 && c == 0x80)
  }

  /** How many bytes the white space character at the head of `s` takes, if there is one. */
  function LeadingSpace(s: seq<byte>): (n: nat)
    ensures n <= |s|
  {
    if |s| >= 1 && IsSpace(s[0]) then 1
    else if |s| >= 2 && IsSpace2(s[0], s[1]) then 2
    else if |s| >= 3 && IsSpace3(s[0], s[1], s[2]) then 3
    else 0
  }

  function TrailingSpace(s: seq<byte>): (n: nat)
    ensures n <= |s|
  {
    var k := |s|;
    if k >= 1 && IsSpace(s[k - 1]) then 1
    else if k >= 2 && IsSpace2(s[k - 2], s[k - 1]) then 2
    else if k >= 3 && IsSpace3(s[k - 3], s[k - 2], s[k - 1]) then 3
    else 0
  }

  function TrimStart(s: seq<byte>): seq<byte> {
    if LeadingSpace(s) > 0 then TrimStart(s[LeadingSpace(s)..]) else s
  }

  function TrimEnd(s: seq<byte>): seq<byte> {
    if TrailingSpace(s) > 0 then TrimEnd(s[..|s| - TrailingSpace(s)]) else s
  }

  /** The part of a line before its first semicolon. */
  function Token(line: seq<byte>): seq<byte> {
    if line == [] || line[0] == SEMICOLON then [] else [line[0]] + Token(line[1..])
  }

  function HexDigit(b: byte): Option<nat> {
    if 48 <= b <= 57 then Some(b - 48)
    else if 97 <= b <= 102 then Some(b - 87)
    else if 65 <= b <= 70 then Some(b - 55)
    else None
  }

  predicate AllHex(s: seq<byte>) {
    forall i :: 0 <= i < |s| ==> HexDigit(s[i]).Some?
  }

  function HexValue(s: seq<byte>): nat
    requires AllHex(s)
  {
    if s == [] then 0 else 16 * HexValue(s[..|s| - 1]) + HexDigit(s[|s| - 1]).value
  }

  /** A hexadecimal number as the standard library reads one: a plus sign is allowed, overflow is not. */
  function HexNumber(token: seq<byte>): Option<nat> {
    var digits := if token != [] && token[0] == PLUS then token[1..] else token;
    if digits == [] || !AllHex(digits) || HexValue(digits) >= USIZE_LIMIT then None else Some(HexValue(digits))
  }

  function ChunkSize(line: seq<byte>): Option<nat> {
    HexNumber(TrimEnd(TrimStart(Token(line))))
  }

  /** The next chunk of `body`: where its data lies, unless it is the last, malformed or cut short. */
  function NextChunk(body: seq<byte>): (r: Option<(nat, nat)>)
    ensures r.Some? ==> 2 <= r.value.0 < r.value.1 <= |body|
  {
    match FirstCrlf(body, 0)
    case None => None
    case Some(p) =>
      match ChunkSize(body[..p])
      case None => None
      case Some(n) => if n == 0 || p + 2 + n > |body| then None else Some((p + 2, p + 2 + n))
  }

  /** Everything the chunks of `body` carry, up to the first that is not whole. */
  function Decoded(body: seq<byte>): seq<byte>
    decreases |body|
  {
    match NextChunk(body)
    case None => []
    case Some((start, end)) => body[start..end] + if end + 2 < |body| then Decoded(body[end + 2..]) else []
  }

  /** What decoding from `cursor` on yields. */
  function DecodedFrom(body: seq<byte>, cursor: nat): seq<byte> {
    if cursor < |body| then Decoded(body[cursor..]) else []
  }

  /** One chunk, by its place in the body. */
  lemma DecodedStep(body: seq<byte>, cursor: nat)
    requires cursor < |body|
    ensures var next := NextChunk(body[cursor..]);
            DecodedFrom(body, cursor) ==
              if next.None? then []
              else body[cursor + next.value.0..cursor + next.value.1] + DecodedFrom(body, cursor + next.value.1 + 2)
  {
    hide NextChunk, Decoded;
    var left := body[cursor..];
    DecodedUnfolds(left);
    if NextChunk(left).Some? {
      var (start, end) := NextChunk(left).value;
      assert left[start..end] == body[cursor + start..cursor + end];
      if end + 2 < |left| {
        assert left[end + 2..] == body[cursor + end + 2..];
      }
    }
  }

  lemma DecodedUnfolds(body: seq<byte>)
    ensures var next := NextChunk(body);
            Decoded(body) == if next.None? then []
                else body[next.value.0..next.value.1] + DecodedFrom(body, next.value.1 + 2)
  {
    hide NextChunk;
  }

  method Dechunk(body: seq<byte>) returns (out: seq<byte>)
    ensures out == Decoded(body)
  {
    hide ChunkSize, FirstCrlf, Decoded, DecodedFrom;
    out := [];
    var cursor := 0;
    Whole(body);
    while cursor < |body|
      invariant out + DecodedFrom(body, cursor) == Decoded(body)
      decreases |body| - cursor
    {
      DecodedStep(body, cursor);
      assert out + [] == out;
      ghost var left := body[cursor..];
      var offset := FirstCrlf(body[cursor..], 0);
      if offset.None? {
        return;
      }
      var lineEnd := cursor + offset.value;
      assert body[cursor..lineEnd] == left[..offset.value];
      var size := ChunkSize(body[cursor..lineEnd]);
      if size.None? || size.value == 0 {
        return;
      }
      var start := lineEnd + 2;
      var end := start + size.value;
      if end > |body| {
        return;
      }
      LastPiece(out, body[start..end], DecodedFrom(body, end + 2));
      out := out + body[start..end];
      cursor := end + 2;
    }
    assert out + DecodedFrom(body, cursor) == out by { PastTheEnd(out, body, cursor); }
  }

  lemma Whole(body: seq<byte>)
    ensures [] + DecodedFrom(body, 0) == Decoded(body)
  {
    assert body[0..] == body;
  }

  lemma PastTheEnd(out: seq<byte>, body: seq<byte>, cursor: nat)
    requires cursor >= |body|
    ensures out + DecodedFrom(body, cursor) == out
  {
  }

  lemma LastPiece(a: seq<byte>, b: seq<byte>, c: seq<byte>)
    ensures a + (b + c) == (a + b) + c
  {
  }

  // ---------------------------------------------------------------- prefixes

  lemma {:induction false} FirstCrlfPrefix(s: seq<byte>, more: seq<byte>, from: nat)
    requires from <= |s| && FirstCrlf(s, from).Some?
    ensures FirstCrlf(s + more, from) == FirstCrlf(s, from)
    decreases |s| - from
  {
    if !CrlfAt(s, from) {
      FirstCrlfPrefix(s, more, from + 1);
    }
  }

  /** More bytes never change a chunk that was whole. */
  lemma NextChunkPrefix(body: seq<byte>, more: seq<byte>)
    requires NextChunk(body).Some?
    ensures NextChunk(body + more) == NextChunk(body)
  {
    hide ChunkSize;
    FirstCrlfPrefix(body, more, 0);
    var p := FirstCrlf(body, 0).value;
    assert (body + more)[..p] == body[..p];
  }

  /** For every byte string, well-formed or not, decoding a prefix gives a prefix of decoding the whole. */
  lemma {:induction false} DecodedPrefix(body: seq<byte>, more: seq<byte>)
    ensures Decoded(body) <= Decoded(body + more)
    decreases |body|
  {
    hide NextChunk;
    if NextChunk(body).Some? {
      var (start, end) := NextChunk(body).value;
      var all := body + more;
      NextChunkPrefix(body, more);
      assert all[start..end] == body[start..end];
      if end + 2 < |body| {
        assert all[end + 2..] == body[end + 2..] + more;
        DecodedPrefix(body[end + 2..], more);
      }
    }
  }

  // ---------------------------------------------------------------- every encoding

  /** A chunk's header line: digits in either case, blanks, and an extension the decoder skips. */
  datatype Header = Header(digits: seq<byte>, blanks: seq<byte>, extension: seq<byte>) {
    ghost predicate Valid() {
      && digits != [] && AllHex(digits) && HexValue(digits) < USIZE_LIMIT
      && (forall i :: 0 <= i < |blanks| ==> blanks[i] == 32 || blanks[i] == 9)
      && (extension != [] ==> extension[0] == SEMICOLON)
      && forall i :: !CrlfAt(extension, i)
    }

    function Text(): seq<byte> {
      digits + blanks + extension
    }
  }

  datatype Chunk = Chunk(header: Header, data: seq<byte>)

  ghost predicate WellFormed(c: Chunk) {
    c.header.Valid() && HexValue(c.header.digits) == |c.data| && c.data != []
  }

  function Encoded(chunks: seq<Chunk>, tail: seq<byte>): seq<byte> {
    if chunks == [] then tail
    else chunks[0].header.Text() + [CR, LF] + chunks[0].data + [CR, LF] + Encoded(chunks[1..], tail)
  }

  function Payload(chunks: seq<Chunk>): seq<byte> {
    if chunks == [] then [] else chunks[0].data + Payload(chunks[1..])
  }

  lemma {:induction false} TokenStops(plain: seq<byte>, rest: seq<byte>)
    requires forall i :: 0 <= i < |plain| ==> plain[i] != SEMICOLON
    requires rest == [] || rest[0] == SEMICOLON
    ensures Token(plain + rest) == plain
  {
    if plain == [] {
      assert plain + rest == rest;
    } else {
      assert (plain + rest)[1..] == plain[1..] + rest;
      TokenStops(plain[1..], rest);
    }
  }

  lemma {:induction false} TrimEndDropsBlanks(s: seq<byte>, blanks: seq<byte>)
    requires s != [] && HexDigit(s[|s| - 1]).Some?
    requires forall i :: 0 <= i < |blanks| ==> IsSpace(blanks[i])
    ensures TrimEnd(s + blanks) == s
  {
    if blanks == [] {
      assert s + blanks == s;
    } else {
      assert (s + blanks)[..|s + blanks| - 1] == s + blanks[..|blanks| - 1];
      TrimEndDropsBlanks(s, blanks[..|blanks| - 1]);
    }
  }

  lemma DigitsStay(digits: seq<byte>, blanks: seq<byte>)
    requires digits != [] && AllHex(digits)
    ensures TrimStart(digits + blanks) == digits + blanks
    ensures forall i :: 0 <= i < |digits| ==> digits[i] != SEMICOLON
    ensures digits[0] != PLUS && HexDigit(digits[|digits| - 1]).Some?
  {
    assert HexDigit(digits[0]).Some?;
    forall i | 0 <= i < |digits| ensures digits[i] != SEMICOLON { assert HexDigit(digits[i]).Some?; }
  }

  lemma SizeOfHeader(h: Header)
    requires h.Valid()
    ensures ChunkSize(h.Text()) == Some(HexValue(h.digits))
  {
    hide HexValue, HexDigit, TrimStart, TrimEnd, Token;
    var plain := h.digits + h.blanks;
    DigitsStay(h.digits, h.blanks);
    TokenStops(plain, h.extension);
    assert h.Text() == plain + h.extension;
    TrimEndDropsBlanks(h.digits, h.blanks);
  }

  /** The first CRLF after a header is the one that ends it. */
  lemma HeaderEnds(h: Header, rest: seq<byte>)
    requires h.Valid()
    ensures FirstCrlf(h.Text() + [CR, LF] + rest, 0) == Some(|h.Text()|)
  {
    var text := h.Text();
    var s := text + [CR, LF] + rest;
    forall i | 0 <= i < |text|
      ensures !CrlfAt(s, i)
    {
      var d, b := |h.digits|, |h.digits| + |h.blanks|;
      if i < d {
        assert s[i] == h.digits[i] && HexDigit(h.digits[i]).Some?;
      } else if i < b {
        assert s[i] == h.blanks[i - d];
      } else if i + 1 < |text| {
        assert !CrlfAt(h.extension, i - b);
        assert s[i] == h.extension[i - b] && s[i + 1] == h.extension[i + 1 - b];
      } else {
        assert s[i + 1] == CR;
      }
    }
    assert CrlfAt(s, |text|);
    var p := FirstCrlf(s, 0);
    assert p.Some? && !(p.value < |text|) && !(p.value > |text|);
  }

  lemma OneChunk(c: Chunk, rest: seq<byte>)
    requires WellFormed(c)
    ensures var head := c.header.Text() + [CR, LF];
            NextChunk(head + c.data + [CR, LF] + rest) == Some((|head|, |head| + |c.data|))
  {
    hide ChunkSize, FirstCrlf, HexValue;
    var text := c.header.Text();
    var s := text + [CR, LF] + c.data + [CR, LF] + rest;
    HeaderEnds(c.header, c.data + [CR, LF] + rest);
    assert s == text + [CR, LF] + (c.data + [CR, LF] + rest);
    assert s[..|text|] == text;
    SizeOfHeader(c.header);
  }

  lemma LastChunk(last: Header, trailer: seq<byte>)
    requires last.Valid() && HexValue(last.digits) == 0
    ensures NextChunk(last.Text() + [CR, LF] + trailer).None?
  {
    hide ChunkSize, FirstCrlf, HexValue;
    HeaderEnds(last, trailer);
    assert (last.Text() + [CR, LF] + trailer)[..|last.Text()|] == last.Text();
    SizeOfHeader(last);
  }

  /** One well-formed chunk at the head of a body contributes exactly its data. */
  lemma ChunkDecodes(c: Chunk, rest: seq<byte>)
    requires WellFormed(c) && rest != []
    ensures Decoded(c.header.Text() + [CR, LF] + c.data + [CR, LF] + rest) == c.data + Decoded(rest)
  {
    hide NextChunk, WellFormed, Decoded;
    var head := c.header.Text() + [CR, LF];
    var s := head + c.data + [CR, LF] + rest;
    OneChunk(c, rest);
    DecodedUnfolds(s);
    assert s[|head|..|head| + |c.data|] == c.data;
    assert s[|head| + |c.data| + 2..] == rest;
  }

  /** Decoding inverts every encoding of every body: any split into chunks, any extensions, any trailer. */
  lemma {:induction false} DechunkInverts(chunks: seq<Chunk>, last: Header, trailer: seq<byte>)
    requires forall i :: 0 <= i < |chunks| ==> WellFormed(chunks[i])
    requires last.Valid() && HexValue(last.digits) == 0
    ensures Decoded(Encoded(chunks, last.Text() + [CR, LF] + trailer)) == Payload(chunks)
  {
    hide NextChunk, HexValue, WellFormed;
    var tail := last.Text() + [CR, LF] + trailer;
    if chunks == [] {
      LastChunk(last, trailer);
    } else {
      EncodedNotEmpty(chunks[1..], tail);
      ChunkDecodes(chunks[0], Encoded(chunks[1..], tail));
      DechunkInverts(chunks[1..], last, trailer);
    }
  }

  lemma EncodedNotEmpty(chunks: seq<Chunk>, tail: seq<byte>)
    requires tail != []
    ensures Encoded(chunks, tail) != []
  {
  }
}
