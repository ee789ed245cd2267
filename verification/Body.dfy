/**
 * Capturing a response body: the size-limited read of a chunked stream, and the
 * cut to a byte limit at a character boundary before the body is stored.
 */
module Body {
  import opened Common

  type byte = x: int | 0 <= x < 256

  const MAX_RESPONSE_BODY_BYTES := 4096

  /** One item of the body stream; None is a transport error. */
  type Chunk = Option<seq<byte>>

  /** What the network answers to one request. */
  datatype Response = Answer(code: int, chunks: seq<Chunk>) | NetworkError

  predicate Success(response: Response) {
    response.Answer? && 200 <= response.code < 300
  }

  function Take<T>(s: seq<T>, n: nat): seq<T> {
    if n <= |s| then s[..n] else s
  }

  /** Every byte that arrives before the first error. */
  function UntilError(chunks: seq<Chunk>): seq<byte> {
    if chunks == [] || chunks[0].None? then []
    else chunks[0].value + UntilError(chunks[1..])
  }

  /** Every byte that arrives, whatever errors come in between. */
  function SkippingErrors(chunks: seq<Chunk>): seq<byte> {
    if chunks == [] then []
    else if chunks[0].None? then SkippingErrors(chunks[1..])
    else chunks[0].value + SkippingErrors(chunks[1..])
  }

  predicate ErrorFree(chunks: seq<Chunk>) {
    forall i :: 0 <= i < |chunks| ==> chunks[i].Some?
  }

  lemma {:induction false} ErrorFreeStreams(chunks: seq<Chunk>)
    requires ErrorFree(chunks)
    ensures UntilError(chunks) == SkippingErrors(chunks)
  {
    if chunks != [] {
      ErrorFreeStreams(chunks[1..]);
    }
  }

  /** Appending no more of a chunk than still fits loses nothing within the limit. */
  lemma TakeAppend(buf: seq<byte>, bytes: seq<byte>, rest: seq<byte>, limit: nat)
    requires |buf| <= limit
    ensures Take(buf + (bytes + rest), limit) == Take((buf + Take(bytes, limit - |buf|)) + rest, limit)
  {
  }

  lemma TakeFull(buf: seq<byte>, rest: seq<byte>)
    ensures Take(buf + rest, |buf|) == buf
  {
  }

  /** What is still to come begins with the next chunk. */
  lemma NextChunk(chunks: seq<Chunk>, i: nat)
    requires i < |chunks|
    ensures UntilError(chunks[i..]) == if chunks[i].None? then [] else chunks[i].value + UntilError(chunks[i + 1..])
    ensures SkippingErrors(chunks[i..])
         == if chunks[i].None? then SkippingErrors(chunks[i + 1..]) else chunks[i].value + SkippingErrors(chunks[i + 1..])
  {
    assert chunks[i..][0] == chunks[i] && chunks[i..][1..] == chunks[i + 1..];
  }

  /** The Postgres worker's reader: stops at the first error or once the limit is reached. */
  method ReadBodyLimited(chunks: seq<Chunk>, limit: nat) returns (buf: seq<byte>)
    ensures buf == Take(UntilError(chunks), limit)
  {
    buf := [];
    var i := 0;
    while i < |chunks|
      invariant 0 <= i <= |chunks| && |buf| <= limit
      invariant Take(UntilError(chunks), limit) == Take(buf + UntilError(chunks[i..]), limit)
    {
      NextChunk(chunks, i);
      match chunks[i] {
        case None => break;
        case Some(bytes) =>
          var remaining := limit - |buf|;
          if remaining == 0 {
            TakeFull(buf, UntilError(chunks[i..]));
            break;
          }
          TakeAppend(buf, bytes, UntilError(chunks[i + 1..]), limit);
          buf := buf + Take(bytes, remaining);
          i := i + 1;
      }
    }
  }

  /** The SQLite worker's reader: passes over failed chunks. */
  method ReadBodySkipping(chunks: seq<Chunk>, limit: nat) returns (buf: seq<byte>)
    ensures buf == Take(SkippingErrors(chunks), limit)
  {
    buf := [];
    var i := 0;
    while i < |chunks|
      invariant 0 <= i <= |chunks| && |buf| <= limit
      invariant Take(SkippingErrors(chunks), limit) == Take(buf + SkippingErrors(chunks[i..]), limit)
    {
      NextChunk(chunks, i);
      if chunks[i].Some? {
        var remaining := limit - |buf|;
        if remaining == 0 {
          TakeFull(buf, SkippingErrors(chunks[i..]));
          break;
        }
        TakeAppend(buf, chunks[i].value, SkippingErrors(chunks[i + 1..]), limit);
        buf := buf + Take(chunks[i].value, remaining);
      }
      i := i + 1;
    }
  }

  // ---- UTF-8 (section 3 of RFC 3629) ----

  function EncodeChar(c: char): (b: seq<byte>)
    ensures 1 <= |b| <= 4
  {
    var n := c as int;
    if n < 0x80 then [n]
    else if n < 0x800 then [0xC0 + n / 0x40, 0x80 + n % 0x40]
    else if n < 0x1_0000 then [0xE0 + n / 0x1000, 0x80 + n / 0x40 % 0x40, 0x80 + n % 0x40]
    else [0xF0 + n / 0x4_0000, 0x80 + n / 0x1000 % 0x40, 0x80 + n / 0x40 % 0x40, 0x80 + n % 0x40]
  }

  /** A byte that carries six bits of a character after its first byte. */
  predicate Continues(b: byte) {
    0x80 <= b < 0xC0
  }

  /** The bits a first byte carries, by the number of bytes, which its upper bits show. */
  function LeadBits(b: byte): int {
    if b < 0x80 then b else if b < 0xE0 then b - 0xC0 else if b < 0xF0 then b - 0xE0 else b - 0xF0
  }

  /** The number that the bits of an encoded character spell. */
  function Spelled(b: seq<byte>): int
    requires |b| > 0
  {
    if |b| == 1 then LeadBits(b[0]) else Spelled(b[..|b| - 1]) * 0x40 + (b[|b| - 1] as int - 0x80)
  }

  /** The table of RFC 3629: how many bytes a character takes, which bits mark the first and the others. */
  lemma EncodeCharShape(c: char)
    ensures var b, n := EncodeChar(c), c as int;
      && |b| == (if n < 0x80 then 1 else if n < 0x800 then 2 else if n < 0x1_0000 then 3 else 4)
      && (|b| == 1 <==> b[0] < 0x80) && (|b| == 2 <==> 0xC0 <= b[0] < 0xE0)
      && (|b| == 3 <==> 0xE0 <= b[0] < 0xF0) && (|b| == 4 <==> 0xF0 <= b[0])
      && forall i :: 1 <= i < |b| ==> Continues(b[i])
  {
  }

  /** Read back, the bytes spell the character. */
  lemma EncodeCharReads(c: char)
    ensures Spelled(EncodeChar(c)) == c as int
  {
    var b, n := EncodeChar(c), c as int;
    if |b| == 2 {
      SpelledTwo(b);
    } else if |b| == 3 {
      SpelledThree(b);
      SixBits(n);
    } else if |b| == 4 {
      SpelledFour(b);
      SixBits(n);
      SixBits(n / 0x40);
    }
  }

  lemma SixBits(n: nat)
    ensures n / 0x1000 == n / 0x40 / 0x40 && n / 0x4_0000 == n / 0x1000 / 0x40
    ensures n == n / 0x40 * 0x40 + n % 0x40
  {
  }

  lemma SpelledTwo(b: seq<byte>)
    requires |b| == 2
    ensures Spelled(b) == LeadBits(b[0]) * 0x40 + (b[1] as int - 0x80)
  {
    assert b[..1] == [b[0]];
  }

  lemma SpelledThree(b: seq<byte>)
    requires |b| == 3
    ensures Spelled(b) == LeadBits(b[0]) * 0x1000 + (b[1] as int - 0x80) * 0x40 + (b[2] as int - 0x80)
  {
    SpelledTwo(b[..2]);
  }

  lemma SpelledFour(b: seq<byte>)
    requires |b| == 4
    ensures Spelled(b) ==
      LeadBits(b[0]) * 0x4_0000 + (b[1] as int - 0x80) * 0x1000 + (b[2] as int - 0x80) * 0x40 + (b[3] as int - 0x80)
  {
    SpelledThree(b[..3]);
  }

  function Encode(s: string): seq<byte> {
    if s == "" then [] else EncodeChar(s[0]) + Encode(s[1..])
  }

  lemma Regroup(a: seq<byte>, b: seq<byte>, c: seq<byte>)
    ensures a + (b + c) == (a + b) + c
  {
  }

  lemma {:induction false} EncodeConcat(s: string, t: string)
    ensures Encode(s + t) == Encode(s) + Encode(t)
  {
    if s == "" {
      assert s + t == t;
    } else {
      EncodeConcat(s[1..], t);
      assert (s + t)[0] == s[0] && (s + t)[1..] == s[1..] + t;
      Regroup(EncodeChar(s[0]), Encode(s[1..]), Encode(t));
    }
  }

  // ---- Truncation ----

  /** Byte position after each character of `s`, when `s` starts at byte `start`. */
  function CharEnds(s: string, start: nat): seq<nat> {
    if s == "" then []
    else var end := start + |EncodeChar(s[0])|; [end] + CharEnds(s[1..], end)
  }

  function TakeWhileAtMost(ends: seq<nat>, bound: nat): seq<nat> {
    if ends == [] || ends[0] > bound then [] else [ends[0]] + TakeWhileAtMost(ends[1..], bound)
  }

  function LastOrZero(ends: seq<nat>): nat {
    if ends == [] then 0 else ends[|ends| - 1]
  }

  /** The bytes kept of `s` when at most `maxBytes` may be stored. */
  function TruncateUtf8(s: string, maxBytes: nat): seq<byte> {
    if |Encode(s)| <= maxBytes then Encode(s)
    else Take(Encode(s), LastOrZero(TakeWhileAtMost(CharEnds(s, 0), maxBytes)))
  }

  /** How many whole characters fit within the limit. */
  predicate LongestFit(s: string, maxBytes: nat, k: nat) {
    && k <= |s| && |Encode(s[..k])| <= maxBytes
    && forall j :: k < j <= |s| ==> |Encode(s[..j])| > maxBytes
  }

  /** Each recorded end is the encoded length of that many characters. */
  lemma {:induction false} CharEndsArePrefixLengths(s: string, start: nat, i: nat)
    requires i < |s|
    ensures |CharEnds(s, start)| == |s|
    ensures CharEnds(s, start)[i] == start + |Encode(s[..i + 1])|
  {
    var end := start + |EncodeChar(s[0])|;
    assert s[..i + 1][0] == s[0] && s[..i + 1][1..] == s[1..][..i];
    if i > 0 {
      CharEndsArePrefixLengths(s[1..], end, i - 1);
    } else if |s| > 1 {
      CharEndsArePrefixLengths(s[1..], end, 0);
    }
  }

  lemma {:induction false} TakeWhileStops(ends: seq<nat>, bound: nat)
    ensures var kept := TakeWhileAtMost(ends, bound);
      && |kept| <= |ends| && kept == ends[..|kept|]
      && (forall i :: 0 <= i < |kept| ==> kept[i] <= bound)
      && (|kept| < |ends| ==> ends[|kept|] > bound)
  {
    if ends != [] && ends[0] <= bound {
      TakeWhileStops(ends[1..], bound);
    }
  }

  lemma PrefixLengthGrows(s: string, i: nat, j: nat)
    requires i <= j <= |s|
    ensures Encode(s[..i]) <= Encode(s[..j])
  {
    EncodeConcat(s[..i], s[i..j]);
    assert s[..j] == s[..i] + s[i..j];
  }

  lemma KeptLength(s: string, k: nat, maxBytes: nat)
    requires k <= |s| == |CharEnds(s, 0)| && TakeWhileAtMost(CharEnds(s, 0), maxBytes) == CharEnds(s, 0)[..k]
    ensures LastOrZero(TakeWhileAtMost(CharEnds(s, 0), maxBytes)) == |Encode(s[..k])|
  {
    if k > 0 {
      CharEndsArePrefixLengths(s, 0, k - 1);
    }
  }

  /** What is stored is the encoding of the longest run of leading characters that fits. */
  lemma TruncateKeepsLongestPrefix(s: string, maxBytes: nat) returns (k: nat)
    ensures LongestFit(s, maxBytes, k)
    ensures TruncateUtf8(s, maxBytes) == Encode(s[..k])
  {
    if |Encode(s)| <= maxBytes {
      k := |s|;
      assert s[..k] == s;
    } else {
      var ends := CharEnds(s, 0);
      var kept := TakeWhileAtMost(ends, maxBytes);
      CharEndsArePrefixLengths(s, 0, |s| - 1);
      TakeWhileStops(ends, maxBytes);
      k := |kept|;
      KeptLength(s, k, maxBytes);
      assert s[..|s|] == s;
      if k == |s| {
        assert false;
      }
      CharEndsArePrefixLengths(s, 0, k);
      forall j | k < j <= |s| ensures |Encode(s[..j])| > maxBytes {
        PrefixLengthGrows(s, k + 1, j);
      }
      PrefixLengthGrows(s, k, |s|);
    }
  }

  /** Truncating what was stored changes nothing. */
  lemma TruncateIdempotent(s: string, maxBytes: nat) returns (t: string)
    ensures Encode(t) == TruncateUtf8(s, maxBytes) && t <= s
    ensures TruncateUtf8(t, maxBytes) == Encode(t)
  {
    var k := TruncateKeepsLongestPrefix(s, maxBytes);
    t := s[..k];
  }

  /** The stored body of a response, given the lossy decoder; an empty body is stored as NULL. */
  function StoredBody(buf: seq<byte>, decode: seq<byte> -> string): Option<seq<byte>> {
    if buf == [] then None else Some(TruncateUtf8(decode(buf), MAX_RESPONSE_BODY_BYTES))
  }

  /**
   * However the network splits a body, both workers store the same thing: of the text
   * its first 4096 bytes decode to, the most whole characters that fit into 4096 bytes.
   */
  lemma CaptureIsChunkingIndependent(chunks: seq<Chunk>, body: seq<byte>, decode: seq<byte> -> string)
    returns (k: nat)
    requires ErrorFree(chunks) && SkippingErrors(chunks) == body
    ensures UntilError(chunks) == body
    ensures var text := decode(Take(body, MAX_RESPONSE_BODY_BYTES));
      && LongestFit(text, MAX_RESPONSE_BODY_BYTES, k)
      && StoredBody(Take(body, MAX_RESPONSE_BODY_BYTES), decode) == (if body == [] then None else Some(Encode(text[..k])))
  {
    ErrorFreeStreams(chunks);
    k := TruncateKeepsLongestPrefix(decode(Take(body, MAX_RESPONSE_BODY_BYTES)), MAX_RESPONSE_BODY_BYTES);
  }
}
