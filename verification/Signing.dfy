/**
 * Signing a request and checking a signature header. The keyed hash, in hexadecimal,
 * is a parameter.
 */
module Signing {
  import opened Common
  import opened Decimals
  import Body

  type i64 = x: int | -0x8000_0000_0000_0000 <= x <= 0x7FFF_FFFF_FFFF_FFFF

  type Mac = (string, seq<Body.byte>) -> string

  const MAX_TIMESTAMP_AGE_SECS := 300

  // ---- The signed message ----

  /** Decimal digits of a number, most significant first. */
  function Digits(n: nat): (s: string)
    ensures s != "" && (|s| == 1 <==> n < 10)
    ensures forall i :: 0 <= i < |s| ==> '0' <= s[i] <= '9'
  {
    if n < 10 then [Digit(n)] else Digits(n / 10) + [Digit(n % 10)]
  }

  function Decimal(timestamp: int): string {
    if timestamp < 0 then "-" + Digits(-timestamp) else Digits(timestamp)
  }

  /** The bytes that are hashed: timestamp, dot, payload. */
  function Message(timestamp: int, payload: seq<Body.byte>): seq<Body.byte> {
    Body.Encode(Decimal(timestamp)) + Body.Encode(".") + payload
  }

  function Sign(mac: Mac, secret: string, timestamp: int, payload: seq<Body.byte>): string {
    "v1," + mac(secret, Message(timestamp, payload))
  }

  lemma {:induction false} DigitsInjective(m: nat, n: nat)
    requires Digits(m) == Digits(n)
    ensures m == n
  {
    var s, t := Digits(m), Digits(n);
    if m >= 10 && n >= 10 {
      assert s[..|s| - 1] == Digits(m / 10) && t[..|t| - 1] == Digits(n / 10);
      DigitsInjective(m / 10, n / 10);
      assert s[|s| - 1] == t[|t| - 1];
    } else {
      assert s[0] == t[0];
    }
  }

  lemma DecimalInjective(a: int, b: int)
    requires Decimal(a) == Decimal(b)
    ensures a == b
  {
    assert Decimal(a)[0] == Decimal(b)[0];
    if a < 0 && b < 0 {
      assert Decimal(a)[1..] == Digits(-a) && Decimal(b)[1..] == Digits(-b);
      DigitsInjective(-a, -b);
    } else if a >= 0 && b >= 0 {
      DigitsInjective(a, b);
    }
  }

  /** The digits stand for the number, without a leading zero. */
  lemma {:induction false} DigitsValue(n: nat)
    ensures AreDigits(Digits(n)) && Value(Digits(n)) == n && (n > 0 ==> Digits(n)[0] != '0')
  {
    if n < 10 {
      ValueOfLast("", n);
      assert "" + [Digit(n)] == [Digit(n)];
    } else {
      DigitsValue(n / 10);
      ValueOfLast(Digits(n / 10), n % 10);
    }
  }

  predicate Ascii(s: string) {
    forall i :: 0 <= i < |s| ==> s[i] as int < 0x80
  }

  lemma {:induction false} AsciiBytes(s: string)
    requires Ascii(s)
    ensures |Body.Encode(s)| == |s|
    ensures forall i :: 0 <= i < |s| ==> Body.Encode(s)[i] == s[i] as int
  {
    if s != "" {
      AsciiBytes(s[1..]);
    }
  }

  /** The first dot of a message ends its timestamp. */
  lemma FirstDot(timestamp: int, payload: seq<Body.byte>)
    ensures var s, m := Decimal(timestamp), Message(timestamp, payload);
      && |s| < |m| && m[|s|] == '.' as int && m[|s| + 1..] == payload
      && forall i :: 0 <= i < |s| ==> m[i] == s[i] as int && m[i] != '.' as int
  {
    AsciiBytes(Decimal(timestamp));
    AsciiBytes(".");
  }

  /** Different timestamps or payloads never give the same message. */
  lemma FramingInjective(a: int, p: seq<Body.byte>, b: int, q: seq<Body.byte>)
    requires Message(a, p) == Message(b, q)
    ensures a == b && p == q
  {
    FirstDot(a, p);
    FirstDot(b, q);
    var s, t, m := Decimal(a), Decimal(b), Message(a, p);
    assert |s| == |t|;
    forall i | 0 <= i < |s| ensures s[i] == t[i] {
      assert m[i] == s[i] as int == t[i] as int;
    }
    assert s == t;
    DecimalInjective(a, b);
  }

  /**
   * A signature is "v1," and the hash of the decimal timestamp, a dot and the payload; the
   * timestamp is a minus sign if it is negative, and the digits of its absolute value.
   */
  lemma SignMeans(mac: Mac, secret: string, timestamp: int, payload: seq<Body.byte>)
      returns (text: string, bytes: seq<Body.byte>)
    ensures Sign(mac, secret, timestamp, payload) == "v1," + mac(secret, bytes + [0x2E] + payload)
    ensures |bytes| == |text| && forall i :: 0 <= i < |text| ==> bytes[i] == text[i] as int
    ensures Spells(text, timestamp)
  {
    text := Decimal(timestamp);
    bytes := Body.Encode(text);
    DecimalSpells(timestamp);
    AsciiBytes(text);
    assert Body.Encode(".") == [0x2E] by {
      AsciiBytes(".");
    }
  }

  /** A minus sign for a negative number, and the digits of its absolute value. */
  predicate Spells(text: string, n: int) {
    if n < 0 then text != "" && text[0] == '-' && AreDigits(text[1..]) && Value(text[1..]) == -n
    else AreDigits(text) && Value(text) == n
  }

  lemma DecimalSpells(n: int)
    ensures Spells(Decimal(n), n)
  {
    if n < 0 {
      DigitsValue(-n);
      MinusSpells(Digits(-n), n);
    } else {
      DigitsValue(n);
    }
  }

  lemma MinusSpells(digits: string, n: int)
    requires n < 0 && AreDigits(digits) && Value(digits) == -n
    ensures Spells("-" + digits, n)
  {
    assert ("-" + digits)[1..] == digits;
  }

  // ---- The timestamp ----

  /** What remains of a number in 64 bits. */
  function Wrap64(x: int): i64 {
    (x + 0x8000_0000_0000_0000) % 0x1_0000_0000_0000_0000 - 0x8000_0000_0000_0000
  }

  function Abs(x: int): nat {
    if x < 0 then -x else x
  }

  /** The age check in 64 bits, wrapping as it does without overflow checks. */
  predicate Fresh(now: i64, timestamp: i64) {
    Wrap64(Abs(Wrap64(now - timestamp))) <= MAX_TIMESTAMP_AGE_SECS
  }

  predicate WrapsToFresh(distance: int) {
    distance == 0x8000_0000_0000_0000 || distance >= 0x1_0000_0000_0000_0000 - MAX_TIMESTAMP_AGE_SECS
  }

  lemma DifferenceWraps(now: i64, timestamp: i64)
    requires now >= 0
    ensures var distance := now - timestamp;
      Wrap64(distance) == if distance < 0x8000_0000_0000_0000 then distance else distance - 0x1_0000_0000_0000_0000
  {
  }

  /** Only the smallest number has no absolute value in 64 bits. */
  lemma AbsoluteValueWraps(x: i64)
    ensures Wrap64(Abs(x)) == if x == -0x8000_0000_0000_0000 then x else Abs(x)
  {
  }

  /**
   * The check means a distance of at most 300 seconds, except for distances so large
   * that 64 bits bring them back into that range.
   */
  lemma FreshExactly(now: i64, timestamp: i64)
    requires now >= 0
    ensures Fresh(now, timestamp)
       <==> Abs(now - timestamp) <= MAX_TIMESTAMP_AGE_SECS || WrapsToFresh(now - timestamp)
  {
    DifferenceWraps(now, timestamp);
    AbsoluteValueWraps(Wrap64(now - timestamp));
  }

  // ---- The header ----

  /** `header.split(' ')`. */
  function Split(header: string): (tokens: seq<string>)
    ensures tokens != []
  {
    if header == "" then [""]
    else if header[0] == ' ' then [""] + Split(header[1..])
    else var rest := Split(header[1..]); [[header[0]] + rest[0]] + rest[1..]
  }

  /** Looks at every token, whether or not one matched before. */
  method AnyMatches(tokens: seq<string>, expected: string) returns (found: bool)
    ensures found <==> expected in tokens
  {
    found := false;
    for i := 0 to |tokens|
      invariant found <==> expected in tokens[..i]
    {
      var matches := tokens[i] == expected;
      found := found || matches;
    }
    assert tokens[..|tokens|] == tokens;
  }

  /** Rejects a timestamp out of range, and otherwise looks for the expected signature. */
  method Verify(mac: Mac, secret: string, timestamp: i64, payload: seq<Body.byte>, header: string, now: i64)
    returns (ok: bool)
    ensures ok <==> Fresh(now, timestamp) && Sign(mac, secret, timestamp, payload) in Split(header)
  {
    if !Fresh(now, timestamp) {
      return false;
    }
    ok := AnyMatches(Split(header), Sign(mac, secret, timestamp, payload));
  }

  /** `token` stands in the header between spaces or the ends. */
  predicate StandsAt(header: string, token: string, i: nat) {
    && i + |token| <= |header|
    && header[i..i + |token|] == token
    && (i > 0 ==> header[i - 1] == ' ')
    && (i + |token| < |header| ==> header[i + |token|] == ' ')
  }

  lemma {:induction false} FirstToken(header: string, token: string)
    requires ' ' !in token
    ensures Split(header)[0] == token <==> StandsAt(header, token, 0)
  {
    if header == "" || header[0] == ' ' {
      if token != "" && |token| <= |header| {
        assert header[0..|token|][0] == ' ';
      }
    } else if token != "" {
      FirstToken(header[1..], token[1..]);
      assert token == [token[0]] + token[1..];
      if |token| <= |header| {
        assert header[0..|token|] == [header[0]] + header[1..][0..|token| - 1];
      }
    }
  }

  lemma StandsLater(header: string, token: string, i: nat)
    requires header != "" && i > 0
    ensures StandsAt(header, token, i) <==> StandsAt(header[1..], token, i - 1) && (i == 1 ==> header[0] == ' ')
  {
    if i + |token| <= |header| {
      assert header[i..i + |token|] == header[1..][i - 1..i - 1 + |token|];
    }
  }

  /** A token without spaces is among the pieces exactly when it stands in the header on its own. */
  lemma {:induction false} SplitFinds(header: string, token: string)
    requires ' ' !in token
    ensures token in Split(header) <==> exists i: nat :: StandsAt(header, token, i)
  {
    FirstToken(header, token);
    if header == "" {
      if i: nat :| StandsAt(header, token, i) {
        assert i == 0;
      }
    } else {
      var rest := Split(header[1..]);
      SplitFinds(header[1..], token);
      FirstToken(header[1..], token);
      assert Split(header)[1..] == (if header[0] == ' ' then rest else rest[1..]);
      LaterTokens(header, token);
    }
  }

  /** Does `token` stand in the header behind its first token? */
  ghost predicate StandsBehind(header: string, token: string) {
    exists i: nat :: i > 0 && StandsAt(header, token, i)
  }

  lemma {:induction false} LaterTokens(header: string, token: string)
    requires ' ' !in token
    ensures token in Split(header)[1..] <==> StandsBehind(header, token)
  {
    if header != "" {
      var rest := header[1..];
      LaterTokens(rest, token);
      FirstToken(rest, token);
      assert Split(header)[1..] == (if header[0] == ' ' then Split(rest) else Split(rest)[1..]);
      assert Split(rest) == [Split(rest)[0]] + Split(rest)[1..];
      if i: nat :| i > 0 && StandsAt(header, token, i) {
        StandsLater(header, token, i);
        assert i - 1 > 0 ==> StandsBehind(rest, token);
      }
      if header[0] == ' ' && StandsAt(rest, token, 0) {
        StandsLater(header, token, 1);
        assert StandsBehind(header, token);
      }
      if i: nat :| i > 0 && StandsAt(rest, token, i) {
        StandsLater(header, token, i + 1);
        assert StandsBehind(header, token);
      }
    }
  }

  /**
   * A header is accepted, as far as its signatures go, exactly when the expected one stands
   * in it on its own: alone, or set off by spaces from others before and behind it.
   */
  lemma AcceptedHeaders(mac: Mac, secret: string, timestamp: int, payload: seq<Body.byte>, header: string)
    requires ' ' !in mac(secret, Message(timestamp, payload))
    ensures Sign(mac, secret, timestamp, payload) in Split(header)
       <==> exists i: nat :: StandsAt(header, Sign(mac, secret, timestamp, payload), i)
  {
    SplitFinds(header, Sign(mac, secret, timestamp, payload));
  }

  /** What was signed verifies, alone and among other signatures. */
  lemma SignedIsAccepted(mac: Mac, secret: string, timestamp: int, payload: seq<Body.byte>, before: string, after: string)
    requires ' ' !in mac(secret, Message(timestamp, payload))
    requires before == "" || before[|before| - 1] == ' '
    requires after == "" || after[0] == ' '
    ensures var signature := Sign(mac, secret, timestamp, payload);
      signature in Split(before + signature + after)
  {
    var signature := Sign(mac, secret, timestamp, payload);
    SplitFinds(before + signature + after, signature);
    assert StandsAt(before + signature + after, signature, |before|);
  }
}
