/**
 Signed device tokens (`device_token.py`): unpadded base64url over bytes (section 5 of RFC 4648), the lenient
 decoder of Python's binascii, and tokens made of an encoded payload and its encoded MAC. The MAC and the JSON
 encoding of the payload are parameters.
 */
module DeviceToken {
  import opened Wrappers

  type Byte = x: int | 0 <= x < 256

  type Bytes = seq<Byte>

  // ---- Encoding -------------------------------------------------------------------------------------

  /** The URL-safe alphabet. */
  function Digit(v: int): (c: char)
    requires 0 <= v < 64
    ensures Value(c) == Some(v) && c != '=' && c != '.' && c as int < 128
  {
    if v < 26 then 'A' + v as char
    else if v < 52 then 'a' + (v - 26) as char
    else if v < 62 then '0' + (v - 52) as char
    else if v == 62 then '-' else '_'
  }

  /** What the decoder reads a character as; it accepts both alphabets. */
  function Value(c: char): (v: Option<int>)
    ensures v.Some? ==> 0 <= v.value < 64
  {
    if 'A' <= c <= 'Z' then Some(c as int - 'A' as int)
    else if 'a' <= c <= 'z' then Some(c as int - 'a' as int + 26)
    else if '0' <= c <= '9' then Some(c as int - '0' as int + 52)
    else if c == '-' || c == '+' then Some(62)
    else if c == '_' || c == '/' then Some(63)
    else None
  }

  function Group(a: Byte, b: Byte, c: Byte): (s: string)
    ensures |s| == 4
  {
    [Digit(a / 4), Digit(a % 4 * 16 + b / 16), Digit(b % 16 * 4 + c / 64), Digit(c % 64)]
  }

  /** urlsafe_b64encode, with its padding. */
  function Padded(data: Bytes): string
  {
    if data == [] then ""
    else if |data| == 1 then [Digit(data[0] / 4), Digit(data[0] % 4 * 16)] + "=="
    else if |data| == 2 then [Digit(data[0] / 4), Digit(data[0] % 4 * 16 + data[1] / 16), Digit(data[1] % 16 * 4)] + "="
    else Group(data[0], data[1], data[2]) + Padded(data[3..])
  }

  /** rstrip("=") */
  function Unpad(s: string): string
  {
    if s != "" && s[|s| - 1] == '=' then Unpad(s[..|s| - 1]) else s
  }

  /** _b64url_encode */
  function Encode(data: Bytes): string
  {
    Unpad(Padded(data))
  }

  // ---- Decoding -------------------------------------------------------------------------------------

  /** binascii.a2b_base64: foreign characters are skipped, and padding stops the scan once it completes a group. */
  function Scan(s: string, quad: nat, left: nat, pads: nat, out: Bytes): Result<Bytes, string>
    requires quad < 4 && left < 64 && (quad == 2 ==> left < 16) && (quad == 3 ==> left < 4)
  {
    if s == "" then if quad == 0 then Ok(out) else Err("Incorrect padding")
    else if s[0] == '=' then
      if quad >= 2 && quad + pads + 1 >= 4 then Ok(out)
      else Scan(s[1..], quad, left, if quad >= 2 then pads + 1 else pads, out)
    else
      match Value(s[0])
      case None => Scan(s[1..], quad, left, pads, out)
      case Some(v) =>
        if quad == 0 then Scan(s[1..], 1, v, 0, out)
        else if quad == 1 then Scan(s[1..], 2, v % 16, 0, out + [left * 4 + v / 16])
        else if quad == 2 then Scan(s[1..], 3, v % 4, 0, out + [left * 16 + v / 4])
        else Scan(s[1..], 0, 0, 0, out + [left * 64 + v])
  }

  function Pads(n: nat): (r: nat)
    ensures r < 4 && (n + r) % 4 == 0
  {
    (4 - n % 4) % 4
  }

  function Equals(n: nat): string
  {
    if n == 0 then "" else "=" + Equals(n - 1)
  }

  /** _b64url_decode */
  function Decode(s: string): Result<Bytes, string>
  {
    if exists i :: 0 <= i < |s| && s[i] as int >= 128 then Err("string argument should contain only ASCII characters")
    else Scan(s + Equals(Pads(|s|)), 0, 0, 0, [])
  }

  // ---- Round trip -----------------------------------------------------------------------------------

  /** What Padded writes before its padding. */
  function Digits(data: Bytes): string
  {
    if data == [] then ""
    else if |data| == 1 then [Digit(data[0] / 4), Digit(data[0] % 4 * 16)]
    else if |data| == 2 then [Digit(data[0] / 4), Digit(data[0] % 4 * 16 + data[1] / 16), Digit(data[1] % 16 * 4)]
    else Group(data[0], data[1], data[2]) + Digits(data[3..])
  }

  predicate AllDigits(s: string)
  {
    forall i :: 0 <= i < |s| ==> Value(s[i]).Some? && s[i] != '=' && s[i] != '.' && s[i] as int < 128
  }

  lemma {:induction false} DigitsAreDigits(data: Bytes)
    ensures AllDigits(Digits(data)) && |Digits(data)| == (4 * |data| + 2) / 3
    decreases |data|
  {
    hide Value, Digit;
    if |data| >= 3 {
      DigitsAreDigits(data[3..]);
    }
  }

  lemma {:induction false} PaddedIsDigits(data: Bytes)
    ensures Padded(data) == Digits(data) + Equals(Pads(|Digits(data)|))
    decreases |data|
  {
    hide Value, Digit, Group, Equals;
    EqualsUpTo3();
    if |data| >= 3 {
      PaddedIsDigits(data[3..]);
      assert Pads(|Digits(data)|) == Pads(|Digits(data[3..])|);
    }
  }

  lemma EqualsUpTo3()
    ensures Equals(0) == "" && Equals(1) == "=" && Equals(2) == "==" && Equals(3) == "==="
  {
  }

  lemma {:induction false} UnpadEquals(s: string, n: nat)
    requires AllDigits(s)
    ensures Unpad(s + Equals(n)) == s
  {
    hide Value;
    if n == 0 {
      assert s + Equals(0) == s;
    } else {
      EqualsSnoc(n - 1);
      assert (s + Equals(n))[..|s| + n - 1] == s + Equals(n - 1);
      UnpadEquals(s, n - 1);
    }
  }

  lemma {:induction false} EqualsSnoc(n: nat)
    ensures Equals(n + 1) == Equals(n) + "=" && |Equals(n)| == n
  {
    if n > 0 {
      EqualsSnoc(n - 1);
    }
  }

  /** Encodings are unpadded, have four characters for three bytes, and hold no dot. */
  lemma EncodeShape(data: Bytes)
    ensures Encode(data) == Digits(data) && AllDigits(Encode(data)) && |Encode(data)| == (4 * |data| + 2) / 3
    ensures '.' !in Encode(data)
  {
    hide Value;
    DigitsAreDigits(data);
    PaddedIsDigits(data);
    UnpadEquals(Digits(data), Pads(|Digits(data)|));
  }

  lemma ScanDigit(c: char, rest: string, quad: nat, left: nat, v: int, pads: nat, out: Bytes)
    requires quad < 4 && left < 64 && (quad == 2 ==> left < 16) && (quad == 3 ==> left < 4)
    requires c != '=' && Value(c) == Some(v)
    ensures Scan([c] + rest, quad, left, pads, out) ==
            if quad == 0 then Scan(rest, 1, v, 0, out)
            else if quad == 1 then Scan(rest, 2, v % 16, 0, out + [left * 4 + v / 16])
            else if quad == 2 then Scan(rest, 3, v % 4, 0, out + [left * 16 + v / 4])
            else Scan(rest, 0, 0, 0, out + [left * 64 + v])
  {
    hide Value;
    assert ([c] + rest)[1..] == rest;
  }

  lemma ScanGroup(a: Byte, b: Byte, c: Byte, rest: string, out: Bytes)
    ensures Scan(Group(a, b, c) + rest, 0, 0, 0, out) == Scan(rest, 0, 0, 0, out + [a, b, c])
  {
    hide Value, Digit, Scan;
    var d, e, f, g := Digit(a / 4), Digit(a % 4 * 16 + b / 16), Digit(b % 16 * 4 + c / 64), Digit(c % 64);
    assert Group(a, b, c) + rest == [d] + ([e] + ([f] + ([g] + rest)));
    var v, w := a % 4 * 16 + b / 16, b % 16 * 4 + c / 64;
    assert v % 16 == b / 16 && v / 16 == a % 4 && w % 4 == c / 64 && w / 4 == b % 16;
    assert a / 4 * 4 + a % 4 == a && b / 16 * 16 + b % 16 == b && c / 64 * 64 + c % 64 == c;
    ScanDigit(d, [e] + ([f] + ([g] + rest)), 0, 0, a / 4, 0, out);
    ScanDigit(e, [f] + ([g] + rest), 1, a / 4, v, 0, out);
    ScanDigit(f, [g] + rest, 2, b / 16, w, 0, out + [a]);
    ScanDigit(g, rest, 3, c / 64, c % 64, 0, out + [a] + [b]);
    assert out + [a] + [b] + [c] == out + [a, b, c];
  }

  lemma ScanTail(data: Bytes, out: Bytes)
    requires |data| <= 2
    ensures Scan(Padded(data), 0, 0, 0, out) == Ok(out + data)
  {
    hide Value, Digit, Scan;
    ScanStops(out);
    if |data| == 0 {
      assert out + data == out;
    } else {
      var a := data[0];
      if |data| == 1 {
        var v := a % 4 * 16;
        assert v % 16 == 0 && v / 16 == a % 4 && a / 4 * 4 + a % 4 == a;
        assert Padded(data) == [Digit(a / 4)] + ([Digit(v)] + "==");
        ScanDigit(Digit(a / 4), [Digit(v)] + "==", 0, 0, a / 4, 0, out);
        ScanDigit(Digit(v), "==", 1, a / 4, v, 0, out);
        ScanStops(out + [a]);
        assert data == [a];
      } else {
        var b := data[1];
        var v, w := a % 4 * 16 + b / 16, b % 16 * 4;
        assert v % 16 == b / 16 && v / 16 == a % 4 && w % 4 == 0 && w / 4 == b % 16;
        assert a / 4 * 4 + a % 4 == a && b / 16 * 16 + b % 16 == b;
        assert Padded(data) == [Digit(a / 4)] + ([Digit(v)] + ([Digit(w)] + "="));
        ScanDigit(Digit(a / 4), [Digit(v)] + ([Digit(w)] + "="), 0, 0, a / 4, 0, out);
        ScanDigit(Digit(v), [Digit(w)] + "=", 1, a / 4, v, 0, out);
        ScanDigit(Digit(w), "=", 2, b / 16, w, 0, out + [a]);
        ScanStops(out + [a] + [b]);
        assert out + [a] + [b] == out + data;
      }
    }
  }

  lemma ScanStops(out: Bytes)
    ensures Scan("", 0, 0, 0, out) == Ok(out)
    ensures Scan("==", 2, 0, 0, out) == Ok(out)
    ensures Scan("=", 3, 0, 0, out) == Ok(out)
  {
    hide Value;
    assert "=="[1..] == "=" && Scan("=", 2, 0, 1, out) == Ok(out);
  }

  lemma {:induction false} ScanPadded(data: Bytes, out: Bytes)
    ensures Scan(Padded(data), 0, 0, 0, out) == Ok(out + data)
    decreases |data|
  {
    hide Value, Digit, Scan, Group;
    if |data| <= 2 {
      ScanTail(data, out);
    } else {
      ScanGroup(data[0], data[1], data[2], Padded(data[3..]), out);
      ScanPadded(data[3..], out + data[..3]);
      assert data[..3] == [data[0], data[1], data[2]];
      assert out + data[..3] + data[3..] == out + data;
    }
  }

  /** Round trip: decoding undoes encoding, for all bytes. */
  lemma DecodeUndoesEncode(data: Bytes)
    ensures Decode(Encode(data)) == Ok(data)
  {
    hide Value, Scan, Padded, Digits, Unpad;
    EncodeShape(data);
    PaddedIsDigits(data);
    ScanPadded(data, []);
    assert [] + data == data;
  }

  lemma {:induction false} ScanCounts(s: string, quad: nat, left: nat, out: Bytes, pads: nat)
    requires AllDigits(s) && quad < 4 && left < 64 && (quad == 2 ==> left < 16) && (quad == 3 ==> left < 4)
    requires pads == Pads(quad + |s|)
    ensures Scan(s + Equals(pads), quad, left, 0, out).Ok? <==> (quad + |s|) % 4 != 1
    decreases |s|
  {
    hide Value, Scan;
    if s == "" {
      assert s + Equals(pads) == Equals(pads);
      ScanEquals(quad, left, out);
    } else {
      var c, rest := s[0], s[1..] + Equals(pads);
      assert s + Equals(pads) == [c] + rest;
      var v := Value(c).value;
      ScanDigit(c, rest, quad, left, v, 0, out);
      var left' := if quad == 0 then v else if quad == 1 then v % 16 else if quad == 2 then v % 4 else 0;
      var out' :=
        if quad == 0 then out
        else if quad == 1 then out + [left * 4 + v / 16]
        else if quad == 2 then out + [left * 16 + v / 4]
        else out + [left * 64 + v];
      ScanCounts(s[1..], (quad + 1) % 4, left', out', pads);
    }
  }

  lemma ScanEquals(quad: nat, left: nat, out: Bytes)
    requires quad < 4 && left < 64 && (quad == 2 ==> left < 16) && (quad == 3 ==> left < 4)
    ensures Scan(Equals(Pads(quad)), quad, left, 0, out).Ok? <==> quad != 1
  {
    hide Value;
    EqualsUpTo3();
    assert "=="[1..] == "=" && "==="[1..] == "==" && "="[1..] == "";
    if quad == 1 {
      assert Scan("", 1, left, 0, out).Err?;
      assert Scan("=", 1, left, 0, out).Err?;
      assert Scan("==", 1, left, 0, out).Err?;
    } else if quad == 2 {
      assert Scan("=", 2, left, 1, out) == Ok(out);
    }
  }

  /** A text of digits decodes exactly when its length is not one more than a multiple of four. */
  lemma DigitsDecodeIff(s: string)
    requires AllDigits(s)
    ensures Decode(s).Ok? <==> |s| % 4 != 1
  {
    hide Value, Scan;
    ScanCounts(s, 0, 0, [], Pads(|s|));
  }

  // ---- Tokens ---------------------------------------------------------------------------------------

  datatype Json<P> = Object(payload: P) | Other

  /** hmac.new(secret, message, sha256).digest(), json.dumps(...).encode() and json.loads(raw.decode()). */
  datatype Codec<!P> = Codec(mac: (string, Bytes) -> Bytes, dumps: P -> Bytes, loads: Bytes -> Option<Json<P>>)

  datatype TokenError = InvalidFormat | InvalidSignature | InvalidPayload

  function CreateDeviceToken<P>(k: Codec<P>, payload: P, secret: string): string
  {
    var raw := k.dumps(payload);
    Encode(raw) + "." + Encode(k.mac(secret, raw))
  }

  function FirstDot(s: string): (i: nat)
    ensures i <= |s| && (i < |s| ==> s[i] == '.') && '.' !in s[..i]
  {
    if s == "" || s[0] == '.' then 0 else 1 + FirstDot(s[1..])
  }

  function VerifyDeviceToken<P>(k: Codec<P>, token: string, secret: string): Result<P, TokenError>
  {
    var dot := FirstDot(token);
    if dot == |token| then Err(InvalidFormat)
    else
      match (Decode(token[..dot]), Decode(token[dot + 1..]))
      case (Ok(raw), Ok(sig)) =>
        if sig != k.mac(secret, raw) then Err(InvalidSignature)
        else (match k.loads(raw) case Some(Object(payload)) => Ok(payload) case _ => Err(InvalidPayload))
      case _ => Err(InvalidFormat)
  }

  lemma {:induction false} DotAt(a: string, b: string)
    requires '.' !in a
    ensures FirstDot(a + "." + b) == |a|
  {
    var s := a + "." + b;
    if a == "" {
      assert s[0] == '.';
    } else {
      assert s[0] == a[0] && s[1..] == a[1..] + "." + b;
      DotAt(a[1..], b);
    }
  }

  /** A token verifies under a secret exactly when that secret gives the payload the same MAC. */
  lemma VerifyElsewhere<P>(k: Codec<P>, payload: P, secret: string, other: string)
    requires k.loads(k.dumps(payload)) == Some(Object(payload))
    ensures VerifyDeviceToken(k, CreateDeviceToken(k, payload, secret), other) ==
            if k.mac(secret, k.dumps(payload)) == k.mac(other, k.dumps(payload)) then Ok(payload)
            else Err(InvalidSignature)
  {
    hide Encode, Decode;
    var raw := k.dumps(payload);
    var sig := k.mac(secret, raw);
    var token := Encode(raw) + "." + Encode(sig);
    EncodeShape(raw);
    DotAt(Encode(raw), Encode(sig));
    assert token[..|Encode(raw)|] == Encode(raw) && token[|Encode(raw)| + 1..] == Encode(sig);
    DecodeUndoesEncode(raw);
    DecodeUndoesEncode(sig);
  }

  /** A token verifies under its own secret, and gives back its payload, when the JSON encoding can be undone. */
  lemma VerifyUndoesCreate<P>(k: Codec<P>, payload: P, secret: string)
    requires k.loads(k.dumps(payload)) == Some(Object(payload))
    ensures VerifyDeviceToken(k, CreateDeviceToken(k, payload, secret), secret) == Ok(payload)
  {
    hide CreateDeviceToken, VerifyDeviceToken;
    VerifyElsewhere(k, payload, secret, secret);
  }

  /** Whatever verifies carries the MAC of the payload it yields: only the two parts of the token matter. */
  lemma VerifiedIsSigned<P>(k: Codec<P>, token: string, secret: string, payload: P)
    requires VerifyDeviceToken(k, token, secret) == Ok(payload)
    ensures exists a: string, b: string, raw: Bytes ::
              && token == a + "." + b && '.' !in a
              && Decode(a) == Ok(raw) && Decode(b) == Ok(k.mac(secret, raw)) && k.loads(raw) == Some(Object(payload))
  {
    hide Decode;
    var dot := FirstDot(token);
    var a, b := token[..dot], token[dot + 1..];
    assert token == a + "." + b;
    var raw := Decode(a).value;
    assert Decode(b) == Ok(k.mac(secret, raw));
  }
}
