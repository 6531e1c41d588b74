/**
 What the lenient decoder of `device_token.py` makes of any text, and what a refused token is told: the alphabets, the
 digits as numbers, the characters that are skipped, and where padding counts.
 */
module TokenDecoding {
  import opened Wrappers

  import opened DeviceToken

  // ---- Digits -----------------------------------------------------------------------------------------

  const UPPER: string := "ABCDEFGHIJKLMNOPQRSTUVWXYZ"
  const LOWER: string := "abcdefghijklmnopqrstuvwxyz"
  const NUMERALS: string := "0123456789"

  /** The digits are letters, numerals, minus and underscore, in this order; plus and slash are read as the last two. */
  lemma AlphabetIs(v: int)
    requires 0 <= v < 64
    ensures Digit(v) == (UPPER + LOWER + NUMERALS + "-_")[v]
    ensures Value('+') == Value('-') && Value('/') == Value('_')
  {
    assert |UPPER| == 26 && |LOWER| == 26 && |NUMERALS| == 10;
    if v < 26 {
      UpperIs(v);
    } else if v < 52 {
      LowerIs(v - 26);
    } else if v < 62 {
      NumeralIs(v - 52);
    }
  }

  lemma UpperIs(v: int)
    requires 0 <= v < 26
    ensures UPPER[v] == 'A' + v as char
  {
  }

  lemma LowerIs(v: int)
    requires 0 <= v < 26
    ensures LOWER[v] == 'a' + v as char
  {
  }

  lemma NumeralIs(v: int)
    requires 0 <= v < 10
    ensures NUMERALS[v] == '0' + v as char
  {
  }

  /** Any other character has no value. */
  lemma OnlyDigitsHaveValues(c: char)
    ensures Value(c).Some? <==> 'A' <= c <= 'Z' || 'a' <= c <= 'z' || '0' <= c <= '9' || c in {'-', '_', '+', '/'}
  {
  }

  /** The value of a digit. */
  function At(s: string, i: nat): int
    requires i < |s| && Value(s[i]).Some?
  {
    Value(s[i]).value
  }

  /** Three bytes and their four digits are one number, in base 256 and base 64; fewer bytes are filled with zeros. */
  lemma GroupIsNumber(a: Byte, b: Byte, c: Byte)
    ensures
      var s := Group(a, b, c);
      AllDigits(s) && ((At(s, 0) * 64 + At(s, 1)) * 64 + At(s, 2)) * 64 + At(s, 3) == (a * 256 + b) * 256 + c
    ensures
      var t := Digits([a]);
      |t| == 2 && AllDigits(t) && At(t, 0) * 64 + At(t, 1) == a * 16
    ensures
      var t := Digits([a, b]);
      |t| == 3 && AllDigits(t) && (At(t, 0) * 64 + At(t, 1)) * 64 + At(t, 2) == (a * 256 + b) * 4
  {
    hide Value, Digit;
    assert a / 4 * 4 + a % 4 == a && b / 16 * 16 + b % 16 == b && c / 64 * 64 + c % 64 == c;
  }

  // ---- Any text ---------------------------------------------------------------------------------------

  /** The same text in the alphabet of the standard. */
  function Standard(s: string): string
  {
    if s == "" then ""
    else [if s[0] == '-' then '+' else if s[0] == '_' then '/' else s[0]] + Standard(s[1..])
  }

  predicate Foreign(c: char)
  {
    Value(c).None? && c != '='
  }

  /** The text without the characters that are neither digits nor padding. */
  function Known(s: string): string
  {
    if s == "" then "" else (if Foreign(s[0]) then "" else [s[0]]) + Known(s[1..])
  }

  predicate StateOk(quad: nat, left: nat)
  {
    quad < 4 && left < 64 && (quad == 2 ==> left < 16) && (quad == 3 ==> left < 4)
  }

  lemma {:induction false} StandardScans(s: string, quad: nat, left: nat, pads: nat, out: Bytes)
    requires StateOk(quad, left)
    ensures Scan(Standard(s), quad, left, pads, out) == Scan(s, quad, left, pads, out)
    decreases |s|
  {
    if s != "" {
      var c := Standard(s)[0];
      assert Standard(s)[1..] == Standard(s[1..]);
      assert Value(c) == Value(s[0]) && (c == '=' <==> s[0] == '=');
      hide Value;
      if s[0] == '=' {
        StandardScans(s[1..], quad, left, if quad >= 2 then pads + 1 else pads, out);
      } else {
        match Value(s[0])
        case None => StandardScans(s[1..], quad, left, pads, out);
        case Some(v) =>
          if quad == 0 {
            StandardScans(s[1..], 1, v, 0, out);
          } else if quad == 1 {
            StandardScans(s[1..], 2, v % 16, 0, out + [left * 4 + v / 16]);
          } else if quad == 2 {
            StandardScans(s[1..], 3, v % 4, 0, out + [left * 16 + v / 4]);
          } else {
            StandardScans(s[1..], 0, 0, 0, out + [left * 64 + v]);
          }
      }
    }
  }

  lemma {:induction false} KnownScans(s: string, quad: nat, left: nat, pads: nat, out: Bytes)
    requires StateOk(quad, left)
    ensures Scan(Known(s), quad, left, pads, out) == Scan(s, quad, left, pads, out)
    decreases |s|
  {
    hide Value;
    if s != "" {
      if Foreign(s[0]) {
        assert Known(s) == Known(s[1..]);
        KnownScans(s[1..], quad, left, pads, out);
      } else {
        assert Known(s)[0] == s[0] && Known(s)[1..] == Known(s[1..]);
        if s[0] == '=' {
          KnownScans(s[1..], quad, left, if quad >= 2 then pads + 1 else pads, out);
        } else {
          var v := Value(s[0]).value;
          if quad == 0 {
            KnownScans(s[1..], 1, v, 0, out);
          } else if quad == 1 {
            KnownScans(s[1..], 2, v % 16, 0, out + [left * 4 + v / 16]);
          } else if quad == 2 {
            KnownScans(s[1..], 3, v % 4, 0, out + [left * 16 + v / 4]);
          } else {
            KnownScans(s[1..], 0, 0, 0, out + [left * 64 + v]);
          }
        }
      }
    }
  }

  /** A character outside ASCII is an error; otherwise foreign characters are skipped, and either alphabet is read. */
  lemma DecodeSkipsForeign(s: string)
    ensures (exists i :: 0 <= i < |s| && s[i] > '\U{7F}') ==> Decode(s).Err?
    ensures (forall i :: 0 <= i < |s| ==> s[i] <= '\U{7F}') ==>
              && Decode(s) == Scan(Known(s + Equals((4 - |s| % 4) % 4)), 0, 0, 0, [])
              && Decode(s) == Scan(Standard(s + Equals((4 - |s| % 4) % 4)), 0, 0, 0, [])
  {
    KnownScans(s + Equals(Pads(|s|)), 0, 0, 0, []);
    StandardScans(s + Equals(Pads(|s|)), 0, 0, 0, []);
    hide Scan;
  }

  /** Where the scan stands after a run of digits, whatever follows. */
  lemma {:induction false} ScanPrefix(d: string, quad: nat, left: nat, out: Bytes) returns (left': nat, out': Bytes)
    requires AllDigits(d) && StateOk(quad, left)
    ensures StateOk((quad + |d|) % 4, left')
    ensures forall rest :: Scan(d + rest, quad, left, 0, out) == Scan(rest, (quad + |d|) % 4, left', 0, out')
    decreases |d|
  {
    hide Value, Scan;
    if d == "" {
      left', out' := left, out;
      assert forall rest: string :: d + rest == rest;
    } else {
      var v := Value(d[0]).value;
      var l := if quad == 0 then v else if quad == 1 then v % 16 else if quad == 2 then v % 4 else 0;
      var o :=
        if quad == 0 then out
        else if quad == 1 then out + [left * 4 + v / 16]
        else if quad == 2 then out + [left * 16 + v / 4]
        else out + [left * 64 + v];
      left', out' := ScanPrefix(d[1..], (quad + 1) % 4, l, o);
      forall rest
        ensures Scan(d + rest, quad, left, 0, out) == Scan(rest, (quad + |d|) % 4, left', 0, out')
      {
        assert d + rest == [d[0]] + (d[1..] + rest);
        ScanDigit(d[0], d[1..] + rest, quad, left, v, 0, out);
      }
    }
  }

  lemma PaddingSteps(rest: string, quad: nat, left: nat, out: Bytes, c: char)
    requires StateOk(quad, left)
    ensures quad < 2 ==> Scan("=" + rest, quad, left, 0, out) == Scan(rest, quad, left, 0, out)
    ensures quad == 3 ==> Scan("=" + rest, quad, left, 0, out) == Ok(out)
    ensures quad == 2 ==> Scan("==" + rest, quad, left, 0, out) == Ok(out)
    ensures quad == 2 && Value(c).Some? ==>
              Scan("=" + ([c] + rest), quad, left, 0, out) == Scan([c] + rest, quad, left, 0, out)
  {
    assert ("=" + rest)[1..] == rest && ("==" + rest)[1..] == "=" + rest;
    assert ("=" + ([c] + rest))[1..] == [c] + rest && ([c] + rest)[1..] == rest;
    EqualsHasNoValue();
    hide Value;
    assert quad == 2 ==> Scan("=" + rest, 2, left, 1, out) == Ok(out);
  }

  lemma EqualsHasNoValue()
    ensures Value('=').None?
  {
  }

  /**
   Padding ends the text where it completes a group: one sign after three digits of a group or two after two, and what
   follows is not looked at. Elsewhere it is skipped: before the second digit of a group, or single before the third.
   */
  lemma PaddingCounts(d: string, rest: string, c: char)
    requires AllDigits(d)
    ensures |d| % 4 == 3 ==>
              && Scan(d + "=" + rest, 0, 0, 0, []).Ok?
              && Scan(d + "=" + rest, 0, 0, 0, []) == Scan(d + "=", 0, 0, 0, [])
    ensures |d| % 4 == 2 ==>
              && Scan(d + "==" + rest, 0, 0, 0, []).Ok?
              && Scan(d + "==" + rest, 0, 0, 0, []) == Scan(d + "==", 0, 0, 0, [])
    ensures |d| % 4 < 2 ==> Scan(d + "=" + rest, 0, 0, 0, []) == Scan(d + rest, 0, 0, 0, [])
    ensures |d| % 4 == 2 && Value(c).Some? ==>
              Scan(d + "=" + [c] + rest, 0, 0, 0, []) == Scan(d + [c] + rest, 0, 0, 0, [])
  {
    hide Value, Scan;
    var left, out := ScanPrefix(d, 0, 0, []);
    PaddingSteps(rest, |d| % 4, left, out, c);
    PaddingSteps("", |d| % 4, left, out, c);
    assert d + "=" + rest == d + ("=" + rest) && d + "==" + rest == d + ("==" + rest);
    assert d + "=" + [c] + rest == d + ("=" + ([c] + rest)) && d + [c] + rest == d + ([c] + rest);
    assert "=" + "" == "=" && "==" + "" == "==";
  }

  // ---- Refusals ---------------------------------------------------------------------------------------

  /** A token of two parts that decode: what it says and the MAC it carries. */
  ghost predicate Parts(token: string, raw: Bytes, sig: Bytes)
  {
    exists a: string, b: string :: token == a + "." + b && '.' !in a && Decode(a) == Ok(raw) && Decode(b) == Ok(sig)
  }

  /**
   Why a token is refused: it is no two parts that decode; or the second is not the MAC of the first; or the first is
   no JSON object.
   */
  lemma RefusalIs<P>(k: Codec<P>, token: string, secret: string, raw: Bytes, sig: Bytes)
    ensures VerifyDeviceToken(k, token, secret) == Err(InvalidFormat) <==> !exists r, s :: Parts(token, r, s)
    ensures Parts(token, raw, sig) ==>
              && (VerifyDeviceToken(k, token, secret) == Err(InvalidSignature) <==> sig != k.mac(secret, raw))
              && (VerifyDeviceToken(k, token, secret) == Err(InvalidPayload) <==>
                    sig == k.mac(secret, raw) && (k.loads(raw).None? || k.loads(raw).value.Other?))
  {
    hide Decode;
    var dot := FirstDot(token);
    if dot < |token| {
      var a, b := token[..dot], token[dot + 1..];
      assert token == a + "." + b;
      if Decode(a).Ok? && Decode(b).Ok? {
        assert Parts(token, Decode(a).value, Decode(b).value);
      }
    }
    forall r, s | Parts(token, r, s)
      ensures dot < |token| && Decode(token[..dot]) == Ok(r) && Decode(token[dot + 1..]) == Ok(s)
    {
      var a: string, b: string :| token == a + "." + b && '.' !in a && Decode(a) == Ok(r) && Decode(b) == Ok(s);
      DotAt(a, b);
      assert token[..dot] == a && token[dot + 1..] == b;
    }
  }
}
