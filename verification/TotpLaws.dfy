/** What a code is, in terms of the numbers that its digits and the bytes of its message and of its digest stand for. */
module TotpLaws {
  import opened Options
  import opened Identifiers
  import opened Totp

  /** The number that some bytes stand for, the most significant first. */
  function Value(bytes: seq<Byte>): nat {
    if bytes == [] then 0 else Value(bytes[..|bytes| - 1]) * 256 + bytes[|bytes| - 1]
  }

  /** The number that some digits stand for. */
  function Number(digits: string): int {
    if digits == "" then 0 else Number(digits[..|digits| - 1]) * 10 + (digits[|digits| - 1] as int - '0' as int)
  }

  lemma {:induction false} BytesOfValue(bytes: seq<Byte>)
    ensures Bytes(Value(bytes), |bytes|) == bytes
  {
    if bytes != [] {
      var init := bytes[..|bytes| - 1];
      BytesOfValue(init);
      assert Value(bytes) / 256 == Value(init) && Value(bytes) % 256 == bytes[|bytes| - 1];
    }
  }

  lemma {:induction false} DigitIs(d: nat)
    requires d < 10
    ensures "0123456789"[d] as int - '0' as int == d
  {
  }

  lemma {:induction false} NumberOfPadded(n: nat, width: nat)
    requires n < Power10(width)
    ensures Number(Padded(n, width)) == n
  {
    if width > 0 {
      NumberOfPadded(n / 10, width - 1);
      var s := Padded(n, width);
      assert s[..width - 1] == Padded(n / 10, width - 1);
      DigitIs(n % 10);
    }
  }

  /** The four bytes of a digest from an offset on, as one number without its topmost bit. */
  function Truncated(hash: seq<Byte>, offset: nat): nat
    requires offset + 3 < |hash|
  {
    Value(hash[offset..offset + 4]) % 0x8000_0000
  }

  lemma {:induction false} FourBytes(a: Byte, b: Byte, c: Byte, d: Byte)
    ensures Value([a, b, c, d]) == BigEndian(a, b, c, d)
  {
    var s := [a, b, c, d];
    assert s[..3] == [a, b, c] && [a, b, c][..2] == [a, b] && [a, b][..1] == [a] && [a][..0] == [];
    assert Value([a]) == a;
    assert Value([a, b]) == a * 256 + b;
    assert Value([a, b, c]) == (a * 256 + b) * 256 + c;
  }

  /** The code of a digest: six digits, which stand for its four bytes at the offset that its last byte gives modulo 16,
      without their topmost bit, modulo a million. */
  ghost predicate StandsFor(code: string, hash: seq<Byte>)
    requires |hash| == 20
  {
    && |code| == 6 && (forall i :: 0 <= i < 6 ==> '0' <= code[i] <= '9')
    && Number(code) == Truncated(hash, hash[19] % 16) % 1_000_000
  }

  lemma {:induction false} TruncatedIsBinary(hash: seq<Byte>)
    requires |hash| == 20
    ensures BinaryCode(hash) == Truncated(hash, hash[19] % 16)
  {
    hide Value, BigEndian, BinaryCode;
    var offset := hash[19] % 16;
    TruncationIsBigEndian(hash);
    FourBytes(hash[offset], hash[offset + 1], hash[offset + 2], hash[offset + 3]);
    assert hash[offset..offset + 4] == [hash[offset], hash[offset + 1], hash[offset + 2], hash[offset + 3]];
  }

  lemma {:induction false} SixDigits(hash: seq<Byte>)
    requires |hash| == 20
    ensures StandsFor(Padded(BinaryCode(hash) % MODULUS, 6), hash)
  {
    hide Padded, BinaryCode, Truncated, Number;
    TruncatedIsBinary(hash);
    var n := BinaryCode(hash) % MODULUS;
    assert Power10(6) == 1_000_000;
    NumberOfPadded(n, 6);
    forall i | 0 <= i < 6 ensures '0' <= Padded(n, 6)[i] <= '9' {
      PaddedIsDigits(n, 6, i);
    }
  }

  /** A secret that can be decoded has the code of the digest of the eight bytes that stand for the number of whole
      thirty-second steps; one that cannot has none. */
  lemma {:induction false} GeneratesExactly(p: Primitives, secret: string, t: Time, message: seq<Byte>)
    requires Hashes(p) && 0 <= t < 0x1_0000_0000_0000_0000
    requires |message| == 8 && Value(message) == t / 30
    ensures Generated(p, secret, t).Some? <==> p.decode(secret).Some?
    ensures p.decode(secret).Some? ==>
      StandsFor(Generated(p, secret, t).value, p.hmac(p.decode(secret).value, message))
  {
    hide Padded, BinaryCode, Value, StandsFor;
    BytesOfValue(message);
    StepCounters(t);
    if p.decode(secret).Some? {
      SixDigits(p.hmac(p.decode(secret).value, message));
    }
  }

  /** Validation compares the code without the white space around it, if that has six characters, with those of the
      present instant and of thirty seconds before and after. */
  lemma {:induction false} AcceptsExactly(p: Primitives, secret: string, code: string, t: Time)
    requires Hashes(p)
    ensures Accepts(p, secret, code, t) <==>
      (|TrimSpace(code)| == 6
      && exists skew :: skew in [-30, 0, 30] && Generated(p, secret, t + skew) == Some(TrimSpace(code)))
  {
    hide Generated, TrimSpace;
    assert -30 in [-30, 0, 30] && 0 in [-30, 0, 30] && 30 in [-30, 0, 30];
    assert t + -30 == t - STEP && t + 0 == t && t + 30 == t + STEP;
  }

  predicate Blank(s: string) {
    forall i :: 0 <= i < |s| ==> IsSpace(s[i])
  }

  lemma {:induction false} TrimLeftExactly(s: string) returns (blank: string)
    ensures s == blank + TrimLeft(s) && Blank(blank)
    ensures TrimLeft(s) != "" ==> !IsSpace(TrimLeft(s)[0])
  {
    if s != "" && IsSpace(s[0]) {
      blank := TrimLeftExactly(s[1..]);
      assert s == [s[0]] + s[1..];
      blank := [s[0]] + blank;
    } else {
      blank := "";
    }
  }

  lemma {:induction false} TrimRightExactly(s: string) returns (blank: string)
    ensures s == TrimRight(s) + blank && Blank(blank)
    ensures TrimRight(s) != "" ==> !IsSpace(TrimRight(s)[|TrimRight(s)| - 1]) && TrimRight(s)[0] == s[0]
  {
    if s != "" && IsSpace(s[|s| - 1]) {
      blank := TrimRightExactly(s[..|s| - 1]);
      assert s == s[..|s| - 1] + [s[|s| - 1]];
      blank := blank + [s[|s| - 1]];
    } else {
      blank := "";
    }
  }

  /** Trimming takes white space off both ends, all of it, and nothing else. */
  lemma {:induction false} TrimsExactly(s: string) returns (before: string, after: string)
    ensures s == before + TrimSpace(s) + after && Blank(before) && Blank(after)
    ensures var core := TrimSpace(s); core != "" ==> !IsSpace(core[0]) && !IsSpace(core[|core| - 1])
  {
    before := TrimLeftExactly(s);
    after := TrimRightExactly(TrimLeft(s));
  }

  /** Of the ASCII characters, white space is the blank and the five from tab to carriage return. */
  lemma {:induction false} AsciiSpaces(c: char)
    requires c as int < 128
    ensures IsSpace(c) <==> c as int == 32 || 9 <= c as int <= 13
  {
  }
}
