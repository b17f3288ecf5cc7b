/** Time-based one-time passwords: the truncation of RFC 4226, section 5.3, its six-digit form, and the time steps and
    the skew window of RFC 6238, sections 4.2 and 5.2. The keyed hash is a parameter. */
module Totp {
  import opened Options
  import opened Identifiers
  import opened Arithmetic

  type Byte = x: int | 0 <= x < 256

  // ---- Machine operations on bits ----

  function And(a: nat, b: nat): nat {
    if a == 0 || b == 0 then 0 else 2 * And(a / 2, b / 2) + if a % 2 == 1 && b % 2 == 1 then 1 else 0
  }

  function Or(a: nat, b: nat): nat
    decreases a + b
  {
    if a == 0 && b == 0 then 0 else 2 * Or(a / 2, b / 2) + if a % 2 == 1 || b % 2 == 1 then 1 else 0
  }

  function ShiftLeft(a: nat, k: nat): (r: nat)
    ensures r >= a
  {
    if k == 0 then a else 2 * ShiftLeft(a, k - 1)
  }

  /** The number whose k bits are all ones. */
  function Ones(k: nat): nat {
    ShiftLeft(1, k) - 1
  }

  /** A mask of ones keeps the low bits. */
  lemma {:induction false} MaskKeepsLowBits(a: nat, k: nat)
    ensures ShiftLeft(1, k) > 0 && And(a, Ones(k)) == a % ShiftLeft(1, k)
  {
    if k == 0 {
      assert Ones(0) == 0;
    } else {
      MaskKeepsLowBits(a / 2, k - 1);
      assert Ones(k) == 2 * Ones(k - 1) + 1;
      Halves(a, ShiftLeft(1, k - 1));
      if a != 0 {
        assert And(a, Ones(k)) == 2 * And(a / 2, Ones(k - 1)) + a % 2;
      }
    }
  }

  lemma {:induction false} Halves(a: nat, m: nat)
    requires m > 0
    ensures a % (2 * m) == 2 * ((a / 2) % m) + a % 2
  {
    var q, r := (a / 2) / m, (a / 2) % m;
    assert a / 2 == q * m + r;
    assert a == q * (2 * m) + (2 * r + a % 2);
    QuotientAndRemainder(a, q, 2 * r + a % 2, 2 * m);
  }

  /** Bits that do not overlap are joined by adding. */
  lemma {:induction false} OrOfDisjoint(a: nat, b: nat, k: nat)
    requires b < ShiftLeft(1, k)
    ensures Or(ShiftLeft(a, k), b) == ShiftLeft(a, k) + b
  {
    if k == 0 {
      OrZero(a);
    } else {
      OrOfDisjoint(a, b / 2, k - 1);
    }
  }

  lemma {:induction false} OrZero(a: nat)
    ensures Or(a, 0) == a
  {
    if a > 0 {
      OrZero(a / 2);
    }
  }

  // ---- Truncation ----

  /** The masked shifts of the program, joined bit by bit. */
  function BinaryCode(hash: seq<Byte>): nat
    requires |hash| == 20
  {
    var offset := And(hash[|hash| - 1], 0x0f);
    OffsetInRange(hash[|hash| - 1]);
    Or(Or(Or(
      ShiftLeft(And(hash[offset], 0x7f), 24),
      ShiftLeft(And(hash[offset + 1], 0xff), 16)),
      ShiftLeft(And(hash[offset + 2], 0xff), 8)),
      And(hash[offset + 3], 0xff))
  }

  /** Every index that truncation uses is within a 20-byte digest. */
  lemma {:induction false} OffsetInRange(last: Byte)
    ensures And(last, 0x0f) == last % 16 && And(last, 0x0f) + 3 < 20
  {
    MaskKeepsLowBits(last, 4);
    Shifts(1);
  }

  lemma {:induction false} ShiftAdds(a: nat, j: nat, k: nat)
    ensures ShiftLeft(a, j + k) == ShiftLeft(ShiftLeft(a, j), k)
  {
    if k > 0 {
      ShiftAdds(a, j, k - 1);
    }
  }

  lemma {:induction false} Shifts(a: nat)
    ensures ShiftLeft(a, 4) == 16 * a && ShiftLeft(a, 7) == 128 * a && ShiftLeft(a, 8) == 256 * a
    ensures ShiftLeft(a, 16) == 0x1_0000 * a && ShiftLeft(a, 24) == 0x100_0000 * a
  {
    Shift8(a);
    Shift8(256 * a);
    Shift8(0x1_0000 * a);
    ShiftAdds(a, 8, 8);
    ShiftAdds(a, 16, 8);
  }

  lemma {:induction false} Shift8(a: nat)
    ensures ShiftLeft(a, 4) == 16 * a && ShiftLeft(a, 7) == 128 * a && ShiftLeft(a, 8) == 256 * a
  {
    assert ShiftLeft(a, 1) == 2 * a;
    assert ShiftLeft(a, 2) == 4 * a;
    assert ShiftLeft(a, 3) == 8 * a;
    assert ShiftLeft(a, 5) == 32 * a;
    assert ShiftLeft(a, 6) == 64 * a;
  }

  /** Four bytes as one number, the first byte first. */
  function BigEndian(a: nat, b: Byte, c: Byte, d: Byte): nat {
    ((a * 256 + b) * 256 + c) * 256 + d
  }

  lemma {:induction false} JoinedBytes(a: nat, b: Byte, c: Byte, d: Byte)
    ensures Or(Or(Or(ShiftLeft(a, 24), ShiftLeft(b, 16)), ShiftLeft(c, 8)), d) == BigEndian(a, b, c, d)
  {
    hide ShiftLeft, Or;
    Shifts(1);
    Shifts(a);
    Shifts(b);
    OrOfDisjoint(a, ShiftLeft(b, 16), 24);
    var ab := 256 * a + b;
    Shifts(ab);
    Shifts(c);
    OrOfDisjoint(ab, ShiftLeft(c, 8), 16);
    var abc := 256 * ab + c;
    Shifts(abc);
    OrOfDisjoint(abc, d, 8);
  }

  lemma {:induction false} WithoutTopBit(a: Byte, b: Byte, c: Byte, d: Byte)
    ensures BigEndian(a, b, c, d) % 0x8000_0000 == BigEndian(a % 128, b, c, d)
  {
  }

  /** The masked shifts are the four bytes at the offset that the last byte gives, as one big-endian number, without its
      topmost bit; all the bytes are within the digest. */
  lemma {:induction false} TruncationIsBigEndian(hash: seq<Byte>)
    requires |hash| == 20
    ensures var offset := hash[19] % 16;
      && offset + 3 < |hash|
      && BinaryCode(hash) == BigEndian(hash[offset], hash[offset + 1], hash[offset + 2], hash[offset + 3]) % 0x8000_0000
  {
    hide ShiftLeft, And, Or, BigEndian;
    var offset := hash[19] % 16;
    OffsetInRange(hash[19]);
    Shifts(1);
    assert Ones(4) == 0x0f && Ones(7) == 0x7f && Ones(8) == 0xff;
    MaskKeepsLowBits(hash[offset], 7);
    MaskKeepsLowBits(hash[offset + 1], 8);
    MaskKeepsLowBits(hash[offset + 2], 8);
    MaskKeepsLowBits(hash[offset + 3], 8);
    JoinedBytes(hash[offset] % 128, hash[offset + 1], hash[offset + 2], hash[offset + 3]);
    WithoutTopBit(hash[offset], hash[offset + 1], hash[offset + 2], hash[offset + 3]);
  }

  // ---- Six digits ----

  const MODULUS := 1_000_000

  /** The last `width` decimal digits of a number, zeros in front included. */
  function Padded(n: nat, width: nat): (s: string)
    ensures |s| == width
  {
    if width == 0 then "" else Padded(n / 10, width - 1) + ["0123456789"[n % 10]]
  }

  function Power10(width: nat): nat {
    if width == 0 then 1 else 10 * Power10(width - 1)
  }

  /** Different numbers of at most so many digits have different forms. */
  lemma {:induction false} PaddedInjective(a: nat, b: nat, width: nat)
    requires a < Power10(width) && b < Power10(width) && Padded(a, width) == Padded(b, width)
    ensures a == b
  {
    if width > 0 {
      var x, y := Padded(a, width), Padded(b, width);
      assert x[width - 1] == "0123456789"[a % 10] && y[width - 1] == "0123456789"[b % 10];
      assert x[..width - 1] == Padded(a / 10, width - 1) && y[..width - 1] == Padded(b / 10, width - 1);
      PaddedInjective(a / 10, b / 10, width - 1);
    }
  }

  lemma {:induction false} PaddedIsDigits(n: nat, width: nat, i: nat)
    requires i < width
    ensures '0' <= Padded(n, width)[i] <= '9'
  {
    if i < width - 1 {
      PaddedIsDigits(n / 10, width - 1, i);
    }
  }

  // ---- Codes ----

  /** The decoding of a secret, which may fail, and the keyed hash, of 20 bytes. */
  datatype Primitives = Primitives(decode: string -> Option<seq<Byte>>, hmac: (seq<Byte>, seq<Byte>) -> seq<Byte>)

  ghost predicate Hashes(p: Primitives) {
    forall key, message :: |p.hmac(key, message)| == 20
  }

  /** Go's division rounds towards zero, and the conversion to uint64 wraps. */
  function TruncatedQuotient(a: int, b: int): int
    requires b > 0
  {
    if a < 0 then -((-a) / b) else a / b
  }

  const STEP := 30
  const TWO_64 := 0x1_0000_0000_0000_0000

  function Counter(t: Time): nat {
    TruncatedQuotient(t, STEP) % TWO_64
  }

  /** A number as so many bytes, the most significant first. */
  function Bytes(n: nat, width: nat): (s: seq<Byte>)
    ensures |s| == width
  {
    if width == 0 then [] else Bytes(n / 256, width - 1) + [n % 256]
  }

  function CodeOf(p: Primitives, key: seq<Byte>, counter: nat): string
    requires |p.hmac(key, Bytes(counter, 8))| == 20
  {
    Padded(BinaryCode(p.hmac(key, Bytes(counter, 8))) % MODULUS, 6)
  }

  /** The code of a secret at a time, or None when the secret cannot be decoded. */
  ghost function Generated(p: Primitives, secret: string, t: Time): Option<string>
    requires Hashes(p)
  {
    match p.decode(secret)
    case None => None
    case Some(key) => Some(CodeOf(p, key, Counter(t)))
  }

  predicate IsSpace(c: char) {
    || '\t' <= c <= '\r' || c == ' ' || c == '\U{85}' || c == '\U{A0}' || c == '\U{1680}'
    || '\U{2000}' <= c <= '\U{200A}' || c == '\U{2028}' || c == '\U{2029}'
    || c == '\U{202F}' || c == '\U{205F}' || c == '\U{3000}'
  }

  function TrimLeft(s: string): string {
    if s != "" && IsSpace(s[0]) then TrimLeft(s[1..]) else s
  }

  function TrimRight(s: string): string {
    if s != "" && IsSpace(s[|s| - 1]) then TrimRight(s[..|s| - 1]) else s
  }

  function TrimSpace(s: string): string {
    TrimRight(TrimLeft(s))
  }

  ghost predicate Accepts(p: Primitives, secret: string, code: string, t: Time)
    requires Hashes(p)
  {
    && |TrimSpace(code)| == 6
    && (|| Generated(p, secret, t - STEP) == Some(TrimSpace(code))
        || Generated(p, secret, t) == Some(TrimSpace(code))
        || Generated(p, secret, t + STEP) == Some(TrimSpace(code)))
  }

  lemma {:induction false} StepCounters(t: Time)
    requires 0 <= t < TWO_64
    ensures Counter(t) == t / STEP && Counter(t + STEP) == t / STEP + 1
    ensures Counter(t - STEP) == if t >= STEP then t / STEP - 1 else if t > 0 then 0 else TWO_64 - 1
  {
  }

  /** From 30 seconds past the epoch on, validation accepts exactly the codes of the current time step, the one before
      and the one after; before that, the step before the first is taken for the first one itself, and at the very epoch
      for the last of all. */
  lemma {:induction false} AcceptsExactlyThreeSteps(p: Primitives, secret: string, code: string, t: Time)
    requires Hashes(p) && 0 <= t < TWO_64
    ensures Accepts(p, secret, code, t) <==>
      p.decode(secret).Some? && exists c: nat ::
        && CodeOf(p, p.decode(secret).value, c) == TrimSpace(code)
        && (c == t / STEP || c == t / STEP + 1 || c == if t >= STEP then t / STEP - 1 else if t > 0 then 0
          else TWO_64 - 1)
  {
    StepCounters(t);
    if p.decode(secret).Some? {
      var key := p.decode(secret).value;
      assert |CodeOf(p, key, Counter(t))| == 6;
      assert |CodeOf(p, key, Counter(t - STEP))| == |CodeOf(p, key, Counter(t + STEP))| == 6;
    }
  }

  lemma {:induction false} TrimKeepsCode(s: string)
    requires s != "" && !IsSpace(s[0]) && !IsSpace(s[|s| - 1])
    ensures TrimSpace(s) == s
  {
  }

  /** A code generated at one time is accepted at every time at most 30 seconds away. */
  lemma {:induction false} SkewOfOneStepIsAccepted(p: Primitives, secret: string, t: Time, t': Time)
    requires Hashes(p) && p.decode(secret).Some?
    requires 0 <= t < TWO_64 && 0 <= t' < TWO_64 && -STEP <= t - t' <= STEP
    ensures Accepts(p, secret, Generated(p, secret, t).value, t')
  {
    hide Padded, BinaryCode;
    var key := p.decode(secret).value;
    var code := CodeOf(p, key, Counter(t));
    StepCounters(t);
    StepCounters(t');
    PaddedIsDigits(BinaryCode(p.hmac(key, Bytes(Counter(t), 8))) % MODULUS, 6, 0);
    PaddedIsDigits(BinaryCode(p.hmac(key, Bytes(Counter(t), 8))) % MODULUS, 6, 5);
    TrimKeepsCode(code);
    assert t / STEP == t' / STEP - 1 || t / STEP == t' / STEP || t / STEP == t' / STEP + 1;
  }

  // ---- The program ----

  /** Fills a buffer with a counter, the most significant byte first. */
  method PutUint64(buf: array<Byte>, counter: nat)
    requires buf.Length == 8
    modifies buf
    ensures buf[..] == Bytes(counter, 8)
  {
    var i, rest := 8, counter;
    while i > 0
      invariant 0 <= i <= 8
      invariant Bytes(rest, i) + buf[i..] == Bytes(counter, 8)
    {
      i := i - 1;
      buf[i] := rest % 256;
      rest := rest / 256;
    }
  }

  method GenerateTOTPCode(p: Primitives, secret: string, t: Time) returns (code: Option<string>)
    requires Hashes(p)
    ensures code == Generated(p, secret, t)
  {
    var key := p.decode(secret);
    if key.None? {
      return None;
    }
    var buf := new Byte[8];
    PutUint64(buf, Counter(t));
    var hash := p.hmac(key.value, buf[..]);
    return Some(Padded(BinaryCode(hash) % MODULUS, 6));
  }

  method ValidateTOTPCode(p: Primitives, secret: string, code: string, t: Time) returns (valid: bool)
    requires Hashes(p)
    ensures valid <==> Accepts(p, secret, code, t)
  {
    var trimmed := TrimSpace(code);
    if |trimmed| != 6 {
      return false;
    }
    var steps := [t - STEP, t, t + STEP];
    for i := 0 to |steps|
      invariant forall j :: 0 <= j < i ==> Generated(p, secret, steps[j]) != Some(trimmed)
    {
      var generated := GenerateTOTPCode(p, secret, steps[i]);
      if generated == Some(trimmed) {
        return true;
      }
    }
    assert steps[0] == t - STEP && steps[1] == t && steps[2] == t + STEP;
    return false;
  }
}
