/** Numbers written out, and the idempotency keys made from them. */
module Texts {
  import opened Identifiers

  function Digit(d: nat): char
    requires d < 16
  {
    "0123456789abcdef"[d]
  }

  lemma {:induction false} DigitsDiffer(a: nat, b: nat)
    requires a < 16 && b < 16 && Digit(a) == Digit(b)
    ensures a == b
  {
  }

  function Decimal(n: nat): string {
    if n < 10 then [Digit(n)] else Decimal(n / 10) + [Digit(n % 10)]
  }

  predicate IsDigits(s: string) {
    forall i :: 0 <= i < |s| ==> s[i] != '-'
  }

  lemma {:induction false} DecimalIsDigits(n: nat)
    ensures IsDigits(Decimal(n)) && |Decimal(n)| > 0
  {
    if n >= 10 {
      DecimalIsDigits(n / 10);
    }
  }

  lemma {:induction false} DecimalInjective(a: nat, b: nat)
    requires Decimal(a) == Decimal(b)
    ensures a == b
  {
    var x, y := Decimal(a), Decimal(b);
    assert x[|x| - 1] == Digit(a % 10) && y[|y| - 1] == Digit(b % 10);
    DigitsDiffer(a % 10, b % 10);
    DecimalIsDigits(a / 10);
    DecimalIsDigits(b / 10);
    if a >= 10 && b >= 10 {
      assert x[..|x| - 1] == Decimal(a / 10) && y[..|y| - 1] == Decimal(b / 10);
      DecimalInjective(a / 10, b / 10);
    }
  }

  /** The last `width` hexadecimal digits of a number. */
  function Hex(n: nat, width: nat): (s: string)
    ensures |s| == width
  {
    if width == 0 then "" else Hex(n / 16, width - 1) + [Digit(n % 16)]
  }

  function Power16(width: nat): nat {
    if width == 0 then 1 else 16 * Power16(width - 1)
  }

  lemma {:induction false} HexInjective(a: nat, b: nat, width: nat)
    requires a < Power16(width) && b < Power16(width) && Hex(a, width) == Hex(b, width)
    ensures a == b
  {
    if width > 0 {
      var x, y := Hex(a, width), Hex(b, width);
      assert x[width - 1] == Digit(a % 16) && y[width - 1] == Digit(b % 16);
      DigitsDiffer(a % 16, b % 16);
      assert x[..width - 1] == Hex(a / 16, width - 1) && y[..width - 1] == Hex(b / 16, width - 1);
      HexInjective(a / 16, b / 16, width - 1);
    }
  }

  predicate IsUuid(id: nat) {
    id < Power16(32)
  }

  /** Five groups of digits, of 8, 4, 4, 4 and 12, with dashes between them. */
  function Grouped(h: string): (s: string)
    requires |h| == 32
    ensures |s| == 36
  {
    h[..8] + "-" + h[8..12] + "-" + h[12..16] + "-" + h[16..20] + "-" + h[20..]
  }

  function Ungrouped(s: string): string
    requires |s| == 36
  {
    s[..8] + s[9..13] + s[14..18] + s[19..23] + s[24..]
  }

  lemma {:induction false} GroupingKeepsDigits(h: string)
    requires |h| == 32
    ensures Ungrouped(Grouped(h)) == h
  {
    var s, u := Grouped(h), Ungrouped(Grouped(h));
    forall i | 0 <= i < 32 ensures u[i] == h[i] {
      if i < 8 {
        assert u[i] == s[i];
      } else if i < 12 {
        assert u[i] == s[i + 1];
      } else if i < 16 {
        assert u[i] == s[i + 2];
      } else if i < 20 {
        assert u[i] == s[i + 3];
      } else {
        assert u[i] == s[i + 4];
      }
    }
  }

  /** The canonical form of a UUID. */
  function Canonical(id: nat): (s: string)
    ensures |s| == 36
  {
    Grouped(Hex(id, 32))
  }

  lemma {:induction false} CanonicalInjective(a: nat, b: nat)
    requires IsUuid(a) && IsUuid(b) && Canonical(a) == Canonical(b)
    ensures a == b
  {
    GroupingKeepsDigits(Hex(a, 32));
    GroupingKeepsDigits(Hex(b, 32));
    HexInjective(a, b, 32);
  }

  // ---- The order of ids is the order of their texts ----

  /** Two texts agree before position k, where the first has the lesser character. */
  predicate LessAt(s: string, t: string, k: nat) {
    k < |s| && k < |t| && s[..k] == t[..k] && s[k] < t[k]
  }

  /** The order of texts of equal length. */
  ghost predicate Less(s: string, t: string) {
    exists k: nat :: LessAt(s, t, k)
  }

  lemma {:induction false} LessIsStrict(s: string, t: string)
    requires Less(s, t)
    ensures !Less(t, s)
  {
    var k: nat :| LessAt(s, t, k);
    forall j: nat ensures !LessAt(t, s, j) {
      if j < k {
        assert s[j] == s[..k][j] == t[..k][j] == t[j];
      } else if k < j < |s| && j < |t| {
        assert s[..j][k] != t[..j][k];
      }
    }
  }

  lemma {:induction false} DigitsGrow(a: nat, b: nat)
    requires a < b < 16
    ensures Digit(a) < Digit(b)
  {
  }

  lemma {:induction false} HexGrows(a: nat, b: nat, width: nat) returns (k: nat)
    requires a < b < Power16(width)
    ensures LessAt(Hex(a, width), Hex(b, width), k)
  {
    var x, y := Hex(a, width), Hex(b, width);
    assert x[..width - 1] == Hex(a / 16, width - 1) && y[..width - 1] == Hex(b / 16, width - 1);
    if a / 16 < b / 16 {
      k := HexGrows(a / 16, b / 16, width - 1);
      assert x[..width - 1][..k] == x[..k] && y[..width - 1][..k] == y[..k];
    } else {
      k := width - 1;
      DigitsGrow(a % 16, b % 16);
    }
  }

  /** Where a digit stands once the dashes are in. */
  function Place(k: nat): nat {
    if k < 8 then k else if k < 12 then k + 1 else if k < 16 then k + 2 else if k < 20 then k + 3 else k + 4
  }

  lemma {:induction false} GroupedAt(h: string, j: nat)
    requires |h| == 32 && j < 36
    ensures Grouped(h)[j] ==
      if j < 8 then h[j] else if j == 8 then '-' else if j < 13 then h[j - 1] else if j == 13 then '-'
      else if j < 18 then h[j - 2] else if j == 18 then '-' else if j < 23 then h[j - 3] else if j == 23 then '-'
      else h[j - 4]
  {
  }

  lemma {:induction false} GroupingKeepsLess(h: string, h': string, k: nat)
    requires |h| == |h'| == 32 && LessAt(h, h', k)
    ensures LessAt(Grouped(h), Grouped(h'), Place(k))
  {
    hide Grouped;
    forall i | 0 <= i < k ensures h[i] == h'[i] {
      assert h[i] == h[..k][i] == h'[..k][i];
    }
    forall j: nat | j < Place(k) ensures Grouped(h)[j] == Grouped(h')[j] {
      GroupedAt(h, j);
      GroupedAt(h', j);
    }
    GroupedAt(h, Place(k));
    GroupedAt(h', Place(k));
  }

  /** One id is less than another exactly when its canonical form comes first. */
  lemma {:induction false} CanonicalKeepsOrder(a: nat, b: nat)
    requires IsUuid(a) && IsUuid(b)
    ensures a < b <==> Less(Canonical(a), Canonical(b))
  {
    hide Grouped, Hex, Less;
    if a < b {
      CanonicalGrows(a, b);
    } else if b < a {
      CanonicalGrows(b, a);
      LessIsStrict(Canonical(b), Canonical(a));
    } else {
      NotLessThanItself(Canonical(a));
    }
  }

  lemma {:induction false} NotLessThanItself(s: string)
    ensures !Less(s, s)
  {
  }

  lemma {:induction false} CanonicalGrows(a: nat, b: nat)
    requires a < b && IsUuid(b)
    ensures Less(Canonical(a), Canonical(b))
  {
    hide Grouped, Hex;
    var k := HexGrows(a, b, 32);
    GroupingKeepsLess(Hex(a, 32), Hex(b, 32), k);
    assert LessAt(Canonical(a), Canonical(b), Place(k));
  }

  function UpToDash(s: string): nat {
    if s == "" || s[0] == '-' then 0 else 1 + UpToDash(s[1..])
  }

  lemma {:induction false} DashFollowsDigits(a: string, b: string)
    requires IsDigits(a)
    ensures UpToDash(a + "-" + b) == |a|
  {
    if a != "" {
      DashFollowsDigits(a[1..], b);
      assert (a + "-" + b)[1..] == a[1..] + "-" + b;
    }
  }

  lemma {:induction false} SplitAtDash(a: string, b: string, c: string, d: string)
    requires IsDigits(a) && IsDigits(c) && a + "-" + b == c + "-" + d
    ensures a == c && b == d
  {
    var s := a + "-" + b;
    DashFollowsDigits(a, b);
    DashFollowsDigits(c, d);
    assert s[..|a|] == a && s[..|c|] == c;
    assert s[|a| + 1..] == b && s[|c| + 1..] == d;
  }

  /** The key of the operation that provisions one unit of one item of an order. */
  function ProvisionKey(order: OrderId, item: nat, unit: nat): string {
    OrderPrefix(order) + (Decimal(item) + "-" + Decimal(unit))
  }

  function OrderPrefix(order: OrderId): (s: string)
    ensures |s| == 47
  {
    "provision-" + Canonical(order) + "-"
  }

  lemma {:induction false} PrefixInjective(o: OrderId, o': OrderId)
    requires IsUuid(o) && IsUuid(o') && OrderPrefix(o) == OrderPrefix(o')
    ensures o == o'
  {
    assert OrderPrefix(o)[10..46] == Canonical(o) && OrderPrefix(o')[10..46] == Canonical(o');
    CanonicalInjective(o, o');
  }

  /** Different units have different keys, and none of them is empty. */
  lemma {:induction false} ProvisionKeyInjective(o: OrderId, i: nat, q: nat, o': OrderId, i': nat, q': nat)
    requires IsUuid(o) && IsUuid(o')
    ensures ProvisionKey(o, i, q) != ""
    ensures ProvisionKey(o, i, q) == ProvisionKey(o', i', q') ==> o == o' && i == i' && q == q'
  {
    hide OrderPrefix, Decimal;
    var s, s' := ProvisionKey(o, i, q), ProvisionKey(o', i', q');
    if s == s' {
      assert s[..47] == OrderPrefix(o) && s'[..47] == OrderPrefix(o');
      assert s[47..] == Decimal(i) + "-" + Decimal(q) && s'[47..] == Decimal(i') + "-" + Decimal(q');
      PrefixInjective(o, o');
      DecimalIsDigits(i);
      DecimalIsDigits(i');
      SplitAtDash(Decimal(i), Decimal(q), Decimal(i'), Decimal(q'));
      DecimalInjective(i, i');
      DecimalInjective(q, q');
    }
  }
}
