/**
 A uuid is a 128-bit number; its text is 32 lowercase hexadecimal digits in groups of
 8, 4, 4, 4 and 12 joined by dashes (section 4 of RFC 9562).  The database orders uuid
 columns by the number, and text columns byte by byte.
 */
module Uuid {
  import Lex

  const LIMIT: nat := 0x1_0000_0000_0000_0000_0000_0000_0000_0000

  type Uuid = n: nat | n < LIMIT

  function Pow16(w: nat): (p: nat)
    ensures p > 0
  {
    if w == 0 then 1 else 16 * Pow16(w - 1)
  }

  function HexDigit(d: nat): char
    requires d < 16
  {
    "0123456789abcdef"[d]
  }

  /** The `w` low-order hexadecimal digits of `n`, most significant first. */
  function Hex(n: nat, w: nat): (s: string)
    ensures |s| == w
  {
    if w == 0 then "" else Hex(n / 16, w - 1) + [HexDigit(n % 16)]
  }

  /** Cuts 32 digits into the five dashed groups. */
  function Dashed(s: string): (t: string)
    requires |s| == 32
    ensures |t| == 36
  {
    s[..8] + "-" + (s[8..12] + "-" + (s[12..16] + "-" + (s[16..20] + "-" + s[20..])))
  }

  /** `id::text`. */
  function Text(id: Uuid): string {
    Dashed(Hex(id, 32))
  }

  /** The text form: 36 characters, dashes at four fixed places and lowercase hexadecimal digits everywhere else. */
  lemma TextForm(id: Uuid, i: nat)
    requires i < 36
    ensures |Text(id)| == 36
    ensures Text(id)[i] == '-' <==> i in {8, 13, 18, 23}
    ensures Text(id)[i] == '-' || '0' <= Text(id)[i] <= '9' || 'a' <= Text(id)[i] <= 'f'
  {
    HexDigits(id, 32);
    DashedAt(Hex(id, 32), i);
  }

  lemma {:induction false} HexDigits(n: nat, w: nat)
    ensures forall i :: 0 <= i < w ==> '0' <= Hex(n, w)[i] <= '9' || 'a' <= Hex(n, w)[i] <= 'f'
  {
    if w > 0 {
      HexDigits(n / 16, w - 1);
      assert '0' <= HexDigit(n % 16) <= '9' || 'a' <= HexDigit(n % 16) <= 'f';
    }
  }

  /** Where each character comes from. */
  lemma DashedAt(s: string, i: nat)
    requires |s| == 32 && i < 36
    ensures Dashed(s)[i]
            == if i in {8, 13, 18, 23} then '-'
               else s[if i < 8 then i else if i < 13 then i - 1 else if i < 18 then i - 2 else if i < 23 then i - 3 else i - 4]
  {
  }

  lemma DigitOrder(c: nat, d: nat)
    requires c < 16 && d < 16
    ensures Lex.Less([HexDigit(c)], [HexDigit(d)]) <==> c < d
    ensures [HexDigit(c)] == [HexDigit(d)] <==> c == d
  {
  }

  lemma {:induction false} HexOrder(m: nat, n: nat, w: nat)
    requires m < Pow16(w) && n < Pow16(w)
    ensures Hex(m, w) == Hex(n, w) <==> m == n
    ensures Lex.Less(Hex(m, w), Hex(n, w)) <==> m < n
  {
    if w > 0 {
      HexOrder(m / 16, n / 16, w - 1);
      var p, q, c, d := Hex(m / 16, w - 1), Hex(n / 16, w - 1), HexDigit(m % 16), HexDigit(n % 16);
      DigitOrder(m % 16, n % 16);
      Split(p, q, [c], [d]);
      Lex.Concat(p, q, [c], [d]);
    }
  }

  lemma Associates(p: string, d: string, s: string)
    ensures p + d + s == p + (d + s)
  {
  }

  /** A dash at the same place in both texts never decides a comparison. */
  lemma DashOrder(p: string, q: string, s: string, t: string, s': string, t': string)
    requires |p| == |q|
    requires Lex.Less(s', t') <==> Lex.Less(s, t)
    requires s' == t' <==> s == t
    ensures Lex.Less(p + "-" + s', q + "-" + t') <==> Lex.Less(p + s, q + t)
    ensures p + "-" + s' == q + "-" + t' <==> p + s == q + t
  {
    Associates(p, "-", s');
    Associates(q, "-", t');
    Split("-", "-", s', t');
    Lex.Concat("-", "-", s', t');
    SameLead(p, q, s, t, "-" + s', "-" + t');
  }

  lemma SameLead(p: string, q: string, s: string, t: string, s': string, t': string)
    requires |p| == |q|
    requires Lex.Less(s', t') <==> Lex.Less(s, t)
    requires s' == t' <==> s == t
    ensures Lex.Less(p + s', q + t') <==> Lex.Less(p + s, q + t)
    ensures p + s' == q + t' <==> p + s == q + t
  {
    Lex.Concat(p, q, s, t);
    Lex.Concat(p, q, s', t');
    Split(p, q, s, t);
    Split(p, q, s', t');
  }

  lemma Split(p: string, q: string, s: string, t: string)
    requires |p| == |q|
    ensures p + s == q + t <==> p == q && s == t
  {
    if p + s == q + t {
      assert (p + s)[..|p|] == p && (q + t)[..|p|] == q;
      assert (p + s)[|p|..] == s && (q + t)[|p|..] == t;
    }
  }

  lemma Joined(s: string, i: nat, j: nat)
    requires i <= j <= |s|
    ensures s[i..j] + s[j..] == s[i..]
  {
  }

  /** One more dash in front of what is already known to keep the order. */
  lemma DashAt(a: string, b: string, i: nat, j: nat, a': string, b': string)
    requires |a| == |b| == 32 && i <= j <= 32
    requires Lex.Less(a', b') <==> Lex.Less(a[j..], b[j..])
    requires a' == b' <==> a[j..] == b[j..]
    ensures Lex.Less(a[i..j] + "-" + a', b[i..j] + "-" + b') <==> Lex.Less(a[i..], b[i..])
    ensures a[i..j] + "-" + a' == b[i..j] + "-" + b' <==> a[i..] == b[i..]
  {
    Joined(a, i, j);
    Joined(b, i, j);
    DashOrder(a[i..j], b[i..j], a[j..], b[j..], a', b');
  }

  lemma DashedOrder(a: string, b: string)
    requires |a| == 32 && |b| == 32
    ensures Lex.Less(Dashed(a), Dashed(b)) <==> Lex.Less(a, b)
    ensures Dashed(a) == Dashed(b) <==> a == b
  {
    DashAt(a, b, 16, 20, a[20..], b[20..]);
    var a3, b3 := a[16..20] + "-" + a[20..], b[16..20] + "-" + b[20..];
    DashAt(a, b, 12, 16, a3, b3);
    var a2, b2 := a[12..16] + "-" + a3, b[12..16] + "-" + b3;
    DashAt(a, b, 8, 12, a2, b2);
    var a1, b1 := a[8..12] + "-" + a2, b[8..12] + "-" + b2;
    DashAt(a, b, 0, 8, a1, b1);
    assert a[0..] == a && b[0..] == b && a[0..8] == a[..8] && b[0..8] == b[..8];
  }

  /** Filtering on the text of a uuid and ordering by the uuid itself use the same order. */
  lemma TextOrder(a: Uuid, b: Uuid)
    ensures Lex.Less(Text(a), Text(b)) <==> a < b
    ensures Text(a) == Text(b) <==> a == b
  {
    assert Pow16(32) == LIMIT by { LimitIsPow16(); }
    HexOrder(a, b, 32);
    DashedOrder(Hex(a, 32), Hex(b, 32));
  }

  lemma LimitIsPow16()
    ensures Pow16(32) == LIMIT
  {
    assert Pow16(4) == 0x1_0000;
    assert Pow16(8) == 0x1_0000_0000 by { Pow16Add(4, 4); }
    assert Pow16(16) == 0x1_0000_0000_0000_0000 by { Pow16Add(8, 8); }
    Pow16Add(16, 16);
  }

  lemma {:induction false} Pow16Add(v: nat, w: nat)
    ensures Pow16(v + w) == Pow16(v) * Pow16(w)
  {
    if v > 0 { Pow16Add(v - 1, w); }
  }
}
