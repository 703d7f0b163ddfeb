/** UUIDs, their canonical text (section 4 of RFC 9562), and the order of both.

  One backend compares the text, the other the 16 bytes; they are the same order. */
module Uuids {

  type Byte = x: int | 0 <= x < 256

  type Uuid = s: seq<Byte> | |s| == 16 witness [0, 0, 0, 0, 0, 0, 0, 0, 0, 0, 0, 0, 0, 0, 0, 0]

  const NIL: Uuid := [0, 0, 0, 0, 0, 0, 0, 0, 0, 0, 0, 0, 0, 0, 0, 0]

  /** Lexicographic order, a proper prefix first: how strings and byte arrays compare. */
  predicate LexLess(a: seq<int>, b: seq<int>) {
    if b == [] then false
    else if a == [] then true
    else if a[0] != b[0] then a[0] < b[0]
    else LexLess(a[1..], b[1..])
  }

  function Codes(s: string): (c: seq<int>)
    ensures |c| == |s|
  {
    seq(|s|, i requires 0 <= i < |s| => s[i] as int)
  }

  predicate TextLess(a: string, b: string) {
    LexLess(Codes(a), Codes(b))
  }

  function HexDigit(n: int): char
    requires 0 <= n < 16
  {
    if n < 10 then (48 + n) as char else (87 + n) as char
  }

  function Hex(bs: seq<Byte>): string {
    if bs == [] then "" else [HexDigit(bs[0] / 16), HexDigit(bs[0] % 16)] + Hex(bs[1..])
  }

  /** 8-4-4-4-12 lower-case hexadecimal digits. */
  function Text(u: Uuid): string {
    Hex(u[..4]) + "-" + Hex(u[4..6]) + "-" + Hex(u[6..8]) + "-" + Hex(u[8..10]) + "-" + Hex(u[10..])
  }

  // ---------- a strict total order ----------

  lemma {:induction false} LexTotal(a: seq<int>, b: seq<int>)
    ensures !(LexLess(a, b) && LexLess(b, a))
    ensures LexLess(a, b) || LexLess(b, a) || a == b
    ensures !LexLess(a, a)
  {
    if a != [] && b != [] && a[0] == b[0] {
      LexTotal(a[1..], b[1..]);
      assert a == [a[0]] + a[1..] && b == [b[0]] + b[1..];
    }
    if a != [] { LexTotal(a[1..], a[1..]); }
  }

  lemma {:induction false} LexTransitive(a: seq<int>, b: seq<int>, c: seq<int>)
    requires LexLess(a, b) && LexLess(b, c)
    ensures LexLess(a, c)
  {
    if a != [] && a[0] == b[0] && b[0] == c[0] {
      LexTransitive(a[1..], b[1..], c[1..]);
    }
  }

  // ---------- text and bytes order alike ----------

  /** Blocks of equal length compare first; only equal ones let the rest decide. */
  lemma {:induction false} LexBlocks(a: seq<int>, b: seq<int>, x: seq<int>, y: seq<int>)
    requires |a| == |b|
    ensures LexLess(a + x, b + y) == if a == b then LexLess(x, y) else LexLess(a, b)
  {
    if a == [] {
      assert a + x == x && b + y == y;
    } else {
      LexBlocks(a[1..], b[1..], x, y);
      assert (a + x)[1..] == a[1..] + x && (b + y)[1..] == b[1..] + y;
      assert a == [a[0]] + a[1..] && b == [b[0]] + b[1..];
    }
  }

  lemma CodesAppend(a: string, b: string)
    ensures Codes(a + b) == Codes(a) + Codes(b)
  {
  }

  lemma CodesInjective(a: string, b: string)
    requires Codes(a) == Codes(b)
    ensures a == b
  {
    assert |a| == |b|;
    forall i | 0 <= i < |a| ensures a[i] == b[i] {
      assert Codes(a)[i] == a[i] as int && Codes(b)[i] == b[i] as int;
    }
  }

  lemma {:induction false} HexLength(bs: seq<Byte>)
    ensures |Hex(bs)| == 2 * |bs|
  {
    if bs != [] { HexLength(bs[1..]); }
  }

  lemma HexOne(x: Byte)
    ensures Hex([x]) == [HexDigit(x / 16), HexDigit(x % 16)]
  {
    assert [x][1..] == [];
    assert Hex([x]) == [HexDigit(x / 16), HexDigit(x % 16)] + Hex([]);
  }

  /** One byte: two digits, high one first. */
  lemma HexByteOrder(x: Byte, y: Byte)
    ensures Hex([x]) == Hex([y]) <==> x == y
    ensures TextLess(Hex([x]), Hex([y])) <==> x < y
  {
    HexOne(x);
    HexOne(y);
    var a, b := Codes(Hex([x])), Codes(Hex([y]));
    assert a == [HexDigit(x / 16) as int, HexDigit(x % 16) as int];
    assert b == [HexDigit(y / 16) as int, HexDigit(y % 16) as int];
    assert a[1..] == [a[1]] && b[1..] == [b[1]];
    assert LexLess(a, b) == (a[0] < b[0] || (a[0] == b[0] && LexLess(a[1..], b[1..])));
    assert LexLess(a[1..], b[1..]) == (a[1] < b[1]);
    assert Hex([x])[0] == HexDigit(x / 16) && Hex([x])[1] == HexDigit(x % 16);
    assert Hex([y])[0] == HexDigit(y / 16) && Hex([y])[1] == HexDigit(y % 16);
  }

  lemma {:induction false} HexOrder(a: seq<Byte>, b: seq<Byte>)
    requires |a| == |b|
    ensures Hex(a) == Hex(b) <==> a == b
    ensures TextLess(Hex(a), Hex(b)) <==> LexLess(a, b)
  {
    if a != [] {
      HexOrder(a[1..], b[1..]);
      HexByteOrder(a[0], b[0]);
      assert Hex(a) == Hex([a[0]]) + Hex(a[1..]) && Hex(b) == Hex([b[0]]) + Hex(b[1..]);
      CodesAppend(Hex([a[0]]), Hex(a[1..]));
      CodesAppend(Hex([b[0]]), Hex(b[1..]));
      HexLength([a[0]]);
      HexLength([b[0]]);
      LexBlocks(Codes(Hex([a[0]])), Codes(Hex([b[0]])), Codes(Hex(a[1..])), Codes(Hex(b[1..])));
      if Codes(Hex([a[0]])) == Codes(Hex([b[0]])) { CodesInjective(Hex([a[0]]), Hex([b[0]])); }
      assert a == [a[0]] + a[1..] && b == [b[0]] + b[1..];
      if Hex(a) == Hex(b) {
        assert Hex([a[0]]) == Hex(a)[..2] == Hex([b[0]]);
        assert Hex(a[1..]) == Hex(a)[2..] == Hex(b[1..]);
      }
    }
  }

  /** A block of digits, then a rest, against the same blocks of bytes. */
  lemma GroupOrder(a: seq<Byte>, b: seq<Byte>, x: string, y: string, ra: seq<Byte>, rb: seq<Byte>)
    requires |a| == |b|
    requires x == y <==> ra == rb
    requires TextLess(x, y) <==> LexLess(ra, rb)
    ensures Hex(a) + x == Hex(b) + y <==> a + ra == b + rb
    ensures TextLess(Hex(a) + x, Hex(b) + y) <==> LexLess(a + ra, b + rb)
  {
    HexOrder(a, b);
    HexLength(a);
    HexLength(b);
    CodesAppend(Hex(a), x);
    CodesAppend(Hex(b), y);
    LexBlocks(Codes(Hex(a)), Codes(Hex(b)), Codes(x), Codes(y));
    LexBlocks(a, b, ra, rb);
    if Codes(Hex(a)) == Codes(Hex(b)) { CodesInjective(Hex(a), Hex(b)); }
    if Hex(a) + x == Hex(b) + y {
      assert Hex(a) == (Hex(a) + x)[..|Hex(a)|] && Hex(b) == (Hex(b) + y)[..|Hex(a)|];
      assert x == (Hex(a) + x)[|Hex(a)|..] && y == (Hex(b) + y)[|Hex(a)|..];
    }
    if a + ra == b + rb {
      assert a == (a + ra)[..|a|] && b == (b + rb)[..|a|];
      assert ra == (a + ra)[|a|..] && rb == (b + rb)[|a|..];
    }
  }

  /** The dash between groups does not matter. */
  lemma DashOrder(x: string, y: string)
    ensures "-" + x == "-" + y <==> x == y
    ensures TextLess("-" + x, "-" + y) <==> TextLess(x, y)
  {
    CodesAppend("-", x);
    CodesAppend("-", y);
    LexBlocks(Codes("-"), Codes("-"), Codes(x), Codes(y));
    assert x == ("-" + x)[1..] && y == ("-" + y)[1..];
  }

  /** The text of the bytes from `from` on. */
  function Tail(u: Uuid, from: nat): string
    requires from in {0, 4, 6, 8, 10}
    decreases 10 - from
  {
    if from == 10 then Hex(u[10..])
    else if from == 0 then Hex(u[..4]) + ("-" + Tail(u, 4))
    else Hex(u[from..from + 2]) + ("-" + Tail(u, from + 2))
  }

  lemma SplitTail(u: Uuid, from: nat, to: nat)
    requires from in {0, 4, 6, 8} && to == if from == 0 then 4 else from + 2
    ensures u[from..] == u[from..to] + u[to..]
    ensures Tail(u, from) == Hex(u[from..to]) + ("-" + Tail(u, to))
  {
  }

  lemma {:induction false} TailOrder(u: Uuid, v: Uuid, from: nat)
    requires from in {0, 4, 6, 8, 10}
    ensures Tail(u, from) == Tail(v, from) <==> u[from..] == v[from..]
    ensures TextLess(Tail(u, from), Tail(v, from)) <==> LexLess(u[from..], v[from..])
    decreases 10 - from
  {
    if from == 10 {
      HexOrder(u[10..], v[10..]);
    } else {
      var to := if from == 0 then 4 else from + 2;
      TailOrder(u, v, to);
      DashOrder(Tail(u, to), Tail(v, to));
      SplitTail(u, from, to);
      SplitTail(v, from, to);
      GroupOrder(u[from..to], v[from..to], "-" + Tail(u, to), "-" + Tail(v, to), u[to..], v[to..]);
    }
  }

  lemma TextIsTail(u: Uuid)
    ensures Text(u) == Tail(u, 0)
  {
    var e, d, c, b := Hex(u[10..]), Hex(u[8..10]), Hex(u[6..8]), Hex(u[4..6]);
    assert Tail(u, 8) == d + ("-" + e);
    assert Tail(u, 6) == c + ("-" + Tail(u, 8));
    assert Tail(u, 4) == b + ("-" + Tail(u, 6));
    assert Tail(u, 0) == Hex(u[..4]) + ("-" + Tail(u, 4));
  }

  /** Comparing canonical text is comparing the 16 bytes. */
  lemma TextOrder(u: Uuid, v: Uuid)
    ensures TextLess(Text(u), Text(v)) <==> LexLess(u, v)
    ensures Text(u) == Text(v) <==> u == v
  {
    TextIsTail(u);
    TextIsTail(v);
    TailOrder(u, v, 0);
    assert u[0..] == u && v[0..] == v;
  }

  lemma TextLength(u: Uuid)
    ensures |Text(u)| == 36
  {
    HexLength(u[..4]);
    HexLength(u[4..6]);
    HexLength(u[6..8]);
    HexLength(u[8..10]);
    HexLength(u[10..]);
  }

  // ---------- the text, character by character ----------

  /** Where the two digits of a byte are. */
  function Place(i: nat): nat {
    2 * i + if i < 4 then 0 else if i < 6 then 1 else if i < 8 then 2 else if i < 10 then 3 else 4
  }

  lemma {:induction false} HexAt(bs: seq<Byte>, i: nat)
    requires i < |bs|
    ensures |Hex(bs)| == 2 * |bs|
    ensures Hex(bs)[2 * i] == HexDigit(bs[i] / 16) && Hex(bs)[2 * i + 1] == HexDigit(bs[i] % 16)
  {
    if i > 0 {
      HexAt(bs[1..], i - 1);
    } else if |bs| > 1 {
      HexAt(bs[1..], 0);
    }
  }

  /** 36 characters, with dashes at four places. */
  lemma TextDashes(u: Uuid)
    ensures |Text(u)| == 36
    ensures Text(u)[8] == Text(u)[13] == Text(u)[18] == Text(u)[23] == '-'
  {
    HexAt(u[..4], 0);
    HexAt(u[4..6], 0);
    HexAt(u[6..8], 0);
    HexAt(u[8..10], 0);
    HexAt(u[10..], 0);
  }

  /** And at the others the bytes, in order, each as its two lower-case hexadecimal digits. */
  lemma TextDigits(u: Uuid, i: nat)
    requires i < 16
    ensures |Text(u)| == 36
    ensures Text(u)[Place(i)] == "0123456789abcdef"[u[i] / 16]
    ensures Text(u)[Place(i) + 1] == "0123456789abcdef"[u[i] % 16]
  {
    TextDashes(u);
    DigitSpelled(u[i] / 16);
    DigitSpelled(u[i] % 16);
    if i < 4 { HexAt(u[..4], i); }
    else if i < 6 { HexAt(u[4..6], i - 4); }
    else if i < 8 { HexAt(u[6..8], i - 6); }
    else if i < 10 { HexAt(u[8..10], i - 8); }
    else { HexAt(u[10..], i - 10); }
    TextSplit(u);
  }

  lemma DigitSpelled(n: int)
    requires 0 <= n < 16
    ensures HexDigit(n) == "0123456789abcdef"[n]
  {
  }

  lemma TextSplit(u: Uuid)
    ensures |Text(u)| == 36
    ensures Text(u)[..8] == Hex(u[..4]) && Text(u)[9..13] == Hex(u[4..6]) && Text(u)[14..18] == Hex(u[6..8])
    ensures Text(u)[19..23] == Hex(u[8..10]) && Text(u)[24..] == Hex(u[10..])
  {
    HexAt(u[..4], 0);
    HexAt(u[4..6], 0);
    HexAt(u[6..8], 0);
    HexAt(u[8..10], 0);
    HexAt(u[10..], 0);
  }
}
