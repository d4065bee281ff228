/** The address below the broadcast address of a network, computed byte by byte in place. */
module Vip {

  function Pow2(n: nat): (p: nat)
    ensures p >= 1
  {
    if n == 0 then 1 else 2 * Pow2(n - 1)
  }

  /** The largest multiple of `h` up to `v`. */
  ghost function Floor(v: nat, h: nat): (f: nat)
    requires h >= 1
  {
    v - v % h
  }

  /** The number the bytes spell, most significant byte first. */
  ghost function Value(s: seq<bv8>): (v: nat) {
    if s == [] then 0 else 256 * Value(s[..|s| - 1]) + ByteValue(s[|s| - 1])
  }

  ghost function ByteValue(b: bv8): (v: nat)
    ensures v < 256
  {
    b as nat
  }

  // ---- Masks of one byte ----

  /** How many of the bits of a byte belong to the network, if `n` bits do from its first bit on. */
  function Clamp(n: int): (m: nat)
    ensures m <= 8
  {
    if n <= 0 then 0 else if n >= 8 then 8 else n
  }

  /** A byte with `m` ones from the most significant bit on. */
  ghost function Ones(m: nat): (b: bv8)
    requires m <= 8
  {
    match m
    case 0 => 0
    case 1 => 0x80
    case 2 => 0xC0
    case 3 => 0xE0
    case 4 => 0xF0
    case 5 => 0xF8
    case 6 => 0xFC
    case 7 => 0xFE
    case _ => 0xFF
  }

  lemma Pow2Table()
    ensures Pow2(0) == 1 && Pow2(1) == 2 && Pow2(2) == 4 && Pow2(3) == 8 && Pow2(4) == 16
    ensures Pow2(5) == 32 && Pow2(6) == 64 && Pow2(7) == 128 && Pow2(8) == 256
  {
    assert Pow2(2) == 2 * Pow2(1);
    assert Pow2(4) == 2 * Pow2(3);
    assert Pow2(6) == 2 * Pow2(5);
    assert Pow2(8) == 2 * Pow2(7);
  }

  lemma OnesValue(m: nat)
    requires m <= 8
    ensures Ones(m) as nat == 256 - Pow2(8 - m)
  {
    Pow2Table();
  }

  lemma OnesGrow(m: nat, n: nat)
    requires 1 <= n <= m < 8
    ensures (Ones(m) & !Ones(n)) | (1 << (8 - n)) == Ones(m) & !Ones(n - 1)
  {
    if n == 1 {
    } else if n == 2 {
    } else if n == 3 {
    } else if n == 4 {
    } else if n == 5 {
    } else if n == 6 {
    } else {
    }
  }

  lemma OnesEnds(m: nat)
    requires m <= 8
    ensures Ones(m) & !Ones(m) == 0 && Ones(m) & !Ones(0) == Ones(m)
  {
  }

  /** bitMaskForN: the mask of the first `n` bits of a byte, for any `n`. */
  method BitMaskForN(n: int) returns (ret: bv8)
    ensures ret == Ones(Clamp(n))
    ensures ret as nat == 256 - Pow2(8 - Clamp(n))
  {
    OnesValue(Clamp(n));
    if n >= 8 {
      return 0xFF;
    }
    OnesEnds(Clamp(n));
    hide Ones, Pow2;
    ret := 0;
    var left := n;
    while left > 0
      invariant left <= n && ret == Ones(Clamp(n)) & !Ones(Clamp(left))
    {
      OnesGrow(n, left);
      ret := ret | (1 << (8 - left));
      left := left - 1;
    }
  }

  lemma SetLowEight(b: bv8)
    ensures (b | 0xFF) as nat == b as nat - b as nat % 256 + 255
    ensures (b | 0x7F) as nat == b as nat - b as nat % 128 + 127
  {
  }

  lemma SetLowSix(b: bv8)
    ensures (b | 0x3F) as nat == b as nat - b as nat % 64 + 63
    ensures (b | 0x1F) as nat == b as nat - b as nat % 32 + 31
  {
  }

  lemma SetLowFour(b: bv8)
    ensures (b | 0x0F) as nat == b as nat - b as nat % 16 + 15
    ensures (b | 0x07) as nat == b as nat - b as nat % 8 + 7
  {
  }

  lemma SetLowTwo(b: bv8)
    ensures (b | 0x03) as nat == b as nat - b as nat % 4 + 3
    ensures (b | 0x01) as nat == b as nat - b as nat % 2 + 1
  {
  }

  lemma MostHostBitsSet(b: bv8, m: nat)
    requires m <= 3
    ensures ByteValue(b | !Ones(m)) == Floor(ByteValue(b), Pow2(8 - m)) + Pow2(8 - m) - 1
  {
    Pow2Table();
    if m <= 1 {
      SetLowEight(b);
    } else {
      SetLowSix(b);
    }
  }

  lemma FewHostBitsSet(b: bv8, m: nat)
    requires 4 <= m <= 8
    ensures ByteValue(b | !Ones(m)) == Floor(ByteValue(b), Pow2(8 - m)) + Pow2(8 - m) - 1
  {
    Pow2Table();
    if m <= 5 {
      SetLowFour(b);
    } else if m <= 7 {
      SetLowTwo(b);
    }
  }

  /** Setting the host bits of one byte. */
  lemma HostBitsSet(b: bv8, m: nat)
    requires m <= 8
    ensures ByteValue(b | !Ones(m)) == Floor(ByteValue(b), Pow2(8 - m)) + Pow2(8 - m) - 1
  {
    hide Pow2, ByteValue, Ones, Floor;
    if m <= 3 {
      MostHostBitsSet(b, m);
    } else {
      FewHostBitsSet(b, m);
    }
  }

  // ---- The whole address ----

  /** All host bits set to one. */
  ghost function Broadcast(s: seq<bv8>, p: int): (b: seq<bv8>) {
    seq(|s|, i requires 0 <= i < |s| => s[i] | !Ones(Clamp(p - 8 * i)))
  }

  lemma {:induction false} Pow2Byte(n: nat)
    ensures Pow2(n + 8) == 256 * Pow2(n)
  {
    assert Pow2(n + 8) == 2 * Pow2(n + 7) == 4 * Pow2(n + 6) == 8 * Pow2(n + 5) == 16 * Pow2(n + 4);
    assert Pow2(n + 4) == 2 * Pow2(n + 3) == 4 * Pow2(n + 2) == 8 * Pow2(n + 1) == 16 * Pow2(n);
  }

  /** The masks of the bytes together are the mask of the address. */
  lemma {:induction false} BroadcastValue(s: seq<bv8>, p: nat)
    requires p <= 8 * |s|
    ensures var h := Pow2(8 * |s| - p); Value(Broadcast(s, p)) == Floor(Value(s), h) + h - 1
  {
    if s != [] {
      var k := |s| - 1;
      var r, b := s[..k], s[k];
      assert s == r + [b];
      if p <= 8 * k {
        BroadcastValue(r, p);
        BroadcastHigh(s, r, b, p);
      } else {
        BroadcastLow(s, r, b, p);
      }
    }
  }

  lemma ValueAppend(r: seq<bv8>, b: bv8)
    ensures Value(r + [b]) == 256 * Value(r) + ByteValue(b)
  {
    assert (r + [b])[..|r|] == r;
  }

  lemma HighByte(b: bv8)
    ensures b | !Ones(0) == 0xFF && ByteValue(0xFF) == 255
  {
  }

  /** The last byte belongs to the hosts entirely. */
  lemma BroadcastHigh(s: seq<bv8>, r: seq<bv8>, b: bv8, p: nat)
    requires s == r + [b] && p <= 8 * |r|
    requires var h := Pow2(8 * |r| - p); Value(Broadcast(r, p)) == Floor(Value(r), h) + h - 1
    ensures var h := Pow2(8 * |s| - p); Value(Broadcast(s, p)) == Floor(Value(s), h) + h - 1
  {
    hide Ones, Pow2, Broadcast, Value, ByteValue, Floor;
    var h, g := Pow2(8 * |r| - p), Pow2(8 * |s| - p);
    assert g == 256 * h by {
      Pow2Byte(8 * |r| - p);
      assert 8 * |s| - p == 8 * |r| - p + 8;
    }
    assert Value(s) == 256 * Value(r) + ByteValue(b) by {
      ValueAppend(r, b);
    }
    assert Value(Broadcast(s, p)) == 256 * Value(Broadcast(r, p)) + 255 by {
      HighByte(b);
      BroadcastHighByte(s, r, b, p);
      ValueAppend(Broadcast(r, p), 0xFF);
    }
    HighArithmetic(Value(s), Value(Broadcast(s, p)), Value(r), Value(Broadcast(r, p)), ByteValue(b), h, g);
  }

  /** The last byte belongs to the network, at least in part. */
  lemma BroadcastLow(s: seq<bv8>, r: seq<bv8>, b: bv8, p: nat)
    requires s == r + [b] && 8 * |r| < p <= 8 * |s|
    ensures var h := Pow2(8 * |s| - p); Value(Broadcast(s, p)) == Floor(Value(s), h) + h - 1
  {
    var m := p - 8 * |r|;
    var b' := b | !Ones(m);
    hide Ones, Pow2, Broadcast, Value, ByteValue, Floor;
    BroadcastLowByte(s, r, b, p);
    HostBitsSet(b, m);
    ValueAppend(r, b');
    ValueAppend(r, b);
    Pow2Split(m);
    assert 8 * |s| - p == 8 - m;
    LowArithmetic(Value(s), Value(r + [b']), Value(r), ByteValue(b), ByteValue(b'), Pow2(8 - m), Pow2(m));
  }

  lemma BroadcastLowByte(s: seq<bv8>, r: seq<bv8>, b: bv8, p: nat)
    requires s == r + [b] && 8 * |r| < p <= 8 * |s|
    ensures Broadcast(s, p) == r + [b | !Ones(p - 8 * |r|)]
  {
    BroadcastFull(r, p);
    assert Broadcast(s, p) == Broadcast(r, p) + [b | !Ones(p - 8 * |r|)];
  }

  lemma LowArithmetic(s: nat, s': nat, r: nat, b: nat, b': nat, h: nat, c: nat)
    requires h >= 1 && h * c == 256
    requires s == 256 * r + b && s' == 256 * r + b' && b' == Floor(b, h) + h - 1
    ensures s' == Floor(s, h) + h - 1
  {
    ModOfLastByte(r, b, h, c);
  }

  lemma BroadcastHighByte(s: seq<bv8>, r: seq<bv8>, b: bv8, p: nat)
    requires s == r + [b] && p <= 8 * |r|
    ensures Broadcast(s, p) == Broadcast(r, p) + [0xFF]
  {
    HighByte(b);
    assert Clamp(p - 8 * |r|) == 0;
  }

  lemma HighArithmetic(s: nat, s': nat, r: nat, r': nat, b: nat, h: nat, g: nat)
    requires b < 256 && h >= 1 && g == 256 * h
    requires s == 256 * r + b && s' == 256 * r' + 255 && r' == Floor(r, h) + h - 1
    ensures s' == Floor(s, g) + g - 1
  {
    ModOfBytes(r, b, h);
  }

  /** A prefix that covers all the bytes leaves them as they are. */
  lemma {:induction false} BroadcastFull(s: seq<bv8>, p: nat)
    requires p >= 8 * |s|
    ensures Broadcast(s, p) == s
  {
    forall i | 0 <= i < |s| ensures Broadcast(s, p)[i] == s[i] {
      assert Clamp(p - 8 * i) == 8;
    }
  }

  lemma ModUnique(x: nat, m: nat, q: nat, r: nat)
    requires m >= 1 && r < m && x == m * q + r
    ensures x % m == r && x / m == q
  {
    var q', r' := x / m, x % m;
    assert x == m * q' + r';
    assert m * (q' + 1) == m * q' + m && m * (q + 1) == m * q + m;
    if q > q' {
      MulMonotone(m, q' + 1, q);
    } else if q < q' {
      MulMonotone(m, q + 1, q');
    }
  }

  lemma MulMonotone(m: nat, a: nat, b: nat)
    requires a <= b
    ensures m * a <= m * b
  {
  }

  lemma ModOfBytes(v: nat, b: nat, h: nat)
    requires b < 256 && h >= 1
    ensures (256 * v + b) % (256 * h) == 256 * (v % h) + b
  {
    assert v == h * (v / h) + v % h;
    assert (256 * h) * (v / h) == 256 * (h * (v / h));
    ModUnique(256 * v + b, 256 * h, v / h, 256 * (v % h) + b);
  }

  lemma ModOfLastByte(v: nat, b: nat, h: nat, c: nat)
    requires h >= 1 && h * c == 256
    ensures (256 * v + b) % h == b % h
  {
    MultipleOf(v, h, c);
    assert b == h * (b / h) + b % h;
    Distributes(h, c * v, b / h);
    ModUnique(256 * v + b, h, c * v + b / h, b % h);
  }

  lemma MultipleOf(v: nat, h: nat, c: nat)
    requires h * c == 256
    ensures h * (c * v) == 256 * v
  {
  }

  lemma Distributes(h: nat, x: nat, y: nat)
    ensures h * (x + y) == h * x + h * y
  {
  }

  lemma Pow2Split(m: nat)
    requires m <= 8
    ensures Pow2(8 - m) * Pow2(m) == 256
  {
    Pow2Table();
  }

  // ---- calculateVIP ----

  /** One subtracted from the last byte, with no carry. */
  ghost function Below(s: seq<bv8>): (b: seq<bv8>)
    requires s != []
  {
    s[..|s| - 1] + [s[|s| - 1] - 1]
  }

  lemma ByteBelow(b: bv8)
    ensures ByteValue(b - 1) == if b == 0 then 255 else ByteValue(b) - 1
  {
  }

  lemma BelowAppend(r: seq<bv8>, b: bv8)
    ensures Value(r + [b - 1]) == Value(r + [b]) + (if b == 0 then 255 else -1)
  {
    ByteBelow(b);
    ValueAppend(r, b);
    ValueAppend(r, b - 1);
  }

  lemma BelowValue(s: seq<bv8>)
    requires s != []
    ensures Value(Below(s)) == Value(s) + (if s[|s| - 1] == 0 then 255 else -1)
  {
    hide ByteValue, Value;
    var k := |s| - 1;
    assert s == s[..k] + [s[k]];
    BelowAppend(s[..k], s[k]);
  }

  ghost function VipOf(s: seq<bv8>, p: nat): (vip: seq<bv8>)
    requires s != []
  {
    Below(Broadcast(s, p))
  }

  lemma FloorOf(v: nat, h: nat, x: nat)
    requires h >= 2 && x == Floor(v, h) + h - 2
    ensures Floor(x, h) == Floor(v, h)
  {
    assert v == h * (v / h) + v % h;
    ModUnique(x, h, v / h, h - 2);
  }

  /** The first address of the network that `s` lies in. */
  ghost function Network(s: seq<bv8>, p: nat): (v: nat)
    requires p <= 8 * |s|
  {
    Floor(Value(s), Pow2(8 * |s| - p))
  }

  /** How many addresses the network has. */
  ghost function Size(s: seq<bv8>, p: nat): (n: nat)
    requires p <= 8 * |s|
  {
    Pow2(8 * |s| - p)
  }

  lemma LastByteOdd(s: seq<bv8>, p: nat)
    requires s != [] && p < 8 * |s|
    ensures Broadcast(s, p)[|s| - 1] != 0
  {
    var k := |s| - 1;
    var m, b := Clamp(p - 8 * k), s[k];
    assert m < 8;
    assert b | !Ones(m) != 0 by {
      if m == 0 {
      } else if m == 1 {
      } else if m == 2 {
      } else if m == 3 {
      } else if m == 4 {
      } else if m == 5 {
      } else if m == 6 {
      } else {
      }
    }
  }

  /**
    * What is computed is the address before the last one of the network, exactly if
    * the prefix leaves a host bit or the last byte is not zero; there is no borrow
    * then.
    */
  lemma VipIsBeforeBroadcast(s: seq<bv8>, p: nat)
    requires s != [] && p <= 8 * |s|
    ensures Value(VipOf(s, p)) == Network(s, p) + Size(s, p) - 2 <==> p < 8 * |s| || s[|s| - 1] != 0
  {
    BroadcastValue(s, p);
    BelowValue(Broadcast(s, p));
    if p < 8 * |s| {
      LastByteOdd(s, p);
    } else {
      BroadcastFull(s, p);
    }
  }

  /**
    * The address lies in the network exactly if the prefix leaves a host bit; it is
    * neither its first nor its last then, if there are others.
    */
  lemma VipInNetwork(s: seq<bv8>, p: nat)
    requires s != [] && p <= 8 * |s|
    ensures Network(VipOf(s, p), p) == Network(s, p) <==> p < 8 * |s|
    ensures p < 8 * |s| && Size(s, p) > 2 ==> Network(s, p) < Value(VipOf(s, p)) < Network(s, p) + Size(s, p) - 1
  {
    if p < 8 * |s| {
      VipIsBeforeBroadcast(s, p);
      assert Pow2(8 * |s| - p) == 2 * Pow2(8 * |s| - p - 1);
      FloorOf(Value(s), Size(s, p), Value(VipOf(s, p)));
    } else {
      BroadcastFull(s, p);
      BelowValue(s);
      assert Size(s, p) == 1;
    }
  }

  lemma {:induction false} ValueInjective(a: seq<bv8>, b: seq<bv8>)
    requires |a| == |b| && Value(a) == Value(b)
    ensures a == b
  {
    if a != [] {
      var k := |a| - 1;
      assert a == a[..k] + [a[k]] && b == b[..k] + [b[k]];
      Digits(Value(a[..k]), a[k], Value(b[..k]), b[k]);
      ValueInjective(a[..k], b[..k]);
    }
  }

  lemma Digits(v: nat, x: bv8, w: nat, y: bv8)
    requires 256 * v + ByteValue(x) == 256 * w + ByteValue(y)
    ensures v == w && x == y
  {
    assert x as nat < 256 && y as nat < 256;
  }

  /**
    * Computing it again from its own result, which has overwritten the network's
    * address, gives the same address, exactly if the prefix leaves a host bit.
    */
  lemma VipIdempotent(s: seq<bv8>, p: nat)
    requires s != [] && p <= 8 * |s|
    ensures VipOf(VipOf(s, p), p) == VipOf(s, p) <==> p < 8 * |s|
  {
    if p < 8 * |s| {
      VipIsBeforeBroadcast(s, p);
      VipIsBeforeBroadcast(VipOf(s, p), p);
      VipInNetwork(s, p);
      ValueInjective(VipOf(VipOf(s, p), p), VipOf(s, p));
    } else {
      var once := VipOf(s, p);
      BroadcastFull(once, p);
      BelowValue(once);
    }
  }

  /** calculateVIP, with the mask given as its number of ones; the bytes of the network's address are overwritten. */
  method CalculateVIP(ip: array<bv8>, ones: nat) returns (ret: array<bv8>)
    requires ip.Length >= 1 && ones <= 8 * ip.Length
    modifies ip
    ensures ret == ip && ip[..] == VipOf(old(ip[..]), ones)
    ensures ones < 8 * ip.Length ==> Value(ip[..]) == Network(old(ip[..]), ones) + Size(old(ip[..]), ones) - 2
  {
    ghost var s := ip[..];
    ret := ip;
    for i := 0 to ip.Length
      invariant forall k | 0 <= k < i :: ip[k] == Broadcast(s, ones)[k]
      invariant forall k | i <= k < ip.Length :: ip[k] == s[k]
    {
      var byteMask := BitMaskForN(ones - 8 * i);
      ret[i] := ret[i] | !byteMask;
    }
    assert ip[..] == Broadcast(s, ones);
    ret[ret.Length - 1] := ret[ret.Length - 1] - 1;
    assert ip[..] == Below(Broadcast(s, ones));
    VipIsBeforeBroadcast(s, ones);
  }
}
