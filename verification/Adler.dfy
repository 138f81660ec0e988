// The Adler-32 checksum (deps/zlib-1.3.1/adler32.c), defined in section 2.2 of RFC 1950,
// on 32-bit sums that are reduced as rarely as possible.
module Adler {
  type byte = bv8

  // unsigned long, of which 32 bits may be relied on, and z_off64_t
  newtype u32 = x: int | 0 <= x < 0x1_0000_0000
  newtype i64 = x: int | -0x8000_0000_0000_0000 <= x < 0x8000_0000_0000_0000

  const BASE := 65521
  const NMAX := 5552

  // ----- the definition ------------------------------------------------------------------------

  datatype Sums = Sums(a: nat, b: nat)

  predicate Canonical(s: Sums) {
    s.a < BASE && s.b < BASE
  }

  // One byte at a time, both sums modulo BASE.
  function Over(s: Sums, bytes: seq<byte>): (r: Sums)
    requires Canonical(s)
    ensures Canonical(r)
  {
    if bytes == [] then s
    else
      var before := Over(s, bytes[..|bytes| - 1]);
      var a := (before.a + bytes[|bytes| - 1] as int) % BASE;
      Sums(a, (before.b + a) % BASE)
  }

  function Pack(s: Sums): (r: u32)
    requires Canonical(s)
    ensures r as int == s.b * 65536 + s.a
  {
    (s.b * 65536 + s.a) as u32
  }

  function Unpack(adler: u32): (r: Sums)
    ensures r.a < 65536 && r.b < 65536 && adler as int == r.b * 65536 + r.a
  {
    Sums((adler % 65536) as int, (adler / 65536) as int)
  }

  lemma UnpackPack(s: Sums)
    requires Canonical(s)
    ensures Unpack(Pack(s)) == s
  {
  }

  function Checksum(bytes: seq<byte>): u32 {
    Pack(Over(Sums(1, 0), bytes))
  }

  // ----- sums that are not reduced -------------------------------------------------------------

  function SumA(a: nat, bytes: seq<byte>): nat {
    if bytes == [] then a else SumA(a, bytes[..|bytes| - 1]) + bytes[|bytes| - 1] as int
  }

  function SumB(a: nat, b: nat, bytes: seq<byte>): nat {
    if bytes == [] then b else SumB(a, b, bytes[..|bytes| - 1]) + SumA(a, bytes)
  }

  lemma ModAdd(x: nat, y: nat)
    ensures (x % BASE + y) % BASE == (x + y) % BASE
    ensures (x + y % BASE) % BASE == (x + y) % BASE
  {
    assert x == BASE * (x / BASE) + x % BASE;
    assert y == BASE * (y / BASE) + y % BASE;
    SameMod(x % BASE + y, x + y, x / BASE);
    SameMod(x + y % BASE, x + y, y / BASE);
  }

  lemma ModSum(x: nat, y: nat)
    ensures (x % BASE + y % BASE) % BASE == (x + y) % BASE
  {
    ModAdd(x, y % BASE);
    ModAdd(x, y);
  }

  lemma SameMod(x: nat, y: nat, k: nat)
    requires y == x + BASE * k
    ensures x % BASE == y % BASE
  {
    assert y / BASE == x / BASE + k;
  }

  // Reducing at the end is as good as reducing all along.
  lemma {:induction false} OverIsSums(s: Sums, bytes: seq<byte>)
    requires Canonical(s)
    ensures Over(s, bytes) == Sums(SumA(s.a, bytes) % BASE, SumB(s.a, s.b, bytes) % BASE)
  {
    if bytes != [] {
      var init, x := bytes[..|bytes| - 1], bytes[|bytes| - 1] as int;
      OverIsSums(s, init);
      ModAdd(SumA(s.a, init), x);
      ModSum(SumB(s.a, s.b, init), SumA(s.a, bytes));
    }
  }

  lemma {:induction false} OverAppend(s: Sums, x: seq<byte>, y: seq<byte>)
    requires Canonical(s)
    ensures Over(s, x + y) == Over(Over(s, x), y)
  {
    if y == [] {
      assert x + y == x;
    } else {
      assert (x + y)[..|x + y| - 1] == x + y[..|y| - 1];
      OverAppend(s, x, y[..|y| - 1]);
    }
  }

  // ----- how far the sums go -------------------------------------------------------------------

  // The largest second sum that n bytes can lead to from sums below BASE.
  function Peak(n: nat): nat {
    255 * n * (n + 1) / 2 + (n + 1) * (BASE - 1)
  }

  lemma PeakNext(n: nat)
    ensures Peak(n + 1) == Peak(n) + 255 * (n + 1) + BASE - 1
  {
    assert (n + 1) * (n + 2) == n * (n + 1) + 2 * (n + 1);
    assert 255 * (n + 1) * (n + 2) == 255 * n * (n + 1) + 2 * (255 * (n + 1));
  }

  lemma {:induction false} PeakGrows(m: nat, n: nat)
    requires m <= n
    ensures Peak(m) <= Peak(n)
    decreases n - m
  {
    if m < n {
      PeakNext(m);
      PeakGrows(m + 1, n);
    }
  }

  lemma {:induction false} SumsPeak(s: Sums, bytes: seq<byte>)
    requires Canonical(s)
    ensures SumA(s.a, bytes) <= BASE - 1 + 255 * |bytes| && SumB(s.a, s.b, bytes) <= Peak(|bytes|)
    ensures s.b <= SumB(s.a, s.b, bytes) && SumA(s.a, bytes) <= SumA(s.a, bytes) + SumB(s.a, s.b, bytes)
  {
    if bytes != [] {
      SumsPeak(s, bytes[..|bytes| - 1]);
      PeakNext(|bytes| - 1);
    }
  }

  // NMAX bytes are the most that fit in 32 bits: with one more they may not.
  lemma NmaxIsTheMost(n: nat)
    ensures Peak(n) < 0x1_0000_0000 <==> n <= NMAX
  {
    if n <= NMAX {
      PeakGrows(n, NMAX);
    } else {
      PeakGrows(NMAX + 1, n);
    }
  }

  function Full(n: nat): seq<byte> {
    seq(n, _ => 255)
  }

  // The peak is reached.
  lemma {:induction false} PeakIsReached(n: nat)
    ensures SumA(BASE - 1, Full(n)) == BASE - 1 + 255 * n && SumB(BASE - 1, BASE - 1, Full(n)) == Peak(n)
  {
    if n > 0 {
      assert Full(n)[..n - 1] == Full(n - 1);
      PeakIsReached(n - 1);
      PeakNext(n - 1);
    }
  }

  // ----- reductions ----------------------------------------------------------------------------

  // a >> 16 and a & 0xffff are a / 65536 and a % 65536; tmp << 4 is 16 * tmp.
  function Chopped(a: nat): nat {
    a % 65536 + 15 * (a / 65536)
  }

  lemma ChoppedIsSame(a: nat)
    ensures Chopped(a) % BASE == a % BASE
  {
    assert a == Chopped(a) + BASE * (a / 65536);
    SameMod(Chopped(a), a, a / 65536);
  }

  lemma OneLess(a: nat)
    ensures a < BASE ==> a % BASE == a
    ensures BASE <= a ==> (a - BASE) % BASE == a % BASE
    ensures BASE <= a < 2 * BASE ==> a % BASE == a - BASE
  {
    if BASE <= a {
      SameMod(a - BASE, a, 1);
    }
  }

  // Without a division (NO_DIVIDE), and with one.
  method Chop(a: u32) returns (r: u32)
    ensures r as int == Chopped(a as int)
  {
    var tmp := a / 65536;
    r := a % 65536;
    r := r + (tmp * 16 - tmp);
  }

  // MOD28 gives the remainder exactly while one subtraction is enough, which it is for all
  // numbers of 28 bits.
  method Mod28(a: u32, noDivide: bool) returns (r: u32)
    ensures (r as int == a as int % BASE) <==> (!noDivide || Chopped(a as int) < 2 * BASE)
    ensures a < 0x1000_0000 ==> r as int == a as int % BASE
  {
    ChoppedIsSame(a as int);
    OneLess(Chopped(a as int));
    if noDivide {
      r := Chop(a);
      if r >= BASE as u32 {
        r := r - BASE as u32;
      }
      assert Chopped(a as int) >= 2 * BASE ==> r as int >= BASE;
    } else {
      r := a % BASE as u32;
    }
  }

  // MOD gives the remainder of all 32-bit numbers.
  method Mod(a: u32, noDivide: bool) returns (r: u32)
    ensures r as int == a as int % BASE
  {
    if noDivide {
      ChoppedIsSame(a as int);
      var c := Chop(a);
      r := Mod28(c, true);
    } else {
      r := a % BASE as u32;
    }
  }

  lemma Fold63(a: nat, high: nat, low: nat)
    requires high == a / 0x1_0000_0000 && low == a % 0x1_0000_0000
    ensures (low + 225 * high) % BASE == a % BASE
  {
    assert 0x1_0000_0000 == 65551 * BASE + 225;
    assert a == low + 225 * high + BASE * (65551 * high);
    SameMod(low + 225 * high, a, 65551 * high);
  }

  // MOD63 gives the remainder of all 64-bit numbers that are not negative.
  method Mod63(len: i64, noDivide: bool) returns (r: i64)
    requires len >= 0
    ensures r as int == len as int % BASE
  {
    if noDivide {
      var tmp := len / 0x1_0000_0000;
      var a := len % 0x1_0000_0000;
      Fold63(len as int, tmp as int, a as int);
      a := a + (tmp * 256 - tmp * 32 + tmp);
      ChoppedIsSame(a as int);
      tmp := a / 65536;
      a := a % 65536;
      a := a + (tmp * 16 - tmp);
      ChoppedIsSame(a as int);
      tmp := a / 65536;
      a := a % 65536;
      a := a + (tmp * 16 - tmp);
      OneLess(a as int);
      if a >= BASE as i64 {
        a := a - BASE as i64;
      }
      r := a;
    } else {
      r := len % BASE as i64;
    }
  }

  // ----- adler32_z -----------------------------------------------------------------------------

  // The sums over some bytes, none of which has gone beyond 32 bits.
  ghost predicate Summed(s: Sums, bytes: seq<byte>, adler: u32, sum2: u32) {
    adler as int == SumA(s.a, bytes) && sum2 as int == SumB(s.a, s.b, bytes)
  }

  // Some rounds of DO1, from byte number i on.
  method AddBytes(buf: array<byte>, from: nat, i: nat, n: nat, adler: u32, sum2: u32, ghost s: Sums)
    returns (adler': u32, sum2': u32)
    requires from <= i && i + n <= buf.Length && i + n - from <= NMAX
    requires Canonical(s) && Summed(s, buf[from..i], adler, sum2)
    ensures Summed(s, buf[from..i + n], adler', sum2')
  {
    adler', sum2' := adler, sum2;
    for j := i to i + n
      invariant Summed(s, buf[from..j], adler', sum2')
    {
      ghost var next := buf[from..j + 1];
      assert next[..|next| - 1] == buf[from..j];
      SumsPeak(s, next);
      NmaxIsTheMost(|next|);
      adler' := adler' + buf[j] as u32;
      sum2' := sum2' + adler';
    }
  }

  // Sums that are not too large are reduced and put together.
  method Recombine(s: Sums, bytes: seq<byte>, adler: u32, sum2: u32) returns (r: u32)
    requires Canonical(s) && adler as int == SumA(s.a, bytes) % BASE && sum2 as int == SumB(s.a, s.b, bytes) % BASE
    ensures r == Pack(Over(s, bytes))
  {
    OverIsSums(s, bytes);
    r := adler + sum2 * 65536;
  }

  // if (a >= BASE) a -= BASE
  method Once(a: u32) returns (r: u32)
    requires a < 2 * BASE as u32
    ensures r as int == a as int % BASE
  {
    OneLess(a as int);
    r := if a >= BASE as u32 then a - BASE as u32 else a;
  }

  lemma OverOne(s: Sums, x: byte)
    requires Canonical(s)
    ensures var a := (s.a + x as int) % BASE; Over(s, [x]) == Sums(a, (s.b + a) % BASE)
  {
    var one := [x];
    assert one[..|one| - 1] == [] && Over(s, one[..|one| - 1]) == s;
  }

  // len == 1
  method OneByte(s: Sums, x: byte) returns (r: u32)
    requires Canonical(s)
    ensures r == Pack(Over(s, [x]))
  {
    OverOne(s, x);
    var adler := Once(s.a as u32 + x as u32);
    var sum2 := Once(s.b as u32 + adler);
    r := adler + sum2 * 65536;
  }

  // len < 16
  method FewBytes(buf: array<byte>, len: nat, s: Sums, noDivide: bool) returns (r: u32)
    requires Canonical(s) && len < 16 && len <= buf.Length
    ensures r == Pack(Over(s, buf[..len]))
  {
    assert buf[0..0] == [] && buf[0..len] == buf[..len];
    var adler, sum2 := AddBytes(buf, 0, 0, len, s.a as u32, s.b as u32, s);
    SumsPeak(s, buf[..len]);
    PeakGrows(len, 15);
    adler := Once(adler);
    sum2 := Mod28(sum2, noDivide);
    r := Recombine(s, buf[..len], adler, sum2);
  }

  // NMAX bytes or fewer, DO16 by DO16 and then byte by byte.
  method Block(buf: array<byte>, from: nat, n: nat, s: Sums, noDivide: bool) returns (r: Sums)
    requires Canonical(s) && n <= NMAX && from + n <= buf.Length
    ensures r == Over(s, buf[from..from + n])
  {
    var i, left := from, n;
    var adler, sum2 := s.a as u32, s.b as u32;
    assert buf[from..from] == [];
    while left >= 16
      invariant from <= i && i + left == from + n
      invariant Summed(s, buf[from..i], adler, sum2)
    {
      left := left - 16;
      adler, sum2 := AddBytes(buf, from, i, 16, adler, sum2, s);
      i := i + 16;
    }
    adler, sum2 := AddBytes(buf, from, i, left, adler, sum2, s);
    adler := Mod(adler, noDivide);
    sum2 := Mod(sum2, noDivide);
    OverIsSums(s, buf[from..from + n]);
    r := Sums(adler as nat, sum2 as nat);
  }

  // The checksum of some bytes and then these, however the sums were reduced, is the one that
  // the definition gives, and no sum goes beyond 32 bits.
  method Adler32(adler: u32, buf: array?<byte>, len: nat, noDivide: bool) returns (r: u32)
    requires Canonical(Unpack(adler))
    requires if buf == null then len != 1 else len <= buf.Length
    ensures buf == null ==> r == 1
    ensures buf != null ==> r == Pack(Over(Unpack(adler), buf[..len]))
  {
    var s := Unpack(adler);
    if len == 1 {
      assert buf[..1] == [buf[0]];
      r := OneByte(s, buf[0]);
      return;
    }
    if buf == null {
      return 1;
    }
    if len < 16 {
      r := FewBytes(buf, len, s, noDivide);
      return;
    }
    var sums, i, left := s, 0, len;
    assert buf[..0] == [];
    while left >= NMAX
      invariant i <= len && i + left == len && Canonical(sums) && sums == Over(s, buf[..i])
    {
      left := left - NMAX;
      OverAppend(s, buf[..i], buf[i..i + NMAX]);
      assert buf[..i] + buf[i..i + NMAX] == buf[..i + NMAX];
      sums := Block(buf, i, NMAX, sums, noDivide);
      i := i + NMAX;
    }
    if left > 0 {
      OverAppend(s, buf[..i], buf[i..i + left]);
      assert buf[..i] + buf[i..i + left] == buf[..len];
      sums := Block(buf, i, left, sums, noDivide);
    }
    r := Pack(sums);
  }

  // ----- adler32_combine_ ------------------------------------------------------------------------

  lemma OneMore(n: nat, a: nat)
    ensures (n + 1) * a == n * a + a
  {
  }

  // Starting from other sums than 1 and 0.
  lemma {:induction false} SumsShift(s: Sums, bytes: seq<byte>)
    ensures SumA(s.a, bytes) + 1 == SumA(1, bytes) + s.a
    ensures SumB(s.a, s.b, bytes) + |bytes| == SumB(1, 0, bytes) + s.b + |bytes| * s.a
  {
    if bytes != [] {
      SumsShift(s, bytes[..|bytes| - 1]);
      OneMore(|bytes| - 1, s.a);
    }
  }

  // What the formula of adler32_combine_ comes to.
  function Joined(s: Sums, t: Sums, n: nat): Sums {
    var rem := n % BASE;
    Sums((s.a + t.a + BASE - 1) % BASE, (rem * s.a + s.b + t.b + BASE - rem) % BASE)
  }

  lemma ModTimes(n: nat, a: nat)
    ensures (n % BASE * a) % BASE == (n * a) % BASE
  {
    var q := n / BASE;
    assert n * a == n % BASE * a + BASE * (q * a) by {
      assert n == BASE * q + n % BASE;
      assert (BASE * q + n % BASE) * a == BASE * (q * a) + n % BASE * a;
    }
    SameMod(n % BASE * a, n * a, q * a);
  }

  // Equal remainders stay equal when as much is added.
  lemma ModBoth(x: nat, y: nat, z: nat)
    requires x % BASE == y % BASE
    ensures (x + z) % BASE == (y + z) % BASE
  {
    ModAdd(x, z);
    ModAdd(y, z);
  }

  lemma ModCancel(x: nat, y: nat, z: nat)
    requires (x + z) % BASE == (y + z) % BASE
    ensures x % BASE == y % BASE
  {
    var c := BASE - z % BASE;
    ModBoth(x + z, y + z, c);
    assert z + c == BASE * (z / BASE + 1);
    SameMod(x, x + z + c, z / BASE + 1);
    SameMod(y, y + z + c, z / BASE + 1);
  }

  // The formula joins the checksum of what came before with that of these bytes alone.
  lemma JoinedIsOver(s: Sums, bytes: seq<byte>)
    requires Canonical(s)
    ensures Joined(s, Over(Sums(1, 0), bytes), |bytes|) == Over(s, bytes)
  {
    var t, n := Over(Sums(1, 0), bytes), |bytes|;
    var rem := n % BASE;
    OverIsSums(s, bytes);
    OverIsSums(Sums(1, 0), bytes);
    SumsShift(s, bytes);
    FirstJoined(s.a, t.a, SumA(1, bytes), SumA(s.a, bytes));
    SecondJoined(s, t.b, n, SumB(1, 0, bytes), SumB(s.a, s.b, bytes));
  }

  lemma FirstJoined(a: nat, t: nat, one: nat, all: nat)
    requires t == one % BASE && all + 1 == one + a
    ensures (a + t + BASE - 1) % BASE == all % BASE
  {
    ModBoth(t, one, a);
    SameMod(t + a, a + t + BASE - 1 + 1, 1);
    ModCancel(a + t + BASE - 1, all, 1);
  }

  lemma SecondJoined(s: Sums, t: nat, n: nat, one: nat, all: nat)
    requires t == one % BASE && all + n == one + s.b + n * s.a
    ensures (n % BASE * s.a + s.b + t + BASE - n % BASE) % BASE == all % BASE
  {
    var rem := n % BASE;
    var x := rem * s.a + s.b + t + BASE - rem;
    ModTimes(n, s.a);
    ModBoth(rem * s.a, n * s.a, s.b + t);
    ModBoth(t, one, n * s.a + s.b);
    SameMod(rem * s.a + s.b + t, x + rem, 1);
    ModBoth(rem, n, x);
    ModCancel(x, all, n);
  }

  lemma Monotone(x: nat, y: nat, z: nat)
    requires y <= z
    ensures x * y <= x * z
  {
    assert x * z == x * y + x * (z - y);
  }

  lemma ProductFits(x: nat, y: nat)
    requires x < BASE && y < BASE
    ensures x * y <= (BASE - 1) * (BASE - 1) < 0x1_0000_0000
  {
    Monotone(x, y, BASE - 1);
  }

  // sum1, reduced by two subtractions
  method JoinFirst(sum: u32, a: u32) returns (r: u32)
    requires sum < BASE as u32 && a < BASE as u32
    ensures r as int == (sum as int + a as int + BASE - 1) % BASE
  {
    r := sum + (a + BASE as u32 - 1);
    OneLess(r as int);
    if r >= BASE as u32 {
      r := r - BASE as u32;
    }
    r := Once(r);
  }

  // sum2, likewise
  method JoinSecond(sum: u32, b1: u32, b2: u32, rem: u32) returns (r: u32)
    requires sum < BASE as u32 && b1 < BASE as u32 && b2 < BASE as u32 && rem < BASE as u32
    ensures r as int == (sum as int + b1 as int + b2 as int + BASE - rem as int) % BASE
  {
    r := sum + (b1 + b2 + BASE as u32 - rem);
    if r >= BASE as u32 * 2 {
      SameMod(r as int - 2 * BASE, r as int, 2);
      r := r - BASE as u32 * 2;
    }
    r := Once(r);
  }

  // The sums of adler32_combine_, for a length that is not negative.
  method CombineSums(s: Sums, t: Sums, len2: i64, noDivide: bool) returns (sum1: u32, sum2: u32)
    requires Canonical(s) && Canonical(t) && len2 >= 0
    ensures Sums(sum1 as int, sum2 as int) == Joined(s, t, len2 as int)
  {
    var rest := Mod63(len2, noDivide);
    var rem := rest as u32;
    sum1 := s.a as u32;
    ProductFits(rem as int, s.a);
    sum2 := rem * sum1;
    ghost var product := sum2 as int;
    sum2 := Mod(sum2, noDivide);
    ModBoth(sum2 as int, product, s.b + t.b + BASE - rem as int);
    sum1 := JoinFirst(sum1, t.a as u32);
    sum2 := JoinSecond(sum2, s.b as u32, t.b as u32, rem);
  }

  // The checksum of some bytes is joined with that of `len2` more, without the bytes. A
  // negative length gets an invalid checksum.
  method Combine(adler1: u32, adler2: u32, len2: i64, noDivide: bool) returns (r: u32)
    requires Canonical(Unpack(adler1)) && Canonical(Unpack(adler2))
    ensures len2 < 0 ==> r == 0xffff_ffff
    ensures forall bytes: seq<byte> :: |bytes| == len2 as int && adler2 == Checksum(bytes) ==>
      r == Pack(Over(Unpack(adler1), bytes))
  {
    if len2 < 0 {
      return 0xffff_ffff;
    }
    var sum1, sum2 := CombineSums(Unpack(adler1), Unpack(adler2), len2, noDivide);
    r := sum1 + sum2 * 65536;
    forall bytes: seq<byte> | |bytes| == len2 as int && adler2 == Checksum(bytes)
      ensures r == Pack(Over(Unpack(adler1), bytes))
    {
      UnpackPack(Over(Sums(1, 0), bytes));
      JoinedIsOver(Unpack(adler1), bytes);
    }
  }
}
