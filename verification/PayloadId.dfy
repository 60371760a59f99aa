/** The 64-bit FNV-1a id of an embedded payload. */
module PayloadId {
  const WORD: nat := 0x1_0000_0000_0000_0000
  const PRIME: nat := 0x100_0000_01b3
  const PRIME_INVERSE: nat := 0xce96_5057_aff6_957b
  const OFFSET_BASIS: nat := 0xcbf2_9ce4_8422_2325

  type U64 = n: nat | n < WORD
  type Byte = b: nat | b < 256

  /** Exclusive or, bit by bit from the lowest. */
  function Xor(a: nat, b: nat): nat
    decreases a + b
  {
    if a == 0 && b == 0 then 0 else (a % 2 + b % 2) % 2 + 2 * Xor(a / 2, b / 2)
  }

  function Pow2(n: nat): nat {
    if n == 0 then 1 else 2 * Pow2(n - 1)
  }

  lemma {:induction false} XorBound(a: nat, b: nat, n: nat)
    requires a < Pow2(n) && b < Pow2(n)
    ensures Xor(a, b) < Pow2(n)
  {
    if n > 0 {
      XorBound(a / 2, b / 2, n - 1);
    }
  }

  lemma {:induction false} Pow2Sum(m: nat, n: nat)
    ensures Pow2(m + n) == Pow2(m) * Pow2(n)
  {
    if m > 0 {
      Pow2Sum(m - 1, n);
      var x, y := Pow2(m - 1), Pow2(n);
      assert Pow2(m + n) == 2 * (x * y) == (2 * x) * y;
    }
  }

  lemma WordIsPow2()
    ensures Pow2(64) == WORD
  {
    assert Pow2(8) == 256;
    hide Pow2;
    Pow2Sum(8, 8);
    assert Pow2(16) == 0x1_0000;
    Pow2Sum(16, 16);
    assert Pow2(32) == 0x1_0000_0000;
    Pow2Sum(32, 32);
  }

  lemma XorFits(hash: U64, byte: Byte)
    ensures Xor(hash, byte) < WORD
  {
    WordIsPow2();
    hide Pow2;
    XorBound(hash, byte, 64);
  }

  function Bit(a: nat, n: nat): nat {
    if n == 0 then a % 2 else Bit(a / 2, n - 1)
  }

  /** A bit of the result is set exactly if it is set in one of the two and not in the other. */
  lemma {:induction false} XorBits(a: nat, b: nat, n: nat)
    ensures Bit(Xor(a, b), n) == 1 <==> Bit(a, n) != Bit(b, n)
  {
    LowestBit(a, b);
    hide Xor;
    if n > 0 {
      XorBits(a / 2, b / 2, n - 1);
    }
  }

  /** Only the lowest eight bits of the hash meet the byte. */
  lemma XorByte(hash: nat, byte: Byte)
    ensures Xor(hash, byte) == 256 * (hash / 256) + Xor(hash % 256, byte)
  {
    EightBits(hash / 256);
    hide Up, Pow2, Xor;
    XorSplit(hash / 256, hash % 256, byte, 8);
  }

  /** Shifted by `n` bits. */
  function Up(a: nat, n: nat): nat {
    if n == 0 then a else 2 * Up(a, n - 1)
  }

  lemma EightBits(a: nat)
    ensures Up(a, 8) == 256 * a && Pow2(8) == 256
  {
    assert Up(a, 1) == 2 * a;
    assert Up(a, 2) == 4 * a;
    assert Up(a, 3) == 8 * a;
    assert Up(a, 4) == 16 * a;
    assert Up(a, 5) == 32 * a;
    assert Up(a, 6) == 64 * a;
    assert Up(a, 7) == 128 * a;
  }

  lemma XorStep(a: nat, b: nat)
    ensures Xor(a, b) == (a % 2 + b % 2) % 2 + 2 * Xor(a / 2, b / 2)
  {
  }

  lemma Halves(half: nat, low: nat)
    ensures (2 * half + low) / 2 == half + low / 2 && (2 * half + low) % 2 == low % 2
  {
  }

  lemma {:induction false} XorSplit(high: nat, low: nat, byte: nat, n: nat)
    requires low < Pow2(n) && byte < Pow2(n)
    ensures Xor(Up(high, n) + low, byte) == Up(high, n) + Xor(low, byte)
  {
    if n == 0 {
      XorZero(high);
    } else {
      var half := Up(high, n - 1);
      assert low / 2 < Pow2(n - 1) && byte / 2 < Pow2(n - 1);
      assert Up(high, n) == 2 * half;
      hide Xor, Pow2, Up;
      XorSplit(high, low / 2, byte / 2, n - 1);
      XorStep(2 * half + low, byte);
      XorStep(low, byte);
      Halves(half, low);
    }
  }

  lemma {:induction false} XorZero(a: nat)
    ensures Xor(a, 0) == a
  {
    if a > 0 {
      XorZero(a / 2);
    }
  }

  /** The values that the standard's own implementation gives: of no bytes the offset basis, and of the
      letter `a`, which tells the order of the two operations and the prime. */
  lemma KnownIds()
    ensures Id([]) == 0xcbf2_9ce4_8422_2325
    ensures Id([0x61]) == 0xaf63_dc4c_8601_ec8c
  {
    hide Xor, WrappingMul, Fold;
    FoldOne(0xcbf2_9ce4_8422_2325, 0x61);
    XorOfFirst();
    MulOfMixed();
  }

  lemma FoldOne(hash: U64, byte: Byte)
    ensures Fold(hash, [byte]) == WrappingMul(Xor(hash, byte)) && Fold(hash, []) == hash
  {
    hide Xor, WrappingMul;
    assert [byte][1..] == [];
  }

  lemma XorOfFirst()
    ensures Xor(0xcbf2_9ce4_8422_2325, 0x61) == 0xcbf2_9ce4_8422_2344
  {
    SmallXor();
    hide Xor;
    XorByte(0xcbf2_9ce4_8422_2325, 0x61);
  }

  lemma MulOfMixed()
    ensures WrappingMul(0xcbf2_9ce4_8422_2344) == 0xaf63_dc4c_8601_ec8c
  {
    assert 0xcbf2_9ce4_8422_2344 * 0x100_0000_01b3 == 0xcbf29ce5de * 0x1_0000_0000_0000_0000 + 0xaf63_dc4c_8601_ec8c;
  }

  lemma SmallXor()
    ensures Xor(0x25, 0x61) == 0x44
  {
    assert Xor(0, 1) == 1 && Xor(1, 3) == 2 && Xor(2, 6) == 4 && Xor(4, 12) == 8;
    assert Xor(9, 24) == 17 && Xor(18, 48) == 34 && Xor(0x25, 0x61) == 68;
  }

  function WrappingMul(hash: nat): U64 {
    hash * PRIME % WORD
  }

  function Mix(hash: U64, byte: Byte): U64 {
    WrappingMul(Xor(hash, byte))
  }

  function Fold(hash: U64, payload: seq<Byte>): U64
    decreases |payload|
  {
    if payload == [] then hash else Fold(Mix(hash, payload[0]), payload[1..])
  }

  function Id(payload: seq<Byte>): U64 {
    Fold(OFFSET_BASIS, payload)
  }

  lemma LowestBit(a: nat, b: nat)
    ensures Xor(a, b) / 2 == Xor(a / 2, b / 2) && Xor(a, b) % 2 == (a % 2 + b % 2) % 2
  {
  }

  lemma LowestBitInjective(g: nat, h: nat, x: nat, y: nat)
    requires (g % 2 + x % 2) % 2 == (h % 2 + y % 2) % 2 && (g % 2 == h % 2 || x % 2 == y % 2)
    ensures g % 2 == h % 2 && x % 2 == y % 2
  {
  }

  lemma {:induction false} XorInjective(g: nat, h: nat, x: nat, y: nat)
    requires Xor(g, x) == Xor(h, y) && (g == h || x == y)
    ensures g == h && x == y
    decreases g + h + x + y
  {
    LowestBit(g, x);
    LowestBit(h, y);
    hide Xor;
    if g + h + x + y > 0 {
      XorInjective(g / 2, h / 2, x / 2, y / 2);
      LowestBitInjective(g, h, x, y);
      FromHalves(g, h);
      FromHalves(x, y);
    }
  }

  lemma FromHalves(a: nat, b: nat)
    requires a / 2 == b / 2 && a % 2 == b % 2
    ensures a == b
  {
  }

  /** The prime is odd, so multiplying by it can be undone. */
  lemma MulUndone(h: U64)
    ensures WrappingMul(h) * PRIME_INVERSE % WORD == h
  {
    var k := h * PRIME / WORD;
    var times := PRIME * PRIME_INVERSE / WORD;
    assert PRIME * PRIME_INVERSE == 1 + times * WORD;
    assert WrappingMul(h) == h * PRIME - k * WORD;
    assert WrappingMul(h) * PRIME_INVERSE == h + (h * times - k * PRIME_INVERSE) * WORD;
    Residue(h, h * times - k * PRIME_INVERSE);
  }

  lemma Residue(h: U64, q: int)
    ensures (h + q * WORD) % WORD == h
  {
  }

  lemma MixInjective(g: U64, h: U64, x: Byte, y: Byte)
    requires Mix(g, x) == Mix(h, y) && (g == h || x == y)
    ensures g == h && x == y
  {
    hide Xor, WrappingMul;
    XorFits(g, x);
    XorFits(h, y);
    MulUndone(Xor(g, x));
    MulUndone(Xor(h, y));
    XorInjective(g, h, x, y);
  }

  /** What follows never makes two different states meet. */
  lemma {:induction false} FoldInjective(g: U64, h: U64, payload: seq<Byte>)
    requires Fold(g, payload) == Fold(h, payload)
    ensures g == h
    decreases |payload|
  {
    if payload != [] {
      hide Mix;
      FoldInjective(Mix(g, payload[0]), Mix(h, payload[0]), payload[1..]);
      MixInjective(g, h, payload[0], payload[0]);
    }
  }

  lemma {:induction false} FoldAppend(h: U64, a: seq<Byte>, b: seq<Byte>)
    ensures Fold(h, a + b) == Fold(Fold(h, a), b)
    decreases |a|
  {
    hide Mix;
    if a == [] {
      assert a + b == b;
    } else {
      assert (a + b)[1..] == a[1..] + b;
      FoldAppend(Mix(h, a[0]), a[1..], b);
    }
  }

  /** Changing one byte of a payload, and nothing else, always changes its id. */
  lemma OneByteChangesTheId(payload: seq<Byte>, k: nat, byte: Byte)
    requires k < |payload|
    ensures Id(payload[k := byte]) == Id(payload) <==> byte == payload[k]
  {
    hide Mix;
    var front, back := payload[..k], payload[k + 1..];
    var h := Fold(OFFSET_BASIS, front);
    assert payload == front + ([payload[k]] + back);
    assert payload[k := byte] == front + ([byte] + back);
    FoldAppend(OFFSET_BASIS, front, [payload[k]] + back);
    FoldAppend(OFFSET_BASIS, front, [byte] + back);
    assert ([payload[k]] + back)[1..] == back && ([byte] + back)[1..] == back;
    if Id(payload[k := byte]) == Id(payload) {
      FoldInjective(Mix(h, payload[k]), Mix(h, byte), back);
      MixInjective(h, h, payload[k], byte);
    }
  }

  /** Payloads that differ in their front part only, and whose fronts have different ids, have
      different ids. */
  lemma DifferentFrontsStayDifferent(a: seq<Byte>, b: seq<Byte>, back: seq<Byte>)
    ensures Id(a + back) == Id(b + back) <==> Id(a) == Id(b)
  {
    FoldAppend(OFFSET_BASIS, a, back);
    FoldAppend(OFFSET_BASIS, b, back);
    if Id(a + back) == Id(b + back) {
      FoldInjective(Id(a), Id(b), back);
    }
  }
}
