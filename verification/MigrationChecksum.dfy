/** The checksum of a migration's text: a polynomial in 31, cut to 32 bits, without its sign. */
module MigrationChecksum {
  import opened JsStrings

  const WORD: int := 0x1_0000_0000
  const HALF: int := 0x8000_0000
  const INVERSE_31: nat := 0xbdef_7bdf

  /** The signed 32-bit integer with the same residue. */
  function ToInt32(x: int): (r: int)
    ensures -HALF <= r < HALF && (r - x) % WORD == 0
  {
    var m := x % WORD;
    if m >= HALF then m - WORD else m
  }

  function ShiftLeft5(h: int): int {
    ToInt32(h * 32)
  }

  function Pow31(n: nat): nat {
    if n == 0 then 1 else 31 * Pow31(n - 1)
  }

  /** The sum of the code units of `s`, each times 31 to the number of units after it. */
  function Sum31(s: JsString): nat {
    if s == [] then 0 else s[0] * Pow31(|s| - 1) + Sum31(s[1..])
  }

  lemma SameResidue(x: int, y: int)
    requires (x - y) % WORD == 0
    ensures ToInt32(x) == ToInt32(y)
  {
    var q := (x - y) / WORD;
    assert x == y + q * WORD;
    assert x % WORD == y % WORD;
  }

  lemma ResidueIff(x: int, y: int)
    ensures ToInt32(x) == ToInt32(y) <==> (x - y) % WORD == 0
  {
    if (x - y) % WORD == 0 {
      SameResidue(x, y);
    }
  }

  lemma {:induction false} SumSnoc(s: JsString, c: CodeUnit)
    ensures Sum31(s + [c]) == 31 * Sum31(s) + c
  {
    if s == [] {
      assert [] + [c] == [c] && [c][1..] == [];
      assert Sum31([c]) == c * Pow31(0) + Sum31([]);
    } else {
      assert (s + [c])[1..] == s[1..] + [c];
      SumSnoc(s[1..], c);
      var p := Pow31(|s| - 1);
      assert Pow31(|s|) == 31 * p;
      assert s[0] * (31 * p) == 31 * (s[0] * p);
    }
  }

  /** Shifting, subtracting and adding in 32 bits is multiplying by 31 and adding. */
  lemma OneRound(h: int, sum: int, c: CodeUnit)
    requires h == ToInt32(sum)
    ensures ToInt32(ShiftLeft5(h) - h + c) == ToInt32(31 * sum + c)
  {
    var a, b := (ShiftLeft5(h) - 32 * h) / WORD, (h - sum) / WORD;
    assert ShiftLeft5(h) == 32 * h + a * WORD && h == sum + b * WORD;
    assert (ShiftLeft5(h) - h + c) - (31 * sum + c) == (a + 31 * b) * WORD;
    SameResidue(ShiftLeft5(h) - h + c, 31 * sum + c);
  }

  /** The value of the variable `hash` after the loop: within 32 bits, and the residue of the sum. */
  method Hash(s: JsString) returns (hash: int)
    ensures -HALF <= hash < HALF && hash == ToInt32(Sum31(s))
  {
    hash := 0;
    assert s[..0] == [];
    for i := 0 to |s|
      invariant hash == ToInt32(Sum31(s[..i]))
    {
      var unit := s[i];
      assert s[..i + 1] == s[..i] + [unit];
      SumSnoc(s[..i], unit);
      OneRound(hash, Sum31(s[..i]), unit);
      hash := ShiftLeft5(hash) - hash + unit;
      hash := ToInt32(hash);
    }
    assert s[..|s|] == s;
  }

  function Abs(h: int): nat {
    if h < 0 then -h else h
  }

  method CalculateChecksum(up: JsString) returns (sum: nat)
    ensures sum == Abs(ToInt32(Sum31(up)))
  {
    var hash := Hash(up);
    sum := Abs(hash);
  }

  // -- Changing one code unit ------------------------------------------------

  lemma {:induction false} SumOfChanged(s: JsString, k: nat, c: CodeUnit)
    requires k < |s|
    ensures Sum31(s[k := c]) == Sum31(s) + (c - s[k]) * Pow31(|s| - 1 - k)
  {
    var t := s[k := c];
    var p := Pow31(|s| - 1 - k);
    if k == 0 {
      assert t[1..] == s[1..];
      assert c * p == s[0] * p + (c - s[0]) * p;
    } else {
      assert t[1..] == s[1..][k - 1 := c];
      SumOfChanged(s[1..], k - 1, c);
    }
  }

  /** 31 is odd, so multiplying by it can be undone. */
  lemma Undo31(x: int)
    requires (31 * x) % WORD == 0
    ensures x % WORD == 0
  {
    var q := 31 * x / WORD;
    assert 31 * x == q * WORD;
    assert 31 * INVERSE_31 == 1 + 23 * WORD;
    assert x == (q * INVERSE_31 - 23 * x) * WORD;
  }

  lemma {:induction false} UndoPower(x: int, n: nat)
    requires (x * Pow31(n)) % WORD == 0
    ensures x % WORD == 0
  {
    if n > 0 {
      assert x * Pow31(n) == 31 * (x * Pow31(n - 1));
      Undo31(x * Pow31(n - 1));
      UndoPower(x, n - 1);
    } else {
      assert x * Pow31(0) == x;
    }
  }

  /** Changing one code unit of a text always changes its hash before the sign is dropped. */
  lemma OneUnitChangesTheHash(s: JsString, k: nat, c: CodeUnit)
    requires k < |s|
    ensures ToInt32(Sum31(s[k := c])) == ToInt32(Sum31(s)) <==> c == s[k]
  {
    var d := (c - s[k]) * Pow31(|s| - 1 - k);
    SumOfChanged(s, k, c);
    ResidueIff(Sum31(s[k := c]), Sum31(s));
    if d % WORD == 0 {
      UndoPower(c - s[k], |s| - 1 - k);
    }
    assert c == s[k] ==> d == 0;
  }

  lemma NegatedInt32(y: int)
    ensures var r := ToInt32(y); ToInt32(-y) == if r == -HALF then r else -r
  {
    hide ToInt32;
    var r := ToInt32(y);
    var q := (r - y) / WORD;
    if r == -HALF {
      MultipleOfWord(-y - y, 1 + 2 * q);
      SameResidue(-y, y);
    } else {
      MultipleOfWord(-r - (-y), -q);
      SameResidue(-r, -y);
      WithinRange(-r);
    }
  }

  lemma MultipleOfWord(x: int, q: int)
    requires x == q * WORD
    ensures x % WORD == 0
  {
  }

  lemma WithinRange(r: int)
    requires -HALF <= r < HALF
    ensures ToInt32(r) == r
  {
  }

  lemma AbsEqualIff(x: int, y: int)
    ensures Abs(ToInt32(x)) == Abs(ToInt32(y)) <==> (x - y) % WORD == 0 || (x + y) % WORD == 0
  {
    ResidueIff(x, y);
    ResidueIff(x, -y);
    NegatedInt32(y);
    hide ToInt32;
    assert x - (-y) == x + y;
    assert -HALF <= ToInt32(x) < HALF && -HALF <= ToInt32(y) < HALF;
  }

  /** The checksum misses a change of one code unit if and only if the change is half the sum, up to
      sign and modulo 2^32, since only the sign of the hash then changes. */
  lemma ChecksumMissesIff(s: JsString, k: nat, c: CodeUnit)
    requires k < |s| && c != s[k]
    ensures Abs(ToInt32(Sum31(s[k := c]))) == Abs(ToInt32(Sum31(s))) <==>
            (2 * Sum31(s) + (c - s[k]) * Pow31(|s| - 1 - k)) % WORD == 0
  {
    hide ToInt32, Sum31, Pow31, Abs;
    OneUnitChangesTheHash(s, k, c);
    SumOfChanged(s, k, c);
    ResidueIff(Sum31(s[k := c]), Sum31(s));
    AbsEqualIff(Sum31(s[k := c]), Sum31(s));
  }

  lemma SumAfter(s: JsString, c: CodeUnit, sum: nat)
    requires sum == 31 * Sum31(s) + c
    ensures Sum31(s + [c]) == sum
  {
    SumSnoc(s, c);
  }

  /** Texts of eight letters that differ in one of them can have the same checksum. */
  lemma ChecksumCanMiss()
    ensures var s := [65, 120, 122, 99, 108, 106, 115, 101];
            s[0 := 97] != s && Abs(ToInt32(Sum31(s[0 := 97]))) == Abs(ToInt32(Sum31(s)))
  {
    var s: JsString := [65, 120, 122, 99, 108, 106, 115, 101];
    SumOfTail();
    assert s[1..] == [120, 122, 99, 108, 106, 115, 101];
    PowerSeven();
    ChecksumMissesIff(s, 0, 97);
  }

  lemma PowerSeven()
    ensures Pow31(7) == 27512614111
  {
    assert Pow31(1) == 31 && Pow31(2) == 961 && Pow31(3) == 29791;
    assert Pow31(4) == 923521 && Pow31(5) == 28629151;
    assert Pow31(6) == 887503681;
  }

  lemma SumOfTail()
    ensures Sum31([120, 122, 99, 108, 106, 115, 101]) == 110087949681
  {
    assert Sum31([]) == 0;
    hide Sum31;
    SumAfter([], 120, 120);
    assert [] + [120] == [120];
    SumAfter([120], 122, 3842);
    assert [120] + [122] == [120, 122];
    SumAfter([120, 122], 99, 119201);
    assert [120, 122] + [99] == [120, 122, 99];
    SumAfter([120, 122, 99], 108, 3695339);
    assert [120, 122, 99] + [108] == [120, 122, 99, 108];
    SumAfter([120, 122, 99, 108], 106, 114555615);
    assert [120, 122, 99, 108] + [106] == [120, 122, 99, 108, 106];
    SumAfter([120, 122, 99, 108, 106], 115, 3551224180);
    assert [120, 122, 99, 108, 106] + [115] == [120, 122, 99, 108, 106, 115];
    SumAfter([120, 122, 99, 108, 106, 115], 101, 110087949681);
    assert [120, 122, 99, 108, 106, 115] + [101] == [120, 122, 99, 108, 106, 115, 101];
  }
}
