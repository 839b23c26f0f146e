/** The machine's 64-bit words and what it does with pairs of them. */
module Words {
  import opened Arithmetic

  const WORD: int := 0x1_0000_0000_0000_0000
  const MAX: int := 0x7FFF_FFFF_FFFF_FFFF

  type uint64 = x: int | 0 <= x < 0x1_0000_0000_0000_0000
  type int64 = x: int | -0x8000_0000_0000_0000 <= x <= 0x7FFF_FFFF_FFFF_FFFF

  /** Two words as one number. */
  function Wide(hi: uint64, lo: uint64): nat { hi * WORD + lo }

  lemma ProductFits(x: uint64, y: uint64)
    ensures 0 <= x * y && x * y / WORD < WORD
  {
    MulLe(x, WORD - 1, y);
    MulLe(y, WORD - 1, WORD - 1);
  }

  function Mul64(x: uint64, y: uint64): (r: (uint64, uint64))
    ensures Wide(r.0, r.1) == x * y
  {
    ProductFits(x, y);
    (x * y / WORD, x * y % WORD)
  }

  function Add64(x: uint64, y: uint64, carry: uint64): (r: (uint64, uint64))
    requires carry <= 1
    ensures r.1 * WORD + r.0 == x + y + carry && r.1 <= 1
  {
    var s := x + y + carry;
    if s >= WORD then (s - WORD, 1) else (s, 0)
  }

  function Sub64(x: uint64, y: uint64, borrow: uint64): (r: (uint64, uint64))
    requires borrow <= 1
    ensures r.0 - r.1 * WORD == x - y - borrow && r.1 <= 1
  {
    var s := x - y - borrow;
    if s < 0 then (s + WORD, 1) else (s, 0)
  }

  /** Wrapping addition. */
  function Plus(x: uint64, y: uint64): uint64 { (x + y) % WORD }

  function Div64(hi: uint64, lo: uint64, y: uint64): (r: (uint64, uint64))
    requires hi < y
    ensures r.0 == Wide(hi, lo) / y
  {
    var n := Wide(hi, lo);
    assert n < y * WORD by { MulLe(hi + 1, y, WORD); }
    assert n / y < WORD by { Quotient(n, y); }
    (n / y, n % y)
  }

  lemma Quotient(n: nat, y: nat)
    requires y > 0 && n < y * WORD
    ensures n / y < WORD
  {
    assert n / y * y <= n;
    Cancel(n / y, WORD, y);
  }
}
