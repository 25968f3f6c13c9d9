/** Machine words of the tracker: `unsigned int`, `unsigned long` and `long`, with their wrap-around. */
module Words {
  /** Conversion to `unsigned int`. */
  function U32(x: int): (r: int)
    ensures 0 <= r < 0x1_0000_0000
  {
    x % 0x1_0000_0000
  }

  /** Conversion to `unsigned long`. */
  function U64(x: int): (r: int)
    ensures 0 <= r < 0x1_0000_0000_0000_0000
  {
    x % 0x1_0000_0000_0000_0000
  }

  /** Conversion to `long`, in two's complement. */
  function I64(x: int): int {
    var u := U64(x);
    if u < 0x8000_0000_0000_0000 then u else u - 0x1_0000_0000_0000_0000
  }

  /** The one 64-bit number with a sign that is x modulo 2^64. */
  lemma SignedWord(x: int)
    ensures -0x8000_0000_0000_0000 <= I64(x) < 0x8000_0000_0000_0000 && (I64(x) - x) % 0x1_0000_0000_0000_0000 == 0
  {}

  /** x and y are the same number modulo 2^64. */
  ghost predicate Same64(x: int, y: int) { U64(x - y) == 0 }

  /** x and y are the same number modulo 2^32. */
  ghost predicate Same32(x: int, y: int) { U32(x - y) == 0 }

  lemma Same64Wraps(x: int)
    ensures Same64(U64(x), x) && Same64(I64(x), x)
  {}

  lemma Same64Add(x: int, y: int, dx: int, dy: int)
    requires Same64(x, y) && Same64(dx, dy)
    ensures Same64(x + dx, y + dy)
  {}

  lemma Same64Eq(x: int, y: int)
    requires Same64(x, y) && 0 <= x < 0x1_0000_0000_0000_0000 && 0 <= y < 0x1_0000_0000_0000_0000
    ensures x == y
  {}
}

/** An optional value; `None` also stands for a null pointer or a missing key. */
module Options {
  datatype Option<+T> = None | Some(value: T)
}
