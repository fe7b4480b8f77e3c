/** Machine words: the wrapped differences that order deadlines. */
module Words {
  const WORD: int := 0x1_0000_0000_0000_0000
  const HALF: int := 0x8000_0000_0000_0000

  type Word = x: int | 0 <= x < WORD witness 0

  function Wrap(x: int): Word {
    x % WORD
  }

  // The value of a word read as a signed one.
  function Signed(w: Word): int {
    if w < HALF then w else w - WORD
  }

  // The sign test on the wrapped difference a - b.
  predicate Before(a: Word, b: Word) {
    Signed(Wrap(a - b)) < 0
  }

  lemma WrapUnique(x: int, w: Word, k: int)
    requires x == w + k * WORD
    ensures Wrap(x) == w
  {
  }

  // Within half the range, the signed wrapped difference of two wrapped times is the real one.
  lemma SignedDifference(a: int, b: int)
    requires -HALF <= a - b < HALF
    ensures Signed(Wrap(Wrap(a) - Wrap(b))) == a - b
  {
    var p, q := a / WORD, b / WORD;
    assert a == Wrap(a) + p * WORD && b == Wrap(b) + q * WORD;
    if a - b >= 0 {
      WrapUnique(Wrap(a) - Wrap(b), a - b, q - p);
    } else {
      WrapUnique(Wrap(a) - Wrap(b), a - b + WORD, q - p - 1);
    }
  }

  lemma WrapAdd(a: int, b: int)
    ensures Wrap(Wrap(a) + b) == Wrap(a + b)
  {
    assert a == Wrap(a) + (a / WORD) * WORD;
    var s := Wrap(a) + b;
    assert s == Wrap(s) + (s / WORD) * WORD;
    WrapUnique(a + b, Wrap(s), s / WORD + a / WORD);
  }
}
