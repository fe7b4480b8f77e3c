/** Red-black trees as values, and how tall they can get. */
module RedBlackTheory {

  datatype Tree<T> = Leaf | Node(left: Tree<T>, item: T, red: bool, right: Tree<T>)

  function InOrder<T>(t: Tree<T>): seq<T> {
    match t
    case Leaf => []
    case Node(l, x, _, r) => InOrder(l) + [x] + InOrder(r)
  }

  predicate IsRed<T>(t: Tree<T>) {
    t.Node? && t.red
  }

  // No red node has a red child.
  predicate NoRedRed<T>(t: Tree<T>) {
    t.Node? ==> NoRedRed(t.left) && NoRedRed(t.right) && (t.red ==> !IsRed(t.left) && !IsRed(t.right))
  }

  // Every path from the root of t to a leaf passes h black nodes.
  predicate Blacks<T>(t: Tree<T>, h: int) {
    match t
    case Leaf => h == 0
    case Node(l, _, red, r) =>
      var below := if red then h else h - 1;
      Blacks(l, below) && Blacks(r, below)
  }

  // The black nodes on the leftmost path.
  function BlackHeight<T>(t: Tree<T>): nat {
    match t
    case Leaf => 0
    case Node(l, _, red, _) => BlackHeight(l) + if red then 0 else 1
  }

  predicate RedBlack<T>(t: Tree<T>) {
    !IsRed(t) && NoRedRed(t) && Blacks(t, BlackHeight(t))
  }

  function Height<T>(t: Tree<T>): nat {
    match t
    case Leaf => 0
    case Node(l, _, _, r) => 1 + if Height(l) < Height(r) then Height(r) else Height(l)
  }

  function Pow2(n: nat): (p: nat)
    ensures p >= 1
  {
    if n == 0 then 1 else 2 * Pow2(n - 1)
  }

  // The whole part of the binary logarithm.
  function Log2(n: nat): (k: nat)
    requires n >= 1
    ensures Pow2(k) <= n < Pow2(k + 1)
  {
    if n == 1 then 0 else 1 + Log2(n / 2)
  }

  lemma {:induction false} Pow2Monotone(a: nat, b: nat)
    requires a <= b
    ensures Pow2(a) <= Pow2(b)
    decreases b
  {
    if a < b { Pow2Monotone(a, b - 1); }
  }

  lemma {:induction false} HeightByBlacks<T>(t: Tree<T>, h: int)
    requires NoRedRed(t) && Blacks(t, h)
    ensures 0 <= h && Height(t) <= 2 * h + (if IsRed(t) then 1 else 0)
    ensures Pow2(h) <= |InOrder(t)| + 1
  {
    match t
    case Leaf =>
    case Node(l, _, red, r) =>
      HeightByBlacks(l, if red then h else h - 1);
      HeightByBlacks(r, if red then h else h - 1);
  }

  // A red-black tree of n nodes is at most 2 log2(n + 1) tall.
  lemma HeightBound<T>(t: Tree<T>)
    requires RedBlack(t)
    ensures Height(t) <= 2 * Log2(|InOrder(t)| + 1)
  {
    var h := BlackHeight(t);
    HeightByBlacks(t, h);
    var k := Log2(|InOrder(t)| + 1);
    if k < h { Pow2Monotone(k + 1, h); }
  }

  // A stretch of a sequence around one of its elements.
  lemma AroundOne<T>(s: seq<T>, lo: int, at: int, hi: int)
    requires 0 <= lo <= at < hi <= |s|
    ensures s[lo..hi] == s[lo..at] + [s[at]] + s[at + 1..hi]
  {
  }
}
