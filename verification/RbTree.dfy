/**
 * The intrusive red-black tree of ngx_rbtree.c, with parent links and one shared sentinel.
 *
 * The proofs rest on a flat invariant: every node knows its rank in the in-order sequence and the interval of ranks
 * below it, so that each rule relates a node to its neighbours only. Every operation is a few small methods, one for
 * each case of the source, each with a two-state lemma that looks at a single node.
 */
module RbTrees {
  import opened Words
  import opened RedBlackTheory

  // An intrusive node. owner names the connection record it is embedded in; at, lo, hi and bh are proof data:
  // its rank in order, the interval of ranks below it, and its black height.
  class RbNode {
    var key: Word
    var left: RbNode?
    var right: RbNode?
    var parent: RbNode?
    var red: bool
    ghost var at: int
    ghost var lo: int
    ghost var hi: int
    ghost var bh: int
    const owner: nat

    constructor (owner: nat)
      ensures this.owner == owner
    {
      key, red := 0, false;
      left, right, parent := null, null, null;
      this.owner := owner;
    }
  }

  // A tree of nodes ending in one shared sentinel; order lists its nodes from least to greatest. Nothing is said of
  // the parent links of the root and the sentinel, which deletion leaves stale.
  class RbTree {
    var root: RbNode
    const sentinel: RbNode
    ghost var order: seq<RbNode>
    ghost var Nodes: set<RbNode>

    // ngx_rbtree_init: an empty tree.
    constructor (s: RbNode)
      modifies s
      ensures sentinel == s && order == [] && Nodes == {} && Valid()
    {
      sentinel := s;
      root := s;
      order := [];
      Nodes := {};
      new;
      s.red := false;
      s.bh := 0;
    }

    // order lists every node once, and each node knows its rank.
    ghost predicate Ranked()
      reads `order, `Nodes, Nodes`at
    {
      && sentinel !in Nodes
      && (forall i :: 0 <= i < |order| ==> order[i] in Nodes && order[i].at == i)
      && (forall n {:trigger n.at} :: n in Nodes ==> 0 <= n.at < |order| && order[n.at] == n)
    }

    // n's interval and its links downwards.
    ghost predicate Down(n: RbNode)
      requires n in Nodes
      reads `order, `Nodes, Nodes`left, Nodes`right, Nodes`parent, Nodes`at, Nodes`lo, Nodes`hi
    {
      && 0 <= n.lo <= n.at < n.hi <= |order|
      && (if n.left == sentinel then n.lo == n.at
          else n.left in Nodes && n.left.parent == n && n.left.lo == n.lo && n.left.hi == n.at)
      && (if n.right == sentinel then n.hi == n.at + 1
          else n.right in Nodes && n.right.parent == n && n.right.lo == n.at + 1 && n.right.hi == n.hi)
    }

    // n's link upwards.
    ghost predicate Up(n: RbNode)
      requires n in Nodes
      reads `root, `Nodes, Nodes`left, Nodes`right, Nodes`parent
    {
      n != root ==> n.parent in Nodes && (n.parent.left == n || n.parent.right == n)
    }

    // All of n's links, in both directions.
    ghost predicate Linked(n: RbNode)
      requires n in Nodes
      reads `root, `order, `Nodes, Nodes`left, Nodes`right, Nodes`parent, Nodes`at, Nodes`lo, Nodes`hi
    {
      Down(n) && Up(n)
    }

    // The links form one binary search structure over order, below root.
    ghost predicate Shape()
      reads `root, `order, `Nodes, Nodes`left, Nodes`right, Nodes`parent, Nodes`at, Nodes`lo, Nodes`hi
    {
      && Ranked()
      && (root == sentinel <==> order == [])
      && (root != sentinel ==> root in Nodes && root.lo == 0 && root.hi == |order|)
      && (forall n {:trigger Linked(n)} :: n in Nodes ==> Linked(n))
    }

    // Both sides of n pass the same number of black nodes.
    ghost predicate BhOk(n: RbNode)
      requires n in Nodes && Linked(n)
      reads this, sentinel, Nodes
    {
      0 <= n.left.bh == n.right.bh && n.bh == n.left.bh + (if n.red then 0 else 1)
    }

    // n has no red child under a red node, except perhaps the child x.
    ghost predicate RedOk(n: RbNode, x: RbNode?)
      requires n in Nodes && Linked(n)
      reads this, sentinel, Nodes
    {
      n.red ==> (n.left == x || !n.left.red) && (n.right == x || !n.right.red)
    }

    // Every red-black rule, and the shape they need.
    ghost predicate Valid()
      reads this, sentinel, Nodes
    {
      && Shape() && !sentinel.red && sentinel.bh == 0 && !root.red
      && (forall n {:trigger BhOk(n)} :: n in Nodes ==> BhOk(n))
      && (forall n {:trigger RedOk(n, null)} :: n in Nodes ==> RedOk(n, null))
    }

    // A child has its owner as parent, and is not the root.
    lemma OnlyParent(n: RbNode, c: RbNode)
      requires Shape() && n in Nodes && c in Nodes && (n.left == c || n.right == c)
      ensures c.parent == n && c != root && n.left != n.right
    {
      assert Linked(n);
      assert Linked(c);
    }

    // Hangs temp where node hung: the root or one of its parent's two links.
    method Replace(node: RbNode, temp: RbNode)
      requires node != root ==> node.parent in Nodes && (node.parent.left == node || node.parent.right == node)
      requires forall n {:trigger n.left} {:trigger n.right} :: n in Nodes && (n.left == node || n.right == node) ==>
                 node.parent == n && node != root && n.left != n.right
      modifies `root, Nodes`left, Nodes`right
      ensures root == (if old(root) == node then temp else old(root))
      ensures forall n {:trigger n.left} :: n in Nodes ==>
              n.left == (if old(n.left) == node then temp else old(n.left))
      ensures forall n {:trigger n.right} :: n in Nodes ==>
              n.right == (if old(n.right) == node then temp else old(n.right))
    {
      if node == root {
        root := temp;
      } else if node == node.parent.left {
        node.parent.left := temp;
      } else {
        node.parent.right := temp;
      }
    }

    // Every link and interval after a left rotation at node.
    twostate predicate LeftRotated(node: RbNode, temp: RbNode)
      requires node in old(Nodes) && temp in old(Nodes)
      reads this, Nodes
    {
      && Nodes == old(Nodes) && order == old(order)
      && root == (if old(root) == node then temp else old(root))
      && (forall n {:trigger n.left} :: n in Nodes ==>
            n.left == (if n == temp then node else if old(n.left) == node then temp else old(n.left)))
      && (forall n {:trigger n.right} :: n in Nodes ==>
            n.right == (if n == node then old(temp.left) else if old(n.right) == node then temp else old(n.right)))
      && (forall n {:trigger n.parent} :: n in Nodes ==>
            n.parent == (if n == node then temp else if n == temp then old(node.parent)
                         else if n == old(temp.left) then node else old(n.parent)))
      && (forall n {:trigger n.lo} :: n in Nodes ==> n.lo == (if n == temp then old(node.lo) else old(n.lo)))
      && (forall n {:trigger n.hi} :: n in Nodes ==>
            n.hi == (if n == temp then old(node.hi) else if n == node then temp.at else old(n.hi)))
      && (forall n {:trigger n.at} :: n in Nodes ==> n.at == old(n.at))
    }

    twostate lemma LeftRotatedShape(node: RbNode, new temp: RbNode)
      requires old(Shape()) && node in old(Nodes) && temp in old(Nodes) && old(node.right) == temp
      requires LeftRotated(node, temp)
      ensures Shape()
    {
      assert old(Linked(node) && Linked(temp));
      forall n | n in Nodes ensures Linked(n) {
        assert old(Linked(n));
        if old(n.left) != sentinel { assert old(Linked(n.left)); }
        if old(n.right) != sentinel { assert old(Linked(n.right)); }
        if n != old(root) { assert old(Linked(n.parent)); }
      }
    }

    // node's right child takes its place, node becoming its left child.
    method LeftRotate(node: RbNode)
      requires Shape() && node in Nodes && node.right != sentinel
      modifies `root, Nodes`left, Nodes`right, Nodes`parent, Nodes`lo, Nodes`hi
      ensures old(node.right) in Nodes && LeftRotated(node, old(node.right))
    {
      assert Linked(node);
      var temp := node.right;
      assert Linked(temp);
      forall n | n in Nodes && (n.left == node || n.right == node)
        ensures node.parent == n && node != root && n.left != n.right
      {
        OnlyParent(n, node);
      }
      node.right := temp.left;
      if temp.left != sentinel {
        temp.left.parent := node;
      }
      temp.parent := node.parent;
      Replace(node, temp);
      temp.left := node;
      node.parent := temp;
      temp.lo := node.lo;
      node.hi := temp.at;
    }

    // Every link and interval after a right rotation at node.
    twostate predicate RightRotated(node: RbNode, temp: RbNode)
      requires node in old(Nodes) && temp in old(Nodes)
      reads this, Nodes
    {
      && Nodes == old(Nodes) && order == old(order)
      && root == (if old(root) == node then temp else old(root))
      && (forall n {:trigger n.right} :: n in Nodes ==>
            n.right == (if n == temp then node else if old(n.right) == node then temp else old(n.right)))
      && (forall n {:trigger n.left} :: n in Nodes ==>
            n.left == (if n == node then old(temp.right) else if old(n.left) == node then temp else old(n.left)))
      && (forall n {:trigger n.parent} :: n in Nodes ==>
            n.parent == (if n == node then temp else if n == temp then old(node.parent)
                         else if n == old(temp.right) then node else old(n.parent)))
      && (forall n {:trigger n.lo} :: n in Nodes ==> n.lo == (if n == temp then old(node.lo)
            else if n == node then temp.at + 1 else old(n.lo)))
      && (forall n {:trigger n.hi} :: n in Nodes ==>
            n.hi == (if n == temp then old(node.hi) else old(n.hi)))
      && (forall n {:trigger n.at} :: n in Nodes ==> n.at == old(n.at))
    }

    twostate lemma RightRotatedShape(node: RbNode, new temp: RbNode)
      requires old(Shape()) && node in old(Nodes) && temp in old(Nodes) && old(node.left) == temp
      requires RightRotated(node, temp)
      ensures Shape()
    {
      assert old(Linked(node) && Linked(temp));
      forall n | n in Nodes ensures Linked(n) {
        assert old(Linked(n));
        if old(n.right) != sentinel { assert old(Linked(n.right)); }
        if old(n.left) != sentinel { assert old(Linked(n.left)); }
        if n != old(root) { assert old(Linked(n.parent)); }
      }
    }

    // node's left child takes its place, node becoming its right child.
    method RightRotate(node: RbNode)
      requires Shape() && node in Nodes && node.left != sentinel
      modifies `root, Nodes`right, Nodes`left, Nodes`parent, Nodes`lo, Nodes`hi
      ensures old(node.left) in Nodes && RightRotated(node, old(node.left))
    {
      assert Linked(node);
      var temp := node.left;
      assert Linked(temp);
      forall n | n in Nodes && (n.right == node || n.left == node)
        ensures node.parent == n && node != root && n.right != n.left
      {
        OnlyParent(n, node);
      }
      node.left := temp.right;
      if temp.right != sentinel {
        temp.right.parent := node;
      }
      temp.parent := node.parent;
      Replace(node, temp);
      temp.right := node;
      node.parent := temp;
      temp.hi := node.hi;
      node.lo := temp.at + 1;
    }

    // Records new black heights.
    ghost method SetBh(heights: map<RbNode?, int>)
      modifies Nodes`bh
      ensures forall n {:trigger n.bh} :: n in Nodes ==> n.bh == if n in heights then heights[n] else old(n.bh)
    {
      forall n | n in Nodes && n in heights {
        n.bh := heights[n];
      }
    }

    // No link, rank or interval has changed.
    twostate predicate SameLinks()
      reads this, Nodes
    {
      && Nodes == old(Nodes) && order == old(order) && root == old(root)
      && (forall n {:trigger n.left} :: n in Nodes ==> n.left == old(n.left))
      && (forall n {:trigger n.right} :: n in Nodes ==> n.right == old(n.right))
      && (forall n {:trigger n.parent} :: n in Nodes ==> n.parent == old(n.parent))
      && (forall n {:trigger n.lo} :: n in Nodes ==> n.lo == old(n.lo))
      && (forall n {:trigger n.hi} :: n in Nodes ==> n.hi == old(n.hi))
    }

    // The state between two rounds of the insertion repair: x is red, and only its parent may be red too.
    ghost predicate InsertInv(x: RbNode)
      reads this, sentinel, Nodes
    {
      && Shape() && !sentinel.red && sentinel.bh == 0 && x in Nodes && x.red
      && (root.red ==> root == x)
      && (forall n {:trigger BhOk(n)} :: n in Nodes ==> BhOk(n))
      && (forall n {:trigger RedOk(n, x)} :: n in Nodes ==> RedOk(n, x))
    }

    // x hangs as a red child of a red node p below a black node g.
    ghost predicate RedPair(x: RbNode, p: RbNode, g: RbNode)
      reads x, p, g, Nodes, this
    {
      && {x, p, g} <= Nodes && x != root && x.parent == p && p.parent == g && p != root
      && (x == p.left || x == p.right) && (p == g.left || p == g.right)
      && p.red && !g.red
    }

    lemma RedParent(x: RbNode)
      requires InsertInv(x) && x != root
      ensures x.parent in Nodes
      ensures x.parent.red ==> x.parent.parent != null && RedPair(x, x.parent, x.parent.parent)
    {
      assert Linked(x);
      var p := x.parent;
      assert Linked(p);
      if p.red {
        assert Linked(p.parent);
        assert RedOk(p.parent, x);
        if p.parent.left == x || p.parent.right == x { OnlyParent(p.parent, x); }
      }
    }

    // What each round of the insertion repair brings down.
    ghost function Gap(x: RbNode): (g: nat)
      requires InsertInv(x)
      reads this, sentinel, Nodes
    {
      assert Linked(x);
      if x == root || !x.parent.red then 0 else 1 + |order| - (x.hi - x.lo)
    }

    // x is an inner grandchild: rotate it outwards, its parent taking its role.
    method InsertRotateInnerLeft(x: RbNode, p: RbNode, g: RbNode)
      requires InsertInv(x) && RedPair(x, p, g) && x == p.right
      modifies `root, Nodes`left, Nodes`right, Nodes`parent, Nodes`lo, Nodes`hi
      ensures InsertInv(p) && RedPair(p, x, g) && p == x.left
      ensures (x == g.left) == old(p == g.left)
      ensures old(p == g.left) ==> g.right == old(g.right)
    {
      assert Linked(x) && Linked(p) && Linked(g);
      LeftRotate(p);
      LeftRotatedShape(p, x);
      forall n | n in Nodes ensures BhOk(n) && RedOk(n, p) {
        assert old(Linked(n) && BhOk(n) && RedOk(n, x));
        assert old(Linked(x) && BhOk(x) && RedOk(x, x));
        assert old(Linked(p) && BhOk(p) && RedOk(p, x));
      }
    }

    twostate lemma InsertRotatedOuterRight(x: RbNode, new p: RbNode, new g: RbNode)
      requires {p, g} <= old(Nodes)
      requires old(InsertInv(x) && RedPair(x, p, g) && x == p.left && p == g.left && g.right != null && !g.right.red)
      requires RightRotated(g, p) && Shape() && unchanged(sentinel)
      requires forall n {:trigger n.red} :: n in Nodes ==> n.red == (if n == g then true else n != p && old(n.red))
      requires forall n {:trigger n.bh} :: n in Nodes ==>
                 n.bh == (if n == p then old(g.bh) else if n == g then old(p.bh) else old(n.bh))
      ensures InsertInv(x)
    {
      assert old(Linked(x) && Linked(p) && Linked(g));
      assert old(BhOk(x) && BhOk(p) && BhOk(g) && RedOk(p, x) && RedOk(g, x));
      forall n | n in Nodes ensures BhOk(n) && RedOk(n, x) {
        assert old(Linked(n) && BhOk(n) && RedOk(n, x));
      }
    }

    // x is an outer grandchild: recolour and rotate the grandparent, which ends the repair.
    method InsertRotateOuterRight(x: RbNode, p: RbNode, g: RbNode)
      requires InsertInv(x) && RedPair(x, p, g) && x == p.left && p == g.left && g.right != null && !g.right.red
      modifies `root, Nodes`left, Nodes`right, Nodes`parent, Nodes`red, Nodes`lo, Nodes`hi, Nodes`bh
      ensures InsertInv(x) && x.parent == p && !p.red
    {
      assert Linked(x) && Linked(p) && Linked(g);
      p.red := false;
      g.red := true;
      label L:
      RightRotate(g);
      RightRotatedShape@L(g, p);
      SetBh(map[p := g.bh, g := p.bh]);
      InsertRotatedOuterRight(x, p, g);
    }

    twostate lemma InsertRecolored(x: RbNode, new p: RbNode, new g: RbNode, new temp: RbNode)
      requires {p, g, temp} <= old(Nodes)
      requires old(InsertInv(x) && RedPair(x, p, g) && temp.red && temp != p && (temp == g.left || temp == g.right))
      requires SameLinks() && Shape() && unchanged(sentinel)
      requires forall n {:trigger n.red} :: n in Nodes ==>
                 n.red == (if n == g then true else if n == p || n == temp then false else old(n.red))
      requires forall n {:trigger n.bh} :: n in Nodes ==>
                 n.bh == (if n == p || n == temp then old(n.bh) + 1 else old(n.bh))
      ensures InsertInv(g) && Gap(g) < old(Gap(x))
    {
      assert old(Linked(x) && Linked(p) && Linked(g) && Linked(temp));
      assert old(BhOk(x) && BhOk(p) && BhOk(g) && BhOk(temp));
      forall n | n in Nodes ensures BhOk(n) && RedOk(n, g) {
        assert old(Linked(n) && BhOk(n) && RedOk(n, x));
      }
    }

    // Both children of g black, g itself red.
    method PaintPair(p: RbNode, g: RbNode, temp: RbNode)
      requires Shape() && {p, g, temp} <= Nodes && p != g && temp != g
      modifies Nodes`red
      ensures Shape()
      ensures forall n {:trigger n.red} :: n in Nodes ==>
                n.red == (if n == g then true else if n == p || n == temp then false else old(n.red))
    {
      p.red := false;
      temp.red := false;
      g.red := true;
    }

    // A red uncle: recolour, the red clash moving two levels up.
    method InsertRecolor(x: RbNode, p: RbNode, g: RbNode, temp: RbNode)
      requires InsertInv(x) && RedPair(x, p, g) && temp.red && temp != p && (temp == g.left || temp == g.right)
      modifies Nodes`red, Nodes`bh
      ensures InsertInv(g) && Gap(g) < old(Gap(x))
    {
      assert Linked(x) && Linked(p) && Linked(g);
      assert Linked(temp);
      PaintPair(p, g, temp);
      SetBh(map[p := p.bh + 1, temp := temp.bh + 1]);
      InsertRecolored(x, p, g, temp);
    }

    // One round of the insertion repair, below a left child of the grandparent.
    method InsertFixLeft(x: RbNode) returns (node: RbNode)
      requires InsertInv(x) && x != root && x.parent != null && x.parent.red
      requires x.parent.parent != null && x.parent == x.parent.parent.left
      modifies `root, Nodes`left, Nodes`right, Nodes`parent, Nodes`red, Nodes`lo, Nodes`hi, Nodes`bh
      ensures InsertInv(node) && Gap(node) < old(Gap(x))
    {
      RedParent(x);
      assert Linked(x) && Linked(x.parent.parent);
      node := x;
      var temp := node.parent.parent.right;
      if temp.red {
        InsertRecolor(node, node.parent, node.parent.parent, temp);
        node := node.parent.parent;
      } else {
        if node == node.parent.right {
          node := node.parent;
          InsertRotateInnerLeft(x, node, node.parent);
        }
        InsertRotateOuterRight(node, node.parent, node.parent.parent);
      }
    }

    // x is an inner grandchild: rotate it outwards, its parent taking its role.
    method InsertRotateInnerRight(x: RbNode, p: RbNode, g: RbNode)
      requires InsertInv(x) && RedPair(x, p, g) && x == p.left
      modifies `root, Nodes`right, Nodes`left, Nodes`parent, Nodes`lo, Nodes`hi
      ensures InsertInv(p) && RedPair(p, x, g) && p == x.right
      ensures (x == g.right) == old(p == g.right)
      ensures old(p == g.right) ==> g.left == old(g.left)
    {
      assert Linked(x) && Linked(p) && Linked(g);
      RightRotate(p);
      RightRotatedShape(p, x);
      forall n | n in Nodes ensures BhOk(n) && RedOk(n, p) {
        assert old(Linked(n) && BhOk(n) && RedOk(n, x));
        assert old(Linked(x) && BhOk(x) && RedOk(x, x));
        assert old(Linked(p) && BhOk(p) && RedOk(p, x));
      }
    }

    twostate lemma InsertRotatedOuterLeft(x: RbNode, new p: RbNode, new g: RbNode)
      requires {p, g} <= old(Nodes)
      requires old(InsertInv(x) && RedPair(x, p, g) && x == p.right && p == g.right && g.left != null && !g.left.red)
      requires LeftRotated(g, p) && Shape() && unchanged(sentinel)
      requires forall n {:trigger n.red} :: n in Nodes ==> n.red == (if n == g then true else n != p && old(n.red))
      requires forall n {:trigger n.bh} :: n in Nodes ==>
                 n.bh == (if n == p then old(g.bh) else if n == g then old(p.bh) else old(n.bh))
      ensures InsertInv(x)
    {
      assert old(Linked(x) && Linked(p) && Linked(g));
      assert old(BhOk(x) && BhOk(p) && BhOk(g) && RedOk(p, x) && RedOk(g, x));
      forall n | n in Nodes ensures BhOk(n) && RedOk(n, x) {
        assert old(Linked(n) && BhOk(n) && RedOk(n, x));
      }
    }

    // x is an outer grandchild: recolour and rotate the grandparent, which ends the repair.
    method InsertRotateOuterLeft(x: RbNode, p: RbNode, g: RbNode)
      requires InsertInv(x) && RedPair(x, p, g) && x == p.right && p == g.right && g.left != null && !g.left.red
      modifies `root, Nodes`right, Nodes`left, Nodes`parent, Nodes`red, Nodes`lo, Nodes`hi, Nodes`bh
      ensures InsertInv(x) && x.parent == p && !p.red
    {
      assert Linked(x) && Linked(p) && Linked(g);
      p.red := false;
      g.red := true;
      label L:
      LeftRotate(g);
      LeftRotatedShape@L(g, p);
      SetBh(map[p := g.bh, g := p.bh]);
      InsertRotatedOuterLeft(x, p, g);
    }

    // One round of the insertion repair, below a right child of the grandparent.
    method InsertFixRight(x: RbNode) returns (node: RbNode)
      requires InsertInv(x) && x != root && x.parent != null && x.parent.red
      requires x.parent.parent != null && x.parent == x.parent.parent.right
      modifies `root, Nodes`right, Nodes`left, Nodes`parent, Nodes`red, Nodes`lo, Nodes`hi, Nodes`bh
      ensures InsertInv(node) && Gap(node) < old(Gap(x))
    {
      RedParent(x);
      assert Linked(x) && Linked(x.parent.parent);
      node := x;
      var temp := node.parent.parent.left;
      if temp.red {
        InsertRecolor(node, node.parent, node.parent.parent, temp);
        node := node.parent.parent;
      } else {
        if node == node.parent.left {
          node := node.parent;
          InsertRotateInnerRight(x, node, node.parent);
        }
        InsertRotateOuterLeft(node, node.parent, node.parent.parent);
      }
    }

    // A walk downwards, one link a step.
    ghost predicate Walk(path: seq<RbNode>)
      reads `Nodes, Nodes`left, Nodes`right
    {
      && path != [] && (forall i :: 0 <= i < |path| ==> path[i] in Nodes)
      && (forall i :: 0 <= i < |path| - 1 ==> path[i + 1] == path[i].left || path[i + 1] == path[i].right)
    }

    // Once a key sorts before one live key it sorts before all later ones.
    ghost predicate Monotone(key: Word)
      reads `order, set i | 0 <= i < |order| :: order[i]
    {
      forall i, j :: 0 <= i < j < |order| && Before(key, order[i].key) ==> Before(key, order[j].key)
    }

    // k separates the live keys not later than key from the later ones.
    ghost predicate Cut(key: Word, k: int)
      reads `order, set i | 0 <= i < |order| :: order[i]
    {
      && (forall i :: 0 <= i < |order| && i < k ==> !Before(key, order[i].key))
      && (forall i :: 0 <= i < |order| && k <= i ==> Before(key, order[i].key))
    }

    // The descent of the timer insertion: to the right past equal keys, by the sign of the wrapped difference.
    method FindSlot(node: RbNode) returns (temp: RbNode, goLeft: bool, ghost path: seq<RbNode>)
      requires Shape() && root != sentinel
      ensures Walk(path) && path[0] == root && path[|path| - 1] == temp
      ensures temp in Nodes && (if goLeft then temp.left else temp.right) == sentinel
      ensures Monotone(node.key) ==> Cut(node.key, if goLeft then temp.at else temp.at + 1)
    {
      temp, path := root, [root];
      while true
        invariant temp in Nodes
        invariant Walk(path) && path[0] == root && path[|path| - 1] == temp
        invariant Monotone(node.key) ==>
          && (forall i :: 0 <= i < |order| && i < temp.lo ==> !Before(node.key, order[i].key))
          && (forall i :: 0 <= i < |order| && temp.hi <= i ==> Before(node.key, order[i].key))
        decreases temp.hi - temp.lo
      {
        assert Linked(temp);
        assert order[temp.at] == temp;
        goLeft := Before(node.key, temp.key);
        var next := if goLeft then temp.left else temp.right;
        if next == sentinel {
          break;
        }
        assert Linked(next);
        temp := next;
        path := path + [temp];
      }
    }

    // node hangs below temp as a red leaf of rank k; every other rank and interval makes room for it.
    twostate predicate Attached(node: RbNode, temp: RbNode, goLeft: bool)
      requires temp in old(Nodes)
      reads this, Nodes
    {
      var k := if goLeft then old(temp.at) else old(temp.at) + 1;
      && 0 <= k <= |old(order)|
      && Nodes == old(Nodes) + {node} && order == old(order[..k]) + [node] + old(order[k..]) && root == old(root)
      && node.left == sentinel && node.right == sentinel && node.parent == temp && node.red
      && node.at == k && node.lo == k && node.hi == k + 1 && node.bh == 0
      && (forall n {:trigger n.left} :: n in old(Nodes) ==>
            n.left == (if n == temp && goLeft then node else old(n.left)))
      && (forall n {:trigger n.right} :: n in old(Nodes) ==>
            n.right == (if n == temp && !goLeft then node else old(n.right)))
      && (forall n {:trigger n.parent} :: n in old(Nodes) ==> n.parent == old(n.parent))
      && (forall n {:trigger n.red} :: n in old(Nodes) ==> n.red == old(n.red))
      && (forall n {:trigger n.bh} :: n in old(Nodes) ==> n.bh == old(n.bh))
      && (forall n {:trigger n.at} :: n in old(Nodes) ==> n.at == old(n.at) + (if old(n.at) >= k then 1 else 0))
      && (forall n {:trigger n.lo} :: n in old(Nodes) ==>
            n.lo == old(n.lo) + (if old(n.lo) > k || (old(n.lo) == k && !goLeft) then 1 else 0))
      && (forall n {:trigger n.hi} :: n in old(Nodes) ==>
            n.hi == old(n.hi) + (if old(n.hi) > k || (old(n.hi) == k && !goLeft) then 1 else 0))
    }

    twostate lemma AttachedLinked(node: RbNode, new temp: RbNode, new goLeft: bool, new n: RbNode)
      requires old(Shape()) && temp in old(Nodes) && node !in old(Nodes) && node != sentinel
      requires old(if goLeft then temp.left else temp.right) == sentinel
      requires Attached(node, temp, goLeft) && n in Nodes
      ensures Linked(n)
    {
      assert old(Linked(temp));
      if n != node {
        assert old(Linked(n));
        if old(n.left) != sentinel { assert old(Linked(n.left)); }
        if old(n.right) != sentinel { assert old(Linked(n.right)); }
        if n != old(root) { assert old(Linked(n.parent)); }
      }
    }

    twostate lemma AttachedShape(node: RbNode, new temp: RbNode, new goLeft: bool)
      requires old(Shape()) && temp in old(Nodes) && node !in old(Nodes) && node != sentinel
      requires old(if goLeft then temp.left else temp.right) == sentinel
      requires Attached(node, temp, goLeft)
      ensures Shape()
    {
      assert Ranked();
      forall n | n in Nodes ensures Linked(n) {
        AttachedLinked(node, temp, goLeft, n);
      }
    }

    twostate lemma AttachedInv(node: RbNode, new temp: RbNode, new goLeft: bool)
      requires old(Valid()) && temp in old(Nodes) && node !in old(Nodes) && node != sentinel
      requires old(if goLeft then temp.left else temp.right) == sentinel
      requires Attached(node, temp, goLeft) && unchanged(sentinel)
      ensures InsertInv(node)
    {
      AttachedShape(node, temp, goLeft);
      forall n | n in Nodes ensures BhOk(n) && RedOk(n, node) {
        assert Linked(n);
        if n != node {
          assert old(Linked(n) && BhOk(n) && RedOk(n, null));
        }
      }
    }

    // ngx_rbtree_insert_timer_value: node becomes a red leaf after every node whose key is not later.
    method InsertTimerValue(node: RbNode) returns (ghost k: nat)
      requires Valid() && root != sentinel && node !in Nodes && node != sentinel
      modifies `order, `Nodes, node`left, node`right, node`parent, node`red, node`at, node`lo, node`hi, node`bh,
               Nodes`left, Nodes`right, Nodes`at, Nodes`lo, Nodes`hi
      ensures InsertInv(node) && Nodes == old(Nodes) + {node}
      ensures k <= |old(order)| && order == old(order[..k]) + [node] + old(order[k..])
      ensures old(Monotone(node.key)) ==> old(Cut(node.key, k))
    {
      var temp, goLeft, path := FindSlot(node);
      k := if goLeft then temp.at else temp.at + 1;
      Hang(node, temp, goLeft);
      MakeRoom(node, k, goLeft);
      AttachedInv(node, temp, goLeft);
    }

    // The writes of the insertion itself.
    method Hang(node: RbNode, temp: RbNode, goLeft: bool)
      requires temp in Nodes && node !in Nodes
      modifies node`left, node`right, node`parent, node`red, temp`left, temp`right
      ensures node.left == sentinel && node.right == sentinel && node.parent == temp && node.red
      ensures temp.left == if goLeft then node else old(temp.left)
      ensures temp.right == if goLeft then old(temp.right) else node
    {
      if goLeft {
        temp.left := node;
      } else {
        temp.right := node;
      }
      node.parent := temp;
      node.left := sentinel;
      node.right := sentinel;
      node.red := true;
    }

    // Ranks and intervals shift by one past the new node.
    ghost method MakeRoom(node: RbNode, k: nat, goLeft: bool)
      requires node !in Nodes && k <= |order|
      modifies `order, `Nodes, node`at, node`lo, node`hi, node`bh, Nodes`at, Nodes`lo, Nodes`hi
      ensures Nodes == old(Nodes) + {node} && order == old(order[..k]) + [node] + old(order[k..])
      ensures node.at == k && node.lo == k && node.hi == k + 1 && node.bh == 0
      ensures forall n {:trigger n.at} :: n in old(Nodes) ==> n.at == old(n.at) + (if old(n.at) >= k then 1 else 0)
      ensures forall n {:trigger n.lo} :: n in old(Nodes) ==>
                n.lo == old(n.lo) + (if old(n.lo) > k || (old(n.lo) == k && !goLeft) then 1 else 0)
      ensures forall n {:trigger n.hi} :: n in old(Nodes) ==>
                n.hi == old(n.hi) + (if old(n.hi) > k || (old(n.hi) == k && !goLeft) then 1 else 0)
    {
      forall n | n in Nodes { n.at := n.at + (if n.at >= k then 1 else 0); }
      forall n | n in Nodes { n.lo := n.lo + (if n.lo > k || (n.lo == k && !goLeft) then 1 else 0); }
      forall n | n in Nodes { n.hi := n.hi + (if n.hi > k || (n.hi == k && !goLeft) then 1 else 0); }
      node.at, node.lo, node.hi, node.bh := k, k, k + 1, 0;
      order := order[..k] + [node] + order[k..];
      Nodes := Nodes + {node};
    }

    // Into an empty tree.
    method InsertFirst(node: RbNode)
      requires Valid() && root == sentinel && node !in Nodes && node != sentinel
      modifies this, node`left, node`right, node`parent, node`red, node`at, node`lo, node`hi, node`bh
      ensures Valid() && old(Nodes) == {} && old(order) == [] && Nodes == {node} && order == [node]
    {
      assert forall n :: n in Nodes ==> n.at < 0;
      assert Nodes == {};
      node.parent := null;
      node.left := sentinel;
      node.right := sentinel;
      node.red := false;
      root := node;
      node.at, node.lo, node.hi, node.bh := 0, 0, 1, 1;
      order, Nodes := [node], {node};
    }

    // ngx_rbtree_insert: node enters order behind every node not later than it, the others keeping their order.
    method Insert(node: RbNode) returns (ghost k: nat)
      requires Valid() && node !in Nodes && node != sentinel
      modifies this, node`left, node`right, node`parent, node`red, node`at, node`lo, node`hi, node`bh,
               Nodes`left, Nodes`right, Nodes`parent, Nodes`red, Nodes`at, Nodes`lo, Nodes`hi, Nodes`bh
      ensures Valid() && Nodes == old(Nodes) + {node}
      ensures k <= |old(order)| && order == old(order[..k]) + [node] + old(order[k..])
      ensures old(Monotone(node.key)) ==> old(Cut(node.key, k))
    {
      if root == sentinel {
        InsertFirst(node);
        k := 0;
        return;
      }
      k := InsertTimerValue(node);
      var x := node;
      RedParent1(x);
      while x != root && x.parent.red
        invariant InsertInv(x)
        invariant x != root ==> x.parent in Nodes
        invariant Nodes == old(Nodes) + {node} && order == old(order[..k]) + [node] + old(order[k..])
        decreases Gap(x)
      {
        RedParent(x);
        if x.parent == x.parent.parent.left {
          x := InsertFixLeft(x);
        } else {
          x := InsertFixRight(x);
        }
        RedParent1(x);
      }
      PaintRoot(x);
    }

    lemma RedParent1(x: RbNode)
      requires InsertInv(x)
      ensures x != root ==> x.parent in Nodes
    {
      assert Linked(x);
    }

    method Blacken(top: RbNode)
      requires Shape() && top in Nodes
      modifies top`red, Nodes`bh
      ensures Shape() && SameLinks()
      ensures forall n {:trigger n.red} :: n in Nodes ==> n.red == (n != top && old(n.red))
      ensures forall n {:trigger n.bh} :: n in Nodes ==>
                n.bh == (if n == top && old(top.red) then old(n.bh) + 1 else old(n.bh))
    {
      ghost var wasRed := top.red;
      top.red := false;
      SetBh(map[top := if wasRed then top.bh + 1 else top.bh]);
    }

    // Blackening the root ends the insertion repair.
    method PaintRoot(x: RbNode)
      requires InsertInv(x) && (x == root || (x.parent != null && !x.parent.red))
      modifies Nodes`red, Nodes`bh
      ensures Valid()
    {
      assert Linked(x);
      Blacken(root);
      forall n | n in Nodes ensures BhOk(n) && RedOk(n, null) {
        assert old(Linked(n) && BhOk(n) && RedOk(n, x));
        PaintedAt(x, root, n);
      }
    }

    // Blackening top, the root or a red node whose parent then comes right, leaves n in order.
    twostate lemma PaintedAt(x: RbNode, new top: RbNode, new n: RbNode)
      requires Shape() && SameLinks() && unchanged(sentinel) && top in old(Nodes) && n in old(Nodes)
      requires forall m {:trigger m.red} :: m in Nodes ==> m.red == (m != top && old(m.red))
      requires forall m {:trigger m.bh} :: m in Nodes ==>
                 m.bh == (if m == top && old(top.red) then old(m.bh) + 1 else old(m.bh))
      requires top == root && x in old(Nodes) && old(Linked(n) && BhOk(n) && RedOk(n, x))
      requires x == root || (old(x.parent) in Nodes && !old(x.parent.red))
      ensures BhOk(n) && RedOk(n, null)
    {
      if n.left == root || n.right == root { OnlyParent(n, root); }
      if n.left == x || n.right == x { OnlyParent(n, x); }
    }

    // ngx_rbtree_min: the leftmost node below start.
    method Min(start: RbNode) returns (node: RbNode, ghost path: seq<RbNode>)
      requires Shape() && start in Nodes
      ensures node in Nodes && node.left == sentinel && node.at == node.lo == start.lo
      ensures Walk(path) && path[0] == start && path[|path| - 1] == node
    {
      node, path := start, [start];
      assert Linked(node);
      while node.left != sentinel
        invariant node in Nodes && Linked(node) && node.lo == start.lo
        invariant Walk(path) && path[0] == start && path[|path| - 1] == node
        decreases node.hi - node.lo
      {
        assert Linked(node.left);
        node := node.left;
        path := path + [node];
      }
    }

    // The place below p holds x, one black node short of its sibling.
    ghost predicate Short(p: RbNode, x: RbNode)
      requires p in Nodes && Linked(p)
      reads this, sentinel, Nodes
    {
      || (p.left == x && 0 <= p.left.bh && p.left.bh + 1 == p.right.bh
          && p.bh == p.right.bh + (if p.red then 0 else 1))
      || (p.right == x && 0 <= p.right.bh && p.right.bh + 1 == p.left.bh
          && p.bh == p.left.bh + (if p.red then 0 else 1))
    }

    // The state between two rounds of the deletion repair: only the place of x is short, and only x may clash in
    // colour.
    ghost predicate DeleteInv(x: RbNode)
      reads this, sentinel, Nodes
    {
      && Shape() && !sentinel.red && sentinel.bh == 0 && root != sentinel
      && (x == sentinel || x in Nodes)
      && (root.red ==> root == x)
      && (x != root ==> x.parent in Nodes && Linked(x.parent) && Short(x.parent, x))
      && (forall n {:trigger BhOk(n)} :: n in Nodes ==> BhOk(n) || (x != root && n == x.parent))
      && (forall n {:trigger RedOk(n, x)} :: n in Nodes ==> RedOk(n, x) || n == x)
    }

    // What each round of the deletion repair brings down.
    ghost function Climb(x: RbNode): (g: nat)
      requires DeleteInv(x)
      reads this, sentinel, Nodes
    {
      if x == root || x.red then 0 else 1 + |order| - (x.parent.hi - x.parent.lo)
    }

    // A leaf-side node subst gives way to its only child temp; ranks above it close up.
    twostate predicate Spliced(subst: RbNode, temp: RbNode)
      requires subst in old(Nodes)
      reads this, Nodes, temp
    {
      var s := old(subst.at);
      && 0 <= s < |old(order)|
      && Nodes == old(Nodes) - {subst} && order == old(order[..s]) + old(order[s + 1..])
      && root == (if old(root) == subst then temp else old(root))
      && (old(root) != subst ==> temp.parent == old(subst.parent))
      && temp.red == old(temp.red) && temp.bh == old(temp.bh)
      && (forall n {:trigger n.left} :: n in Nodes ==>
            n.left == (if old(n.left) == subst then temp else old(n.left)))
      && (forall n {:trigger n.right} :: n in Nodes ==>
            n.right == (if old(n.right) == subst then temp else old(n.right)))
      && (forall n {:trigger n.parent} :: n in Nodes && n != temp ==> n.parent == old(n.parent))
      && (forall n {:trigger n.red} :: n in Nodes ==> n.red == old(n.red))
      && (forall n {:trigger n.bh} :: n in Nodes ==> n.bh == old(n.bh))
      && Closed(s)
    }

    // Ranks and intervals past s have moved down by one.
    twostate predicate Closed(s: int)
      requires Nodes <= old(Nodes)
      reads this, Nodes
    {
      && (forall n {:trigger n.at} :: n in Nodes ==> n.at == old(n.at) - (if old(n.at) > s then 1 else 0))
      && (forall n {:trigger n.lo} :: n in Nodes ==> n.lo == old(n.lo) - (if old(n.lo) > s then 1 else 0))
      && (forall n {:trigger n.hi} :: n in Nodes ==> n.hi == old(n.hi) - (if old(n.hi) > s then 1 else 0))
    }

    twostate lemma SplicedRanked(new subst: RbNode, temp: RbNode)
      requires subst in old(Nodes) && old(Ranked()) && Spliced(subst, temp)
      ensures Ranked()
    {
    }

    twostate lemma SplicedLinked(new subst: RbNode, temp: RbNode, new n: RbNode)
      requires old(Shape()) && subst in old(Nodes) && n in Nodes && n != subst
      requires old((subst.left == sentinel && subst.right == temp) || (subst.right == sentinel && subst.left == temp))
      requires Spliced(subst, temp)
      ensures Linked(n)
    {
      assert old(Linked(subst) && Linked(n));
      if temp != sentinel { assert old(Linked(temp)); }
      assert old(n.at != subst.at);
      if old(n.left) != sentinel { assert old(Linked(n.left)); }
      if old(n.right) != sentinel { assert old(Linked(n.right)); }
      if n != old(root) { assert old(Linked(n.parent)); }
    }

    twostate lemma SplicedShape(new subst: RbNode, temp: RbNode)
      requires old(Shape()) && subst in old(Nodes)
      requires old((subst.left == sentinel && subst.right == temp) || (subst.right == sentinel && subst.left == temp))
      requires Spliced(subst, temp)
      ensures Shape()
    {
      SplicedRanked(subst, temp);
      assert old(Linked(subst));
      if temp != sentinel { assert old(Linked(temp)); }
      forall n | n in Nodes ensures Linked(n) {
        SplicedLinked(subst, temp, n);
      }
    }

    lemma Wider(p: RbNode)
      requires Shape() && p in Nodes && Linked(p) && p != root
      ensures p.parent in Nodes && Linked(p.parent)
      ensures p.hi - p.lo < p.parent.hi - p.parent.lo <= |order|
    {
      assert Linked(p.parent);
    }

    twostate lemma SplicedRed(new subst: RbNode, temp: RbNode)
      requires old(Valid()) && subst in old(Nodes) && old(subst.red)
      requires old((subst.left == sentinel && subst.right == temp) || (subst.right == sentinel && subst.left == temp))
      requires Spliced(subst, temp) && unchanged(sentinel`red, sentinel`bh)
      ensures Valid()
    {
      SplicedShape(subst, temp);
      assert old(Linked(subst) && BhOk(subst) && RedOk(subst, null));
      forall n | n in Nodes ensures BhOk(n) && RedOk(n, null) {
        assert old(Linked(n) && BhOk(n) && RedOk(n, null));
      }
    }

    twostate lemma SplicedBlackAt(new subst: RbNode, temp: RbNode, new n: RbNode)
      requires old(Valid()) && subst in old(Nodes) && !old(subst.red)
      requires old((subst.left == sentinel && subst.right == temp) || (subst.right == sentinel && subst.left == temp))
      requires Spliced(subst, temp) && unchanged(sentinel`red, sentinel`bh) && Shape() && n in Nodes
      ensures Linked(n) && (BhOk(n) || (temp != root && n == temp.parent)) && (RedOk(n, temp) || n == temp)
      ensures temp != root && n == temp.parent ==> Short(n, temp)
    {
      assert old(Linked(subst) && BhOk(subst) && Linked(n) && BhOk(n) && RedOk(n, null));
      assert Linked(n);
    }

    twostate lemma SplicedBlack(new subst: RbNode, temp: RbNode)
      requires old(Valid()) && subst in old(Nodes) && !old(subst.red)
      requires old((subst.left == sentinel && subst.right == temp) || (subst.right == sentinel && subst.left == temp))
      requires Spliced(subst, temp) && unchanged(sentinel`red, sentinel`bh) && root != sentinel
      ensures DeleteInv(temp)
    {
      SplicedShape(subst, temp);
      assert old(Linked(subst));
      if subst != old(root) { assert old(Linked(subst.parent)); assert Linked(temp.parent); }
      forall n | n in Nodes
        ensures Linked(n) && (BhOk(n) || (temp != root && n == temp.parent)) && (RedOk(n, temp) || n == temp)
        ensures temp != root && n == temp.parent ==> Short(n, temp)
      {
        SplicedBlackAt(subst, temp, n);
      }
    }

    // Blackening temp, the root or a red node, ends the deletion repair.
    method PaintTop(temp: RbNode)
      requires DeleteInv(temp) && (temp == root || temp.red)
      modifies temp`red, Nodes`bh
      ensures Valid()
    {
      Blacken(temp);
      forall n | n in Nodes ensures BhOk(n) && RedOk(n, null) {
        PaintedTopAt(temp, n);
      }
    }

    twostate lemma PaintedTopAt(temp: RbNode, new n: RbNode)
      requires old(DeleteInv(temp) && (temp == root || temp.red)) && Shape() && SameLinks()
      requires unchanged(sentinel) && temp in old(Nodes) && n in old(Nodes)
      requires forall m {:trigger m.red} :: m in Nodes ==> m.red == (m != temp && old(m.red))
      requires forall m {:trigger m.bh} :: m in Nodes ==>
                 m.bh == (if m == temp && old(temp.red) then old(m.bh) + 1 else old(m.bh))
      ensures BhOk(n) && RedOk(n, null)
    {
      assert old(Linked(n) && (BhOk(n) || (temp != root && n == temp.parent)) && (RedOk(n, temp) || n == temp));
      if n.left == temp || n.right == temp { OnlyParent(n, temp); }
    }

    // Reddening the sibling w moves the shortage from x up to p.
    twostate predicate SiblingRecolored(x: RbNode, p: RbNode, w: RbNode)
      reads this, Nodes, sentinel
    {
      && old(DeleteInv(x) && x != root && p == x.parent && !x.red)
      && w in old(Nodes) && old(Linked(w) && BhOk(w) && !w.red && !w.left.red && !w.right.red)
      && SameLinks() && Shape() && unchanged(sentinel)
      && (forall n {:trigger n.red} :: n in Nodes ==> n.red == (n == w || old(n.red)))
      && (forall n {:trigger n.bh} :: n in Nodes ==> n.bh == (if n == w || n == p then old(n.bh) - 1 else old(n.bh)))
    }

    // A red sibling: rotate it up, so that the new sibling is black.
    method SiblingRedLeft(x: RbNode, p: RbNode, w: RbNode)
      requires DeleteInv(x) && x != root && !x.red && p == x.parent && x == p.left && w == p.right && w.red
      modifies `root, Nodes`left, Nodes`right, Nodes`parent, Nodes`red, Nodes`lo, Nodes`hi, Nodes`bh
      ensures DeleteInv(x) && x != root && !x.red && p == x.parent && x == p.left && p.red && !p.right.red
    {
      assert Linked(p) && Linked(w);
      w.red := false;
      p.red := true;
      label L:
      LeftRotate(p);
      LeftRotatedShape@L(p, w);
      SetBh(map[w := p.bh, p := p.bh - 1]);
      SiblingRedRotatedLeft(x, p, w);
    }

    twostate lemma SiblingRedRotatedLeft(x: RbNode, new p: RbNode, new w: RbNode)
      requires old(DeleteInv(x) && x != root && !x.red && p == x.parent && x == p.left && w == p.right && w.red)
      requires LeftRotated(p, w) && Shape() && unchanged(sentinel)
      requires forall n {:trigger n.red} :: n in Nodes ==> n.red == (if n == p then true else n != w && old(n.red))
      requires forall n {:trigger n.bh} :: n in Nodes ==>
                 n.bh == (if n == w then old(p.bh) else if n == p then old(p.bh) - 1 else old(n.bh))
      ensures DeleteInv(x) && x != root && p == x.parent && x == p.left && p.red && !p.right.red
    {
      assert old(Linked(p) && Linked(w) && BhOk(w) && RedOk(p, x) && RedOk(w, x));
      assert Linked(p);
      assert x == sentinel || old(Linked(x));
      forall n | n in Nodes ensures Linked(n) && (BhOk(n) || n == x.parent) && (RedOk(n, x) || n == x) {
        assert old(Linked(n) && (BhOk(n) || n == x.parent) && (RedOk(n, x) || n == x));
      }
    }

    // A black sibling without red children: redden it, the shortage moving up.
    method SiblingRecolorLeft(x: RbNode, p: RbNode, w: RbNode)
      requires DeleteInv(x) && x != root && !x.red && p == x.parent && x == p.left && w == p.right
      requires w in Nodes && Linked(w) && !w.red && !w.left.red && !w.right.red
      modifies Nodes`red, Nodes`bh
      ensures DeleteInv(p) && Climb(p) < old(Climb(x)) && (old(p.red) ==> Climb(p) == 0)
    {
      assert Linked(p);
      w.red := true;
      SetBh(map[w := w.bh - 1, p := p.bh - 1]);
      forall n | n in Nodes
        ensures Linked(n) && (BhOk(n) || (p != root && n == p.parent)) && (RedOk(n, p) || n == p)
        ensures n == p.parent && p != root ==> Short(n, p)
      {
        SiblingRecoloredLeft(x, p, w, n);
      }
      if p != root { Wider(p); }
    }

    twostate lemma SiblingRecoloredLeft(x: RbNode, new p: RbNode, new w: RbNode, new n: RbNode)
      requires old(p in Nodes && x == p.left && w == p.right) && SiblingRecolored(x, p, w) && n in Nodes
      ensures Linked(n) && (BhOk(n) || (p != root && n == p.parent)) && (RedOk(n, p) || n == p)
      ensures n == p.parent && p != root ==> Short(n, p)
    {
      assert old(Linked(p) && RedOk(p, x) && RedOk(w, x));
      assert old(Linked(n) && (BhOk(n) || n == x.parent) && (RedOk(n, x) || n == x));
      assert Linked(p) && Linked(n);
    }

    // Only the sibling's inner child is red: rotate it outwards.
    method SiblingInnerLeft(x: RbNode, p: RbNode, w: RbNode)
      requires DeleteInv(x) && x != root && !x.red && p == x.parent && x == p.left && w == p.right
      requires w in Nodes && Linked(w) && !w.red && w.left.red && !w.right.red
      modifies `root, Nodes`left, Nodes`right, Nodes`parent, Nodes`red, Nodes`lo, Nodes`hi, Nodes`bh
      ensures DeleteInv(x) && x != root && !x.red && p == x.parent && x == p.left
      ensures p.right in Nodes && Linked(p.right) && !p.right.red && p.right.right.red
    {
      assert Linked(p) && Linked(w.left);
      ghost var v := w.left;
      w.left.red := false;
      w.red := true;
      label L:
      RightRotate(w);
      RightRotatedShape@L(w, v);
      SetBh(map[v := w.bh, w := w.bh - 1]);
      SiblingInnerRotatedLeft(x, p, w, v);
    }

    twostate lemma SiblingInnerRotatedLeft(x: RbNode, new p: RbNode, new w: RbNode, new v: RbNode)
      requires old(DeleteInv(x) && x != root && !x.red && p == x.parent && x == p.left && w == p.right)
      requires old(w in Nodes && Linked(w) && !w.red && w.left == v && v.red && !w.right.red)
      requires v in old(Nodes) && RightRotated(w, v) && Shape() && unchanged(sentinel)
      requires forall n {:trigger n.red} :: n in Nodes ==> n.red == (if n == w then true else n != v && old(n.red))
      requires forall n {:trigger n.bh} :: n in Nodes ==>
                 n.bh == (if n == v then old(w.bh) else if n == w then old(w.bh) - 1 else old(n.bh))
      ensures DeleteInv(x) && x != root && !x.red && p == x.parent && x == p.left
      ensures p.right == v && v.right == w
    {
      assert old(Linked(p) && Linked(v) && BhOk(w) && BhOk(v) && RedOk(p, x) && RedOk(w, x) && RedOk(v, x));
      assert Linked(p);
      assert x == sentinel || old(Linked(x));
      forall n | n in Nodes ensures Linked(n) && (BhOk(n) || n == x.parent) && (RedOk(n, x) || n == x) {
        assert old(Linked(n) && (BhOk(n) || n == x.parent) && (RedOk(n, x) || n == x));
      }
    }

    method PaintOuterLeft(p: RbNode, w: RbNode)
      requires Shape() && {p, w} <= Nodes && p != w && w.right in Nodes && w.right != p && w.right != w
      modifies Nodes`red
      ensures Shape()
      ensures forall n {:trigger n.red} :: n in Nodes ==>
                n.red == (if n == w then old(p.red) else n != p && n != w.right && old(n.red))
    {
      w.red := p.red;
      p.red := false;
      w.right.red := false;
    }

    // The sibling's outer child is red: rotate the sibling up, which ends the repair.
    method SiblingOuterLeft(x: RbNode, p: RbNode, w: RbNode)
      requires DeleteInv(x) && x != root && !x.red && p == x.parent && x == p.left && w == p.right
      requires w in Nodes && Linked(w) && !w.red && w.right.red
      modifies `root, Nodes`left, Nodes`right, Nodes`parent, Nodes`red, Nodes`lo, Nodes`hi, Nodes`bh
      ensures DeleteInv(root)
    {
      assert Linked(p) && Linked(w.right);
      ghost var v := w.right;
      PaintOuterLeft(p, w);
      label L:
      LeftRotate(p);
      LeftRotatedShape@L(p, w);
      SetBh(map[w := p.bh, p := x.bh + 1, v := x.bh + 1]);
      SiblingOuterRotatedLeft(x, p, w, v);
    }

    twostate lemma SiblingOuterRotatedAtLeft(x: RbNode, new p: RbNode, new w: RbNode, new v: RbNode, new n: RbNode)
      requires old(DeleteInv(x) && x != root && !x.red && p == x.parent && x == p.left && w == p.right)
      requires old(w in Nodes && Linked(w) && !w.red && w.right == v && v.red)
      requires v in old(Nodes) && LeftRotated(p, w) && Shape() && unchanged(sentinel)
      requires forall n {:trigger n.red} :: n in Nodes ==>
                 n.red == (if n == w then old(p.red) else n != p && n != v && old(n.red))
      requires forall n {:trigger n.bh} :: n in Nodes ==>
                 n.bh == (if n == w then old(p.bh) else if n == p || n == v then old(x.bh) + 1 else old(n.bh))
      requires n in Nodes
      ensures Linked(n) && BhOk(n) && (RedOk(n, root) || n == root)
    {
      assert old(Linked(p) && Linked(v) && BhOk(w) && BhOk(v) && RedOk(p, x) && RedOk(w, x) && RedOk(v, x));
      assert old(Linked(n) && (BhOk(n) || n == x.parent) && (RedOk(n, x) || n == x));
    }

    twostate lemma SiblingOuterRotatedLeft(x: RbNode, new p: RbNode, new w: RbNode, new v: RbNode)
      requires old(DeleteInv(x) && x != root && !x.red && p == x.parent && x == p.left && w == p.right)
      requires old(w in Nodes && Linked(w) && !w.red && w.right == v && v.red)
      requires v in old(Nodes) && LeftRotated(p, w) && Shape() && unchanged(sentinel)
      requires forall n {:trigger n.red} :: n in Nodes ==>
                 n.red == (if n == w then old(p.red) else n != p && n != v && old(n.red))
      requires forall n {:trigger n.bh} :: n in Nodes ==>
                 n.bh == (if n == w then old(p.bh) else if n == p || n == v then old(x.bh) + 1 else old(n.bh))
      ensures DeleteInv(root)
    {
      forall n | n in Nodes ensures Linked(n) && BhOk(n) && (RedOk(n, root) || n == root) {
        SiblingOuterRotatedAtLeft(x, p, w, v, n);
      }
    }

    // The round once the sibling is black.
    method DeleteFixBlackLeft(x: RbNode, sibling: RbNode) returns (temp: RbNode)
      requires DeleteInv(x) && x != root && !x.red && x == x.parent.left && sibling == x.parent.right && !sibling.red
      modifies `root, Nodes`left, Nodes`right, Nodes`parent, Nodes`red, Nodes`lo, Nodes`hi, Nodes`bh
      ensures DeleteInv(temp) && Climb(temp) < old(Climb(x)) && (old(x.parent.red) ==> Climb(temp) == 0)
    {
      assert Linked(x.parent) && 1 <= Climb(x);
      temp := x;
      var w := sibling;
      assert Linked(w);
      if !w.left.red && !w.right.red {
        SiblingRecolorLeft(x, x.parent, w);
        temp := temp.parent;
      } else {
        if !w.right.red {
          SiblingInnerLeft(x, x.parent, w);
          w := temp.parent.right;
        }
        SiblingOuterLeft(x, x.parent, w);
        temp := root;
      }
    }

    // One round of the deletion repair at a left child.
    method DeleteFixLeft(x: RbNode) returns (temp: RbNode)
      requires DeleteInv(x) && x != root && !x.red && x == x.parent.left
      modifies `root, Nodes`left, Nodes`right, Nodes`parent, Nodes`red, Nodes`lo, Nodes`hi, Nodes`bh
      ensures DeleteInv(temp) && Climb(temp) < old(Climb(x))
    {
      assert Linked(x.parent) && 1 <= Climb(x);
      var w := x.parent.right;
      if w.red {
        SiblingRedLeft(x, x.parent, w);
        w := x.parent.right;
      }
      temp := DeleteFixBlackLeft(x, w);
    }

    // A red sibling: rotate it up, so that the new sibling is black.
    method SiblingRedRight(x: RbNode, p: RbNode, w: RbNode)
      requires DeleteInv(x) && x != root && !x.red && p == x.parent && x == p.right && w == p.left && w.red
      modifies `root, Nodes`right, Nodes`left, Nodes`parent, Nodes`red, Nodes`lo, Nodes`hi, Nodes`bh
      ensures DeleteInv(x) && x != root && !x.red && p == x.parent && x == p.right && p.red && !p.left.red
    {
      assert Linked(p) && Linked(w);
      w.red := false;
      p.red := true;
      label L:
      RightRotate(p);
      RightRotatedShape@L(p, w);
      SetBh(map[w := p.bh, p := p.bh - 1]);
      SiblingRedRotatedRight(x, p, w);
    }

    twostate lemma SiblingRedRotatedRight(x: RbNode, new p: RbNode, new w: RbNode)
      requires old(DeleteInv(x) && x != root && !x.red && p == x.parent && x == p.right && w == p.left && w.red)
      requires RightRotated(p, w) && Shape() && unchanged(sentinel)
      requires forall n {:trigger n.red} :: n in Nodes ==> n.red == (if n == p then true else n != w && old(n.red))
      requires forall n {:trigger n.bh} :: n in Nodes ==>
                 n.bh == (if n == w then old(p.bh) else if n == p then old(p.bh) - 1 else old(n.bh))
      ensures DeleteInv(x) && x != root && p == x.parent && x == p.right && p.red && !p.left.red
    {
      assert old(Linked(p) && Linked(w) && BhOk(w) && RedOk(p, x) && RedOk(w, x));
      assert Linked(p);
      assert x == sentinel || old(Linked(x));
      forall n | n in Nodes ensures Linked(n) && (BhOk(n) || n == x.parent) && (RedOk(n, x) || n == x) {
        assert old(Linked(n) && (BhOk(n) || n == x.parent) && (RedOk(n, x) || n == x));
      }
    }

    // A black sibling without red children: redden it, the shortage moving up.
    method SiblingRecolorRight(x: RbNode, p: RbNode, w: RbNode)
      requires DeleteInv(x) && x != root && !x.red && p == x.parent && x == p.right && w == p.left
      requires w in Nodes && Linked(w) && !w.red && !w.right.red && !w.left.red
      modifies Nodes`red, Nodes`bh
      ensures DeleteInv(p) && Climb(p) < old(Climb(x)) && (old(p.red) ==> Climb(p) == 0)
    {
      assert Linked(p);
      w.red := true;
      SetBh(map[w := w.bh - 1, p := p.bh - 1]);
      forall n | n in Nodes
        ensures Linked(n) && (BhOk(n) || (p != root && n == p.parent)) && (RedOk(n, p) || n == p)
        ensures n == p.parent && p != root ==> Short(n, p)
      {
        SiblingRecoloredRight(x, p, w, n);
      }
      if p != root { Wider(p); }
    }

    twostate lemma SiblingRecoloredRight(x: RbNode, new p: RbNode, new w: RbNode, new n: RbNode)
      requires old(p in Nodes && x == p.right && w == p.left) && SiblingRecolored(x, p, w) && n in Nodes
      ensures Linked(n) && (BhOk(n) || (p != root && n == p.parent)) && (RedOk(n, p) || n == p)
      ensures n == p.parent && p != root ==> Short(n, p)
    {
      assert old(Linked(p) && RedOk(p, x) && RedOk(w, x));
      assert old(Linked(n) && (BhOk(n) || n == x.parent) && (RedOk(n, x) || n == x));
      assert Linked(p) && Linked(n);
    }

    // Only the sibling's inner child is red: rotate it outwards.
    method SiblingInnerRight(x: RbNode, p: RbNode, w: RbNode)
      requires DeleteInv(x) && x != root && !x.red && p == x.parent && x == p.right && w == p.left
      requires w in Nodes && Linked(w) && !w.red && w.right.red && !w.left.red
      modifies `root, Nodes`right, Nodes`left, Nodes`parent, Nodes`red, Nodes`lo, Nodes`hi, Nodes`bh
      ensures DeleteInv(x) && x != root && !x.red && p == x.parent && x == p.right
      ensures p.left in Nodes && Linked(p.left) && !p.left.red && p.left.left.red
    {
      assert Linked(p) && Linked(w.right);
      ghost var v := w.right;
      w.right.red := false;
      w.red := true;
      label L:
      LeftRotate(w);
      LeftRotatedShape@L(w, v);
      SetBh(map[v := w.bh, w := w.bh - 1]);
      SiblingInnerRotatedRight(x, p, w, v);
    }

    twostate lemma SiblingInnerRotatedRight(x: RbNode, new p: RbNode, new w: RbNode, new v: RbNode)
      requires old(DeleteInv(x) && x != root && !x.red && p == x.parent && x == p.right && w == p.left)
      requires old(w in Nodes && Linked(w) && !w.red && w.right == v && v.red && !w.left.red)
      requires v in old(Nodes) && LeftRotated(w, v) && Shape() && unchanged(sentinel)
      requires forall n {:trigger n.red} :: n in Nodes ==> n.red == (if n == w then true else n != v && old(n.red))
      requires forall n {:trigger n.bh} :: n in Nodes ==>
                 n.bh == (if n == v then old(w.bh) else if n == w then old(w.bh) - 1 else old(n.bh))
      ensures DeleteInv(x) && x != root && !x.red && p == x.parent && x == p.right
      ensures p.left == v && v.left == w
    {
      assert old(Linked(p) && Linked(v) && BhOk(w) && BhOk(v) && RedOk(p, x) && RedOk(w, x) && RedOk(v, x));
      assert Linked(p);
      assert x == sentinel || old(Linked(x));
      forall n | n in Nodes ensures Linked(n) && (BhOk(n) || n == x.parent) && (RedOk(n, x) || n == x) {
        assert old(Linked(n) && (BhOk(n) || n == x.parent) && (RedOk(n, x) || n == x));
      }
    }

    method PaintOuterRight(p: RbNode, w: RbNode)
      requires Shape() && {p, w} <= Nodes && p != w && w.left in Nodes && w.left != p && w.left != w
      modifies Nodes`red
      ensures Shape()
      ensures forall n {:trigger n.red} :: n in Nodes ==>
                n.red == (if n == w then old(p.red) else n != p && n != w.left && old(n.red))
    {
      w.red := p.red;
      p.red := false;
      w.left.red := false;
    }

    // The sibling's outer child is red: rotate the sibling up, which ends the repair.
    method SiblingOuterRight(x: RbNode, p: RbNode, w: RbNode)
      requires DeleteInv(x) && x != root && !x.red && p == x.parent && x == p.right && w == p.left
      requires w in Nodes && Linked(w) && !w.red && w.left.red
      modifies `root, Nodes`right, Nodes`left, Nodes`parent, Nodes`red, Nodes`lo, Nodes`hi, Nodes`bh
      ensures DeleteInv(root)
    {
      assert Linked(p) && Linked(w.left);
      ghost var v := w.left;
      PaintOuterRight(p, w);
      label L:
      RightRotate(p);
      RightRotatedShape@L(p, w);
      SetBh(map[w := p.bh, p := x.bh + 1, v := x.bh + 1]);
      SiblingOuterRotatedRight(x, p, w, v);
    }

    twostate lemma SiblingOuterRotatedAtRight(x: RbNode, new p: RbNode, new w: RbNode, new v: RbNode, new n: RbNode)
      requires old(DeleteInv(x) && x != root && !x.red && p == x.parent && x == p.right && w == p.left)
      requires old(w in Nodes && Linked(w) && !w.red && w.left == v && v.red)
      requires v in old(Nodes) && RightRotated(p, w) && Shape() && unchanged(sentinel)
      requires forall n {:trigger n.red} :: n in Nodes ==>
                 n.red == (if n == w then old(p.red) else n != p && n != v && old(n.red))
      requires forall n {:trigger n.bh} :: n in Nodes ==>
                 n.bh == (if n == w then old(p.bh) else if n == p || n == v then old(x.bh) + 1 else old(n.bh))
      requires n in Nodes
      ensures Linked(n) && BhOk(n) && (RedOk(n, root) || n == root)
    {
      assert old(Linked(p) && Linked(v) && BhOk(w) && BhOk(v) && RedOk(p, x) && RedOk(w, x) && RedOk(v, x));
      assert old(Linked(n) && (BhOk(n) || n == x.parent) && (RedOk(n, x) || n == x));
    }

    twostate lemma SiblingOuterRotatedRight(x: RbNode, new p: RbNode, new w: RbNode, new v: RbNode)
      requires old(DeleteInv(x) && x != root && !x.red && p == x.parent && x == p.right && w == p.left)
      requires old(w in Nodes && Linked(w) && !w.red && w.left == v && v.red)
      requires v in old(Nodes) && RightRotated(p, w) && Shape() && unchanged(sentinel)
      requires forall n {:trigger n.red} :: n in Nodes ==>
                 n.red == (if n == w then old(p.red) else n != p && n != v && old(n.red))
      requires forall n {:trigger n.bh} :: n in Nodes ==>
                 n.bh == (if n == w then old(p.bh) else if n == p || n == v then old(x.bh) + 1 else old(n.bh))
      ensures DeleteInv(root)
    {
      forall n | n in Nodes ensures Linked(n) && BhOk(n) && (RedOk(n, root) || n == root) {
        SiblingOuterRotatedAtRight(x, p, w, v, n);
      }
    }

    // The round once the sibling is black.
    method DeleteFixBlackRight(x: RbNode, sibling: RbNode) returns (temp: RbNode)
      requires DeleteInv(x) && x != root && !x.red && x == x.parent.right && sibling == x.parent.left && !sibling.red
      modifies `root, Nodes`right, Nodes`left, Nodes`parent, Nodes`red, Nodes`lo, Nodes`hi, Nodes`bh
      ensures DeleteInv(temp) && Climb(temp) < old(Climb(x)) && (old(x.parent.red) ==> Climb(temp) == 0)
    {
      assert Linked(x.parent) && 1 <= Climb(x);
      temp := x;
      var w := sibling;
      assert Linked(w);
      if !w.right.red && !w.left.red {
        SiblingRecolorRight(x, x.parent, w);
        temp := temp.parent;
      } else {
        if !w.left.red {
          SiblingInnerRight(x, x.parent, w);
          w := temp.parent.left;
        }
        SiblingOuterRight(x, x.parent, w);
        temp := root;
      }
    }

    // One round of the deletion repair at a right child.
    method DeleteFixRight(x: RbNode) returns (temp: RbNode)
      requires DeleteInv(x) && x != root && !x.red && x == x.parent.right
      modifies `root, Nodes`right, Nodes`left, Nodes`parent, Nodes`red, Nodes`lo, Nodes`hi, Nodes`bh
      ensures DeleteInv(temp) && Climb(temp) < old(Climb(x))
    {
      assert Linked(x.parent) && 1 <= Climb(x);
      var w := x.parent.left;
      if w.red {
        SiblingRedRight(x, x.parent, w);
        w := x.parent.left;
      }
      temp := DeleteFixBlackRight(x, w);
    }

    // node's in-order successor subst leaves its place to temp and takes the place of node.
    twostate predicate Succeeded(node: RbNode, subst: RbNode, temp: RbNode)
      requires node in old(Nodes) && subst in old(Nodes) && node != subst
      reads this, Nodes, temp, sentinel
    {
      var s := old(subst.at);
      && 0 <= old(node.at) < |old(order)|
      && Nodes == old(Nodes) - {node} && order == old(order[..node.at]) + old(order[node.at + 1..])
      && root == (if old(root) == node then subst else old(root))
      && temp.parent == (if old(subst.parent) == node then subst else old(subst.parent))
      && sentinel.red == old(sentinel.red) && sentinel.bh == old(sentinel.bh)
      && (forall n {:trigger n.left} :: n in Nodes ==>
            n.left == (if n == subst then old(node.left) else if old(n.left) == subst then temp
                       else if old(n.left) == node then subst else old(n.left)))
      && (forall n {:trigger n.right} :: n in Nodes ==>
            n.right == (if n == subst then (if old(node.right) == subst then temp else old(node.right))
                        else if old(n.right) == node then subst else old(n.right)))
      && (forall n {:trigger n.parent} :: n in Nodes && n != temp ==>
            n.parent == (if n == subst then old(node.parent)
                         else if old(n.parent) == node && (n == old(node.left) || n == old(node.right)) then subst
                         else old(n.parent)))
      && (forall n {:trigger n.red} :: n in Nodes ==> n.red == (if n == subst then old(node.red) else old(n.red)))
      && (forall n {:trigger n.bh} :: n in Nodes ==> n.bh == (if n == subst then old(node.bh) else old(n.bh)))
      && (forall n {:trigger n.at} :: n in Nodes ==>
            n.at == (if n == subst then old(node.at) else old(n.at) - (if old(n.at) > s then 1 else 0)))
      && (forall n {:trigger n.lo} :: n in Nodes ==>
            n.lo == (if n == subst then old(node.lo) else old(n.lo) - (if old(n.lo) > s then 1 else 0)))
      && (forall n {:trigger n.hi} :: n in Nodes ==>
            n.hi == (if n == subst then old(node.hi) - 1 else old(n.hi) - (if old(n.hi) > s then 1 else 0)))
    }

    // subst is the leftmost node to the right of node, and temp its only possible child.
    ghost predicate Successor(node: RbNode, subst: RbNode, temp: RbNode)
      reads this, Nodes
    {
      && node in Nodes && subst in Nodes && node != subst && subst != root
      && node.left != sentinel && node.right != sentinel
      && subst.left == sentinel && subst.right == temp && subst.at == subst.lo == node.at + 1
      && subst.parent in Nodes
      && (if subst.parent == node then subst == node.right else subst == subst.parent.left && subst != node.right)
    }

    lemma SuccessorPlace(node: RbNode, subst: RbNode)
      requires Shape() && node in Nodes && subst in Nodes && node.left != sentinel && node.right != sentinel
      requires subst.left == sentinel && subst.at == subst.lo == node.at + 1
      ensures Linked(subst) && Successor(node, subst, subst.right)
    {
      assert Linked(node) && Linked(subst) && Linked(node.left);
      if subst != root {
        assert Linked(subst.parent);
        assert subst.parent.at == node.at ==> order[subst.parent.at] == subst.parent && order[node.at] == node;
      }
    }

    twostate lemma SucceededRanked(new node: RbNode, new subst: RbNode, temp: RbNode)
      requires {node, subst} <= old(Nodes) && old(Shape() && Successor(node, subst, temp))
        && Succeeded(node, subst, temp)
      ensures Ranked()
    {
      assert old(Linked(node));
      assert old(order[node.at + 1]) == subst;
    }

    twostate lemma SucceededLinkedAtSubst(new node: RbNode, new subst: RbNode, temp: RbNode)
      requires {node, subst} <= old(Nodes) && old(Shape() && Successor(node, subst, temp))
        && Succeeded(node, subst, temp)
      ensures Linked(subst)
    {
      assert old(Linked(node) && Linked(subst) && Linked(node.left) && Linked(node.right));
      if temp != sentinel { assert old(Linked(temp)); }
      if node != old(root) { assert old(Linked(node.parent)); }
    }

    twostate lemma SucceededDownLeft(new node: RbNode, new subst: RbNode, temp: RbNode, new n: RbNode)
      requires {node, subst} <= old(Nodes) && old(Shape() && Successor(node, subst, temp))
        && Succeeded(node, subst, temp)
      requires n in Nodes && n != subst
      ensures 0 <= n.lo <= n.at
      ensures if n.left == sentinel then n.lo == n.at
              else n.left in Nodes && n.left.parent == n && n.left.lo == n.lo && n.left.hi == n.at
    {
      assert old(Linked(node) && Linked(node.right) && Linked(subst) && Linked(subst.parent));
      if temp != sentinel { assert old(Linked(temp)); }
      assert old(Linked(n) && n.at != node.at && n.at != subst.at);
      if old(n.left) != sentinel { assert old(Linked(n.left)); }
    }

    twostate lemma SucceededDownRight(new node: RbNode, new subst: RbNode, temp: RbNode, new n: RbNode)
      requires {node, subst} <= old(Nodes) && old(Shape() && Successor(node, subst, temp))
        && Succeeded(node, subst, temp)
      requires n in Nodes && n != subst
      ensures n.at < n.hi <= |order|
      ensures if n.right == sentinel then n.hi == n.at + 1
              else n.right in Nodes && n.right.parent == n && n.right.lo == n.at + 1 && n.right.hi == n.hi
    {
      assert old(Linked(node) && Linked(node.right) && Linked(subst) && Linked(subst.parent));
      if temp != sentinel { assert old(Linked(temp)); }
      assert old(Linked(n) && n.at != node.at && n.at != subst.at);
      if old(n.right) != sentinel { assert old(Linked(n.right)); }
    }

    twostate lemma SucceededDown(new node: RbNode, new subst: RbNode, temp: RbNode, new n: RbNode)
      requires {node, subst} <= old(Nodes) && old(Shape() && Successor(node, subst, temp))
        && Succeeded(node, subst, temp)
      requires n in Nodes && n != subst
      ensures Down(n)
    {
      SucceededDownLeft(node, subst, temp, n);
      SucceededDownRight(node, subst, temp, n);
    }

    twostate lemma SucceededUp(new node: RbNode, new subst: RbNode, temp: RbNode, new n: RbNode)
      requires {node, subst} <= old(Nodes) && old(Shape() && Successor(node, subst, temp))
        && Succeeded(node, subst, temp)
      requires n in Nodes && n != subst
      ensures Up(n)
    {
      assert old(Linked(node) && Linked(subst) && Linked(subst.parent) && Linked(n));
      if temp != sentinel { assert old(Linked(temp)); }
      if n != old(root) { assert old(Linked(n.parent)); }
    }

    twostate lemma SucceededShape(new node: RbNode, new subst: RbNode, temp: RbNode)
      requires {node, subst} <= old(Nodes) && old(Shape() && Successor(node, subst, temp))
        && Succeeded(node, subst, temp)
      ensures Shape()
    {
      SucceededRanked(node, subst, temp);
      SucceededLinkedAtSubst(node, subst, temp);
      assert old(Linked(node));
      forall n | n in Nodes ensures Linked(n) {
        if n != subst { SucceededDown(node, subst, temp, n); SucceededUp(node, subst, temp, n); }
      }
    }

    twostate lemma SucceededRed(new node: RbNode, new subst: RbNode, temp: RbNode)
      requires {node, subst} <= old(Nodes) && old(Valid() && Successor(node, subst, temp) && subst.red)
        && Succeeded(node, subst, temp)
      ensures Valid()
    {
      SucceededShape(node, subst, temp);
      assert old(Linked(subst) && BhOk(subst) && RedOk(subst, null));
      assert old(Linked(node) && BhOk(node) && RedOk(node, null));
      forall n | n in Nodes ensures BhOk(n) && RedOk(n, null) {
        assert old(Linked(n) && BhOk(n) && RedOk(n, null));
      }
    }

    twostate lemma SucceededBlackAt(new node: RbNode, new subst: RbNode, temp: RbNode, new n: RbNode)
      requires {node, subst} <= old(Nodes) && old(Valid() && Successor(node, subst, temp) && !subst.red)
        && Succeeded(node, subst, temp)
      requires Shape() && n in Nodes && temp.parent in Nodes
      ensures Linked(n) && (BhOk(n) || n == temp.parent) && (RedOk(n, temp) || n == temp)
      ensures n == temp.parent ==> Short(n, temp)
    {
      assert old(Linked(subst) && BhOk(subst) && Linked(node) && BhOk(node) && RedOk(node, null));
      assert old(Linked(subst.parent) && BhOk(subst.parent));
      assert Linked(n);
      if n != subst { assert old(Linked(n) && BhOk(n) && RedOk(n, null)); }
    }

    twostate lemma SucceededBlack(new node: RbNode, new subst: RbNode, temp: RbNode)
      requires {node, subst} <= old(Nodes) && old(Valid() && Successor(node, subst, temp) && !subst.red)
        && Succeeded(node, subst, temp)
      ensures DeleteInv(temp)
    {
      SucceededShape(node, subst, temp);
      assert Linked(temp.parent);
      forall n | n in Nodes
        ensures Linked(n) && (BhOk(n) || n == temp.parent) && (RedOk(n, temp) || n == temp)
        ensures n == temp.parent ==> Short(n, temp)
      {
        SucceededBlackAt(node, subst, temp, n);
      }
    }

    // Drops node from the ranking, its successor subst (if different) taking over its place.
    ghost method CloseRanks(node: RbNode, subst: RbNode)
      requires Ranked() && node in Nodes && subst in Nodes && (subst == node || subst.at == node.at + 1)
      modifies `order, `Nodes, Nodes`at, Nodes`lo, Nodes`hi, Nodes`bh
      ensures Nodes == old(Nodes) - {node} && order == old(order[..node.at]) + old(order[node.at + 1..])
      ensures forall n {:trigger n.at} :: n in Nodes ==>
            n.at == (if n == subst then old(node.at) else old(n.at) - (if old(n.at) > old(subst.at) then 1 else 0))
      ensures forall n {:trigger n.lo} :: n in Nodes ==>
            n.lo == (if n == subst then old(node.lo) else old(n.lo) - (if old(n.lo) > old(subst.at) then 1 else 0))
      ensures forall n {:trigger n.hi} :: n in Nodes ==>
            n.hi == (if n == subst then old(node.hi) - 1 else old(n.hi) - (if old(n.hi) > old(subst.at) then 1 else 0))
      ensures forall n {:trigger n.bh} :: n in Nodes ==> n.bh == (if n == subst then old(node.bh) else old(n.bh))
    {
      var k, s, lo, hi, bh := node.at, subst.at, node.lo, node.hi, node.bh;
      order := order[..k] + order[k + 1..];
      Nodes := Nodes - {node};
      forall n | n in Nodes { n.at := if n == subst then k else n.at - (if n.at > s then 1 else 0); }
      forall n | n in Nodes { n.lo := if n == subst then lo else n.lo - (if n.lo > s then 1 else 0); }
      forall n | n in Nodes { n.hi := if n == subst then hi - 1 else n.hi - (if n.hi > s then 1 else 0); }
      forall n | n in Nodes { n.bh := if n == subst then bh else n.bh; }
    }

    // Unlinks a node with at most one child below the root.
    method Unlink(node: RbNode, temp: RbNode)
      requires Valid() && node in Nodes && node != root
      requires (node.left == sentinel && node.right == temp) || (node.right == sentinel && node.left == temp)
      modifies `order, `Nodes, sentinel`parent, Nodes`left, Nodes`right, Nodes`parent,
               Nodes`at, Nodes`lo, Nodes`hi, Nodes`bh
      ensures Spliced(node, temp)
    {
      assert Linked(node);
      forall n | n in Nodes && (n.left == node || n.right == node) ensures node.parent == n && n.left != n.right {
        OnlyParent(n, node);
      }
      if node == node.parent.left {
        node.parent.left := temp;
      } else {
        node.parent.right := temp;
      }
      temp.parent := node.parent;
      CloseRanks(node, node);
    }

    // The successor subst of node hands its place over to temp.
    method DetachSuccessor(node: RbNode, subst: RbNode, temp: RbNode)
      requires Shape() && Successor(node, subst, temp)
      modifies sentinel`parent, Nodes`left, Nodes`right, Nodes`parent
      ensures forall n {:trigger n.left} :: n in Nodes ==>
                n.left == (if old(n.left) == subst then temp else old(n.left))
      ensures forall n {:trigger n.right} :: n in Nodes ==>
                n.right == (if old(n.right) == subst then temp else old(n.right))
      ensures forall n {:trigger n.parent} :: n in Nodes && n != temp ==> n.parent == old(n.parent)
      ensures temp.parent == (if old(subst.parent) == node then subst else old(subst.parent))
    {
      assert Linked(node) && Linked(subst);
      forall n | n in Nodes && (n.left == subst || n.right == subst) ensures subst.parent == n && n.left != n.right {
        OnlyParent(n, subst);
      }
      if subst == subst.parent.left {
        subst.parent.left := temp;
      } else {
        subst.parent.right := temp;
      }
      if subst.parent == node {
        temp.parent := subst;
      } else {
        temp.parent := subst.parent;
      }
    }

    // subst takes over the links and the colour of node.
    method TakeOver(node: RbNode, subst: RbNode)
      requires node in Nodes && subst in Nodes && node != subst && sentinel !in Nodes
      requires (node.left == sentinel || (node.left in Nodes && node.left !in {node, subst}))
      requires (node.right == sentinel || (node.right in Nodes && node.right !in {node, subst}))
      requires subst.left != node && subst.right != node
      requires node != root ==> node.parent in Nodes && (node.parent.left == node || node.parent.right == node)
      requires node != root ==> node.parent != subst
      requires forall n {:trigger n.left} {:trigger n.right} :: n in Nodes && (n.left == node || n.right == node) ==>
                 node.parent == n && node != root && n.left != n.right
      modifies `root, Nodes`left, Nodes`right, Nodes`parent, Nodes`red
      ensures root == (if old(root) == node then subst else old(root))
      ensures forall n {:trigger n.left} :: n in Nodes - {node} ==>
                n.left == (if n == subst then old(node.left)
                           else if old(n.left) == node then subst else old(n.left))
      ensures forall n {:trigger n.right} :: n in Nodes - {node} ==>
                n.right == (if n == subst then old(node.right)
                            else if old(n.right) == node then subst else old(n.right))
      ensures forall n {:trigger n.parent} :: n in Nodes - {node} ==>
                n.parent == (if n == subst then old(node.parent)
                             else if n == old(node.left) || n == old(node.right) then subst else old(n.parent))
      ensures forall n {:trigger n.red} :: n in Nodes ==> n.red == (if n == subst then old(node.red) else old(n.red))
    {
      subst.left := node.left;
      subst.right := node.right;
      subst.parent := node.parent;
      subst.red := node.red;
      Replace(node, subst);
      if subst.left != sentinel {
        subst.left.parent := subst;
      }
      if subst.right != sentinel {
        subst.right.parent := subst;
      }
    }

    // Unlinks a node with two children, its successor taking its place.
    method UnlinkInner(node: RbNode, subst: RbNode, temp: RbNode)
      requires Valid() && Successor(node, subst, temp)
      modifies `root, `order, `Nodes, sentinel`parent, Nodes`left, Nodes`right, Nodes`parent, Nodes`red,
               Nodes`at, Nodes`lo, Nodes`hi, Nodes`bh
      ensures Succeeded(node, subst, temp)
    {
      assert Linked(node) && Linked(subst) && Linked(node.left) && Linked(node.right);
      forall n | n in Nodes && (n.left == node || n.right == node)
        ensures node.parent == n && node != root && n.left != n.right
      {
        OnlyParent(n, node);
      }
      forall n | n in Nodes && n.right == subst ensures n == node {
        OnlyParent(n, subst);
      }
      DetachSuccessor(node, subst, temp);
      TakeOver(node, subst);
      CloseRanks(node, subst);
    }

    // Removes the root when it has at most one child, which is promoted without touching its parent link.
    method UnlinkRoot(node: RbNode, temp: RbNode)
      requires Valid() && node in Nodes && node == root
      requires (node.left == sentinel && node.right == temp) || (node.right == sentinel && node.left == temp)
      modifies this, sentinel`red, Nodes`red, Nodes`at, Nodes`lo, Nodes`hi, Nodes`bh
      ensures Valid() && Nodes == old(Nodes) - {node} && order == old(order[..node.at]) + old(order[node.at + 1..])
    {
      assert Linked(node);
      forall n | n in Nodes && (n.left == node || n.right == node) ensures false {
        OnlyParent(n, node);
      }
      root := temp;
      CloseRanks(node, node);
      if temp == sentinel {
        temp.red := false;
        SplicedLast(node, temp);
      } else {
        SplicedBlack(node, temp);
        PaintTop(temp);
      }
    }

    twostate lemma SplicedLast(new node: RbNode, temp: RbNode)
      requires old(Valid()) && node in old(Nodes) && node == old(root) && temp == sentinel && root == sentinel
      requires old((node.left == sentinel && node.right == temp) || (node.right == sentinel && node.left == temp))
      requires Spliced(node, temp) && unchanged(sentinel`red, sentinel`bh)
      ensures Valid()
    {
      SplicedShape(node, temp);
      assert order == [];
      assert forall n :: n in Nodes ==> n.at < 0;
      assert Nodes == {};
    }

    // The repair loop of ngx_rbtree_delete.
    method DeleteFixup(x: RbNode)
      requires DeleteInv(x)
      modifies `root, Nodes`left, Nodes`right, Nodes`parent, Nodes`red, Nodes`lo, Nodes`hi, Nodes`bh
      ensures Valid()
    {
      var temp := x;
      while temp != root && !temp.red
        invariant DeleteInv(temp)
        decreases Climb(temp)
      {
        if temp == temp.parent.left {
          temp := DeleteFixLeft(temp);
        } else {
          assert Linked(temp.parent);
          temp := DeleteFixRight(temp);
        }
      }
      PaintTop(temp);
    }

    // ngx_rbtree_delete: exactly node leaves order, and its links and key are cleared.
    method Delete(node: RbNode)
      requires Valid() && node in Nodes
      modifies this, sentinel`parent, sentinel`red, node`key, Nodes`left, Nodes`right, Nodes`parent, Nodes`red,
               Nodes`at, Nodes`lo, Nodes`hi, Nodes`bh
      ensures Valid() && Nodes == old(Nodes) - {node} && order == old(order[..node.at]) + old(order[node.at + 1..])
      ensures node.key == 0 && node.left == null && node.right == null && node.parent == null
    {
      assert Linked(node);
      var subst, temp := node, node;
      if node.left == sentinel {
        temp := node.right;
      } else if node.right == sentinel {
        temp := node.left;
      } else {
        ghost var path;
        subst, path := Min(node.right);
        SuccessorPlace(node, subst);
        var l: RbNode := subst.left;
        temp := if l != sentinel then l else subst.right;
      }
      if subst == root {
        UnlinkRoot(node, temp);
        Forget(node);
        return;
      }
      var red := UnlinkLower(node, subst, temp);
      Forget(node);
      if red {
        return;
      }
      DeleteFixup(temp);
    }

    // The unlinking below the root; red tells that no repair is needed.
    method UnlinkLower(node: RbNode, subst: RbNode, temp: RbNode) returns (red: bool)
      requires Valid() && node in Nodes && subst in Nodes && subst != root
      requires if subst == node
               then (node.left == sentinel && node.right == temp) || (node.right == sentinel && node.left == temp)
               else Successor(node, subst, temp)
      modifies `root, `order, `Nodes, sentinel`parent, Nodes`left, Nodes`right, Nodes`parent, Nodes`red,
               Nodes`at, Nodes`lo, Nodes`hi, Nodes`bh
      ensures Nodes == old(Nodes) - {node} && order == old(order[..node.at]) + old(order[node.at + 1..])
      ensures if red then Valid() else DeleteInv(temp)
    {
      red := subst.red;
      if subst == node {
        Unlink(node, temp);
        if red { SplicedRed(node, temp); } else { SplicedBlack(node, temp); }
      } else {
        UnlinkInner(node, subst, temp);
        if red { SucceededRed(node, subst, temp); } else { SucceededBlack(node, subst, temp); }
      }
    }

    // The node's links and key are wiped.
    method Forget(node: RbNode)
      modifies node`left, node`right, node`parent, node`key
      ensures node.left == null && node.right == null && node.parent == null && node.key == 0
    {
      node.left := null;
      node.right := null;
      node.parent := null;
      node.key := 0;
    }

    // The tree the links spell out below n.
    ghost function View(n: RbNode): Tree<RbNode>
      requires Shape() && (n == sentinel || n in Nodes)
      reads this, sentinel, Nodes
      decreases if n == sentinel then 0 else n.hi - n.lo
    {
      if n == sentinel then Leaf
      else assert Linked(n);
           assert n.left != sentinel ==> Linked(n.left);
           assert n.right != sentinel ==> Linked(n.right);
           Node(View(n.left), n, n.red, View(n.right))
    }

    lemma {:induction false} ViewInOrder(n: RbNode)
      requires Shape() && n in Nodes && Linked(n)
      ensures InOrder(View(n)) == order[n.lo..n.hi]
      decreases n.hi - n.lo
    {
      assert order[n.at] == n;
      if n.left != sentinel { assert Linked(n.left); ViewInOrder(n.left); }
      if n.right != sentinel { assert Linked(n.right); ViewInOrder(n.right); }
      AroundOne(order, n.lo, n.at, n.hi);
    }

    lemma {:induction false} ViewColours(n: RbNode)
      requires Valid() && n in Nodes && Linked(n)
      ensures NoRedRed(View(n)) && Blacks(View(n), n.bh) && BlackHeight(View(n)) == n.bh
      decreases n.hi - n.lo
    {
      assert BhOk(n) && RedOk(n, null);
      if n.left != sentinel { assert Linked(n.left); ViewColours(n.left); }
      if n.right != sentinel { assert Linked(n.right); ViewColours(n.right); }
    }

    // The links of a valid tree spell out a red-black tree whose in-order sequence is order.
    lemma ValidIsRedBlack()
      requires Valid()
      ensures RedBlack(View(root)) && InOrder(View(root)) == order
    {
      if root != sentinel {
        assert Linked(root);
        ViewInOrder(root);
        ViewColours(root);
      }
    }

    lemma {:induction false} WalkHeight(path: seq<RbNode>)
      requires Shape() && Walk(path)
      ensures |path| <= Height(View(path[0]))
    {
      assert Linked(path[0]);
      if |path| > 1 {
        WalkHeight(path[1..]);
        assert path[1..][0] == path[1] && (path[1] == path[0].left || path[1] == path[0].right);
      }
    }

    // Every walk down from the root of a valid tree of n nodes visits at most 2 log2(n + 1) nodes.
    lemma WalkBound(path: seq<RbNode>)
      requires Valid() && Walk(path) && path[0] == root
      ensures |path| <= 2 * Log2(|order| + 1)
    {
      WalkHeight(path);
      ValidIsRedBlack();
      HeightBound(View(root));
    }
  }
}
