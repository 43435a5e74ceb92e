/** Red-black trees as values.

  `Tree` is the shape a heap of linked nodes is meant to have, and `Path` is the way from a
  subtree back up to the root: plugging a tree into a path rebuilds the whole.  The heap
  algorithms of module `RbTrees` are proved against these values, and the facts that make red-black
  trees worth having (order of the elements, black height, logarithmic depth) are proved here. */
module RbShape {

  datatype Color = Black | Red

  datatype Tree<T> =
    | Leaf
    | Node(color: Color, left: Tree<T>, item: T, right: Tree<T>)

  /** The context of a subtree; the outermost constructor is the subtree's parent. */
  datatype Path<T> =
    | Top
    | InLeft(up: Path<T>, color: Color, item: T, sibling: Tree<T>)
    | InRight(up: Path<T>, color: Color, item: T, sibling: Tree<T>)

  ghost predicate IsRed<T>(t: Tree<T>) { t.Node? && t.color.Red? }

  ghost function Paint<T>(t: Tree<T>, c: Color): Tree<T> {
    if t.Leaf? then t else t.(color := c)
  }

  // ---------- contents ----------

  ghost function Items<T>(t: Tree<T>): set<T> {
    match t
    case Leaf => {}
    case Node(_, l, x, r) => Items(l) + {x} + Items(r)
  }

  ghost function Inorder<T>(t: Tree<T>): seq<T> {
    match t
    case Leaf => []
    case Node(_, l, x, r) => Inorder(l) + [x] + Inorder(r)
  }

  ghost function PathItems<T>(p: Path<T>): set<T> {
    match p
    case Top => {}
    case InLeft(up, _, x, s) => {x} + Items(s) + PathItems(up)
    case InRight(up, _, x, s) => {x} + Items(s) + PathItems(up)
  }

  ghost function Plug<T>(p: Path<T>, t: Tree<T>): Tree<T> {
    match p
    case Top => t
    case InLeft(up, c, x, s) => Plug(up, Node(c, t, x, s))
    case InRight(up, c, x, s) => Plug(up, Node(c, s, x, t))
  }

  /** What precedes, in order, any tree plugged into `p`. */
  ghost function Before<T>(p: Path<T>): seq<T> {
    match p
    case Top => []
    case InLeft(up, _, _, _) => Before(up)
    case InRight(up, _, x, s) => Before(up) + (Inorder(s) + [x])
  }

  ghost function After<T>(p: Path<T>): seq<T> {
    match p
    case Top => []
    case InLeft(up, _, x, s) => [x] + Inorder(s) + After(up)
    case InRight(up, _, _, _) => After(up)
  }

  lemma Reassociate<T>(a: seq<T>, b: seq<T>, c: seq<T>, d: seq<T>, e: seq<T>)
    ensures a + (b + c + d) + e == a + b + (c + d + e)
    ensures a + (b + c + d) + e == a + (b + c) + d + e
  {
  }

  lemma {:induction false} PlugInorder<T>(p: Path<T>, t: Tree<T>)
    ensures Inorder(Plug(p, t)) == Before(p) + Inorder(t) + After(p)
  {
    match p
    case Top =>
    case InLeft(up, c, x, s) =>
      PlugInorder(up, Node(c, t, x, s));
      Reassociate(Before(up), Inorder(t), [x], Inorder(s), After(up));
    case InRight(up, c, x, s) =>
      PlugInorder(up, Node(c, s, x, t));
      Reassociate(Before(up), Inorder(s), [x], Inorder(t), After(up));
  }

  lemma {:induction false} PlugItems<T>(p: Path<T>, t: Tree<T>)
    ensures Items(Plug(p, t)) == PathItems(p) + Items(t)
  {
    match p
    case Top =>
    case InLeft(up, c, x, s) => PlugItems(up, Node(c, t, x, s));
    case InRight(up, c, x, s) => PlugItems(up, Node(c, s, x, t));
  }

  lemma {:induction false} InorderItem<T>(t: Tree<T>, x: T)
    ensures x in Inorder(t) <==> x in Items(t)
  {
    match t
    case Leaf =>
    case Node(_, l, y, r) =>
      InorderItem(l, x);
      InorderItem(r, x);
      assert x in Inorder(t) <==> x in Inorder(l) || x == y || x in Inorder(r);
  }

  /** Every element of a tree is the root of one of its subtrees. */
  lemma {:induction false} Locate<T>(p: Path<T>, t: Tree<T>, x: T) returns (q: Path<T>, s: Tree<T>)
    requires x in Items(t)
    ensures s.Node? && s.item == x && Plug(q, s) == Plug(p, t)
    decreases t
  {
    var Node(c, l, y, r) := t;
    if y == x {
      q, s := p, t;
    } else if x in Items(l) {
      q, s := Locate(InLeft(p, c, y, r), l, x);
    } else {
      q, s := Locate(InRight(p, c, y, l), r, x);
    }
  }

  // ---------- no element twice ----------

  ghost predicate Distinct<T>(t: Tree<T>) {
    match t
    case Leaf => true
    case Node(_, l, x, r) =>
      && x !in Items(l) && x !in Items(r) && Items(l) !! Items(r)
      && Distinct(l) && Distinct(r)
  }

  /** A tree whose elements are `s` can be plugged into `p` without repeating an element. */
  ghost predicate DistinctPath<T>(p: Path<T>, s: set<T>) {
    match p
    case Top => true
    case InLeft(up, _, x, t) =>
      x !in s && x !in Items(t) && Items(t) !! s && Distinct(t) && DistinctPath(up, s + {x} + Items(t))
    case InRight(up, _, x, t) =>
      x !in s && x !in Items(t) && Items(t) !! s && Distinct(t) && DistinctPath(up, s + {x} + Items(t))
  }

  lemma {:induction false} PlugDistinct<T>(p: Path<T>, t: Tree<T>)
    ensures Distinct(Plug(p, t)) <==> Distinct(t) && DistinctPath(p, Items(t))
  {
    match p
    case Top =>
    case InLeft(up, c, x, s) =>
      PlugDistinct(up, Node(c, t, x, s));
      assert Items(t) + {x} + Items(s) == Items(Node(c, t, x, s));
    case InRight(up, c, x, s) =>
      PlugDistinct(up, Node(c, s, x, t));
      assert Items(t) + {x} + Items(s) == Items(Node(c, s, x, t));
  }

  /** Adding a fresh element to the plugged tree, or dropping one, keeps the path usable. */
  lemma {:induction false} DistinctPathGrow<T>(p: Path<T>, s: set<T>, s': set<T>)
    requires DistinctPath(p, s)
    requires s' !! PathItems(p)
    ensures DistinctPath(p, s')
  {
    match p
    case Top =>
    case InLeft(up, _, x, t) =>
      DistinctPathDisjoint(up, s + {x} + Items(t));
      DistinctPathGrow(up, s + {x} + Items(t), s' + {x} + Items(t));
    case InRight(up, _, x, t) =>
      DistinctPathDisjoint(up, s + {x} + Items(t));
      DistinctPathGrow(up, s + {x} + Items(t), s' + {x} + Items(t));
  }

  lemma {:induction false} DistinctPathDisjoint<T>(p: Path<T>, s: set<T>)
    requires DistinctPath(p, s)
    ensures s !! PathItems(p)
  {
    match p
    case Top =>
    case InLeft(up, _, x, t) => DistinctPathDisjoint(up, s + {x} + Items(t));
    case InRight(up, _, x, t) => DistinctPathDisjoint(up, s + {x} + Items(t));
  }

  ghost predicate NoDup<T>(s: seq<T>) {
    forall i, j :: 0 <= i < j < |s| ==> s[i] != s[j]
  }

  lemma NoDupJoin<T>(a: seq<T>, x: T, b: seq<T>)
    requires NoDup(a) && NoDup(b) && x !in a && x !in b
    requires forall y :: y in a ==> y !in b
    ensures NoDup(a + [x] + b)
  {
    var s := a + [x] + b;
    forall i, j | 0 <= i < j < |s| ensures s[i] != s[j] {
      assert i < |a| ==> s[i] == a[i] && s[i] in a;
      assert j > |a| ==> s[j] == b[j - |a| - 1] && s[j] in b;
    }
  }

  lemma {:induction false} DistinctInorder<T>(t: Tree<T>)
    requires Distinct(t)
    ensures NoDup(Inorder(t))
  {
    match t
    case Leaf =>
    case Node(_, l, x, r) =>
      DistinctInorder(l);
      DistinctInorder(r);
      InorderItem(l, x);
      InorderItem(r, x);
      var a, b := Inorder(l), Inorder(r);
      forall y | y in a ensures y !in b {
        InorderItem(l, y);
        InorderItem(r, y);
      }
      NoDupJoin(a, x, b);
  }

  // ---------- the red-black discipline ----------

  /** Every way down from the root of `t` meets exactly `h` black nodes. */
  ghost predicate Balanced<T>(t: Tree<T>, h: nat) {
    match t
    case Leaf => h == 0
    case Node(c, l, _, r) =>
      if c.Red? then Balanced(l, h) && Balanced(r, h)
      else h > 0 && Balanced(l, h - 1) && Balanced(r, h - 1)
  }

  ghost predicate NoRedRed<T>(t: Tree<T>) {
    match t
    case Leaf => true
    case Node(c, l, _, r) =>
      && NoRedRed(l) && NoRedRed(r)
      && (c.Red? ==> !IsRed(l) && !IsRed(r))
  }

  ghost predicate RedBlack<T>(t: Tree<T>) {
    !IsRed(t) && NoRedRed(t) && exists h: nat :: Balanced(t, h)
  }

  ghost predicate RedTop<T>(p: Path<T>) { !p.Top? && p.color.Red? }

  /** Plugging a tree of black height `h` into `p` gives one of black height `total`. */
  ghost predicate BalancedPath<T>(p: Path<T>, h: nat, total: nat) {
    match p
    case Top => h == total
    case InLeft(up, c, _, s) => Balanced(s, h) && BalancedPath(up, if c.Red? then h else h + 1, total)
    case InRight(up, c, _, s) => Balanced(s, h) && BalancedPath(up, if c.Red? then h else h + 1, total)
  }

  /** No red node of the path has a red child off or on the path, and its root is black. */
  ghost predicate NoRedRedPath<T>(p: Path<T>) {
    match p
    case Top => true
    case InLeft(up, c, _, s) =>
      NoRedRed(s) && NoRedRedPath(up) && (c.Red? ==> !up.Top? && up.color.Black? && !IsRed(s))
    case InRight(up, c, _, s) =>
      NoRedRed(s) && NoRedRedPath(up) && (c.Red? ==> !up.Top? && up.color.Black? && !IsRed(s))
  }

  lemma {:induction false} PlugBalanced<T>(p: Path<T>, t: Tree<T>, h: nat, total: nat)
    requires Balanced(t, h)
    ensures Balanced(Plug(p, t), total) <==> BalancedPath(p, h, total)
  {
    match p
    case Top => BalancedUnique(t, h, total);
    case InLeft(up, c, x, s) =>
      if Balanced(s, h) {
        PlugBalanced(up, Node(c, t, x, s), if c.Red? then h else h + 1, total);
      } else if Balanced(Plug(p, t), total) {
        var k := UnplugBalanced(up, Node(c, t, x, s), total);
        BalancedUnique(t, h, if c.Red? then k else k - 1);
      }
    case InRight(up, c, x, s) =>
      if Balanced(s, h) {
        PlugBalanced(up, Node(c, s, x, t), if c.Red? then h else h + 1, total);
      } else if Balanced(Plug(p, t), total) {
        var k := UnplugBalanced(up, Node(c, s, x, t), total);
        BalancedUnique(t, h, if c.Red? then k else k - 1);
      }
  }

  lemma {:induction false} BalancedUnique<T>(t: Tree<T>, h: nat, k: nat)
    requires Balanced(t, h)
    ensures Balanced(t, k) <==> h == k
  {
    match t
    case Leaf =>
    case Node(c, l, _, r) =>
      if c.Red? {
        BalancedUnique(l, h, k);
      } else if k > 0 {
        BalancedUnique(l, h - 1, k - 1);
      }
  }

  lemma {:induction false} UnplugBalanced<T>(p: Path<T>, t: Tree<T>, total: nat) returns (h: nat)
    requires Balanced(Plug(p, t), total)
    ensures Balanced(t, h)
  {
    match p
    case Top => h := total;
    case InLeft(up, c, x, s) =>
      var k := UnplugBalanced(up, Node(c, t, x, s), total);
      h := if c.Red? then k else k - 1;
    case InRight(up, c, x, s) =>
      var k := UnplugBalanced(up, Node(c, s, x, t), total);
      h := if c.Red? then k else k - 1;
  }

  lemma {:induction false} PlugNoRedRed<T>(p: Path<T>, t: Tree<T>)
    ensures NoRedRed(Plug(p, t)) && !IsRed(Plug(p, t))
       <==> NoRedRed(t) && NoRedRedPath(p) && (RedTop(p) || p.Top? ==> !IsRed(t))
  {
    match p
    case Top =>
    case InLeft(up, c, x, s) => PlugNoRedRed(up, Node(c, t, x, s));
    case InRight(up, c, x, s) => PlugNoRedRed(up, Node(c, s, x, t));
  }

  // ---------- size against depth ----------

  ghost function Height<T>(t: Tree<T>): nat {
    match t
    case Leaf => 0
    case Node(_, l, _, r) => 1 + if Height(l) > Height(r) then Height(l) else Height(r)
  }

  ghost function Pow2(n: nat): nat { if n == 0 then 1 else 2 * Pow2(n - 1) }

  lemma {:induction false} Pow2Add(a: nat, b: nat)
    ensures Pow2(a + b) == Pow2(a) * Pow2(b)
  {
    if a == 0 {
    } else {
      Pow2Add(a - 1, b);
      assert Pow2(a) * Pow2(b) == 2 * (Pow2(a - 1) * Pow2(b));
    }
  }

  lemma {:induction false} Pow2Monotone(a: nat, b: nat)
    requires a <= b
    ensures Pow2(a) <= Pow2(b)
  {
    if a < b {
      Pow2Monotone(a, b - 1);
    }
  }

  lemma {:induction false} BlackHeightBounds<T>(t: Tree<T>, h: nat)
    requires Balanced(t, h) && NoRedRed(t)
    ensures Pow2(h) <= |Inorder(t)| + 1
    ensures Height(t) <= if IsRed(t) then 2 * h + 1 else 2 * h
  {
    match t
    case Leaf =>
    case Node(c, l, _, r) =>
      var k := if c.Red? then h else h - 1;
      BlackHeightBounds(l, k);
      BlackHeightBounds(r, k);
  }

  lemma SquareMonotone(a: nat, b: nat)
    requires a <= b
    ensures a * a <= b * b
  {
    assert a * a <= a * b <= b * b;
  }

  /** A red-black tree of n elements is at most 2*log2(n+1) high. */
  lemma HeightIsLogarithmic<T>(t: Tree<T>)
    requires RedBlack(t)
    ensures Pow2(Height(t)) <= (|Inorder(t)| + 1) * (|Inorder(t)| + 1)
  {
    var h: nat :| Balanced(t, h);
    BlackHeightBounds(t, h);
    Pow2Monotone(Height(t), h + h);
    Pow2Add(h, h);
    SquareMonotone(Pow2(h), |Inorder(t)| + 1);
  }

  /** The height is the number of nodes on the longest way down: no way is longer, */
  lemma {:induction false} DepthWithin<T>(p: Path<T>, t: Tree<T>)
    ensures Depth(p) + Height(t) <= Height(Plug(p, t))
  {
    match p
    case Top =>
    case InLeft(up, c, x, s) => DepthWithin(up, Node(c, t, x, s));
    case InRight(up, c, x, s) => DepthWithin(up, Node(c, s, x, t));
  }

  /** and one is as long. */
  lemma {:induction false} DeepestLeaf<T>(p: Path<T>, t: Tree<T>) returns (q: Path<T>)
    ensures Plug(q, Leaf) == Plug(p, t) && Depth(q) == Depth(p) + Height(t)
    decreases t
  {
    match t
    case Leaf => q := p;
    case Node(c, l, x, r) =>
      if Height(l) >= Height(r) {
        q := DeepestLeaf(InLeft(p, c, x, r), l);
      } else {
        q := DeepestLeaf(InRight(p, c, x, l), r);
      }
  }

  // ---------- rebalancing after an insertion ----------

  /** A red `t` of black height `h` at `p`: all is well but, perhaps, the edge to a red parent. */
  ghost predicate RedAt<T>(p: Path<T>, t: Tree<T>, h: nat, total: nat) {
    IsRed(t) && NoRedRed(t) && Balanced(t, h) && NoRedRedPath(p) && BalancedPath(p, h, total)
  }

  /** The tree of which `t` is a child, seen from `p`. */
  ghost function Close<T>(p: Path<T>, t: Tree<T>): Tree<T>
    requires !p.Top?
  {
    if p.InLeft? then Node(p.color, t, p.item, p.sibling) else Node(p.color, p.sibling, p.item, t)
  }

  ghost function WithSibling<T>(p: Path<T>, s: Tree<T>): Path<T>
    requires !p.Top?
  {
    if p.InLeft? then InLeft(p.up, p.color, p.item, s) else InRight(p.up, p.color, p.item, s)
  }

  ghost function WithColor<T>(p: Path<T>, c: Color): Path<T>
    requires !p.Top?
  {
    if p.InLeft? then InLeft(p.up, c, p.item, p.sibling) else InRight(p.up, c, p.item, p.sibling)
  }

  /** The elements of the whole, in order. */
  ghost function Sequence<T>(p: Path<T>, t: Tree<T>): seq<T> { Before(p) + Inorder(t) + After(p) }

  lemma CloseSequence<T>(p: Path<T>, t: Tree<T>)
    requires !p.Top?
    ensures Sequence(p.up, Close(p, t)) == Sequence(p, t)
  {
    if p.InLeft? {
      Reassociate(Before(p.up), Inorder(t), [p.item], Inorder(p.sibling), After(p.up));
    } else {
      Reassociate(Before(p.up), Inorder(p.sibling), [p.item], Inorder(t), After(p.up));
    }
  }

  /** Red parent and red uncle: both turn black, the grandparent red. */
  ghost function Recolored<T>(p: Path<T>, t: Tree<T>): Tree<T>
    requires !p.Top? && !p.up.Top?
  {
    Paint(Close(WithSibling(p.up, Paint(p.up.sibling, Black)), Paint(Close(p, t), Black)), Red)
  }

  lemma RecoloredRedAt<T>(p: Path<T>, t: Tree<T>, h: nat, total: nat)
    requires RedAt(p, t, h, total) && RedTop(p) && IsRed(p.up.sibling)
    ensures RedAt(p.up.up, Recolored(p, t), h + 1, total)
    ensures Sequence(p.up.up, Recolored(p, t)) == Sequence(p, t)
  {
    assert NoRedRedPath(p.up) && BalancedPath(p.up, h, total);
    assert NoRedRedPath(p.up.up) && BalancedPath(p.up.up, h + 1, total);
    CloseSequence(p, t);
    CloseSequence(p.up, Close(p, t));
    assert Inorder(Recolored(p, t)) == Inorder(Close(p.up, Close(p, t)));
  }

  ghost function Depth<T>(p: Path<T>): nat { if p.Top? then 0 else 1 + Depth(p.up) }

  /** Rotating at the parent turns an inner red grandchild into an outer one. */
  lemma OuterRedAt<T>(p: Path<T>, t: Tree<T>, h: nat, total: nat)
    requires RedAt(p, t, h, total) && RedTop(p)
    ensures t.color.Red?
    ensures p.InRight? ==>
      RedAt(InLeft(p.up, t.color, t.item, t.right), Node(p.color, p.sibling, p.item, t.left), h, total)
    ensures p.InLeft? ==>
      RedAt(InRight(p.up, t.color, t.item, t.left), Node(p.color, t.right, p.item, p.sibling), h, total)
  {
    assert NoRedRedPath(p.up) && BalancedPath(p.up, h, total);
  }

  /** Black uncle: parent and grandparent have changed places and colors. */
  lemma SettledRedAt<T>(p: Path<T>, t: Tree<T>, h: nat, total: nat)
    requires RedAt(p, t, h, total) && RedTop(p) && !IsRed(p.up.sibling)
    ensures p.InLeft? && p.up.InLeft? ==>
      RedAt(InLeft(p.up.up, Black, p.item, Node(Red, p.sibling, p.up.item, p.up.sibling)), t, h, total)
    ensures p.InRight? && p.up.InRight? ==>
      RedAt(InRight(p.up.up, Black, p.item, Node(Red, p.up.sibling, p.up.item, p.sibling)), t, h, total)
  {
    assert NoRedRedPath(p.up) && BalancedPath(p.up, h, total);
    assert NoRedRedPath(p.up.up) && BalancedPath(p.up.up, h + 1, total);
  }

  /** A red leaf may be added wherever a leaf of a red-black tree is missing. */
  lemma NewLeafRedAt<T>(p: Path<T>, x: T) returns (total: nat)
    requires !p.Top? && RedBlack(Plug(p, Leaf))
    ensures RedAt(p, Node(Red, Leaf, x, Leaf), 0, total)
  {
    total :| Balanced(Plug(p, Leaf), total);
    PlugBalanced(p, Leaf, 0, total);
    PlugNoRedRed(p, Leaf);
  }

  lemma RedTopBelowBlack<T>(p: Path<T>, t: Tree<T>, h: nat, total: nat)
    requires RedAt(p, t, h, total) && RedTop(p)
    ensures !p.up.Top? && p.up.color.Black?
  {
  }

  /** When the loop stops, painting the root black restores the discipline. */
  lemma PaintedRoot<T>(p: Path<T>, t: Tree<T>, h: nat, total: nat)
    requires RedAt(p, t, h, total) && !RedTop(p)
    ensures var w := Paint(Plug(p, t), Black);
      RedBlack(w) && Inorder(w) == Sequence(p, t) && Items(w) == PathItems(p) + Items(t)
  {
    var w := Paint(Plug(p, t), Black);
    PlugInorder(p, t);
    PlugItems(p, t);
    if p.Top? {
      assert Balanced(w, h + 1);
    } else {
      PlugNoRedRed(p, t);
      PlugBalanced(p, t, h, total);
      assert w == Plug(p, t);
    }
  }

  lemma ItemsOfSequence<T>(t: Tree<T>, s: set<T>)
    requires forall x :: x in s ==> x in Inorder(t)
    requires forall x :: x in Inorder(t) ==> x in s
    ensures Items(t) == s
  {
    forall x | x in s ensures x in Items(t) { InorderItem(t, x); }
    forall x | x in Items(t) ensures x in s { InorderItem(t, x); }
  }

  // ---------- rebalancing after a deletion ----------

  /** Every way down through `t` at `p` is one black node short; the root of `t` may be red. */
  ghost predicate ShortAt<T>(p: Path<T>, t: Tree<T>, h: nat, total: nat) {
    NoRedRed(Paint(t, Black)) && Balanced(t, h) && NoRedRedPath(p) && BalancedPath(p, h + 1, total)
  }

  /** A short part that is not the whole has a sibling, and a red sibling has black children. */
  lemma ShortSibling<T>(p: Path<T>, t: Tree<T>, h: nat, total: nat)
    requires ShortAt(p, t, h, total) && !p.Top?
    ensures p.sibling.Node?
    ensures p.sibling.color.Red? ==>
      p.color.Black? && p.sibling.left.Node? && p.sibling.right.Node?
      && p.sibling.left.color.Black? && p.sibling.right.color.Black?
  {
    assert Balanced(p.sibling, h + 1);
    if p.sibling.color.Red? {
      assert Balanced(p.sibling.left, h + 1) && Balanced(p.sibling.right, h + 1);
    }
  }

  /** The path after a red sibling has been rotated above the parent. */
  ghost function LiftedSibling<T>(p: Path<T>): Path<T>
    requires !p.Top? && p.sibling.Node?
  {
    if p.InLeft? then InLeft(InLeft(p.up, Black, p.sibling.item, p.sibling.right), Red, p.item, p.sibling.left)
    else InRight(InRight(p.up, Black, p.sibling.item, p.sibling.left), Red, p.item, p.sibling.right)
  }

  lemma RedSibling<T>(p: Path<T>, t: Tree<T>, h: nat, total: nat)
    requires ShortAt(p, t, h, total) && !p.Top? && IsRed(p.sibling)
    ensures ShortAt(LiftedSibling(p), t, h, total)
  {
    ShortSibling(p, t, h, total);
    assert NoRedRedPath(p.up) && BalancedPath(p.up, h + 2, total);
    assert NoRedRedPath(LiftedSibling(p).up) && BalancedPath(LiftedSibling(p).up, h + 1, total);
  }

  /** Black sibling, black nephews: the sibling turns red and the shortage moves up. */
  lemma BlackNephews<T>(p: Path<T>, t: Tree<T>, h: nat, total: nat)
    requires ShortAt(p, t, h, total) && !p.Top? && !IsRed(t) && p.sibling.Node? && p.sibling.color.Black?
    requires !IsRed(p.sibling.left) && !IsRed(p.sibling.right)
    ensures ShortAt(p.up, Close(WithSibling(p, Paint(p.sibling, Red)), t), if p.color.Red? then h else h + 1, total)
  {
    assert NoRedRedPath(p.up) && BalancedPath(p.up, if p.color.Red? then h + 1 else h + 2, total);
    assert Balanced(Paint(p.sibling, Red), h);
  }

  /** The sibling after its red inner child has been rotated above it. */
  ghost function OuterSibling<T>(p: Path<T>): Tree<T>
    requires !p.Top? && p.sibling.Node? && (if p.InLeft? then p.sibling.left.Node? else p.sibling.right.Node?)
  {
    var Node(_, l, w, r) := p.sibling;
    if p.InLeft? then Node(Black, l.left, l.item, Node(Red, l.right, w, r))
    else Node(Black, Node(Red, l, w, r.left), r.item, r.right)
  }

  lemma InnerNephew<T>(p: Path<T>, t: Tree<T>, h: nat, total: nat)
    requires ShortAt(p, t, h, total) && !p.Top? && p.sibling.Node? && p.sibling.color.Black?
    requires if p.InLeft? then IsRed(p.sibling.left) && !IsRed(p.sibling.right)
             else IsRed(p.sibling.right) && !IsRed(p.sibling.left)
    ensures ShortAt(WithSibling(p, OuterSibling(p)), t, h, total)
  {
    assert NoRedRedPath(p.up) && NoRedRed(p.sibling) && Balanced(p.sibling, h + 1);
    var inner := if p.InLeft? then p.sibling.left else p.sibling.right;
    assert NoRedRed(inner) && Balanced(inner, h);
    assert NoRedRed(OuterSibling(p)) && Balanced(OuterSibling(p), h + 1);
  }

  lemma OuterSiblingSequence<T>(p: Path<T>, t: Tree<T>)
    requires !p.Top? && p.sibling.Node? && (if p.InLeft? then p.sibling.left.Node? else p.sibling.right.Node?)
    ensures Sequence(WithSibling(p, OuterSibling(p)), t) == Sequence(p, t)
  {
    var Node(_, l, w, r) := p.sibling;
    if p.InLeft? {
      Reassociate(Inorder(l.left), [l.item], Inorder(l.right), [w], Inorder(r));
    } else {
      Reassociate(Inorder(l), [w], Inorder(r.left), [r.item], Inorder(r.right));
    }
    assert Inorder(OuterSibling(p)) == Inorder(p.sibling);
  }

  /** The tree after a black sibling with a red outer child has been rotated above the parent. */
  ghost function Settled<T>(p: Path<T>, t: Tree<T>): Tree<T>
    requires !p.Top? && p.sibling.Node?
  {
    var Node(_, l, w, r) := p.sibling;
    if p.InLeft? then Node(p.color, Node(Black, t, p.item, l), w, Paint(r, Black))
    else Node(p.color, Paint(l, Black), w, Node(Black, r, p.item, t))
  }

  lemma OuterNephew<T>(p: Path<T>, t: Tree<T>, h: nat, total: nat)
    requires ShortAt(p, t, h, total) && !p.Top? && !IsRed(t) && p.sibling.Node? && p.sibling.color.Black?
    requires if p.InLeft? then IsRed(p.sibling.right) else IsRed(p.sibling.left)
    ensures ShortAt(Top, Plug(p.up, Settled(p, t)), total, total + 1)
    ensures !IsRed(Plug(p.up, Settled(p, t)))
  {
    assert NoRedRedPath(p.up) && NoRedRed(p.sibling) && Balanced(p.sibling, h + 1);
    var outer := if p.InLeft? then p.sibling.right else p.sibling.left;
    assert NoRedRed(outer) && Balanced(outer, h) && Balanced(Paint(outer, Black), h + 1);
    assert NoRedRed(t) && Paint(t, Black) == t;
    var w, k := Settled(p, t), if p.color.Red? then h + 1 else h + 2;
    assert Balanced(w, k);
    PlugBalanced(p.up, w, k, total);
    PlugNoRedRed(p.up, w);
    assert Paint(Plug(p.up, w), Black) == Plug(p.up, w);
  }

  lemma SettledInorder<T>(p: Path<T>, t: Tree<T>)
    requires !p.Top? && p.sibling.Node?
    ensures Inorder(Settled(p, t)) == Inorder(Close(p, t))
  {
    var Node(_, l, w, r) := p.sibling;
    assert Inorder(Paint(r, Black)) == Inorder(r) && Inorder(Paint(l, Black)) == Inorder(l);
    if p.InLeft? {
      Reassociate(Inorder(t), [p.item], Inorder(l), [w], Inorder(r));
    } else {
      Reassociate(Inorder(l), [w], Inorder(r), [p.item], Inorder(t));
    }
  }

  lemma SettledSequence<T>(p: Path<T>, t: Tree<T>)
    requires !p.Top? && p.sibling.Node?
    ensures Sequence(Top, Plug(p.up, Settled(p, t))) == Sequence(p, t)
  {
    PlugInorder(p.up, Settled(p, t));
    SettledInorder(p, t);
    CloseSequence(p, t);
  }

  /** When the loop stops, painting the place it stopped at black makes up for the shortage. */
  lemma ShortageMadeUp<T>(p: Path<T>, t: Tree<T>, h: nat, total: nat)
    requires ShortAt(p, t, h, total) && (p.Top? || IsRed(t))
    ensures RedBlack(Plug(p, Paint(t, Black)))
  {
    var u := Paint(t, Black);
    if IsRed(t) {
      assert Balanced(u, h + 1);
      PlugBalanced(p, u, h + 1, total);
      PlugNoRedRed(p, u);
    } else {
      assert u == t;
    }
  }

  // ---------- taking an element out ----------

  /** `p` leads from the right child of `x` down to the left: to the successor of `x`. */
  ghost predicate OnSpine<T>(p: Path<T>, x: T) {
    !p.Top? && if p.item == x then p.InRight? else p.InLeft? && OnSpine(p.up, x)
  }

  ghost function AboveSpine<T>(p: Path<T>, x: T): Path<T>
    requires OnSpine(p, x)
  {
    if p.item == x then p.up else AboveSpine(p.up, x)
  }

  /** `y` in the place of `x`. */
  ghost function Respine<T>(p: Path<T>, x: T, y: T): Path<T>
    requires OnSpine(p, x)
  {
    if p.item == x then InRight(p.up, p.color, y, p.sibling)
    else InLeft(Respine(p.up, x, y), p.color, p.item, p.sibling)
  }

  ghost function BeforeSpine<T>(p: Path<T>, x: T): seq<T>
    requires OnSpine(p, x)
  {
    if p.item == x then Before(p.up) + Inorder(p.sibling) else BeforeSpine(p.up, x)
  }

  lemma {:induction false} RespineSequence<T>(p: Path<T>, x: T, y: T)
    requires OnSpine(p, x)
    ensures Before(p) == BeforeSpine(p, x) + [x]
    ensures Before(Respine(p, x, y)) == BeforeSpine(p, x) + [y]
    ensures After(Respine(p, x, y)) == After(p)
  {
    if p.item != x {
      RespineSequence(p.up, x, y);
    }
  }

  lemma {:induction false} RespineColors<T>(p: Path<T>, x: T, y: T, h: nat, total: nat)
    requires OnSpine(p, x) && NoRedRedPath(p) && BalancedPath(p, h, total)
    ensures var q := Respine(p, x, y);
      NoRedRedPath(q) && BalancedPath(q, h, total) && !q.Top? && q.color == p.color
  {
    if p.item != x {
      RespineColors(p.up, x, y, if p.color.Red? then h else h + 1, total);
    }
  }

  lemma {:induction false} RespineItems<T>(p: Path<T>, x: T, y: T, s: set<T>)
    requires OnSpine(p, x) && DistinctPath(p, s) && y !in PathItems(p) && y !in s
    ensures DistinctPath(Respine(p, x, y), s)
    ensures x in PathItems(p) && x !in s
    ensures PathItems(Respine(p, x, y)) == PathItems(p) - {x} + {y}
    ensures !AboveSpine(p, x).Top? ==> var m := AboveSpine(p, x).item; m in PathItems(p) && m != x && m !in s
  {
    var s' := s + {p.item} + Items(p.sibling);
    DistinctPathDisjoint(p.up, s');
    if p.item == x {
      DistinctPathGrow(p.up, s', s + {y} + Items(p.sibling));
    } else {
      RespineItems(p.up, x, y, s');
    }
  }

  /** What the loss of a node with at most one child does to the black heights. */
  lemma SplicedColors<T>(p: Path<T>, t: Tree<T>, u: Tree<T>) returns (h: nat, total: nat)
    requires RedBlack(Plug(p, t)) && OnlyChild(t, u)
    ensures t.color.Black? ==> ShortAt(p, u, h, total)
    ensures t.color.Red? ==> FineAt(p, u, h, total)
  {
    total :| Balanced(Plug(p, t), total);
    h := UnplugBalanced(p, t, total);
    PlugBalanced(p, t, h, total);
    PlugNoRedRed(p, t);
    if t.color.Black? {
      h := h - 1;
    }
  }

  /** A black part of the right height at `p`. */
  ghost predicate FineAt<T>(p: Path<T>, t: Tree<T>, h: nat, total: nat) {
    NoRedRed(t) && !IsRed(t) && Balanced(t, h) && NoRedRedPath(p) && BalancedPath(p, h, total)
  }

  lemma FinePlug<T>(p: Path<T>, t: Tree<T>, h: nat, total: nat)
    requires FineAt(p, t, h, total)
    ensures RedBlack(Plug(p, t))
  {
    PlugBalanced(p, t, h, total);
    PlugNoRedRed(p, t);
  }

  lemma PlugSequence<T>(p: Path<T>, t: Tree<T>)
    ensures Inorder(Plug(p, t)) == Sequence(p, t)
  {
    PlugInorder(p, t);
  }

  lemma PaintedSequence<T>(p: Path<T>, t: Tree<T>, c: Color)
    ensures Inorder(Plug(p, Paint(t, c))) == Sequence(p, t)
  {
    PlugInorder(p, Paint(t, c));
  }

  /** `u` is all that is left below `t` when the root of `t`, with at most one child, goes. */
  ghost predicate OnlyChild<T>(t: Tree<T>, u: Tree<T>) {
    t.Node? && ((t.left.Leaf? && u == t.right) || (t.right.Leaf? && u == t.left))
  }

  /** `x` leaves: either `x` itself is spliced out at `p`, or its successor is and takes its place. */
  ghost function Spliced<T>(p: Path<T>, x: T, y: T): Path<T>
    requires x == y || OnSpine(p, x)
  {
    if x == y then p else Respine(p, x, y)
  }

  lemma SplicedSequence<T>(p: Path<T>, t: Tree<T>, u: Tree<T>, x: T) returns (a: seq<T>, b: seq<T>)
    requires OnlyChild(t, u) && (x == t.item || (OnSpine(p, x) && t.left.Leaf?))
    ensures Inorder(Plug(p, t)) == a + [x] + b
    ensures Sequence(Spliced(p, x, t.item), u) == a + b
  {
    hide Plug, OnSpine, Before, After;
    PlugInorder(p, t);
    if x == t.item {
      a, b := Before(p) + Inorder(t.left), Inorder(t.right) + After(p);
      SplitMiddle(Before(p), Inorder(t.left), x, Inorder(t.right), After(p));
    } else {
      RespineSequence(p, x, t.item);
      a, b := BeforeSpine(p, x), [t.item] + Inorder(t.right) + After(p);
      SplitFront(BeforeSpine(p, x), x, t.item, Inorder(t.right), After(p));
    }
  }

  lemma SplitMiddle<T>(before: seq<T>, l: seq<T>, x: T, r: seq<T>, after: seq<T>)
    ensures before + (l + [x] + r) + after == (before + l) + [x] + (r + after)
    ensures l == [] ==> before + r + after == (before + l) + (r + after)
    ensures r == [] ==> before + l + after == (before + l) + (r + after)
  {
  }

  lemma SplitFront<T>(before: seq<T>, x: T, y: T, r: seq<T>, after: seq<T>)
    ensures (before + [x]) + ([] + [y] + r) + after == before + [x] + ([y] + r + after)
    ensures (before + [y]) + r + after == before + ([y] + r + after)
  {
  }

  /** Splicing keeps the colors of the path: a black node that goes leaves a shortage, a red one does not. */
  lemma SplicedAt<T>(p: Path<T>, t: Tree<T>, u: Tree<T>, x: T) returns (h: nat, total: nat)
    requires RedBlack(Plug(p, t)) && OnlyChild(t, u) && !p.Top? && (x == t.item || OnSpine(p, x))
    ensures t.color.Black? ==> ShortAt(Spliced(p, x, t.item), u, h, total)
    ensures t.color.Red? ==> FineAt(Spliced(p, x, t.item), u, h, total)
  {
    h, total := SplicedColors(p, t, u);
    if x != t.item {
      RespineColors(p, x, t.item, if t.color.Black? then h + 1 else h, total);
    }
  }

  /** A root with at most one child goes: the child, painted black, is the whole tree. */
  lemma RootSpliced<T>(t: Tree<T>, u: Tree<T>)
    requires RedBlack(t) && OnlyChild(t, u)
    ensures RedBlack(Paint(u, Black)) && Inorder(Paint(u, Black)) == Inorder(u)
  {
    var h: nat :| Balanced(t, h);
    assert NoRedRed(u) && Balanced(u, h - 1);
    assert Balanced(Paint(u, Black), if IsRed(u) then h else h - 1);
  }
}
