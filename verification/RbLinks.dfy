/** Linked red-black trees as snapshots of the heap.

  A `Heap` holds the link and color fields of a set of nodes.  `At` says that the snapshot is a tree
  plugged into a path with correct parent links; each elementary rewriting of rbtree.lua is a
  function on snapshots here, with a lemma telling what it does to the tree. */
module RbLinks {
  import opened RbShape
  import opened Tasks

  datatype Cell = Cell(left: Task?, right: Task?, parent: Task?, color: Color)

  /** `nil` is the sentinel: every missing child is a link to it. */
  datatype Heap = Heap(root: Task?, nil: Task, cells: map<Task, Cell>)
  {
    ghost function Painted(n: Task, c: Color): Heap
      requires n in cells
    {
      this.(cells := cells[n := cells[n].(color := c)])
    }
  }

  /** The nodes reached downwards from `n` are, with their colors, those of `t`. */
  ghost predicate Linked(h: Heap, t: Tree<Task>, n: Task?) {
    match t
    case Leaf => n == h.nil
    case Node(c, l, x, r) =>
      && n == x && x != h.nil && x in h.cells && h.cells[x].color == c
      && Linked(h, l, h.cells[x].left) && Linked(h, r, h.cells[x].right)
  }

  /** The nodes above `n`, and beside the way up from it, are those of `p`. */
  ghost predicate LinkedPath(h: Heap, p: Path<Task>, n: Task?) {
    match p
    case Top => h.root == n
    case InLeft(up, c, x, s) =>
      && x != h.nil && x in h.cells && h.cells[x].left == n && h.cells[x].color == c
      && Linked(h, s, h.cells[x].right) && LinkedPath(h, up, x)
    case InRight(up, c, x, s) =>
      && x != h.nil && x in h.cells && h.cells[x].right == n && h.cells[x].color == c
      && Linked(h, s, h.cells[x].left) && LinkedPath(h, up, x)
  }

  /** The child `n` of `x` points back to it; the root is nobody's child. */
  ghost predicate PointsBack(h: Heap, s: set<Task>, x: Task, n: Task?) {
    n != h.root && (n != h.nil ==> n != null && n in s && n in h.cells && h.cells[n].parent == x)
  }

  ghost predicate Parented(h: Heap, s: set<Task>) {
    forall x :: x in s && x in h.cells ==> PointsBack(h, s, x, h.cells[x].left) && PointsBack(h, s, x, h.cells[x].right)
  }

  /** Downward links and colors of the snapshot are those of `Plug(p, t)`; `n` is the root of the part `t`. */
  ghost predicate Shaped(h: Heap, p: Path<Task>, t: Tree<Task>, n: Task?) {
    Linked(h, t, n) && LinkedPath(h, p, n) && Distinct(t) && DistinctPath(p, Items(t))
  }

  /** `Shaped`, with correct parent links. */
  ghost predicate At(h: Heap, p: Path<Task>, t: Tree<Task>, n: Task?) {
    Shaped(h, p, t, n) && Parented(h, PathItems(p) + Items(t))
  }

  ghost predicate SameDown(a: Cell, b: Cell) { a.left == b.left && a.right == b.right && a.color == b.color }

  lemma {:induction false} LinkedFrame(h: Heap, h': Heap, t: Tree<Task>, n: Task?)
    requires Linked(h, t, n) && h'.nil == h.nil
    requires forall x :: x in Items(t) && x in h.cells ==>
      x in h'.cells && SameDown(h.cells[x], h'.cells[x])
    ensures Linked(h', t, n)
  {
    match t
    case Leaf =>
    case Node(_, l, x, r) =>
      LinkedFrame(h, h', l, h.cells[x].left);
      LinkedFrame(h, h', r, h.cells[x].right);
  }

  lemma {:induction false} LinkedPathFrame(h: Heap, h': Heap, p: Path<Task>, n: Task?)
    requires LinkedPath(h, p, n) && h'.nil == h.nil && h'.root == h.root
    requires forall x :: x in PathItems(p) && x in h.cells ==>
      x in h'.cells && SameDown(h.cells[x], h'.cells[x])
    ensures LinkedPath(h', p, n)
  {
    match p
    case Top =>
    case InLeft(up, _, x, s) =>
      LinkedFrame(h, h', s, h.cells[x].right);
      LinkedPathFrame(h, h', up, x);
    case InRight(up, _, x, s) =>
      LinkedFrame(h, h', s, h.cells[x].left);
      LinkedPathFrame(h, h', up, x);
  }

  lemma LinkedRoot(h: Heap, t: Tree<Task>, n: Task?)
    requires Linked(h, t, n)
    ensures if t.Leaf? then n == h.nil else n == t.item && n != h.nil && n in Items(t) && n in h.cells
  {
  }

  lemma {:induction false} LinkedCells(h: Heap, t: Tree<Task>, n: Task?)
    requires Linked(h, t, n)
    ensures forall x :: x in Items(t) ==> x in h.cells && x != h.nil
  {
    match t
    case Leaf =>
    case Node(_, l, x, r) =>
      LinkedCells(h, l, h.cells[x].left);
      LinkedCells(h, r, h.cells[x].right);
  }

  lemma {:induction false} LinkedPathCells(h: Heap, p: Path<Task>, n: Task?)
    requires LinkedPath(h, p, n)
    ensures forall x :: x in PathItems(p) ==> x in h.cells && x != h.nil
  {
    match p
    case Top =>
    case InLeft(up, _, x, s) =>
      LinkedCells(h, s, h.cells[x].right);
      LinkedPathCells(h, up, x);
    case InRight(up, _, x, s) =>
      LinkedCells(h, s, h.cells[x].left);
      LinkedPathCells(h, up, x);
  }

  lemma AtCells(h: Heap, p: Path<Task>, t: Tree<Task>, n: Task?)
    requires At(h, p, t, n)
    ensures PathItems(p) + Items(t) <= h.cells.Keys && h.nil !in PathItems(p) + Items(t)
  {
    LinkedCells(h, t, n);
    LinkedPathCells(h, p, n);
  }

  lemma AtFrame(h: Heap, h': Heap, p: Path<Task>, t: Tree<Task>, n: Task?)
    requires At(h, p, t, n) && h'.nil == h.nil && h'.root == h.root
    requires forall x :: x in PathItems(p) + Items(t) && x in h.cells ==> x in h'.cells && h'.cells[x] == h.cells[x]
    ensures At(h', p, t, n)
  {
    AtCells(h, p, t, n);
    LinkedFrame(h, h', t, n);
    LinkedPathFrame(h, h', p, n);
    var s := PathItems(p) + Items(t);
    forall z | z in s && z in h'.cells ensures PointsBack(h', s, z, h'.cells[z].left) && PointsBack(h', s, z, h'.cells[z].right) {
      assert PointsBack(h, s, z, h.cells[z].left) && PointsBack(h, s, z, h.cells[z].right);
    }
  }

  lemma AtRoot(h: Heap, p: Path<Task>, t: Tree<Task>, n: Task?)
    requires At(h, p, t, n)
    ensures if t.Leaf? then n == h.nil else n == t.item && n != h.nil
  {
    LinkedRoot(h, t, n);
  }

  /** What the snapshot knows about the place of a part in the whole. */
  lemma PlaceOf(h: Heap, p: Path<Task>, t: Tree<Task>, n: Task?)
    requires At(h, p, t, n)
    ensures Items(t) !! PathItems(p)
    ensures p.Top? <==> n == h.root
    ensures !p.Top? ==> p.item in PathItems(p) && p.item !in Items(t) && p.item in h.cells && p.item != h.nil
    ensures !p.Top? ==> h.cells[p.item].color == p.color
    ensures !p.Top? && n != h.nil ==> n in h.cells && h.cells[n].parent == p.item
    ensures p.InLeft? ==> h.cells[p.item].left == n && (n != h.nil ==> h.cells[p.item].right != n)
    ensures p.InRight? ==> h.cells[p.item].right == n && (n != h.nil ==> h.cells[p.item].left != n)
  {
    DistinctPathDisjoint(p, Items(t));
    LinkedRoot(h, t, n);
    if !p.Top? {
      LinkedRoot(h, p.sibling, if p.InLeft? then h.cells[p.item].right else h.cells[p.item].left);
      assert p.item in PathItems(p) + Items(t);
    }
  }

  // ---------- rotation ----------

  ghost function RotatedLeft(t: Tree<Task>): Tree<Task>
    requires t.Node? && t.right.Node?
  {
    Node(t.right.color, Node(t.color, t.left, t.item, t.right.left), t.right.item, t.right.right)
  }

  /** The change left_rotate makes: `y` takes the place of its parent `x`. */
  ghost predicate TurnedLeft(h: Heap, h': Heap, x: Task, y: Task) {
    && h'.nil == h.nil && h'.cells.Keys == h.cells.Keys
    && x in h.cells && y in h.cells
    && h'.root == (if x == h.root then y else h.root)
    && h'.cells[x].right == h.cells[y].left && h'.cells[x].left == h.cells[x].left
    && h'.cells[y].left == x && h'.cells[y].right == h.cells[y].right
    && (forall z :: z in h.cells ==> h'.cells[z].color == h.cells[z].color)
    && (forall z :: z in h.cells && z != x && z != y ==>
         if x != h.root && z == h.cells[x].parent then
           && h'.cells[z].left == (if h.cells[z].left == x then y else h.cells[z].left)
           && h'.cells[z].right == (if h.cells[z].left != x then y else h.cells[z].right)
         else h'.cells[z].left == h.cells[z].left && h'.cells[z].right == h.cells[z].right)
    && (forall z :: z in h.cells ==>
         h'.cells[z].parent == if z == y then h.cells[x].parent else if z == x then y
                               else if z == h.cells[y].left then x else h.cells[z].parent)
  }

  /** What left_rotate needs of the links around `x` and its right child `y`. */
  ghost predicate CanTurnLeft(h: Heap, x: Task, y: Task) {
    && h.nil !in h.cells && x in h.cells && y in h.cells && x != y && h.cells[x].right == y
    && h.cells[x].left != y
    && (var b := h.cells[y].left; b != h.nil ==> b != null && b in h.cells && b != x && b != y)
    && (x != h.root ==> var m := h.cells[x].parent; m != null && m in h.cells && m !in {x, y, h.cells[y].left})
  }

  /** The five parts of a tree that can be rotated left, and that they do not overlap. */
  lemma SpreadLeft(h: Heap, p: Path<Task>, t: Tree<Task>, x: Task)
    requires t.Node? && t.right.Node? && At(h, p, t, x)
    ensures t.item == x
    ensures var y := t.right.item;
      && x in h.cells && h.cells[x].right == y && y != x && y in h.cells && y != h.nil && x != h.nil
      && h.cells[x].color == t.color && h.cells[y].color == t.right.color
      && Linked(h, t.left, h.cells[x].left)
      && Linked(h, t.right.left, h.cells[y].left)
      && Linked(h, t.right.right, h.cells[y].right)
      && x !in Items(t.left) && x !in Items(t.right.left) && x !in Items(t.right.right)
      && y !in Items(t.left) && y !in Items(t.right.left) && y !in Items(t.right.right)
      && x !in PathItems(p) && y !in PathItems(p)
      && Items(t.left) !! Items(t.right.left) !! Items(t.right.right) !! PathItems(p)
      && Items(t) == Items(t.left) + {x, y} + Items(t.right.left) + Items(t.right.right)
    ensures Distinct(RotatedLeft(t)) && Items(RotatedLeft(t)) == Items(t)
  {
    PlaceOf(h, p, t, x);
    assert Linked(h, t.right, h.cells[x].right);
    assert Distinct(t.right);
  }

  lemma CanTurnLeftAt(h: Heap, p: Path<Task>, t: Tree<Task>, x: Task)
    requires t.Node? && t.right.Node? && At(h, p, t, x) && h.nil !in h.cells
    ensures CanTurnLeft(h, x, t.right.item)
  {
    SpreadLeft(h, p, t, x);
    PlaceOf(h, p, t, x);
    LinkedRoot(h, t.left, h.cells[x].left);
    LinkedRoot(h, t.right.left, h.cells[t.right.item].left);
  }

  lemma TurnedLeftLinked(h: Heap, h': Heap, p: Path<Task>, t: Tree<Task>, x: Task)
    requires t.Node? && t.right.Node? && At(h, p, t, x) && TurnedLeft(h, h', x, t.right.item)
    ensures Linked(h', RotatedLeft(t), t.right.item)
  {
    SpreadLeft(h, p, t, x);
    PlaceOf(h, p, t, x);
    var y := t.right.item;
    LinkedFrame(h, h', t.left, h.cells[x].left);
    LinkedFrame(h, h', t.right.left, h.cells[y].left);
    LinkedFrame(h, h', t.right.right, h.cells[y].right);
  }

  lemma TurnedLeftPath(h: Heap, h': Heap, p: Path<Task>, t: Tree<Task>, x: Task)
    requires t.Node? && t.right.Node? && At(h, p, t, x) && TurnedLeft(h, h', x, t.right.item)
    ensures LinkedPath(h', p, t.right.item)
  {
    SpreadLeft(h, p, t, x);
    PlaceOf(h, p, t, x);
    if !p.Top? {
      DistinctPathDisjoint(p.up, Items(t) + {p.item} + Items(p.sibling));
      LinkedFrame(h, h', p.sibling, if p.InLeft? then h.cells[p.item].right else h.cells[p.item].left);
      LinkedPathFrame(h, h', p.up, p.item);
    }
  }

  lemma TurnedLeftPointsBack(h: Heap, h': Heap, s: set<Task>, x: Task, y: Task, z: Task)
    requires TurnedLeft(h, h', x, y) && Parented(h, s) && s <= h.cells.Keys && h.nil !in s
    requires x in s && y in s && x != y && h.cells[x].right == y
    requires h.cells[x].left !in {x, y} && h.cells[y].left !in {x, y} && h.cells[y].right !in {x, y}
    requires h.cells[y].left != h.nil ==> h.cells[y].left != h.cells[y].right
    requires x != h.root ==>
      var m := h.cells[x].parent;
      m != null && m in s && m != x && m != y && (h.cells[m].left == x || h.cells[m].right == x) && h.cells[m].left != h.cells[m].right
    requires z in s
    ensures PointsBack(h', s, z, h'.cells[z].left) && PointsBack(h', s, z, h'.cells[z].right)
  {
    assert PointsBack(h, s, z, h.cells[z].left) && PointsBack(h, s, z, h.cells[z].right);
    assert PointsBack(h, s, x, h.cells[x].left) && PointsBack(h, s, x, y);
    assert PointsBack(h, s, y, h.cells[y].left) && PointsBack(h, s, y, h.cells[y].right);
  }

  lemma TurnedLeftParented(h: Heap, h': Heap, p: Path<Task>, t: Tree<Task>, x: Task)
    requires t.Node? && t.right.Node? && At(h, p, t, x) && TurnedLeft(h, h', x, t.right.item)
    ensures Parented(h', PathItems(p) + Items(t))
  {
    SpreadLeft(h, p, t, x);
    PlaceOf(h, p, t, x);
    AtCells(h, p, t, x);
    var y := t.right.item;
    LinkedRoot(h, t.left, h.cells[x].left);
    LinkedRoot(h, t.right.left, h.cells[y].left);
    LinkedRoot(h, t.right.right, h.cells[y].right);
    var s := PathItems(p) + Items(t);
    forall z | z in s && z in h'.cells ensures PointsBack(h', s, z, h'.cells[z].left) && PointsBack(h', s, z, h'.cells[z].right) {
      TurnedLeftPointsBack(h, h', s, x, y, z);
    }
  }

  lemma TurnedLeftAt(h: Heap, h': Heap, p: Path<Task>, t: Tree<Task>, x: Task)
    requires t.Node? && t.right.Node? && At(h, p, t, x) && TurnedLeft(h, h', x, t.right.item)
    ensures At(h', p, RotatedLeft(t), t.right.item)
    ensures Items(RotatedLeft(t)) == Items(t)
  {
    SpreadLeft(h, p, t, x);
    TurnedLeftLinked(h, h', p, t, x);
    TurnedLeftPath(h, h', p, t, x);
    TurnedLeftParented(h, h', p, t, x);
  }

  lemma RotatedLeftInorder(t: Tree<Task>)
    requires t.Node? && t.right.Node?
    ensures Inorder(RotatedLeft(t)) == Inorder(t)
  {
    Reassociate(Inorder(t.left), [t.item], Inorder(t.right.left), [t.right.item], Inorder(t.right.right));
  }

  // ---------- the mirror image ----------

  ghost function Flip(t: Tree<Task>): Tree<Task> {
    match t
    case Leaf => Leaf
    case Node(c, l, x, r) => Node(c, Flip(r), x, Flip(l))
  }

  ghost function FlipPath(p: Path<Task>): Path<Task> {
    match p
    case Top => Top
    case InLeft(up, c, x, s) => InRight(FlipPath(up), c, x, Flip(s))
    case InRight(up, c, x, s) => InLeft(FlipPath(up), c, x, Flip(s))
  }

  ghost function FlipHeap(h: Heap): Heap {
    h.(cells := map x | x in h.cells :: Cell(h.cells[x].right, h.cells[x].left, h.cells[x].parent, h.cells[x].color))
  }

  lemma {:induction false} FlipTwice(t: Tree<Task>)
    ensures Flip(Flip(t)) == t && Items(Flip(t)) == Items(t) && (Distinct(Flip(t)) <==> Distinct(t))
  {
    match t
    case Leaf =>
    case Node(_, l, _, r) =>
      FlipTwice(l);
      FlipTwice(r);
  }

  lemma {:induction false} FlipPathTwice(p: Path<Task>)
    ensures FlipPath(FlipPath(p)) == p && PathItems(FlipPath(p)) == PathItems(p)
  {
    if !p.Top? {
      FlipTwice(p.sibling);
      FlipPathTwice(p.up);
    }
  }

  lemma {:induction false} FlipDistinctPath(p: Path<Task>, s: set<Task>)
    requires DistinctPath(p, s)
    ensures DistinctPath(FlipPath(p), s)
  {
    if !p.Top? {
      FlipTwice(p.sibling);
      FlipDistinctPath(p.up, s + {p.item} + Items(p.sibling));
    }
  }

  lemma {:induction false} FlipLinked(h: Heap, t: Tree<Task>, n: Task?)
    requires Linked(h, t, n)
    ensures Linked(FlipHeap(h), Flip(t), n)
  {
    match t
    case Leaf =>
    case Node(_, l, x, r) =>
      FlipLinked(h, l, h.cells[x].left);
      FlipLinked(h, r, h.cells[x].right);
  }

  lemma {:induction false} FlipLinkedPath(h: Heap, p: Path<Task>, n: Task?)
    requires LinkedPath(h, p, n)
    ensures LinkedPath(FlipHeap(h), FlipPath(p), n)
  {
    if !p.Top? {
      FlipLinked(h, p.sibling, if p.InLeft? then h.cells[p.item].right else h.cells[p.item].left);
      FlipLinkedPath(h, p.up, p.item);
    }
  }

  lemma FlipAt(h: Heap, p: Path<Task>, t: Tree<Task>, n: Task?)
    requires At(h, p, t, n)
    ensures At(FlipHeap(h), FlipPath(p), Flip(t), n)
  {
    FlipLinked(h, t, n);
    FlipLinkedPath(h, p, n);
    FlipTwice(t);
    FlipPathTwice(p);
    FlipDistinctPath(p, Items(t));
  }

  lemma FlipHeapTwice(h: Heap)
    ensures FlipHeap(FlipHeap(h)) == h
  {
  }

  /** The change right_rotate makes is the mirror image of that of left_rotate. */
  ghost predicate TurnedRight(h: Heap, h': Heap, x: Task, y: Task) {
    TurnedLeft(FlipHeap(h), FlipHeap(h'), x, y)
  }

  ghost function RotatedRight(t: Tree<Task>): Tree<Task>
    requires t.Node? && t.left.Node?
  {
    Node(t.left.color, t.left.left, t.left.item, Node(t.color, t.left.right, t.item, t.right))
  }

  lemma FlipRotated(t: Tree<Task>)
    requires t.Node? && t.left.Node?
    ensures Flip(t).Node? && Flip(t).right.Node? && Flip(t).right.item == t.left.item
    ensures Flip(RotatedLeft(Flip(t))) == RotatedRight(t)
    ensures Items(RotatedRight(t)) == Items(t)
  {
    FlipTwice(t);
    FlipTwice(t.left);
    FlipTwice(RotatedRight(t));
    assert Flip(t).right == Flip(t.left);
    assert Flip(RotatedRight(t)) == RotatedLeft(Flip(t));
  }

  lemma TurnedRightAt(h: Heap, h': Heap, p: Path<Task>, t: Tree<Task>, x: Task)
    requires t.Node? && t.left.Node? && At(h, p, t, x) && TurnedRight(h, h', x, t.left.item)
    ensures At(h', p, RotatedRight(t), t.left.item)
    ensures Items(RotatedRight(t)) == Items(t)
  {
    var u, q := Flip(t), FlipPath(p);
    FlipRotated(t);
    FlipAt(h, p, t, x);
    TurnedLeftAt(FlipHeap(h), FlipHeap(h'), q, u, x);
    FlipAt(FlipHeap(h'), q, RotatedLeft(u), t.left.item);
    FlipPathTwice(p);
    FlipHeapTwice(h');
  }

  ghost predicate CanTurnRight(h: Heap, x: Task, y: Task) {
    && h.nil !in h.cells && x in h.cells && y in h.cells && x != y && h.cells[x].left == y
    && h.cells[x].right != y
    && (var b := h.cells[y].right; b != h.nil ==> b != null && b in h.cells && b != x && b != y)
    && (x != h.root ==> var m := h.cells[x].parent; m != null && m in h.cells && m !in {x, y, h.cells[y].right})
  }

  lemma CanTurnRightAt(h: Heap, p: Path<Task>, t: Tree<Task>, x: Task)
    requires t.Node? && t.left.Node? && At(h, p, t, x) && h.nil !in h.cells
    ensures CanTurnRight(h, x, t.left.item)
  {
    FlipAt(h, p, t, x);
    FlipRotated(t);
    CanTurnLeftAt(FlipHeap(h), FlipPath(p), Flip(t), x);
  }

  lemma RotatedRightInorder(t: Tree<Task>)
    requires t.Node? && t.left.Node?
    ensures Inorder(RotatedRight(t)) == Inorder(t)
  {
    Reassociate(Inorder(t.left.left), [t.left.item], Inorder(t.left.right), [t.item], Inorder(t.right));
  }

  // ---------- moving the focus ----------

  lemma Ascend(h: Heap, p: Path<Task>, t: Tree<Task>, n: Task?)
    requires Shaped(h, p, t, n) && !p.Top?
    ensures Shaped(h, p.up, Close(p, t), p.item)
    ensures PathItems(p.up) + Items(Close(p, t)) == PathItems(p) + Items(t)
  {
    assert Items(Close(p, t)) == Items(t) + {p.item} + Items(p.sibling);
  }

  lemma AscendAt(h: Heap, p: Path<Task>, t: Tree<Task>, n: Task?)
    requires At(h, p, t, n) && !p.Top?
    ensures At(h, p.up, Close(p, t), p.item)
  {
    hide Shaped;
    Ascend(h, p, t, n);
  }

  lemma Descend(h: Heap, p: Path<Task>, t: Tree<Task>, x: Task)
    requires At(h, p, t, x) && t.Node?
    ensures x in h.cells && x == t.item && x != h.nil && h.cells[x].color == t.color
    ensures At(h, InLeft(p, t.color, x, t.right), t.left, h.cells[x].left)
    ensures At(h, InRight(p, t.color, x, t.left), t.right, h.cells[x].right)
    ensures if t.left.Leaf? then h.cells[x].left == h.nil else h.cells[x].left == t.left.item && t.left.item != h.nil
    ensures if t.right.Leaf? then h.cells[x].right == h.nil else h.cells[x].right == t.right.item && t.right.item != h.nil
  {
    assert Items(t.left) + {x} + Items(t.right) == Items(t) == Items(t.right) + {x} + Items(t.left);
    assert PathItems(InLeft(p, t.color, x, t.right)) + Items(t.left) == PathItems(p) + Items(t);
    assert PathItems(InRight(p, t.color, x, t.left)) + Items(t.right) == PathItems(p) + Items(t);
  }

  lemma {:induction false} Whole(h: Heap, p: Path<Task>, t: Tree<Task>, n: Task?)
    requires At(h, p, t, n)
    ensures At(h, Top, Plug(p, t), h.root)
  {
    if !p.Top? {
      AscendAt(h, p, t, n);
      Whole(h, p.up, Close(p, t), p.item);
    }
  }

  lemma {:induction false} Part(h: Heap, p: Path<Task>, t: Tree<Task>) returns (n: Task?)
    requires At(h, Top, Plug(p, t), h.root)
    ensures At(h, p, t, n)
  {
    if p.Top? {
      n := h.root;
    } else {
      var m := Part(h, p.up, Close(p, t));
      Descend(h, p.up, Close(p, t), p.item);
      n := if p.InLeft? then h.cells[p.item].left else h.cells[p.item].right;
    }
  }

  // ---------- painting ----------

  lemma PaintedAt(h: Heap, p: Path<Task>, t: Tree<Task>, x: Task, c: Color)
    requires At(h, p, t, x) && t.Node?
    ensures x in h.cells && At(h.Painted(x, c), p, Paint(t, c), x)
  {
    var h' := h.Painted(x, c);
    DistinctPathDisjoint(p, Items(t));
    LinkedFrame(h, h', t.left, h.cells[x].left);
    LinkedFrame(h, h', t.right, h.cells[x].right);
    LinkedPathFrame(h, h', p, x);
    assert Items(Paint(t, c)) == Items(t);
    var s := PathItems(p) + Items(t);
    forall z | z in s && z in h'.cells ensures PointsBack(h', s, z, h'.cells[z].left) && PointsBack(h', s, z, h'.cells[z].right) {
      assert PointsBack(h, s, z, h.cells[z].left) && PointsBack(h, s, z, h.cells[z].right);
    }
  }

  /** Painting the parent and the uncle of a node black and its grandparent red. */
  lemma RecoloredAt(h: Heap, p: Path<Task>, t: Tree<Task>, n: Task?)
    requires At(h, p, t, n) && !p.Top? && !p.up.Top? && p.up.sibling.Node?
    ensures var u, g := p.up.sibling.item, p.up.item;
      && p.item in h.cells && u in h.cells && g in h.cells
      && At(h.Painted(p.item, Black).Painted(u, Black).Painted(g, Red), p.up.up,
            Recolored(p, t), g)
  {
    var u, g := p.up.sibling.item, p.up.item;
    AscendAt(h, p, t, n);
    PaintedAt(h, p.up, Close(p, t), p.item, Black);
    var h1, t1 := h.Painted(p.item, Black), Paint(Close(p, t), Black);
    AscendAt(h1, p.up, t1, p.item);
    var t2 := Close(p.up, t1);
    Descend(h1, p.up.up, t2, g);
    var q := if p.up.InLeft? then InRight(p.up.up, p.up.color, g, t1) else InLeft(p.up.up, p.up.color, g, t1);
    LinkedRoot(h1, p.up.sibling, if p.up.InLeft? then h1.cells[g].right else h1.cells[g].left);
    PaintedAt(h1, q, p.up.sibling, u, Black);
    var h2 := h1.Painted(u, Black);
    AscendAt(h2, q, Paint(p.up.sibling, Black), u);
    PaintedAt(h2, p.up.up, Close(q, Paint(p.up.sibling, Black)), g, Red);
  }

  /** Painting a node's parent and grandparent. */
  lemma ParentsPaintedAt(h: Heap, p: Path<Task>, t: Tree<Task>, n: Task?)
    requires At(h, p, t, n) && !p.Top? && !p.up.Top?
    ensures var g := p.up.item;
      && p.item in h.cells && g in h.cells
      && At(h.Painted(p.item, Black).Painted(g, Red), p.up.up, Paint(Close(p.up, Paint(Close(p, t), Black)), Red), g)
  {
    AscendAt(h, p, t, n);
    PaintedAt(h, p.up, Close(p, t), p.item, Black);
    var h1, t1 := h.Painted(p.item, Black), Paint(Close(p, t), Black);
    AscendAt(h1, p.up, t1, p.item);
    PaintedAt(h1, p.up.up, Close(p.up, t1), p.up.item, Red);
  }

  // ---------- linking a new leaf ----------

  /** `n` has become a red child of `m`, on the left or on the right. */
  ghost predicate Attached(h: Heap, h': Heap, m: Task, n: Task, onLeft: bool) {
    && m in h.cells && n in h.cells && m != n && h.nil !in h.cells
    && h' == h.(cells := h.cells[n := Cell(h.nil, h.nil, m, Red)]
                        [m := if onLeft then h.cells[m].(left := n) else h.cells[m].(right := n)])
  }

  lemma AttachedPointsBack(h: Heap, h': Heap, s: set<Task>, m: Task, n: Task, onLeft: bool)
    requires Parented(h, s) && s <= h.cells.Keys && m in s && n !in s && Attached(h, h', m, n, onLeft)
    requires h.root != n && h.root != h.nil
    ensures Parented(h', s + {n})
  {
    var s' := s + {n};
    forall z | z in s' && z in h'.cells ensures PointsBack(h', s', z, h'.cells[z].left) && PointsBack(h', s', z, h'.cells[z].right) {
      if z != n {
        assert PointsBack(h, s, z, h.cells[z].left) && PointsBack(h, s, z, h.cells[z].right);
      }
    }
  }

  lemma AttachedAt(h: Heap, h': Heap, p: Path<Task>, m: Task, n: Task)
    requires At(h, p, Leaf, h.nil) && !p.Top? && p.item == m
    requires n !in PathItems(p) && h.root != n && h.root != h.nil && Attached(h, h', m, n, p.InLeft?)
    ensures At(h', p, Node(Red, Leaf, n, Leaf), n)
  {
    DistinctPathGrow(p, {}, {n});
    DistinctPathDisjoint(p.up, {n} + {p.item} + Items(p.sibling));
    assert Items(Node(Red, Leaf, n, Leaf)) == {n};
    LinkedFrame(h, h', p.sibling, if p.InLeft? then h.cells[m].right else h.cells[m].left);
    LinkedPathFrame(h, h', p.up, m);
    AtCells(h, p, Leaf, h.nil);
    assert PathItems(p) + Items<Task>(Leaf) == PathItems(p);
    AttachedPointsBack(h, h', PathItems(p), m, n, p.InLeft?);
  }

  /** The parent, the grandparent and the uncle of a node with a red parent, as the links give them. */
  lemma FindParents(h: Heap, p: Path<Task>, t: Tree<Task>, n: Task?)
    requires At(h, p, t, n) && t.Node? && !p.Top? && !p.up.Top?
    ensures Depth(p) == Depth(p.up.up) + 2 && n == t.item && n in h.cells && h.cells[n].parent == p.item && p.item in h.cells && h.cells[p.item].parent == p.up.item
    ensures p.InLeft? ==> n == h.cells[p.item].left && n != h.cells[p.item].right
    ensures p.InRight? ==> n == h.cells[p.item].right && n != h.cells[p.item].left
    ensures p.up.item in h.cells
    ensures p.up.InLeft? ==> h.cells[p.up.item].left == p.item && h.cells[p.up.item].right != p.item
    ensures p.up.InRight? ==> h.cells[p.up.item].right == p.item && h.cells[p.up.item].left != p.item
    ensures var u := if p.up.InLeft? then h.cells[p.up.item].right else h.cells[p.up.item].left;
      if p.up.sibling.Leaf? then u == h.nil
      else u == p.up.sibling.item && u != h.nil && u in h.cells && h.cells[u].color == p.up.sibling.color
  {
    PlaceOf(h, p, t, n);
    AscendAt(h, p, t, n);
    PlaceOf(h, p.up, Close(p, t), p.item);
  }

  // ---------- around a short part ----------

  /** The path to the sibling. */
  ghost function Across(p: Path<Task>, t: Tree<Task>): Path<Task>
    requires !p.Top?
  {
    if p.InLeft? then InRight(p.up, p.color, p.item, t) else InLeft(p.up, p.color, p.item, t)
  }

  lemma CrossAt(h: Heap, p: Path<Task>, t: Tree<Task>, n: Task?)
    requires At(h, p, t, n) && !p.Top?
    ensures p.item in h.cells && h.cells[p.item].color == p.color
    ensures n == if p.InLeft? then h.cells[p.item].left else h.cells[p.item].right
    ensures var w := if p.InLeft? then h.cells[p.item].right else h.cells[p.item].left;
      && At(h, Across(p, t), p.sibling, w)
      && (if p.sibling.Leaf? then w == h.nil else w == p.sibling.item && w != h.nil && w in h.cells && h.cells[w].color == p.sibling.color)
  {
    hide At;
    PlaceOf(h, p, t, n);
    AscendAt(h, p, t, n);
    Descend(h, p.up, Close(p, t), p.item);
    if p.sibling.Node? {
      Descend(h, Across(p, t), p.sibling, p.sibling.item);
    }
  }

  lemma PaintedPathAt(h: Heap, p: Path<Task>, t: Tree<Task>, n: Task?, c: Color)
    requires At(h, p, t, n) && !p.Top?
    ensures p.item in h.cells && At(h.Painted(p.item, c), WithColor(p, c), t, n)
  {
    hide At;
    CrossAt(h, p, t, n);
    AscendAt(h, p, t, n);
    PaintedAt(h, p.up, Close(p, t), p.item, c);
    Descend(h.Painted(p.item, c), p.up, Paint(Close(p, t), c), p.item);
  }

  lemma PaintedSiblingAt(h: Heap, p: Path<Task>, t: Tree<Task>, n: Task?, c: Color)
    requires At(h, p, t, n) && !p.Top? && p.sibling.Node?
    ensures p.sibling.item in h.cells
    ensures At(h.Painted(p.sibling.item, c), WithSibling(p, Paint(p.sibling, c)), t, n)
  {
    hide At;
    CrossAt(h, p, t, n);
    PaintedAt(h, Across(p, t), p.sibling, p.sibling.item, c);
    CrossAt(h.Painted(p.sibling.item, c), Across(p, t), Paint(p.sibling, c), p.sibling.item);
  }

  lemma PaintedLeftAt(h: Heap, p: Path<Task>, t: Tree<Task>, x: Task, c: Color)
    requires At(h, p, t, x) && t.Node? && t.left.Node?
    ensures t.left.item in h.cells && At(h.Painted(t.left.item, c), p, t.(left := Paint(t.left, c)), x)
  {
    hide At;
    Descend(h, p, t, x);
    PaintedAt(h, InLeft(p, t.color, x, t.right), t.left, t.left.item, c);
    AscendAt(h.Painted(t.left.item, c), InLeft(p, t.color, x, t.right), Paint(t.left, c), t.left.item);
  }

  lemma PaintedRightAt(h: Heap, p: Path<Task>, t: Tree<Task>, x: Task, c: Color)
    requires At(h, p, t, x) && t.Node? && t.right.Node?
    ensures t.right.item in h.cells && At(h.Painted(t.right.item, c), p, t.(right := Paint(t.right, c)), x)
  {
    hide At;
    Descend(h, p, t, x);
    PaintedAt(h, InRight(p, t.color, x, t.left), t.right, t.right.item, c);
    AscendAt(h.Painted(t.right.item, c), InRight(p, t.color, x, t.left), Paint(t.right, c), t.right.item);
  }

  /** Painting the sibling, its outer child and the parent, as before the last rotation. */
  lemma SettlingAt(h: Heap, p: Path<Task>, t: Tree<Task>, n: Task?)
    requires At(h, p, t, n) && !p.Top? && p.sibling.Node?
    requires if p.InLeft? then p.sibling.right.Node? else p.sibling.left.Node?
    ensures var w := p.sibling; var outer := if p.InLeft? then w.right else w.left;
      && w.item in h.cells && p.item in h.cells && outer.item in h.cells
      && At(h.Painted(w.item, p.color).Painted(p.item, Black).Painted(outer.item, Black), p.up,
            if p.InLeft? then Node(Black, t, p.item, Node(p.color, w.left, w.item, Paint(w.right, Black)))
            else Node(Black, Node(p.color, Paint(w.left, Black), w.item, w.right), p.item, t), p.item)
  {
    hide At;
    var w := p.sibling;
    PaintedSiblingAt(h, p, t, n, p.color);
    var h1, p1 := h.Painted(w.item, p.color), WithSibling(p, Paint(w, p.color));
    PaintedPathAt(h1, p1, t, n, Black);
    var h2, p2 := h1.Painted(p.item, Black), WithColor(p1, Black);
    CrossAt(h2, p2, t, n);
    if p.InLeft? {
      PaintedRightAt(h2, Across(p2, t), p2.sibling, w.item, Black);
      AscendAt(h2.Painted(w.right.item, Black), Across(p2, t), p2.sibling.(right := Paint(w.right, Black)), w.item);
    } else {
      PaintedLeftAt(h2, Across(p2, t), p2.sibling, w.item, Black);
      AscendAt(h2.Painted(w.left.item, Black), Across(p2, t), p2.sibling.(left := Paint(w.left, Black)), w.item);
    }
  }

  /** The children of the sibling, as the links give them. */
  lemma CrossNephews(h: Heap, p: Path<Task>, t: Tree<Task>, n: Task?)
    requires At(h, p, t, n) && !p.Top? && p.sibling.Node?
    ensures var w := p.sibling;
      && w.item in h.cells
      && (if w.left.Leaf? then h.cells[w.item].left == h.nil
          else h.cells[w.item].left == w.left.item && w.left.item in h.cells && w.left.item != h.nil && h.cells[w.left.item].color == w.left.color)
      && (if w.right.Leaf? then h.cells[w.item].right == h.nil
          else h.cells[w.item].right == w.right.item && w.right.item in h.cells && w.right.item != h.nil && h.cells[w.right.item].color == w.right.color)
  {
    hide At;
    var q, w := Across(p, t), p.sibling;
    CrossAt(h, p, t, n);
    Descend(h, q, w, w.item);
    if w.left.Node? {
      Descend(h, InLeft(q, w.color, w.item, w.right), w.left, w.left.item);
    }
    if w.right.Node? {
      Descend(h, InRight(q, w.color, w.item, w.left), w.right, w.right.item);
    }
  }

  // ---------- taking a node out ----------

  /** `tmp` has taken the place of the child `y` of `m`; its parent link is `par`. */
  ghost predicate Detached(h: Heap, h': Heap, m: Task, tmp: Task, par: Task, onLeft: bool) {
    && h.nil !in h.cells && m in h.cells && h'.cells.Keys == h.cells.Keys && h'.nil == h.nil && h'.root == h.root
    && (tmp != h.nil ==> tmp in h.cells)
    && (forall z :: z in h.cells ==>
         && h'.cells[z].color == h.cells[z].color
         && h'.cells[z].left == (if z == m && onLeft then tmp else h.cells[z].left)
         && h'.cells[z].right == (if z == m && !onLeft then tmp else h.cells[z].right)
         && h'.cells[z].parent == (if z == tmp then par else h.cells[z].parent))
  }

  /** Like `PointsBack`, but the children of `x` may already point to `y`. */
  ghost predicate NearlyBack(h: Heap, s: set<Task>, z: Task, c: Task?, x: Task, y: Task) {
    c != h.root && (c != h.nil ==> c != null && c in s && c in h.cells && (h.cells[c].parent == z || (z == x && h.cells[c].parent == y)))
  }

  ghost predicate NearlyParented(h: Heap, s: set<Task>, x: Task, y: Task) {
    forall z :: z in s && z in h.cells ==> NearlyBack(h, s, z, h.cells[z].left, x, y) && NearlyBack(h, s, z, h.cells[z].right, x, y)
  }

  lemma DetachedShaped(h: Heap, h': Heap, p: Path<Task>, t: Tree<Task>, y: Task, u: Tree<Task>, tmp: Task, par: Task)
    requires At(h, p, t, y) && t.Node? && !p.Top?
    requires (t.left.Leaf? && u == t.right && tmp == h.cells[y].right) || (t.right.Leaf? && u == t.left && tmp == h.cells[y].left)
    requires Detached(h, h', p.item, tmp, par, p.InLeft?)
    ensures Shaped(h', p, u, tmp)
  {
    PlaceOf(h, p, t, y);
    LinkedFrame(h, h', u, tmp);
    DistinctPathGrow(p, Items(t), Items(u));
    DistinctPathDisjoint(p.up, Items(t) + {p.item} + Items(p.sibling));
    LinkedFrame(h, h', p.sibling, if p.InLeft? then h.cells[p.item].right else h.cells[p.item].left);
    LinkedPathFrame(h, h', p.up, p.item);
  }

  lemma DetachedNearly(h: Heap, h': Heap, s: set<Task>, s': set<Task>, m: Task, y: Task, tmp: Task, par: Task, onLeft: bool)
    requires Detached(h, h', m, tmp, par, onLeft) && Parented(h, s) && s <= h.cells.Keys && s == s' + {y} && y !in s' && m in s'
    requires if onLeft then h.cells[m].left == y && h.cells[m].right != y else h.cells[m].right == y && h.cells[m].left != y
    requires tmp == h.cells[y].left || tmp == h.cells[y].right
    requires tmp != h.nil ==> tmp in s'
    ensures NearlyParented(h', s', m, par)
  {
    assert PointsBack(h, s, y, h.cells[y].left) && PointsBack(h, s, y, h.cells[y].right);
    assert PointsBack(h, s, m, h.cells[m].left) && PointsBack(h, s, m, h.cells[m].right);
    forall z | z in s' && z in h'.cells
      ensures NearlyBack(h', s', z, h'.cells[z].left, m, par) && NearlyBack(h', s', z, h'.cells[z].right, m, par)
    {
      assert PointsBack(h, s, z, h.cells[z].left) && PointsBack(h, s, z, h.cells[z].right);
    }
  }

  lemma DetachedParented(h: Heap, h': Heap, p: Path<Task>, t: Tree<Task>, y: Task, u: Tree<Task>, tmp: Task, par: Task)
    requires At(h, p, t, y) && t.Node? && !p.Top?
    requires (t.left.Leaf? && u == t.right && tmp == h.cells[y].right) || (t.right.Leaf? && u == t.left && tmp == h.cells[y].left)
    requires Detached(h, h', p.item, tmp, par, p.InLeft?)
    ensures NearlyParented(h', PathItems(p) + Items(u), p.item, par)
  {
    PlaceOf(h, p, t, y);
    LinkedRoot(h, u, tmp);
    AtCells(h, p, t, y);
    var s, s' := PathItems(p) + Items(t), PathItems(p) + Items(u);
    assert y !in s' && s' <= s && y in s;
    assert PointsBack(h, s, y, h.cells[y].left) && PointsBack(h, s, y, h.cells[y].right);
    DetachedNearly(h, h', s, s', p.item, y, tmp, par, p.InLeft?);
  }

  lemma DetachedAt(h: Heap, p: Path<Task>, t: Tree<Task>, n: Task, x: Task)
    requires Shaped(h, p, t, n) && NearlyParented(h, PathItems(p) + Items(t), x, x)
    ensures At(h, p, t, n)
  {
    var s := PathItems(p) + Items(t);
    forall z | z in s && z in h.cells ensures PointsBack(h, s, z, h.cells[z].left) && PointsBack(h, s, z, h.cells[z].right) {
      assert NearlyBack(h, s, z, h.cells[z].left, x, x) && NearlyBack(h, s, z, h.cells[z].right, x, x);
    }
  }

  lemma NearlyWeaker(h: Heap, s: set<Task>, m: Task, x: Task, y: Task)
    requires NearlyParented(h, s, m, m) || (m == x && NearlyParented(h, s, x, y))
    ensures NearlyParented(h, s, x, y)
  {
    if NearlyParented(h, s, m, m) {
      forall z | z in s && z in h.cells ensures NearlyBack(h, s, z, h.cells[z].left, x, y) && NearlyBack(h, s, z, h.cells[z].right, x, y) {
        assert NearlyBack(h, s, z, h.cells[z].left, m, m) && NearlyBack(h, s, z, h.cells[z].right, m, m);
      }
    }
  }

  /** `y` has been given the links and the color of `x`, and the links to `x`. */
  ghost predicate Replaced(h: Heap, h': Heap, x: Task, y: Task) {
    && h.nil !in h.cells && x in h.cells && y in h.cells && x != y
    && h'.cells.Keys == h.cells.Keys && h'.nil == h.nil && h'.root == (if x == h.root then y else h.root)
    && h'.cells[y] == h.cells[x]
    && (forall z :: z in h.cells && z != y ==>
         && h'.cells[z].color == h.cells[z].color
         && h'.cells[z].parent == (if z == h.cells[x].left || z == h.cells[x].right then y else h.cells[z].parent)
         && (if x != h.root && z == h.cells[x].parent then
               && h'.cells[z].left == (if h.cells[z].left == x then y else h.cells[z].left)
               && h'.cells[z].right == (if h.cells[z].left != x then y else h.cells[z].right)
             else h'.cells[z].left == h.cells[z].left && h'.cells[z].right == h.cells[z].right))
  }

  /** `y` has taken the place of `x`, but the children of `x` do not know it yet. */
  ghost predicate Seated(h: Heap, h': Heap, x: Task, y: Task) {
    && h.nil !in h.cells && x in h.cells && y in h.cells && x != y
    && h'.cells.Keys == h.cells.Keys && h'.nil == h.nil && h'.root == (if x == h.root then y else h.root)
    && h'.cells[y] == h.cells[x]
    && (forall z :: z in h.cells && z != y ==>
         && h'.cells[z].color == h.cells[z].color && h'.cells[z].parent == h.cells[z].parent
         && (if x != h.root && z == h.cells[x].parent then
               && h'.cells[z].left == (if h.cells[z].left == x then y else h.cells[z].left)
               && h'.cells[z].right == (if h.cells[z].left != x then y else h.cells[z].right)
             else h'.cells[z].left == h.cells[z].left && h'.cells[z].right == h.cells[z].right))
  }

  /** The children of `y` have it as their parent. */
  ghost predicate Adopted(h: Heap, h': Heap, y: Task) {
    && y in h.cells && h'.cells.Keys == h.cells.Keys && h'.nil == h.nil && h'.root == h.root
    && (forall z :: z in h.cells ==>
         && h'.cells[z].color == h.cells[z].color && h'.cells[z].left == h.cells[z].left && h'.cells[z].right == h.cells[z].right
         && h'.cells[z].parent == (if z != h.nil && (z == h.cells[y].left || z == h.cells[y].right) then y else h.cells[z].parent))
  }

  lemma SeatedReplaced(h: Heap, h1: Heap, h2: Heap, x: Task, y: Task)
    requires Seated(h, h1, x, y) && Adopted(h1, h2, y) && y != h.cells[x].left && y != h.cells[x].right
    ensures Replaced(h, h2, x, y)
  {
  }

  lemma {:induction false} ReplacedPath(h: Heap, h': Heap, p: Path<Task>, n: Task, x: Task, y: Task, s: set<Task>)
    requires Replaced(h, h', x, y) && LinkedPath(h, p, n) && OnSpine(p, x) && DistinctPath(p, s)
    requires y !in PathItems(p) && y !in s
    requires AboveSpine(p, x).Top? <==> x == h.root
    requires !AboveSpine(p, x).Top? ==> h.cells[x].parent == AboveSpine(p, x).item
    ensures LinkedPath(h', Respine(p, x, y), n)
  {
    var s' := s + {p.item} + Items(p.sibling);
    DistinctPathDisjoint(p.up, s');
    if p.item == x {
      LinkedFrame(h, h', p.sibling, h.cells[x].left);
      if !p.up.Top? {
        var m := p.up.item;
        assert m in PathItems(p.up);
        DistinctPathDisjoint(p.up.up, s' + {m} + Items(p.up.sibling));
        LinkedRoot(h, p.up.sibling, if p.up.InLeft? then h.cells[m].right else h.cells[m].left);
        LinkedFrame(h, h', p.up.sibling, if p.up.InLeft? then h.cells[m].right else h.cells[m].left);
        LinkedPathFrame(h.(root := h'.root), h', p.up.up, m);
      }
    } else {
      RespineItems(p.up, x, y, s');
      LinkedFrame(h, h', p.sibling, h.cells[p.item].right);
      ReplacedPath(h, h', p.up, p.item, x, y, s');
    }
  }

  lemma ReplacedParented(h: Heap, h': Heap, s: set<Task>, x: Task, y: Task)
    requires Replaced(h, h', x, y) && NearlyParented(h, s, x, y) && s <= h.cells.Keys && x in s && y !in s
    requires x != h.root ==> var m := h.cells[x].parent;
      m != null && m in s && m != x && (h.cells[m].left == x || h.cells[m].right == x) && h.cells[m].left != h.cells[m].right
    requires y != h.root
    ensures Parented(h', s - {x} + {y})
  {
    var s' := s - {x} + {y};
    assert NearlyBack(h, s, x, h.cells[x].left, x, y) && NearlyBack(h, s, x, h.cells[x].right, x, y);
    forall z | z in s' && z in h'.cells ensures PointsBack(h', s', z, h'.cells[z].left) && PointsBack(h', s', z, h'.cells[z].right) {
      if z != y {
        assert NearlyBack(h, s, z, h.cells[z].left, x, y) && NearlyBack(h, s, z, h.cells[z].right, x, y);
      }
    }
  }

  lemma {:induction false} SpineLinked(h: Heap, p: Path<Task>, n: Task, x: Task, s: set<Task>)
    requires LinkedPath(h, p, n) && OnSpine(p, x) && DistinctPath(p, s)
    ensures x in h.cells && LinkedPath(h, AboveSpine(p, x), x)
    ensures !AboveSpine(p, x).Top? ==> x !in Items(AboveSpine(p, x).sibling)
  {
    if p.item != x {
      SpineLinked(h, p.up, p.item, x, s + {p.item} + Items(p.sibling));
    }
  }

  lemma SpinePlace(h: Heap, p: Path<Task>, t: Tree<Task>, n: Task, x: Task, y: Task)
    requires Shaped(h, p, t, n) && OnSpine(p, x) && NearlyParented(h, PathItems(p) + Items(t), x, y)
    requires y !in PathItems(p) + Items(t) && h.nil !in h.cells
    ensures x in h.cells && x in PathItems(p)
    ensures AboveSpine(p, x).Top? <==> x == h.root
    ensures !AboveSpine(p, x).Top? ==>
      var m := h.cells[x].parent;
      m == AboveSpine(p, x).item && m in PathItems(p) && m != x && m in h.cells
      && (h.cells[m].left == x || h.cells[m].right == x) && h.cells[m].left != h.cells[m].right
  {
    SpineLinked(h, p, n, x, Items(t));
    RespineItems(p, x, y, Items(t));
    var q := AboveSpine(p, x);
    if !q.Top? {
      LinkedRoot(h, q.sibling, if q.InLeft? then h.cells[q.item].right else h.cells[q.item].left);
      var s := PathItems(p) + Items(t);
      assert q.item in s;
      assert NearlyBack(h, s, q.item, h.cells[q.item].left, x, y) && NearlyBack(h, s, q.item, h.cells[q.item].right, x, y);
    }
  }

  lemma ReplacedShaped(h: Heap, h': Heap, p: Path<Task>, t: Tree<Task>, n: Task, x: Task, y: Task)
    requires Shaped(h, p, t, n) && OnSpine(p, x) && y !in PathItems(p) + Items(t) && Replaced(h, h', x, y)
    requires AboveSpine(p, x).Top? <==> x == h.root
    requires !AboveSpine(p, x).Top? ==> h.cells[x].parent == AboveSpine(p, x).item
    ensures Shaped(h', Respine(p, x, y), t, n)
  {
    RespineItems(p, x, y, Items(t));
    DistinctPathDisjoint(p, Items(t));
    LinkedFrame(h, h', t, n);
    ReplacedPath(h, h', p, n, x, y, Items(t));
  }

  lemma ReplacedAt(h: Heap, h': Heap, p: Path<Task>, t: Tree<Task>, n: Task, x: Task, y: Task)
    requires Shaped(h, p, t, n) && OnSpine(p, x) && NearlyParented(h, PathItems(p) + Items(t), x, y)
    requires y !in PathItems(p) + Items(t) && y != h.root && Replaced(h, h', x, y)
    ensures At(h', Respine(p, x, y), t, n)
  {
    SpinePlace(h, p, t, n, x, y);
    RespineItems(p, x, y, Items(t));
    ReplacedShaped(h, h', p, t, n, x, y);
    LinkedCells(h, t, n);
    LinkedPathCells(h, p, n);
    hide Linked, LinkedPath, Distinct, DistinctPath;
    ReplacedParented(h, h', PathItems(p) + Items(t), x, y);
    assert PathItems(p) + Items(t) - {x} + {y} == PathItems(Respine(p, x, y)) + Items(t);
  }

  /** The only child of the root has become the root; its parent link is left as it was. */
  lemma RootRemovedAt(h: Heap, t: Tree<Task>, y: Task, u: Tree<Task>, tmp: Task)
    requires At(h, Top, t, y) && t.Node?
    requires (t.left.Leaf? && u == t.right && tmp == h.cells[y].right) || (t.right.Leaf? && u == t.left && tmp == h.cells[y].left)
    ensures At(h.(root := tmp), Top, u, tmp)
  {
    var h' := h.(root := tmp);
    LinkedFrame(h, h', u, tmp);
    LinkedRoot(h, u, tmp);
    AtCells(h, Top, t, y);
    var s, s' := PathItems<Task>(Top) + Items(t), PathItems<Task>(Top) + Items(u);
    assert y !in s' && s' <= s && y in s && s - {y} == s';
    assert PointsBack(h, s, y, h.cells[y].left) && PointsBack(h, s, y, h.cells[y].right);
    forall z | z in s' && z in h'.cells ensures PointsBack(h', s', z, h'.cells[z].left) && PointsBack(h', s', z, h'.cells[z].right) {
      assert PointsBack(h, s, z, h.cells[z].left) && PointsBack(h, s, z, h.cells[z].right);
    }
  }

  /** What replacing `x` needs of the links around it. */
  lemma CanReplace(h: Heap, p: Path<Task>, t: Tree<Task>, n: Task, x: Task, y: Task)
    requires Shaped(h, p, t, n) && OnSpine(p, x) && NearlyParented(h, PathItems(p) + Items(t), x, y)
    requires y !in PathItems(p) + Items(t) && h.nil !in h.cells
    ensures x in h.cells && x != y
    ensures x != h.root ==> var m := h.cells[x].parent; m != null && m in h.cells && m !in {x, y}
    ensures var c := h.cells[x].left; c != h.nil ==> c != null && c in h.cells && c !in {x, y}
    ensures var c := h.cells[x].right; c != h.nil ==> c != null && c in h.cells && c !in {x, y}
    ensures p.item == x ==> h.cells[x].right == n
    ensures p.item != x && n != h.nil ==> h.cells[x].left != n && h.cells[x].right != n
  {
    SpinePlace(h, p, t, n, x, y);
    var s := PathItems(p) + Items(t);
    assert x in s;
    assert NearlyBack(h, s, x, h.cells[x].left, x, y) && NearlyBack(h, s, x, h.cells[x].right, x, y);
    assert p.item in s;
    assert NearlyBack(h, s, p.item, h.cells[p.item].left, x, y);
  }
}
