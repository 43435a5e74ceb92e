/** The red-black tree of rbtree.lua: nodes linked both ways, rebalanced in place. */
module RbTrees {
  import opened RbShape
  import opened Tasks
  import opened RbLinks
  import opened TimerQueue

  /** Everything before the part at `p` is due no later than `k`, everything after it later. */
  ghost predicate Splits(p: Path<Task>, k: real, due: map<Task, real>) {
    && (forall x :: x in Before(p) ==> x in due && due[x] <= k)
    && (forall x :: x in After(p) ==> x in due && k < due[x])
  }

  lemma SplitsTop(k: real, due: map<Task, real>)
    ensures Splits(Top, k, due)
  {
  }

  /** Going down on the side of `k` keeps the path a split at `k`. */
  lemma SplitsBelow(p: Path<Task>, t: Tree<Task>, k: real, due: map<Task, real>)
    requires Splits(p, k, due) && t.Node?
    requires Sorted(Entries(Sequence(p, t), due))
    requires forall x :: x in Sequence(p, t) ==> x in due
    ensures t.item in due && t.item in Sequence(p, t)
    ensures k < due[t.item] ==> Splits(InLeft(p, t.color, t.item, t.right), k, due)
    ensures due[t.item] <= k ==> Splits(InRight(p, t.color, t.item, t.left), k, due)
    ensures Sequence(InLeft(p, t.color, t.item, t.right), t.left) == Sequence(p, t)
    ensures Sequence(InRight(p, t.color, t.item, t.left), t.right) == Sequence(p, t)
  {
    var x, a, b := t.item, Before(p) + Inorder(t.left), Inorder(t.right) + After(p);
    assert Sequence(p, t) == a + [x] + b;
    assert (a + [x] + b)[|a|] == x;
    SortedAround(a, x, b, due);
    CloseSequence(InLeft(p, t.color, x, t.right), t.left);
    CloseSequence(InRight(p, t.color, x, t.left), t.right);
    forall y | y in Before(InRight(p, t.color, x, t.left)) ensures y in a || y == x {
    }
    forall y | y in After(InLeft(p, t.color, x, t.right)) ensures y in b || y == x {
    }
  }

  class RbTree {
    // The Lua tree table is its own sentinel; here the sentinel is a node the tree owns.
    const sentinel: Task
    var root: Task
    var count: int
    ghost var shape: Tree<Task>
    ghost var nodes: set<Task>

    ghost function View(s: set<Task>): Heap
      reads `root, s`left, s`right, s`parent, s`color
    {
      Heap(root, sentinel, map x | x in s :: Cell(x.left, x.right, x.parent, x.color))
    }

    /** The deadlines of the nodes of `s`. */
    ghost function Due(s: set<Task>): map<Task, real>
      reads s`key
    {
      map x | x in s :: if x.key.Some? then x.key.value else 0.0
    }

    /** The members as a queue of timers, in order. */
    ghost function Timers(): seq<Timer>
      reads `shape, `nodes, nodes`key
    {
      Entries(Inorder(shape), Due(nodes))
    }

    ghost predicate Valid()
      reads `root, `count, `shape, `nodes, sentinel`color
      reads nodes`left, nodes`right, nodes`parent, nodes`color, nodes`key
    {
      && nodes == Items(shape) && sentinel !in nodes && sentinel.color.Black?
      && At(View(nodes), Top, shape, root)
      && RedBlack(shape)
      && count == |Inorder(shape)|
      && (forall x :: x in nodes ==> x.key.Some?)
      && Sorted(Timers())
    }

    /** A valid tree that holds exactly the timers `q`. */
    ghost predicate Is(q: seq<Timer>)
      reads `root, `count, `shape, `nodes, sentinel`color
      reads nodes`left, nodes`right, nodes`parent, nodes`color, nodes`key
    {
      Valid() && Timers() == q && nodes == TimedTasks(q)
    }

    constructor ()
      ensures Valid() && fresh(sentinel) && nodes == {}
      ensures Timers() == []
    {
      var s := new Task();
      sentinel := s;
      root := s;
      count := 0;
      shape := Leaf;
      nodes := {};
      new;
      assert Balanced(shape, 0);
      assert Linked(View({}), Leaf, sentinel);
    }

    /** `TurnedLeft` read off the fields of the nodes of `s`. */
    lemma LeftTurnView(h: Heap, x: Task, y: Task, s: set<Task>)
      requires x in s && y in s && h.cells.Keys == s && h.nil == sentinel
      requires root == if x == h.root then y else h.root
      requires x.right == h.cells[y].left && x.left == h.cells[x].left && y.left == x && y.right == h.cells[y].right
      requires forall z :: z in s && z != x && z != y ==>
        if x != h.root && z == h.cells[x].parent then
          && z.left == (if h.cells[z].left == x then y else h.cells[z].left)
          && z.right == (if h.cells[z].left != x then y else h.cells[z].right)
        else z.left == h.cells[z].left && z.right == h.cells[z].right
      requires forall z :: z in s ==>
        z.parent == if z == y then h.cells[x].parent else if z == x then y
                    else if z == h.cells[y].left then x else h.cells[z].parent
      requires forall z :: z in s ==> z.color == h.cells[z].color
      ensures TurnedLeft(h, View(s), x, y)
    {
    }

    lemma RightTurnView(h: Heap, x: Task, y: Task, s: set<Task>)
      requires x in s && y in s && h.cells.Keys == s && h.nil == sentinel
      requires root == if x == h.root then y else h.root
      requires x.left == h.cells[y].right && x.right == h.cells[x].right && y.right == x && y.left == h.cells[y].left
      requires forall z :: z in s && z != x && z != y ==>
        if x != h.root && z == h.cells[x].parent then
          && z.right == (if h.cells[z].right == x then y else h.cells[z].right)
          && z.left == (if h.cells[z].right != x then y else h.cells[z].left)
        else z.left == h.cells[z].left && z.right == h.cells[z].right
      requires forall z :: z in s ==>
        z.parent == if z == y then h.cells[x].parent else if z == x then y
                    else if z == h.cells[y].right then x else h.cells[z].parent
      requires forall z :: z in s ==> z.color == h.cells[z].color
      ensures TurnedRight(h, View(s), x, y)
    {
    }

    /** The right child `y` of `node` takes its place. */
    method RelinkLeft(node: Task, ghost s: set<Task>, ghost y: Task)
      requires CanTurnLeft(View(s), node, y)
      modifies `root, s`left, s`right, s`parent
      ensures TurnedLeft(old(View(s)), View(s), node, y)
    {
      ghost var h := View(s);
      var tmp: Task := node.right;
      node.right := tmp.left;
      var left := tmp.left;
      if left != sentinel {
        left.parent := node;
      }
      var parent := node.parent;
      tmp.parent := parent;
      if node == root {
        root := tmp;
      } else if node == parent.left {
        parent.left := tmp;
      } else {
        parent.right := tmp;
      }
      tmp.left := node;
      node.parent := tmp;
      LeftTurnView(h, node, y, s);
    }

    /** The left child `y` of `node` takes its place. */
    method RelinkRight(node: Task, ghost s: set<Task>, ghost y: Task)
      requires CanTurnRight(View(s), node, y)
      modifies `root, s`left, s`right, s`parent
      ensures TurnedRight(old(View(s)), View(s), node, y)
    {
      ghost var h := View(s);
      var tmp: Task := node.left;
      node.left := tmp.right;
      var right := tmp.right;
      if right != sentinel {
        right.parent := node;
      }
      var parent := node.parent;
      tmp.parent := parent;
      if node == root {
        root := tmp;
      } else if node == parent.right {
        parent.right := tmp;
      } else {
        parent.left := tmp;
      }
      tmp.right := node;
      node.parent := tmp;
      RightTurnView(h, node, y, s);
    }

    method LeftRotate(node: Task, ghost s: set<Task>, ghost p: Path<Task>, ghost t: Tree<Task>)
      requires sentinel !in s && At(View(s), p, t, node) && t.Node? && t.right.Node?
      modifies `root, s`left, s`right, s`parent
      ensures At(View(s), p, RotatedLeft(t), t.right.item)
    {
      hide At;
      ghost var h := View(s);
      CanTurnLeftAt(h, p, t, node);
      RelinkLeft(node, s, t.right.item);
      TurnedLeftAt(h, View(s), p, t, node);
    }

    method RightRotate(node: Task, ghost s: set<Task>, ghost p: Path<Task>, ghost t: Tree<Task>)
      requires sentinel !in s && At(View(s), p, t, node) && t.Node? && t.left.Node?
      modifies `root, s`left, s`right, s`parent
      ensures At(View(s), p, RotatedRight(t), t.left.item)
    {
      hide At;
      ghost var h := View(s);
      CanTurnRightAt(h, p, t, node);
      RelinkRight(node, s, t.left.item);
      TurnedRightAt(h, View(s), p, t, node);
    }

    method Repaint(node: Task, c: Color, ghost s: set<Task>)
      requires node in s
      modifies node`color
      ensures View(s) == old(View(s)).Painted(node, c)
    {
      node.color := c;
    }

    /** Red uncle: the parent and the uncle turn black, the grandparent red. */
    method Recolor(parent: Task, uncle: Task, grandpa: Task,
                   ghost s: set<Task>, ghost p: Path<Task>, ghost t: Tree<Task>, ghost n: Task)
      requires At(View(s), p, t, n) && !p.Top? && !p.up.Top? && p.up.sibling.Node?
      requires parent == p.item && uncle == p.up.sibling.item && grandpa == p.up.item
      modifies s`color
      ensures At(View(s), p.up.up, Recolored(p, t), grandpa)
    {
      hide At;
      ghost var h := View(s);
      RecoloredAt(h, p, t, n);
      Repaint(parent, Black, s);
      Repaint(uncle, Black, s);
      Repaint(grandpa, Red, s);
    }

    /** Black uncle: the parent turns black and the grandparent red, before they change places. */
    method PaintParents(parent: Task, grandpa: Task, ghost s: set<Task>, ghost p: Path<Task>, ghost t: Tree<Task>, ghost n: Task)
      requires At(View(s), p, t, n) && !p.Top? && !p.up.Top?
      requires parent == p.item && grandpa == p.up.item
      modifies s`color
      ensures At(View(s), p.up.up, Paint(Close(p.up, Paint(Close(p, t), Black)), Red), grandpa)
    {
      hide At;
      ghost var h := View(s);
      ParentsPaintedAt(h, p, t, n);
      parent.color := Black;
      assert View(s) == h.Painted(parent, Black);
      grandpa.color := Red;
      assert View(s) == h.Painted(parent, Black).Painted(grandpa, Red);
    }

    method SettleOnLeft(node: Task, parent: Task, grandpa: Task, ghost s: set<Task>, ghost p: Path<Task>, ghost t: Tree<Task>)
      requires sentinel !in s && At(View(s), p, t, node) && t.Node? && node == t.item && p.InLeft? && p.up.InLeft?
      requires parent == p.item && grandpa == p.up.item
      modifies `root, s`left, s`right, s`parent, s`color
      ensures var q := InLeft(p.up.up, Black, p.item, Node(Red, p.sibling, p.up.item, p.up.sibling));
        At(View(s), q, t, node) && Sequence(q, t) == Sequence(p, t)
    {
      hide At;
      PaintParents(parent, grandpa, s, p, t, node);
      ghost var u := Paint(Close(p.up, Paint(Close(p, t), Black)), Red);
      RightRotate(grandpa, s, p.up.up, u);
      assert RotatedRight(u) == Node(Black, t, parent, Node(Red, p.sibling, grandpa, p.up.sibling));
      Descend(View(s), p.up.up, RotatedRight(u), parent);
      CloseSequence(p, t);
      CloseSequence(p.up, Close(p, t));
      assert Inorder(u) == Inorder(Close(p.up, Close(p, t)));
      RotatedRightInorder(u);
      CloseSequence(InLeft(p.up.up, Black, p.item, Node(Red, p.sibling, p.up.item, p.up.sibling)), t);
    }

    /** An inner grandchild becomes an outer one: its parent is rotated below it. */
    method TuckOnLeft(node: Task, ghost s: set<Task>, ghost p: Path<Task>, ghost t: Tree<Task>, ghost n: Task)
      returns (ghost q: Path<Task>, ghost u: Tree<Task>)
      requires sentinel !in s && At(View(s), p, t, n) && t.Node? && p.InRight? && node == p.item
      modifies `root, s`left, s`right, s`parent
      ensures q == InLeft(p.up, t.color, t.item, t.right) && u == Node(p.color, p.sibling, p.item, t.left)
      ensures At(View(s), q, u, node) && Sequence(q, u) == Sequence(p, t)
    {
      hide At;
      ghost var w := Close(p, t);
      CloseSequence(p, t);
      AscendAt(View(s), p, t, n);
      LeftRotate(node, s, p.up, w);
      RotatedLeftInorder(w);
      assert RotatedLeft(w) == Node(t.color, Node(p.color, p.sibling, node, t.left), t.item, t.right);
      Descend(View(s), p.up, RotatedLeft(w), t.item);
      q, u := InLeft(p.up, t.color, t.item, t.right), Node(p.color, p.sibling, p.item, t.left);
      CloseSequence(q, u);
    }

    /** One round of the insertion loop where the parent is the grandparent's left child. */
    method FixRedOnLeft(start: Task, ghost s: set<Task>, ghost p0: Path<Task>, ghost t0: Tree<Task>, ghost h: nat, ghost total: nat)
      returns (node: Task, ghost p: Path<Task>, ghost t: Tree<Task>, ghost k: nat)
      requires sentinel !in s && sentinel.color.Black?
      requires At(View(s), p0, t0, start) && RedAt(p0, t0, h, total) && t0.Node? && RedTop(p0) && p0.up.InLeft?
      modifies `root, s`left, s`right, s`parent, s`color
      ensures At(View(s), p, t, node) && t.Node? && RedAt(p, t, k, total)
      ensures Sequence(p, t) == Sequence(p0, t0) && Depth(p) < Depth(p0)
    {
      hide At, RedAt, Sequence;
      node, p, t, k := start, p0, t0, h;
      FindParents(View(s), p, t, node);
      var parent: Task := node.parent;
      var grandpa: Task := parent.parent;
      var uncle: Task := grandpa.right;
      if uncle.color.Red? {
        Recolor(parent, uncle, grandpa, s, p, t, node);
        RecoloredRedAt(p, t, k, total);
        node, p, t, k := grandpa, p.up.up, Recolored(p, t), k + 1;
      } else {
        if node == parent.right {
          node := parent;
          OuterRedAt(p, t, k, total);
          p, t := TuckOnLeft(node, s, p, t, start);
          FindParents(View(s), p, t, node);
          parent := node.parent;
          grandpa := parent.parent;
        }
        SettleOnLeft(node, parent, grandpa, s, p, t);
        SettledRedAt(p, t, k, total);
        p := InLeft(p.up.up, Black, p.item, Node(Red, p.sibling, p.up.item, p.up.sibling));
      }
    }

    method SettleOnRight(node: Task, parent: Task, grandpa: Task, ghost s: set<Task>, ghost p: Path<Task>, ghost t: Tree<Task>)
      requires sentinel !in s && At(View(s), p, t, node) && t.Node? && node == t.item && p.InRight? && p.up.InRight?
      requires parent == p.item && grandpa == p.up.item
      modifies `root, s`left, s`right, s`parent, s`color
      ensures var q := InRight(p.up.up, Black, p.item, Node(Red, p.up.sibling, p.up.item, p.sibling));
        At(View(s), q, t, node) && Sequence(q, t) == Sequence(p, t)
    {
      hide At;
      PaintParents(parent, grandpa, s, p, t, node);
      ghost var u := Paint(Close(p.up, Paint(Close(p, t), Black)), Red);
      LeftRotate(grandpa, s, p.up.up, u);
      assert RotatedLeft(u) == Node(Black, Node(Red, p.up.sibling, grandpa, p.sibling), parent, t);
      Descend(View(s), p.up.up, RotatedLeft(u), parent);
      CloseSequence(p, t);
      CloseSequence(p.up, Close(p, t));
      assert Inorder(u) == Inorder(Close(p.up, Close(p, t)));
      RotatedLeftInorder(u);
      CloseSequence(InRight(p.up.up, Black, p.item, Node(Red, p.up.sibling, p.up.item, p.sibling)), t);
    }

    method TuckOnRight(node: Task, ghost s: set<Task>, ghost p: Path<Task>, ghost t: Tree<Task>, ghost n: Task)
      returns (ghost q: Path<Task>, ghost u: Tree<Task>)
      requires sentinel !in s && At(View(s), p, t, n) && t.Node? && p.InLeft? && node == p.item
      modifies `root, s`left, s`right, s`parent
      ensures q == InRight(p.up, t.color, t.item, t.left) && u == Node(p.color, t.right, p.item, p.sibling)
      ensures At(View(s), q, u, node) && Sequence(q, u) == Sequence(p, t)
    {
      hide At;
      ghost var w := Close(p, t);
      CloseSequence(p, t);
      AscendAt(View(s), p, t, n);
      RightRotate(node, s, p.up, w);
      RotatedRightInorder(w);
      assert RotatedRight(w) == Node(t.color, t.left, t.item, Node(p.color, t.right, node, p.sibling));
      Descend(View(s), p.up, RotatedRight(w), t.item);
      q, u := InRight(p.up, t.color, t.item, t.left), Node(p.color, t.right, p.item, p.sibling);
      CloseSequence(q, u);
    }

    /** One round of the insertion loop where the parent is the grandparent's right child. */
    method FixRedOnRight(start: Task, ghost s: set<Task>, ghost p0: Path<Task>, ghost t0: Tree<Task>, ghost h: nat, ghost total: nat)
      returns (node: Task, ghost p: Path<Task>, ghost t: Tree<Task>, ghost k: nat)
      requires sentinel !in s && sentinel.color.Black?
      requires At(View(s), p0, t0, start) && RedAt(p0, t0, h, total) && t0.Node? && RedTop(p0) && p0.up.InRight?
      modifies `root, s`left, s`right, s`parent, s`color
      ensures At(View(s), p, t, node) && t.Node? && RedAt(p, t, k, total)
      ensures Sequence(p, t) == Sequence(p0, t0) && Depth(p) < Depth(p0)
    {
      hide At, RedAt, Sequence;
      node, p, t, k := start, p0, t0, h;
      FindParents(View(s), p, t, node);
      var parent: Task := node.parent;
      var grandpa: Task := parent.parent;
      var uncle: Task := grandpa.left;
      if uncle.color.Red? {
        Recolor(parent, uncle, grandpa, s, p, t, node);
        RecoloredRedAt(p, t, k, total);
        node, p, t, k := grandpa, p.up.up, Recolored(p, t), k + 1;
      } else {
        if node == parent.left {
          node := parent;
          OuterRedAt(p, t, k, total);
          p, t := TuckOnRight(node, s, p, t, start);
          FindParents(View(s), p, t, node);
          parent := node.parent;
          grandpa := parent.parent;
        }
        SettleOnRight(node, parent, grandpa, s, p, t);
        SettledRedAt(p, t, k, total);
        p := InRight(p.up.up, Black, p.item, Node(Red, p.up.sibling, p.up.item, p.sibling));
      }
    }

    /** From the root down to the place of a new leaf: behind every node that is not due later. */
    method FindLeaf(node: Task, ghost s: set<Task>, ghost due: map<Task, real>)
      returns (parent: Task, onLeft: bool, ghost p: Path<Task>)
      requires At(View(s), Top, shape, root) && root != sentinel && sentinel !in s && Items(shape) <= s
      requires node in due && node.key == Some(due[node])
      requires forall x :: x in Inorder(shape) ==> x in due && x.key == Some(due[x])
      requires Sorted(Entries(Inorder(shape), due))
      ensures At(View(s), p, Leaf, sentinel) && !p.Top? && p.item == parent && onLeft == p.InLeft? && parent in s
      ensures Plug(p, Leaf) == shape && Splits(p, due[node], due)
    {
      hide At, Splits;
      parent := root;
      p := Top;
      ghost var t := shape;
      AtRoot(View(s), p, t, root);
      SplitsTop(due[node], due);
      while true
        invariant At(View(s), p, t, parent) && t.Node?
        invariant Plug(p, t) == shape && Splits(p, due[node], due)
        decreases t
      {
        Descend(View(s), p, t, parent);
        PlugInorder(p, t);
        SplitsBelow(p, t, due[node], due);
        onLeft := node.key.value < parent.key.value;
        var child := if onLeft then parent.left else parent.right;
        AtCells(View(s), p, t, parent);
        if onLeft {
          p, t := InLeft(p, t.color, parent, t.right), t.left;
        } else {
          p, t := InRight(p, t.color, parent, t.left), t.right;
        }
        if child == sentinel {
          break;
        }
        parent := child;
      }
    }

    method BlackenRoot(node: Task, ghost s: set<Task>, ghost p: Path<Task>, ghost t: Tree<Task>, ghost h: nat, ghost total: nat)
      returns (ghost w: Tree<Task>)
      requires At(View(s), p, t, node) && t.Node? && RedAt(p, t, h, total) && !RedTop(p)
      modifies s`color
      ensures At(View(s), Top, w, root) && RedBlack(w) && Inorder(w) == Sequence(p, t)
    {
      hide At, RedAt, Sequence, RedBlack;
      ghost var v := View(s);
      PaintedRoot(p, t, h, total);
      Whole(v, p, t, node);
      w := Paint(Plug(p, t), Black);
      AtRoot(v, Top, Plug(p, t), root);
      PaintedAt(v, Top, Plug(p, t), root, Black);
      root.color := Black;
      assert View(s) == v.Painted(root, Black);
    }

    /** Repairs the red edges above `start` and paints the root black. */
    method FixInsertion(start: Task, ghost s: set<Task>, ghost p0: Path<Task>, ghost t0: Tree<Task>, ghost h: nat, ghost total: nat)
      returns (ghost w: Tree<Task>)
      requires sentinel !in s && sentinel.color.Black?
      requires At(View(s), p0, t0, start) && t0.Node? && RedAt(p0, t0, h, total)
      modifies `root, s`left, s`right, s`parent, s`color
      ensures At(View(s), Top, w, root) && RedBlack(w) && Inorder(w) == Sequence(p0, t0)
    {
      hide At, RedAt, Sequence, RedBlack;
      var node := start;
      ghost var p, t, k := p0, t0, h;
      PlaceOf(View(s), p, t, node);
      AtRoot(View(s), p, t, node);
      while node != root && node.parent.color.Red?
        invariant p.Top? <==> node == root
        invariant !p.Top? ==> node.parent == p.item && p.item in s && p.item.color == p.color
        invariant At(View(s), p, t, node) && t.Node? && RedAt(p, t, k, total)
        invariant Sequence(p, t) == Sequence(p0, t0)
        decreases Depth(p)
      {
        RedTopBelowBlack(p, t, k, total);
        FindParents(View(s), p, t, node);
        var parent: Task := node.parent;
        if parent == parent.parent.left {
          node, p, t, k := FixRedOnLeft(node, s, p, t, k, total);
        } else {
          node, p, t, k := FixRedOnRight(node, s, p, t, k, total);
        }
        PlaceOf(View(s), p, t, node);
        AtRoot(View(s), p, t, node);
      }
      w := BlackenRoot(node, s, p, t, k, total);
    }

    /** A new red leaf where FindLeaf has found its place. */
    method LinkLeaf(node: Task, parent: Task, onLeft: bool, ghost s: set<Task>, ghost p: Path<Task>)
      requires sentinel !in s && node in s && parent in s && At(View(s), p, Leaf, sentinel)
      requires !p.Top? && p.item == parent && onLeft == p.InLeft? && node !in PathItems(p) && root != node && root != sentinel
      modifies s`left, s`right, s`parent, s`color
      ensures At(View(s), p, Node(Red, Leaf, node, Leaf), node)
    {
      hide At;
      ghost var h := View(s);
      if onLeft {
        parent.left := node;
      } else {
        parent.right := node;
      }
      node.parent := parent;
      node.left := sentinel;
      node.right := sentinel;
      node.color := Red;
      assert parent in PathItems(p);
      assert Attached(h, View(s), parent, node, onLeft);
      AttachedAt(h, View(s), p, parent, node);
    }

    /** The fields of a valid tree with the shape `w`, seen from a set of nodes that holds it. */
    lemma ValidShape(w: Tree<Task>, s: set<Task>, due: map<Task, real>)
      requires shape == w && nodes == Items(w) && sentinel !in s && sentinel.color.Black? && At(View(s), Top, w, root) && RedBlack(w)
      requires count == |Inorder(w)| && (forall x :: x in Items(w) ==> x.key.Some? && x in due && due[x] == x.key.value)
      requires Sorted(Entries(Inorder(w), due))
      requires Items(w) <= s
      ensures Valid() && Timers() == Entries(Inorder(w), due)
    {
      hide At, RedBlack;
      AtFrame(View(s), View(Items(w)), Top, w, root);
      forall x | x in Inorder(w) ensures x in Items(w) { InorderItem(w, x); }
      EntriesAgree(Inorder(w), due, Due(nodes));
    }

    method InsertFirst(node: Task)
      requires Valid() && shape == Leaf && node != sentinel && node.key.Some?
      modifies `root, `count, `shape, `nodes, node`left, node`right, node`parent, node`color
      ensures Valid() && nodes == {node}
      ensures Timers() == Inserted(old(Timers()), Timer(node, node.key.value))
    {
      node.parent := null;
      node.left := sentinel;
      node.right := sentinel;
      node.color := Black;
      root := node;
      count := 1;
      shape := Node(Black, Leaf, node, Leaf);
      nodes := {node};
      assert Balanced(shape, 1);
      assert Items(shape) == {node} && Inorder(shape) == [node];
      assert Linked(View({node}), Leaf, sentinel);
      assert PathItems<Task>(Top) + Items(shape) == {node};
    }

    /** A valid tree seen from a larger set of nodes. */
    lemma Extended(s: set<Task>)
      requires Valid() && nodes <= s
      ensures At(View(s), Top, shape, root) && sentinel !in nodes && sentinel.color.Black? && RedBlack(shape)
      ensures Timers() == Entries(Inorder(shape), Due(s)) && Sorted(Timers())
      ensures count == |Inorder(shape)| && nodes == Items(shape)
      ensures forall x :: x in Inorder(shape) ==> x in nodes && x.key == Some(Due(s)[x])
      ensures forall x :: x in nodes ==> x.key == Some(Due(s)[x])
      ensures if shape.Leaf? then root == sentinel else root != sentinel && root in nodes
    {
      hide RedBlack;
      AtRoot(View(nodes), Top, shape, root);
      AtFrame(View(nodes), View(s), Top, shape, root);
      forall x | x in Inorder(shape) ensures x in nodes { InorderItem(shape, x); }
      EntriesAgree(Inorder(shape), Due(nodes), Due(s));
    }

    /** What inserting `x` at a split path does to the queue. */
    lemma InsertedHere(w: Tree<Task>, p: Path<Task>, x: Task, s: set<Task>, due: map<Task, real>)
      requires x in due && Splits(p, due[x], due) && x !in s && x !in PathItems(p)
      requires Inorder(w) == Sequence(p, Node(Red, Leaf, x, Leaf)) && Items(Plug(p, Leaf)) == s
      requires Sorted(Entries(Inorder(Plug(p, Leaf)), due))
      ensures Items(w) == s + {x} && |Inorder(w)| == |Inorder(Plug(p, Leaf))| + 1
      ensures Entries(Inorder(w), due) == Inserted(Entries(Inorder(Plug(p, Leaf)), due), Timer(x, due[x]))
      ensures Sorted(Entries(Inorder(w), due))
    {
      var a, b, v := Before(p), After(p), Plug(p, Leaf);
      PlugInorder(p, Leaf);
      assert a + b == Inorder(v) && Inorder(w) == a + [x] + b;
      EntriesInserted(a, x, b, due);
      InsertedSorted(Entries(a + b, due), Timer(x, due[x]));
      forall y | y in s + {x} ensures y in Inorder(w) { InorderItem(v, y); }
      forall y | y in Inorder(w) ensures y in s + {x} { InorderItem(v, y); }
      ItemsOfSequence(w, s + {x});
    }

    /** Stable insertion by deadline. */
    method Insert(node: Task)
      requires Valid() && node !in nodes && node != sentinel && node.key.Some?
      modifies `root, `count, `shape, `nodes
      modifies (nodes + {node})`left, (nodes + {node})`right, (nodes + {node})`parent, (nodes + {node})`color
      ensures Valid() && nodes == old(nodes) + {node}
      ensures Timers() == Inserted(old(Timers()), Timer(node, node.key.value))
    {
      hide At, RedBlack, RedAt, Valid, Splits, Sequence, Sorted, Inserted, Entries, Inorder, Plug, View, PathItems;
      ghost var s := nodes + {node};
      ghost var due := Due(s);
      Extended(s);
      if root == sentinel {
        InsertFirst(node);
      } else {
        ghost var p;
        var parent, onLeft;
        parent, onLeft, p := FindLeaf(node, s, due);
        PlugItems(p, Leaf);
        ghost var total := NewLeafRedAt(p, node);
        LinkLeaf(node, parent, onLeft, s, p);
        ghost var w := FixInsertion(node, s, p, Node(Red, Leaf, node, Leaf), 0, total);
        InsertedHere(w, p, node, Items(shape), due);
        shape := w;
        nodes := s;
        count := count + 1;
        ValidShape(w, s, due);
      }
    }

    method PaintSettling(parent: Task, w: Task, outer: Task, ghost s: set<Task>, ghost p: Path<Task>, ghost t: Tree<Task>, ghost n: Task)
      requires At(View(s), p, t, n) && !p.Top? && p.sibling.Node? && parent == p.item && w == p.sibling.item
      requires var o := if p.InLeft? then p.sibling.right else p.sibling.left; o.Node? && outer == o.item
      modifies s`color
      ensures At(View(s), p.up,
        if p.InLeft? then Node(Black, t, parent, Node(p.color, p.sibling.left, w, Paint(p.sibling.right, Black)))
        else Node(Black, Node(p.color, Paint(p.sibling.left, Black), w, p.sibling.right), parent, t), parent)
    {
      hide At;
      ghost var h := View(s);
      SettlingAt(h, p, t, n);
      CrossAt(h, p, t, n);
      Repaint(w, parent.color, s);
      Repaint(parent, Black, s);
      Repaint(outer, Black, s);
    }

    // ---------- deletion, the short part being a left child ----------

    /** Red sibling: it is rotated above the parent, which becomes red. */
    method LiftSiblingOnLeft(parent: Task, w: Task, ghost s: set<Task>, ghost p: Path<Task>, ghost t: Tree<Task>, ghost n: Task)
      requires sentinel !in s && At(View(s), p, t, n) && p.InLeft? && p.sibling.Node?
      requires parent == p.item && w == p.sibling.item
      modifies `root, s`left, s`right, s`parent, s`color
      ensures At(View(s), LiftedSibling(p), t, n) && Sequence(LiftedSibling(p), t) == Sequence(p, t)
    {
      hide At;
      ghost var h := View(s);
      ghost var p1 := WithSibling(p, Paint(p.sibling, Black));
      ghost var p2 := WithColor(p1, Red);
      PaintedSiblingAt(h, p, t, n, Black);
      PaintedPathAt(h.Painted(w, Black), p1, t, n, Red);
      w.color := Black;
      assert View(s) == h.Painted(w, Black);
      parent.color := Red;
      assert View(s) == h.Painted(w, Black).Painted(parent, Red);
      AtRoot(h, p, t, n);
      AscendAt(View(s), p2, t, n);
      LeftRotate(parent, s, p.up, Close(p2, t));
      LiftedDown(View(s), p, t, n);
      CloseSequence(p, t);
      RotatedLeftInorder(Close(p2, t));
      CloseSequence(LiftedSibling(p), t);
      CloseSequence(LiftedSibling(p).up, Close(LiftedSibling(p), t));
    }

    lemma LiftedDown(h: Heap, p: Path<Task>, t: Tree<Task>, n: Task)
      requires p.InLeft? && p.sibling.Node? && (if t.Leaf? then n == h.nil else n == t.item)
      requires At(h, p.up, Node(Black, Node(Red, t, p.item, p.sibling.left), p.sibling.item, p.sibling.right), p.sibling.item)
      ensures At(h, LiftedSibling(p), t, n)
    {
      hide At;
      ghost var t1 := Node(Red, t, p.item, p.sibling.left);
      Descend(h, p.up, Node(Black, t1, p.sibling.item, p.sibling.right), p.sibling.item);
      Descend(h, InLeft(p.up, Black, p.sibling.item, p.sibling.right), t1, p.item);
    }

    /** Red inner nephew: it is rotated above the sibling. */
    method TuckNephewOnLeft(w: Task, left: Task, ghost s: set<Task>, ghost p: Path<Task>, ghost t: Tree<Task>, ghost n: Task)
      requires sentinel !in s && At(View(s), p, t, n) && p.InLeft? && p.sibling.Node? && p.sibling.left.Node?
      requires w == p.sibling.item && left == p.sibling.left.item
      modifies `root, s`left, s`right, s`parent, s`color
      ensures At(View(s), WithSibling(p, OuterSibling(p)), t, n)
    {
      hide At;
      ghost var h := View(s);
      ghost var q, v := Across(p, t), p.sibling;
      AtRoot(h, p, t, n);
      CrossAt(h, p, t, n);
      PaintedLeftAt(h, q, v, w, Black);
      PaintedAt(h.Painted(left, Black), q, v.(left := Paint(v.left, Black)), w, Red);
      left.color := Black;
      assert View(s) == h.Painted(left, Black);
      w.color := Red;
      assert View(s) == h.Painted(left, Black).Painted(w, Red);
      RightRotate(w, s, q, Node(Red, Paint(v.left, Black), w, v.right));
      CrossAt(View(s), q, OuterSibling(p), left);
    }

    /** Red outer nephew: the sibling is rotated above the parent and takes its color. */
    method SettleShortOnLeft(parent: Task, w: Task, right: Task, ghost s: set<Task>, ghost p: Path<Task>, ghost t: Tree<Task>, ghost n: Task)
      requires sentinel !in s && At(View(s), p, t, n) && p.InLeft? && p.sibling.Node? && p.sibling.right.Node?
      requires parent == p.item && w == p.sibling.item && right == p.sibling.right.item
      modifies `root, s`left, s`right, s`parent, s`color
      ensures At(View(s), Top, Plug(p.up, Settled(p, t)), root)
      ensures Sequence(Top, Plug(p.up, Settled(p, t))) == Sequence(p, t)
    {
      hide At;
      PaintSettling(parent, w, right, s, p, t, n);
      ghost var u := Node(Black, t, parent, Node(p.color, p.sibling.left, w, Paint(p.sibling.right, Black)));
      LeftRotate(parent, s, p.up, u);
      Whole(View(s), p.up, Settled(p, t), w);
      SettledSequence(p, t);
    }

    /** The shortage moves up past a black sibling with black children, which turns red. */
    method BlameSibling(parent: Task, w: Task, ghost s: set<Task>, ghost p: Path<Task>, ghost t: Tree<Task>, ghost n: Task)
      requires At(View(s), p, t, n) && !p.Top? && p.sibling.Node? && parent == p.item && w == p.sibling.item
      modifies s`color
      ensures At(View(s), p.up, Close(WithSibling(p, Paint(p.sibling, Red)), t), parent)
      ensures Sequence(p.up, Close(WithSibling(p, Paint(p.sibling, Red)), t)) == Sequence(p, t)
    {
      hide At;
      ghost var h := View(s);
      PaintedSiblingAt(h, p, t, n, Red);
      w.color := Red;
      assert View(s) == h.Painted(w, Red);
      AscendAt(View(s), WithSibling(p, Paint(p.sibling, Red)), t, n);
      CloseSequence(WithSibling(p, Paint(p.sibling, Red)), t);
    }

    /** One round of the deletion loop where the short part is its parent's left child. */
    method FixShortOnLeft(start: Task, ghost s: set<Task>, ghost p0: Path<Task>, ghost t0: Tree<Task>, ghost h: nat, ghost total0: nat)
      returns (tmp: Task, ghost p: Path<Task>, ghost t: Tree<Task>, ghost k: nat, ghost total: nat)
      requires sentinel !in s && sentinel.color.Black?
      requires At(View(s), p0, t0, start) && ShortAt(p0, t0, h, total0) && p0.InLeft? && !IsRed(t0) && start.parent == p0.item
      modifies `root, s`left, s`right, s`parent, s`color
      ensures At(View(s), p, t, tmp) && ShortAt(p, t, k, total) && (p.Top? || tmp in s)
      ensures Sequence(p, t) == Sequence(p0, t0)
      ensures p.Top? || IsRed(t) || Depth(p) < Depth(p0)
    {
      hide At, ShortAt, Sequence, Plug, Settled;
      tmp, p, t, k, total := start, p0, t0, h, total0;
      var parent: Task := tmp.parent;
      CrossAt(View(s), p, t, tmp);
      ShortSibling(p, t, k, total);
      var w: Task := parent.right;
      if w.color.Red? {
        RedSibling(p, t, k, total);
        LiftSiblingOnLeft(parent, w, s, p, t, tmp);
        p := LiftedSibling(p);
        CrossAt(View(s), p, t, tmp);
        ShortSibling(p, t, k, total);
        w := parent.right;
      }
      CrossNephews(View(s), p, t, tmp);
      var left: Task, right: Task := w.left, w.right;
      if left.color.Black? && right.color.Black? {
        BlackNephews(p, t, k, total);
        BlameSibling(parent, w, s, p, t, tmp);
        tmp := parent;
        t, k := Close(WithSibling(p, Paint(p.sibling, Red)), t), if p.color.Red? then k else k + 1;
        p := p.up;
      } else {
        if right.color.Black? {
          InnerNephew(p, t, k, total);
          OuterSiblingSequence(p, t);
          TuckNephewOnLeft(w, left, s, p, t, tmp);
          p := WithSibling(p, OuterSibling(p));
          CrossAt(View(s), p, t, tmp);
          CrossNephews(View(s), p, t, tmp);
          w := parent.right;
          right := w.right;
        }
        OuterNephew(p, t, k, total);
        SettleShortOnLeft(parent, w, right, s, p, t, tmp);
        tmp := root;
        p, t, k, total := Top, Plug(p.up, Settled(p, t)), total, total + 1;
      }
    }
    // ---------- deletion, the short part being a right child ----------

    /** Red sibling: it is rotated above the parent, which becomes red. */
    method LiftSiblingOnRight(parent: Task, w: Task, ghost s: set<Task>, ghost p: Path<Task>, ghost t: Tree<Task>, ghost n: Task)
      requires sentinel !in s && At(View(s), p, t, n) && p.InRight? && p.sibling.Node?
      requires parent == p.item && w == p.sibling.item
      modifies `root, s`right, s`left, s`parent, s`color
      ensures At(View(s), LiftedSibling(p), t, n) && Sequence(LiftedSibling(p), t) == Sequence(p, t)
    {
      hide At;
      ghost var h := View(s);
      ghost var p1 := WithSibling(p, Paint(p.sibling, Black));
      ghost var p2 := WithColor(p1, Red);
      PaintedSiblingAt(h, p, t, n, Black);
      PaintedPathAt(h.Painted(w, Black), p1, t, n, Red);
      w.color := Black;
      assert View(s) == h.Painted(w, Black);
      parent.color := Red;
      assert View(s) == h.Painted(w, Black).Painted(parent, Red);
      AtRoot(h, p, t, n);
      AscendAt(View(s), p2, t, n);
      RightRotate(parent, s, p.up, Close(p2, t));
      LiftedDownRight(View(s), p, t, n);
      CloseSequence(p, t);
      RotatedRightInorder(Close(p2, t));
      CloseSequence(LiftedSibling(p), t);
      CloseSequence(LiftedSibling(p).up, Close(LiftedSibling(p), t));
    }

    lemma LiftedDownRight(h: Heap, p: Path<Task>, t: Tree<Task>, n: Task)
      requires p.InRight? && p.sibling.Node? && (if t.Leaf? then n == h.nil else n == t.item)
      requires At(h, p.up, Node(Black, p.sibling.left, p.sibling.item, Node(Red, p.sibling.right, p.item, t)), p.sibling.item)
      ensures At(h, LiftedSibling(p), t, n)
    {
      hide At;
      ghost var t1 := Node(Red, p.sibling.right, p.item, t);
      Descend(h, p.up, Node(Black, p.sibling.left, p.sibling.item, t1), p.sibling.item);
      Descend(h, InRight(p.up, Black, p.sibling.item, p.sibling.left), t1, p.item);
    }

    /** Red inner nephew: it is rotated above the sibling. */
    method TuckNephewOnRight(w: Task, right: Task, ghost s: set<Task>, ghost p: Path<Task>, ghost t: Tree<Task>, ghost n: Task)
      requires sentinel !in s && At(View(s), p, t, n) && p.InRight? && p.sibling.Node? && p.sibling.right.Node?
      requires w == p.sibling.item && right == p.sibling.right.item
      modifies `root, s`right, s`left, s`parent, s`color
      ensures At(View(s), WithSibling(p, OuterSibling(p)), t, n)
    {
      hide At;
      ghost var h := View(s);
      ghost var q, v := Across(p, t), p.sibling;
      AtRoot(h, p, t, n);
      CrossAt(h, p, t, n);
      PaintedRightAt(h, q, v, w, Black);
      PaintedAt(h.Painted(right, Black), q, v.(right := Paint(v.right, Black)), w, Red);
      right.color := Black;
      assert View(s) == h.Painted(right, Black);
      w.color := Red;
      assert View(s) == h.Painted(right, Black).Painted(w, Red);
      LeftRotate(w, s, q, Node(Red, v.left, w, Paint(v.right, Black)));
      CrossAt(View(s), q, OuterSibling(p), right);
    }

    /** Red outer nephew: the sibling is rotated above the parent and takes its color. */
    method SettleShortOnRight(parent: Task, w: Task, left: Task, ghost s: set<Task>, ghost p: Path<Task>, ghost t: Tree<Task>, ghost n: Task)
      requires sentinel !in s && At(View(s), p, t, n) && p.InRight? && p.sibling.Node? && p.sibling.left.Node?
      requires parent == p.item && w == p.sibling.item && left == p.sibling.left.item
      modifies `root, s`right, s`left, s`parent, s`color
      ensures At(View(s), Top, Plug(p.up, Settled(p, t)), root)
      ensures Sequence(Top, Plug(p.up, Settled(p, t))) == Sequence(p, t)
    {
      hide At;
      PaintSettling(parent, w, left, s, p, t, n);
      ghost var u := Node(Black, Node(p.color, Paint(p.sibling.left, Black), w, p.sibling.right), parent, t);
      RightRotate(parent, s, p.up, u);
      Whole(View(s), p.up, Settled(p, t), w);
      SettledSequence(p, t);
    }

    /** One round of the deletion loop where the short part is its parent's right child. */
    method FixShortOnRight(start: Task, ghost s: set<Task>, ghost p0: Path<Task>, ghost t0: Tree<Task>, ghost h: nat, ghost total0: nat)
      returns (tmp: Task, ghost p: Path<Task>, ghost t: Tree<Task>, ghost k: nat, ghost total: nat)
      requires sentinel !in s && sentinel.color.Black?
      requires At(View(s), p0, t0, start) && ShortAt(p0, t0, h, total0) && p0.InRight? && !IsRed(t0) && start.parent == p0.item
      modifies `root, s`right, s`left, s`parent, s`color
      ensures At(View(s), p, t, tmp) && ShortAt(p, t, k, total) && (p.Top? || tmp in s)
      ensures Sequence(p, t) == Sequence(p0, t0)
      ensures p.Top? || IsRed(t) || Depth(p) < Depth(p0)
    {
      hide At, ShortAt, Sequence, Plug, Settled;
      tmp, p, t, k, total := start, p0, t0, h, total0;
      var parent: Task := tmp.parent;
      CrossAt(View(s), p, t, tmp);
      ShortSibling(p, t, k, total);
      var w: Task := parent.left;
      if w.color.Red? {
        RedSibling(p, t, k, total);
        LiftSiblingOnRight(parent, w, s, p, t, tmp);
        p := LiftedSibling(p);
        CrossAt(View(s), p, t, tmp);
        ShortSibling(p, t, k, total);
        w := parent.left;
      }
      CrossNephews(View(s), p, t, tmp);
      var left: Task, right: Task := w.left, w.right;
      if right.color.Black? && left.color.Black? {
        BlackNephews(p, t, k, total);
        BlameSibling(parent, w, s, p, t, tmp);
        tmp := parent;
        t, k := Close(WithSibling(p, Paint(p.sibling, Red)), t), if p.color.Red? then k else k + 1;
        p := p.up;
      } else {
        if left.color.Black? {
          InnerNephew(p, t, k, total);
          OuterSiblingSequence(p, t);
          TuckNephewOnRight(w, right, s, p, t, tmp);
          p := WithSibling(p, OuterSibling(p));
          CrossAt(View(s), p, t, tmp);
          CrossNephews(View(s), p, t, tmp);
          w := parent.left;
          left := w.left;
        }
        OuterNephew(p, t, k, total);
        SettleShortOnRight(parent, w, left, s, p, t, tmp);
        tmp := root;
        p, t, k, total := Top, Plug(p.up, Settled(p, t)), total, total + 1;
      }
    }

    // ---------- deletion ----------

    /** The next node in order, found in the right subtree. */
    method Successor(node: Task, ghost s: set<Task>, ghost p: Path<Task>, ghost t0: Tree<Task>)
      returns (subst: Task, ghost q: Path<Task>, ghost t: Tree<Task>)
      requires At(View(s), p, t0, node) && t0.Node? && t0.right.Node?
      ensures At(View(s), q, t, subst) && t.Node? && t.left.Leaf? && subst == t.item && subst != node
      ensures OnSpine(q, node) && Plug(q, t) == Plug(p, t0)
    {
      hide At;
      Descend(View(s), p, t0, node);
      subst := node.right;
      q, t := InRight(p, t0.color, node, t0.left), t0.right;
      while true
        invariant At(View(s), q, t, subst) && t.Node? && OnSpine(q, node) && Plug(q, t) == Plug(p, t0)
        decreases t
      {
        Descend(View(s), q, t, subst);
        SpineApart(View(s), q, t, subst, node);
        var left := subst.left;
        if left == sentinel {
          break;
        }
        q, t := InLeft(q, t.color, subst, t.right), t.left;
        subst := left;
      }
    }

    lemma SpineApart(h: Heap, q: Path<Task>, t: Tree<Task>, y: Task, x: Task)
      requires At(h, q, t, y) && t.Node? && OnSpine(q, x)
      ensures y != x && y == t.item && x in PathItems(q)
      decreases q
    {
      SpineItem(q, x);
      PlaceOf(h, q, t, y);
    }

    lemma {:induction false} SpineItem(q: Path<Task>, x: Task)
      requires OnSpine(q, x)
      ensures x in PathItems(q)
    {
      if q.item != x {
        SpineItem(q.up, x);
      }
    }

    /** `tmp` becomes the child of the parent of `subst` in the place of `subst`, with parent link `par`. */
    method Detach(subst: Task, tmp: Task, par: Task, ghost s: set<Task>, ghost m: Task, ghost onLeft: bool)
      requires sentinel !in s && subst in s && m in s && subst.parent == m
      requires if onLeft then m.left == subst else m.right == subst && m.left != subst
      requires tmp == sentinel || tmp in s
      modifies s`left, s`right, tmp`parent
      ensures Detached(old(View(s)), View(s), m, tmp, par, onLeft)
      ensures tmp.parent == par
    {
      var parent: Task := subst.parent;
      if subst == parent.left {
        parent.left := tmp;
      } else {
        parent.right := tmp;
      }
      tmp.parent := par;
    }

    /** `subst` takes over the links and the color of `node`. */
    method Supplant(node: Task, subst: Task, ghost s: set<Task>)
      requires sentinel !in s && node in s && subst in s && node != subst
      requires node != root ==> node.parent != null && node.parent in s && node.parent != subst && node.parent != node
      requires node.left != sentinel ==> node.left != null && node.left in s && node.left !in {node, subst} 
      requires node.right != sentinel ==> node.right != null && node.right in s && node.right !in {node, subst}
      modifies `root, s`left, s`right, s`parent, s`color
      ensures Replaced(old(View(s)), View(s), node, subst)
    {
      ghost var h := View(s);
      TakePlace(node, subst, s);
      ghost var h1 := View(s);
      Adopt(subst, s);
      SeatedReplaced(h, h1, View(s), node, subst);
    }

    /** The substitute takes over the links of the node, and the link of its parent. */
    method TakePlace(node: Task, subst: Task, ghost s: set<Task>)
      requires sentinel !in s && node in s && subst in s && node != subst
      requires node != root ==> node.parent != null && node.parent in s && node.parent != subst && node.parent != node
      modifies `root, s`left, s`right, subst`parent, subst`color
      ensures Seated(old(View(s)), View(s), node, subst)
    {
      subst.left := node.left;
      subst.right := node.right;
      subst.parent := node.parent;
      subst.color := node.color;
      if node == root {
        root := subst;
      } else {
        var parent: Task := node.parent;
        if node == parent.left {
          parent.left := subst;
        } else {
          parent.right := subst;
        }
      }
    }

    /** The children of the substitute learn who their parent is. */
    method Adopt(subst: Task, ghost s: set<Task>)
      requires sentinel !in s && subst in s
      requires subst.left != sentinel ==> subst.left != null && subst.left in s
      requires subst.right != sentinel ==> subst.right != null && subst.right in s
      modifies s`parent
      ensures Adopted(old(View(s)), View(s), subst)
    {
      var left := subst.left;
      if left != sentinel {
        left.parent := subst;
      }
      var right := subst.right;
      if right != sentinel {
        right.parent := subst;
      }
    }

    /** Repairs a shortage of black nodes at `start`. */
    method FixDeletion(start: Task, ghost s: set<Task>, ghost p0: Path<Task>, ghost t0: Tree<Task>, ghost h: nat, ghost total0: nat)
      returns (ghost w: Tree<Task>)
      requires sentinel !in s && sentinel.color.Black? && (start in s || start == sentinel)
      requires At(View(s), p0, t0, start) && ShortAt(p0, t0, h, total0) && (!p0.Top? ==> start.parent == p0.item)
      modifies `root, s`left, s`right, s`parent, s`color, sentinel`color
      ensures At(View(s), Top, w, root) && RedBlack(w) && Inorder(w) == Sequence(p0, t0) && sentinel.color.Black?
    {
      hide At, ShortAt, Sequence, RedBlack;
      var tmp := start;
      ghost var p, t, k, total := p0, t0, h, total0;
      PlaceOf(View(s), p, t, tmp);
      AtColor(View(s), p, t, tmp);
      while tmp != root && tmp.color.Black?
        invariant At(View(s), p, t, tmp) && ShortAt(p, t, k, total) && (tmp in s || tmp == sentinel)
        invariant Sequence(p, t) == Sequence(p0, t0)
        invariant p.Top? <==> tmp == root
        invariant !p.Top? ==> tmp.parent == p.item && p.item in s
        invariant tmp.color.Red? <==> IsRed(t)
        invariant sentinel.color.Black?
        decreases if p.Top? || IsRed(t) then 0 else 1 + Depth(p)
      {
        var parent: Task := tmp.parent;
        CrossAt(View(s), p, t, tmp);
        ShortSibling(p, t, k, total);
        PlaceOf(View(s), p, t, tmp);
        if tmp == parent.left {
          tmp, p, t, k, total := FixShortOnLeft(tmp, s, p, t, k, total);
        } else {
          tmp, p, t, k, total := FixShortOnRight(tmp, s, p, t, k, total);
        }
        PlaceOf(View(s), p, t, tmp);
        AtColor(View(s), p, t, tmp);
      }
      w := BlackenShort(tmp, s, p, t, k, total);
    }

    lemma AtColor(h: Heap, p: Path<Task>, t: Tree<Task>, n: Task?)
      requires At(h, p, t, n)
      ensures if t.Leaf? then n == h.nil else n == t.item && n != h.nil && n in h.cells && h.cells[n].color == t.color
    {
      LinkedRoot(h, t, n);
    }

    /** Where the loop has stopped, the node is painted black; it may be the sentinel. */
    method BlackenShort(tmp: Task, ghost s: set<Task>, ghost p: Path<Task>, ghost t: Tree<Task>, ghost h: nat, ghost total: nat)
      returns (ghost w: Tree<Task>)
      requires sentinel !in s && sentinel.color.Black? && (tmp in s || tmp == sentinel)
      requires At(View(s), p, t, tmp) && ShortAt(p, t, h, total) && (p.Top? || IsRed(t))
      modifies s`color, sentinel`color
      ensures At(View(s), Top, w, root) && RedBlack(w) && Inorder(w) == Sequence(p, t) && sentinel.color.Black?
    {
      hide At, ShortAt, Sequence, RedBlack;
      ghost var v := View(s);
      w := Plug(p, Paint(t, Black));
      ShortageMadeUp(p, t, h, total);
      PaintedSequence(p, t, Black);
      AtColor(v, p, t, tmp);
      if t.Node? {
        PaintedAt(v, p, t, tmp, Black);
      }
      tmp.color := Black;
      assert t.Node? ==> View(s) == v.Painted(tmp, Black);
      assert t.Leaf? ==> View(s) == v;
      Whole(View(s), p, Paint(t, Black), tmp);
    }

    /** `tmp` roots what is left below `subst` when it goes. */
    ghost predicate OnlyChildIs(t: Tree<Task>, subst: Task, u: Tree<Task>, tmp: Task)
      reads subst
    {
      && t.Node? && subst == t.item
      && ((t.left.Leaf? && u == t.right && tmp == subst.right) || (t.right.Leaf? && u == t.left && tmp == subst.left))
    }

    /** The node to be spliced out for `node`, and its only child. */
    method FindSplice(node: Task, ghost s: set<Task>)
      returns (subst: Task, tmp: Task, ghost q: Path<Task>, ghost t: Tree<Task>, ghost u: Tree<Task>)
      requires At(View(s), Top, shape, root) && node in Items(shape) && sentinel !in s
      ensures At(View(s), q, t, subst) && OnlyChildIs(t, subst, u, tmp) && Plug(q, t) == shape
      ensures subst == node || (OnSpine(q, node) && t.left.Leaf?)
      ensures tmp == sentinel || tmp in s
    {
      hide At;
      q, t := Locate(Top, shape, node);
      ghost var n := Part(View(s), q, t);
      AtRoot(View(s), q, t, n);
      Descend(View(s), q, t, node);
      subst := node;
      if node.left == sentinel {
        tmp := node.right;
        u := t.right;
      } else if node.right == sentinel {
        tmp := node.left;
        u := t.left;
      } else {
        subst, q, t := Successor(node, s, q, t);
        Descend(View(s), q, t, subst);
        // the search has stopped where there is no left child: the test that follows in the source
        // can only take its second branch
        tmp := subst.right;
        u := t.right;
      }
      AtColor(View(s), InLeft(q, t.color, subst, t.right), t.left, subst.left);
      AtColor(View(s), InRight(q, t.color, subst, t.left), t.right, subst.right);
    }

    /** `subst`, already out of its own place, takes that of `node`. */
    method SupplantAt(node: Task, subst: Task, tmp: Task, ghost s: set<Task>, ghost q: Path<Task>, ghost u: Tree<Task>)
      requires sentinel !in s && subst in s && Shaped(View(s), q, u, tmp) && OnSpine(q, node)
      requires NearlyParented(View(s), PathItems(q) + Items(u), node, subst)
      requires subst !in PathItems(q) + Items(u) && subst != root
      requires tmp.parent == if q.item == node then subst else q.item
      modifies `root, s`left, s`right, s`parent, s`color
      ensures At(View(s), Respine(q, node, subst), u, tmp)
      ensures tmp.parent == Respine(q, node, subst).item
    {
      hide At, Shaped, NearlyParented;
      ghost var h := View(s);
      CanReplace(h, q, u, tmp, node, subst);
      Supplant(node, subst, s);
      ReplacedAt(h, View(s), q, u, tmp, node, subst);
      PlaceOf(View(s), Respine(q, node, subst), u, tmp);
    }

    /** `subst` leaves its place and, if it is not `node`, takes that of `node`. */
    method Splice(node: Task, subst: Task, tmp: Task,
                  ghost s: set<Task>, ghost q: Path<Task>, ghost t: Tree<Task>, ghost u: Tree<Task>)
      requires sentinel !in s && At(View(s), q, t, subst) && OnlyChildIs(t, subst, u, tmp) && !q.Top?
      requires subst == node || (OnSpine(q, node) && t.left.Leaf?)
      modifies `root, s`left, s`right, s`parent, s`color, tmp`parent
      ensures At(View(s), Spliced(q, node, subst), u, tmp)
      ensures tmp.parent == Spliced(q, node, subst).item
      ensures tmp == sentinel || tmp in s
    {
      hide At, Shaped, NearlyParented;
      ghost var h := View(s);
      PlaceOf(h, q, t, subst);
      AtCells(h, q, t, subst);
      Descend(h, q, t, subst);
      AtColor(h, InLeft(q, t.color, subst, t.right), t.left, subst.left);
      AtColor(h, InRight(q, t.color, subst, t.left), t.right, subst.right);
      DistinctRoot(h, q, t, subst);
      var par: Task := if subst != node && subst.parent == node then subst else subst.parent;
      Detach(subst, tmp, par, s, q.item, q.InLeft?);
      ghost var h1 := View(s);
      DetachedShaped(h, h1, q, t, subst, u, tmp, par);
      DetachedParented(h, h1, q, t, subst, u, tmp, par);
      if subst == node {
        DetachedAt(h1, q, u, tmp, q.item);
      } else {
        NearlyWeaker(h1, PathItems(q) + Items(u), q.item, node, subst);
        SupplantAt(node, subst, tmp, s, q, u);
      }
    }

    lemma DistinctRoot(h: Heap, q: Path<Task>, t: Tree<Task>, y: Task)
      requires At(h, q, t, y) && t.Node?
      ensures y !in PathItems(q) + Items(t.left) && y !in PathItems(q) + Items(t.right)
    {
      PlaceOf(h, q, t, y);
    }

    /** What taking `x` out of the sequence does to the queue. */
    lemma RemovedHere(v: Tree<Task>, w: Tree<Task>, a: seq<Task>, x: Task, b: seq<Task>, s: set<Task>, due: map<Task, real>)
      requires Distinct(v) && Items(v) == s && Inorder(v) == a + [x] + b && Inorder(w) == a + b
      requires Sorted(Entries(Inorder(v), due))
      ensures Items(w) == s - {x} && |Inorder(w)| == |Inorder(v)| - 1
      ensures Entries(Inorder(w), due) == Removed(Entries(Inorder(v), due), x)
      ensures Sorted(Entries(Inorder(w), due))
    {
      hide Sorted, Removed, Entries, Distinct, Items, NoDup, Inorder;
      DistinctInorder(v);
      OnlyThere(a, x, b);
      EntriesRemoved(a, x, b, due);
      RemovedSorted(Entries(Inorder(v), due), x);
      SameItems(v, s);
      ItemsOfSequence(w, s - {x});
    }

    lemma OnlyThere(a: seq<Task>, x: Task, b: seq<Task>)
      requires NoDup(a + [x] + b)
      ensures x !in a && x !in b
    {
      var q := a + [x] + b;
      assert q[|a|] == x;
      forall i | 0 <= i < |a| ensures a[i] != x { assert q[i] == a[i]; }
      forall i | 0 <= i < |b| ensures b[i] != x { assert q[|a| + 1 + i] == b[i]; }
    }

    lemma SameItems(v: Tree<Task>, s: set<Task>)
      requires Items(v) == s
      ensures forall y :: y in s <==> y in Inorder(v)
    {
      forall y | y in s ensures y in Inorder(v) { InorderItem(v, y); }
      forall y | y in Inorder(v) ensures y in s { InorderItem(v, y); }
    }

    /** The root has at most one child, and goes. */
    method RemoveRoot(tmp: Task, ghost s: set<Task>, ghost t: Tree<Task>, ghost u: Tree<Task>)
      requires sentinel !in s && sentinel.color.Black? && At(View(s), Top, t, root) && OnlyChildIs(t, root, u, tmp) && RedBlack(t)
      modifies `root, tmp`color
      ensures At(View(s), Top, Paint(u, Black), root) && sentinel.color.Black? && root == tmp
    {
      hide At, RedBlack;
      ghost var h := View(s);
      RootRemovedAt(h, t, root, u, tmp);
      root := tmp;
      ghost var v := View(s);
      assert v == h.(root := tmp);
      AtColor(v, Top, u, tmp);
      if u.Node? {
        PaintedAt(v, Top, u, tmp, Black);
      }
      tmp.color := Black;
      assert u.Node? ==> View(s) == v.Painted(tmp, Black);
      assert u.Leaf? ==> View(s) == v;
    }

    method Delete(node: Task)
      requires Valid() && node in nodes
      modifies `root, `count, `shape, `nodes, sentinel`parent, sentinel`color
      modifies nodes`left, nodes`right, nodes`parent, nodes`color
      ensures Valid() && nodes == old(nodes) - {node}
      ensures Timers() == Removed(old(Timers()), node)
    {
      hide At, RedBlack, Valid, Sequence, Sorted, Removed, Entries, Inorder, Plug, View, PathItems, ShortAt, FineAt, Distinct;
      ghost var s := nodes;
      ghost var due := Due(s);
      Extended(s);
      AtDistinct(View(s), Top, shape, root);
      count := count - 1;
      var subst, tmp;
      ghost var q, t, u, w, a, b;
      subst, tmp, q, t, u := FindSplice(node, s);
      a, b := SplicedSequence(q, t, u, node);
      RootOnly(s, q, t, u, subst, node);
      if subst == root {
        RootSpliced(t, u);
        RemoveRoot(tmp, s, t, u);
        w := Paint(u, Black);
      } else {
        ColorOf(s, q, t, subst);
        var red := subst.color.Red?;
        ghost var h, total := SplicedAt(q, t, u, node);
        Splice(node, subst, tmp, s, q, t, u);
        ghost var p := Spliced(q, node, subst);
        if red {
          FinePlug(p, u, h, total);
          WholeTree(s, p, u, tmp);
          PlugSequence(p, u);
          w := Plug(p, u);
        } else {
          w := FixDeletion(tmp, s, p, u, h, total);
        }
      }
      RemovedHere(shape, w, a, node, b, s, due);
      shape := w;
      nodes := s - {node};
      ValidShape(w, s, due);
    }

    lemma ColorOf(s: set<Task>, p: Path<Task>, t: Tree<Task>, x: Task)
      requires At(View(s), p, t, x) && t.Node?
      ensures x.color == t.color
    {
      LinkedRoot(View(s), t, x);
    }

    lemma WholeTree(s: set<Task>, p: Path<Task>, t: Tree<Task>, n: Task)
      requires At(View(s), p, t, n)
      ensures At(View(s), Top, Plug(p, t), root)
    {
      Whole(View(s), p, t, n);
    }

    lemma AtDistinct(h: Heap, p: Path<Task>, t: Tree<Task>, n: Task?)
      requires At(h, p, t, n)
      ensures Distinct(t)
    {
    }

    lemma RootOnly(s: set<Task>, q: Path<Task>, t: Tree<Task>, u: Tree<Task>, y: Task, x: Task)
      requires At(View(s), q, t, y)
      requires y == x || OnSpine(q, x)
      ensures q.Top? <==> y == root
      ensures q.Top? ==> x == y && Plug(q, t) == t && Sequence(Spliced(q, x, y), u) == Inorder(u)
    {
      PlaceOf(View(s), q, t, y);
    }

    // ---------- queries ----------

    /** The node due first, or null. */
    method Min() returns (r: Task?)
      requires Valid()
      ensures Timers() == [] <==> r == null
      ensures r != null ==> r in nodes && r.key.Some? && Timers()[0] == Timer(r, r.key.value)
    {
      hide At, RedBlack, Valid;
      ghost var s := nodes;
      Extended(s);
      var node := root;
      if node == sentinel {
        return null;
      }
      ghost var p, t := Top, shape;
      Descend(View(s), p, t, node);
      while node.left != sentinel
        invariant At(View(s), p, t, node) && t.Node? && node == t.item && node in s
        invariant node.left == sentinel <==> t.left.Leaf?
        invariant Before(p) == [] && Plug(p, t) == shape
        decreases t
      {
        Descend(View(s), p, t, node);
        node, p, t := node.left, InLeft(p, t.color, node, t.right), t.left;
        Descend(View(s), p, t, node);
      }
      PlugInorder(p, t);
      assert Inorder(shape)[0] == node;
      r := node;
    }

    /** The node due last, or null. */
    method Max() returns (r: Task?)
      requires Valid()
      ensures Timers() == [] <==> r == null
      ensures r != null ==> r in nodes && r.key.Some? && Timers()[|Timers()| - 1] == Timer(r, r.key.value)
    {
      hide At, RedBlack, Valid;
      ghost var s := nodes;
      Extended(s);
      var node := root;
      if node == sentinel {
        return null;
      }
      ghost var p, t := Top, shape;
      Descend(View(s), p, t, node);
      while node.right != sentinel
        invariant At(View(s), p, t, node) && t.Node? && node == t.item && node in s
        invariant node.right == sentinel <==> t.right.Leaf?
        invariant After(p) == [] && Plug(p, t) == shape
        decreases t
      {
        Descend(View(s), p, t, node);
        node, p, t := node.right, InRight(p, t.color, node, t.left), t.right;
        Descend(View(s), p, t, node);
      }
      PlugInorder(p, t);
      assert Inorder(shape)[|Inorder(shape)| - 1] == node;
      r := node;
    }

    method HeightFrom(node: Task, h: nat, ghost s: set<Task>, ghost p: Path<Task>, ghost t: Tree<Task>) returns (r: nat)
      requires At(View(s), p, t, node)
      ensures r == h + Height(t)
      decreases t
    {
      hide At;
      AtColor(View(s), p, t, node);
      if node == sentinel {
        return h;
      }
      Descend(View(s), p, t, node);
      var h1 := HeightFrom(node.left, h + 1, s, InLeft(p, t.color, node, t.right), t.left);
      var h2 := HeightFrom(node.right, h + 1, s, InRight(p, t.color, node, t.left), t.right);
      r := if h1 > h2 then h1 else h2;
    }

    /** The height of the tree, at most twice the binary logarithm of the number of nodes plus one. */
    method TreeHeight() returns (r: nat)
      requires Valid()
      ensures r == Height(shape) && Pow2(r) <= (count + 1) * (count + 1)
    {
      hide At, RedBlack, Valid, Sorted, Entries;
      Extended(nodes);
      HeightIsLogarithmic(shape);
      r := HeightFrom(root, 0, nodes, Top, shape);
    }
  }
}
