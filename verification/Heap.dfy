/** The pointer-linked binary min-heap of heap-inl.h. */
module PointerHeap {
  import opened HeapShape
  import opened HeapPath

  /** A `heap_node **`: the heap's root pointer, or one child pointer of a node. */
  datatype Slot = RootSlot | LeftSlot(node: HeapNode) | RightSlot(node: HeapNode)

  ghost function SlotAt(s: seq<HeapNode>, i: nat): Slot
    requires i <= |s|
  {
    if i == 0 then RootSlot else if i % 2 == 1 then LeftSlot(s[Up(i)]) else RightSlot(s[Up(i)])
  }

  ghost function SlotOwner(slot: Slot): set<HeapNode> {
    if slot.RootSlot? then {} else {slot.node}
  }

  class Heap {
    var min: HeapNode?
    var nelts: nat
    ghost var order: seq<HeapNode>
    ghost var pos: map<HeapNode, int>

    /** The links form the complete tree whose level order is `order`. */
    ghost predicate Linked()
      reads this, pos.Keys
    {
      && Shaped(order, pos, LinksOf(pos.Keys))
      && min == At(order, 0)
      && nelts == |order| < UINT_RANGE
    }

    ghost predicate Valid()
      reads this, pos.Keys
    {
      Linked() && Ordered(order, DuesOf(pos.Keys))
    }

    constructor ()
      ensures Valid() && order == [] && pos == map[]
    {
      min, nelts := null, 0;
      order, pos := [], map[];
    }

    method Min() returns (node: HeapNode?)
      requires Valid()
      ensures node == null <==> pos.Keys == {}
      ensures node != null ==> node in pos && forall x <- pos :: node.dueTime <= x.dueTime
    {
      node := min;
      forall x <- pos
        ensures order != [] && order[0].dueTime <= x.dueTime
      {
        RootIsEarliest(order, DuesOf(pos.Keys), pos[x]);
      }
      assert order != [] ==> order[0] in pos;
    }

    // ----- heap_node_swap -----

    method ExchangeRecords(parent: HeapNode, child: HeapNode, ghost sib: HeapNode?)
      requires parent != child && Off(sib, {parent, child})
      requires (parent.left == child && parent.right == sib) || (parent.right == child && parent.left == sib)
      modifies parent`left, parent`right, parent`parent, child`left, child`right, child`parent, Opt(sib)`parent
      ensures parent.left == old(child.left) && parent.right == old(child.right) && parent.parent == child
      ensures child.left == Exchange(old(parent.left), parent, child)
      ensures child.right == Exchange(old(parent.right), parent, child)
      ensures child.parent == old(parent.parent)
      ensures sib != null ==> sib.parent == child
    {
      var t := Link(parent.left, parent.right, parent.parent);
      parent.left, parent.right, parent.parent := child.left, child.right, child.parent;
      child.left, child.right, child.parent := t.left, t.right, t.parent;

      parent.parent := child;
      var sibling;
      if child.left == child {
        child.left := parent;
        sibling := child.right;
      } else {
        child.right := parent;
        sibling := child.left;
      }
      if sibling != null {
        sibling.parent := child;
      }
    }

    method RelinkNeighbours(parent: HeapNode, child: HeapNode, ghost kin: Kin)
      requires parent.left == kin.k && parent.right == kin.l && child.parent == kin.g && kin.Apart(parent, child)
      modifies this`min, Opt(kin.k)`parent, Opt(kin.l)`parent, Opt(kin.g)`left, Opt(kin.g)`right
      ensures min == if kin.g == null then child else old(min)
      ensures kin.k != null ==> kin.k.parent == parent
      ensures kin.l != null ==> kin.l.parent == parent
      ensures kin.g != null ==> kin.g.left == if old(kin.g.left) == parent then child else old(kin.g.left)
      ensures kin.g != null ==> kin.g.right == if old(kin.g.left) == parent then old(kin.g.right) else child
    {
      if parent.left != null {
        parent.left.parent := parent;
      }
      if parent.right != null {
        parent.right.parent := parent;
      }
      if child.parent == null {
        min := child;
      } else if child.parent.left == parent {
        child.parent.left := child;
      } else {
        child.parent.right := child;
      }
    }

    method Rewire(parent: HeapNode, child: HeapNode, ghost kin: Kin)
      requires kin.Apart(parent, child)
      requires (parent.left == child && parent.right == kin.sib) || (parent.right == child && parent.left == kin.sib)
      requires child.left == kin.k && child.right == kin.l && parent.parent == kin.g
      modifies this`min, parent`left, parent`right, parent`parent, child`left, child`right, child`parent
      modifies Opt(kin.sib)`parent, Opt(kin.k)`parent, Opt(kin.l)`parent, Opt(kin.g)`left, Opt(kin.g)`right
      ensures parent.left == kin.k && parent.right == kin.l && parent.parent == child
      ensures child.left == Exchange(old(parent.left), parent, child)
      ensures child.right == Exchange(old(parent.right), parent, child)
      ensures child.parent == kin.g
      ensures kin.sib != null ==> kin.sib.parent == child
      ensures min == if kin.g == null then child else old(min)
      ensures kin.k != null ==> kin.k.parent == parent
      ensures kin.l != null ==> kin.l.parent == parent
      ensures kin.g != null ==> kin.g.left == if old(kin.g.left) == parent then child else old(kin.g.left)
      ensures kin.g != null ==> kin.g.right == if old(kin.g.left) == parent then old(kin.g.right) else child
    {
      ExchangeRecords(parent, child, kin.sib);
      RelinkNeighbours(parent, child, kin);
    }

    /** Rewriting six nodes in place transposes parent and child in the whole memory. */
    method Relink(parent: HeapNode, child: HeapNode, ghost nodes: set<HeapNode>, ghost kin: Kin)
      requires Family(LinksOf(nodes), parent, child, kin)
      modifies this`min, nodes`left, nodes`right, nodes`parent
      ensures LinksOf(nodes) == Transposed(old(LinksOf(nodes)), parent, child)
      ensures min == if kin.g == null then child else old(min)
    {
      ghost var before := LinksOf(nodes);
      assert before[parent] == Link(parent.left, parent.right, parent.parent);
      assert before[child] == Link(child.left, child.right, child.parent);
      Rewire(parent, child, kin);
      ghost var after := LinksOf(nodes);
      assert after[parent] == Link(kin.k, kin.l, child);
      assert after[child] == Link(Exchange(before[parent].left, parent, child), Exchange(before[parent].right, parent, child), kin.g);
      assert kin.sib != null ==> after[kin.sib] == before[kin.sib].(parent := child);
      assert kin.k != null ==> after[kin.k] == before[kin.k].(parent := parent);
      assert kin.l != null ==> after[kin.l] == before[kin.l].(parent := parent);
      assert kin.g != null ==>
        after[kin.g] == if before[kin.g].left == parent then before[kin.g].(left := child) else before[kin.g].(right := child);
      TransposedFamily(before, after, parent, child, kin);
    }

    method SwapInTree(parent: HeapNode, child: HeapNode, ghost s: seq<HeapNode>, ghost tree: map<HeapNode, int>, ghost c: nat)
      requires Shaped(s, tree, LinksOf(tree.Keys)) && min == At(s, 0)
      requires 0 < c < |s| && child == s[c] && parent == s[Up(c)]
      modifies this`min, tree.Keys`left, tree.Keys`right, tree.Keys`parent
      ensures Shaped(Swapped(s, Up(c), c), Moved(tree, child, Up(c), parent, c), LinksOf(tree.Keys))
      ensures min == At(Swapped(s, Up(c), c), 0)
      ensures Moved(tree, child, Up(c), parent, c).Keys == tree.Keys
    {
      hide Shaped, Family, LinksOf;
      FamilyAt(s, tree, LinksOf(tree.Keys), Up(c), c);
      TransposedShape(s, tree, LinksOf(tree.Keys), Up(c), c);
      Relink(parent, child, tree.Keys, KinAt(s, Up(c), c));
    }

    /** Takes s and tree as the new level order of nodes already linked that way. */
    ghost method Adopt(s: seq<HeapNode>, tree: map<HeapNode, int>)
      requires Shaped(s, tree, LinksOf(tree.Keys)) && min == At(s, 0) && nelts == |s| < UINT_RANGE
      modifies this`order, this`pos
      ensures Linked() && order == s && pos == tree
    {
      order, pos := s, tree;
    }

    method NodeSwap(parent: HeapNode, child: HeapNode)
      requires Linked()
      requires child in pos && pos[child] > 0 && parent == order[Up(pos[child])]
      modifies this`min, this`order, this`pos, pos.Keys`left, pos.Keys`right, pos.Keys`parent
      ensures order == Swapped(old(order), Up(old(pos[child])), old(pos[child]))
      ensures Linked() && pos.Keys == old(pos.Keys)
    {
      ghost var c := pos[child];
      SwapInTree(parent, child, order, pos, c);
      Adopt(Swapped(order, Up(c), c), Moved(pos, child, Up(c), parent, c));
    }

    // ----- walking to a slot -----

    ghost function Value(slot: Slot): HeapNode?
      reads this, SlotOwner(slot)
    {
      match slot
      case RootSlot => min
      case LeftSlot(x) => x.left
      case RightSlot(x) => x.right
    }

    lemma ReadsParent(parent: Slot)
      requires Linked() && parent == if order == [] then RootSlot else SlotAt(order, Up(|order|))
      ensures order != [] ==> Value(parent) == order[Up(|order|)] && SlotOwner(parent) <= pos.Keys
    {
      if order != [] {
        ReadsAt(parent, Up(|order|));
        if Up(|order|) > 0 {
          LinksAt(Up(Up(|order|)));
        }
      }
    }

    method ReadSlot(slot: Slot) returns (node: HeapNode?)
      ensures node == Value(slot)
    {
      match slot {
        case RootSlot => node := min;
        case LeftSlot(x) => node := x.left;
        case RightSlot(x) => node := x.right;
      }
    }

    /** One step of the walk: the slot held a node, and the path bit chooses one of its child pointers. */
    method Descend(slot: Slot, bit: nat, ghost v: nat) returns (child: Slot)
      requires Linked() && bit <= 1 && v >= 1 && 2 * v + bit <= |order| + 1
      requires slot == SlotAt(order, v - 1)
      ensures child == SlotAt(order, 2 * v + bit - 1) && slot == SlotAt(order, Up(2 * v + bit - 1))
    {
      hide Shaped, LinksOf;
      ReadsAt(slot, v - 1);
      var node := ReadSlot(slot);
      if bit == 1 {
        child := RightSlot(node);
      } else {
        child := LeftSlot(node);
      }
    }

    /** The walk reads only slots that hold a node, and stops at slot `number`, counted from 1. */
    method Walk(number: nat) returns (parent: Slot, child: Slot)
      requires Linked() && 1 <= number <= |order| + 1 && number < UINT_RANGE
      ensures child == SlotAt(order, number - 1)
      ensures parent == if number == 1 then RootSlot else SlotAt(order, Up(number - 1))
    {
      hide Linked;
      var path, k := PathTo(number);
      parent, child := RootSlot, RootSlot;
      ghost var v := 1;
      while k > 0
        invariant 1 <= v <= number == Follow(v, path, k)
        invariant child == SlotAt(order, v - 1)
        invariant parent == if v == 1 then RootSlot else SlotAt(order, Up(v - 1))
      {
        parent := child;
        child := Descend(child, path % 2, v);
        v := 2 * v + path % 2;
        path, k := path / 2, k - 1;
      }
    }

    lemma LinksAt(i: nat)
      requires Linked() && i < |order|
      ensures order[i] in pos && pos[order[i]] == i && Link(order[i].left, order[i].right, order[i].parent) == ShapeAt(order, i)
    {
      assert ShapedAt(order, LinksOf(pos.Keys), i);
    }

    lemma ReadsAt(slot: Slot, i: nat)
      requires Linked() && i < |order| && slot == SlotAt(order, i)
      ensures Value(slot) == order[i]
    {
      if i > 0 {
        LinksAt(Up(i));
      }
    }

    // ----- restoring heap order -----

    ghost predicate SiftingUp(node: HeapNode, due: map<HeapNode, nat>)
      reads this, pos.Keys
    {
      && Linked() && node in pos && Timed(order, due)
      && OrderedBelow(order, due, pos[node])
      && Link(node.left, node.right, node.parent) == ShapeAt(order, pos[node])
    }

    /** The node is the root or due no earlier than its parent. */
    ghost predicate RestsOnParent(node: HeapNode, due: map<HeapNode, nat>)
      reads this
    {
      && node in pos && 0 <= pos[node] < |order| && Timed(order, due)
      && (pos[node] > 0 ==> EdgeOk(order, due, pos[node]))
    }

    ghost function DepthOf(node: HeapNode): nat
      reads this
    {
      if node in pos && pos[node] >= 0 then Depth(pos[node]) else 0
    }

    method SwapUp(node: HeapNode, ghost due: map<HeapNode, nat>)
      requires SiftingUp(node, due) && pos[node] > 0 && due[node] < due[order[Up(pos[node])]]
      modifies this`min, this`order, this`pos, pos.Keys`left, pos.Keys`right, pos.Keys`parent
      ensures SiftingUp(node, due) && pos.Keys == old(pos.Keys) && pos[node] == Up(old(pos[node]))
    {
      SiftUpStep(order, due, pos[node]);
      NodeSwap(node.parent, node);
      LinksAt(Up(old(pos[node])));
    }

    /** Swaps a node with its parent until it is due no earlier; at most one swap a level. */
    method SiftUp(node: HeapNode) returns (ghost swaps: nat)
      requires SiftingUp(node, DuesOf(pos.Keys))
      modifies this`min, this`order, this`pos, pos.Keys`left, pos.Keys`right, pos.Keys`parent
      ensures Valid() && pos.Keys == old(pos.Keys)
      ensures swaps <= old(DepthOf(node))
      ensures old(RestsOnParent(node, DuesOf(pos.Keys))) ==> swaps == 0
    {
      swaps := 0;
      ghost var due, nodes := DuesOf(pos.Keys), pos.Keys;
      while node.parent != null && node.dueTime < node.parent.dueTime
        invariant SiftingUp(node, due) && pos.Keys == nodes
        invariant swaps + DepthOf(node) == old(DepthOf(node))
        invariant swaps == 0 ==> order == old(order) && pos == old(pos)
        invariant swaps > 0 ==> !old(RestsOnParent(node, DuesOf(pos.Keys)))
        decreases DepthOf(node)
      {
        SwapUp(node, due);
        swaps := swaps + 1;
      }
    }

    ghost predicate SiftingDown(node: HeapNode, due: map<HeapNode, nat>)
      reads this, pos.Keys
    {
      && Linked() && node in pos && Timed(order, due)
      && OrderedAround(order, due, pos[node])
    }

    method SmallestOf(child: HeapNode) returns (smallest: HeapNode)
      requires Linked() && child in pos && Timed(order, DuesOf(pos.Keys))
      ensures smallest in pos
      ensures smallest != child ==> SmallestChild(order, DuesOf(pos.Keys), pos[child], pos[smallest])
      ensures smallest == child ==> forall i :: 0 < i < |order| && Up(i) == pos[child] ==> EdgeOk(order, DuesOf(pos.Keys), i)
    {
      LinksAt(pos[child]);
      smallest := child;
      if child.left != null && child.left.dueTime < smallest.dueTime {
        smallest := child.left;
      }
      if child.right != null && child.right.dueTime < smallest.dueTime {
        smallest := child.right;
      }
    }

    method SwapDown(node: HeapNode, smallest: HeapNode, ghost due: map<HeapNode, nat>)
      requires SiftingDown(node, due) && smallest in pos && SmallestChild(order, due, pos[node], pos[smallest])
      modifies this`min, this`order, this`pos, pos.Keys`left, pos.Keys`right, pos.Keys`parent
      ensures SiftingDown(node, due) && pos.Keys == old(pos.Keys)
      ensures RestsOnParent(node, due) && DepthOf(node) == old(DepthOf(node)) + 1
      ensures 0 <= old(pos[node]) < pos[node] < |order| == old(|order|)
    {
      SiftDownStep(order, due, pos[node], pos[smallest]);
      NodeSwap(node, smallest);
    }

    lemma Settled(node: HeapNode, due: map<HeapNode, nat>)
      requires SiftingDown(node, due)
      requires forall i :: 0 < i < |order| && Up(i) == pos[node] ==> EdgeOk(order, due, i)
      ensures SiftingUp(node, due)
    {
      LinksAt(pos[node]);
    }

    /** One round of the downward loop: no swap exactly when no child is due earlier. */
    method DownRound(child: HeapNode, ghost due: map<HeapNode, nat>) returns (smallest: HeapNode)
      requires SiftingDown(child, due) && due == DuesOf(pos.Keys)
      modifies this`min, this`order, this`pos, pos.Keys`left, pos.Keys`right, pos.Keys`parent
      ensures pos.Keys == old(pos.Keys)
      ensures smallest == child ==>
        && SiftingUp(child, due) && DepthOf(child) == old(DepthOf(child))
        && RestsOnParent(child, due) == old(RestsOnParent(child, due))
      ensures smallest != child ==>
        && SiftingDown(child, due) && 0 <= old(pos[child]) < pos[child] < |order| == old(|order|)
        && RestsOnParent(child, due) && DepthOf(child) == old(DepthOf(child)) + 1
    {
      smallest := SmallestOf(child);
      if smallest == child {
        Settled(child, due);
      } else {
        SwapDown(child, smallest, due);
      }
    }

    /** Swaps a node with its smallest child until no child is due earlier. */
    method SiftDown(child: HeapNode) returns (ghost swaps: nat)
      requires SiftingDown(child, DuesOf(pos.Keys))
      modifies this`min, this`order, this`pos, pos.Keys`left, pos.Keys`right, pos.Keys`parent
      ensures SiftingUp(child, DuesOf(pos.Keys)) && pos.Keys == old(pos.Keys)
      ensures swaps + old(DepthOf(child)) == DepthOf(child)
      ensures swaps > 0 ==> RestsOnParent(child, DuesOf(pos.Keys))
    {
      hide Linked, RestsOnParent, DepthOf, DuesOf, OrderedAround, SiftingUp;
      swaps := 0;
      ghost var due, nodes := DuesOf(pos.Keys), pos.Keys;
      while true
        invariant SiftingDown(child, due) && pos.Keys == nodes && child in nodes
        invariant swaps + old(DepthOf(child)) == DepthOf(child)
        invariant swaps > 0 ==> RestsOnParent(child, due)
        decreases |order| - pos[child]
      {
        var smallest := DownRound(child, due);
        if smallest == child {
          break;
        }
        swaps := swaps + 1;
      }
    }

    // ----- heap_insert -----

    method WriteSlot(slot: Slot, node: HeapNode?)
      modifies this`min, SlotOwner(slot)`left, SlotOwner(slot)`right
      ensures min == if slot.RootSlot? then node else old(min)
      ensures slot.LeftSlot? ==> slot.node.left == node && slot.node.right == old(slot.node.right)
      ensures slot.RightSlot? ==> slot.node.right == node && slot.node.left == old(slot.node.left)
    {
      match slot {
        case RootSlot => min := node;
        case LeftSlot(x) => x.left := node;
        case RightSlot(x) => x.right := node;
      }
    }

    method Hang(newnode: HeapNode, parent: Slot, child: Slot)
      requires newnode !in SlotOwner(parent) && newnode !in SlotOwner(child)
      modifies this`min, SlotOwner(child)`left, SlotOwner(child)`right, newnode`left, newnode`right, newnode`parent
      ensures newnode.left == newnode.right == null && newnode.parent == old(Value(parent))
      ensures min == if child.RootSlot? then newnode else old(min)
      ensures child.LeftSlot? ==> child.node.left == newnode && child.node.right == old(child.node.right)
      ensures child.RightSlot? ==> child.node.right == newnode && child.node.left == old(child.node.left)
    {
      newnode.left, newnode.right, newnode.parent := null, null, null;
      newnode.parent := ReadSlot(parent);
      WriteSlot(child, newnode);
    }

    method AttachInTree(newnode: HeapNode, parent: Slot, child: Slot, ghost s: seq<HeapNode>, ghost m: Links)
      requires m == LinksOf(m.Keys) && newnode !in m
      requires s == [] ==> m == map[] && parent == child == RootSlot && min == null
      requires s != [] ==> child == (if |s| % 2 == 1 then LeftSlot(s[Up(|s|)]) else RightSlot(s[Up(|s|)]))
      requires s != [] ==> s[Up(|s|)] in m && newnode !in SlotOwner(parent) && Value(parent) == s[Up(|s|)]
      modifies this`min, m.Keys`left, m.Keys`right, newnode`left, newnode`right, newnode`parent
      ensures LinksOf(m.Keys + {newnode}) == Grown(m, s, newnode)
      ensures min == if s == [] then newnode else old(min)
    {
      Hang(newnode, parent, child);
      ghost var m' := LinksOf(m.Keys + {newnode});
      if s != [] {
        ghost var p := s[Up(|s|)];
        assert m[p] == old(Link(p.left, p.right, p.parent));
        forall x <- m'
          ensures m'[x] == Grown(m, s, newnode)[x]
        {
          assert x in m ==> m[x] == old(Link(x.left, x.right, x.parent));
        }
      }
    }

    method AttachToTree(newnode: HeapNode, parent: Slot, child: Slot, ghost s: seq<HeapNode>, ghost tree: map<HeapNode, int>)
      requires Shaped(s, tree, LinksOf(tree.Keys)) && min == At(s, 0) && newnode !in tree
      requires child == SlotAt(s, |s|) && parent == if s == [] then RootSlot else SlotAt(s, Up(|s|))
      requires s != [] ==> newnode !in SlotOwner(parent) && Value(parent) == s[Up(|s|)]
      modifies this`min, tree.Keys`left, tree.Keys`right, newnode`left, newnode`right, newnode`parent
      ensures Shaped(s + [newnode], Placed(tree, newnode, |s|), LinksOf(Placed(tree, newnode, |s|).Keys))
      ensures min == At(s + [newnode], 0)
      ensures Placed(tree, newnode, |s|).Keys == tree.Keys + {newnode}
    {
      AppendShape(s, tree, LinksOf(tree.Keys), newnode);
      AppendIndexed(s, tree, newnode);
      AttachInTree(newnode, parent, child, s, LinksOf(tree.Keys));
    }

    /** Hangs a new node on the first free slot. */
    method Attach(newnode: HeapNode)
      requires Linked() && newnode !in pos && nelts + 1 < UINT_RANGE
      modifies this`min, this`nelts, this`order, this`pos, pos.Keys`left, pos.Keys`right
      modifies newnode`left, newnode`right, newnode`parent
      ensures Linked() && order == old(order) + [newnode] && pos == Placed(old(pos), newnode, |old(order)|)
      ensures pos.Keys == old(pos.Keys) + {newnode}
    {
      hide Shaped, LinksOf;
      var parent, child := Walk(1 + nelts);
      ReadsParent(parent);
      nelts := nelts + 1;
      AttachToTree(newnode, parent, child, order, pos);
      Adopt(order + [newnode], Placed(pos, newnode, |order|));
    }

    /** Adds a node; links change, due times and node identities do not. */
    method Insert(newnode: HeapNode) returns (ghost swaps: nat)
      requires Valid() && newnode !in pos && nelts + 1 < UINT_RANGE
      modifies this`min, this`nelts, this`order, this`pos
      modifies pos.Keys`left, pos.Keys`right, pos.Keys`parent, newnode`left, newnode`right, newnode`parent
      ensures Valid() && pos.Keys == old(pos.Keys) + {newnode}
      ensures Pow2(swaps) <= nelts == old(nelts) + 1
    {
      ghost var s, due, n := order, DuesOf(pos.Keys), |order|;
      Attach(newnode);
      AppendOrder(s, due, DuesOf(pos.Keys), newnode);
      LinksAt(n);
      DepthIsLogarithmic(n);
      swaps := SiftUp(newnode);
      Pow2Grows(swaps, Depth(n));
    }

    // ----- heap_remove -----

    method DetachInTree(max: Slot, ghost s: seq<HeapNode>, ghost m: Links) returns (child: HeapNode)
      requires m == LinksOf(m.Keys) && s != [] && s[|s| - 1] in m
      requires |s| == 1 ==> max == RootSlot && min == s[0] && m.Keys == {s[0]}
      requires |s| > 1 ==>
        var n := |s| - 1;
        && max == (if n % 2 == 1 then LeftSlot(s[Up(n)]) else RightSlot(s[Up(n)]))
        && s[Up(n)] in m && s[Up(n)] != s[n] && Value(max) == s[n]
      modifies this`min, m.Keys`left, m.Keys`right
      ensures child == s[|s| - 1] && LinksOf(m.Keys - {child}) == Shrunk(m, s)
      ensures min == if |s| == 1 then null else old(min)
      ensures child.left == old(child.left) && child.right == old(child.right) && child.parent == old(child.parent)
    {
      child := ReadSlot(max);
      WriteSlot(max, null);
      ghost var m' := LinksOf(m.Keys - {child});
      if |s| > 1 {
        ghost var p := s[Up(|s| - 1)];
        assert m[p] == old(Link(p.left, p.right, p.parent));
        forall x <- m'
          ensures m'[x] == Shrunk(m, s)[x]
        {
          assert m[x] == old(Link(x.left, x.right, x.parent));
        }
      }
    }

    method DetachFromTree(max: Slot, ghost s: seq<HeapNode>, ghost tree: map<HeapNode, int>) returns (child: HeapNode)
      requires Shaped(s, tree, LinksOf(tree.Keys)) && min == At(s, 0) && s != []
      requires max == SlotAt(s, |s| - 1) && Value(max) == s[|s| - 1]
      modifies this`min, tree.Keys`left, tree.Keys`right
      ensures var n := |s| - 1;
        && child == s[n] && child in tree && min == At(s[..n], 0)
        && Shaped(s[..n], Removed(tree, child), LinksOf(Removed(tree, child).Keys))
        && Removed(tree, child).Keys == tree.Keys - {child}
    {
      DropLastShape(s, tree, LinksOf(tree.Keys));
      DropLastIndexed(s, tree);
      child := DetachInTree(max, s, LinksOf(tree.Keys));
    }

    /** Unlinks the node in the last slot. */
    method DetachLast() returns (child: HeapNode)
      requires Linked() && order != []
      modifies this`min, this`nelts, this`order, this`pos, pos.Keys`left, pos.Keys`right
      ensures child == old(order)[|old(order)| - 1] && child in old(pos)
      ensures order == old(order)[..|old(order)| - 1] && pos == Removed(old(pos), child)
      ensures Linked() && pos.Keys == old(pos.Keys) - {child}
    {
      hide Shaped, LinksOf;
      var _, max := Walk(nelts);
      ReadsAt(max, |order| - 1);
      child := DetachFromTree(max, order, pos);
      nelts := nelts - 1;
      Adopt(order[..|order| - 1], Removed(pos, child));
    }

    method TakeOver(node: HeapNode, child: HeapNode, ghost k: HeapNode?, ghost l: HeapNode?, ghost g: HeapNode?)
      requires node.left == k && node.right == l && node.parent == g && node != child
      requires Off(k, {node, child}) && Off(l, {node, child, k}) && Off(g, {node, child, k, l})
      modifies this`min, child`left, child`right, child`parent
      modifies Opt(k)`parent, Opt(l)`parent, Opt(g)`left, Opt(g)`right
      ensures child.left == k && child.right == l && child.parent == g
      ensures k != null ==> k.parent == child
      ensures l != null ==> l.parent == child
      ensures min == if g == null then child else old(min)
      ensures g != null ==> g.left == if old(g.left) == node then child else old(g.left)
      ensures g != null ==> g.right == if old(g.left) == node then old(g.right) else child
    {
      child.left := node.left;
      child.right := node.right;
      child.parent := node.parent;

      if child.left != null {
        child.left.parent := child;
      }

      if child.right != null {
        child.right.parent := child;
      }

      if node.parent == null {
        min := child;
      } else if node.parent.left == node {
        node.parent.left := child;
      } else {
        node.parent.right := child;
      }
    }

    method TakeOverInTree(node: HeapNode, child: HeapNode, ghost m: Links)
      requires m == LinksOf(m.Keys) && Alone(m, node) && child !in m
      modifies this`min, m.Keys`left, m.Keys`right, m.Keys`parent, child`left, child`right, child`parent
      ensures LinksOf(m.Keys - {node} + {child}) == Renamed(m, node, child)
      ensures min == if m[node].parent == null then child else old(min)
    {
      ghost var k, l, g := node.left, node.right, node.parent;
      assert m[node] == Link(k, l, g);
      TakeOver(node, child, k, l, g);
      ghost var after := LinksOf(m.Keys - {node} + {child});
      assert g != null ==> after[g] == if m[g].left == node then m[g].(left := child) else m[g].(right := child);
      assert k != null ==> after[k] == m[k].(parent := child);
      assert l != null ==> after[l] == m[l].(parent := child);
      RenamedAlone(m, after, node, child);
    }

    method ReplaceInTree(node: HeapNode, child: HeapNode, ghost s: seq<HeapNode>, ghost tree: map<HeapNode, int>, ghost r: nat)
      requires Shaped(s, tree, LinksOf(tree.Keys)) && min == At(s, 0)
      requires r < |s| && node == s[r] && child !in tree
      modifies this`min, tree.Keys`left, tree.Keys`right, tree.Keys`parent, child`left, child`right, child`parent
      ensures var tree' := Placed(Removed(tree, node), child, r);
        && Shaped(s[r := child], tree', LinksOf(tree'.Keys))
        && tree'.Keys == tree.Keys - {node} + {child}
      ensures min == At(s[r := child], 0)
    {
      AloneAt(s, tree, LinksOf(tree.Keys), r);
      RenamedShape(s, tree, LinksOf(tree.Keys), r, child);
      RenamedIndexed(s, tree, r, child);
      assert ShapedAt(s, LinksOf(tree.Keys), r);
      TakeOverInTree(node, child, LinksOf(tree.Keys));
    }

    /** Gives an unlinked node the place of a member. */
    method Replace(node: HeapNode, child: HeapNode)
      requires Linked() && node in pos && child !in pos
      modifies this`min, this`order, this`pos, pos.Keys`left, pos.Keys`right, pos.Keys`parent, child`left, child`right, child`parent
      ensures Linked() && order == old(order)[old(pos[node]) := child]
      ensures pos == Placed(Removed(old(pos), node), child, old(pos[node])) && pos.Keys == old(pos.Keys) - {node} + {child}
    {
      ghost var r := pos[node];
      ReplaceInTree(node, child, order, pos, r);
      Adopt(order[r := child], Placed(Removed(pos, node), child, r));
    }

    /** Takes the node in the last slot out of the heap. */
    method PopLast() returns (child: HeapNode)
      requires Valid() && nelts > 0
      modifies this`min, this`nelts, this`order, this`pos, pos.Keys`left, pos.Keys`right
      ensures Valid() && nelts == old(nelts) - 1 && child in old(pos) && pos.Keys == old(pos.Keys) - {child}
      ensures min == null <==> nelts == 0
    {
      ghost var s, due := order, DuesOf(pos.Keys);
      child := DetachLast();
      PrefixOrder(s, due, DuesOf(pos.Keys), |order|);
    }

    method ReplaceMember(node: HeapNode, child: HeapNode)
      requires Valid() && node in pos && child !in pos
      modifies this`min, this`order, this`pos, pos.Keys`left, pos.Keys`right, pos.Keys`parent, child`left, child`right, child`parent
      ensures SiftingDown(child, DuesOf(pos.Keys)) && pos.Keys == old(pos.Keys) - {node} + {child}
    {
      ghost var s, due, r := order, DuesOf(pos.Keys), pos[node];
      Replace(node, child);
      ReplaceOrder(s, due, DuesOf(pos.Keys), r, child);
      LinksAt(r);
    }

    /** The downward loop and then the upward loop; at most one of them swaps. */
    method Restore(child: HeapNode) returns (ghost downs: nat, ghost ups: nat)
      requires SiftingDown(child, DuesOf(pos.Keys))
      modifies this`min, this`order, this`pos, pos.Keys`left, pos.Keys`right, pos.Keys`parent
      ensures Valid() && pos.Keys == old(pos.Keys)
      ensures downs == 0 || ups == 0
      ensures Pow2(downs) <= nelts && Pow2(ups) <= nelts
    {
      downs := SiftDown(child);
      ghost var d := Depth(pos[child]);
      DepthIsLogarithmic(pos[child]);
      ups := SiftUp(child);
      Pow2Grows(downs, d);
      Pow2Grows(ups, d);
    }

    static lemma OneOutOneBack(all: set<HeapNode>, x: HeapNode, y: HeapNode)
      requires x in all && x != y
      ensures all - {x} - {y} + {x} == all - {y}
    {
    }

    lemma EmptyHeap()
      requires Linked() && nelts == 0
      ensures pos.Keys == {}
    {
    }

    method PutInPlaceOf(node: HeapNode, child: HeapNode) returns (ghost downs: nat, ghost ups: nat)
      requires Valid() && node in pos && child !in pos
      modifies this`min, this`order, this`pos, pos.Keys`left, pos.Keys`right, pos.Keys`parent, child`left, child`right, child`parent
      ensures Valid() && pos.Keys == old(pos.Keys) - {node} + {child}
      ensures downs == 0 || ups == 0
      ensures Pow2(downs) <= nelts && Pow2(ups) <= nelts
    {
      ReplaceMember(node, child);
      downs, ups := Restore(child);
    }

    /** Removes any member; the downward and the upward loop never both swap. */
    method Remove(node: HeapNode) returns (ghost downs: nat, ghost ups: nat)
      requires Valid() && (nelts > 0 ==> node in pos)
      modifies this`min, this`nelts, this`order, this`pos, pos.Keys`left, pos.Keys`right, pos.Keys`parent
      ensures Valid() && pos.Keys == old(pos.Keys) - {node}
      ensures downs == 0 || ups == 0
      ensures old(nelts) > 0 ==> Pow2(downs) <= old(nelts) && Pow2(ups) <= old(nelts)
    {
      hide Shaped, Ordered, LinksOf;
      downs, ups := 0, 0;
      if nelts == 0 {
        EmptyHeap();
        return;
      }
      var child := PopLast();
      if child == node {
        return;
      }
      downs, ups := PutInPlaceOf(node, child);
      OneOutOneBack(old(pos.Keys), child, node);
    }
  }
}