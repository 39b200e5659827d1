/** Heap nodes, the links between them, and the level-order sequence those links stand for.

    A heap's memory is read as a map from node to its three links.  The lemmas here relate
    such a map to the level-order sequence of a complete binary tree: position 0 is the root,
    and the children of position i are at 2i+1 and 2i+2. */
module HeapShape {

  /** A `heap_node` together with the due time of the timer item that embeds it. */
  class HeapNode {
    var left: HeapNode?
    var right: HeapNode?
    var parent: HeapNode?
    var dueTime: nat

    constructor ()
      ensures dueTime == 0
    {
      left, right, parent, dueTime := null, null, null, 0;
    }
  }

  datatype Link = Link(left: HeapNode?, right: HeapNode?, parent: HeapNode?)

  type Links = map<HeapNode, Link>

  ghost function LinksOf(nodes: set<HeapNode>): Links
    reads nodes
  {
    map x | x in nodes :: Link(x.left, x.right, x.parent)
  }

  ghost function DuesOf(nodes: set<HeapNode>): map<HeapNode, nat>
    reads nodes`dueTime
  {
    map x | x in nodes :: x.dueTime
  }

  ghost function At(s: seq<HeapNode>, i: int): HeapNode? {
    if 0 <= i < |s| then s[i] else null
  }

  function Up(i: int): int {
    (i - 1) / 2
  }

  /** `pos` is the inverse of the level-order sequence, so no node occurs twice. */
  ghost predicate Indexed(s: seq<HeapNode>, pos: map<HeapNode, int>) {
    && (forall i :: 0 <= i < |s| ==> s[i] in pos && pos[s[i]] == i)
    && (forall x {:trigger x in pos} :: x in pos ==> 0 <= pos[x] < |s| && s[pos[x]] == x)
  }

  ghost function Placed(pos: map<HeapNode, int>, x: HeapNode, i: int): map<HeapNode, int> {
    pos[x := i]
  }

  ghost function Moved(pos: map<HeapNode, int>, a: HeapNode, i: int, b: HeapNode, j: int): map<HeapNode, int> {
    pos[a := i][b := j]
  }

  ghost function ShapeAt(s: seq<HeapNode>, i: int): Link {
    Link(At(s, 2 * i + 1), At(s, 2 * i + 2), if i == 0 then null else At(s, Up(i)))
  }

  ghost predicate ShapedAt(s: seq<HeapNode>, m: Links, i: int)
    requires 0 <= i < |s|
  {
    s[i] in m && m[s[i]] == ShapeAt(s, i)
  }

  /** The links in `m` are exactly those of the complete, left-filled tree whose level order is `s`. */
  ghost predicate Shaped(s: seq<HeapNode>, pos: map<HeapNode, int>, m: Links) {
    && Indexed(s, pos)
    && m.Keys == pos.Keys
    && forall i :: 0 <= i < |s| ==> ShapedAt(s, m, i)
  }

  ghost function Opt(x: HeapNode?): set<HeapNode> {
    if x == null then {} else {x}
  }

  ghost predicate Off(x: HeapNode?, others: set<HeapNode?>) {
    x == null || x !in others
  }

  ghost function Exchange(x: HeapNode?, a: HeapNode, b: HeapNode): HeapNode? {
    if x == a then b else if x == b then a else x
  }

  /** Nodes a and b trade places: they swap records, and every link to one now leads to the other. */
  ghost function Transposed(m: Links, a: HeapNode, b: HeapNode): Links {
    map x | x in m && Exchange(x, a, b) in m ::
      var l := m[Exchange(x, a, b)];
      Link(Exchange(l.left, a, b), Exchange(l.right, a, b), Exchange(l.parent, a, b))
  }

  ghost function Swapped<T>(s: seq<T>, p: nat, c: nat): seq<T>
    requires p < |s| && c < |s|
  {
    s[p := s[c]][c := s[p]]
  }

  lemma SwappedAt(s: seq<HeapNode>, pos: map<HeapNode, int>, p: nat, c: nat, i: int)
    requires p < c < |s| && Indexed(s, pos)
    ensures At(Swapped(s, p, c), i) == Exchange(At(s, i), s[p], s[c])
  {
  }

  /** Transposing two nodes of the memory exchanges their two level-order positions and no others. */
  lemma TransposedShape(s: seq<HeapNode>, pos: map<HeapNode, int>, m: Links, p: nat, c: nat)
    requires p < c < |s| && Shaped(s, pos, m)
    ensures Shaped(Swapped(s, p, c), Moved(pos, s[c], p, s[p], c), Transposed(m, s[p], s[c]))
    ensures Moved(pos, s[c], p, s[p], c).Keys == pos.Keys
    ensures At(Swapped(s, p, c), 0) == if p == 0 then s[c] else At(s, 0)
  {
    assert ShapedAt(s, m, p) && ShapedAt(s, m, c);
    var t := Swapped(s, p, c);
    forall i | 0 <= i < |t|
      ensures ShapedAt(t, Transposed(m, s[p], s[c]), i)
    {
      assert ShapedAt(s, m, i) && s[i] == Exchange(t[i], s[p], s[c]);
      SwappedAt(s, pos, p, c, 2 * i + 1);
      SwappedAt(s, pos, p, c, 2 * i + 2);
      SwappedAt(s, pos, p, c, Up(i));
    }
  }

  // ----- the neighbourhood heap_node_swap touches -----

  /** The nodes around a parent and its child, in the order sibling, child's children, grandparent. */
  datatype Kin = Kin(sib: HeapNode?, k: HeapNode?, l: HeapNode?, g: HeapNode?) {
    ghost function Nodes(): set<HeapNode> {
      Opt(sib) + Opt(k) + Opt(l) + Opt(g)
    }

    ghost predicate Apart(parent: HeapNode, child: HeapNode) {
      && parent != child
      && Off(sib, {parent, child}) && Off(k, {parent, child, sib})
      && Off(l, {parent, child, sib, k}) && Off(g, {parent, child, sib, k, l})
    }
  }

  ghost function KinAt(s: seq<HeapNode>, p: nat, c: nat): Kin {
    Kin(At(s, 4 * p + 3 - c), At(s, 2 * c + 1), At(s, 2 * c + 2), if p == 0 then null else At(s, Up(p)))
  }

  /** No link of node x leads to parent or child, except from their own kin. */
  ghost predicate Outside(y: Link, x: HeapNode, parent: HeapNode, child: HeapNode, kin: Kin) {
    && (y.left == child || y.right == child ==> x == parent)
    && (y.left == parent || y.right == parent ==> x == kin.g)
    && (y.parent == parent ==> x == child || x == kin.sib)
    && (y.parent == child ==> x == kin.k || x == kin.l)
  }

  ghost predicate KinLinked(m: Links, parent: HeapNode, child: HeapNode, kin: Kin)
    requires {parent, child} + kin.Nodes() <= m.Keys
  {
    && (m[parent] == Link(child, kin.sib, kin.g) || m[parent] == Link(kin.sib, child, kin.g))
    && m[child] == Link(kin.k, kin.l, parent)
    && (kin.sib != null ==> m[kin.sib].parent == parent)
    && (kin.k != null ==> m[kin.k].parent == child)
    && (kin.l != null ==> m[kin.l].parent == child)
    && (kin.g != null ==> (m[kin.g].left == parent) != (m[kin.g].right == parent))
  }

  ghost predicate Family(m: Links, parent: HeapNode, child: HeapNode, kin: Kin) {
    && kin.Apart(parent, child)
    && {parent, child} + kin.Nodes() <= m.Keys
    && KinLinked(m, parent, child, kin)
    && forall x <- m :: Outside(m[x], x, parent, child, kin)
  }

  lemma OutsideAt(s: seq<HeapNode>, pos: map<HeapNode, int>, m: Links, p: nat, c: nat, i: nat)
    requires p < c < |s| && p == Up(c) && i < |s| && Shaped(s, pos, m)
    ensures ShapedAt(s, m, i) && Outside(m[s[i]], s[i], s[p], s[c], KinAt(s, p, c))
  {
    assert ShapedAt(s, m, i);
  }

  lemma ApartAt(s: seq<HeapNode>, pos: map<HeapNode, int>, p: nat, c: nat)
    requires p < c < |s| && p == Up(c) && Indexed(s, pos)
    ensures KinAt(s, p, c).Apart(s[p], s[c])
    ensures {s[p], s[c]} + KinAt(s, p, c).Nodes() <= pos.Keys
  {
  }

  lemma KinLinkedAt(s: seq<HeapNode>, pos: map<HeapNode, int>, m: Links, p: nat, c: nat)
    requires p < c < |s| && p == Up(c) && Shaped(s, pos, m)
    requires {s[p], s[c]} + KinAt(s, p, c).Nodes() <= m.Keys
    ensures KinLinked(m, s[p], s[c], KinAt(s, p, c))
  {
    assert ShapedAt(s, m, p) && ShapedAt(s, m, c);
    var kin := KinAt(s, p, c);
    assert kin.sib != null ==> m[kin.sib].parent == s[p] by {
      if kin.sib != null { ParentAt(s, pos, m, 4 * p + 3 - c); }
    }
    assert kin.k != null ==> m[kin.k].parent == s[c] by {
      if kin.k != null { ParentAt(s, pos, m, 2 * c + 1); }
    }
    assert kin.l != null ==> m[kin.l].parent == s[c] by {
      if kin.l != null { ParentAt(s, pos, m, 2 * c + 2); }
    }
    if p > 0 {
      GrandparentAt(s, pos, m, p);
    }
  }

  lemma ParentAt(s: seq<HeapNode>, pos: map<HeapNode, int>, m: Links, i: nat)
    requires 0 < i < |s| && Shaped(s, pos, m)
    ensures s[i] in m && m[s[i]].parent == s[Up(i)]
  {
    assert ShapedAt(s, m, i);
  }

  lemma GrandparentAt(s: seq<HeapNode>, pos: map<HeapNode, int>, m: Links, p: nat)
    requires 0 < p < |s| && Shaped(s, pos, m)
    ensures var y := ShapeAt(s, Up(p)); m[s[Up(p)]] == y && (y.left == s[p]) != (y.right == s[p])
  {
    assert ShapedAt(s, m, Up(p));
  }

  lemma FamilyAt(s: seq<HeapNode>, pos: map<HeapNode, int>, m: Links, p: nat, c: nat)
    requires p < c < |s| && p == Up(c) && Shaped(s, pos, m)
    ensures Family(m, s[p], s[c], KinAt(s, p, c))
    ensures KinAt(s, p, c).g == null <==> p == 0
  {
    ApartAt(s, pos, p, c);
    KinLinkedAt(s, pos, m, p, c);
    forall x <- m
      ensures Outside(m[x], x, s[p], s[c], KinAt(s, p, c))
    {
      OutsideAt(s, pos, m, p, c, pos[x]);
    }
  }

  /** Rewriting the links among kin is the same as transposing parent and child everywhere. */
  lemma TransposedFamily(before: Links, after: Links, parent: HeapNode, child: HeapNode, kin: Kin)
    requires Family(before, parent, child, kin)
    requires after.Keys == before.Keys
    requires after[parent] == Link(kin.k, kin.l, child)
    requires after[child] == Link(Exchange(before[parent].left, parent, child), Exchange(before[parent].right, parent, child), kin.g)
    requires kin.sib != null ==> after[kin.sib] == before[kin.sib].(parent := child)
    requires kin.k != null ==> after[kin.k] == before[kin.k].(parent := parent)
    requires kin.l != null ==> after[kin.l] == before[kin.l].(parent := parent)
    requires kin.g != null ==>
      after[kin.g] == if before[kin.g].left == parent then before[kin.g].(left := child) else before[kin.g].(right := child)
    requires forall x <- before :: x !in {parent, child} + kin.Nodes() ==> after[x] == before[x]
    ensures after == Transposed(before, parent, child)
  {
    forall x <- before
      ensures after[x] == Transposed(before, parent, child)[x]
    {
      assert Outside(before[x], x, parent, child, kin);
    }
  }

  // ----- growing, shrinking and replacing -----

  ghost function WithChild(m: Links, parent: HeapNode, i: int, child: HeapNode?): Links {
    if parent !in m then m
    else m[parent := if i % 2 == 1 then m[parent].(left := child) else m[parent].(right := child)]
  }

  /** The memory once x hangs, childless, on the first free position of s. */
  ghost function Grown(m: Links, s: seq<HeapNode>, x: HeapNode): Links {
    if s == [] then map[x := Link(null, null, null)]
    else var p := s[Up(|s|)]; WithChild(m[x := Link(null, null, p)], p, |s|, x)
  }

  lemma AppendIndexed(s: seq<HeapNode>, pos: map<HeapNode, int>, x: HeapNode)
    requires Indexed(s, pos) && x !in pos
    ensures Indexed(s + [x], Placed(pos, x, |s|)) && Placed(pos, x, |s|).Keys == pos.Keys + {x}
  {
  }

  /** Hanging a childless node below the parent of the first free position appends it to the level order. */
  lemma AppendShape(s: seq<HeapNode>, pos: map<HeapNode, int>, m: Links, x: HeapNode)
    requires Shaped(s, pos, m) && x !in m
    ensures Shaped(s + [x], Placed(pos, x, |s|), Grown(m, s, x))
    ensures s != [] ==> s[Up(|s|)] in m
  {
    var n := |s|;
    var t, m' := s + [x], Grown(m, s, x);
    AppendIndexed(s, pos, x);
    assert n > 0 ==> ShapedAt(s, m, Up(n));
    forall i | 0 <= i < |t|
      ensures ShapedAt(t, m', i)
    {
      assert i < n ==> ShapedAt(s, m, i);
    }
  }

  /** The memory once the link to the last position of s is cleared and its node left out. */
  ghost function Shrunk(m: Links, s: seq<HeapNode>): Links
    requires s != []
  {
    var n := |s| - 1;
    if n == 0 then map[] else WithChild(m, s[Up(n)], n, null) - {s[n]}
  }

  ghost function Removed(pos: map<HeapNode, int>, x: HeapNode): map<HeapNode, int> {
    pos - {x}
  }

  lemma DropLastIndexed(s: seq<HeapNode>, pos: map<HeapNode, int>)
    requires Indexed(s, pos) && s != []
    ensures var n := |s| - 1; s[n] in pos && Indexed(s[..n], Removed(pos, s[n])) && Removed(pos, s[n]).Keys == pos.Keys - {s[n]}
  {
  }

  /** Clearing the link to the last position drops that node from the level order. */
  lemma DropLastShape(s: seq<HeapNode>, pos: map<HeapNode, int>, m: Links)
    requires Shaped(s, pos, m) && s != []
    ensures var n := |s| - 1; Shaped(s[..n], Removed(pos, s[n]), Shrunk(m, s))
  {
    var n := |s| - 1;
    DropLastIndexed(s, pos);
    assert ShapedAt(s, m, n);
    if n > 0 {
      assert ShapedAt(s, m, Up(n));
      forall i | 0 <= i < n
        ensures ShapedAt(s[..n], Shrunk(m, s), i)
      {
        assert ShapedAt(s, m, i);
      }
    }
  }

  ghost function Rename(x: HeapNode?, a: HeapNode, b: HeapNode): HeapNode? {
    if x == a then b else x
  }

  /** Node b takes over a's record, and every link to a now leads to b. */
  ghost function Renamed(m: Links, a: HeapNode, b: HeapNode): Links
    requires a in m
  {
    map x | x in m.Keys - {a} + {b} ::
      var l := if x == b then m[a] else m[x];
      Link(Rename(l.left, a, b), Rename(l.right, a, b), Rename(l.parent, a, b))
  }

  lemma RenamedIndexed(s: seq<HeapNode>, pos: map<HeapNode, int>, r: nat, b: HeapNode)
    requires r < |s| && Indexed(s, pos) && b !in pos
    ensures s[r] in pos
    ensures var pos' := Placed(Removed(pos, s[r]), b, r); Indexed(s[r := b], pos') && pos'.Keys == pos.Keys - {s[r]} + {b}
  {
  }

  lemma RenamedShape(s: seq<HeapNode>, pos: map<HeapNode, int>, m: Links, r: nat, b: HeapNode)
    requires r < |s| && Shaped(s, pos, m) && b !in m
    ensures s[r] in m && Shaped(s[r := b], Placed(Removed(pos, s[r]), b, r), Renamed(m, s[r], b))
  {
    assert ShapedAt(s, m, r);
    RenamedIndexed(s, pos, r, b);
    var t := s[r := b];
    forall i | 0 <= i < |t|
      ensures ShapedAt(t, Renamed(m, s[r], b), i)
    {
      assert ShapedAt(s, m, i);
    }
  }

  // ----- heap order -----

  ghost predicate EdgeOk(s: seq<HeapNode>, due: map<HeapNode, nat>, i: int)
    requires 0 < i < |s| && s[i] in due && s[Up(i)] in due
  {
    due[s[Up(i)]] <= due[s[i]]
  }

  ghost predicate Timed(s: seq<HeapNode>, due: map<HeapNode, nat>) {
    forall i :: 0 <= i < |s| ==> s[i] in due
  }

  ghost predicate Ordered(s: seq<HeapNode>, due: map<HeapNode, nat>)
    requires Timed(s, due)
  {
    forall i :: 0 < i < |s| ==> EdgeOk(s, due, i)
  }

  /** Ordered but for the edge above position c, whose children already exceed c's parent. */
  ghost predicate OrderedBelow(s: seq<HeapNode>, due: map<HeapNode, nat>, c: nat)
    requires Timed(s, due) && c < |s|
  {
    && (forall i :: 0 < i < |s| && i != c ==> EdgeOk(s, due, i))
    && (forall i :: 0 < i < |s| && Up(i) == c && c > 0 ==> due[s[Up(c)]] <= due[s[i]])
  }

  /** Ordered but for the edges at position c, whose children already exceed c's parent. */
  ghost predicate OrderedAround(s: seq<HeapNode>, due: map<HeapNode, nat>, c: nat)
    requires Timed(s, due) && c < |s|
  {
    && (forall i :: 0 < i < |s| && i != c && Up(i) != c ==> EdgeOk(s, due, i))
    && (forall i :: 0 < i < |s| && Up(i) == c && c > 0 ==> due[s[Up(c)]] <= due[s[i]])
  }

  lemma SiftUpStep(s: seq<HeapNode>, due: map<HeapNode, nat>, c: nat)
    requires Timed(s, due) && 0 < c < |s| && OrderedBelow(s, due, c)
    requires due[s[c]] < due[s[Up(c)]]
    ensures Timed(Swapped(s, Up(c), c), due) && OrderedBelow(Swapped(s, Up(c), c), due, Up(c))
  {
    var p := Up(c);
    var t := Swapped(s, p, c);
    forall i | 0 < i < |t| && i != p
      ensures EdgeOk(t, due, i)
    {
      assert i != c ==> EdgeOk(s, due, i);
    }
    forall i | 0 < i < |t| && Up(i) == p && p > 0
      ensures due[t[Up(p)]] <= due[t[i]]
    {
      assert EdgeOk(s, due, p);
      assert i != c ==> EdgeOk(s, due, i);
    }
  }

  /** q is a child of c, below c's due time and not above the other child's. */
  ghost predicate SmallestChild(s: seq<HeapNode>, due: map<HeapNode, nat>, c: nat, q: nat)
    requires Timed(s, due)
  {
    && c < q < |s| && Up(q) == c && due[s[q]] < due[s[c]]
    && forall i :: 0 < i < |s| && Up(i) == c ==> due[s[q]] <= due[s[i]]
  }

  lemma SiftDownStep(s: seq<HeapNode>, due: map<HeapNode, nat>, c: nat, q: nat)
    requires Timed(s, due) && c < |s| && OrderedAround(s, due, c) && SmallestChild(s, due, c, q)
    ensures var t := Swapped(s, c, q);
      Timed(t, due) && OrderedAround(t, due, q) && due[t[c]] < due[t[q]]
  {
    var t := Swapped(s, c, q);
    forall i | 0 < i < |t| && i != q && Up(i) != q
      ensures EdgeOk(t, due, i)
    {
      assert i != c && Up(i) != c ==> EdgeOk(s, due, i);
    }
    forall i | 0 < i < |t| && Up(i) == q
      ensures due[t[Up(q)]] <= due[t[i]]
    {
      assert EdgeOk(s, due, i);
    }
  }

  /** The root of an ordered heap is due no later than any other member. */
  lemma {:induction false} RootIsEarliest(s: seq<HeapNode>, due: map<HeapNode, nat>, i: nat)
    requires Timed(s, due) && Ordered(s, due) && i < |s|
    ensures due[s[0]] <= due[s[i]]
  {
    if i > 0 {
      assert EdgeOk(s, due, i);
      RootIsEarliest(s, due, Up(i));
    }
  }

  ghost predicate Agree(due: map<HeapNode, nat>, due': map<HeapNode, nat>) {
    forall x :: x in due && x in due' ==> due[x] == due'[x]
  }

  /** A new last position can break heap order only above itself. */
  lemma AppendOrder(s: seq<HeapNode>, due: map<HeapNode, nat>, due': map<HeapNode, nat>, x: HeapNode)
    requires Timed(s, due) && Ordered(s, due) && Timed(s + [x], due') && Agree(due, due')
    ensures OrderedBelow(s + [x], due', |s|)
  {
    forall i | 0 < i < |s|
      ensures EdgeOk(s + [x], due', i)
    {
      assert EdgeOk(s, due, i);
    }
  }

  lemma PrefixOrder(s: seq<HeapNode>, due: map<HeapNode, nat>, due': map<HeapNode, nat>, n: nat)
    requires n <= |s| && Timed(s, due) && Ordered(s, due) && Timed(s[..n], due') && Agree(due, due')
    ensures Ordered(s[..n], due')
  {
    forall i | 0 < i < n
      ensures EdgeOk(s[..n], due', i)
    {
      assert EdgeOk(s, due, i);
    }
  }

  /** Overwriting one position of an ordered heap can break order only around that position. */
  lemma ReplaceOrder(s: seq<HeapNode>, due: map<HeapNode, nat>, due': map<HeapNode, nat>, r: nat, x: HeapNode)
    requires r < |s| && Timed(s, due) && Ordered(s, due) && Timed(s[r := x], due') && Agree(due, due')
    ensures OrderedAround(s[r := x], due', r)
  {
    var t := s[r := x];
    forall i | 0 < i < |t| && i != r && Up(i) != r
      ensures EdgeOk(t, due', i)
    {
      assert EdgeOk(s, due, i);
    }
    forall i | 0 < i < |t| && Up(i) == r && r > 0
      ensures due'[t[Up(r)]] <= due'[t[i]]
    {
      assert EdgeOk(s, due, i) && EdgeOk(s, due, r);
    }
  }

  // ----- one node takes another's place -----

  /** `a` is the only node at its position: its children and its parent are the only nodes linked to it. */
  ghost predicate Alone(m: Links, a: HeapNode) {
    && a in m
    && (m[a].parent != null ==> m[a].parent in m && (m[m[a].parent].left == a) != (m[m[a].parent].right == a))
    && (m[a].left != null ==> m[a].left in m && m[m[a].left].parent == a)
    && (m[a].right != null ==> m[a].right in m && m[m[a].right].parent == a)
    && Off(m[a].left, {a, m[a].parent}) && Off(m[a].right, {a, m[a].parent, m[a].left}) && m[a].parent != a
    && forall x <- m :: LinkedOnly(m[x], x, a, m[a])
  }

  ghost predicate LinkedOnly(y: Link, x: HeapNode, a: HeapNode, l: Link) {
    && (y.left == a || y.right == a ==> x == l.parent)
    && (y.parent == a ==> x == l.left || x == l.right)
  }

  lemma AloneAt(s: seq<HeapNode>, pos: map<HeapNode, int>, m: Links, r: nat)
    requires r < |s| && Shaped(s, pos, m)
    ensures Alone(m, s[r])
  {
    assert ShapedAt(s, m, r);
    if r > 0 {
      GrandparentAt(s, pos, m, r);
    }
    if 2 * r + 1 < |s| {
      ParentAt(s, pos, m, 2 * r + 1);
    }
    if 2 * r + 2 < |s| {
      ParentAt(s, pos, m, 2 * r + 2);
    }
    forall x <- m
      ensures LinkedOnly(m[x], x, s[r], m[s[r]])
    {
      assert ShapedAt(s, m, pos[x]);
    }
  }

  lemma RenamedAlone(before: Links, after: Links, a: HeapNode, b: HeapNode)
    requires Alone(before, a) && b !in before
    requires after.Keys == before.Keys - {a} + {b}
    requires after[b] == before[a]
    requires var g := before[a].parent; g != null ==>
      after[g] == if before[g].left == a then before[g].(left := b) else before[g].(right := b)
    requires var k := before[a].left; k != null ==> after[k] == before[k].(parent := b)
    requires var l := before[a].right; l != null ==> after[l] == before[l].(parent := b)
    requires forall x <- before :: x !in {a} + Opt(before[a].parent) + Opt(before[a].left) + Opt(before[a].right) ==> after[x] == before[x]
    ensures after == Renamed(before, a, b)
  {
    forall x <- after
      ensures after[x] == Renamed(before, a, b)[x]
    {
      assert x != b ==> LinkedOnly(before[x], x, a, before[a]);
    }
  }
}
