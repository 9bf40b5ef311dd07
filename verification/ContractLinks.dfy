/** Linking contracts that were ever traded in one order
    (the union-find of `build_episodes`, scripts/rh_sync.py). */
module ContractLinks {
  import opened Fills

  /** Contracts are linked per symbol. */
  datatype Node = Node(symbol: string, contract: Contract)

  function NodeOf(f: Fill): Node {
    Node(f.symbol, f.contract)
  }

  // ------------------------------------------------- what being linked means

  predicate SameOrder(f: Fill, g: Fill) {
    f.symbol == g.symbol && f.orderId == g.orderId
  }

  ghost predicate Linked(fills: seq<Fill>, a: Node, b: Node) {
    exists f, g :: f in fills && g in fills && SameOrder(f, g) && NodeOf(f) == a && NodeOf(g) == b
  }

  ghost predicate IsPath(fills: seq<Fill>, p: seq<Node>) {
    p != [] && forall i :: 0 <= i < |p| - 1 ==> Linked(fills, p[i], p[i+1])
  }

  ghost predicate Joins(fills: seq<Fill>, p: seq<Node>, a: Node, b: Node) {
    IsPath(fills, p) && p[0] == a && p[|p|-1] == b
  }

  /** Joined by a chain of orders. */
  ghost predicate Connected(fills: seq<Fill>, a: Node, b: Node) {
    exists p :: Joins(fills, p, a, b)
  }

  lemma {:induction false} ConnectedSelf(fills: seq<Fill>, a: Node)
    ensures Connected(fills, a, a)
  {
    assert Joins(fills, [a], a, a);
  }

  lemma {:induction false} LinkedConnected(fills: seq<Fill>, a: Node, b: Node)
    requires Linked(fills, a, b)
    ensures Connected(fills, a, b)
  {
    assert Joins(fills, [a, b], a, b);
  }

  lemma {:induction false} ConnectedTrans(fills: seq<Fill>, a: Node, b: Node, c: Node)
    requires Connected(fills, a, b) && Connected(fills, b, c)
    ensures Connected(fills, a, c)
  {
    var p :| Joins(fills, p, a, b);
    var q :| Joins(fills, q, b, c);
    var r := p + q[1..];
    forall i | 0 <= i < |r| - 1 ensures Linked(fills, r[i], r[i+1]) {
      if i >= |p| - 1 {
        assert r[i] == q[i - |p| + 1] && r[i+1] == q[i - |p| + 2];
      }
    }
    assert Joins(fills, r, a, c);
  }

  lemma {:induction false} ConnectedSym(fills: seq<Fill>, a: Node, b: Node)
    requires Connected(fills, a, b)
    ensures Connected(fills, b, a)
  {
    var p :| Joins(fills, p, a, b);
    var r := seq(|p|, i requires 0 <= i < |p| => p[|p| - 1 - i]);
    forall i | 0 <= i < |r| - 1 ensures Linked(fills, r[i], r[i+1]) {
      assert Linked(fills, p[|p| - 2 - i], p[|p| - 1 - i]);
    }
    assert Joins(fills, r, b, a);
  }

  /** A chain of orders never leaves its symbol. */
  lemma {:induction false} PathKeepsSymbol(fills: seq<Fill>, p: seq<Node>)
    requires IsPath(fills, p)
    ensures p[|p|-1].symbol == p[0].symbol
    decreases |p|
  {
    if |p| > 1 {
      var q := p[..|p|-1];
      assert forall i :: 0 <= i < |q| - 1 ==> Linked(fills, q[i], q[i+1]);
      PathKeepsSymbol(fills, q);
      assert Linked(fills, p[|p|-2], p[|p|-2+1]);
    }
  }

  lemma {:induction false} ConnectedKeepsSymbol(fills: seq<Fill>, a: Node, b: Node)
    requires Connected(fills, a, b)
    ensures a.symbol == b.symbol
  {
    var p :| Joins(fills, p, a, b);
    PathKeepsSymbol(fills, p);
  }

  // ------------------------------------------------------ the parent forest

  /** The parent of x is a node, and lower unless x is a root. */
  ghost predicate Descends(parent: map<Node, Node>, height: map<Node, nat>, x: Node)
    requires height.Keys == parent.Keys && x in parent
  {
    parent[x] in parent && (parent[x] != x ==> height[parent[x]] < height[x])
  }

  ghost predicate WellFounded(parent: map<Node, Node>, height: map<Node, nat>) {
    && height.Keys == parent.Keys
    && forall x {:trigger Descends(parent, height, x)} :: x in parent ==> Descends(parent, height, x)
  }

  ghost function Root(parent: map<Node, Node>, height: map<Node, nat>, x: Node): (r: Node)
    requires WellFounded(parent, height) && x in parent
    ensures r in parent && parent[r] == r
    decreases height[x]
  {
    assert Descends(parent, height, x);
    if parent[x] == x then x else Root(parent, height, parent[x])
  }

  function Halved(parent: map<Node, Node>, y: Node): map<Node, Node>
    requires y in parent && parent[y] in parent
  {
    parent[y := parent[parent[y]]]
  }

  lemma {:induction false} HalvingWellFounded(parent: map<Node, Node>, height: map<Node, nat>, y: Node)
    requires WellFounded(parent, height) && y in parent && parent[y] in parent
    ensures WellFounded(Halved(parent, y), height)
    ensures Halved(parent, y).Keys == parent.Keys
  {
    var halved := Halved(parent, y);
    assert Descends(parent, height, y) && Descends(parent, height, parent[y]);
    assert halved.Keys == parent.Keys;
    forall x | x in halved ensures Descends(halved, height, x) {
      assert Descends(parent, height, x);
    }
  }

  lemma {:induction false} RootOfParent(parent: map<Node, Node>, height: map<Node, nat>, y: Node)
    requires WellFounded(parent, height) && y in parent
    ensures parent[y] in parent
    ensures parent[y] != y ==> height[parent[y]] < height[y]
    ensures Root(parent, height, parent[y]) == Root(parent, height, y)
  {
    assert Descends(parent, height, y);
  }

  /** Path halving moves one pointer up and leaves every root alone. */
  lemma {:induction false} HalvingKeepsRoot(parent: map<Node, Node>, height: map<Node, nat>, y: Node, z: Node)
    requires WellFounded(parent, height) && y in parent && z in parent && parent[y] in parent
    requires WellFounded(Halved(parent, y), height)
    ensures Root(Halved(parent, y), height, z) == Root(parent, height, z)
    decreases height[z]
  {
    RootOfParent(parent, height, z);
    RootOfParent(parent, height, parent[z]);
    RootOfParent(Halved(parent, y), height, z);
    var up := Halved(parent, y)[z];
    if up != z {
      HalvingKeepsRoot(parent, height, y, up);
    }
  }

  ghost function Raise(parent: map<Node, Node>, height: map<Node, nat>, ra: Node, lift: nat): (h: map<Node, nat>)
    requires WellFounded(parent, height)
    ensures h.Keys == height.Keys
  {
    map z | z in parent :: height[z] + if Root(parent, height, z) == ra then lift else 0
  }

  lemma {:induction false} HangingWellFounded(parent: map<Node, Node>, height: map<Node, nat>, ra: Node, rb: Node)
    requires WellFounded(parent, height) && ra in parent && rb in parent
    requires parent[ra] == ra && parent[rb] == rb && ra != rb
    ensures WellFounded(parent[ra := rb], Raise(parent, height, ra, height[rb] + 1))
  {
    var hung, raised := parent[ra := rb], Raise(parent, height, ra, height[rb] + 1);
    assert hung.Keys == parent.Keys;
    forall x | x in hung ensures Descends(hung, raised, x) {
      if x == ra {
        assert Root(parent, height, rb) == rb;
      } else {
        RootOfParent(parent, height, x);
      }
    }
  }

  /** Hanging one root below another merges exactly their two trees. */
  lemma {:induction false} HangingMerges(parent: map<Node, Node>, height: map<Node, nat>, raised: map<Node, nat>,
                                         ra: Node, rb: Node, z: Node)
    requires WellFounded(parent, height) && ra in parent && rb in parent && z in parent
    requires parent[ra] == ra && parent[rb] == rb && ra != rb
    requires WellFounded(parent[ra := rb], raised)
    ensures Root(parent[ra := rb], raised, z)
         == if Root(parent, height, z) == ra then rb else Root(parent, height, z)
    decreases height[z]
  {
    RootOfParent(parent, height, z);
    RootOfParent(parent[ra := rb], raised, z);
    if z == ra {
      assert Root(parent[ra := rb], raised, rb) == rb;
    } else if parent[z] != z {
      HangingMerges(parent, height, raised, ra, rb, parent[z]);
    }
  }

  lemma {:induction false} HangingForest(parent: map<Node, Node>, height: map<Node, nat>, ra: Node, rb: Node)
    returns (raised: map<Node, nat>)
    requires WellFounded(parent, height) && ra in parent && rb in parent
    requires parent[ra] == ra && parent[rb] == rb
    ensures WellFounded(parent[ra := rb], raised)
    ensures forall z | z in parent :: Root(parent[ra := rb], raised, z)
              == if Root(parent, height, z) == ra then rb else Root(parent, height, z)
  {
    if ra == rb {
      raised := height;
      assert parent[ra := rb] == parent;
    } else {
      raised := Raise(parent, height, ra, height[rb] + 1);
      HangingWellFounded(parent, height, ra, rb);
      forall z | z in parent
        ensures Root(parent[ra := rb], raised, z)
             == if Root(parent, height, z) == ra then rb else Root(parent, height, z)
      {
        HangingMerges(parent, height, raised, ra, rb, z);
      }
    }
  }

  // ---------------------------------------------------------- representatives

  /** Who represents whom; a node never looked up represents itself. */
  type Reps = Node -> Node

  /** The class of a joins the class of b, and nothing else changes. */
  ghost predicate Merged(rep: Reps, rep': Reps, a: Node, b: Node) {
    forall y :: rep'(y) == if rep(y) == rep(a) then rep(b) else rep(y)
  }

  ghost predicate Represents(rep: Reps, parent: map<Node, Node>, height: map<Node, nat>) {
    && WellFounded(parent, height)
    && (forall x {:trigger Root(parent, height, x)} :: x in parent ==> rep(x) == Root(parent, height, x))
    && (forall x {:trigger x in parent} :: x !in parent ==> rep(x) == x)
  }

  lemma {:induction false} MergedRoots(p: map<Node, Node>, h: map<Node, nat>, raised: map<Node, nat>, rep: Reps,
                                       ra: Node, rb: Node)
    requires Represents(rep, p, h) && ra in p && rb in p && p[ra] == ra && p[rb] == rb
    requires WellFounded(p[ra := rb], raised)
    requires forall z | z in p :: Root(p[ra := rb], raised, z) == if Root(p, h, z) == ra then rb else Root(p, h, z)
    ensures rep(ra) == ra && rep(rb) == rb
    ensures Represents((y: Node) => if rep(y) == ra then rb else rep(y), p[ra := rb], raised)
  {
    assert rep(ra) == Root(p, h, ra) && rep(rb) == Root(p, h, rb);
    forall y | y in p[ra := rb]
      ensures (if rep(y) == ra then rb else rep(y)) == Root(p[ra := rb], raised, y)
    {
      assert rep(y) == Root(p, h, y);
    }
    forall y | y !in p[ra := rb] ensures rep(y) == y {
      assert y !in p;
    }
  }

  lemma {:induction false} Hung(p: map<Node, Node>, h: map<Node, nat>, rep: Reps, ra: Node, rb: Node)
    returns (raised: map<Node, nat>, merged: Reps)
    requires Represents(rep, p, h) && ra in p && rb in p && p[ra] == ra && p[rb] == rb
    ensures Represents(merged, p[ra := rb], raised) && Merged(rep, merged, ra, rb)
  {
    raised := HangingForest(p, h, ra, rb);
    merged := (y: Node) => if rep(y) == ra then rb else rep(y);
    MergedRoots(p, h, raised, rep, ra, rb);
  }

  class Forest {
    var parent: map<Node, Node>
    ghost var height: map<Node, nat>
    ghost var rep: Reps

    ghost predicate Valid()
      reads this
    {
      Represents(rep, parent, height)
    }

    lemma {:induction false} RepOfRep(x: Node)
      requires Valid()
      ensures rep(rep(x)) == rep(x)
    {
      if x in parent {
        var r := Root(parent, height, x);
        assert Root(parent, height, r) == r;
      }
    }

    constructor ()
      ensures Valid() && parent == map[]
      ensures forall x :: rep(x) == x
    {
      parent, height, rep := map[], map[], (x: Node) => x;
    }

    /** `parent.setdefault(x, x)` */
    method SetDefault(x: Node)
      requires Valid()
      modifies this`parent, this`height
      ensures Valid() && parent.Keys == old(parent.Keys) + {x}
      ensures forall y | y in old(parent) :: parent[y] == old(parent)[y]
    {
      if x !in parent {
        ghost var p, h := parent, height;
        AddingWellFounded(p, h, x);
        parent, height := parent[x := x], height[x := 0];
        forall y | y in parent ensures rep(y) == Root(parent, height, y) {
          if y != x {
            AddingKeepsRoot(p, h, x, y);
            assert rep(y) == Root(p, h, y);
          }
        }
      }
    }

    /** One turn of the loop in `find`: skip a generation. */
    method Halve(y: Node)
      requires Valid() && y in parent && parent[y] in parent
      modifies this`parent
      ensures Valid() && parent == Halved(old(parent), y)
      ensures parent.Keys == old(parent.Keys)
    {
      ghost var p := parent;
      HalvingWellFounded(p, height, y);
      parent := parent[y := parent[parent[y]]];
      forall z | z in parent ensures rep(z) == Root(parent, height, z) {
        HalvingKeepsRoot(p, height, y, z);
        assert rep(z) == Root(p, height, z);
      }
      assert forall z :: z in parent <==> z in p;
    }

    /** `find`, with path halving: it terminates and answers the representative,
        and nobody's representative changes. */
    method Find(x: Node) returns (r: Node)
      requires Valid()
      modifies this`parent, this`height
      ensures Valid() && r == rep(x)
      ensures r in parent && parent[r] == r
      ensures forall y | y in old(parent) && old(parent)[y] == y :: y in parent && parent[y] == y
    {
      SetDefault(x);
      r := x;
      while parent[r] != r
        invariant Valid() && r in parent && rep(r) == rep(x)
        invariant forall y | y in old(parent) && old(parent)[y] == y :: y in parent && parent[y] == y
        decreases height[r]
      {
        RootOfParent(parent, height, r);
        RootOfParent(parent, height, parent[r]);
        Halve(r);
        assert rep(r) == Root(parent, height, r);
        RootOfParent(parent, height, r);
        r := parent[r];
      }
      assert rep(r) == Root(parent, height, r) == r;
    }

    /** `parent[ra] = rb` for two roots. */
    method Hang(ra: Node, rb: Node)
      requires Valid() && ra in parent && rb in parent && parent[ra] == ra && parent[rb] == rb
      modifies this
      ensures Valid() && Merged(old(rep), rep, ra, rb)
    {
      ghost var raised, merged := Hung(parent, height, rep, ra, rb);
      parent, height, rep := parent[ra := rb], raised, merged;
    }

    /** `union(a, b)`: the class of `a` joins the class of `b`. */
    method Union(a: Node, b: Node)
      requires Valid()
      modifies this
      ensures Valid() && Merged(old(rep), rep, a, b)
    {
      RepOfRep(a);
      RepOfRep(b);
      var rb := Find(b);
      var ra := Find(a);
      Hang(ra, rb);
    }
  }

  lemma {:induction false} AddingWellFounded(parent: map<Node, Node>, height: map<Node, nat>, x: Node)
    requires WellFounded(parent, height) && x !in parent
    ensures WellFounded(parent[x := x], height[x := 0])
  {
    var p, h := parent[x := x], height[x := 0];
    assert p.Keys == h.Keys;
    forall y | y in p ensures Descends(p, h, y) {
      assert y != x ==> Descends(parent, height, y);
    }
  }

  lemma {:induction false} AddingKeepsRoot(parent: map<Node, Node>, height: map<Node, nat>, x: Node, y: Node)
    requires WellFounded(parent, height) && x !in parent && y in parent
    requires WellFounded(parent[x := x], height[x := 0])
    ensures Root(parent[x := x], height[x := 0], y) == Root(parent, height, y)
    decreases height[y]
  {
    RootOfParent(parent, height, y);
    if parent[y] != y {
      AddingKeepsRoot(parent, height, x, parent[y]);
    }
  }
}
