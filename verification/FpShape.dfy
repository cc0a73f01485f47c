/** The pointer structure of an FP-tree: nodes are indices into the arena that `newbuf` hands out,
  * linked by first child and right sibling. `Shape` is the ghost view of the same arena.
  */
module FpShape {
  import opened Common
  import opened HotBits
  import opened Sums

  /** A tree node; `leftchild` and `rightsibling` are arena indices or NULL. */
  datatype Fnode = Fnode(itemname: int, count: nat, leftchild: int, rightsibling: int)

  /** Of every node: the items on the path to it, its children in sibling order, its parent (NULL for the
    * root and for hot nodes not linked yet). `at` finds the node of a path. */
  datatype Shape = Shape(path: seq<seq<nat>>, kids: seq<seq<nat>>, par: seq<int>, at: map<seq<nat>, nat>)

  ghost predicate Sized(ns: seq<Fnode>, sh: Shape) {
    |sh.path| == |sh.kids| == |sh.par| == |ns|
  }

  ghost predicate KidOk(ns: seq<Fnode>, sh: Shape, n: nat, j: nat)
    requires Sized(ns, sh) && n < |ns| && j < |sh.kids[n]|
  {
    var c := sh.kids[n][j];
    && c < |ns|
    && sh.par[c] == n
    && ns[c].rightsibling == (if j + 1 < |sh.kids[n]| then sh.kids[n][j + 1] else NULL)
    && ns[c].itemname >= 0
    && sh.path[c] == sh.path[n] + [ns[c].itemname]
  }

  ghost predicate NodeOk(ns: seq<Fnode>, sh: Shape, n: nat)
    requires Sized(ns, sh) && n < |ns|
  {
    && sh.path[n] in sh.at && sh.at[sh.path[n]] == n
    && ns[n].leftchild == (if sh.kids[n] == [] then NULL else sh.kids[n][0])
    && (forall j :: 0 <= j < |sh.kids[n]| ==> KidOk(ns, sh, n, j))
    && (forall i, j :: 0 <= i < j < |sh.kids[n]| ==> sh.kids[n][i] != sh.kids[n][j])
    && (sh.par[n] == NULL || (0 <= sh.par[n] < |ns| && n in sh.kids[sh.par[n]]))
  }

  /** First-child and right-sibling pointers spell out the children lists, and no two nodes share a path;
    * so siblings carry distinct item names. */
  ghost predicate Linked(ns: seq<Fnode>, sh: Shape)
  {
    && Sized(ns, sh)
    && (forall n :: 0 <= n < |ns| ==> NodeOk(ns, sh, n))
    && (forall p :: p in sh.at ==> sh.at[p] < |ns| && sh.path[sh.at[p]] == p)
  }

  /** Link a fresh node below p: as first child, or else right after the first child. */
  function AddKid(ns: seq<Fnode>, p: nat, item: nat, w: nat): seq<Fnode>
    requires p < |ns| && NULL <= ns[p].leftchild < |ns|
  {
    var l := ns[p].leftchild;
    if l == NULL then ns[p := ns[p].(leftchild := |ns|)] + [Fnode(item, w, NULL, NULL)]
    else ns[l := ns[l].(rightsibling := |ns|)] + [Fnode(item, w, NULL, ns[l].rightsibling)]
  }

  /** Node c has come below p without moving p's first child: it is the first child itself, or its right sibling. */
  ghost predicate Placed(ns: seq<Fnode>, ns': seq<Fnode>, p: nat, c: nat)
  {
    && p < |ns| <= |ns'| && c < |ns'|
    && (ns[p].leftchild == NULL ==> ns'[p].leftchild == c && ns'[c].rightsibling == NULL)
    && (0 <= ns[p].leftchild < |ns| ==> var l := ns[p].leftchild;
          ns'[p].leftchild == l && ns'[l].rightsibling == c && ns'[c].rightsibling == ns[l].rightsibling)
  }

  lemma AddKidPlaced(ns: seq<Fnode>, p: nat, item: nat, w: nat)
    requires p < |ns| && NULL <= ns[p].leftchild < |ns|
    ensures Placed(ns, AddKid(ns, p, item, w), p, |ns|)
  {
  }

  ghost function ShapeAdd(sh: Shape, p: nat, item: nat): Shape
    requires p < |sh.path| == |sh.kids|
  {
    var c := |sh.path|;
    var ks := sh.kids[p];
    Shape(sh.path + [sh.path[p] + [item]],
          sh.kids[p := if ks == [] then [c] else [ks[0], c] + ks[1..]] + [[]],
          sh.par + [p],
          sh.at[sh.path[p] + [item] := c])
  }

  lemma AddKidOld(ns: seq<Fnode>, sh: Shape, p: nat, item: nat, w: nat, n: nat)
    requires Linked(ns, sh) && p < |ns| && sh.path[p] + [item] !in sh.at
    requires NULL <= ns[p].leftchild < |ns| && n < |ns| && n != p
    ensures NodeOk(AddKid(ns, p, item, w), ShapeAdd(sh, p, item), n)
  {
    var ns', sh' := AddKid(ns, p, item, w), ShapeAdd(sh, p, item);
    assert NodeOk(ns, sh, n) && NodeOk(ns, sh, p);
    assert sh'.kids[n] == sh.kids[n];
    forall j | 0 <= j < |sh.kids[n]| ensures KidOk(ns', sh', n, j) {
      assert KidOk(ns, sh, n, j);
      if sh.kids[p] != [] { assert KidOk(ns, sh, p, 0); }
    }
  }

  lemma AddKidNext(ns: seq<Fnode>, sh: Shape, p: nat, item: nat, w: nat, j: nat)
    requires Linked(ns, sh) && p < |ns| && sh.path[p] + [item] !in sh.at
    requires NULL <= ns[p].leftchild < |ns| && j < |ShapeAdd(sh, p, item).kids[p]|
    ensures Sized(AddKid(ns, p, item, w), ShapeAdd(sh, p, item)) && KidOk(AddKid(ns, p, item, w), ShapeAdd(sh, p, item), p, j)
  {
    var ks := sh.kids[p];
    assert NodeOk(ns, sh, p);
    if ks != [] { assert KidOk(ns, sh, p, 0); }
    if j > 1 {
      assert ShapeAdd(sh, p, item).kids[p][j] == ks[j - 1];
      assert KidOk(ns, sh, p, j - 1) && ks[0] != ks[j - 1];
    }
  }

  lemma AddKidParent(ns: seq<Fnode>, sh: Shape, p: nat, item: nat, w: nat)
    requires Linked(ns, sh) && p < |ns| && sh.path[p] + [item] !in sh.at
    requires NULL <= ns[p].leftchild < |ns|
    ensures NodeOk(AddKid(ns, p, item, w), ShapeAdd(sh, p, item), p)
    ensures NodeOk(AddKid(ns, p, item, w), ShapeAdd(sh, p, item), |ns|)
  {
    var ns', sh' := AddKid(ns, p, item, w), ShapeAdd(sh, p, item);
    var ks, ks' := sh.kids[p], sh'.kids[p];
    assert NodeOk(ns, sh, p);
    forall j | 0 <= j < |ks| ensures KidOk(ns, sh, p, j) && ks[j] != p {}
    forall j | 0 <= j < |ks'| ensures KidOk(ns', sh', p, j) { AddKidNext(ns, sh, p, item, w, j); }
    forall i, j | 0 <= i < j < |ks'| ensures ks'[i] != ks'[j] {
      forall k | 0 <= k < |ks| ensures ks[k] < |ns| { assert KidOk(ns, sh, p, k); }
    }
    assert |ns| in ks' by { if ks == [] { assert ks'[0] == |ns|; } else { assert ks'[1] == |ns|; } }
    if sh.par[p] != NULL { assert p in sh.kids[sh.par[p]]; }
  }

  lemma AddKidLinked(ns: seq<Fnode>, sh: Shape, p: nat, item: nat, w: nat)
    requires Linked(ns, sh) && p < |ns| && sh.path[p] + [item] !in sh.at
    ensures NULL <= ns[p].leftchild < |ns|
    ensures Linked(AddKid(ns, p, item, w), ShapeAdd(sh, p, item))
  {
    assert NodeOk(ns, sh, p);
    if sh.kids[p] != [] { assert KidOk(ns, sh, p, 0); }
    AddKidParent(ns, sh, p, item, w);
    forall n | 0 <= n < |ns| && n != p ensures NodeOk(AddKid(ns, p, item, w), ShapeAdd(sh, p, item), n) {
      AddKidOld(ns, sh, p, item, w, n);
    }
  }

  /** A hot node created by FPArray_scan2_DB or database_tiling: not linked anywhere yet. */
  function NewHot(ns: seq<Fnode>, m: nat): seq<Fnode>
    requires m > 0
  {
    ns + [Fnode(TopBit(m), 0, NULL, NULL)]
  }

  ghost function ShapeNewHot(sh: Shape, m: nat): Shape
  {
    Shape(sh.path + [Bits(m)], sh.kids + [[]], sh.par + [NULL], sh.at[Bits(m) := |sh.path|])
  }

  lemma NewHotLinked(ns: seq<Fnode>, sh: Shape, m: nat)
    requires Linked(ns, sh) && m > 0 && Bits(m) !in sh.at
    ensures Linked(NewHot(ns, m), ShapeNewHot(sh, m))
  {
    var ns', sh' := NewHot(ns, m), ShapeNewHot(sh, m);
    forall n | 0 <= n < |ns| ensures NodeOk(ns', sh', n) {
      assert NodeOk(ns, sh, n);
      forall j | 0 <= j < |sh.kids[n]| ensures KidOk(ns', sh', n, j) {
        assert KidOk(ns, sh, n, j);
      }
    }
  }

  /** The linking loop: the unlinked node c becomes the first child of p. */
  function AttachFirst(ns: seq<Fnode>, p: nat, c: nat): seq<Fnode>
    requires p < |ns| && c < |ns|
  {
    var ns1 := ns[c := ns[c].(rightsibling := ns[p].leftchild)];
    ns1[p := ns1[p].(leftchild := c)]
  }

  ghost function ShapeAttach(sh: Shape, p: nat, c: nat): Shape
    requires p < |sh.kids| && c < |sh.par|
  {
    sh.(kids := sh.kids[p := [c] + sh.kids[p]], par := sh.par[c := p])
  }

  ghost predicate Attachable(ns: seq<Fnode>, sh: Shape, p: nat, c: nat)
  {
    && Linked(ns, sh) && p < |ns| && c < |ns| && p != c
    && sh.par[c] == NULL && ns[c].itemname >= 0
    && sh.path[c] == sh.path[p] + [ns[c].itemname]
  }

  lemma AttachOther(ns: seq<Fnode>, sh: Shape, p: nat, c: nat, n: nat)
    requires Attachable(ns, sh, p, c) && n < |ns| && n != p
    ensures NodeOk(AttachFirst(ns, p, c), ShapeAttach(sh, p, c), n)
  {
    var ns', sh' := AttachFirst(ns, p, c), ShapeAttach(sh, p, c);
    assert NodeOk(ns, sh, n);
    forall j | 0 <= j < |sh.kids[n]| ensures KidOk(ns', sh', n, j) {
      assert KidOk(ns, sh, n, j);
    }
    if n == c {
      assert sh'.kids[p][0] == c;
    } else if sh.par[n] == p {
      var j :| 0 <= j < |sh.kids[p]| && sh.kids[p][j] == n;
      assert sh'.kids[p][j + 1] == n;
    }
  }

  lemma AttachParent(ns: seq<Fnode>, sh: Shape, p: nat, c: nat)
    requires Attachable(ns, sh, p, c)
    ensures NodeOk(AttachFirst(ns, p, c), ShapeAttach(sh, p, c), p)
  {
    var ns', sh' := AttachFirst(ns, p, c), ShapeAttach(sh, p, c);
    assert NodeOk(ns, sh, p);
    var ks, ks' := sh.kids[p], sh'.kids[p];
    forall j | 0 <= j < |ks'| ensures KidOk(ns', sh', p, j) {
      if j > 0 { assert KidOk(ns, sh, p, j - 1); }
    }
    forall j | 0 <= j < |ks| ensures ks[j] != c { assert KidOk(ns, sh, p, j); }
    if sh.par[p] == p {
      var j :| 0 <= j < |ks| && ks[j] == p;
      assert ks'[j + 1] == p;
    }
  }

  lemma AttachLinked(ns: seq<Fnode>, sh: Shape, p: nat, c: nat)
    requires Attachable(ns, sh, p, c)
    ensures Linked(AttachFirst(ns, p, c), ShapeAttach(sh, p, c))
  {
    AttachParent(ns, sh, p, c);
    forall n | 0 <= n < |ns| && n != p ensures NodeOk(AttachFirst(ns, p, c), ShapeAttach(sh, p, c), n) {
      AttachOther(ns, sh, p, c, n);
    }
  }

  /** Changing counts leaves the structure alone. */
  lemma CountsDoNotMatter(ns: seq<Fnode>, ns': seq<Fnode>, sh: Shape)
    requires Linked(ns, sh) && |ns'| == |ns|
    requires forall n :: 0 <= n < |ns| ==> ns'[n] == ns[n].(count := ns'[n].count)
    ensures Linked(ns', sh)
  {
    forall n | 0 <= n < |ns| ensures NodeOk(ns', sh, n) {
      assert NodeOk(ns, sh, n);
      forall j | 0 <= j < |sh.kids[n]| ensures KidOk(ns', sh, n, j) {
        assert KidOk(ns, sh, n, j);
      }
    }
  }

  /** The depth of every leaf: what the FP-array must provide, since each branch is written out in full. */
  ghost function LeafDepths(sh: Shape): seq<int>
    requires |sh.path| == |sh.kids|
  {
    seq(|sh.path|, n requires 0 <= n < |sh.path| => if sh.kids[n] == [] then |sh.path[n]| else 0)
  }

  /** Which nodes of item x are linked into the tree: what nodenum[x] counts. */
  ghost function LinkedWith(ns: seq<Fnode>, sh: Shape, x: nat): seq<int>
    requires Sized(ns, sh)
  {
    seq(|ns|, n requires 0 <= n < |ns| => if sh.par[n] != NULL && ns[n].itemname == x then 1 else 0)
  }

  lemma LeafDepthsAdd(sh: Shape, p: nat, item: nat)
    requires p < |sh.path| == |sh.kids|
    ensures Sum(LeafDepths(ShapeAdd(sh, p, item))) == Sum(LeafDepths(sh)) + if sh.kids[p] == [] then 1 else |sh.path[p]| + 1
  {
    var d, sh' := LeafDepths(sh), ShapeAdd(sh, p, item);
    assert LeafDepths(sh') == d[p := 0] + [|sh.path[p]| + 1];
    SumAppend(d[p := 0], |sh.path[p]| + 1);
    SumUpdate(d, p, 0);
  }

  lemma LeafDepthsNewHot(sh: Shape, m: nat)
    requires |sh.path| == |sh.kids|
    ensures Sum(LeafDepths(ShapeNewHot(sh, m))) == Sum(LeafDepths(sh)) + |Bits(m)|
  {
    assert LeafDepths(ShapeNewHot(sh, m)) == LeafDepths(sh) + [|Bits(m)|];
    SumAppend(LeafDepths(sh), |Bits(m)|);
  }

  lemma LeafDepthsAttach(sh: Shape, p: nat, c: nat)
    requires p < |sh.path| == |sh.kids| && c < |sh.par|
    ensures Sum(LeafDepths(ShapeAttach(sh, p, c))) == Sum(LeafDepths(sh)) - if sh.kids[p] == [] then |sh.path[p]| else 0
  {
    assert LeafDepths(ShapeAttach(sh, p, c)) == LeafDepths(sh)[p := 0];
    SumUpdate(LeafDepths(sh), p, 0);
  }

  lemma LinkedWithAdd(ns: seq<Fnode>, sh: Shape, p: nat, item: nat, w: nat, x: nat)
    requires Linked(ns, sh) && p < |ns| && NULL <= ns[p].leftchild < |ns|
    requires Sized(AddKid(ns, p, item, w), ShapeAdd(sh, p, item))
    ensures Sum(LinkedWith(AddKid(ns, p, item, w), ShapeAdd(sh, p, item), x))
         == Sum(LinkedWith(ns, sh, x)) + if x == item then 1 else 0
  {
    var e := if x == item then 1 else 0;
    assert LinkedWith(AddKid(ns, p, item, w), ShapeAdd(sh, p, item), x) == LinkedWith(ns, sh, x) + [e];
    SumAppend(LinkedWith(ns, sh, x), e);
  }

  lemma LinkedWithNewHot(ns: seq<Fnode>, sh: Shape, m: nat, x: nat)
    requires Sized(ns, sh) && m > 0
    ensures Sum(LinkedWith(NewHot(ns, m), ShapeNewHot(sh, m), x)) == Sum(LinkedWith(ns, sh, x))
  {
    assert LinkedWith(NewHot(ns, m), ShapeNewHot(sh, m), x) == LinkedWith(ns, sh, x) + [0];
    SumAppend(LinkedWith(ns, sh, x), 0);
  }

  lemma LinkedWithAttach(ns: seq<Fnode>, sh: Shape, p: nat, c: nat, x: nat)
    requires Attachable(ns, sh, p, c)
    ensures Sum(LinkedWith(AttachFirst(ns, p, c), ShapeAttach(sh, p, c), x))
         == Sum(LinkedWith(ns, sh, x)) + if x == ns[c].itemname then 1 else 0
  {
    var e := if x == ns[c].itemname then 1 else 0;
    assert LinkedWith(AttachFirst(ns, p, c), ShapeAttach(sh, p, c), x) == LinkedWith(ns, sh, x)[c := e];
    SumUpdate(LinkedWith(ns, sh, x), c, e);
  }
}
