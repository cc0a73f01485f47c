/** Memory buffers as shared, reference-counted views of one allocation (mbuffer.c). */
module Mbuffers {
  import opened Common

  /** The control block: how many views there are, and the memory, null once it is freed. */
  class Mcb {
    var i: nat
    var ptr: array?<byte>
    ghost var views: set<Mbuffer>

    constructor (ptr: array<byte>)
      ensures this.i == 0 && this.ptr == ptr && views == {}
    {
      this.i, this.ptr, views := 0, ptr, {};
    }

    /** The counter counts the views; the memory lives as long as there are any; views lie inside it and do not overlap. */
    ghost predicate Valid()
      reads this, views
    {
      && i == |views| && (ptr != null <==> i > 0)
      && (forall m :: m in views ==> m.mcb == this && m.n > 0 && m.off + m.n <= ptr.Length)
      && (forall m, k :: m in views && k in views && m != k ==> m.Apart(k))
    }
  }

  class Mbuffer {
    var mcb: Mcb
    var off: nat
    var n: nat

    constructor Of(mcb: Mcb, off: nat, n: nat)
      ensures this.mcb == mcb && this.off == off && this.n == n
    {
      this.mcb, this.off, this.n := mcb, off, n;
    }

    ghost predicate Apart(k: Mbuffer)
      reads this, k
    {
      off + n <= k.off || k.off + k.n <= off
    }

    ghost predicate Live()
      reads this, mcb, mcb.views
    {
      mcb.Valid() && this in mcb.views
    }

    /** The bytes in view. */
    ghost function Bytes(): (s: seq<byte>)
      requires Live()
      reads this, mcb, mcb.views, mcb.ptr
      ensures |s| == n
    {
      mcb.ptr[off..off + n]
    }

    /** mbuffer_create */
    static method Create(size: nat) returns (m: Mbuffer)
      requires size > 0
      ensures fresh(m) && fresh(m.mcb) && m.Live() && m.mcb.views == {m} && fresh(m.mcb.ptr)
      ensures m.off == 0 && m.n == size == m.mcb.ptr.Length
    {
      var ptr := new byte[size];
      var mcb := new Mcb(ptr);
      m := new Mbuffer.Of(mcb, 0, size);
      mcb.i := 1;
      mcb.views := {m};
    }

    /** mbuffer_split: two consecutive views whose bytes together are those of the old one; no other view notices. */
    method Split(split: nat) returns (m2: Mbuffer)
      requires Live() && 0 < split < n
      modifies this`n, mcb`i, mcb`views
      ensures fresh(m2) && m2.mcb == mcb && Live() && m2.Live() && mcb.views == old(mcb.views) + {m2}
      ensures Bytes() == old(Bytes())[..split] && m2.Bytes() == old(Bytes())[split..]
      ensures mcb.i == old(mcb.i) + 1
      ensures forall m :: m in old(mcb.views) && m != this ==> m.Live() && m.Bytes() == old(m.Bytes())
    {
      m2 := CutOff(split);
    }

    method CutOff(split: nat) returns (m2: Mbuffer)
      requires Live() && 0 < split < n
      modifies this`n, mcb`i, mcb`views
      ensures fresh(m2) && m2.mcb == mcb && Live() && m2.Live() && mcb.views == old(mcb.views) + {m2}
      ensures n == split && m2.off == off + split && m2.n == old(n) - split
      ensures mcb.i == old(mcb.i) + 1
      ensures mcb.ptr == old(mcb.ptr)
    {
      ghost var before := mcb.views;
      mcb.i := mcb.i + 1;
      m2 := new Mbuffer.Of(mcb, off + split, n - split);
      n := split;
      assert m2 !in before;
      mcb.views := mcb.views + {m2};
      assert |mcb.views| == |before| + 1;
      forall m | m in before && m != this ensures m.Apart(this) && this.Apart(m) && m.Apart(m2) && m2.Apart(m) {
        assert old(m.Apart(this));
      }
    }

    /** mbuffer_free: the memory goes when the last view goes, and not before. */
    method Free()
      requires Live()
      modifies mcb`i, mcb`ptr, mcb`views
      ensures mcb.Valid() && mcb.views == old(mcb.views) - {this} && this !in mcb.views
      ensures mcb.ptr == null <==> old(mcb.views) == {this}
      ensures forall m :: m in mcb.views ==> m.Live() && m.Bytes() == old(m.Bytes())
    {
      assert |mcb.views - {this}| == |mcb.views| - 1;
      mcb.views := mcb.views - {this};
      mcb.i := mcb.i - 1;
      if mcb.i == 0 {
        mcb.ptr := null;
      }
    }

    /** mbuffer_realloc: only the sole view of the whole allocation can be resized, and only if the system finds the memory
      * (`found`); its bytes are kept up to the new size. A failure changes nothing. */
    method Realloc(size: nat, found: bool) returns (ok: bool)
      requires Live() && size > 0
      modifies this`n, mcb`ptr
      ensures Live() && mcb.views == old(mcb.views)
      ensures ok <==> old(mcb.views) == {this} && off == 0 && found
      ensures ok ==> n == size && forall k :: 0 <= k < old(n) && k < size ==> Bytes()[k] == old(Bytes())[k]
      ensures !ok ==> mcb.ptr == old(mcb.ptr) && n == old(n)
    {
      OnlyView(mcb.views, this);
      if mcb.i > 1 { return false; }
      if off != 0 { return false; }
      if !found { return false; }
      var old_, kept := mcb.ptr, n;
      mcb.ptr := new byte[size](k requires 0 <= k < size reads old_ => if k < old_.Length then old_[k] else 0);
      n := size;
      return true;
    }
  }

  lemma OnlyView(views: set<Mbuffer>, m: Mbuffer)
    requires m in views
    ensures |views| >= 1 && (|views| == 1 <==> views == {m})
  {
    assert |views - {m}| == |views| - 1;
    if |views| == 1 {
      assert views - {m} == {};
      forall k | k in views ensures k == m { assert k == m || k in views - {m}; }
    }
  }
}
