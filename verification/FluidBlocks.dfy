/** The particle store of fluidanimate: every cell is a chain of blocks, the first one static, the others from a pool. */
module FluidBlocks {
  import opened Common

  /** `rest` stands for the velocities that travel with the position. */
  datatype Particle = Particle(x: real, y: real, z: real, rest: nat)

  /** A Cell structure: room for PPC particles and a link. */
  datatype Block = Block(items: seq<Particle>, next: int)

  /** Who has a block: place k of the chain of destination or source cell c, or place j of the pool. */
  datatype Owner = Dst(c: nat, k: nat) | Src(c: nat, k: nat) | Free(j: nat)

  /** How many blocks a cell with n particles has. */
  function Blocks(n: nat, PPC: nat): nat
    requires PPC > 0
  {
    if n == 0 then 1 else (n - 1) / PPC + 1
  }

  /** Moving on by one slot. */
  lemma NextSlot(n: nat, d: nat)
    requires d > 0
    ensures (n + 1) / d == n / d + if n % d == d - 1 then 1 else 0
    ensures (n + 1) % d == if n % d == d - 1 then 0 else n % d + 1
  {
    var q, r := n / d, n % d;
    assert n == d * q + r;
    if r == d - 1 {
      assert n + 1 == d * (q + 1) + 0;
      Quotient(n + 1, d, q + 1, 0);
    } else {
      Quotient(n + 1, d, q, r + 1);
    }
  }

  lemma SlotOrder(s: nat, t: nat, d: nat)
    requires d > 0 && s <= t
    ensures s / d <= t / d
    decreases t - s
  {
    if s < t {
      NextSlot(t - 1, d);
      SlotOrder(s, t - 1, d);
    }
  }

  /** A new block is due exactly when the next particle's slot is the first of a block, other than the very first. */
  lemma BlocksStep(n: nat, PPC: nat)
    requires PPC > 0
    ensures Blocks(n + 1, PPC) == n / PPC + 1
    ensures Blocks(n + 1, PPC) == Blocks(n, PPC) + if n % PPC == 0 && n != 0 then 1 else 0
  {
    if n > 0 { NextSlot(n - 1, PPC); } else { Quotient(0, PPC, 0, 0); }
  }

  /** A particle's slot lies in one of the cell's blocks. */
  lemma SlotInRange(j: nat, n: nat, PPC: nat)
    requires PPC > 0 && j < n
    ensures j / PPC < Blocks(n, PPC)
  {
    SlotOrder(j, n - 1, PPC);
  }

  /** max(1, ceil(n / PPC)) */
  lemma BlocksIsCeiling(n: nat, PPC: nat)
    requires PPC > 0
    ensures PPC * (Blocks(n, PPC) - 1) <= n <= PPC * Blocks(n, PPC)
    ensures Blocks(n, PPC) >= 1 && (Blocks(n, PPC) > 1 ==> n > PPC * (Blocks(n, PPC) - 1))
  {
    if n > 0 {
      var q := (n - 1) / PPC;
      assert n - 1 == PPC * q + (n - 1) % PPC;
      assert PPC * (q + 1) == PPC * q + PPC;
    }
  }

  /** Block k of a chain belongs to o and links to the next one, the last one to nothing. */
  ghost predicate Linked(mem: seq<Block>, owner: seq<Owner>, ids: seq<nat>, k: nat, o: Owner)
    requires k < |ids|
  {
    && ids[k] < |mem| == |owner| && owner[ids[k]] == o
    && mem[ids[k]].next == (if k + 1 < |ids| then ids[k + 1] else NULL)
  }

  /** Chain `ids` of destination cell c, which holds n particles. */
  ghost predicate ChainOk(mem: seq<Block>, owner: seq<Owner>, head: nat, ids: seq<nat>, n: nat, c: nat, PPC: nat)
    requires PPC > 0
  {
    && |ids| == Blocks(n, PPC) && ids[0] == head
    && (forall k :: 0 <= k < |ids| ==> Linked(mem, owner, ids, k, Dst(c, k)))
  }

  /** The same for what is left of a source chain from block `from` on. */
  ghost predicate RestOk(mem: seq<Block>, owner: seq<Owner>, head: nat, ids: seq<nat>, n: nat, c: nat, from: nat, PPC: nat)
    requires PPC > 0
  {
    && |ids| == Blocks(n, PPC) && ids[0] == head
    && (forall k :: from <= k < |ids| ==> Linked(mem, owner, ids, k, Src(c, k)))
  }

  /** Slot t of a chain holds p. */
  ghost predicate InSlot(mem: seq<Block>, ids: seq<nat>, t: nat, PPC: nat, p: Particle)
    requires PPC > 0
  {
    && t / PPC < |ids| && ids[t / PPC] < |mem| && t % PPC < |mem[ids[t / PPC]].items|
    && mem[ids[t / PPC]].items[t % PPC] == p
  }

  /** The particles of a chain are `ps`. */
  ghost predicate Holds(mem: seq<Block>, ids: seq<nat>, ps: seq<Particle>, from: nat, PPC: nat)
    requires PPC > 0
  {
    forall t :: from <= t < |ps| ==> InSlot(mem, ids, t, PPC, ps[t])
  }

  /** Only the items of the blocks involved matter. */
  lemma HoldsFrame(mem: seq<Block>, mem': seq<Block>, ids: seq<nat>, ids': seq<nat>, ps: seq<Particle>, from: nat, PPC: nat)
    requires PPC > 0 && Holds(mem, ids, ps, from, PPC) && |mem| <= |mem'| && ids <= ids'
    requires forall k :: from / PPC <= k < |ids| && ids[k] < |mem| ==> mem'[ids[k]].items == mem[ids[k]].items
    ensures Holds(mem', ids', ps, from, PPC)
  {
    forall t | from <= t < |ps| ensures InSlot(mem', ids', t, PPC, ps[t]) {
      SlotOrder(from, t, PPC);
      assert InSlot(mem, ids, t, PPC, ps[t]);
    }
  }

  /** Every block of the pool is marked as such. */
  ghost predicate PoolOk(mem: seq<Block>, owner: seq<Owner>, pool: seq<nat>, PPC: nat)
  {
    && |mem| == |owner|
    && (forall j :: 0 <= j < |pool| ==> pool[j] < |mem| && owner[pool[j]] == Free(j))
    && (forall b :: 0 <= b < |mem| ==> |mem[b].items| == PPC)
  }

  /** No block is lost: whoever a block belongs to has it. */
  ghost predicate NoLeak(owner: seq<Owner>, ids: seq<seq<nat>>, ids2: seq<seq<nat>>, pool: seq<nat>)
  {
    forall b :: 0 <= b < |owner| ==>
      match owner[b]
      case Dst(c, k) => c < |ids| && k < |ids[c]| && ids[c][k] == b
      case Src(c, k) => c < |ids2| && k < |ids2[c]| && ids2[c][k] == b
      case Free(j) => j < |pool| && pool[j] == b
  }

  /** A destination cell: its chain, the tail pointer, and what it holds. */
  ghost predicate CellOk(mem: seq<Block>, owner: seq<Owner>, head: nat, ids: seq<nat>, last: nat, ps: seq<Particle>, c: nat, PPC: nat)
    requires PPC > 0
  {
    && ChainOk(mem, owner, head, ids, |ps|, c, PPC) && last == ids[|ids| - 1] && Holds(mem, ids, ps, 0, PPC)
  }

  /** A source cell, from slot `from` on. */
  ghost predicate SourceOk(mem: seq<Block>, owner: seq<Owner>, head: nat, ids: seq<nat>, ps: seq<Particle>, from: nat, c: nat, PPC: nat)
    requires PPC > 0
  {
    && RestOk(mem, owner, head, ids, |ps|, c, from / PPC, PPC) && Holds(mem, ids, ps, from, PPC)
  }

  /** Blocks of others do not matter to a cell. */
  lemma CellFrame(mem: seq<Block>, owner: seq<Owner>, mem': seq<Block>, owner': seq<Owner>, head: nat, ids: seq<nat>, last: nat,
                  ps: seq<Particle>, c: nat, PPC: nat)
    requires PPC > 0 && CellOk(mem, owner, head, ids, last, ps, c, PPC) && |owner| == |mem| <= |mem'| == |owner'|
    requires forall b :: 0 <= b < |mem| && owner[b].Dst? && owner[b].c == c ==> mem'[b] == mem[b] && owner'[b] == owner[b]
    ensures CellOk(mem', owner', head, ids, last, ps, c, PPC)
  {
    forall k | 0 <= k < |ids| ensures Linked(mem', owner', ids, k, Dst(c, k)) && mem'[ids[k]] == mem[ids[k]] {
      assert Linked(mem, owner, ids, k, Dst(c, k));
    }
    HoldsFrame(mem, mem', ids, ids, ps, 0, PPC);
  }

  lemma SourceFrame(mem: seq<Block>, owner: seq<Owner>, mem': seq<Block>, owner': seq<Owner>, head: nat, ids: seq<nat>,
                    ps: seq<Particle>, from: nat, from': nat, c: nat, PPC: nat)
    requires PPC > 0 && SourceOk(mem, owner, head, ids, ps, from, c, PPC) && |owner| == |mem| <= |mem'| == |owner'| && from <= from'
    requires forall b :: 0 <= b < |mem| && owner[b].Src? && owner[b].c == c && owner[b].k >= from' / PPC ==> mem'[b] == mem[b] && owner'[b] == owner[b]
    ensures SourceOk(mem', owner', head, ids, ps, from', c, PPC)
  {
    SlotOrder(from, from', PPC);
    forall k | from' / PPC <= k < |ids| ensures Linked(mem', owner', ids, k, Src(c, k)) && mem'[ids[k]] == mem[ids[k]] {
      assert Linked(mem, owner, ids, k, Src(c, k));
    }
    HoldsFrame(mem, mem', ids, ids, ps, from', PPC);
  }

  /** The tail block of a cell with room: slot n of the cell is in it. */
  lemma TailSlot(mem: seq<Block>, owner: seq<Owner>, head: nat, ids: seq<nat>, n: nat, c: nat, PPC: nat)
    requires PPC > 0 && ChainOk(mem, owner, head, ids, n + 1, c, PPC)
    ensures n / PPC == |ids| - 1
  {
    BlocksStep(n, PPC);
  }

  /** Writing slot n adds one particle. */
  lemma WriteSlot(mem: seq<Block>, owner: seq<Owner>, head: nat, ids: seq<nat>, ps: seq<Particle>, c: nat, PPC: nat, p: Particle)
    requires PPC > 0 && ChainOk(mem, owner, head, ids, |ps| + 1, c, PPC) && Holds(mem, ids, ps, 0, PPC)
    requires ids[|ids| - 1] < |mem| && |mem[ids[|ids| - 1]].items| == PPC
    ensures var b := ids[|ids| - 1];
      CellOk(mem[b := mem[b].(items := mem[b].items[|ps| % PPC := p])], owner, head, ids, b, ps + [p], c, PPC)
  {
    var b, n := ids[|ids| - 1], |ps|;
    var mem' := mem[b := mem[b].(items := mem[b].items[n % PPC := p])];
    TailSlot(mem, owner, head, ids, n, c, PPC);
    forall k | 0 <= k < |ids| ensures Linked(mem', owner, ids, k, Dst(c, k)) { assert Linked(mem, owner, ids, k, Dst(c, k)); }
    hide Blocks;
    forall t | 0 <= t < n + 1 ensures InSlot(mem', ids, t, PPC, (ps + [p])[t]) {
      if t < n {
        assert InSlot(mem, ids, t, PPC, ps[t]);
        SlotOrder(t, n, PPC);
        OtherSlot(mem, owner, ids, n, c, PPC, p, t, ps[t]);
      } else {
        assert t % PPC < PPC;
      }
    }
  }

  lemma OtherSlot(mem: seq<Block>, owner: seq<Owner>, ids: seq<nat>, n: nat, c: nat, PPC: nat, p: Particle, t: nat, q: Particle)
    requires PPC > 0 && t < n && t / PPC <= n / PPC == |ids| - 1 && forall k :: 0 <= k < |ids| ==> Linked(mem, owner, ids, k, Dst(c, k))
    requires InSlot(mem, ids, t, PPC, q) && ids[|ids| - 1] < |mem| && |mem[ids[|ids| - 1]].items| == PPC
    ensures var b := ids[|ids| - 1]; InSlot(mem[b := mem[b].(items := mem[b].items[n % PPC := p])], ids, t, PPC, q)
  {
    assert Linked(mem, owner, ids, t / PPC, Dst(c, t / PPC)) && Linked(mem, owner, ids, n / PPC, Dst(c, n / PPC));
    if t / PPC == n / PPC { SameBlock(t, n, PPC); }
  }

  lemma SameBlock(s: nat, t: nat, d: nat)
    requires d > 0 && s != t && s / d == t / d
    ensures s % d != t % d
  {
    assert s == d * (s / d) + s % d && t == d * (t / d) + t % d;
  }

  /** Linking a new block behind the tail. */
  lemma LinkBlock(mem: seq<Block>, owner: seq<Owner>, head: nat, ids: seq<nat>, ps: seq<Particle>, c: nat, PPC: nat, b: nat)
    requires PPC > 0 && ids != [] && CellOk(mem, owner, head, ids, ids[|ids| - 1], ps, c, PPC) && |ps| % PPC == 0 && |ps| != 0
    requires b < |mem| == |owner| && !owner[b].Dst? && mem[b].next == NULL
    ensures ids[|ids| - 1] < |mem|
    ensures var mem' := mem[ids[|ids| - 1] := mem[ids[|ids| - 1]].(next := b)]; var owner' := owner[b := Dst(c, |ids|)];
      ChainOk(mem', owner', head, ids + [b], |ps| + 1, c, PPC) && Holds(mem', ids + [b], ps, 0, PPC)
  {
    BlocksStep(|ps|, PPC);
    hide Blocks, InSlot, Holds;
    LinkChain(mem, owner, ids, c, b);
    var mem' := mem[ids[|ids| - 1] := mem[ids[|ids| - 1]].(next := b)];
    assert forall k :: 0 <= k < |ids| ==> mem'[ids[k]].items == mem[ids[k]].items;
    HoldsFrame(mem, mem', ids, ids + [b], ps, 0, PPC);
  }

  lemma LinkChain(mem: seq<Block>, owner: seq<Owner>, ids: seq<nat>, c: nat, b: nat)
    requires ids != [] && forall k :: 0 <= k < |ids| ==> Linked(mem, owner, ids, k, Dst(c, k))
    requires b < |mem| == |owner| && !owner[b].Dst? && mem[b].next == NULL
    ensures forall k :: 0 <= k < |ids| ==> ids[k] < |mem|
    ensures var mem' := mem[ids[|ids| - 1] := mem[ids[|ids| - 1]].(next := b)];
      forall k :: 0 <= k <= |ids| ==> Linked(mem', owner[b := Dst(c, |ids|)], ids + [b], k, Dst(c, k))
  {
    var n := |ids|;
    forall k | 0 <= k < n ensures ids[k] < |mem| { assert Linked(mem, owner, ids, k, Dst(c, k)); }
    var mem', owner', ids' := mem[ids[n - 1] := mem[ids[n - 1]].(next := b)], owner[b := Dst(c, n)], ids + [b];
    assert Linked(mem, owner, ids, n - 1, Dst(c, n - 1));
    forall k | 0 <= k <= n ensures Linked(mem', owner', ids', k, Dst(c, k)) {
      if k < n {
        assert Linked(mem, owner, ids, k, Dst(c, k));
        if k < n - 1 { assert Linked(mem, owner, ids, k + 1, Dst(c, k + 1)); }
      }
    }
  }
}
