/**
Blocks of the linked buffer and the list of free ones they are recycled through.
*/
module Freelists {
  import opened Bytes

  /** A node of a chain.  `mem` is the block's inline memory: it is part of the object, its length is
      the block's capacity and never changes, and its initial content is arbitrary.  `owner` and `pos`
      say which structure the block is in and where, so one block is never in two places. */
  class Block {
    var next: Block?
    var offset: nat
    var len: nat
    var mem: seq<byte>
    ghost var owner: object?
    ghost var pos: int

    ghost predicate Fits()
      reads this`offset, this`len, this`mem
    {
      offset + len <= |mem|
    }

    constructor Alloc(capacity: nat)
      ensures next == null && offset == 0 && len == 0 && |mem| == capacity && owner == null
    {
      next, offset, len := null, 0, 0;
      mem := seq(capacity, _ => 0);
      owner, pos := null, 0;
    }

    function SpaceLen(): nat
      requires Fits()
      reads this`offset, this`len, this`mem
    {
      |mem| - offset - len
    }

    // Commit as much of `size` as fits; returns what is left to commit.
    method Commit(size: nat) returns (rest: nat)
      requires Fits()
      modifies this`len
      ensures Fits()
      ensures len == old(len) + Min(size, old(SpaceLen()))
      ensures rest == size - Min(size, old(SpaceLen()))
    {
      var toCommit := if size < SpaceLen() then size else SpaceLen();
      len := len + toCommit;
      rest := size - toCommit;
    }

    // Drain as much of `size` as there is; returns what is left to drain.
    method Drain(size: nat) returns (rest: nat)
      requires Fits()
      modifies this`offset, this`len
      ensures Fits()
      ensures offset == old(offset) + Min(old(len), size)
      ensures len == old(len) - Min(old(len), size)
      ensures rest == size - Min(old(len), size)
    {
      var toDrain := if len < size then len else size;
      offset := offset + toDrain;
      len := len - toDrain;
      rest := size - toDrain;
    }
  }

  // The block at an index of a chain, null behind its last block.
  ghost function At(chain: seq<Block>, i: nat): Block? {
    if i < |chain| then chain[i] else null
  }

  // The chain is exactly what following `next` from `head` visits, ending in null.
  ghost predicate Linked(head: Block?, chain: seq<Block>)
    reads chain`next
  {
    && head == At(chain, 0)
    && forall i | 0 <= i < |chain| :: chain[i].next == At(chain, i + 1)
  }

  // No block occurs twice, so the chain has no cycle.
  ghost predicate Distinct(chain: seq<Block>) {
    forall i, j | 0 <= i < j < |chain| :: chain[i] != chain[j]
  }

  // No block is in both chains.
  ghost predicate Apart(a: seq<Block>, b: seq<Block>) {
    forall i, j | 0 <= i < |a| && 0 <= j < |b| :: a[i] != b[j]
  }

  /** The free list.  `chain` is the ghost list of the blocks it owns. */
  class Freelist {
    const capacity: nat
    var head: Block?
    var size: nat
    ghost var chain: seq<Block>

    ghost predicate Valid()
      reads this, chain`owner, chain`pos, chain`next, chain`mem
    {
      && capacity > 0
      && size == |chain|
      && head == At(chain, 0)
      && forall i | 0 <= i < |chain| :: Holds(i)
    }

    // Block i of the list: owned, linked to the next one, of the right capacity.
    ghost predicate Holds(i: nat)
      requires i < |chain|
      reads this, chain`owner, chain`pos, chain`next, chain`mem
    {
      && chain[i].owner == this
      && chain[i].pos == |chain| - i
      && chain[i].next == At(chain, i + 1)
      && |chain[i].mem| == capacity
    }

    // The list is acyclic and ends in null.
    lemma {:induction false} Acyclic()
      requires Valid()
      ensures Linked(head, chain) && Distinct(chain)
    {
      forall i, j | 0 <= i < j < |chain|
        ensures chain[i] != chain[j]
      {
        assert Holds(i) && Holds(j);
      }
      forall i | 0 <= i < |chain|
        ensures chain[i].next == At(chain, i + 1)
      {
        assert Holds(i);
      }
    }

    constructor (capacity: nat)
      requires capacity > 0
      ensures Valid() && chain == [] && this.capacity == capacity
    {
      this.capacity := capacity;
      head, size, chain := null, 0, [];
    }

    // A block in its initial state: recycled if one is free, otherwise newly allocated.
    method New(ghost user: object?, ghost at: int) returns (b: Block)
      requires Valid() && user != this
      modifies this`head, this`size, this`chain, if head == null then {} else {head}
      ensures Valid()
      ensures old(chain) == [] ==> fresh(b) && chain == []
      ensures old(chain) != [] ==> b == old(chain)[0] && chain == old(chain)[1..]
      ensures b.next == null && b.offset == 0 && b.len == 0 && |b.mem| == capacity
      ensures b.owner == user && b.pos == at
    {
      if head == null {
        b := new Block.Alloc(capacity);
      } else {
        b := head;
        assert Holds(0);
        head := b.next;
        size := size - 1;
        b.next, b.offset, b.len := null, 0, 0;
        chain := chain[1..];
      }
      b.owner, b.pos := user, at;
      forall i | 0 <= i < |chain|
        ensures Holds(i)
      {
        assert old(Holds(i + 1));
      }
    }

    // Give one block back.
    method Delete(b: Block)
      requires Valid() && b.owner != this && |b.mem| == capacity
      modifies this`head, this`size, this`chain, b`next, b`owner, b`pos
      ensures Valid() && chain == [b] + old(chain)
    {
      forall i | 0 <= i < |chain|
        ensures chain[i] != b
      {
        assert Holds(i);
      }
      b.next := head;
      head := b;
      size := size + 1;
      chain := [b] + chain;
      b.owner, b.pos := this, |chain|;
      forall i | 0 <= i < |chain|
        ensures Holds(i)
      {
        if i > 0 {
          assert old(Holds(i - 1));
        }
      }
    }

    // Give a whole chain back.
    method DeleteChain(first: Block?, ghost blocks: seq<Block>)
      requires Valid()
      requires Linked(first, blocks) && Distinct(blocks)
      requires forall i | 0 <= i < |blocks| :: blocks[i].owner != this && |blocks[i].mem| == capacity
      modifies this`head, this`size, this`chain, blocks`next, blocks`owner, blocks`pos
      ensures Valid() && chain == blocks + old(chain)
    {
      if first == null {
        return;
      }
      var last, count := Last(first, blocks);
      last.next := head;
      head := first;
      size := size + count;
      Adopt(blocks);
      forall i | 0 <= i < |chain|
        ensures Holds(i)
      {
        if i >= |blocks| {
          assert old(Holds(i - |blocks|));
        }
      }
    }

    // The blocks belong to the list from now on.
    ghost method Adopt(blocks: seq<Block>)
      requires Distinct(blocks)
      modifies `chain, blocks`owner, blocks`pos
      ensures chain == blocks + old(chain)
      ensures forall i | 0 <= i < |blocks| :: blocks[i].owner == this && blocks[i].pos == |chain| - i
    {
      forall i | 0 <= i < |blocks| {
        blocks[i].owner := this;
      }
      ghost var n := |blocks| + |chain|;
      forall i | 0 <= i < |blocks| {
        blocks[i].pos := n - i;
      }
      chain := blocks + chain;
    }

    // Walk a chain to its last block, counting.
    static method Last(first: Block, ghost blocks: seq<Block>) returns (last: Block, count: nat)
      requires Linked(first, blocks)
      ensures count == |blocks| > 0 && last == blocks[count - 1]
    {
      count, last := 1, first;
      while last.next != null
        invariant 1 <= count <= |blocks| && last == blocks[count - 1]
        decreases |blocks| - count
      {
        last := last.next;
        count := count + 1;
      }
    }

    // Free every block: afterwards nothing owns any of them.
    method Clear()
      requires Valid()
      modifies this`head, this`size, this`chain, chain
      ensures Valid() && chain == [] && size == 0
      ensures forall k | 0 <= k < |old(chain)| :: old(chain)[k].owner == null
    {
      ghost var n := 0;
      while head != null
        invariant Valid() && n <= |old(chain)| && chain == old(chain)[n..]
        invariant forall k | 0 <= k < n :: old(chain)[k].owner == null
        decreases |chain|
      {
        assert Holds(0);
        var _ := New(null, 0);
        n := n + 1;
      }
    }

    // Add n newly allocated blocks.
    method FillN(n: nat)
      requires Valid()
      modifies this`head, this`size, this`chain
      ensures Valid() && |chain| == |old(chain)| + n
      ensures chain[n..] == old(chain) && forall k | 0 <= k < n :: fresh(chain[k])
    {
      for i := 0 to n
        invariant Valid() && |chain| == |old(chain)| + i && chain[i..] == old(chain)
        invariant forall k | 0 <= k < i :: fresh(chain[k])
      {
        var b := new Block.Alloc(capacity);
        Delete(b);
      }
    }
  }
}
