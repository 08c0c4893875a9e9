/**
The byte queue that a chain of fixed-size blocks represents, on values.

A cell is what one block holds: its memory and the window `off .. off+len` of consumable data
inside it.  A chain is a sequence of cells together with `end`, the index of the last cell that
holds data.  Each lemma is about one iteration of a loop of the buffer: a commit into one block, a
drain of the head block, the pruning of an exhausted head block, a new block at the back.
*/
module BlockQueue {
  import opened Bytes
  import opened Sequences

  datatype RawCell = Cell(off: nat, len: nat, mem: seq<byte>) {
    // Where the free memory of the block begins.
    function DataEnd(): nat {
      off + len
    }

    ghost function Data(): seq<byte>
      requires off + len <= |mem|
    {
      mem[off..off + len]
    }

    ghost function Free(): seq<byte>
      requires off + len <= |mem|
    {
      mem[off + len..]
    }

    ghost function Space(): nat
      requires off + len <= |mem|
    {
      |mem| - off - len
    }
  }

  // The window lies inside the block's memory.
  type Cell = c: RawCell | c.off + c.len <= |c.mem| witness Cell(0, 0, [])

  // The bytes queued in a chain, front first.
  ghost function Contents(cells: seq<Cell>): seq<byte> {
    if cells == [] then [] else cells[0].Data() + Contents(cells[1..])
  }

  ghost function Size(cells: seq<Cell>): nat {
    if cells == [] then 0 else cells[0].len + Size(cells[1..])
  }

  ghost function TotalSpace(cells: seq<Cell>): nat {
    if cells == [] then 0 else cells[0].Space() + TotalSpace(cells[1..])
  }

  /** The shape that every operation keeps: data is contiguous from the head, every cell before the
      end cell is filled to its last byte, every cell behind it is untouched, and an exhausted head
      cell is never kept. */
  ghost predicate WellFormed(cap: nat, cells: seq<Cell>, end: nat) {
    && cap > 0
    && (cells == [] ==> end == 0)
    && (cells != [] ==> end < |cells| && Head(cap, cells[0]))
    && (end > 0 ==> cells[end].len > 0)
    && forall i | 0 <= i < |cells| :: Placed(cap, cells[i], i, end)
  }

  ghost predicate Head(cap: nat, c: Cell) {
    c.len == 0 ==> c.off < cap
  }

  // What the cell at index i looks like when the end cell is at index end.
  ghost predicate Placed(cap: nat, c: Cell, i: nat, end: nat) {
    && |c.mem| == cap
    && (i > 0 ==> c.off == 0)
    && (i < end ==> c.DataEnd() == cap && c.len > 0)
    && (i > end ==> c.len == 0)
  }

  // The cell at which writing continues: the end cell, or the next one when it is full.
  ghost function SpaceStart(cells: seq<Cell>, end: nat): nat {
    if end < |cells| && cells[end].Space() == 0 then end + 1 else end
  }

  // ---------------------------------------------------------------- accounting

  lemma {:induction false} ContentsConcat(a: seq<Cell>, b: seq<Cell>)
    ensures Contents(a + b) == Contents(a) + Contents(b)
  {
    if a == [] {
      assert a + b == b;
    } else {
      ContentsConcat(a[1..], b);
      assert (a + b)[0] == a[0] && (a + b)[1..] == a[1..] + b;
      Associate(a[0].Data(), Contents(a[1..]), Contents(b));
    }
  }

  lemma {:induction false} ContentsLength(cells: seq<Cell>)
    ensures |Contents(cells)| == Size(cells)
  {
    if cells != [] {
      ContentsLength(cells[1..]);
    }
  }

  lemma {:induction false} NoData(cells: seq<Cell>)
    requires forall i | 0 <= i < |cells| :: cells[i].len == 0
    ensures Contents(cells) == [] && Size(cells) == 0
  {
    if cells != [] {
      NoData(cells[1..]);
    }
  }

  /** The closed form computed by `space_size()` is the sum of the per-block space, because only
      the head cell can have a non-zero offset. */
  lemma {:induction false} SpaceAccounting(cap: nat, cells: seq<Cell>)
    requires forall i | 0 <= i < |cells| :: |cells[i].mem| == cap
    requires forall i | 0 < i < |cells| :: cells[i].off == 0
    ensures TotalSpace(cells) == |cells| * cap - Size(cells) - (if cells == [] then 0 else cells[0].off)
  {
    if cells != [] {
      SpaceAccounting(cap, cells[1..]);
      assert |cells| * cap == |cells[1..]| * cap + cap;
    }
  }

  // Exactly the head cell of a chain that queues anything holds data.
  lemma {:induction false} HeadHasData(cap: nat, cells: seq<Cell>, end: nat)
    requires WellFormed(cap, cells, end)
    ensures Size(cells) > 0 <==> cells != [] && cells[0].len > 0
    ensures Size(cells) == 0 ==> end == 0
  {
    if cells != [] && cells[0].len == 0 {
      assert Placed(cap, cells[0], 0, end);
      forall i | 0 <= i < |cells|
        ensures cells[i].len == 0
      {
        assert Placed(cap, cells[i], i, end);
      }
      NoData(cells);
    }
  }

  // ---------------------------------------------------------------- one block of a commit

  ghost function CommitStep(cells: seq<Cell>, j: nat, t: nat): (r: seq<Cell>)
    requires j < |cells| && t <= cells[j].Space()
    ensures |r| == |cells|
  {
    cells[j := cells[j].(len := cells[j].len + t)]
  }

  lemma {:induction false} CommitStepKeepsShape(cap: nat, cells: seq<Cell>, end: nat, t: nat)
    requires WellFormed(cap, cells, end) && SpaceStart(cells, end) < |cells|
    requires 0 < t <= cells[SpaceStart(cells, end)].Space()
    ensures WellFormed(cap, CommitStep(cells, SpaceStart(cells, end), t), SpaceStart(cells, end))
  {
    var j := SpaceStart(cells, end);
    var r := CommitStep(cells, j, t);
    forall i | 0 <= i < |r|
      ensures Placed(cap, r[i], i, j)
    {
      assert Placed(cap, cells[i], i, end);
    }
  }

  /** Committing t bytes at the writing position queues exactly the first t bytes of the free
      memory there, behind everything queued before. */
  lemma {:induction false} CommitStepAppends(cap: nat, cells: seq<Cell>, end: nat, t: nat)
    requires WellFormed(cap, cells, end) && SpaceStart(cells, end) < |cells|
    requires 0 < t <= cells[SpaceStart(cells, end)].Space()
    ensures Contents(CommitStep(cells, SpaceStart(cells, end), t))
         == Contents(cells) + cells[SpaceStart(cells, end)].Free()[..t]
  {
    NothingBehind(cap, cells, end, SpaceStart(cells, end));
    CommitLastData(cells, SpaceStart(cells, end), t);
  }

  lemma {:induction false} CommitLastData(cells: seq<Cell>, j: nat, t: nat)
    requires j < |cells| && t <= cells[j].Space() && Contents(cells[j + 1..]) == []
    ensures Contents(CommitStep(cells, j, t)) == Contents(cells) + cells[j].Free()[..t]
  {
    hide RawCell.Data;
    var r, z := CommitStep(cells, j, t), cells[j].Free()[..t];
    if j == 0 {
      CommittedData(cells[0], t);
      assert r[1..] == cells[1..];
    } else {
      CommitLastData(cells[1..], j - 1, t);
      assert r[1..] == CommitStep(cells[1..], j - 1, t);
      Associate(cells[0].Data(), Contents(cells[1..]), z);
    }
  }

  lemma {:induction false} CommittedData(c: Cell, t: nat)
    requires t <= c.Space()
    ensures c.(len := c.len + t).Data() == c.Data() + c.Free()[..t]
  {
  }

  lemma {:induction false} NothingBehind(cap: nat, cells: seq<Cell>, end: nat, j: nat)
    requires WellFormed(cap, cells, end) && end <= j < |cells|
    ensures Contents(cells[j + 1..]) == []
  {
    var post := cells[j + 1..];
    forall i | 0 <= i < |post|
      ensures post[i].len == 0
    {
      assert Placed(cap, cells[i + j + 1], i + j + 1, end);
    }
    NoData(post);
  }

  // ---------------------------------------------------------------- one block of a drain

  // The head block after draining t bytes from it.
  ghost function DrainHead(cells: seq<Cell>, t: nat): (r: seq<Cell>)
    requires cells != [] && t <= cells[0].len
    ensures |r| == |cells|
  {
    cells[0 := Cell(cells[0].off + t, cells[0].len - t, cells[0].mem)]
  }

  lemma {:induction false} DrainHeadRemoves(cells: seq<Cell>, t: nat)
    requires cells != [] && t <= cells[0].len
    ensures t <= |Contents(cells)|
    ensures Contents(DrainHead(cells, t)) == Contents(cells)[t..]
  {
    var c, r, rest := cells[0], DrainHead(cells, t), Contents(cells[1..]);
    assert r[1..] == cells[1..];
    assert r[0].Data() == c.Data()[t..];
    assert (c.Data() + rest)[t..] == c.Data()[t..] + rest;
  }

  // A head cell that keeps data or space keeps the shape of the chain.
  lemma {:induction false} DrainHeadKeepsShape(cap: nat, cells: seq<Cell>, end: nat, t: nat)
    requires WellFormed(cap, cells, end) && cells != [] && t <= cells[0].len
    requires t < cells[0].len || cells[0].Space() > 0
    ensures WellFormed(cap, DrainHead(cells, t), end)
    ensures SpaceStart(DrainHead(cells, t), end) == SpaceStart(cells, end)
  {
    var r := DrainHead(cells, t);
    forall i | 0 <= i < |r|
      ensures Placed(cap, r[i], i, end)
    {
      assert Placed(cap, cells[i], i, end);
    }
  }

  // A head cell with space left is the end cell, so it holds all that is queued.
  lemma {:induction false} HeadWithSpaceIsEnd(cap: nat, cells: seq<Cell>, end: nat)
    requires WellFormed(cap, cells, end) && cells != [] && cells[0].Space() > 0
    ensures end == 0 && Size(cells) == cells[0].len
  {
    assert Placed(cap, cells[0], 0, end);
    var post := cells[1..];
    forall i | 0 <= i < |post|
      ensures post[i].len == 0
    {
      assert Placed(cap, cells[i + 1], i + 1, end);
    }
    NoData(post);
  }

  ghost function EndAfterPrune(end: nat): nat {
    if end > 0 then end - 1 else 0
  }

  /** Pruning a head cell whose memory is used up: the shape is kept, the bytes queued are those of
      the remaining cells, and the writing position moves with the cells. */
  lemma {:induction false} PruneStep(cap: nat, cells: seq<Cell>, end: nat)
    requires WellFormed(cap, cells, end) && cells != [] && cells[0].Space() == 0
    ensures WellFormed(cap, cells[1..], EndAfterPrune(end))
    ensures SpaceStart(cells, end) > 0
    ensures SpaceStart(cells[1..], EndAfterPrune(end)) == SpaceStart(cells, end) - 1
  {
    var r := cells[1..];
    forall i | 0 <= i < |r|
      ensures Placed(cap, r[i], i, EndAfterPrune(end))
    {
      assert Placed(cap, cells[i + 1], i + 1, end);
    }
    assert Placed(cap, cells[0], 0, end);
    if end == 0 && r != [] {
      assert Placed(cap, cells[1], 1, end);
    }
  }

  lemma {:induction false} PruneRemoves(cells: seq<Cell>)
    requires cells != []
    ensures cells[0].len <= |Contents(cells)|
    ensures Contents(cells[1..]) == Contents(cells)[cells[0].len..]
  {
  }

  // ---------------------------------------------------------------- a new block

  lemma {:induction false} AppendKeepsShape(cap: nat, cells: seq<Cell>, end: nat, c: Cell)
    requires WellFormed(cap, cells, end)
    requires |c.mem| == cap && c.off == 0 && c.len == 0
    ensures WellFormed(cap, cells + [c], end)
    ensures SpaceStart(cells + [c], end) == SpaceStart(cells, end)
    ensures Contents(cells + [c]) == Contents(cells)
    ensures Size(cells + [c]) == Size(cells)
  {
    var r := cells + [c];
    forall i | 0 <= i < |r|
      ensures Placed(cap, r[i], i, end)
    {
      if i < |cells| {
        assert Placed(cap, cells[i], i, end);
      }
    }
    NoData([c]);
    ContentsConcat(cells, [c]);
    ContentsLength(cells);
    ContentsLength(r);
  }

  // Every cell at or behind the writing position has free memory.
  lemma {:induction false} SpaceBehind(cap: nat, cells: seq<Cell>, end: nat, i: nat)
    requires WellFormed(cap, cells, end) && SpaceStart(cells, end) <= i < |cells|
    ensures 0 < cells[i].Space() <= cap
  {
    assert Placed(cap, cells[i], i, end);
  }

  // Writing into free memory changes nothing that is queued.
  lemma {:induction false} StoreKeepsShape(cap: nat, cells: seq<Cell>, end: nat, i: nat, mem: seq<byte>)
    requires WellFormed(cap, cells, end) && i < |cells|
    requires |mem| == cap && mem[..cells[i].DataEnd()] == cells[i].mem[..cells[i].DataEnd()]
    ensures WellFormed(cap, cells[i := cells[i].(mem := mem)], end)
    ensures SpaceStart(cells[i := cells[i].(mem := mem)], end) == SpaceStart(cells, end)
  {
    var r := cells[i := cells[i].(mem := mem)];
    forall k | 0 <= k < |r|
      ensures Placed(cap, r[k], k, end)
    {
      assert Placed(cap, cells[k], k, end);
    }
  }

  lemma {:induction false} StoreKeepsContents(cells: seq<Cell>, i: nat, mem: seq<byte>)
    requires i < |cells| && |mem| == |cells[i].mem|
    requires mem[..cells[i].DataEnd()] == cells[i].mem[..cells[i].DataEnd()]
    ensures Contents(cells[i := cells[i].(mem := mem)]) == Contents(cells)
    ensures Size(cells[i := cells[i].(mem := mem)]) == Size(cells)
  {
    var r := cells[i := cells[i].(mem := mem)];
    if i == 0 {
      var c := cells[0];
      assert mem[..c.DataEnd()][c.off..] == c.mem[..c.DataEnd()][c.off..];
      assert r[0].Data() == c.Data();
      assert r[1..] == cells[1..];
    } else {
      StoreKeepsContents(cells[1..], i - 1, mem);
      assert r[1..] == cells[1..][i - 1 := cells[i].(mem := mem)];
    }
  }

  // An empty head block may start over.
  // All memory is free.
  ghost predicate Unused(cells: seq<Cell>) {
    forall i | 0 <= i < |cells| :: cells[i].off == 0 && cells[i].len == 0
  }

  lemma {:induction false} ResetKeepsShape(cap: nat, cells: seq<Cell>, end: nat)
    requires WellFormed(cap, cells, end) && cells != [] && Size(cells) == 0
    ensures WellFormed(cap, cells[0 := cells[0].(off := 0)], end)
    ensures Contents(cells[0 := cells[0].(off := 0)]) == Contents(cells)
    ensures Size(cells[0 := cells[0].(off := 0)]) == 0
    ensures Unused(cells[0 := cells[0].(off := 0)])
  {
    HeadHasData(cap, cells, end);
    var r := cells[0 := cells[0].(off := 0)];
    forall k | 0 <= k < |r|
      ensures Placed(cap, r[k], k, end)
    {
      assert Placed(cap, cells[k], k, end);
    }
    HeadHasData(cap, r, end);
    ContentsLength(cells);
    ContentsLength(r);
  }

  // Once a cell without data is met, the front has been seen completely.
  lemma {:induction false} PrefixIsAll(cap: nat, cells: seq<Cell>, end: nat, i: nat)
    requires WellFormed(cap, cells, end) && i <= |cells|
    requires i < |cells| ==> cells[i].len == 0
    ensures Contents(cells[..i]) == Contents(cells)
  {
    assert cells == cells[..i] + cells[i..];
    ContentsConcat(cells[..i], cells[i..]);
    var post := cells[i..];
    forall k | 0 <= k < |post|
      ensures post[k].len == 0
    {
      assert Placed(cap, cells[i + k], i + k, end);
      assert Placed(cap, cells[i], i, end);
    }
    NoData(post);
  }

  lemma {:induction false} PrefixGrows(cells: seq<Cell>, i: nat)
    requires i < |cells|
    ensures Contents(cells[..i + 1]) == Contents(cells[..i]) + cells[i].Data()
  {
    assert cells[..i + 1] == cells[..i] + [cells[i]];
    ContentsConcat(cells[..i], [cells[i]]);
    assert [cells[i]][1..] == [];
    assert cells[i].Data() + [] == cells[i].Data();
  }

  lemma {:induction false} SpaceStartInside(cap: nat, cells: seq<Cell>, end: nat)
    requires WellFormed(cap, cells, end)
    ensures SpaceStart(cells, end) <= |cells|
  {
  }

  lemma {:induction false} SpaceOfTail(cells: seq<Cell>, n: nat)
    requires n <= |cells|
    ensures TotalSpace(cells[n..]) <= TotalSpace(cells)
  {
    if n == 0 {
      assert cells[0..] == cells;
    } else {
      SpaceOfTail(cells[1..], n - 1);
      assert cells[1..][n - 1..] == cells[n..];
    }
  }
}
