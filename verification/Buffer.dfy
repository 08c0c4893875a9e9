/**
The scatter-gather buffer over a linked list of blocks, with its two-phase protocols:
Reserve/Commit at the back and Peek/Drain at the front, which may interleave.
*/
module Buffers {
  import opened Bytes
  import opened Sequences
  import opened Freelists
  import Q = BlockQueue

  /** A piece of block memory handed to the outside: what the source calls a system buffer. */
  datatype Span = Span(blk: Block, start: nat, len: nat)

  ghost function Total(spans: seq<Span>): nat {
    if spans == [] then 0 else spans[0].len + Total(spans[1..])
  }

  // The memory a span denotes.
  ghost function Piece(s: Span): seq<byte>
    reads s.blk`mem
  {
    if s.start + s.len <= |s.blk.mem| then s.blk.mem[s.start..s.start + s.len] else []
  }

  // The same, read from the cell that records the block.
  ghost function PieceOf(c: Q.Cell, s: Span): seq<byte> {
    if s.start + s.len <= |c.mem| then c.mem[s.start..s.start + s.len] else []
  }

  // What spans denote, one in each of the given cells, gathered in order.
  ghost function Gather(cells: seq<Q.Cell>, spans: seq<Span>): seq<byte> {
    if spans == [] || cells == [] then [] else PieceOf(cells[0], spans[0]) + Gather(cells[1..], spans[1..])
  }

  lemma {:induction false} TotalAppend(spans: seq<Span>, s: Span)
    ensures Total(spans + [s]) == Total(spans) + s.len
  {
    if spans != [] {
      TotalAppend(spans[1..], s);
      assert (spans + [s])[1..] == spans[1..] + [s];
    }
  }

  // The span is free memory of the block: from its data end, up to the end of the block if full.
  ghost predicate GrantOf(c: Q.Cell, s: Span, full: bool) {
    && s.start == c.DataEnd()
    && 0 < s.len <= c.Space()
    && (full ==> s.len == c.Space())
  }

  // The span is data of the block: from its first byte, all of it if whole.
  ghost predicate ViewOf(c: Q.Cell, s: Span, whole: bool) {
    && s.start == c.off
    && 0 < s.len <= c.len
    && (whole ==> s.len == c.len)
  }

  lemma {:induction false} GatherLength(cells: seq<Q.Cell>, spans: seq<Span>)
    requires |spans| <= |cells|
    requires forall k | 0 <= k < |spans| :: spans[k].start + spans[k].len <= |cells[k].mem|
    ensures |Gather(cells, spans)| == Total(spans)
  {
    if spans != [] {
      GatherLength(cells[1..], spans[1..]);
    }
  }

  // What is gathered depends only on the memory of the blocks involved.
  lemma {:induction false} GatherFrame(a: seq<Q.Cell>, b: seq<Q.Cell>, spans: seq<Span>)
    requires |a| == |b| && forall k | 0 <= k < |a| :: a[k].mem == b[k].mem
    ensures Gather(a, spans) == Gather(b, spans)
  {
    if spans != [] && a != [] {
      GatherFrame(a[1..], b[1..], spans[1..]);
    }
  }

  // Taking across the first span and into the rest.
  lemma {:induction false} TakeFirst(x: seq<byte>, y: seq<byte>, n: nat)
    requires n <= |x| + |y|
    ensures var t := Min(n, |x|); (x + y)[..n] == x[..t] + y[..n - t]
  {
  }

  // Committing t bytes of the first span: what was in flight is those bytes and what still is.
  lemma {:induction false} GatherStep(x: seq<byte>, cells: seq<Q.Cell>, j: nat, spans: seq<Span>, n: nat, t: nat)
    requires j < |cells| && spans != [] && n <= |Gather(cells[j..], spans)|
    requires |PieceOf(cells[j], spans[0])| == spans[0].len <= cells[j].Space() && t == Min(n, spans[0].len)
    requires cells[j].Free()[..spans[0].len] == PieceOf(cells[j], spans[0])
    ensures var rest := Gather(Q.CommitStep(cells, j, t)[j + 1..], spans[1..]);
            n - t <= |rest| && (x + cells[j].Free()[..t]) + rest[..n - t] == x + Gather(cells[j..], spans)[..n]
  {
    var rest := Gather(cells[j + 1..], spans[1..]);
    assert Q.CommitStep(cells, j, t)[j + 1..] == cells[j + 1..] == cells[j..][1..];
    TakeFirst(PieceOf(cells[j], spans[0]), rest, n);
    assert cells[j].Free()[..t] == cells[j].Free()[..spans[0].len][..t];
    Associate(x, cells[j].Free()[..t], rest[..n - t]);
  }

  // Cutting the cells and the spans at the same place cuts what they denote.
  lemma {:induction false} GatherSplit(cells: seq<Q.Cell>, spans: seq<Span>, k: nat)
    requires k <= |spans| <= |cells|
    ensures Gather(cells, spans) == Gather(cells[..k], spans[..k]) + Gather(cells[k..], spans[k..])
  {
    if k == 0 {
      assert cells[0..] == cells && spans[0..] == spans;
    } else {
      GatherSplit(cells[1..], spans[1..], k - 1);
      TailOfPrefix(cells, k);
      TailOfPrefix(spans, k);
      Associate(PieceOf(cells[0], spans[0]), Gather(cells[..k][1..], spans[..k][1..]), Gather(cells[k..], spans[k..]));
    }
  }

  // One more span in one more cell adds what it denotes.
  lemma {:induction false} GatherGrows(cells: seq<Q.Cell>, spans: seq<Span>, k: nat)
    requires k < |cells| && k < |spans|
    ensures Gather(cells[..k + 1], spans[..k + 1]) == Gather(cells[..k], spans[..k]) + PieceOf(cells[k], spans[k])
  {
    GatherSplit(cells[..k + 1], spans[..k + 1], k);
    assert cells[..k + 1][..k] == cells[..k] && spans[..k + 1][..k] == spans[..k];
    assert cells[..k + 1][k..] == [cells[k]] && spans[..k + 1][k..] == [spans[k]];
    assert Gather([cells[k]], [spans[k]]) == PieceOf(cells[k], spans[k]);
  }

  // One more span written: one more piece of the data is in place.
  lemma {:induction false} ScatterStep(a: seq<Q.Cell>, ret: seq<Span>, k: nat, data: seq<byte>, done: nat, n: nat)
    requires k < |ret| && k < |a| && done + n <= |data|
    requires |Gather(a[..k], ret[..k])| == done && data[..done] == Gather(a[..k], ret[..k])
    requires n <= ret[k].len == |PieceOf(a[k], ret[k])| && PieceOf(a[k], ret[k])[..n] == data[done..done + n]
    ensures data[..done + n] <= Gather(a[..k + 1], ret[..k + 1])
    ensures |Gather(a[..k + 1], ret[..k + 1])| == done + ret[k].len
  {
    hide Gather, PieceOf;
    GatherGrows(a, ret, k);
    assert data[..done + n] == data[..done] + PieceOf(a[k], ret[k])[..n];
  }

  lemma {:induction false} GrantWithinSpace(cells: seq<Q.Cell>, spans: seq<Span>)
    requires |spans| <= |cells|
    requires forall k | 0 <= k < |spans| :: spans[k].len <= cells[k].Space()
    ensures Total(spans) <= Q.TotalSpace(cells)
  {
    if spans != [] {
      GrantWithinSpace(cells[1..], spans[1..]);
    }
  }

  // The bytes of a view are the front of the queue.
  lemma {:induction false} ViewIsPrefix(cells: seq<Q.Cell>, views: seq<Span>)
    requires |views| <= |cells|
    requires forall k | 0 <= k < |views| :: ViewOf(cells[k], views[k], k + 1 < |views|)
    ensures Gather(cells, views) <= Q.Contents(cells) && |Gather(cells, views)| == Total(views)
  {
    if views != [] {
      var c, v := cells[0], views[0];
      assert ViewOf(c, v, 1 < |views|) && PieceOf(c, v) == c.Data()[..v.len];
      ViewIsPrefix(cells[1..], views[1..]);
      if |views| == 1 {
        assert Gather(cells, views) == PieceOf(c, v);
      } else {
        assert PieceOf(c, v) == c.Data();
      }
    }
  }

  // At most the first n bytes.
  ghost function Front(s: seq<byte>, n: nat): seq<byte> {
    s[..Min(n, |s|)]
  }

  lemma {:induction false} FrontAppend(x: seq<byte>, y: seq<byte>, n: nat)
    ensures Front(x + y, n) == Front(x, n) + y[..Min(n - Min(n, |x|), |y|)]
  {
  }

  // What spans up to i hold of the first `size` bytes they denote, and what span i adds to it.
  lemma {:induction false} CopyStep(cells: seq<Q.Cell>, ret: seq<Span>, i: nat, size: nat)
    requires i < |ret| && i < |cells| && ret[i].start + ret[i].len <= |cells[i].mem|
    ensures var g := Gather(cells[..i], ret[..i]);
            var n := Min(size - Min(size, |g|), ret[i].len);
            Front(Gather(cells[..i + 1], ret[..i + 1]), size)
            == Front(g, size) + cells[i].mem[ret[i].start..ret[i].start + n]
  {
    hide Gather;
    var g := Gather(cells[..i], ret[..i]);
    GatherGrows(cells, ret, i);
    FrontAppend(g, PieceOf(cells[i], ret[i]), size);
  }

  // The cell records what the block holds.
  ghost predicate Holding(b: Block, c: Q.Cell)
    reads b`offset, b`len, b`mem
  {
    b.offset == c.off && b.len == c.len && b.mem == c.mem
  }

  /** The spans are the free memory from the writing position on, block by block.  All of them reach
      to the end of their block, except that the last one need not if the grant is closed. */
  ghost predicate GrantIn(chain: seq<Block>, cells: seq<Q.Cell>, end: nat, spans: seq<Span>, closed: bool) {
    var s := Q.SpaceStart(cells, end);
    && s + |spans| <= |chain| == |cells|
    && forall k | 0 <= k < |spans| ::
         spans[k].blk == chain[s + k] && GrantOf(cells[s + k], spans[k], !closed || k + 1 < |spans|)
  }

  // The first span of a grant lies at the writing position.
  lemma {:induction false} FirstOfGrant(chain: seq<Block>, cells: seq<Q.Cell>, end: nat, spans: seq<Span>)
    requires GrantIn(chain, cells, end, spans, true) && spans != []
    ensures var s := Q.SpaceStart(cells, end);
            s < |chain| == |cells| && spans[0].blk == chain[s] && GrantOf(cells[s], spans[0], |spans| > 1)
  {
    hide Q.SpaceStart;
    var s := Q.SpaceStart(cells, end);
    assert spans[0].blk == chain[s + 0] && GrantOf(cells[s + 0], spans[0], 0 + 1 < |spans|);
  }

  lemma {:induction false} GrantAt(chain: seq<Block>, cells: seq<Q.Cell>, end: nat, spans: seq<Span>, k: nat)
    requires GrantIn(chain, cells, end, spans, true) && k < |spans|
    ensures var s := Q.SpaceStart(cells, end);
            && s + k < |chain| == |cells| && spans[k].blk == chain[s + k]
            && GrantOf(cells[s + k], spans[k], k + 1 < |spans|)
  {
    hide Q.SpaceStart;
  }

  // Data written at the start of a span is what the span then starts with, and is behind all data.
  lemma {:induction false} StoredPiece(c: Q.Cell, span: Span, full: bool, data: seq<byte>)
    requires GrantOf(c, span, full) && |data| <= span.len
    ensures span.start + |data| <= |c.mem|
    ensures var mem := Overwrite(c.mem, span.start, data);
            && |mem| == |c.mem| && mem[..c.DataEnd()] == c.mem[..c.DataEnd()]
            && |PieceOf(c.(mem := mem), span)| == span.len && PieceOf(c.(mem := mem), span)[..|data|] == data
  {
    var mem := Overwrite(c.mem, span.start, data);
    assert mem[span.start..span.start + |data|] == data;
  }

  lemma {:induction false} StoredBehind(cells: seq<Q.Cell>, s: nat, k: nat, mem: seq<byte>)
    requires s + k < |cells| && |mem| == |cells[s + k].mem|
    ensures var r := cells[s + k := cells[s + k].(mem := mem)];
            && |r[s..]| == |cells[s..]| > k && r[s..][..k] == cells[s..][..k] && r[s..][k] == cells[s + k].(mem := mem)
  {
  }

  lemma {:induction false} FreePiece(c: Q.Cell, span: Span, full: bool)
    requires GrantOf(c, span, full)
    ensures |PieceOf(c, span)| == span.len && c.Free()[..span.len] == PieceOf(c, span)
  {
  }

  // The spans are data from the front on, block by block.
  ghost predicate ViewIn(chain: seq<Block>, cells: seq<Q.Cell>, views: seq<Span>) {
    && |views| <= |chain| == |cells|
    && forall k | 0 <= k < |views| ::
         views[k].blk == chain[k] && ViewOf(cells[k], views[k], k + 1 < |views|)
  }

  // The spans are all the data of the first blocks.
  ghost predicate WholeViews(chain: seq<Block>, cells: seq<Q.Cell>, views: seq<Span>) {
    && |views| <= |chain| == |cells|
    && (forall k | 0 <= k < |views| :: views[k].blk == chain[k] && ViewOf(cells[k], views[k], true))
    && Gather(cells, views) == Q.Contents(cells[..|views|])
  }

  lemma {:induction false} NoViews(chain: seq<Block>, cells: seq<Q.Cell>)
    requires |chain| == |cells|
    ensures WholeViews(chain, cells, [])
  {
    EmptyGather(cells);
  }

  lemma {:induction false} OneMoreView(chain: seq<Block>, cells: seq<Q.Cell>, views: seq<Span>, span: Span)
    requires WholeViews(chain, cells, views) && |views| < |chain|
    requires span.blk == chain[|views|] && ViewOf(cells[|views|], span, true)
    ensures WholeViews(chain, cells, views + [span])
  {
    hide Gather, Q.Contents;
    GatherAppend(cells, views, span);
    Q.PrefixGrows(cells, |views|);
    assert PieceOf(cells[|views|], span) == cells[|views|].Data();
  }

  lemma {:induction false} ViewsAreWhole(chain: seq<Block>, cells: seq<Q.Cell>, views: seq<Span>)
    requires WholeViews(chain, cells, views)
    ensures ViewIn(chain, cells, views) && Gather(cells, views) == Q.Contents(cells[..|views|])
  {
  }

  // Filling the first span of a grant leaves the rest of it at the new writing position.
  lemma {:induction false} CommitKeepsGrant(cap: nat, chain: seq<Block>, cells: seq<Q.Cell>, end: nat, spans: seq<Span>)
    requires Q.WellFormed(cap, cells, end) && GrantIn(chain, cells, end, spans, true) && |spans| > 1
    ensures var j := Q.SpaceStart(cells, end);
            GrantIn(chain, Q.CommitStep(cells, j, spans[0].len), j, spans[1..], true)
  {
    var j := Q.SpaceStart(cells, end);
    var r, rest := Q.CommitStep(cells, j, spans[0].len), spans[1..];
    assert Q.SpaceStart(r, j) == j + 1;
    forall k | 0 <= k < |rest|
      ensures rest[k].blk == chain[j + 1 + k] && GrantOf(r[j + 1 + k], rest[k], k + 1 < |rest|)
    {
      assert rest[k] == spans[k + 1] && spans[k + 1].blk == chain[j + (k + 1)];
    }
  }

  // Committing at the back leaves a view of the front intact.
  lemma {:induction false} CommitKeepsView(
    cap: nat, chain: seq<Block>, cells: seq<Q.Cell>, end: nat, views: seq<Span>, t: nat)
    requires Q.WellFormed(cap, cells, end) && ViewIn(chain, cells, views)
    requires Q.SpaceStart(cells, end) < |cells| && t <= cells[Q.SpaceStart(cells, end)].Space()
    ensures ViewIn(chain, Q.CommitStep(cells, Q.SpaceStart(cells, end), t), views)
  {
    var j := Q.SpaceStart(cells, end);
    var r := Q.CommitStep(cells, j, t);
    forall k | 0 <= k < |views|
      ensures views[k].blk == chain[k] && ViewOf(r[k], views[k], k + 1 < |views|)
    {
      if k + 1 < |views| {
        assert ViewOf(cells[k + 1], views[k + 1], k + 2 < |views|);
        assert Q.Placed(cap, cells[k + 1], k + 1, end);
      }
    }
  }

  // A grant depends on where the data of each block ends and on nothing else.
  lemma {:induction false} SameGrant(
    chain: seq<Block>, cells: seq<Q.Cell>, r: seq<Q.Cell>, end: nat, spans: seq<Span>, k: nat)
    requires GrantIn(chain, cells, end, spans, true) && k < |spans|
    requires |r| == |cells| && Q.SpaceStart(r, end) == Q.SpaceStart(cells, end)
    requires forall i | 0 <= i < |r| :: r[i].DataEnd() == cells[i].DataEnd() && |r[i].mem| == |cells[i].mem|
    ensures var s := Q.SpaceStart(r, end);
            s + k < |r| == |chain| && spans[k].blk == chain[s + k] && GrantOf(r[s + k], spans[k], k + 1 < |spans|)
  {
    GrantAt(chain, cells, end, spans, k);
    hide GrantIn, Q.SpaceStart;
  }

  // Draining the head block moves no free memory.
  lemma {:induction false} DrainKeepsGrant(chain: seq<Block>, cells: seq<Q.Cell>, end: nat, spans: seq<Span>, t: nat)
    requires cells != [] && t <= cells[0].len && GrantIn(chain, cells, end, spans, true)
    requires Q.SpaceStart(Q.DrainHead(cells, t), end) == Q.SpaceStart(cells, end) <= |cells|
    ensures GrantIn(chain, Q.DrainHead(cells, t), end, spans, true)
  {
    var r := Q.DrainHead(cells, t);
    assert forall i | 0 <= i < |r| :: r[i].DataEnd() == cells[i].DataEnd() && |r[i].mem| == |cells[i].mem|;
    hide Q.DrainHead, Q.SpaceStart;
    forall k | 0 <= k < |spans|
      ensures var s := Q.SpaceStart(r, end);
              s + k < |r| == |chain| && spans[k].blk == chain[s + k] && GrantOf(r[s + k], spans[k], k + 1 < |spans|)
    {
      SameGrant(chain, cells, r, end, spans, k);
    }
  }

  // Neither does writing into free memory.
  lemma {:induction false} StoreKeepsGrant(
    chain: seq<Block>, cells: seq<Q.Cell>, end: nat, spans: seq<Span>, i: nat, mem: seq<byte>)
    requires i < |cells| && |mem| == |cells[i].mem| && GrantIn(chain, cells, end, spans, true)
    requires Q.SpaceStart(cells[i := cells[i].(mem := mem)], end) == Q.SpaceStart(cells, end)
    ensures GrantIn(chain, cells[i := cells[i].(mem := mem)], end, spans, true)
  {
    var r := cells[i := cells[i].(mem := mem)];
    hide Q.SpaceStart;
    forall k | 0 <= k < |spans|
      ensures var s := Q.SpaceStart(r, end);
              s + k < |r| == |chain| && spans[k].blk == chain[s + k] && GrantOf(r[s + k], spans[k], k + 1 < |spans|)
    {
      SameGrant(chain, cells, r, end, spans, k);
    }
  }

  lemma {:induction false} StoreKeepsView(
    chain: seq<Block>, cells: seq<Q.Cell>, views: seq<Span>, i: nat, mem: seq<byte>)
    requires i < |cells| && |mem| == |cells[i].mem| && ViewIn(chain, cells, views)
    ensures ViewIn(chain, cells[i := cells[i].(mem := mem)], views)
  {
  }

  lemma {:induction false} DrainKeepsFree(cells: seq<Q.Cell>, s: nat, spans: seq<Span>, t: nat)
    requires cells != [] && t <= cells[0].len && s <= |cells|
    ensures Gather(Q.DrainHead(cells, t)[s..], spans) == Gather(cells[s..], spans)
  {
    var r := Q.DrainHead(cells, t);
    assert forall i | 0 <= i < |r| :: r[i].mem == cells[i].mem;
    assert forall i | 0 <= i < |r[s..]| :: r[s..][i] == r[s + i] && cells[s..][i] == cells[s + i];
    hide Q.DrainHead;
    GatherFrame(r[s..], cells[s..], spans);
  }

  // Pruning the head block moves the writing position with the blocks: the grant is unaffected.
  lemma {:induction false} PruneKeepsGrant(cap: nat, chain: seq<Block>, cells: seq<Q.Cell>, end: nat, spans: seq<Span>)
    requires Q.WellFormed(cap, cells, end) && cells != [] && cells[0].Space() == 0
    requires GrantIn(chain, cells, end, spans, true)
    ensures GrantIn(chain[1..], cells[1..], Q.EndAfterPrune(end), spans, true)
  {
    Q.PruneStep(cap, cells, end);
    var s := Q.SpaceStart(cells, end);
    forall k | 0 <= k < |spans|
      ensures spans[k].blk == chain[1..][s - 1 + k] && GrantOf(cells[1..][s - 1 + k], spans[k], k + 1 < |spans|)
    {
      assert spans[k].blk == chain[s + k];
    }
  }

  lemma {:induction false} GatherAppend(cells: seq<Q.Cell>, spans: seq<Span>, s: Span)
    requires |spans| < |cells|
    ensures Gather(cells, spans + [s]) == Gather(cells, spans) + PieceOf(cells[|spans|], s)
  {
    var all := spans + [s];
    if spans == [] {
      assert all[1..] == [];
    } else {
      GatherAppend(cells[1..], spans[1..], s);
      assert all[0] == spans[0] && all[1..] == spans[1..] + [s];
      Associate(PieceOf(cells[0], spans[0]), Gather(cells[1..], spans[1..]), PieceOf(cells[|spans|], s));
    }
  }

  /** Blocks have moved one by one from the front of a buffer's chain to the front of the free list,
      and none is lost. */
  ghost predicate MovedTo(chain0: seq<Block>, free0: seq<Block>, chain: seq<Block>, free: seq<Block>) {
    var d := |chain0| - |chain|;
    && 0 <= d && chain == chain0[d..]
    && |free| == d + |free0| && free[d..] == free0
    && forall i | 0 <= i < d :: free[i] == chain0[d - 1 - i]
  }

  // Moves add up.
  lemma {:induction false} MovedFurther(chain0: seq<Block>, free0: seq<Block>, chain1: seq<Block>, free1: seq<Block>,
                                        chain2: seq<Block>, free2: seq<Block>)
    requires MovedTo(chain0, free0, chain1, free1) && MovedTo(chain1, free1, chain2, free2)
    ensures MovedTo(chain0, free0, chain2, free2)
  {
    var e, d := |chain0| - |chain1|, |chain1| - |chain2|;
    assert chain0[e..][d..] == chain0[e + d..];
    assert free2[d + e..] == free2[d..][e..];
    forall i | 0 <= i < d + e
      ensures free2[i] == chain0[d + e - 1 - i]
    {
      if i >= d {
        assert free2[i] == free2[d..][i - d];
      }
    }
  }

  lemma {:induction false} NothingMoved(chain: seq<Block>, free: seq<Block>)
    ensures MovedTo(chain, free, chain, free)
  {
  }

  lemma {:induction false} MovedOne(chain: seq<Block>, free: seq<Block>)
    requires chain != []
    ensures MovedTo(chain, free, chain[1..], [chain[0]] + free)
  {
  }

  lemma {:induction false} MovedBlocksAreOurs(
    chain0: seq<Block>, free0: seq<Block>, chain: seq<Block>, free: seq<Block>)
    requires MovedTo(chain0, free0, chain, free)
    ensures forall b | b in chain :: b in chain0
    ensures chain != [] ==> chain[0] in chain0
  {
  }

  // No block is lost or gained.
  lemma {:induction false} MovedSameBlocks(chain0: seq<Block>, free0: seq<Block>, chain: seq<Block>, free: seq<Block>)
    requires MovedTo(chain0, free0, chain, free)
    ensures forall b | b in chain0 || b in free0 :: b in chain || b in free
    ensures forall b | b in chain || b in free :: b in chain0 || b in free0
  {
    var d := |chain0| - |chain|;
    forall b | b in chain0 || b in free0
      ensures b in chain || b in free
    {
      if b in chain0 {
        var i :| 0 <= i < |chain0| && chain0[i] == b;
        if i < d {
          assert free[d - 1 - i] == b;
        } else {
          assert chain[i - d] == b;
        }
      } else {
        var i :| 0 <= i < |free0| && free0[i] == b;
        assert free[d..][i] == free[d + i];
      }
    }
    forall b | b in free
      ensures b in chain0 || b in free0
    {
      var i :| 0 <= i < |free| && free[i] == b;
      if i >= d {
        assert free[i] == free[d..][i - d];
      }
    }
  }

  twostate predicate Kept(b: Block)
    reads b
  {
    b.offset == old(b.offset) && b.len == old(b.len) && b.mem == old(b.mem)
  }

  class Buffer {
    const freelist: Freelist
    var head: Block?
    var end: Block?
    var tail: Block?
    var blockCnt: nat
    var dataSize: nat
    var reserved: bool
    var peeked: bool
    // The chain from head to tail, what each block holds, and the index of the end block.
    ghost var chain: seq<Block>
    ghost var cells: seq<Q.Cell>
    ghost var endIx: nat
    // The position of the head block: the number of blocks pruned so far.
    ghost var base: int
    // What the outstanding Reserve and the outstanding Peek have handed out.
    ghost var spans: seq<Span>
    ghost var views: seq<Span>

    // The queued bytes.
    ghost function Contents(): seq<byte>
      reads `cells
    {
      Q.Contents(cells)
    }

    // The memory that the outstanding reservation has handed out, as it reads now.
    ghost function InFlight(): seq<byte>
      reads `cells, `endIx, `spans
    {
      Gather(Behind(), spans)
    }

    // The cells from the writing position on.
    ghost function Behind(): seq<Q.Cell>
      reads `cells, `endIx
    {
      if Q.SpaceStart(cells, endIx) <= |cells| then cells[Q.SpaceStart(cells, endIx)..] else []
    }

    // The data that the outstanding Peek has handed out, as it reads now.
    ghost function OnView(): seq<byte>
      reads `cells, `views
    {
      Gather(cells, views)
    }

    // The blocks this buffer may change: its own and the free ones.
    ghost function Repr(): set<object>
      reads `chain, freelist`chain
    {
      {this, freelist} + (set b | b in chain) + (set b | b in freelist.chain)
    }

    // The pointer structure: the chain runs from head to tail and belongs to this buffer.
    ghost predicate Links()
      reads `head, `tail, `blockCnt, `chain, `base, chain`owner, chain`pos, chain`next
      reads freelist, freelist.chain`owner, freelist.chain`pos, freelist.chain`next, freelist.chain`mem
    {
      && freelist.Valid()
      && head == At(chain, 0)
      && blockCnt == |chain|
      && (chain != [] ==> tail == chain[|chain| - 1])
      && forall i | 0 <= i < |chain| :: Node(i)
    }

    ghost predicate Node(i: nat)
      requires i < |chain|
      reads `chain, `base, chain`owner, chain`pos, chain`next
    {
      && chain[i].owner == this
      && chain[i].pos == base + i
      && chain[i].next == At(chain, i + 1)
    }

    // The cells record what the blocks hold, and have the shape of a queue.
    ghost predicate Queue()
      reads `chain, `cells, `endIx, chain`offset, chain`len, chain`mem
    {
      && |chain| == |cells|
      && Q.WellFormed(freelist.capacity, cells, endIx)
      && forall i | 0 <= i < |chain| :: Mirror(i)
    }

    ghost predicate Mirror(i: nat)
      requires i < |chain| == |cells|
      reads `chain, `cells, chain`offset, chain`len, chain`mem
    {
      Holding(chain[i], cells[i])
    }

    // Everything but the outstanding reservation.
    ghost predicate Core()
      reads this, freelist, chain, freelist.chain
    {
      && Links()
      && Queue()
      && end == At(chain, endIx)
      && dataSize == Q.Size(cells)
      && (peeked ==> Viewed(views))
    }

    ghost predicate Valid()
      reads this, freelist, chain, freelist.chain
    {
      && Core()
      && (reserved ==> Granted(spans, true))
    }

    ghost predicate Granted(spans: seq<Span>, closed: bool)
      reads `chain, `cells, `endIx
    {
      GrantIn(chain, cells, endIx, spans, closed)
    }

    ghost predicate Viewed(views: seq<Span>)
      reads `chain, `cells
    {
      ViewIn(chain, cells, views)
    }

    // A buffer on a free list of its own, unless it is given one to share.
    constructor (shared: Freelist?, capacity: nat)
      requires capacity > 0 && (shared != null ==> shared.Valid() && shared.capacity == capacity)
      ensures Valid() && Contents() == [] && freelist.capacity == capacity
      ensures if shared == null then fresh(freelist) && freelist.chain == [] else freelist == shared
      ensures chain == [] && !reserved && !peeked && dataSize == 0
    {
      if shared == null {
        freelist := new Freelist(capacity);
      } else {
        freelist := shared;
      }
      head, end, tail := null, null, null;
      blockCnt, dataSize := 0, 0;
      reserved, peeked := false, false;
      chain, cells, endIx, base, spans, views := [], [], 0, 0, [], [];
    }

    lemma {:induction false} NoneFree()
      requires Links()
      ensures forall b | b in chain :: b !in freelist.chain
    {
      forall i | 0 <= i < |chain|
        ensures chain[i].owner == this
      {
        assert Node(i);
      }
      forall j | 0 <= j < |freelist.chain|
        ensures freelist.chain[j].owner == freelist
      {
        assert freelist.Holds(j);
      }
    }

    // The chain is acyclic, ends in null, and shares no block with the free list.
    lemma {:induction false} Acyclic()
      requires Valid()
      ensures Linked(head, chain) && Distinct(chain) && Apart(chain, freelist.chain)
    {
      forall i, j | 0 <= i < j < |chain|
        ensures chain[i] != chain[j]
      {
        assert Node(i) && Node(j);
      }
      forall i | 0 <= i < |chain|
        ensures chain[i].next == At(chain, i + 1)
      {
        assert Node(i);
      }
      forall i, j | 0 <= i < |chain| && 0 <= j < |freelist.chain|
        ensures chain[i] != freelist.chain[j]
      {
        assert Node(i) && freelist.Holds(j);
      }
    }

    // The destructor: all blocks go back to the free list.
    method Destroy()
      requires Valid()
      modifies freelist`head, freelist`size, freelist`chain, chain`next, chain`owner, chain`pos
      ensures freelist.Valid() && freelist.chain == old(chain) + old(freelist.chain)
    {
      Acyclic();
      forall i | 0 <= i < |chain|
        ensures chain[i].owner != freelist && |chain[i].mem| == freelist.capacity
      {
        assert Node(i) && Mirror(i) && Q.Placed(freelist.capacity, cells[i], i, endIx);
      }
      freelist.DeleteChain(head, chain);
    }

    method SpaceSize() returns (n: nat)
      requires Valid()
      ensures n == Q.TotalSpace(cells)
    {
      forall i | 0 <= i < |cells|
        ensures |cells[i].mem| == freelist.capacity && (i > 0 ==> cells[i].off == 0)
      {
        assert Q.Placed(freelist.capacity, cells[i], i, endIx);
      }
      Q.SpaceAccounting(freelist.capacity, cells);
      if head == null {
        return 0;
      }
      assert Mirror(0);
      n := blockCnt * freelist.capacity - dataSize - head.offset;
    }

    ghost function LastBlock(): set<Block>
      reads `chain
    {
      if chain == [] then {} else {chain[|chain| - 1]}
    }

    // The block came from the front of the free list, or was allocated because that was empty.
    twostate predicate Popped(new b: Block)
      reads freelist`chain
    {
      if old(freelist.chain) == [] then fresh(b) && freelist.chain == []
      else b == old(freelist.chain)[0] && freelist.chain == old(freelist.chain)[1..]
    }

    // Take a block from the free list and link it behind the tail.
    method LinkNewBlock() returns (b: Block)
      requires Links()
      modifies `head, `end, `tail, `blockCnt, `chain, LastBlock()`next, freelist`head, freelist`size, freelist`chain
      modifies if freelist.head == null then {} else {freelist.head}
      ensures Links() && chain == old(chain) + [b]
      ensures end == if old(chain) == [] then b else old(end)
      ensures b.offset == 0 && b.len == 0 && |b.mem| == freelist.capacity
      ensures forall i | 0 <= i < old(|chain|) :: Kept(old(chain[i]))
      ensures Popped(b) && old(Repr()) <= Repr() && fresh(Repr() - old(Repr()))
    {
      NoneFree();
      assert freelist.head in old(freelist.chain) + [null];
      b := freelist.New(this, base + |chain|);
      assert b !in chain && Links();
      LinkBehind(b);
    }

    // Link a block that is nowhere else behind the tail.
    method LinkBehind(b: Block)
      requires Links() && b !in chain && b.next == null && b.owner == this && b.pos == base + |chain|
      modifies `head, `end, `tail, `blockCnt, `chain, LastBlock()`next
      ensures Links() && chain == old(chain) + [b]
      ensures end == if old(chain) == [] then b else old(end)
    {
      NoneFree();
      assert chain != [] ==> tail in chain && tail !in freelist.chain;
      if head == null {
        head := b;
        end := b;
      } else {
        tail.next := b;
      }
      tail := b;
      blockCnt := blockCnt + 1;
      chain := chain + [b];
      forall i | 0 <= i < |chain|
        ensures Node(i)
      {
        if i < |old(chain)| {
          assert chain[i] == old(chain)[i] && old(Node(i)) && old(Node(|chain| - 1));
        }
      }
    }

    method AppendNewBlock()
      requires Core()
      modifies `head, `end, `tail, `blockCnt, `chain, `cells, LastBlock()`next
      modifies freelist`head, freelist`size, freelist`chain
      modifies if freelist.head == null then {} else {freelist.head}
      ensures Core() && chain == old(chain) + [tail]
      ensures Q.SpaceStart(cells, endIx) == old(Q.SpaceStart(cells, endIx))
      ensures cells[..old(|cells|)] == old(cells) && Contents() == old(Contents())
      ensures Popped(tail) && old(Repr()) <= Repr() && fresh(Repr() - old(Repr()))
    {
      hide Repr, Links, Q.Contents, Q.Size, Popped;
      var b := LinkNewBlock();
      forall i | 0 <= i < |cells|
        ensures Holding(chain[i], cells[i])
      {
        assert old(Mirror(i));
      }
      RecordNewBlock(b);
    }

    // The bookkeeping for a block just linked behind the others.
    ghost method RecordNewBlock(b: Block)
      requires |chain| == |cells| + 1 && chain[|cells|] == b
      requires Q.WellFormed(freelist.capacity, cells, endIx)
      requires forall i | 0 <= i < |cells| :: Holding(chain[i], cells[i])
      requires b.offset == 0 && b.len == 0 && |b.mem| == freelist.capacity
      modifies this`cells
      ensures Queue() && cells == old(cells) + [Q.Cell(0, 0, b.mem)]
      ensures Q.SpaceStart(cells, endIx) == old(Q.SpaceStart(cells, endIx))
      ensures Contents() == old(Contents()) && Q.Size(cells) == old(Q.Size(cells))
    {
      ghost var c := Q.Cell(0, 0, b.mem);
      Q.AppendKeepsShape(freelist.capacity, cells, endIx, c);
      cells := cells + [c];
    }

    // Where writing continues.
    method StepperStart() returns (block: Block?)
      requires Core()
      ensures block == At(chain, Q.SpaceStart(cells, endIx))
    {
      block := end;
      if block != null {
        assert Mirror(endIx) && Node(endIx);
        if block.SpaceLen() == 0 {
          block := block.next;
        }
      }
    }

    // The block at index i, added to the chain if there is none, and its successor.
    method StepperNext(block: Block?, ghost i: nat) returns (ret: Block, next: Block?)
      requires Core() && i <= |chain| && block == At(chain, i)
      modifies `head, `end, `tail, `blockCnt, `chain, `cells, LastBlock()`next
      modifies freelist`head, freelist`size, freelist`chain
      modifies if freelist.head == null then {} else {freelist.head}
      ensures Core() && i < |chain| && ret == chain[i] && next == At(chain, i + 1)
      ensures i < old(|chain|) ==> chain == old(chain) && cells == old(cells) && freelist.chain == old(freelist.chain)
      ensures i == old(|chain|) ==> chain == old(chain) + [ret] && Popped(ret)
      ensures |cells| >= old(|cells|) && cells[..old(|cells|)] == old(cells) && Contents() == old(Contents())
      ensures Q.SpaceStart(cells, endIx) == old(Q.SpaceStart(cells, endIx))
      ensures old(Repr()) <= Repr() && fresh(Repr() - old(Repr()))
    {
      if block == null {
        AppendNewBlock();
        ret := tail;
      } else {
        ret := block;
      }
      assert Node(i);
      next := ret.next;
    }

    // Of n blocks that were there, none more have been added than are needed for what has been granted.
    ghost predicate NoSpare(n: nat, granted: nat)
      reads `chain, `cells, `endIx
    {
      |chain| == n || |chain| == Q.SpaceStart(cells, endIx) + granted
    }

    // One block's worth of free memory, behind what has been granted already.
    method GrantNext(block: Block?, limit: nat, ghost given: seq<Span>) returns (span: Span, next: Block?)
      requires Core() && Granted(given, false) && limit > 0
      requires block == At(chain, Q.SpaceStart(cells, endIx) + |given|)
      modifies Repr()
      ensures Core() && unchanged(`dataSize, `reserved, `peeked, `views) && Contents() == old(Contents())
      ensures 0 < span.len <= limit && span.len <= freelist.capacity && Granted(given + [span], true)
      ensures span.len < limit || limit >= freelist.capacity ==> Granted(given + [span], false)
      ensures next == At(chain, Q.SpaceStart(cells, endIx) + |given| + 1) && |chain| >= old(|chain|) && chain != []
      ensures forall n :: old(NoSpare(n, |given|)) ==> NoSpare(n, |given| + 1)
      ensures old(Repr()) <= Repr() && fresh(Repr() - old(Repr()))
    {
      hide Repr, Links, Viewed, Q.Contents, Q.Size, Q.WellFormed;
      ghost var i := Q.SpaceStart(cells, endIx) + |given|;
      FrameOfStep();
      var b;
      b, next := StepperNext(block, i);
      assert Mirror(i);
      Q.SpaceBehind(freelist.capacity, cells, endIx, i);
      var spaceLen := if limit >= b.SpaceLen() then b.SpaceLen() else limit;
      span := Span(b, b.offset + b.len, spaceLen);
    }

    lemma {:induction false} NothingGranted()
      requires Core()
      ensures this in Repr() && Granted([], true) && Granted([], false) && Total([]) == 0 && NoSpare(|chain|, 0)
      ensures freelist.capacity > 0
    {
    }

    lemma {:induction false} HeadOfChain()
      requires Core()
      ensures head == null <==> chain == []
    {
    }

    lemma {:induction false} FreelistIsValid()
      requires Valid()
      ensures freelist.Valid() && freelist.capacity > 0
    {
    }

    lemma {:induction false} FrameOfStep()
      requires Links()
      ensures this in Repr() && freelist in Repr() && LastBlock() <= Repr()
      ensures freelist.head != null ==> freelist.head in Repr()
    {
    }

    // Free memory of exactly `size` bytes, to be written to and then committed.
    method Reserve(size: nat) returns (ret: seq<Span>)
      requires Valid() && !reserved
      modifies Repr()
      ensures Valid() && reserved && spans == ret && Total(ret) == size
      ensures unchanged(`dataSize, `peeked, `views) && Contents() == old(Contents()) && |chain| >= old(|chain|)
      ensures head == null <==> size == 0 && old(head) == null
      ensures NoSpare(old(|chain|), |ret|)
      ensures old(Repr()) <= Repr() && fresh(Repr() - old(Repr()))
    {
      hide Links, Queue, Viewed, Granted, Total, At, NoSpare, Q.SpaceStart, Q.Contents, Q.Size;
      NothingGranted();
      var block := StepperStart();
      ret := [];
      var remaining: nat := size;
      while remaining > 0
        invariant Core() && unchanged(`dataSize, `reserved, `peeked, `views) && Contents() == old(Contents())
        invariant Granted(ret, remaining == 0)
        invariant block == At(chain, Q.SpaceStart(cells, endIx) + |ret|) && |chain| >= old(|chain|)
        invariant Total(ret) + remaining == size
        invariant (ret == [] ==> remaining == size && head == old(head)) && (ret != [] ==> size > 0 && chain != [])
        invariant NoSpare(old(|chain|), |ret|)
        invariant old(Repr()) <= Repr() && fresh(Repr() - old(Repr()))
      {
        var span;
        span, block := GrantNext(block, remaining, ret);
        TotalAppend(ret, span);
        ret := ret + [span];
        remaining := remaining - span.len;
      }
      HeadOfChain();
      reserved, spans := true, ret;
    }

    /** Free memory of at least `size` bytes: whole blocks, so at most one byte short of a block more
        than asked for. */
    method ReserveAtLeast(size: nat) returns (ret: seq<Span>, got: nat)
      requires Valid() && !reserved
      modifies Repr()
      ensures Valid() && reserved && spans == ret && got == Total(ret) >= size
      ensures size > 0 ==> got < size + freelist.capacity
      ensures unchanged(`dataSize, `peeked, `views) && Contents() == old(Contents()) && |chain| >= old(|chain|)
      ensures NoSpare(old(|chain|), |ret|)
      ensures old(Repr()) <= Repr() && fresh(Repr() - old(Repr()))
    {
      hide Links, Queue, Viewed, Granted, Total, At, NoSpare, Q.SpaceStart, Q.Contents, Q.Size;
      NothingGranted();
      var block := StepperStart();
      ret, got := [], 0;
      while got < size
        invariant Core() && unchanged(`dataSize, `reserved, `peeked, `views) && Contents() == old(Contents())
        invariant Granted(ret, false) && Granted(ret, true)
        invariant block == At(chain, Q.SpaceStart(cells, endIx) + |ret|) && |chain| >= old(|chain|)
        invariant got == Total(ret) && (size > 0 ==> got < size + freelist.capacity)
        invariant NoSpare(old(|chain|), |ret|)
        invariant old(Repr()) <= Repr() && fresh(Repr() - old(Repr()))
      {
        var span;
        span, block := GrantNext(block, freelist.capacity, ret);
        TotalAppend(ret, span);
        ret := ret + [span];
        got := got + span.len;
      }
      reserved, spans := true, ret;
    }

    lemma {:induction false} BehindSpans()
      requires Valid() && reserved
      ensures |spans| <= |Behind()|
    {
      Q.SpaceStartInside(freelist.capacity, cells, endIx);
    }

    lemma {:induction false} SpanOfReservation(k: nat)
      requires Valid() && reserved && k < |spans|
      ensures spans[k].blk in chain && spans[k].len > 0
      ensures Total(spans[k..]) == spans[k].len + Total(spans[k + 1..])
    {
      assert spans[k].blk == chain[Q.SpaceStart(cells, endIx) + k];
      assert spans[k..][1..] == spans[k + 1..];
    }

    lemma {:induction false} GrantLength(spans: seq<Span>)
      requires Granted(spans, true)
      ensures |Gather(Behind(), spans)| == Total(spans)
    {
      var s := Q.SpaceStart(cells, endIx);
      forall k | 0 <= k < |spans|
        ensures spans[k].start + spans[k].len <= |Behind()[k].mem|
      {
        assert GrantOf(cells[s + k], spans[k], k + 1 < |spans|);
      }
      GatherLength(Behind(), spans);
    }

    /** The spans of a reservation denote block memory, each of them free memory of its own block, and
        `InFlight` is what that memory holds. */
    lemma {:induction false} InFlightIsMemory(k: nat)
      requires Valid() && reserved && k < |spans|
      ensures spans[k].blk in chain
      ensures spans[k].start >= spans[k].blk.offset + spans[k].blk.len
      ensures PieceOf(cells[Q.SpaceStart(cells, endIx) + k], spans[k]) == Piece(spans[k])
      ensures |InFlight()| == Total(spans)
    {
      GrantAt(chain, cells, endIx, spans, k);
      GrantLength(spans);
      hide GrantIn, Gather, Q.SpaceStart, Q.WellFormed;
      assert Mirror(Q.SpaceStart(cells, endIx) + k);
    }

    // The bookkeeping for t bytes just committed into the block at the writing position.
    ghost method RecordCommit(t: nat)
      requires |chain| == |cells| && Q.WellFormed(freelist.capacity, cells, endIx)
      requires Q.SpaceStart(cells, endIx) < |cells| && 0 < t <= cells[Q.SpaceStart(cells, endIx)].Space()
      requires forall i | 0 <= i < |cells| ::
                 Holding(chain[i], Q.CommitStep(cells, Q.SpaceStart(cells, endIx), t)[i])
      modifies `cells, `endIx
      ensures Queue() && endIx == old(Q.SpaceStart(cells, endIx))
      ensures cells == old(Q.CommitStep(cells, Q.SpaceStart(cells, endIx), t))
      ensures Contents() == old(Contents() + cells[Q.SpaceStart(cells, endIx)].Free()[..t])
      ensures Q.Size(cells) == old(Q.Size(cells)) + t
      ensures old(Viewed(views)) ==> Viewed(views)
    {
      hide GrantIn, ViewIn;
      ghost var j := Q.SpaceStart(cells, endIx);
      if Viewed(views) {
        CommitKeepsView(freelist.capacity, chain, cells, endIx, views, t);
      }
      Q.CommitStepKeepsShape(freelist.capacity, cells, endIx, t);
      Q.CommitStepAppends(freelist.capacity, cells, endIx, t);
      Q.ContentsLength(cells);
      cells := Q.CommitStep(cells, j, t);
      Q.ContentsLength(cells);
      endIx := j;
    }

    // What a reservation says about the block at the writing position.
    lemma {:induction false} FirstGrant(rest: seq<Span>)
      requires Links() && Queue() && Granted(rest, true) && rest != []
      ensures var j := Q.SpaceStart(cells, endIx);
              && j < |chain| == |cells| && rest[0].blk == chain[j]
              && chain[j].Fits() && chain[j].SpaceLen() == cells[j].Space() && chain[j].next == At(chain, j + 1)
              && 0 < rest[0].len <= cells[j].Space() && (|rest| > 1 ==> rest[0].len == cells[j].Space())
              && |PieceOf(cells[j], rest[0])| == rest[0].len
              && cells[j].Free()[..rest[0].len] == PieceOf(cells[j], rest[0])
    {
      var j := Q.SpaceStart(cells, endIx);
      FirstOfGrant(chain, cells, endIx, rest);
      FreePiece(cells[j], rest[0], |rest| > 1);
      assert Mirror(j) && Node(j);
      hide GrantIn, Q.WellFormed, PieceOf;
    }

    // Commit into block j; only that block changes.
    method CommitInto(block: Block, size: nat, ghost j: nat) returns (left: nat)
      requires Links() && Queue() && j < |chain| && block == chain[j] && block.Fits()
      modifies block`len
      ensures Links() && left == size - Min(size, cells[j].Space())
      ensures forall i | 0 <= i < |cells| :: Holding(chain[i], Q.CommitStep(cells, j, size - left)[i])
    {
      hide Q.WellFormed;
      assert Mirror(j);
      left := block.Commit(size);
      forall i | 0 <= i < |cells|
        ensures Holding(chain[i], Q.CommitStep(cells, j, size - left)[i])
      {
        assert old(Mirror(i)) && Node(i) && Node(j);
      }
    }

    // The block at the writing position is the one the next span of the reservation lies in.
    lemma {:induction false} NextGrant(rest: seq<Span>, n: nat)
      requires Links() && Queue() && Granted(rest, true) && 0 < n <= Total(rest)
      ensures rest != [] && rest[0].len > 0
      ensures rest[0].blk == At(chain, Q.SpaceStart(cells, endIx)) && rest[0].blk in chain
      ensures |rest| > 1 || n <= rest[0].len
      ensures Total(rest) == rest[0].len + Total(rest[1..])
    {
      FirstGrant(rest);
    }

    // The same, and what it means for the reservation `rest`, of which n bytes were to be committed.
    ghost method RecordSpan(n: nat, rest: seq<Span>)
      requires Links() && |chain| == |cells| && Q.WellFormed(freelist.capacity, cells, endIx)
      requires Granted(rest, true) && 0 < n <= Total(rest) && rest != []
      requires Q.SpaceStart(cells, endIx) < |cells|
      requires |PieceOf(cells[Q.SpaceStart(cells, endIx)], rest[0])| == rest[0].len
      requires 0 < rest[0].len <= cells[Q.SpaceStart(cells, endIx)].Space()
      requires cells[Q.SpaceStart(cells, endIx)].Free()[..rest[0].len] ==
               PieceOf(cells[Q.SpaceStart(cells, endIx)], rest[0])
      requires |rest| > 1 || n <= rest[0].len
      requires forall i | 0 <= i < |cells| ::
                 Holding(chain[i], Q.CommitStep(cells, Q.SpaceStart(cells, endIx), Min(n, rest[0].len))[i])
      modifies `cells, `endIx
      ensures Links() && Queue() && endIx == old(Q.SpaceStart(cells, endIx))
      ensures var left := n - Min(n, rest[0].len);
              && Q.Size(cells) == old(Q.Size(cells)) + n - left
              && (left > 0 ==>
                    Granted(rest[1..], true) && Q.SpaceStart(cells, endIx) == old(Q.SpaceStart(cells, endIx)) + 1)
              && n <= |old(Gather(Behind(), rest))| && left <= |Gather(Behind(), rest[1..])|
              && Contents() + Gather(Behind(), rest[1..])[..left] == old(Contents()) + old(Gather(Behind(), rest))[..n]
      ensures old(Viewed(views)) ==> Viewed(views)
    {
      hide Links, GrantIn, ViewIn, PieceOf, Gather, Q.WellFormed, Q.Contents;
      ghost var j, t := Q.SpaceStart(cells, endIx), Min(n, rest[0].len);
      if n > t {
        GrantOfFirst(rest);
        CommitKeepsGrant(freelist.capacity, chain, cells, endIx, rest);
      }
      GrantLength(rest);
      GatherStep(Contents(), cells, j, rest, n, t);
      RecordCommit(t);
    }

    lemma {:induction false} GrantOfFirst(rest: seq<Span>)
      requires Granted(rest, true) && |rest| > 1
      ensures rest[0].len == cells[Q.SpaceStart(cells, endIx)].Space()
    {
      FirstOfGrant(chain, cells, endIx, rest);
      hide GrantIn;
    }

    // Commit into the block at the writing position, which becomes the end block.
    method CommitBlock(block: Block, size: nat, ghost rest: seq<Span>) returns (left: nat, next: Block?)
      requires Links() && Queue() && Granted(rest, true) && 0 < size <= Total(rest)
      requires block == At(chain, Q.SpaceStart(cells, endIx))
      modifies `cells, `endIx, `end, block`len
      ensures Links() && Queue() && end == At(chain, endIx) && left < size && rest != []
      ensures left > 0 ==> Granted(rest[1..], true) && left <= Total(rest[1..])
      ensures left > 0 ==> next == At(chain, Q.SpaceStart(cells, endIx))
      ensures old(Viewed(views)) ==> Viewed(views)
      ensures Q.Size(cells) == old(Q.Size(cells)) + size - left
      ensures size <= |old(Gather(Behind(), rest))| && left <= |Gather(Behind(), rest[1..])|
      ensures Contents() + Gather(Behind(), rest[1..])[..left] == old(Contents()) + old(Gather(Behind(), rest))[..size]
    {
      hide Links, Q.WellFormed, Q.Contents, Q.Size, GrantIn, ViewIn, PieceOf, Gather, Behind;
      NextGrant(rest, size);
      FirstGrant(rest);
      ghost var j := Q.SpaceStart(cells, endIx);
      end := block;
      next := block.next;
      left := CommitInto(block, size, j);
      RecordSpan(size, rest);
    }

    /** Mark the first `size` bytes of the reserved memory as queued data.  The stepper never has to
        allocate here: it walks exactly the blocks the reservation handed out, whatever was drained
        in the meantime. */
    method Commit(size: nat)
      requires Valid() && reserved && head != null && size <= Total(spans)
      modifies `cells, `endIx, `end, `dataSize, `reserved, chain`len
      ensures Valid() && !reserved && dataSize == old(dataSize) + size
      ensures size <= |old(InFlight())| && Contents() == old(Contents()) + old(InFlight())[..size]
    {
      hide Links, Queue, ViewIn, GrantIn, At, Q.SpaceStart, Total, Gather, Behind, Q.Contents, Q.Size;
      GrantLength(spans);
      var block := StepperStart();
      var remaining: nat := size;
      ghost var rest, goal := spans, Contents() + InFlight()[..size];
      while remaining > 0
        invariant Links() && Queue() && end == At(chain, endIx) && (peeked ==> Viewed(views)) && unchanged(`dataSize)
        invariant remaining > 0 ==>
                    Granted(rest, true) && remaining <= Total(rest) && block == At(chain, Q.SpaceStart(cells, endIx))
        invariant remaining <= |Gather(Behind(), rest)|
        invariant Contents() + Gather(Behind(), rest)[..remaining] == goal
        invariant Q.Size(cells) == old(dataSize) + size - remaining
      {
        NextGrant(rest, remaining);
        remaining, block := CommitBlock(block, remaining, rest);
        rest := rest[1..];
      }
      dataSize := dataSize + size;
      reserved := false;
    }

    twostate predicate GivenBack()
      reads `chain, freelist`chain
    {
      MovedTo(old(chain), old(freelist.chain), chain, freelist.chain)
    }

    // A view of all queued bytes, front first.
    method Peek() returns (ret: seq<Span>)
      requires Valid() && !peeked
      modifies `peeked, `views
      ensures Valid() && peeked && views == ret && OnView() == Contents()
    {
      hide GrantIn, Gather, Q.Contents, Q.Size, Q.WellFormed, WholeViews, ViewIn;
      ret := [];
      var b := head;
      NoViews(chain, cells);
      while b != null && b.len > 0
        invariant |ret| <= |chain| && b == At(chain, |ret|) && WholeViews(chain, cells, ret)
        decreases |chain| - |ret|
      {
        ghost var i := |ret|;
        assert Mirror(i) && Node(i);
        OneMoreView(chain, cells, ret, Span(b, b.offset, b.len));
        ret := ret + [Span(b, b.offset, b.len)];
        b := b.next;
      }
      assert b != null ==> Mirror(|ret|);
      Q.PrefixIsAll(freelist.capacity, cells, endIx, |ret|);
      ViewsAreWhole(chain, cells, ret);
      peeked, views := true, ret;
    }

    // The bookkeeping for t bytes just drained from the head block, which keeps data or space.
    ghost method RecordDrain(t: nat)
      requires |chain| == |cells| && Q.WellFormed(freelist.capacity, cells, endIx) && cells != []
      requires t <= cells[0].len && (t < cells[0].len || cells[0].Space() > 0)
      requires forall i | 0 <= i < |cells| :: Holding(chain[i], Q.DrainHead(cells, t)[i])
      modifies `cells
      ensures Queue() && cells == old(Q.DrainHead(cells, t))
      ensures t <= |old(Contents())| && Contents() == old(Contents())[t..]
      ensures Q.Size(cells) == old(Q.Size(cells)) - t
      ensures old(Granted(spans, true)) ==> Granted(spans, true)
      ensures InFlight() == old(InFlight())
    {
      hide GrantIn, ViewIn, Gather, Q.Contents, Q.Size;
      Q.DrainHeadKeepsShape(freelist.capacity, cells, endIx, t);
      Q.DrainHeadRemoves(cells, t);
      Q.SpaceStartInside(freelist.capacity, cells, endIx);
      if Granted(spans, true) {
        DrainKeepsGrant(chain, cells, endIx, spans, t);
      }
      DrainKeepsFree(cells, Q.SpaceStart(cells, endIx), spans, t);
      Q.ContentsLength(cells);
      cells := Q.DrainHead(cells, t);
      Q.ContentsLength(cells);
    }

    // The bookkeeping for the head block just drained completely and unlinked from `blocks`.
    ghost method RecordPrune(blocks: seq<Block>)
      requires |blocks| == |cells| && Q.WellFormed(freelist.capacity, cells, endIx) && cells != []
      requires cells[0].Space() == 0 && chain == blocks[1..]
      requires forall i | 0 <= i < |chain| :: Holding(chain[i], cells[i + 1])
      modifies `cells, `endIx
      ensures Queue() && cells == old(cells)[1..] && endIx == old(Q.EndAfterPrune(endIx))
      ensures old(cells[0].len) <= |old(Contents())| && Contents() == old(Contents())[old(cells[0].len)..]
      ensures Q.Size(cells) == old(Q.Size(cells)) - old(cells[0].len)
      ensures old(GrantIn(blocks, cells, endIx, spans, true)) ==> Granted(spans, true)
      ensures InFlight() == old(InFlight())
    {
      hide GrantIn, ViewIn, Gather, Q.Contents, Q.Size;
      Q.PruneStep(freelist.capacity, cells, endIx);
      Q.PruneRemoves(cells);
      Q.SpaceStartInside(freelist.capacity, cells, endIx);
      if GrantIn(blocks, cells, endIx, spans, true) {
        PruneKeepsGrant(freelist.capacity, blocks, cells, endIx, spans);
      }
      Q.ContentsLength(cells);
      ghost var behind := Behind();
      cells, endIx := cells[1..], Q.EndAfterPrune(endIx);
      Q.ContentsLength(cells);
      assert Behind() == behind;
    }

    ghost function FirstBlock(): set<Block>
      reads `chain
    {
      if chain == [] then {} else {chain[0]}
    }

    // Unlink the head block and give it back to the free list.
    method UnlinkHead()
      requires Links() && chain != [] && |chain[0].mem| == freelist.capacity
      modifies `head, `blockCnt, `chain, `base, freelist`head, freelist`size, freelist`chain
      modifies FirstBlock()`next, FirstBlock()`owner, FirstBlock()`pos
      ensures Links() && chain == old(chain)[1..] && freelist.chain == [old(chain)[0]] + old(freelist.chain)
    {
      NoneFree();
      assert Node(0);
      var next := head.next;
      freelist.Delete(head);
      blockCnt := blockCnt - 1;
      head := next;
      chain, base := chain[1..], base + 1;
      forall i | 0 <= i < |chain|
        ensures Node(i)
      {
        assert old(Node(i + 1)) && old(Node(0)) && chain[i] == old(chain)[i + 1];
      }
    }

    // Drain from the head block; only that block changes.
    method DrainFrom(block: Block, size: nat) returns (left: nat)
      requires Links() && Queue() && chain != [] && block == chain[0] && block.Fits()
      modifies block`offset, block`len
      ensures Links() && block.Fits() && left == size - Min(cells[0].len, size)
      ensures forall i | 0 <= i < |cells| :: Holding(chain[i], Q.DrainHead(cells, size - left)[i])
      ensures forall i | 1 <= i < |cells| :: Holding(chain[i], cells[i])
    {
      hide Q.WellFormed;
      assert Mirror(0);
      left := block.Drain(size);
      forall i | 0 <= i < |cells|
        ensures Holding(chain[i], Q.DrainHead(cells, size - left)[i]) && (i > 0 ==> Holding(chain[i], cells[i]))
      {
        assert old(Mirror(i)) && Node(i) && Node(0);
      }
    }

    // What is known of the head block of a queue that is not empty.
    lemma {:induction false} FrontOfQueue(size: nat)
      requires Links() && Queue() && 0 < size <= Q.Size(cells)
      ensures cells != [] && head == chain[0] && cells[0].len > 0 && cells[0].len <= Q.Size(cells)
      ensures Holding(chain[0], cells[0]) && |cells[0].mem| == freelist.capacity
      ensures cells[0].Space() > 0 ==> size <= cells[0].len
      ensures endIx == 0 ==> Q.Size(cells) == cells[0].len
    {
      Q.HeadHasData(freelist.capacity, cells, endIx);
      assert Mirror(0) && Q.Placed(freelist.capacity, cells[0], 0, endIx);
      if cells[0].Space() > 0 {
        Q.HeadWithSpaceIsEnd(freelist.capacity, cells, endIx);
      }
      if endIx == 0 {
        Q.NothingBehind(freelist.capacity, cells, endIx, 0);
        Q.ContentsLength(cells[1..]);
      }
    }

    // Prune the head block, which has been drained completely.
    method PruneHead()
      requires Links() && |chain| == |cells| && Q.WellFormed(freelist.capacity, cells, endIx) && cells != []
      requires cells[0].Space() == 0 && |chain[0].mem| == freelist.capacity
      requires forall i | 1 <= i < |cells| :: Holding(chain[i], cells[i])
      modifies `head, `blockCnt, `chain, `cells, `endIx, `base
      modifies FirstBlock()`next, FirstBlock()`owner, FirstBlock()`pos, freelist`head, freelist`size, freelist`chain
      ensures Links() && Queue() && (old(Granted(spans, true)) ==> Granted(spans, true))
      ensures Q.Size(cells) == old(Q.Size(cells)) - old(cells[0].len)
      ensures old(cells[0].len) <= |old(Contents())| && Contents() == old(Contents())[old(cells[0].len)..]
      ensures InFlight() == old(InFlight())
      ensures old(endIx) > 0 ==> At(chain, endIx) == old(At(chain, endIx))
      ensures chain == old(chain)[1..] && freelist.chain == [old(chain)[0]] + old(freelist.chain)
    {
      hide GrantIn, ViewIn, Gather, Q.Contents, Q.Size, InFlight, Q.WellFormed, Links;
      ghost var blocks := chain;
      UnlinkHead();
      assert forall i | 0 <= i < |chain| :: chain[i] == blocks[i + 1];
      RecordPrune(blocks);
    }

    // Drain from the head block; if that exhausts it, prune it.
    method DrainBlock(size: nat) returns (left: nat)
      requires Links() && Queue() && 0 < size <= Q.Size(cells) && (reserved ==> Granted(spans, true))
      modifies `head, `blockCnt, `chain, `cells, `endIx, `base
      modifies FirstBlock(), freelist`head, freelist`size, freelist`chain
      ensures Links() && Queue() && (reserved ==> Granted(spans, true))
      ensures left < size && left <= Q.Size(cells) == old(Q.Size(cells)) - (size - left)
      ensures size - left <= |old(Contents())| && Contents() == old(Contents())[size - left..]
      ensures InFlight() == old(InFlight())
      ensures Q.Size(cells) > 0 ==> At(chain, endIx) == old(At(chain, endIx))
      ensures MovedTo(old(chain), old(freelist.chain), chain, freelist.chain)
    {
      hide GrantIn, ViewIn, Gather, Q.Contents, Q.Size, InFlight, Q.WellFormed, Links, MovedTo;
      FrontOfQueue(size);
      left := DrainFrom(head, size);
      if head.len == 0 && head.SpaceLen() == 0 {
        MovedOne(chain, freelist.chain);
        PruneHead();
      } else {
        NothingMoved(chain, freelist.chain);
        RecordDrain(size - left);
      }
    }

    // Start the empty head block over.
    method ResetHead()
      requires Core() && !reserved && !peeked && dataSize == 0 && head != null
      modifies `cells, FirstBlock()`offset
      ensures Core() && Contents() == old(Contents()) && Q.Unused(cells)
    {
      hide Gather, Q.Contents, Q.Size, Q.WellFormed, Q.Unused;
      Q.ResetKeepsShape(freelist.capacity, cells, endIx);
      head.offset := 0;
      cells := cells[0 := cells[0].(off := 0)];
      forall i | 0 <= i < |chain|
        ensures Mirror(i)
      {
        assert old(Mirror(i)) && old(Node(i)) && old(Node(0));
      }
    }

    // The drain loop.
    method DrainBlocks(size: nat)
      requires Links() && Queue() && size <= Q.Size(cells)
      requires (reserved ==> Granted(spans, true)) && end == At(chain, endIx)
      modifies `head, `blockCnt, `chain, `cells, `endIx, `base, chain, freelist`head, freelist`size, freelist`chain
      ensures Links() && Queue() && (reserved ==> Granted(spans, true))
      ensures Q.Size(cells) == old(Q.Size(cells)) - size
      ensures size <= |old(Contents())| && Contents() == old(Contents())[size..]
      ensures InFlight() == old(InFlight())
      ensures Q.Size(cells) > 0 ==> At(chain, endIx) == end
      ensures GivenBack()
    {
      hide GrantIn, ViewIn, Gather, Q.Contents, Q.Size, InFlight, Links, Queue, MovedTo, At, Granted;
      var remaining: nat := size;
      Q.ContentsLength(cells);
      NothingMoved(chain, freelist.chain);
      while remaining > 0
        invariant Links() && Queue() && (reserved ==> Granted(spans, true))
        invariant remaining <= size && remaining <= Q.Size(cells) == old(Q.Size(cells)) - (size - remaining)
        invariant size <= |old(Contents())| && Contents() == old(Contents())[size - remaining..]
        invariant InFlight() == old(InFlight())
        invariant Q.Size(cells) > 0 ==> At(chain, endIx) == end
        invariant GivenBack()
      {
        MovedBlocksAreOurs(old(chain), old(freelist.chain), chain, freelist.chain);
        ghost var chain1, free1 := chain, freelist.chain;
        remaining := DrainBlock(remaining);
        MovedFurther(old(chain), old(freelist.chain), chain1, free1, chain, freelist.chain);
      }
    }

    /** Remove the first `size` queued bytes.  What an outstanding reservation has handed out stays
        the same memory, holding the same bytes. */
    method Drain(size: nat)
      requires Valid() && peeked && size <= dataSize
      modifies `head, `end, `blockCnt, `chain, `cells, `endIx, `base, `dataSize, `peeked, chain
      modifies freelist`head, freelist`size, freelist`chain
      ensures Valid() && !peeked && dataSize == old(dataSize) - size
      ensures size <= |old(Contents())| && Contents() == old(Contents())[size..]
      ensures reserved ==> InFlight() == old(InFlight())
      ensures !reserved && dataSize == 0 ==> Q.Unused(cells)
      ensures GivenBack()
    {
      hide GrantIn, ViewIn, Gather, Q.Contents, Q.Size, Q.Unused, InFlight, Links, Queue, MovedTo, Granted, At;
      DrainBlocks(size);
      dataSize := dataSize - size;
      peeked := false;
      MovedBlocksAreOurs(old(chain), old(freelist.chain), chain, freelist.chain);
      SettleFront();
    }

    // What Drain does last: it may have pruned the end block, and may have emptied the head block.
    method SettleFront()
      requires Links() && Queue() && !peeked && (reserved ==> Granted(spans, true)) && dataSize == Q.Size(cells)
      requires Q.Size(cells) > 0 ==> At(chain, endIx) == end
      modifies `end, `cells, FirstBlock()`offset
      ensures Valid() && Contents() == old(Contents()) && (reserved ==> InFlight() == old(InFlight()))
      ensures !reserved && dataSize == 0 ==> Q.Unused(cells)
    {
      hide GrantIn, ViewIn, Gather, Q.Contents, Q.Size, Q.Unused, InFlight, Links, Queue, MovedTo, Granted, At;
      if dataSize == 0 {
        end := head;
        FrontWhenEmpty();
      }
      if dataSize == 0 && head != null && !reserved {
        ResetHead();
      } else if head == null {
        NothingUsed();
      }
    }

    lemma {:induction false} NothingUsed()
      requires Links() && Queue() && head == null
      ensures Q.Unused(cells)
    {
    }

    lemma {:induction false} FrontWhenEmpty()
      requires Links() && Queue() && Q.Size(cells) == 0
      ensures head == At(chain, endIx)
    {
      Q.HeadHasData(freelist.capacity, cells, endIx);
    }

    // The bookkeeping for memory written into block i, behind its data.
    ghost method RecordStore(i: nat, mem: seq<byte>)
      requires |chain| == |cells| && Q.WellFormed(freelist.capacity, cells, endIx) && i < |cells|
      requires |mem| == |cells[i].mem| && mem[..cells[i].DataEnd()] == cells[i].mem[..cells[i].DataEnd()]
      requires forall k | 0 <= k < |cells| :: Holding(chain[k], cells[i := cells[i].(mem := mem)][k])
      modifies `cells
      ensures Queue() && cells == old(cells[i := cells[i].(mem := mem)])
      ensures Contents() == old(Contents()) && Q.Size(cells) == old(Q.Size(cells))
      ensures Q.SpaceStart(cells, endIx) == old(Q.SpaceStart(cells, endIx))
      ensures old(Viewed(views)) ==> Viewed(views)
      ensures old(Granted(spans, true)) ==> Granted(spans, true)
    {
      hide Q.Contents, Q.Size, GrantIn, ViewIn;
      assert Q.Placed(freelist.capacity, cells[i], i, endIx);
      Q.StoreKeepsShape(freelist.capacity, cells, endIx, i, mem);
      Q.StoreKeepsContents(cells, i, mem);
      if Granted(spans, true) {
        StoreKeepsGrant(chain, cells, endIx, spans, i, mem);
      }
      if Viewed(views) {
        StoreKeepsView(chain, cells, views, i, mem);
      }
      hide Q.WellFormed;
      cells := cells[i := cells[i].(mem := mem)];
    }

    // Write into the memory of block i; only that block changes.
    method StoreInto(block: Block, start: nat, data: seq<byte>, ghost i: nat)
      requires Links() && Queue() && i < |chain| && block == chain[i] && start + |data| <= |cells[i].mem|
      requires block.mem == cells[i].mem
      modifies block`mem
      ensures Links() && block.mem == Overwrite(cells[i].mem, start, data)
      ensures forall j | 0 <= j < |cells| :: Holding(chain[j], cells[i := cells[i].(mem := block.mem)][j])
    {
      hide Q.WellFormed;
      NoneFree();
      assert Mirror(i) && block in chain;
      block.mem := Overwrite(block.mem, start, data);
      forall j | 0 <= j < |cells|
        ensures Holding(chain[j], cells[i := cells[i].(mem := block.mem)][j])
      {
        assert old(Mirror(j)) && old(Node(j)) && old(Node(i));
      }
    }

    // Write into the memory of span k of the reservation.
    method Store(span: Span, data: seq<byte>, ghost k: nat)
      requires Valid() && reserved && k < |spans| && span == spans[k] && |data| <= span.len
      modifies `cells, span.blk`mem
      ensures Valid() && Contents() == old(Contents())
      ensures |Behind()| == |old(Behind())| > k && Behind()[..k] == old(Behind())[..k]
      ensures |PieceOf(Behind()[k], span)| == span.len && PieceOf(Behind()[k], span)[..|data|] == data
    {
      hide Q.Contents, Q.Size, Q.WellFormed, Links, GrantIn, ViewIn, Q.SpaceStart, PieceOf, Overwrite;
      ghost var s := Q.SpaceStart(cells, endIx);
      GrantAt(chain, cells, endIx, spans, k);
      assert Mirror(s + k);
      StoredPiece(cells[s + k], span, k + 1 < |spans|, data);
      StoredBehind(cells, s, k, Overwrite(cells[s + k].mem, span.start, data));
      StoreInto(span.blk, span.start, data, s + k);
      RecordStore(s + k, span.blk.mem);
    }

    // Write data through the spans of the reservation, in order, as far as it goes.
    method Scatter(ret: seq<Span>, data: seq<byte>)
      requires Valid() && reserved && spans == ret && |data| <= Total(ret)
      modifies `cells, chain`mem
      ensures Valid() && Contents() == old(Contents()) && data <= InFlight()
    {
      hide Links, Queue, GrantIn, ViewIn, Q.Contents, Q.Size, PieceOf, Gather, Total, Behind, Core;
      var k, done: nat := 0, 0;
      BehindSpans();
      EmptyGather(Behind()[..0]);
      assert ret[..0] == [] && ret[0..] == ret;
      while k < |ret| && done < |data|
        invariant Valid() && Contents() == old(Contents()) && 0 <= k <= |ret| <= |Behind()|
        invariant done <= |data| && done + Total(ret[k..]) >= |data|
        invariant data[..done] <= Gather(Behind()[..k], ret[..k])
        invariant done < |data| ==> data[..done] == Gather(Behind()[..k], ret[..k])
      {
        SpanOfReservation(k);
        var n := if ret[k].len < |data| - done then ret[k].len else |data| - done;
        Store(ret[k], data[done..done + n], k);
        ScatterStep(Behind(), ret, k, data, done, n);
        done := done + n;
        k := k + 1;
      }
      if done < |data| {
        TotalOfNone(ret, k);
      }
      GatherSplit(Behind(), ret, k);
    }

    /** Queue a chunk of data.  As in the source, a chunk of no bytes is refused by an empty buffer
        without blocks. */
    method CopyIn(from: seq<byte>)
      requires Valid() && !reserved && (from != [] || head != null)
      modifies Repr()
      ensures Valid() && !reserved && Contents() == old(Contents()) + from
      ensures dataSize == old(dataSize) + |from| && unchanged(`peeked, `views)
      ensures old(Repr()) <= Repr() && fresh(Repr() - old(Repr()))
    {
      hide Links, Queue, GrantIn, ViewIn, Q.Contents, Q.Size, Gather, Total, Behind, Core, Q.TotalSpace;
      HeadOfChain();
      var buffers := Reserve(|from|);
      Scatter(buffers, from);
      ReservationHasSpace();
      HeadOfChain();
      Commit(|from|);
    }

    // View i is memory of block i, and is all inside it.
    lemma {:induction false} ViewInBlock(ret: seq<Span>, i: nat)
      requires Valid() && peeked && views == ret && i < |ret|
      ensures i < |cells| && ret[i].start + ret[i].len <= |ret[i].blk.mem| && ret[i].blk.mem == cells[i].mem
    {
      assert Mirror(i) && ViewOf(cells[i], ret[i], i + 1 < |ret|);
    }

    // The front of what the spans on view denote.
    method CopyViews(buffers: seq<Span>, size: nat) returns (out: seq<byte>)
      requires Valid() && peeked && views == buffers
      ensures out == Front(OnView(), size)
    {
      hide Links, Queue, GrantIn, ViewIn, Q.Contents, Q.Size, Gather, Total;
      out := [];
      var i := 0;
      ViewsInChain();
      EmptyGather(cells[..0]);
      assert buffers[..0] == [];
      while i < |buffers| && size > 0
        invariant 0 <= i <= |buffers| <= |cells| && out == Front(Gather(cells[..i], buffers[..i]), size)
      {
        ViewInBlock(buffers, i);
        CopyStep(cells, buffers, i, size);
        var buf := buffers[i];
        var remaining := size - |out|;
        var toCopy := if remaining > buf.len then buf.len else remaining;
        out := out + buf.blk.mem[buf.start..buf.start + toCopy];
        i := i + 1;
      }
      if size > 0 {
        GatherSplit(cells, buffers, i);
        assert buffers[..i] == buffers;
        EmptyGather(cells[i..]);
        assert buffers[i..] == [];
      }
    }

    // Take up to `size` bytes off the front of the queue.
    method CopyOut(size: nat) returns (out: seq<byte>)
      requires Valid() && !peeked
      modifies `head, `end, `blockCnt, `chain, `cells, `endIx, `base, `dataSize, `peeked, `views, chain
      modifies freelist`head, freelist`size, freelist`chain
      ensures Valid() && !peeked && out == Front(old(Contents()), size)
      ensures Contents() == old(Contents())[|out|..] && dataSize == old(dataSize) - |out|
      ensures reserved ==> InFlight() == old(InFlight())
      ensures MovedTo(old(chain), old(freelist.chain), chain, freelist.chain) && Repr() == old(Repr())
    {
      hide Links, Queue, GrantIn, ViewIn, Q.Contents, Q.Size, Gather, Core, Total, MovedTo, InFlight;
      var buffers := Peek();
      out := CopyViews(buffers, size);
      Q.ContentsLength(cells);
      SizeIsLength();
      Drain(|out|);
      MovedSameBlocks(old(chain), old(freelist.chain), chain, freelist.chain);
    }

    lemma {:induction false} ViewsInChain()
      requires Valid() && peeked
      ensures |views| <= |cells|
    {
    }

    lemma {:induction false} SizeIsLength()
      requires Valid()
      ensures dataSize == |Contents()|
    {
      Q.ContentsLength(cells);
    }

    /** What a Peek has handed out is the front of the queue at any later time: it stays so until the
        matching Drain, whatever is reserved, written and committed meanwhile. */
    lemma {:induction false} ViewStaysFront()
      requires Valid() && peeked
      ensures OnView() <= Contents() && |OnView()| == Total(views) <= dataSize
    {
      ViewIsPrefix(cells, views);
      Q.ContentsLength(cells);
    }

    /** The assertions at the start of Commit hold for every reservation of at least one byte. */
    lemma {:induction false} ReservationHasSpace()
      requires Valid() && reserved
      ensures Total(spans) <= Q.TotalSpace(cells)
      ensures Total(spans) > 0 ==> head != null
    {
      GrantLength(spans);
      Q.SpaceStartInside(freelist.capacity, cells, endIx);
      GrantWithinSpace(Behind(), spans);
      Q.SpaceOfTail(cells, Q.SpaceStart(cells, endIx));
    }
  }

  /** Buffers that share a free list never share a block: each block has one owner. */
  lemma {:induction false} BuffersAreApart(a: Buffer, b: Buffer)
    requires a.Valid() && b.Valid() && a != b
    ensures Apart(a.chain, b.chain)
    ensures forall x | x in b.chain :: x !in a.Repr()
    ensures a.freelist != b.freelist ==> b.freelist !in a.Repr() && forall x | x in b.freelist.chain :: x !in a.Repr()
  {
    forall i | 0 <= i < |a.chain|
      ensures a.chain[i].owner == a
    {
      assert a.Node(i);
    }
    forall i | 0 <= i < |b.chain|
      ensures b.chain[i].owner == b
    {
      assert b.Node(i);
    }
    forall i | 0 <= i < |a.freelist.chain|
      ensures a.freelist.chain[i].owner == a.freelist
    {
      assert a.freelist.Holds(i);
    }
    forall i | 0 <= i < |b.freelist.chain|
      ensures b.freelist.chain[i].owner == b.freelist
    {
      assert b.freelist.Holds(i);
    }
  }

  // A buffer none of whose blocks changed is as valid as before, given a valid free list.
  twostate lemma {:induction false} KeptValid(b: Buffer)
    requires old(b.Valid()) && unchanged(b) && b.freelist.Valid()
    requires forall x | x in b.chain :: unchanged(x)
    ensures b.Valid()
  {
    hide Q.WellFormed, GrantIn, ViewIn, Q.Size;
    forall i | 0 <= i < |b.chain|
      ensures b.Node(i) && b.Mirror(i)
    {
      assert b.chain[i] in b.chain && old(b.Node(i)) && old(b.Mirror(i));
    }
  }

  lemma {:induction false} TotalOfNone(spans: seq<Span>, k: nat)
    requires k == |spans|
    ensures Total(spans[k..]) == 0
  {
  }

  lemma {:induction false} EmptyGather(cells: seq<Q.Cell>)
    ensures Gather(cells, []) == [] == Q.Contents(cells[..0])
  {
  }
}
