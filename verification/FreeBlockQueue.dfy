/** The queue of free cache blocks: a doubly linked list threaded through the blocks themselves,
    between two sentinels that are never handed out. */
module FreeBlockQueue {

  datatype Popped = NoFreeBlocks | First(block: Block)

  class Block {
    const id: int
    var prev: Block?
    var next: Block?

    constructor (id: int)
      ensures this.id == id && prev == null && next == null
    {
      this.id := id;
      prev, next := null, null;
    }
  }

  ghost predicate DistinctBlocks(s: seq<Block>) {
    forall i, j :: 0 <= i < j < |s| ==> s[i] != s[j]
  }

  /** Consecutive members point at each other. */
  ghost predicate Linked(s: seq<Block>)
    reads s
  {
    && (forall i {:trigger s[i].next} :: 0 <= i < |s| - 1 ==> s[i].next == s[i + 1])
    && (forall i {:trigger s[i].prev} :: 0 < i < |s| ==> s[i].prev == s[i - 1])
  }

  /** Links among the members up to position `n`. */
  ghost predicate LinkedTo(s: seq<Block>, n: nat)
    reads s
  {
    && (forall i {:trigger s[i].next} :: 0 <= i < n && i < |s| - 1 ==> s[i].next == s[i + 1])
    && (forall i {:trigger s[i].prev} :: 0 < i <= n && i < |s| ==> s[i].prev == s[i - 1])
  }

  /** Links among the members from position `n` on. */
  ghost predicate LinkedFrom(s: seq<Block>, n: nat)
    reads s
  {
    && (forall i {:trigger s[i].next} :: n <= i < |s| - 1 ==> s[i].next == s[i + 1])
    && (forall i {:trigger s[i].prev} :: n < i < |s| ==> s[i].prev == s[i - 1])
  }

  ghost predicate Unlinked(s: seq<Block>, lo: nat, hi: nat)
    reads s
  {
    forall i {:trigger s[i]} :: lo <= i < hi && i < |s| ==> s[i].prev == null && s[i].next == null
  }

  lemma SuffixLinked(s: seq<Block>, n: nat, r: seq<Block>)
    requires 1 <= n < |s| && LinkedFrom(s, n) && r == s[..1] + s[n..]
    ensures LinkedFrom(r, 1) && LinkedTo(r, 0)
  {
    assert forall k {:trigger r[k]} :: 1 <= k < |r| ==> r[k] == s[n - 1 + k];
  }

  /** Inserting a run at position `at` keeps the links on either side of it. */
  lemma InsertKeepsLinks(s: seq<Block>, added: seq<Block>, at: nat, r: seq<Block>)
    requires 0 < at < |s| && Linked(s) && r == s[..at] + added + s[at..]
    ensures LinkedTo(r, at - 1) && LinkedFrom(r, at + |added|)
    ensures r[at - 1] == s[at - 1] && r[at + |added|] == s[at] && r[at..at + |added|] == added
    ensures |r| == |s| + |added| && r[0] == s[0] && r[|r| - 1] == s[|s| - 1]
  {
    assert forall k {:trigger r[k]} :: at + |added| <= k < |r| ==> r[k] == s[k - |added|];
  }

  ghost predicate Apart(a: seq<Block>, b: seq<Block>) {
    forall i, j :: 0 <= i < |a| && 0 <= j < |b| ==> a[i] != b[j]
  }

  /** `r` is `s` with its occurrence of `b` deleted, the order of the others kept. */
  ghost predicate Without(s: seq<Block>, b: Block, r: seq<Block>) {
    exists k :: 0 <= k < |s| && s[k] == b && r == s[..k] + s[k + 1..]
  }

  lemma FreeWithout(s: seq<Block>, k: nat)
    requires k < |s| - 2
    ensures
      var r := s[..k + 1] + s[k + 2..];
      |r| == |s| - 1 && r[0] == s[0] && r[|r| - 1] == s[|s| - 1] &&
      Without(s[1..|s| - 1], s[k + 1], r[1..|r| - 1])
  {
    var r, free := s[..k + 1] + s[k + 2..], s[1..|s| - 1];
    assert free[k] == s[k + 1] && r[1..|r| - 1] == free[..k] + free[k + 1..];
  }

  /** Cutting out positions lo..hi keeps the rest distinct. */
  lemma DistinctPart(s: seq<Block>, lo: nat, hi: nat)
    requires lo <= hi <= |s| && DistinctBlocks(s)
    ensures DistinctBlocks(s[..lo] + s[hi..])
  {
  }

  lemma DistinctInsert(s: seq<Block>, added: seq<Block>, at: nat)
    requires at <= |s| && DistinctBlocks(s) && DistinctBlocks(added) && Apart(added, s)
    ensures DistinctBlocks(s[..at] + added + s[at..])
  {
    var r := s[..at] + added + s[at..];
    forall i, j | 0 <= i < j < |r|
      ensures r[i] != r[j]
    {
      if i < at <= j < at + |added| {
        assert added[j - at] != s[i];
      } else if at <= i < at + |added| <= j {
        assert added[i - at] != s[j - |added|];
      } else if i < at && at + |added| <= j {
        assert s[i] != s[j - |added|];
      } else if at + |added| <= i {
        assert s[i - |added|] != s[j - |added|];
      }
    }
  }

  lemma EndsLinked(s: seq<Block>)
    requires |s| >= 2 && Linked(s)
    ensures s[0].next == s[1] && s[|s| - 1].prev == s[|s| - 2] && LinkedFrom(s, 1)
  {
  }

  lemma AllLinked(s: seq<Block>, n: nat)
    requires n < |s| && LinkedTo(s, n) && LinkedFrom(s, n)
    ensures Linked(s)
  {
  }

  /** No block of a run is the block before it, the block after it or the last one. */
  lemma RunApart(s: seq<Block>, lo: nat, hi: nat)
    requires DistinctBlocks(s) && 0 < lo <= hi < |s|
    ensures s[lo - 1] !in s[lo..hi] && s[hi] !in s[lo..hi] && s[|s| - 1] !in s[lo..hi]
    ensures s[lo - 1] != s[hi] && s[lo - 1] != s[|s| - 1]
  {
  }

  /** A block between the sentinels is linked on both sides. */
  lemma FreeIsLinked(s: seq<Block>, b: Block)
    requires |s| >= 2 && Linked(s) && b in s[1..|s| - 1]
    ensures b.prev != null && b.next != null
  {
    var k :| 0 <= k < |s| - 2 && s[1..|s| - 1][k] == b;
    assert s[k + 1].next == s[k + 2] && s[k + 1].prev == s[k];
  }

  /** Joining the neighbours of position `k` links the sequence without it. */
  lemma LinkedWithout(s: seq<Block>, r: seq<Block>, k: nat)
    requires 1 <= k < |s| - 1 && r == s[..k] + s[k + 1..]
    requires s[k - 1].next == s[k + 1] && s[k + 1].prev == s[k - 1]
    requires forall i {:trigger s[i].next} :: 0 <= i < |s| - 1 && i != k - 1 && i != k ==> s[i].next == s[i + 1]
    requires forall i {:trigger s[i].prev} :: 0 < i < |s| && i != k && i != k + 1 ==> s[i].prev == s[i - 1]
    ensures Linked(r)
  {
    forall i | 0 <= i < |r| - 1
      ensures r[i].next == r[i + 1] && r[i + 1].prev == r[i]
    {
      var p := if i < k then i else i + 1;
      assert r[i] == s[p];
      if i + 1 != k {
        assert r[i + 1] == s[p + 1] && s[p].next == s[p + 1] && s[p + 1].prev == s[p];
      }
    }
    assert forall i {:trigger r[i].prev} :: 0 < i < |r| ==> r[i - 1].next == r[i];
  }

  class Queue {
    var head: Block
    var tail: Block
    var numFree: nat
    /** The sentinels and everything between them. */
    ghost var chain: seq<Block>

    ghost predicate Valid()
      reads this, chain
    {
      && |chain| >= 2 && chain[0] == head && chain[|chain| - 1] == tail
      && numFree == |chain| - 2
      && DistinctBlocks(chain) && Linked(chain)
      && head.prev == null && tail.next == null
    }

    /** The free blocks in eviction order. */
    ghost function Free(): seq<Block>
      reads this
      requires |chain| >= 2
    {
      chain[1..|chain| - 1]
    }

    /** Link consecutive blocks to each other. */
    static method LinkInitial(blocks: seq<Block>)
      requires DistinctBlocks(blocks)
      requires forall b :: b in blocks ==> b.prev == null && b.next == null
      modifies blocks
      ensures Linked(blocks)
    {
      var n := |blocks|;
      for i := 0 to n
        invariant forall k {:trigger blocks[k].next} :: 0 <= k < i && k < n - 1 ==> blocks[k].next == blocks[k + 1]
        invariant forall k {:trigger blocks[k].prev} :: 0 < k < i ==> blocks[k].prev == blocks[k - 1]
      {
        if i > 0 {
          blocks[i].prev := blocks[i - 1];
        }
        if i < n - 1 {
          blocks[i].next := blocks[i + 1];
        }
      }
    }

    /** Put the sentinels at either end of the linked blocks. */
    static method Enclose(front: Block, blocks: seq<Block>, back: Block)
      requires DistinctBlocks([front] + blocks + [back]) && Linked(blocks)
      modifies front`next, back`prev, blocks
      ensures Linked([front] + blocks + [back])
    {
      ghost var s := [front] + blocks + [back];
      if |blocks| > 0 {
        assert s[1] == blocks[0] && s[|blocks|] == blocks[|blocks| - 1];
        front.next := blocks[0];
        blocks[0].prev := front;
        back.prev := blocks[|blocks| - 1];
        blocks[|blocks| - 1].next := back;
        assert s[1] != s[|blocks| + 1] && s[0] != s[|blocks|];
        forall i | 0 <= i < |s| - 1
          ensures s[i].next == s[i + 1] && s[i + 1].prev == s[i]
        {
          if 0 < i < |blocks| {
            assert s[i] == blocks[i - 1] && s[i + 1] == blocks[i];
            assert old(blocks[i - 1].next) == blocks[i] && old(blocks[i].prev) == blocks[i - 1];
            assert s[0] != s[i] && s[i] != s[|blocks|] && s[1] != s[i + 1] && s[i + 1] != s[|blocks| + 1];
          }
        }
        assert forall i {:trigger s[i].prev} :: 0 < i < |s| ==> s[i - 1].next == s[i];
      } else {
        front.next := back;
        back.prev := front;
      }
    }

    constructor (blocks: seq<Block>)
      requires DistinctBlocks(blocks)
      requires forall b :: b in blocks ==> b.prev == null && b.next == null
      modifies blocks
      ensures Valid() && Free() == blocks && fresh(head) && fresh(tail)
    {
      hide Linked;
      numFree := |blocks|;
      LinkInitial(blocks);
      var front := new Block(-1);
      var back := new Block(-1);
      assert DistinctBlocks([front] + blocks + [back]);
      Enclose(front, blocks, back);
      head, tail := front, back;
      chain := [front] + blocks + [back];
    }

    /** Join two neighbours of the sequence `s`. */
    static method Join(ghost s: seq<Block>, ghost i: nat, ghost rest: nat, a: Block, b: Block)
      requires DistinctBlocks(s) && i + 1 < |s| && s[i] == a && s[i + 1] == b && i < rest
      modifies a`next, b`prev
      ensures a.next == b && b.prev == a
      ensures old(LinkedTo(s, i)) ==> LinkedTo(s, i + 1)
      ensures old(LinkedFrom(s, rest)) ==> LinkedFrom(s, rest)
    {
      b.prev := a;
      a.next := b;
    }

    /** Cut one block off the front of the linked rest of `s`. */
    static method Detach(ghost s: seq<Block>, ghost i: nat, block: Block)
      requires DistinctBlocks(s) && 0 < i && i + 1 < |s| && s[i] == block
      requires LinkedFrom(s, i) && Unlinked(s, 1, i)
      modifies block
      ensures LinkedFrom(s, i + 1) && Unlinked(s, 1, i + 1)
    {
      block.prev := null;
      block.next := null;
    }

    /** Take the first free block. */
    method PopLeft() returns (popped: Popped)
      requires Valid()
      modifies this, chain
      ensures Valid() && head == old(head) && tail == old(tail)
      ensures old(Free()) == [] ==> popped == NoFreeBlocks && chain == old(chain)
      ensures old(Free()) != [] ==>
        && popped == First(old(Free())[0]) && Free() == old(Free())[1..]
        && popped.block.prev == null && popped.block.next == null
    {
      if head.next == tail || head.next == null {
        return NoFreeBlocks;
      }
      var first := head.next;
      assert first == chain[1];
      var second := first.next;
      assert second == chain[2];
      head.next := second;
      second.prev := head;
      first.prev, first.next := null, null;
      numFree := numFree - 1;
      chain := [head] + chain[2..];
      popped := First(first);
    }

    /** Cut the blocks at positions 1..n+1 of `s` loose, walking the links. */
    static method DetachRun(ghost s: seq<Block>, n: nat, first: Block) returns (popped: seq<Block>, current: Block?)
      requires DistinctBlocks(s) && 0 < n && n + 1 < |s| && first == s[1] && LinkedFrom(s, 1)
      modifies s[1..n + 1]
      ensures popped == s[1..n + 1] && current == s[n + 1]
      ensures LinkedFrom(s, n + 1)
      ensures forall b :: b in popped ==> b.prev == null && b.next == null
    {
      popped, current := [], first;
      for i := 0 to n
        invariant popped == s[1..i + 1] && current == s[i + 1]
        invariant LinkedFrom(s, i + 1) && Unlinked(s, 1, i + 1)
      {
        var last := current;
        assert last == s[1..n + 1][i];
        popped := popped + [last];
        current := last.next;
        Detach(s, i + 1, last);
      }
    }

    /** Cut the `n` blocks behind the front sentinel out of `s`. */
    static method CutRun(ghost s: seq<Block>, n: nat, front: Block) returns (popped: seq<Block>)
      requires DistinctBlocks(s) && Linked(s) && 0 < n && n + 1 < |s| && front == s[0]
      modifies s
      ensures popped == s[1..n + 1] && Linked(s[..1] + s[n + 1..])
      ensures forall b :: b in popped ==> b.prev == null && b.next == null
      ensures s[0].prev == old(s[0].prev) && s[|s| - 1].next == old(s[|s| - 1].next)
    {
      hide DistinctBlocks, Linked, LinkedTo, LinkedFrom;
      ghost var after := s[..1] + s[n + 1..];
      EndsLinked(s);
      RunApart(s, 1, n + 1);
      var current := front.next;
      popped, current := DetachRun(s, n, current);
      DistinctPart(s, 1, n + 1);
      SuffixLinked(s, n + 1, after);
      if current != null {
        Join(after, 0, 1, front, current);
      }
      AllLinked(after, 1);
    }

    /** Take the first `n` free blocks. */
    method PopLeftN(n: nat) returns (popped: seq<Block>)
      requires Valid() && n <= numFree
      modifies this, chain
      ensures Valid() && head == old(head) && tail == old(tail)
      ensures popped == old(Free())[..n] && Free() == old(Free())[n..]
      ensures forall b :: b in popped ==> b.prev == null && b.next == null
    {
      hide DistinctBlocks, Linked;
      if n == 0 {
        return [];
      }
      ghost var was := chain;
      numFree := numFree - n;
      popped := CutRun(was, n, head);
      DistinctPart(was, 1, n + 1);
      chain := was[..1] + was[n + 1..];
    }

    /** Join the neighbours of the block at position `k` of `s`. */
    static method Unlink(ghost s: seq<Block>, ghost k: nat, block: Block)
      requires DistinctBlocks(s) && Linked(s) && 1 <= k < |s| - 1 && s[k] == block
      modifies s
      ensures block.prev == null && block.next == null
      ensures Linked(s[..k] + s[k + 1..])
      ensures s[0].prev == old(s[0].prev) && s[|s| - 1].next == old(s[|s| - 1].next)
    {
      assert block.prev == s[k - 1] && block.next == s[k + 1];
      block.prev.next := block.next;
      block.next.prev := block.prev;
      block.prev, block.next := null, null;
      LinkedWithout(s, s[..k] + s[k + 1..], k);
    }

    /** Unlink one block; a block that is not linked on both sides is refused. */
    method Remove(block: Block) returns (ok: bool)
      requires Valid() && (block in Free() || block.prev == null || block.next == null)
      modifies this, chain, block
      ensures Valid() && head == old(head) && tail == old(tail)
      ensures ok <==> block in old(Free())
      ensures !ok ==> chain == old(chain) && block.prev == old(block.prev) && block.next == old(block.next)
      ensures ok ==> block.prev == null && block.next == null
      ensures ok ==> Without(old(Free()), block, Free())
    {
      hide DistinctBlocks, Linked, Without;
      if block.prev == null || block.next == null {
        if block in Free() {
          FreeIsLinked(chain, block);
          assert false;
        }
        return false;
      }
      ghost var k :| 0 <= k < |Free()| && Free()[k] == block;
      ghost var was := chain;
      Unlink(was, k + 1, block);
      DistinctPart(was, k + 1, k + 2);
      FreeWithout(was, k);
      numFree := numFree - 1;
      chain := was[..k + 1] + was[k + 2..];
      ok := true;
    }

    /** Put one block at the back. */
    method Append(block: Block)
      requires Valid() && block !in chain
      modifies this, chain, block
      ensures Valid() && head == old(head) && tail == old(tail)
      ensures Free() == old(Free()) + [block]
    {
      var last := tail.prev;
      ghost var n := |chain|;
      assert last == chain[n - 2];
      last.next := block;
      block.prev := last;
      block.next := tail;
      tail.prev := block;
      numFree := numFree + 1;
      chain := chain[..n - 1] + [block, tail];
    }

    /** Link `blocks` one after the other behind `previous`, which sits at position `from` of `s`. */
    static method LinkRun(ghost s: seq<Block>, ghost from: nat, previous: Block, blocks: seq<Block>)
      returns (last: Block)
      requires DistinctBlocks(s) && from + |blocks| < |s| && s[from] == previous
      requires s[from + 1..from + 1 + |blocks|] == blocks
      modifies previous, blocks
      ensures last == s[from + |blocks|]
      ensures s[0].prev == old(s[0].prev) && s[|s| - 1].next == old(s[|s| - 1].next)
      ensures old(LinkedTo(s, from)) ==> LinkedTo(s, from + |blocks|)
      ensures old(LinkedFrom(s, from + |blocks| + 1)) ==> LinkedFrom(s, from + |blocks| + 1)
    {
      last := previous;
      for i := 0 to |blocks|
        invariant last == s[from + i] && last == (if i == 0 then previous else blocks[i - 1])
        invariant s[0].prev == old(s[0].prev) && s[|s| - 1].next == old(s[|s| - 1].next)
        invariant old(LinkedTo(s, from)) ==> LinkedTo(s, from + i)
        invariant old(LinkedFrom(s, from + |blocks| + 1)) ==> LinkedFrom(s, from + |blocks| + 1)
      {
        var block := blocks[i];
        assert block == s[from + 1..from + 1 + |blocks|][i];
        Join(s, from + i, from + |blocks| + 1, last, block);
        last := block;
      }
    }

    /** Link the run at position `at` of `s` and close the gaps on either side of it. */
    static method Thread(ghost s: seq<Block>, ghost at: nat, before: Block, blocks: seq<Block>, behind: Block)
      requires DistinctBlocks(s) && 0 < at && at + |blocks| < |s|
      requires s[at - 1] == before && s[at..at + |blocks|] == blocks && s[at + |blocks|] == behind
      requires LinkedTo(s, at - 1) && LinkedFrom(s, at + |blocks|)
      modifies before, blocks, behind
      ensures Linked(s)
      ensures s[0].prev == old(s[0].prev) && s[|s| - 1].next == old(s[|s| - 1].next)
    {
      var last := LinkRun(s, at - 1, before, blocks);
      Join(s, at - 1 + |blocks|, at + |blocks|, last, behind);
    }

    /** Thread `blocks` between positions at-1 and at of `s`. */
    static method Splice(ghost s: seq<Block>, ghost at: nat, before: Block, blocks: seq<Block>, behind: Block)
      requires DistinctBlocks(s) && Linked(s) && 0 < at < |s| && s[at - 1] == before && s[at] == behind
      requires DistinctBlocks(blocks) && Apart(blocks, s)
      modifies s, blocks
      ensures DistinctBlocks(s[..at] + blocks + s[at..]) && Linked(s[..at] + blocks + s[at..])
      ensures s[0].prev == old(s[0].prev) && s[|s| - 1].next == old(s[|s| - 1].next)
    {
      hide DistinctBlocks, Linked, LinkedTo, LinkedFrom, Apart;
      ghost var after := s[..at] + blocks + s[at..];
      DistinctInsert(s, blocks, at);
      InsertKeepsLinks(s, blocks, at, after);
      Thread(after, at, before, blocks, behind);
    }

    /** Put blocks at the front, in order. */
    method PrependN(blocks: seq<Block>)
      requires Valid() && DistinctBlocks(blocks) && Apart(blocks, chain)
      modifies this, chain, blocks
      ensures Valid() && head == old(head) && tail == old(tail)
      ensures Free() == blocks + old(Free())
    {
      hide DistinctBlocks, Linked, Apart;
      if |blocks| == 0 {
        return;
      }
      EndsLinked(chain);
      ghost var was := chain;
      Splice(was, 1, head, blocks, head.next);
      numFree := numFree + |blocks|;
      chain := was[..1] + blocks + was[1..];
      assert chain[1..|chain| - 1] == blocks + was[1..|was| - 1];
    }

    /** Put blocks at the back, in order. */
    method AppendN(blocks: seq<Block>)
      requires Valid() && DistinctBlocks(blocks) && Apart(blocks, chain)
      modifies this, chain, blocks
      ensures Valid() && head == old(head) && tail == old(tail)
      ensures Free() == old(Free()) + blocks
    {
      hide DistinctBlocks, Linked, Apart;
      if |blocks| == 0 {
        return;
      }
      EndsLinked(chain);
      ghost var was, m := chain, |chain| - 1;
      Splice(was, m, tail.prev, blocks, tail);
      numFree := numFree + |blocks|;
      chain := was[..m] + blocks + was[m..];
    }

    /** Walk the links from the front sentinel. */
    method AllFree() returns (blocks: seq<Block>)
      requires Valid()
      ensures blocks == Free()
    {
      blocks := [];
      var current := head.next;
      assert current == chain[1];
      ghost var i := 0;
      while current.next != null
        invariant 0 <= i <= |chain| - 2 && current == chain[i + 1] && blocks == chain[1..i + 1]
        decreases |chain| - i
      {
        assert i < |chain| - 2;
        blocks := blocks + [current];
        current := current.next;
        i := i + 1;
      }
    }
  }
}
