/** The allocator object: its loops over the block vector, proved against `MemoryModel`. */
module MemoryManagers {
  import opened MemoryModel

  class MemoryManager {
    var totalMemory: int
    var usedMemory: int
    var lastAllocationStart: int
    var blocks: seq<Block>

    function View(): Memory
      reads this
    {
      Memory(totalMemory, usedMemory, lastAllocationStart, blocks)
    }

    constructor (total: int)
      ensures View() == InitialMemory(total)
      ensures totalMemory == total && usedMemory == 0 && lastAllocationStart == -1
      ensures blocks == [Block(0, total, true)]
    {
      totalMemory, usedMemory, lastAllocationStart := total, 0, -1;
      blocks := [Block(0, total, true)];
    }

    /** First fit, splitting the block found. */
    method Allocate(amount: int) returns (success: bool)
      modifies this
      ensures Attempt(View(), success) == MemoryModel.Allocate(old(View()), amount)
    {
      hide Place, HasRoom, FirstFit, Fits, Carve;
      lastAllocationStart := -1;
      if amount <= 0 {
        lastAllocationStart := 0;
        return true;
      }
      var i := 0;
      ghost var bs := blocks;
      assert bs[..0] == [] && bs[0..] == bs;
      while i < |blocks|
        invariant 0 <= i <= |blocks| && blocks == bs
        invariant totalMemory == old(totalMemory) && usedMemory == old(usedMemory) && lastAllocationStart == -1
        invariant HasRoom(bs, amount) == HasRoom(bs[i..], amount)
        invariant HasRoom(bs, amount) ==> FirstFit(bs, amount) == FirstFit(bs[i..], amount)
        invariant Place(bs, amount) == bs[..i] + Place(bs[i..], amount)
      {
        var block := blocks[i];
        if !block.free || block.size < amount {
          FitsMeans(block, amount);
          SearchSkips(bs, i, amount);
          i := i + 1;
          continue;
        }
        FitsMeans(block, amount);
        SearchStops(bs, i, amount);
        lastAllocationStart := block.start;
        if block.size == amount {
          blocks := blocks[i := block.(free := false)];
        } else {
          var remainder := Block(block.start + amount, block.size - amount, true);
          blocks := blocks[i := Block(block.start, amount, false)];
          blocks := blocks[..i + 1] + [remainder] + blocks[i + 1..];
        }
        usedMemory := usedMemory + amount;
        return true;
      }
      SearchExhausted(bs, amount);
      return false;
    }

    /** Frees the block allocated at `start`, then coalesces. */
    method Release(start: int, amount: int)
      modifies this
      ensures View() == MemoryModel.Release(old(View()), start, amount)
    {
      hide Vacate, Taken, Merge;
      if amount <= 0 {
        return;
      }
      var i := 0;
      ghost var bs := blocks;
      assert bs[..0] == [] && bs[0..] == bs;
      while i < |blocks|
        invariant 0 <= i <= |blocks| && blocks == bs && View() == old(View())
        invariant Taken(bs, start) == Taken(bs[i..], start)
        invariant Vacate(bs, start) == bs[..i] + Vacate(bs[i..], start)
      {
        ScanStep(bs, i, start);
        var block := blocks[i];
        if block.start == start && !block.free {
          blocks := blocks[i := block.(free := true)];
          usedMemory := usedMemory - amount;
          if usedMemory < 0 {
            usedMemory := 0;
          }
          MergeAdjacentFreeBlocks();
          return;
        }
        i := i + 1;
      }
      ScanExhausted(bs, start);
    }

    /** Coalesces neighbouring free blocks in one pass over the vector. */
    method MergeAdjacentFreeBlocks()
      modifies this`blocks
      ensures blocks == Merge(old(blocks))
    {
      var i := 0;
      assert blocks[..0] == [] && blocks[0..] == blocks;
      while i + 1 < |blocks|
        invariant 0 <= i <= |blocks|
        invariant Merge(old(blocks)) == blocks[..i] + Merge(blocks[i..])
        decreases |blocks| - i
      {
        MergeStep(blocks, i);
        if blocks[i].free && blocks[i + 1].free {
          var joined := blocks[i].(size := blocks[i].size + blocks[i + 1].size);
          blocks := blocks[..i] + [joined] + blocks[i + 2..];
        } else {
          i := i + 1;
        }
      }
    }
  }
}
