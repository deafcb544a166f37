/** The block list of the first-fit allocator, as values.

    `Allocate` and `Release` say what one call of the allocator does to a block list.
    The lemmas show that the block list is a canonical representation of a set of live
    intervals, and that first fit on blocks is first fit on single memory cells. */
module MemoryModel {

  datatype Block = Block(start: int, size: int, free: bool)

  datatype Memory = Memory(total: int, used: int, last: int, blocks: seq<Block>)

  function InitialMemory(total: int): Memory {
    Memory(total, 0, -1, [Block(0, total, true)])
  }

  // ---------------------------------------------------------------- one call

  predicate Fits(b: Block, amount: int) {
    b.free && amount <= b.size
  }

  predicate HasRoom(bs: seq<Block>, amount: int) {
    bs != [] && (Fits(bs[0], amount) || HasRoom(bs[1..], amount))
  }

  /** Start of the first block that fits. */
  function FirstFit(bs: seq<Block>, amount: int): int
    requires HasRoom(bs, amount)
  {
    if Fits(bs[0], amount) then bs[0].start else FirstFit(bs[1..], amount)
  }

  /** What the fitting block is replaced by: itself, or an allocated part and a free remainder. */
  function Carve(b: Block, amount: int): seq<Block> {
    if b.size == amount then [b.(free := false)]
    else [Block(b.start, amount, false), Block(b.start + amount, b.size - amount, true)]
  }

  function Place(bs: seq<Block>, amount: int): seq<Block> {
    if bs == [] then []
    else if Fits(bs[0], amount) then Carve(bs[0], amount) + bs[1..]
    else [bs[0]] + Place(bs[1..], amount)
  }

  datatype Attempt = Attempt(memory: Memory, success: bool)

  function Allocate(m: Memory, amount: int): Attempt {
    if amount <= 0 then Attempt(m.(last := 0), true)
    else if HasRoom(m.blocks, amount) then
      Attempt(m.(last := FirstFit(m.blocks, amount), used := m.used + amount, blocks := Place(m.blocks, amount)), true)
    else Attempt(m.(last := -1), false)
  }

  predicate Taken(bs: seq<Block>, start: int) {
    bs != [] && ((bs[0].start == start && !bs[0].free) || Taken(bs[1..], start))
  }

  /** Marks the first allocated block with this start as free. */
  function Vacate(bs: seq<Block>, start: int): seq<Block> {
    if bs == [] then []
    else if bs[0].start == start && !bs[0].free then [bs[0].(free := true)] + bs[1..]
    else [bs[0]] + Vacate(bs[1..], start)
  }

  function Merge(bs: seq<Block>): seq<Block>
    decreases |bs|
  {
    if |bs| < 2 then bs
    else if bs[0].free && bs[1].free then Merge([bs[0].(size := bs[0].size + bs[1].size)] + bs[2..])
    else [bs[0]] + Merge(bs[1..])
  }

  function Release(m: Memory, start: int, amount: int): Memory {
    if amount <= 0 || !Taken(m.blocks, start) then m
    else m.(used := if m.used < amount then 0 else m.used - amount, blocks := Merge(Vacate(m.blocks, start)))
  }

  // ---------------------------------------------------------------- one step of each loop

  lemma FitsMeans(b: Block, amount: int)
    ensures Fits(b, amount) <==> b.free && amount <= b.size
  {
  }

  /** The search passes over block `i`. */
  lemma SearchSkips(bs: seq<Block>, i: nat, amount: int)
    requires i < |bs| && !Fits(bs[i], amount)
    ensures HasRoom(bs[i..], amount) == HasRoom(bs[i + 1..], amount)
    ensures HasRoom(bs[i..], amount) ==> FirstFit(bs[i..], amount) == FirstFit(bs[i + 1..], amount)
    ensures bs[..i] + Place(bs[i..], amount) == bs[..i + 1] + Place(bs[i + 1..], amount)
  {
    assert bs[i..][0] == bs[i] && bs[i..][1..] == bs[i + 1..] && bs[..i + 1] == bs[..i] + [bs[i]];
    assert bs[..i] + ([bs[i]] + Place(bs[i + 1..], amount)) == bs[..i + 1] + Place(bs[i + 1..], amount);
  }

  /** The search stops at block `i`, which is allocated whole, or split in the two steps of the code. */
  lemma SearchStops(bs: seq<Block>, i: nat, amount: int)
    requires i < |bs| && Fits(bs[i], amount)
    ensures HasRoom(bs[i..], amount) && FirstFit(bs[i..], amount) == bs[i].start
    ensures bs[i].size == amount ==> bs[..i] + Place(bs[i..], amount) == bs[i := bs[i].(free := false)]
    ensures bs[i].size != amount ==>
      var cut := bs[i := Block(bs[i].start, amount, false)];
      bs[..i] + Place(bs[i..], amount) ==
      cut[..i + 1] + [Block(bs[i].start + amount, bs[i].size - amount, true)] + cut[i + 1..]
  {
    var rest := bs[i + 1..];
    assert bs[i..][0] == bs[i] && bs[i..][1..] == rest;
    assert Place(bs[i..], amount) == Carve(bs[i], amount) + rest;
    var cut := bs[i := Block(bs[i].start, amount, false)];
    assert cut[..i + 1] == bs[..i] + [Block(bs[i].start, amount, false)] && cut[i + 1..] == rest;
    assert bs[i := bs[i].(free := false)] == bs[..i] + ([bs[i].(free := false)] + rest);
  }

  lemma SearchExhausted(bs: seq<Block>, amount: int)
    ensures !HasRoom(bs[|bs|..], amount)
  {
  }

  lemma ScanExhausted(bs: seq<Block>, start: int)
    ensures !Taken(bs[|bs|..], start)
  {
  }

  /** The release scan passes over, or stops at, block `i`. */
  lemma ScanStep(bs: seq<Block>, i: nat, start: int)
    requires i < |bs|
    ensures var hit := bs[i].start == start && !bs[i].free;
      && (hit ==> Taken(bs[i..], start) && bs[..i] + Vacate(bs[i..], start) == bs[i := bs[i].(free := true)])
      && (!hit ==> Taken(bs[i..], start) == Taken(bs[i + 1..], start)
                   && bs[..i] + Vacate(bs[i..], start) == bs[..i + 1] + Vacate(bs[i + 1..], start))
  {
    assert bs[i..][0] == bs[i] && bs[i..][1..] == bs[i + 1..] && bs[..i + 1] == bs[..i] + [bs[i]];
    assert bs[..i] + ([bs[i]] + Vacate(bs[i + 1..], start)) == bs[..i + 1] + Vacate(bs[i + 1..], start);
    assert bs[..i] + ([bs[i].(free := true)] + bs[i + 1..]) == bs[i := bs[i].(free := true)];
  }

  /** The coalescing pass joins blocks `i` and `i + 1`, or moves on. */
  lemma MergeStep(bs: seq<Block>, i: nat)
    requires i + 1 < |bs|
    ensures var joined := bs[..i] + [bs[i].(size := bs[i].size + bs[i + 1].size)] + bs[i + 2..];
      bs[..i] + Merge(bs[i..]) ==
      if bs[i].free && bs[i + 1].free then joined[..i] + Merge(joined[i..])
      else bs[..i + 1] + Merge(bs[i + 1..])
  {
    var j := bs[i].(size := bs[i].size + bs[i + 1].size);
    var joined := bs[..i] + [j] + bs[i + 2..];
    assert joined[..i] == bs[..i] && joined[i..] == [j] + bs[i..][2..];
    assert bs[i..][1..] == bs[i + 1..] && bs[..i + 1] == bs[..i] + [bs[i]];
    assert bs[..i] + ([bs[i]] + Merge(bs[i + 1..])) == bs[..i + 1] + Merge(bs[i + 1..]);
  }

  // ---------------------------------------------------------------- validity

  /** The blocks are non-empty and cover [lo, hi) in order without gap or overlap. */
  predicate Tiles(bs: seq<Block>, lo: int, hi: int) {
    if bs == [] then lo == hi
    else bs[0].start == lo && bs[0].size > 0 && Tiles(bs[1..], lo + bs[0].size, hi)
  }

  predicate Coalesced(bs: seq<Block>) {
    |bs| > 1 ==> !(bs[0].free && bs[1].free) && Coalesced(bs[1..])
  }

  /** Number of allocated cells. */
  function Covered(bs: seq<Block>): int {
    if bs == [] then 0 else (if bs[0].free then 0 else bs[0].size) + Covered(bs[1..])
  }

  predicate ValidMemory(m: Memory) {
    && Tiles(m.blocks, 0, m.total)
    && Coalesced(m.blocks)
    && m.used == Covered(m.blocks)
  }

  // ---------------------------------------------------------------- two abstract views

  /** The live intervals: start of every allocated block, with its size. */
  function Live(bs: seq<Block>): map<int, int> {
    if bs == [] then map[]
    else if bs[0].free then Live(bs[1..])
    else Live(bs[1..])[bs[0].start := bs[0].size]
  }

  /** Is the single memory cell `c` free? */
  predicate CellFree(bs: seq<Block>, c: int) {
    bs != [] &&
    if c < bs[0].start + bs[0].size then bs[0].free && bs[0].start <= c else CellFree(bs[1..], c)
  }

  /** `amount` consecutive free cells from `start` on. */
  ghost predicate FreeRun(bs: seq<Block>, start: int, amount: int) {
    forall c | start <= c < start + amount :: CellFree(bs, c)
  }

  lemma {:induction false} LiveBounds(bs: seq<Block>, lo: int, hi: int)
    requires Tiles(bs, lo, hi)
    ensures lo <= hi
    ensures forall x | x in Live(bs) :: lo <= x && 0 < Live(bs)[x] && x + Live(bs)[x] <= hi
  {
    if bs != [] {
      LiveBounds(bs[1..], lo + bs[0].size, hi);
    }
  }

  lemma {:induction false} CoveredBounds(bs: seq<Block>, lo: int, hi: int)
    requires Tiles(bs, lo, hi)
    ensures 0 <= Covered(bs) <= hi - lo
  {
    if bs != [] {
      CoveredBounds(bs[1..], lo + bs[0].size, hi);
    }
  }

  lemma {:induction false} FreeCellBounds(bs: seq<Block>, lo: int, hi: int, c: int)
    requires Tiles(bs, lo, hi) && CellFree(bs, c)
    ensures lo <= c < hi
  {
    if c < bs[0].start + bs[0].size {
      LiveBounds(bs[1..], lo + bs[0].size, hi);
    } else {
      FreeCellBounds(bs[1..], lo + bs[0].size, hi, c);
    }
  }

  ghost predicate Uncovered(live: map<int, int>, c: int) {
    forall x | x in live :: !(x <= c < x + live[x])
  }

  /** The two views agree: a cell of the memory is free exactly when no live interval covers it. */
  lemma {:induction false} FreeIffUncovered(bs: seq<Block>, lo: int, hi: int, c: int)
    requires Tiles(bs, lo, hi) && lo <= c < hi
    ensures CellFree(bs, c) <==> Uncovered(Live(bs), c)
  {
    var next := lo + bs[0].size;
    LiveBounds(bs[1..], next, hi);
    if next <= c {
      FreeIffUncovered(bs[1..], next, hi, c);
      if !bs[0].free {
        UncoveredExtend(Live(bs[1..]), lo, bs[0].size, c);
      }
    } else if !bs[0].free {
      assert lo in Live(bs);
    }
  }

  lemma UncoveredExtend(live: map<int, int>, x: int, size: int, c: int)
    requires x !in live && x + size <= c
    ensures Uncovered(live[x := size], c) <==> Uncovered(live, c)
  {
    if Uncovered(live[x := size], c) {
      forall y | y in live ensures !(y <= c < y + live[y]) {
        assert y in live[x := size];
      }
    }
  }

  // ---------------------------------------------------------------- allocation

  lemma {:induction false} PlaceKeepsTiles(bs: seq<Block>, amount: int, lo: int, hi: int)
    requires amount > 0 && Tiles(bs, lo, hi) && Coalesced(bs)
    ensures Tiles(Place(bs, amount), lo, hi) && Coalesced(Place(bs, amount))
    ensures Place(bs, amount) != [] && Place(bs, amount)[0].free ==> bs != [] && bs[0].free
    ensures Covered(Place(bs, amount)) == Covered(bs) + (if HasRoom(bs, amount) then amount else 0)
  {
    if bs != [] {
      var next := lo + bs[0].size;
      if Fits(bs[0], amount) {
        var c := Carve(bs[0], amount);
        assert (c + bs[1..])[1..] == c[1..] + bs[1..];
        if |c| == 2 {
          assert (c[1..] + bs[1..])[1..] == bs[1..];
          assert |bs| > 1 ==> (c[1..] + bs[1..])[1] == bs[1];
          assert Covered(c[1..] + bs[1..]) == Covered(bs[1..]);
        } else {
          assert c[1..] + bs[1..] == bs[1..];
        }
      } else {
        PlaceKeepsTiles(bs[1..], amount, next, hi);
        assert ([bs[0]] + Place(bs[1..], amount))[1..] == Place(bs[1..], amount);
      }
    }
  }

  lemma {:induction false} PlaceLive(bs: seq<Block>, amount: int, lo: int, hi: int)
    requires amount > 0 && Tiles(bs, lo, hi) && HasRoom(bs, amount)
    ensures var x := FirstFit(bs, amount);
      x !in Live(bs) && lo <= x && x + amount <= hi && Live(Place(bs, amount)) == Live(bs)[x := amount]
  {
    var next := lo + bs[0].size;
    LiveBounds(bs[1..], next, hi);
    if Fits(bs[0], amount) {
      var c := Carve(bs[0], amount);
      assert (c + bs[1..])[1..] == c[1..] + bs[1..];
      if |c| == 2 {
        assert (c[1..] + bs[1..])[1..] == bs[1..];
        assert Live(c[1..] + bs[1..]) == Live(bs[1..]);
      } else {
        assert c[1..] + bs[1..] == bs[1..];
      }
    } else {
      PlaceLive(bs[1..], amount, next, hi);
      assert ([bs[0]] + Place(bs[1..], amount))[1..] == Place(bs[1..], amount);
    }
  }

  lemma {:induction false} PlaceCell(bs: seq<Block>, amount: int, lo: int, hi: int, c: int)
    requires amount > 0 && Tiles(bs, lo, hi) && HasRoom(bs, amount)
    ensures var x := FirstFit(bs, amount);
      CellFree(Place(bs, amount), c) <==> CellFree(bs, c) && !(x <= c < x + amount)
  {
    var next := lo + bs[0].size;
    LiveBounds(bs[1..], next, hi);
    if Fits(bs[0], amount) {
      var k := Carve(bs[0], amount);
      assert (k + bs[1..])[1..] == k[1..] + bs[1..];
      if |k| == 2 {
        assert (k[1..] + bs[1..])[1..] == bs[1..];
      } else {
        assert k[1..] + bs[1..] == bs[1..];
      }
    } else {
      PlaceLive(bs[1..], amount, next, hi);
      PlaceCell(bs[1..], amount, next, hi, c);
      assert ([bs[0]] + Place(bs[1..], amount))[1..] == Place(bs[1..], amount);
    }
  }

  lemma GapAfterFree(bs: seq<Block>, lo: int, hi: int)
    requires Tiles(bs, lo, hi) && Coalesced(bs) && bs != [] && bs[0].free
    ensures !CellFree(bs, lo + bs[0].size)
  {
    if |bs| > 1 {
      assert bs[1..][0] == bs[1];
    }
  }

  /** A run of free cells in a coalesced list lies inside one block, so some block fits, at or before the run. */
  lemma {:induction false} RunGivesRoom(bs: seq<Block>, amount: int, lo: int, hi: int, start: int)
    requires amount > 0 && Tiles(bs, lo, hi) && Coalesced(bs) && FreeRun(bs, start, amount)
    ensures HasRoom(bs, amount) && FirstFit(bs, amount) <= start
  {
    assert CellFree(bs, start);
    FreeCellBounds(bs, lo, hi, start);
    var next := lo + bs[0].size;
    if start < next {
      GapAfterFree(bs, lo, hi);
      assert !CellFree(bs, next);
    } else {
      assert forall c | start <= c < start + amount :: CellFree(bs, c) ==> CellFree(bs[1..], c);
      RunGivesRoom(bs[1..], amount, next, hi, start);
    }
  }

  lemma {:induction false} RoomGivesRun(bs: seq<Block>, amount: int, lo: int, hi: int)
    requires amount > 0 && Tiles(bs, lo, hi) && HasRoom(bs, amount)
    ensures FreeRun(bs, FirstFit(bs, amount), amount) && lo <= FirstFit(bs, amount)
  {
    if !Fits(bs[0], amount) {
      RoomGivesRun(bs[1..], amount, lo + bs[0].size, hi);
      var x := FirstFit(bs, amount);
      assert forall c | x <= c < x + amount :: CellFree(bs[1..], c) ==> CellFree(bs, c);
    }
  }

  /** First fit over cells: for a positive amount the call succeeds exactly when that many consecutive
      free cells exist; it returns the lowest such place, makes exactly those cells non-free, and
      leaves the memory alone (but for the last-start register) when it fails. Asking for nothing
      succeeds, with start 0, and takes nothing. */
  lemma AllocateRefinesCells(m: Memory, amount: int)
    requires ValidMemory(m)
    ensures var a := Allocate(m, amount);
      && ValidMemory(a.memory)
      && a.memory.total == m.total
      && (a.success <==> exists x :: FreeRun(m.blocks, x, amount))
      && (a.success && amount > 0 ==>
            && FreeRun(m.blocks, a.memory.last, amount)
            && 0 <= a.memory.last && a.memory.last + amount <= m.total
            && (forall x | FreeRun(m.blocks, x, amount) :: a.memory.last <= x)
            && (forall c :: CellFree(a.memory.blocks, c) <==>
                  CellFree(m.blocks, c) && !(a.memory.last <= c < a.memory.last + amount))
            && a.memory.last !in Live(m.blocks)
            && Live(a.memory.blocks) == Live(m.blocks)[a.memory.last := amount]
            && a.memory.used == m.used + amount)
      && (amount <= 0 ==> a.memory == m.(last := 0))
      && (!a.success ==> a.memory == m.(last := -1))
  {
    if amount <= 0 {
      assert FreeRun(m.blocks, 0, amount);
    } else {
      forall x | FreeRun(m.blocks, x, amount)
        ensures HasRoom(m.blocks, amount) && FirstFit(m.blocks, amount) <= x
      {
        RunGivesRoom(m.blocks, amount, 0, m.total, x);
      }
      PlaceKeepsTiles(m.blocks, amount, 0, m.total);
      if HasRoom(m.blocks, amount) {
        RoomGivesRun(m.blocks, amount, 0, m.total);
        PlaceLive(m.blocks, amount, 0, m.total);
        forall c {
          PlaceCell(m.blocks, amount, 0, m.total, c);
        }
      }
    }
  }

  /** Allocating never makes room: whatever fits afterwards did fit before. */
  lemma {:induction false} RoomNeverGrows(bs: seq<Block>, amount: int, other: int)
    requires amount > 0 && other > 0 && HasRoom(Place(bs, amount), other)
    ensures HasRoom(bs, other)
  {
    if Fits(bs[0], amount) {
      var c := Carve(bs[0], amount);
      assert (c + bs[1..])[1..] == c[1..] + bs[1..];
      if |c| == 2 {
        assert (c[1..] + bs[1..])[1..] == bs[1..];
      } else {
        assert c[1..] + bs[1..] == bs[1..];
      }
    } else {
      assert ([bs[0]] + Place(bs[1..], amount))[1..] == Place(bs[1..], amount);
      if !Fits(bs[0], other) {
        RoomNeverGrows(bs[1..], amount, other);
      }
    }
  }

  // ---------------------------------------------------------------- release

  lemma {:induction false} TakenIffLive(bs: seq<Block>, start: int)
    ensures Taken(bs, start) <==> start in Live(bs)
  {
    if bs != [] {
      TakenIffLive(bs[1..], start);
    }
  }

  lemma {:induction false} VacateEffect(bs: seq<Block>, start: int, lo: int, hi: int)
    requires Tiles(bs, lo, hi) && start in Live(bs)
    ensures Tiles(Vacate(bs, start), lo, hi)
    ensures Live(Vacate(bs, start)) == Live(bs) - {start}
    ensures Covered(Vacate(bs, start)) == Covered(bs) - Live(bs)[start]
    ensures forall c :: CellFree(Vacate(bs, start), c) <==> CellFree(bs, c) || start <= c < start + Live(bs)[start]
  {
    var next := lo + bs[0].size;
    LiveBounds(bs[1..], next, hi);
    if bs[0].start == start {
      assert !bs[0].free;
      assert ([bs[0].(free := true)] + bs[1..])[1..] == bs[1..];
      assert start !in Live(bs[1..]);
    } else {
      assert start in Live(bs[1..]);
      VacateEffect(bs[1..], start, next, hi);
      assert ([bs[0]] + Vacate(bs[1..], start))[1..] == Vacate(bs[1..], start);
    }
  }

  lemma {:induction false} MergeEffect(bs: seq<Block>, lo: int, hi: int)
    requires Tiles(bs, lo, hi)
    ensures Tiles(Merge(bs), lo, hi) && Coalesced(Merge(bs))
    ensures bs != [] ==> Merge(bs) != [] && Merge(bs)[0].free == bs[0].free
    ensures Live(Merge(bs)) == Live(bs) && Covered(Merge(bs)) == Covered(bs)
    ensures forall c :: CellFree(Merge(bs), c) <==> CellFree(bs, c)
    decreases |bs|
  {
    if |bs| >= 2 {
      if bs[0].free && bs[1].free {
        var joined := [bs[0].(size := bs[0].size + bs[1].size)] + bs[2..];
        assert joined[1..] == bs[2..] == bs[1..][1..];
        MergeEffect(joined, lo, hi);
      } else {
        MergeEffect(bs[1..], lo + bs[0].size, hi);
        assert ([bs[0]] + Merge(bs[1..]))[1..] == Merge(bs[1..]);
      }
    }
  }

  /** Releasing a live interval frees exactly its cells, whatever amount is named; releasing anything else
      does nothing. The used count stays right exactly when the amount is the interval's size. */
  lemma ReleaseRefinesCells(m: Memory, start: int, amount: int)
    requires ValidMemory(m)
    ensures var r := Release(m, start, amount);
      && Tiles(r.blocks, 0, r.total) && Coalesced(r.blocks)
      && r.total == m.total && r.last == m.last
      && if amount > 0 && start in Live(m.blocks) then
           && Live(r.blocks) == Live(m.blocks) - {start}
           && (forall c :: CellFree(r.blocks, c) <==>
                 CellFree(m.blocks, c) || start <= c < start + Live(m.blocks)[start])
           && (amount <= m.used ==> r.used == m.used - amount && (ValidMemory(r) <==> amount == Live(m.blocks)[start]))
           && (amount > m.used ==> r.used == 0)
           && (amount == Live(m.blocks)[start] ==> amount <= m.used)
         else r == m
  {
    TakenIffLive(m.blocks, start);
    if amount > 0 && start in Live(m.blocks) {
      VacateEffect(m.blocks, start, 0, m.total);
      MergeEffect(Vacate(m.blocks, start), 0, m.total);
      CoveredBounds(Merge(Vacate(m.blocks, start)), 0, m.total);
    }
  }

  // ---------------------------------------------------------------- canonical form

  /** The block list is determined by the live intervals. */
  lemma {:induction false} Canonical(a: seq<Block>, b: seq<Block>, lo: int, hi: int)
    requires Tiles(a, lo, hi) && Coalesced(a) && Tiles(b, lo, hi) && Coalesced(b)
    requires Live(a) == Live(b)
    ensures a == b
    decreases |a|
  {
    if a == [] {
      LiveBounds(b, lo, hi);
      if b != [] { LiveBounds(b[1..], lo + b[0].size, hi); }
    } else {
      LiveBounds(a[1..], lo + a[0].size, hi);
      if b != [] {
        LiveBounds(b[1..], lo + b[0].size, hi);
        assert a[0].free <==> lo !in Live(a);
        assert b[0].free <==> lo !in Live(b);
        if a[0].free {
          FirstLive(a, lo, hi);
          FirstLive(b, lo, hi);
        }
        assert a[0] == b[0];
        TailLive(a, lo, hi);
        TailLive(b, lo, hi);
        Canonical(a[1..], b[1..], lo + a[0].size, hi);
        assert a == [a[0]] + a[1..] && b == [b[0]] + b[1..];
      }
    }
  }

  lemma TailLive(a: seq<Block>, lo: int, hi: int)
    requires Tiles(a, lo, hi) && a != []
    ensures Live(a[1..]) == Live(a) - {lo}
  {
    LiveBounds(a[1..], lo + a[0].size, hi);
  }

  /** A leading free block of a coalesced list ends at the first live interval, or at the end. */
  lemma FirstLive(a: seq<Block>, lo: int, hi: int)
    requires Tiles(a, lo, hi) && Coalesced(a) && a != [] && a[0].free
    ensures lo + a[0].size == hi || lo + a[0].size in Live(a)
    ensures lo + a[0].size == hi ==> Live(a) == map[]
    ensures forall x | x in Live(a) :: lo + a[0].size <= x < hi
  {
    LiveBounds(a[1..], lo + a[0].size, hi);
    if |a| > 1 {
      assert a[1..][0] == a[1];
      LiveBounds(a[1..][1..], lo + a[0].size + a[1].size, hi);
    }
  }

  /** Allocating and then releasing what was allocated restores the memory. */
  lemma AllocateThenRelease(m: Memory, amount: int)
    requires ValidMemory(m) && Allocate(m, amount).success
    ensures var a := Allocate(m, amount).memory;
      Release(a, a.last, amount) == m.(last := a.last)
  {
    if amount > 0 {
      AllocateRefinesCells(m, amount);
      var a := Allocate(m, amount).memory;
      ReleaseRefinesCells(a, a.last, amount);
      var r := Release(a, a.last, amount);
      assert Live(r.blocks) == Live(m.blocks);
      Canonical(r.blocks, m.blocks, 0, m.total);
    }
  }

  function ReleaseAll(m: Memory, starts: seq<int>): Memory
    decreases |starts|
  {
    if starts == [] then m
    else if starts[0] !in Live(m.blocks) then ReleaseAll(m, starts[1..])
    else ReleaseAll(Release(m, starts[0], Live(m.blocks)[starts[0]]), starts[1..])
  }

  lemma {:induction false} ReleaseAllEffect(m: Memory, starts: seq<int>)
    requires ValidMemory(m)
    ensures var r := ReleaseAll(m, starts);
      && ValidMemory(r) && r.total == m.total && r.last == m.last
      && Live(r.blocks) == Live(m.blocks) - (set x | x in starts)
    decreases |starts|
  {
    if starts != [] {
      var x := starts[0];
      assert starts == [x] + starts[1..];
      if x in Live(m.blocks) {
        LiveBounds(m.blocks, 0, m.total);
        ReleaseRefinesCells(m, x, Live(m.blocks)[x]);
        ReleaseAllEffect(Release(m, x, Live(m.blocks)[x]), starts[1..]);
      } else {
        ReleaseAllEffect(m, starts[1..]);
      }
    }
  }

  /** Releasing the same live intervals in any two orders gives the same memory. */
  lemma ReleaseOrderIrrelevant(m: Memory, xs: seq<int>, ys: seq<int>)
    requires ValidMemory(m)
    requires forall x :: x in xs <==> x in ys
    ensures ReleaseAll(m, xs) == ReleaseAll(m, ys)
  {
    ReleaseAllEffect(m, xs);
    ReleaseAllEffect(m, ys);
    var a, b := set x | x in xs, set y | y in ys;
    assert forall x :: x in a <==> x in b;
    Canonical(ReleaseAll(m, xs).blocks, ReleaseAll(m, ys).blocks, 0, m.total);
  }

  /** With nothing live the memory is one free block. */
  lemma NothingLive(m: Memory)
    requires ValidMemory(m) && m.total > 0 && Live(m.blocks) == map[]
    ensures m.blocks == [Block(0, m.total, true)] && m.used == 0
  {
    var one := [Block(0, m.total, true)];
    assert Tiles(one[1..], m.total, m.total);
    assert Live(one) == map[] && Covered(one) == 0;
    Canonical(m.blocks, one, 0, m.total);
  }

  lemma InitialMemoryValid(total: int)
    requires total > 0
    ensures ValidMemory(InitialMemory(total)) && Live(InitialMemory(total).blocks) == map[]
  {
    assert Tiles([Block(0, total, true)][1..], total, total);
  }
}
