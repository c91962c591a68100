/**
 The root allocator (`iris_root_allocator_t`): pages of equally sized cells with a bitmap each, under
 one mutex.  Each method is one critical section; a bitmap is the set of its one bits.
 */
module RootAllocator {
  import opened Collections
  import opened Slab

  datatype Page = Page(address: int, used: set<nat>)

  class Root {
    const cellSize: nat     // alloc_size
    const cells: nat        // total_count
    const bits: nat         // bits in a bitmap word
    var pages: seq<Page>    // blocks

    constructor (cellSize: nat, cells: nat, bits: nat)
      requires cellSize > 0 && cells > 0 && bits > 0
      ensures Valid() && pages == [] && this.cellSize == cellSize && this.cells == cells && this.bits == bits
    {
      this.cellSize, this.cells, this.bits := cellSize, cells, bits;
      pages := [];
    }

    /** Pages do not overlap, only existing cells are in use, and no page is kept without a reason. */
    ghost predicate Valid()
      reads this
    {
      && cellSize > 0 && cells > 0 && bits > 0
      && (forall i :: 0 <= i < |pages| ==> pages[i].used != {} && forall c <- pages[i].used :: c < cells)
      && (forall i, j :: 0 <= i < j < |pages| ==> Apart(pages[i].address, pages[j].address))
    }

    ghost predicate Apart(a: int, b: int) {
      a + cellSize * cells <= b || b + cellSize * cells <= a
    }

    /** Cell `c` of page `i` is allocated. */
    ghost predicate InUse(i: int, c: int)
      reads this
    {
      0 <= i < |pages| && 0 <= c && c in pages[i].used
    }

    function CellAt(i: nat, c: nat): int
      reads this
      requires i < |pages|
    {
      pages[i].address + c * cellSize
    }

    /** The first critical section of `allocate`: take the lowest free cell of the first bitmap word
        that has one. */
    method TryAllocate() returns (found: bool, i: nat, c: nat)
      requires Valid()
      modifies this
      ensures Valid()
      ensures found ==> i < |old(pages)| && c < cells && !old(InUse(i, c))
      ensures found ==> pages == old(pages)[i := Page(old(pages)[i].address, old(pages)[i].used + {c})]
      ensures !found ==> pages == old(pages) && forall j, d :: 0 <= j < |pages| && 0 <= d < cells ==> InUse(j, d)
    {
      i, c := 0, 0;
      while i < |pages|
        invariant 0 <= i <= |pages| && pages == old(pages)
        invariant forall j, d :: 0 <= j < i && 0 <= d < cells ==> InUse(j, d)
      {
        found, c := Search(pages[i].used);
        if found {
          pages := pages[i := Page(pages[i].address, pages[i].used + {c})];
          return;
        }
        i := i + 1;
      }
      found := false;
    }

    /** The scan over the words of one bitmap. */
    method Search(used: set<nat>) returns (found: bool, c: nat)
      requires cells > 0 && bits > 0
      ensures found ==> c < cells && c !in used
      ensures !found ==> forall d :: 0 <= d < cells ==> d in used
    {
      var n := 0;
      c := 0;
      while n * bits < cells
        invariant n >= 0 && forall d :: 0 <= d < n * bits && d < cells ==> d in used
        decreases cells - n
      {
        c := FirstClear(used, n * bits, n * bits + bits);
        FirstClearFacts(used, n * bits, n * bits + bits);
        assert n * bits + bits == (n + 1) * bits;
        if c < n * bits + bits && c < cells { return true, c; }
        Grows(n, bits);
        n := n + 1;
      }
      found := false;
    }

    /** The second critical section: a page fresh from the system, its first cell taken. */
    method AddPage(address: int)
      requires Valid() && forall i :: 0 <= i < |pages| ==> Apart(pages[i].address, address)
      modifies this
      ensures Valid() && pages == old(pages) + [Page(address, {0})]
    {
      pages := pages + [Page(address, {0})];
    }

    /** `deallocate`: clear the cell's bit; a page whose last bit was cleared goes back to the system. */
    method Deallocate(p: int, ghost i: nat, ghost c: nat) returns (freed: Option<int>)
      requires Valid() && InUse(i, c) && p == CellAt(i, c)
      modifies this
      ensures Valid()
      ensures var page := old(pages)[i]; var rest := page.used - {c};
        if rest == {} then freed == Some(page.address) && pages == old(pages)[..i] + old(pages)[i + 1..]
        else freed == None && pages == old(pages)[i := Page(page.address, rest)]
    {
      var k := 0;
      Inside(p, i, c);
      while !(pages[k].address <= p < pages[k].address + cellSize * cells)
        invariant 0 <= k <= i
        decreases i - k
      {
        k := k + 1;
      }
      OnlyOne(p, k, i, c);
      var index := (p - pages[k].address) / cellSize;
      var used := pages[k].used - {index};
      if used == {} {
        freed := Some(pages[k].address);
        pages := pages[..k] + pages[k + 1..];
      } else {
        freed := None;
        pages := pages[k := Page(pages[k].address, used)];
      }
    }

    lemma Inside(p: int, i: nat, c: nat)
      requires Valid() && InUse(i, c) && p == CellAt(i, c)
      ensures pages[i].address <= p < pages[i].address + cellSize * cells
    {
      CellOrder(c, cells, cellSize);
    }

    /** An address belongs to one page and one cell only. */
    lemma OnlyOne(p: int, k: nat, i: nat, c: nat)
      requires Valid() && InUse(i, c) && p == CellAt(i, c) && k <= i
      requires pages[k].address <= p < pages[k].address + cellSize * cells
      ensures k == i && (p - pages[k].address) / cellSize == c
    {
      Inside(p, i, c);
      ModUnique(cellSize, c * cellSize, c, 0);
    }
  }

  lemma Grows(n: nat, bits: nat)
    requires bits > 0
    ensures (n + 1) * bits >= n * bits + 1
  {
  }

  lemma {:induction false} FirstClearFacts(used: set<nat>, b: nat, end: nat)
    requires b <= end
    ensures var c := FirstClear(used, b, end);
      b <= c <= end && (c < end ==> c !in used) && forall d :: b <= d < c ==> d in used
    decreases end - b
  {
    if b < end && b in used { FirstClearFacts(used, b + 1, end); }
  }

  /** Two allocated cells never share memory. */
  lemma CellsApart(r: Root, i: nat, c: nat, j: nat, d: nat)
    requires r.Valid() && r.InUse(i, c) && r.InUse(j, d) && (i, c) != (j, d)
    ensures r.CellAt(i, c) + r.cellSize <= r.CellAt(j, d) || r.CellAt(j, d) + r.cellSize <= r.CellAt(i, c)
  {
    if i == j {
      if c < d { CellOrder(c, d, r.cellSize); } else { CellOrder(d, c, r.cellSize); }
    } else {
      InsideEnd(r, i, c);
      InsideEnd(r, j, d);
    }
  }

  lemma CellOrder(c: int, d: int, size: int)
    requires c < d && size > 0
    ensures c * size + size <= d * size
  {
    Times(d - c - 1, size);
    assert d * size == c * size + size + (d - c - 1) * size;
  }

  lemma Times(k: int, size: int)
    requires k >= 0 && size >= 0
    ensures k * size >= 0
  {
  }

  lemma InsideEnd(r: Root, i: nat, c: nat)
    requires r.Valid() && r.InUse(i, c)
    ensures r.pages[i].address <= r.CellAt(i, c)
      && r.CellAt(i, c) + r.cellSize <= r.pages[i].address + r.cellSize * r.cells
  {
    CellOrder(c, r.cells, r.cellSize);
  }
}
