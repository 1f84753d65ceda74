/** The unified KV cache: one array of cells shared by all decoders, each cell tagged with the
    sequences it belongs to. */
module KvCache {
  import opened Arith

  const INT32_MAX: int := 0x7FFF_FFFF

  /** `pos < 0` marks a free cell. */
  datatype Cell = Cell(pos: int, tags: set<int>)

  const FREE := Cell(-1, {})

  /** One token of a batch; the decoder always gives it one sequence. */
  datatype Entry = Entry(token: int, pos: int, tag: int)

  ghost predicate CellsOk(cells: seq<Cell>) {
    forall i :: 0 <= i < |cells| ==> CellOk(cells[i])
  }

  /** A cell is free exactly when no sequence uses it. */
  predicate CellOk(c: Cell) { c.pos < 0 <==> c.tags == {} }

  // ---- what the operations do to one cell, and to all ----

  function FromPos(p0: int): int { if p0 < 0 then 0 else p0 }
  function ToPos(p1: int): int { if p1 < 0 then INT32_MAX else p1 }

  predicate Between(c: Cell, p0: int, p1: int) { FromPos(p0) <= c.pos < ToPos(p1) }

  /** Remove sequence `id` (every sequence when negative) from a cell; an emptied cell is freed. */
  function RmCell(c: Cell, id: int, p0: int, p1: int): Cell {
    if !Between(c, p0, p1) || (id >= 0 && id !in c.tags) then c
    else
      var tags := if id < 0 then {} else c.tags - {id};
      Cell(if tags == {} then -1 else c.pos, tags)
  }

  function CpCell(c: Cell, src: int, dst: int, p0: int, p1: int): Cell {
    if src in c.tags && Between(c, p0, p1) then Cell(c.pos, c.tags + {dst}) else c
  }

  function Rm(cells: seq<Cell>, id: int, p0: int, p1: int): (r: seq<Cell>)
    ensures |r| == |cells|
  {
    seq(|cells|, i requires 0 <= i < |cells| => RmCell(cells[i], id, p0, p1))
  }

  function Cp(cells: seq<Cell>, src: int, dst: int, p0: int, p1: int): (r: seq<Cell>)
    ensures |r| == |cells|
  {
    seq(|cells|, i requires 0 <= i < |cells| => CpCell(cells[i], src, dst, p0, p1))
  }

  /** The batch entered at `head`. */
  function Fill(cells: seq<Cell>, head: nat, batch: seq<Entry>): (r: seq<Cell>)
    requires head + |batch| <= |cells|
    ensures |r| == |cells|
  {
    seq(|cells|, i requires 0 <= i < |cells| =>
      if head <= i < head + |batch| then Cell(batch[i - head].pos, cells[i].tags + {batch[i - head].tag}) else cells[i])
  }

  lemma IsFilled(was: seq<Cell>, now: seq<Cell>, head: nat, batch: seq<Entry>)
    requires |now| == |was| && head + |batch| <= |was|
    requires forall i :: 0 <= i < |was| ==>
      now[i] == if head <= i < head + |batch| then Cell(batch[i - head].pos, was[i].tags + {batch[i - head].tag}) else was[i]
    ensures now == Fill(was, head, batch)
  {
  }

  /** `n` consecutive free cells from `s` on. */
  predicate FreeRun(cells: seq<Cell>, s: nat, n: nat) {
    s + n <= |cells| && forall i :: s <= i < s + n ==> cells[i].pos < 0
  }

  lemma RmKeepsOk(cells: seq<Cell>, id: int, p0: int, p1: int)
    requires CellsOk(cells)
    ensures CellsOk(Rm(cells, id, p0, p1))
  {
  }

  lemma CpKeepsOk(cells: seq<Cell>, src: int, dst: int, p0: int, p1: int)
    requires CellsOk(cells)
    ensures CellsOk(Cp(cells, src, dst, p0, p1))
  {
  }

  lemma FillKeepsOk(cells: seq<Cell>, head: nat, batch: seq<Entry>)
    requires CellsOk(cells) && head + |batch| <= |cells|
    requires forall k :: 0 <= k < |batch| ==> batch[k].pos >= 0
    ensures CellsOk(Fill(cells, head, batch))
  {
  }

  // ---- how much of the cache is in use ----

  /** Search down from the end for the last used cell; cell 0 counts as used in any case. */
  function LastUsed(cells: seq<Cell>, i: nat): (r: nat)
    requires i <= |cells|
    ensures 1 <= r && (i >= 1 ==> r <= i)
    ensures forall k :: r <= k < i ==> !(cells[k].pos >= 0 && cells[k].tags != {})
  {
    if i <= 1 then 1
    else if cells[i - 1].pos >= 0 && cells[i - 1].tags != {} then i
    else LastUsed(cells, i - 1)
  }

  /** Round up to a multiple of `n`. */
  function PadTo(x: nat, n: nat): (r: nat)
    requires n > 0
  {
    (x + n - 1) / n * n
  }

  lemma PadToAtLeast(x: nat, n: nat)
    requires n > 0
    ensures PadTo(x, n) >= x
  {
    var q := (x + n - 1) / n;
    assert x + n - 1 == q * n + (x + n - 1) % n;
  }

  /** The number of cells attention looks at. */
  function NKv(cells: seq<Cell>, pad: nat): nat
    requires pad > 0
  {
    Min(|cells|, Max(pad, PadTo(LastUsed(cells, |cells|), pad)))
  }

  /** The mask of `whisper_decode_internal` lets an entry attend to cell `i`. */
  predicate Admits(cells: seq<Cell>, pad: nat, e: Entry, i: nat)
    requires pad > 0
  {
    i < NKv(cells, pad) && i < |cells| && e.tag in cells[i].tags && cells[i].pos <= e.pos
  }

  /** Cutting the cache off at `NKv` hides no cell in use: the mask admits exactly the entry's own
      sequence up to its position. */
  lemma MaskIsExact(cells: seq<Cell>, pad: nat, e: Entry, i: nat)
    requires pad > 0 && CellsOk(cells) && i < |cells|
    ensures Admits(cells, pad, e, i) <==> e.tag in cells[i].tags && cells[i].pos <= e.pos
  {
    PadToAtLeast(LastUsed(cells, |cells|), pad);
    assert CellOk(cells[i]);
  }

  class Cache {
    const cells: array<Cell>
    var head: nat

    constructor (size: nat)
      ensures fresh(cells) && cells.Length == size && head == 0
      ensures cells[..] == seq(size, _ => FREE)
    {
      cells := new Cell[size](_ => FREE);
      head := 0;
    }

    method Clear()
      modifies this, cells
      ensures head == 0 && cells[..] == seq(cells.Length, _ => FREE)
      ensures CellsOk(cells[..])
    {
      for i := 0 to cells.Length
        invariant forall k :: 0 <= k < i ==> cells[k] == FREE
      {
        cells[i] := FREE;
      }
      head := 0;
    }

    /** Find room for a batch, starting at the head and wrapping around.  Sound: the batch goes to
        free cells at the head and nowhere else.  Complete: it fails, leaving every cell as it
        was, exactly when no run of that many consecutive free cells exists. */
    method FindSlot(batch: seq<Entry>) returns (found: bool)
      requires head <= cells.Length
      modifies this, cells
      ensures head <= cells.Length
      ensures found <==> exists s: nat :: FreeRun(old(cells[..]), s, |batch|)
      ensures found ==> FreeRun(old(cells[..]), head, |batch|) && cells[..] == Fill(old(cells[..]), head, batch)
      ensures !found ==> cells[..] == old(cells[..])
    {
      var n := |batch|;
      ghost var was := cells[..];
      if n > cells.Length {
        return false;
      }
      found := SearchSlot(n);
      assert cells[..] == was;
      if !found {
        return;
      }
      for k := 0 to n
        invariant forall i :: 0 <= i < cells.Length ==>
          cells[i] == if head <= i < head + k then Cell(batch[i - head].pos, was[i].tags + {batch[i - head].tag}) else was[i]
        invariant head == old(head) || head + n <= cells.Length
        invariant head + n <= cells.Length && FreeRun(was, head, n)
      {
        cells[head + k] := Cell(batch[k].pos, cells[head + k].tags + {batch[k].tag});
      }
      IsFilled(was, cells[..], head, batch);
    }

    method SearchSlot(n: nat) returns (found: bool)
      requires head <= cells.Length && n <= cells.Length
      modifies this`head
      ensures head <= cells.Length
      ensures found ==> FreeRun(cells[..], head, n)
      ensures !found ==> forall s: nat :: !FreeRun(cells[..], s, n)
    {
      var nTested := 0;
      ghost var start := head;
      ghost var laps := 0;
      while true
        invariant head <= cells.Length && 0 <= laps <= 2
        invariant laps == 0 ==> start <= head && nTested == head - start
                                && forall s: nat :: start <= s < head ==> !FreeRun(cells[..], s, n)
        invariant laps == 1 ==> nTested == cells.Length - start + head && (head == 0 || head < start)
                                && forall s: nat :: (s < head || start <= s) ==> !FreeRun(cells[..], s, n)
        invariant laps == 2 ==> nTested >= cells.Length && head == 0 && forall s: nat :: !FreeRun(cells[..], s, n)
        decreases 2 - laps, cells.Length - head
      {
        if head + n > cells.Length {
          nTested := nTested + (cells.Length - head);
          head := 0;
          laps := laps + 1;
        } else {
          var i := FirstTaken(n);
          if i == n {
            return true;
          }
          head := head + i + 1;
          nTested := nTested + i + 1;
          if nTested >= cells.Length {
            return false;
          }
        }
      }
    }

    /** The first of the `n` cells from the head on that is taken, or `n`. */
    method FirstTaken(n: nat) returns (i: nat)
      requires head + n <= cells.Length
      ensures i <= n && (i == n <==> FreeRun(cells[..], head, n))
      ensures i < n ==> head + i < cells.Length && forall s: nat :: head <= s <= head + i ==> !FreeRun(cells[..], s, n)
    {
      i := 0;
      while i < n
        invariant i <= n && forall k :: head <= k < head + i ==> cells[k].pos < 0
      {
        if cells[head + i].pos >= 0 {
          assert cells[..][head + i].pos >= 0;
          return;
        }
        i := i + 1;
      }
    }

    method CellMax() returns (n: nat)
      requires cells.Length > 0
      ensures n == LastUsed(cells[..], cells.Length)
    {
      var i := cells.Length - 1;
      while i > 0
        invariant 0 <= i < cells.Length
        invariant LastUsed(cells[..], cells.Length) == LastUsed(cells[..], i + 1)
      {
        if cells[i].pos >= 0 && cells[i].tags != {} {
          return i + 1;
        }
        i := i - 1;
      }
      return 1;
    }

    /** Remove a sequence; the head moves to the first cell this frees. */
    method SeqRm(id: int, p0: int, p1: int)
      requires head <= cells.Length
      modifies this`head, cells
      ensures head <= cells.Length && cells[..] == Rm(old(cells[..]), id, p0, p1)
      ensures forall i :: 0 <= i < cells.Length && Freed(old(cells[..])[i], cells[i]) ==> head <= i
      ensures head == old(head) || (head < cells.Length && Freed(old(cells[..])[head], cells[head]))
    {
      ghost var was := cells[..];
      var newHead: nat := cells.Length;
      var from, to := FromPos(p0), ToPos(p1);
      for i := 0 to cells.Length
        invariant forall k :: 0 <= k < cells.Length ==> cells[k] == if k < i then RmCell(was[k], id, p0, p1) else was[k]
        invariant newHead <= cells.Length && head == old(head)
        invariant newHead == cells.Length ==> forall k :: 0 <= k < i ==> !Freed(was[k], cells[k])
        invariant newHead < cells.Length ==> newHead < i && Freed(was[newHead], cells[newHead])
                                             && forall k :: 0 <= k < newHead ==> !Freed(was[k], cells[k])
      {
        var c := cells[i];
        if from <= c.pos < to && (id < 0 || id in c.tags) {
          c := Cell(c.pos, if id < 0 then {} else c.tags - {id});
          if c.tags == {} {
            c := Cell(-1, c.tags);
            if newHead == cells.Length {
              newHead := i;
            }
          }
          cells[i] := c;
        }
      }
      if newHead != cells.Length {
        head := newHead;
      }
      assert cells[..] == Rm(was, id, p0, p1);
    }

    method SeqCp(src: int, dst: int, p0: int, p1: int)
      modifies this`head, cells
      ensures head == 0 && cells[..] == Cp(old(cells[..]), src, dst, p0, p1)
    {
      ghost var was := cells[..];
      head := 0;
      for i := 0 to cells.Length
        invariant head == 0
        invariant forall k :: 0 <= k < cells.Length ==> cells[k] == if k < i then CpCell(was[k], src, dst, p0, p1) else was[k]
      {
        if src in cells[i].tags && FromPos(p0) <= cells[i].pos < ToPos(p1) {
          cells[i] := Cell(cells[i].pos, cells[i].tags + {dst});
        }
      }
      assert cells[..] == Cp(was, src, dst, p0, p1);
    }

    /** The attention mask of a batch: row `j`, cell `i` is open exactly where admitted, and the
        padding rows are closed. */
    method BuildMask(batch: seq<Entry>, pad: nat, rows: nat) returns (open: array2<bool>)
      requires pad > 0 && |batch| <= rows && cells.Length > 0
      ensures fresh(open) && open.Length0 == rows && open.Length1 == NKv(cells[..], pad) <= cells.Length
      ensures forall j, i :: 0 <= j < |batch| && 0 <= i < open.Length1 ==> (open[j, i] <==> Admits(cells[..], pad, batch[j], i))
      ensures forall j, i :: |batch| <= j < rows && 0 <= i < open.Length1 ==> !open[j, i]
    {
      var used := CellMax();
      var nKv := Min(cells.Length, Max(pad, PadTo(used, pad)));
      open := new bool[rows, nKv]((_, _) => true);
      for j := 0 to rows
        invariant forall k, i :: 0 <= k < j && 0 <= i < nKv ==>
          (open[k, i] <==> k < |batch| && Admits(cells[..], pad, batch[k], i))
        invariant forall k, i :: j <= k < rows && 0 <= i < nKv ==> open[k, i]
      {
        for i := 0 to nKv
          invariant forall k, l :: 0 <= k < j && 0 <= l < nKv ==>
            (open[k, l] <==> k < |batch| && Admits(cells[..], pad, batch[k], l))
          invariant forall l :: 0 <= l < i ==> (open[j, l] <==> j < |batch| && Admits(cells[..], pad, batch[j], l))
          invariant forall l :: i <= l < nKv ==> open[j, l]
          invariant forall k, l :: j < k < rows && 0 <= l < nKv ==> open[k, l]
        {
          if j >= |batch| || batch[j].tag !in cells[i].tags || cells[i].pos > batch[j].pos {
            open[j, i] := false;
          }
        }
      }
    }
  }

  /** The cell was in use and no longer is. */
  predicate Freed(before: Cell, after: Cell) {
    before != after && after.tags == {}
  }
}
