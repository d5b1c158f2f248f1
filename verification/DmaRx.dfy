/** The circular DMA buffer of USART1 and the drain that cuts it into chunks. */
module DmaRx {
  const RX_SIZE: nat := 768
  const HALF: nat := 384

  /** The DMA channel as the interrupt handlers see it: the buffer, the position counter
      (buffer size minus remaining count, so 768 before the counter reloads and 0 after), and
      the pending half-transfer and transfer-complete flags. */
  datatype Dma = Dma(cells: string, pos: nat, half: bool, complete: bool)

  predicate WellFormedDma(d: Dma) {
    |d.cells| == RX_SIZE && d.pos <= RX_SIZE
  }

  /** The cell of the i-th received byte. */
  function Cell(i: nat): (c: nat)
    ensures c < RX_SIZE
  {
    i % RX_SIZE
  }

  /** Where the next byte goes. */
  function Target(d: Dma): nat {
    if d.pos == RX_SIZE then 0 else d.pos
  }

  /** The hardware stores one byte. */
  function Arrive(d: Dma, b: char): (r: Dma)
    requires WellFormedDma(d)
    ensures WellFormedDma(r)
  {
    var pos := Target(d) + 1;
    Dma(d.cells[Target(d) := b], pos, d.half || pos == HALF, d.complete || pos == RX_SIZE)
  }

  /** The counter reloads after its last byte. */
  function Reload(d: Dma): Dma {
    if d.pos == RX_SIZE then d.(pos := 0) else d
  }

  /** The chunks usart1_rx_complete_callback hands on, from the saved to the sampled position. */
  function Chunks(cells: string, last: nat, pos: nat): seq<string>
    requires |cells| == RX_SIZE && last <= RX_SIZE && pos <= RX_SIZE
  {
    if pos == last then []
    else if pos > last then [cells[last..pos]]
    else if pos > 0 then [cells[last..], cells[..pos]]
    else [cells[last..]]
  }

  function Flatten(chunks: seq<string>): string {
    if chunks == [] then "" else chunks[0] + Flatten(chunks[1..])
  }

  /** The buffer holds the last 768 bytes of the stream, in their cells. */
  predicate Holds(d: Dma, uart: string) {
    && WellFormedDma(d)
    && (if d.pos == RX_SIZE then Cell(|uart|) == 0 else Cell(|uart|) == d.pos)
    && forall j | 0 <= j < |uart| && |uart| <= j + RX_SIZE :: d.cells[Cell(j)] == uart[j]
  }

  /** The saved position stands for the first `drained` bytes of the stream. */
  predicate Saved(d: Dma, last: nat, uart: string, drained: nat) {
    && last <= RX_SIZE && drained <= |uart|
    && (if last == RX_SIZE then Cell(drained) == 0 else Cell(drained) == last)
    && (drained == |uart| ==> d.pos == last || (last == RX_SIZE && d.pos == 0))
  }

  lemma CellNext(i: nat)
    ensures Cell(i + 1) == if Cell(i) + 1 == RX_SIZE then 0 else Cell(i) + 1
  {
  }

  lemma CellsDiffer(i: nat, j: nat)
    requires i < j < i + RX_SIZE
    ensures Cell(i) != Cell(j)
  {
  }

  /** Within one turn of the buffer, cells are consecutive up to one wrap. */
  lemma CellAhead(i: nat, k: nat)
    requires k <= RX_SIZE
    ensures Cell(i + k) == if Cell(i) + k < RX_SIZE then Cell(i) + k
                           else if Cell(i) + k < 2 * RX_SIZE then Cell(i) + k - RX_SIZE
                           else Cell(i) + k - 2 * RX_SIZE
  {
  }

  lemma StartHolds()
    ensures Holds(Dma(seq(RX_SIZE, _ => '\0'), 0, false, false), "")
    ensures Saved(Dma(seq(RX_SIZE, _ => '\0'), 0, false, false), 0, "", 0)
  {
  }

  lemma ArriveHolds(d: Dma, last: nat, uart: string, drained: nat, b: char)
    requires Holds(d, uart) && Saved(d, last, uart, drained)
    ensures Holds(Arrive(d, b), uart + [b]) && Saved(Arrive(d, b), last, uart + [b], drained)
  {
    hide Cell;
    CellNext(|uart|);
    forall j | 0 <= j < |uart| && |uart| + 1 <= j + RX_SIZE ensures Cell(j) != Cell(|uart|) {
      CellsDiffer(j, |uart|);
    }
  }

  lemma ReloadHolds(d: Dma, last: nat, uart: string, drained: nat)
    requires Holds(d, uart) && Saved(d, last, uart, drained)
    ensures Holds(Reload(d), uart) && Saved(Reload(d), last, uart, drained)
  {
    hide Cell;
  }

  lemma DrainSaved(d: Dma, uart: string)
    requires Holds(d, uart)
    ensures Saved(d, d.pos, uart, |uart|)
  {
    hide Cell;
  }

  /** A stretch of cells is a stretch of the stream. */
  lemma Stretch(d: Dma, uart: string, from: nat, until: nat, cell: nat)
    requires Holds(d, uart) && from <= until <= |uart| && |uart| <= from + RX_SIZE
    requires cell + (until - from) <= RX_SIZE
    requires until > from ==> Cell(from) == cell
    ensures d.cells[cell..cell + (until - from)] == uart[from..until]
  {
    hide Cell;
    var s, t := d.cells[cell..cell + (until - from)], uart[from..until];
    forall k | 0 <= k < |s| ensures s[k] == t[k] {
      CellAhead(from, k);
      assert d.cells[Cell(from + k)] == uart[from + k];
    }
  }

  lemma FlattenTwo(a: string, b: string)
    ensures Flatten([a]) == a && Flatten([a, b]) == a + b && Flatten([]) == ""
  {
    assert [a][1..] == [] && [a, b][1..] == [b];
    assert Flatten([b]) == b by { assert [b][1..] == []; }
  }

  /** With fewer than 768 new bytes since the last drain the chunks are exactly those bytes,
      in order, whether or not the buffer wrapped and on either side of the reload. */
  lemma DrainIsExact(d: Dma, last: nat, uart: string, drained: nat)
    requires Holds(d, uart) && Saved(d, last, uart, drained) && |uart| - drained < RX_SIZE
    ensures Flatten(Chunks(d.cells, last, d.pos)) == uart[drained..]
  {
    hide Cell, Holds, Saved;
    DrainGeometry(d, last, uart, drained);
    if d.pos > last {
      Stretch(d, uart, drained, |uart|, last);
      FlattenTwo(d.cells[last..d.pos], "");
    } else if d.pos < last {
      WrappedDrain(d, last, uart, drained);
      FlattenTwo(d.cells[last..], d.cells[..d.pos]);
    } else {
      FlattenTwo("", "");
    }
  }

  /** A drain that wraps: the end of the buffer and then its beginning. */
  lemma WrappedDrain(d: Dma, last: nat, uart: string, drained: nat)
    requires Holds(d, uart) && Saved(d, last, uart, drained) && |uart| - drained < RX_SIZE
    requires d.pos < last
    ensures WellFormedDma(d) && last <= RX_SIZE && drained <= |uart|
    ensures d.cells[last..] + d.cells[..d.pos] == uart[drained..]
  {
    hide Cell, Holds, Saved;
    DrainGeometry(d, last, uart, drained);
    var turn := drained + (RX_SIZE - last);
    Stretch(d, uart, drained, turn, last);
    Stretch(d, uart, turn, |uart|, 0);
    assert d.cells[last..last + (turn - drained)] == d.cells[last..];
    assert d.cells[0..0 + (|uart| - turn)] == d.cells[..d.pos];
    assert uart[drained..] == uart[drained..turn] + uart[turn..];
  }

  /** How the sampled position, the saved one and the gap fit together. */
  lemma DrainGeometry(d: Dma, last: nat, uart: string, drained: nat)
    requires Holds(d, uart) && Saved(d, last, uart, drained) && |uart| - drained < RX_SIZE
    ensures WellFormedDma(d) && last <= RX_SIZE && drained <= |uart|
    ensures d.pos == last ==> drained == |uart|
    ensures d.pos > last ==> d.pos == last + (|uart| - drained) && Cell(drained) == last
    ensures d.pos < last ==> d.pos == last + (|uart| - drained) - RX_SIZE
                             && (last < RX_SIZE ==> Cell(drained) == last)
                             && (d.pos > 0 ==> Cell(drained + (RX_SIZE - last)) == 0)
  {
    var gap := |uart| - drained;
    CellAhead(drained, gap);
    if last <= RX_SIZE {
      CellAhead(drained, RX_SIZE - last);
    }
  }

  /** The exact condition: the drain is lossless when fewer than 768 bytes came since the last
      one, or exactly 768 in one straight turn sampled before the reload; never otherwise. */
  lemma DrainLosslessIff(d: Dma, last: nat, uart: string, drained: nat)
    requires Holds(d, uart) && Saved(d, last, uart, drained)
    ensures Flatten(Chunks(d.cells, last, d.pos)) == uart[drained..]
            <==> |uart| - drained < 768 || (|uart| - drained == 768 && last == 0 && d.pos == 768)
  {
    hide Cell;
    var gap := |uart| - drained;
    if gap < RX_SIZE {
      DrainIsExact(d, last, uart, drained);
    } else {
      FlattenTwo(d.cells[last..], d.cells[..d.pos]);
      if d.pos > last {
        FlattenTwo(d.cells[last..d.pos], "");
      }
      if gap == RX_SIZE && last == 0 && d.pos == RX_SIZE {
        Stretch(d, uart, drained, |uart|, 0);
      }
    }
  }

  /** The byte that completes a half finds both flags served. */
  predicate InTime(d: Dma) {
    (Target(d) + 1 == HALF || Target(d) + 1 == RX_SIZE) ==> !d.half && !d.complete
  }

  /** At most one flag is pending, and the last drain is no older than the half before it. */
  predicate Served(d: Dma, uart: string, drained: nat) {
    var boundary := |uart| / HALF * HALF;
    drained >= if d.half || d.complete then boundary - HALF else boundary
  }

  /** If each half-transfer and transfer-complete interrupt is served before the next half
      fills, fewer than 768 bytes ever wait. */
  lemma ServedInTime(d: Dma, uart: string, drained: nat, b: char)
    requires Holds(d, uart) && Served(d, uart, drained) && InTime(d)
    ensures Served(Arrive(d, b), uart + [b], drained)
    ensures |uart + [b]| - drained < RX_SIZE
  {
    var n := |uart|;
    assert Target(d) == n % RX_SIZE;
    assert (Target(d) + 1 == HALF || Target(d) + 1 == RX_SIZE) <==> (n + 1) % HALF == 0;
    assert (n + 1) / HALF == n / HALF + (if (n + 1) % HALF == 0 then 1 else 0);
  }

  /** What DMA1_Channel2_3_IRQHandler does to the flags: each branch that it takes clears its
      flag, and transfer-complete clears them all. */
  function FlagsServed(d: Dma): Dma {
    d.(half := false, complete := false)
  }

  lemma HandlerServes(d: Dma, uart: string)
    ensures Served(FlagsServed(d), uart, |uart|) && Served(d, uart, |uart|)
  {
  }
}
