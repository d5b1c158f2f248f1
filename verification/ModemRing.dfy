/** The 1024-byte ring between the UART interrupt and the PPP poller. */
module ModemRing {
  const RING_SIZE: nat := 1024

  /** m_gsm_modem_buffer. */
  datatype Ring = Ring(cells: string, idxIn: nat, idxOut: nat)

  predicate WellFormedRing(r: Ring) {
    |r.cells| == RING_SIZE && r.idxIn < RING_SIZE && r.idxOut < RING_SIZE
  }

  /** The cell of the i-th byte. */
  function Slot(i: nat): (s: nat)
    ensures s < RING_SIZE
  {
    i % RING_SIZE
  }

  function Wrapped(i: nat): nat {
    if i >= RING_SIZE then 0 else i
  }

  /** One byte stored, with the zero the code puts behind it. */
  function Push(r: Ring, b: char): (s: Ring)
    requires |r.cells| == RING_SIZE && r.idxIn < RING_SIZE
    ensures |s.cells| == RING_SIZE && s.idxIn < RING_SIZE && s.idxOut == r.idxOut
  {
    var next := Wrapped(r.idxIn + 1);
    r.(cells := r.cells[r.idxIn := b][next := '\0'], idxIn := next)
  }

  /** The PPP branch of gsm_hw_layer_uart_fill_rx. */
  function PushAll(r: Ring, data: string): (s: Ring)
    requires |r.cells| == RING_SIZE && r.idxIn < RING_SIZE
    ensures |s.cells| == RING_SIZE && s.idxIn < RING_SIZE && s.idxOut == r.idxOut
  {
    if data == [] then r else Push(PushAll(r, data[..|data| - 1]), data[|data| - 1])
  }

  /** Behind the last byte written stands a zero. */
  lemma ZeroBehind(r: Ring, data: string)
    requires |r.cells| == RING_SIZE && r.idxIn < RING_SIZE && data != []
    ensures PushAll(r, data).cells[PushAll(r, data).idxIn] == '\0'
  {
  }

  /** gsm_hardware_layer_copy_ppp_buffer: the ring afterwards and the bytes copied. */
  function CopyOut(r: Ring, len: nat): (s: (Ring, string))
    requires WellFormedRing(r)
    ensures WellFormedRing(s.0) && |s.1| <= len
    ensures s.0.cells == r.cells && s.0.idxIn == r.idxIn
    decreases len
  {
    if len == 0 || r.idxOut == r.idxIn then (r, "") else
    var (rest, bytes) := CopyOut(r.(idxOut := Wrapped(r.idxOut + 1)), len - 1);
    (rest, [r.cells[r.idxOut]] + bytes)
  }

  /** The last 1023 bytes written are still in their cells. */
  predicate CellsHold(cells: string, written: string)
    requires |cells| == RING_SIZE
  {
    forall j | 0 <= j < |written| && |written| < j + RING_SIZE :: cells[Slot(j)] == written[j]
  }

  /** The ring after `written` went in and `read` bytes came out: the indices are the counts
      modulo 1024. */
  predicate Represents(r: Ring, written: string, read: nat) {
    && WellFormedRing(r) && read <= |written|
    && r.idxIn == Slot(|written|) && r.idxOut == Slot(read)
    && CellsHold(r.cells, written)
  }

  /** How many bytes a reader finds. */
  function Readable(written: string, read: nat): nat
    requires read <= |written|
  {
    (|written| - read) % 1024
  }

  lemma EmptyRepresents()
    ensures Represents(Ring(seq(RING_SIZE, _ => '\0'), 0, 0), "", 0)
  {
  }

  lemma PushRepresents(r: Ring, written: string, read: nat, b: char)
    requires Represents(r, written, read)
    ensures Represents(Push(r, b), written + [b], read)
  {
    hide Slot;
    SlotNext(|written|);
    forall j | 0 <= j < |written| && |written| + 1 < j + RING_SIZE
      ensures Slot(j) != Slot(|written|) && Slot(j) != Slot(|written| + 1)
    {
      SlotsDiffer(j, |written|);
      SlotsDiffer(j, |written| + 1);
    }
    SlotsDiffer(|written|, |written| + 1);
  }

  lemma {:induction false} PushAllRepresents(r: Ring, written: string, read: nat, data: string)
    requires Represents(r, written, read)
    ensures Represents(PushAll(r, data), written + data, read)
    decreases |data|
  {
    if data == [] {
      assert written + data == written;
    } else {
      var front := data[..|data| - 1];
      PushAllRepresents(r, written, read, front);
      PushRepresents(PushAll(r, front), written + front, read, data[|data| - 1]);
      assert written + front + [data[|data| - 1]] == written + data;
    }
  }

  lemma {:induction false} PushAllJoins(r: Ring, a: string, b: string)
    requires |r.cells| == RING_SIZE && r.idxIn < RING_SIZE
    ensures PushAll(PushAll(r, a), b) == PushAll(r, a + b)
    decreases |b|
  {
    if b == [] {
      assert a + b == a;
    } else {
      PushAllJoins(r, a, b[..|b| - 1]);
      assert (a + b)[..|a + b| - 1] == a + b[..|b| - 1];
    }
  }

  lemma SlotNext(i: nat)
    ensures Slot(i + 1) == Wrapped(Slot(i) + 1)
  {
  }

  /** Bytes less than 1024 apart have different cells. */
  lemma SlotsDiffer(i: nat, j: nat)
    requires i < j < i + RING_SIZE
    ensures Slot(i) != Slot(j)
  {
  }

  lemma SlotsOfReader(written: nat, read: nat)
    requires read <= written
    ensures var n := (written - read) % RING_SIZE;
            && n <= written && Slot(written - n) == Slot(read)
            && (n == 0 <==> Slot(read) == Slot(written))
            && (n > 0 ==> read < written && (written - (read + 1)) % RING_SIZE == n - 1)
  {
    var q, n := (written - read) / RING_SIZE, (written - read) % RING_SIZE;
    assert written - n == read + RING_SIZE * q;
    SlotTurns(read, q);
    if n > 0 {
      SlotsDiffer(written - n, written);
      assert written - (read + 1) == RING_SIZE * q + (n - 1);
    }
  }

  /** Whole turns lead back to the same cell. */
  lemma SlotTurns(i: nat, q: nat)
    ensures Slot(i + RING_SIZE * q) == Slot(i)
  {
  }

  /** One read step of a ring that is not empty. */
  lemma ReadOne(r: Ring, written: string, read: nat)
    requires Represents(r, written, read)
    ensures Readable(written, read) <= |written|
    ensures Readable(written, read) == 0 <==> r.idxOut == r.idxIn
    ensures Readable(written, read) > 0 ==>
              && Represents(r.(idxOut := Wrapped(r.idxOut + 1)), written, read + 1)
              && Readable(written, read + 1) == Readable(written, read) - 1
              && r.cells[r.idxOut] == written[|written| - Readable(written, read)]
  {
    hide Slot;
    SlotsOfReader(|written|, read);
    SlotNext(read);
    var n := Readable(written, read);
    if n > 0 {
      assert r.cells[Slot(|written| - n)] == written[|written| - n];
    }
  }

  /** One turn of the copy. */
  lemma CopyUnfolds(r: Ring, len: nat)
    requires WellFormedRing(r)
    ensures len == 0 || r.idxOut == r.idxIn ==> CopyOut(r, len) == (r, "")
    ensures len > 0 && r.idxOut != r.idxIn ==>
              var rest := CopyOut(r.(idxOut := Wrapped(r.idxOut + 1)), len - 1);
              CopyOut(r, len) == (rest.0, [r.cells[r.idxOut]] + rest.1)
  {
  }

  /** Ring exactness, overrun included. Whatever was written and read before, a reader gets
      the first min(len, n) of the last n bytes written, n = (written - read) mod 1024. */
  lemma {:induction false} CopyIsExact(r: Ring, written: string, read: nat, len: nat)
    requires Represents(r, written, read)
    ensures var n := Readable(written, read);
            var m := if len < n then len else n;
            && CopyOut(r, len).1 == written[|written| - n..|written| - n + m]
            && Represents(CopyOut(r, len).0, written, read + m)
    decreases len
  {
    hide CellsHold, Readable, Slot, CopyOut;
    var n := Readable(written, read);
    ReadOne(r, written, read);
    CopyUnfolds(r, len);
    if len > 0 && n > 0 {
      CopyIsExact(r.(idxOut := Wrapped(r.idxOut + 1)), written, read + 1, len - 1);
      var first := |written| - n;
      var m := if len < n then len else n;
      assert written[first..first + m] == [written[first]] + written[first + 1..first + m];
    }
  }

  /** There is no full check: nothing is lost exactly while at most 1023 bytes are unread. */
  lemma LosslessIff(r: Ring, written: string, read: nat)
    requires Represents(r, written, read)
    ensures CopyOut(r, 1024).1 == written[read..] <==> |written| - read < 1024
  {
    hide CellsHold, CopyOut, Slot;
    CopyIsExact(r, written, read, 1024);
  }

  /** m_gsm_modem_buffer and the two functions that use it. */
  class ModemBuffer {
    const buffer: array<char>
    var idxIn: nat
    var idxOut: nat

    ghost var written: string
    ghost var read: nat

    ghost function View(): Ring
      reads this, buffer
    {
      Ring(buffer[..], idxIn, idxOut)
    }

    ghost predicate Valid()
      reads this, buffer
    {
      Represents(View(), written, read)
    }

    constructor ()
      ensures Valid() && fresh(buffer) && written == "" && read == 0
    {
      buffer := new char[RING_SIZE](_ => '\0');
      idxIn, idxOut, written, read := 0, 0, "", 0;
      new;
      assert buffer[..] == seq(RING_SIZE, _ => '\0');
      EmptyRepresents();
    }

    /** The byte loop of gsm_hw_layer_uart_fill_rx in PPP mode. */
    method FillRx(data: string)
      requires Valid()
      modifies this, buffer
      ensures Valid() && View() == PushAll(old(View()), data)
      ensures written == old(written) + data && read == old(read)
    {
      for i := 0 to |data|
        invariant View() == PushAll(old(View()), data[..i])
        invariant buffer.Length == RING_SIZE && idxIn < RING_SIZE
        invariant written == old(written) && read == old(read)
      {
        assert data[..i + 1][..i] == data[..i];
        buffer[idxIn] := data[i];
        idxIn := idxIn + 1;
        if idxIn >= RING_SIZE {
          idxIn := 0;
        }
        buffer[idxIn] := '\0';
      }
      assert data[..|data|] == data;
      PushAllRepresents(old(View()), written, read, data);
      written := written + data;
    }

    /** gsm_hardware_layer_copy_ppp_buffer. */
    method CopyPppBuffer(data: array<char>, len: nat) returns (count: nat)
      requires Valid() && len <= data.Length && data != buffer
      modifies this, data
      ensures Valid() && written == old(written) && read == old(read) + count
      ensures var n := Readable(old(written), old(read));
              && count == (if len < n then len else n)
              && data[..count] == written[|written| - n..|written| - n + count]
      ensures View() == CopyOut(old(View()), len).0
      ensures forall k | count <= k < data.Length :: data[k] == old(data[k])
    {
      hide CellsHold, CopyOut, Readable, Slot;
      CopyIsExact(View(), written, read, len);
      ReadOne(View(), written, read);
      count := CopyBytes(data, len);
      read := read + count;
    }

    /** Its loop: the bytes between the two indices, in order. */
    method CopyBytes(data: array<char>, len: nat) returns (count: nat)
      requires WellFormedRing(View()) && len <= data.Length && data != buffer
      modifies `idxOut, data
      ensures count <= len && View() == CopyOut(old(View()), len).0
      ensures data[..count] == CopyOut(old(View()), len).1
      ensures forall k | count <= k < data.Length :: data[k] == old(data[k])
    {
      hide CopyOut;
      ghost var out, taken := CopyOut(View(), len), "";
      count := 0;
      while count < len
        invariant count <= len && idxOut < RING_SIZE && View() == old(View()).(idxOut := idxOut)
        invariant out.0 == CopyOut(View(), len - count).0
        invariant out.1 == taken + CopyOut(View(), len - count).1
        invariant |taken| == count && forall k | 0 <= k < count :: data[k] == taken[k]
        invariant forall k | count <= k < data.Length :: data[k] == old(data[k])
      {
        CopyUnfolds(View(), len - count);
        if idxOut == idxIn {
          break;
        }
        data[count] := buffer[idxOut];
        taken := taken + [buffer[idxOut]];
        idxOut := idxOut + 1;
        if idxOut == RING_SIZE {
          idxOut := 0;
        }
        count := count + 1;
      }
      CopyUnfolds(View(), len - count);
      assert data[..count] == taken;
    }
  }
}
