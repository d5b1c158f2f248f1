/** usart1_rx_complete_callback and the router it feeds, in their own form. */
module UsartDevice {
  import opened ModemRing
  import opened DmaRx
  import opened BringUp
  import opened GsmDevice
  import opened ReceivePath

  /** The receive side of usart.c: the buffer the DMA writes and the position drained so far. */
  class Usart {
    const rxBuffer: array<char>
    var oldPos: nat
    const layer: DataLayer
    const modemBuffer: ModemBuffer

    ghost predicate Valid()
      reads this, layer, layer.at, layer.ids, modemBuffer, modemBuffer.buffer
    {
      && rxBuffer.Length == RX_SIZE && oldPos <= RX_SIZE
      && layer.Valid() && modemBuffer.Valid()
      && rxBuffer != modemBuffer.buffer && rxBuffer != layer.at.buffer && modemBuffer.buffer != layer.at.buffer
    }

    constructor ()
      ensures Valid() && oldPos == 0
      ensures layer.View() == Initial() && modemBuffer.written == "" && modemBuffer.read == 0
    {
      rxBuffer := new char[RX_SIZE](_ => '\0');
      oldPos := 0;
      layer := new DataLayer();
      modemBuffer := new ModemBuffer();
    }

    /** gsm_hw_layer_uart_fill_rx. */
    method UartFillRx(data: string)
      requires Valid()
      modifies layer.at, layer.at.buffer, modemBuffer, modemBuffer.buffer
      ensures Valid()
      ensures (layer.View(), modemBuffer.View()) == Route(old(layer.View()), old(modemBuffer.View()), data)
    {
      hide Uart, CellsHold;
      ghost var ring := modemBuffer.View();
      if |data| > 0 && layer.mode.PppStack? {
        modemBuffer.FillRx(data);
      } else {
        assert data == [] ==> PushAll(ring, data) == ring by { PushNothing(ring); }
      }
      layer.UartFillRx(data);
    }

    /** usart1_rx_complete_callback for the count the DMA still has to go. A false status only
        clears the reception flag, which nothing modelled here reads. */
    method RxCompleteCallback(status: bool, remaining: nat)
      requires Valid() && remaining <= RX_SIZE
      modifies this, layer.at, layer.at.buffer, modemBuffer, modemBuffer.buffer
      ensures Valid() && rxBuffer[..] == old(rxBuffer[..])
      ensures var pos := RX_SIZE - remaining;
              var chunks := if status then Chunks(rxBuffer[..], old(oldPos), pos) else [];
              && oldPos == (if status then pos else old(oldPos))
              && (layer.View(), modemBuffer.View())
                 == RouteAll(old(layer.View()), old(modemBuffer.View()), chunks)
    {
      hide Route, RouteAll, CellsHold;
      ghost var g, r, cells, last := layer.View(), modemBuffer.View(), rxBuffer[..], oldPos;
      RouteUnrolled(g, r, "", "");
      if status {
        var pos := RX_SIZE - remaining;
        if pos != oldPos {
          if pos > oldPos {
            RouteUnrolled(g, r, cells[last..pos], "");
            assert rxBuffer[oldPos..pos] == cells[last..pos];
            UartFillRx(rxBuffer[oldPos..pos]);
          } else {
            RouteUnrolled(g, r, cells[last..], cells[..pos]);
            assert rxBuffer[oldPos..RX_SIZE] == cells[last..];
            UartFillRx(rxBuffer[oldPos..RX_SIZE]);
            if pos > 0 {
              assert rxBuffer[..pos] == cells[..pos];
              UartFillRx(rxBuffer[..pos]);
            }
          }
          oldPos := pos;
        }
        assert rxBuffer[..] == cells;
      }
    }

    /** gsm_hw_pppos_polling: what is passed to pppos_input, nothing if it is empty. */
    method PppPolling() returns (input: string)
      requires Valid()
      modifies modemBuffer
      ensures Valid() && layer.View() == old(layer.View()) && modemBuffer.written == old(modemBuffer.written)
      ensures |input| <= SIO_SIZE && modemBuffer.read == old(modemBuffer.read) + |input|
      ensures var n := Readable(modemBuffer.written, old(modemBuffer.read));
              input == modemBuffer.written[|modemBuffer.written| - n..][..if n < SIO_SIZE then n else SIO_SIZE]
    {
      hide CellsHold, CopyOut, Readable;
      var rxBytes := new char[SIO_SIZE](_ => '\0');
      ReadOne(modemBuffer.View(), modemBuffer.written, modemBuffer.read);
      var size := modemBuffer.CopyPppBuffer(rxBytes, SIO_SIZE);
      input := rxBytes[..size];
    }

    /** The receive half of DMA1_Channel2_3_IRQHandler: the half-transfer flag and then the
        transfer-complete or error flag are each answered by a drain. Both at once drain the
        same bytes once. */
    method DmaInterrupt(half: bool, complete: bool, error: bool, remaining: nat)
      requires Valid() && remaining <= RX_SIZE
      modifies this, layer.at, layer.at.buffer, modemBuffer, modemBuffer.buffer
      ensures Valid() && rxBuffer[..] == old(rxBuffer[..])
      ensures var pos, drains := RX_SIZE - remaining, half || complete;
              var chunks := if drains then Chunks(rxBuffer[..], old(oldPos), pos) else [];
              && oldPos == (if drains then pos else old(oldPos))
              && (layer.View(), modemBuffer.View())
                 == RouteAll(old(layer.View()), old(modemBuffer.View()), chunks)
    {
      hide Route, CellsHold;
      if half {
        RxCompleteCallback(true, remaining);
      }
      ghost var g, r := layer.View(), modemBuffer.View();
      assert RouteAll(g, r, []) == (g, r);
      if complete {
        RxCompleteCallback(true, remaining);
      } else if error {
        RxCompleteCallback(false, remaining);
      }
    }
  }

  /** Routing one chunk and routing two. */
  lemma RouteUnrolled(g: Gsm, ring: Ring, a: string, b: string)
    requires WellFormedGsm(g) && |ring.cells| == RING_SIZE && ring.idxIn < RING_SIZE
    ensures RouteAll(g, ring, []) == (g, ring)
    ensures RouteAll(g, ring, [a]) == Route(g, ring, a)
    ensures RouteAll(g, ring, [a, b]) == Route(Route(g, ring, a).0, Route(g, ring, a).1, b)
  {
    hide Route;
    var next := Route(g, ring, a);
    var last := Route(next.0, next.1, b);
    assert [a][1..] == [] && [b][1..] == [] && [a, b][1..] == [b];
    assert RouteAll(next.0, next.1, []) == next && RouteAll(last.0, last.1, []) == last;
    assert RouteAll(next.0, next.1, [b]) == last;
  }

  lemma PushNothing(ring: Ring)
    requires |ring.cells| == RING_SIZE && ring.idxIn < RING_SIZE
    ensures PushAll(ring, "") == ring
  {
  }
}
