/** The whole receive path as one transition system: DMA arrivals, interrupt drains, the
    router, the ring, the poller that reads it in small steps, and the bring-up machine. */
module ReceivePath {
  import opened ModemRing
  import opened DmaRx
  import opened BringUp
  import Coherence
  import EngineSafety
  import Deliveries
  import PowerCycle
  import BringUpCost
  import Runs

  const SIO_SIZE: nat := 512

  /** Where gsm_hw_pppos_polling stands inside gsm_hardware_layer_copy_ppp_buffer. An interrupt
      may come between any two of these points; idx_out is 1024 for a moment before Wrap. */
  datatype Pc = Outside | Check | Fetch | Advance | Wrap | Deliver

  /** The program and its history: everything received, how much of it is drained, what went
      to the AT reply buffer and what was passed to pppos_input. */
  datatype Sys = Sys(dma: Dma, last: nat, ring: Ring, pc: Pc, got: string, gsm: Gsm,
                     uart: string, drained: nat, atSink: string, delivered: string)

  datatype Action =
    | ByteArrives(b: char)
    | CounterReloads
    | DmaInterrupt
    | IdleInterrupt
    | ReaderMoves
    | MainLoop(step: Step)

  predicate WellFormedSys(s: Sys) {
    && WellFormedDma(s.dma) && s.last <= RX_SIZE
    && |s.ring.cells| == RING_SIZE && s.ring.idxIn < RING_SIZE
    && (s.ring.idxOut < RING_SIZE || (s.pc.Wrap? && s.ring.idxOut == RING_SIZE))
    && WellFormedGsm(s.gsm)
  }

  /** gsm_hw_layer_uart_fill_rx for one chunk: what becomes of the machine and of the ring. */
  function Route(g: Gsm, ring: Ring, chunk: string): (r: (Gsm, Ring))
    requires WellFormedGsm(g) && |ring.cells| == RING_SIZE && ring.idxIn < RING_SIZE
    ensures WellFormedGsm(r.0) && r.0.manager == g.manager
    ensures |r.1.cells| == RING_SIZE && r.1.idxIn < RING_SIZE && r.1.idxOut == ring.idxOut
  {
    (Uart(g, chunk), if g.manager.mode.PppStack? then PushAll(ring, chunk) else ring)
  }

  function RouteAll(g: Gsm, ring: Ring, chunks: seq<string>): (r: (Gsm, Ring))
    requires WellFormedGsm(g) && |ring.cells| == RING_SIZE && ring.idxIn < RING_SIZE
    ensures WellFormedGsm(r.0) && r.0.manager == g.manager
    ensures |r.1.cells| == RING_SIZE && r.1.idxIn < RING_SIZE && r.1.idxOut == ring.idxOut
    decreases |chunks|
  {
    if chunks == [] then (g, ring)
    else RouteAll(Route(g, ring, chunks[0]).0, Route(g, ring, chunks[0]).1, chunks[1..])
  }

  /** usart1_rx_complete_callback(true). */
  function Drain(s: Sys): (r: Sys)
    requires WellFormedSys(s)
    ensures WellFormedSys(r)
  {
    var chunks := Chunks(s.dma.cells, s.last, s.dma.pos);
    var (gsm, ring) := RouteAll(s.gsm, s.ring, chunks);
    s.(gsm := gsm, ring := ring, last := s.dma.pos, drained := |s.uart|,
       atSink := if s.gsm.manager.mode.PppStack? then s.atSink else s.atSink + Flatten(chunks))
  }

  /** One step of the poller. */
  function Read(s: Sys): (r: Sys)
    requires WellFormedSys(s)
    ensures WellFormedSys(r)
  {
    match s.pc
    case Outside => s.(pc := Check, got := "")
    case Check =>
      s.(pc := if |s.got| == SIO_SIZE || s.ring.idxOut == s.ring.idxIn then Deliver else Fetch)
    case Fetch => s.(pc := Advance, got := s.got + [s.ring.cells[s.ring.idxOut]])
    case Advance => s.(pc := Wrap, ring := s.ring.(idxOut := s.ring.idxOut + 1))
    case Wrap =>
      s.(pc := Check, ring := s.ring.(idxOut := if s.ring.idxOut == RING_SIZE then 0 else s.ring.idxOut))
    case Deliver => s.(pc := Outside, delivered := s.delivered + s.got, got := "")
  }

  function Act(s: Sys, a: Action): (r: Sys)
    requires WellFormedSys(s)
    ensures WellFormedSys(r)
  {
    match a
    case ByteArrives(b) => s.(dma := Arrive(s.dma, b), uart := s.uart + [b])
    case CounterReloads => s.(dma := Reload(s.dma))
    case DmaInterrupt =>
      if s.dma.half || s.dma.complete then Drain(s.(dma := FlagsServed(s.dma))) else s
    case IdleInterrupt => Drain(s)
    case ReaderMoves => Read(s)
    case MainLoop(step) => s.(gsm := Next(s.gsm, step))
  }

  /** Ring bytes not yet fetched if the interrupt drained now. */
  function UnreadAfterDrain(s: Sys): int {
    |s.uart| - |s.atSink| - |s.delivered| - |s.got|
  }

  /** The two assumptions on load: fewer than 768 bytes between drains, and at most 1023 bytes
      unread in the ring after one. Everything else may happen at any time. */
  predicate Possible(s: Sys, a: Action) {
    match a
    case ByteArrives(_) => |s.uart| + 1 - s.drained < 768
    case DmaInterrupt => s.gsm.manager.mode.PppStack? ==> UnreadAfterDrain(s) < 1024
    case IdleInterrupt => s.gsm.manager.mode.PppStack? ==> UnreadAfterDrain(s) < 1024
    case MainLoop(step) => !step.UartStep? && Enabled(s.gsm, step)
    case CounterReloads => true
    case ReaderMoves => true
  }

  /** The bytes that have gone into the ring. */
  function Written(s: Sys): string
    requires |s.atSink| <= s.drained <= |s.uart|
  {
    s.uart[|s.atSink|..s.drained]
  }

  /** The ring and the half-finished read at the point where the poller stands. */
  predicate ReaderFits(ring: Ring, pc: Pc, got: string, delivered: string, written: string) {
    var n := |delivered| + |got|;
    && n <= |written| && |written| - n < RING_SIZE && delivered + got == written[..n]
    && |got| <= SIO_SIZE && (pc.Fetch? ==> |got| < SIO_SIZE)
    && match pc
       case Outside => Represents(ring, written, n) && got == ""
       case Check => Represents(ring, written, n)
       case Fetch => Represents(ring, written, n) && n < |written|
       case Advance => n >= 1 && Represents(ring, written, n - 1)
       case Wrap => 1 <= ring.idxOut <= RING_SIZE && Represents(ring.(idxOut := Wrapped(ring.idxOut)), written, n)
       case Deliver => Represents(ring, written, n)
  }

  /** The stream invariant. */
  predicate StreamFits(s: Sys) {
    && Holds(s.dma, s.uart) && Saved(s.dma, s.last, s.uart, s.drained)
    && |s.uart| - s.drained < RX_SIZE
    && |s.atSink| <= s.drained && s.atSink == s.uart[..|s.atSink|]
    && (s.gsm.manager.mode.AtStack? ==> |s.atSink| == s.drained)
    && ReaderFits(s.ring, s.pc, s.got, s.delivered, Written(s))
  }

  predicate Sound(s: Sys) {
    WellFormedSys(s) && StreamFits(s) && Runs.Rests(s.gsm)
  }

  /** Where the poller stands after a move, by where it stood. */
  predicate MovedFits(s: Sys)
    requires WellFormedSys(s) && |s.atSink| <= s.drained <= |s.uart|
  {
    var r := Read(s);
    ReaderFits(r.ring, r.pc, r.got, r.delivered, Written(s))
  }

  lemma CheckFits(s: Sys)
    requires WellFormedSys(s) && |s.atSink| <= s.drained <= |s.uart| && s.pc.Check?
    requires ReaderFits(s.ring, s.pc, s.got, s.delivered, Written(s))
    ensures MovedFits(s)
  {
    hide CellsHold, Slot, Written;
    ReadOne(s.ring, Written(s), |s.delivered| + |s.got|);
    SmallReadable(Written(s), |s.delivered| + |s.got|);
  }

  lemma FetchFits(s: Sys)
    requires WellFormedSys(s) && |s.atSink| <= s.drained <= |s.uart| && s.pc.Fetch?
    requires ReaderFits(s.ring, s.pc, s.got, s.delivered, Written(s))
    ensures MovedFits(s)
  {
    hide CellsHold, Slot, Written;
    var written, n := Written(s), |s.delivered| + |s.got|;
    ReadOne(s.ring, written, n);
    SmallReadable(written, n);
    assert written[..n + 1] == written[..n] + [written[n]];
    assert s.delivered + (s.got + [written[n]]) == (s.delivered + s.got) + [written[n]];
  }

  lemma OtherFits(s: Sys)
    requires WellFormedSys(s) && |s.atSink| <= s.drained <= |s.uart| && !s.pc.Check? && !s.pc.Fetch?
    requires ReaderFits(s.ring, s.pc, s.got, s.delivered, Written(s))
    ensures MovedFits(s)
  {
    hide CellsHold, Slot, Written;
    var n := |s.delivered| + |s.got|;
    if s.pc.Advance? {
      SlotNext(n - 1);
    } else if s.pc.Deliver? {
      assert s.delivered + s.got + "" == s.delivered + s.got;
    }
  }

  /** Each move of the poller keeps the stream invariant. */
  lemma ReaderKeeps(s: Sys)
    requires Sound(s)
    ensures Sound(Read(s))
  {
    hide Runs.Rests, Holds, Saved, ReaderFits;
    SavedBounds(s);
    if s.pc.Check? {
      CheckFits(s);
    } else if s.pc.Fetch? {
      FetchFits(s);
    } else {
      OtherFits(s);
    }
    assert Written(Read(s)) == Written(s);
  }

  lemma SmallReadable(written: string, read: nat)
    requires read <= |written| && |written| - read < RING_SIZE
    ensures Readable(written, read) == |written| - read
  {
  }

  /** New bytes in the ring do not disturb a read in progress. */
  lemma PushKeepsReader(ring: Ring, pc: Pc, got: string, delivered: string, written: string, data: string)
    requires ReaderFits(ring, pc, got, delivered, written)
    requires |written| + |data| - |delivered| - |got| < RING_SIZE
    ensures |ring.cells| == RING_SIZE && ring.idxIn < RING_SIZE
    ensures ReaderFits(PushAll(ring, data), pc, got, delivered, written + data)
  {
    hide CellsHold, Slot;
    var n := |delivered| + |got|;
    assert (written + data)[..n] == written[..n];
    match pc
    case Advance => PushAllRepresents(ring, written, n - 1, data);
    case Wrap =>
      var other := Wrapped(ring.idxOut);
      PushAllRepresents(ring.(idxOut := other), written, n, data);
      PushIgnoresOut(ring, data, other);
    case Outside => PushAllRepresents(ring, written, n, data);
    case Check => PushAllRepresents(ring, written, n, data);
    case Fetch => PushAllRepresents(ring, written, n, data);
    case Deliver => PushAllRepresents(ring, written, n, data);
  }

  lemma {:induction false} PushIgnoresOut(r: Ring, data: string, idxOut: nat)
    requires |r.cells| == RING_SIZE && r.idxIn < RING_SIZE
    ensures PushAll(r.(idxOut := idxOut), data) == PushAll(r, data).(idxOut := idxOut)
    decreases |data|
  {
    if data != [] {
      PushIgnoresOut(r, data[..|data| - 1], idxOut);
    }
  }

  /** Routing chunk by chunk is routing their concatenation. */
  lemma {:induction false} RouteAllIsOne(g: Gsm, ring: Ring, chunks: seq<string>)
    requires WellFormedGsm(g) && |ring.cells| == RING_SIZE && ring.idxIn < RING_SIZE
    ensures RouteAll(g, ring, chunks).1
         == if g.manager.mode.PppStack? then PushAll(ring, Flatten(chunks)) else ring
    decreases |chunks|
  {
    hide Uart;
    if chunks != [] {
      RouteAllIsOne(Route(g, ring, chunks[0]).0, Route(g, ring, chunks[0]).1, chunks[1..]);
      if g.manager.mode.PppStack? {
        PushAllJoins(ring, chunks[0], Flatten(chunks[1..]));
      }
    }
  }

  lemma {:induction false} RouteAllRests(g: Gsm, ring: Ring, chunks: seq<string>)
    requires WellFormedGsm(g) && |ring.cells| == RING_SIZE && ring.idxIn < RING_SIZE && Runs.Rests(g)
    ensures Runs.Rests(RouteAll(g, ring, chunks).0)
    decreases |chunks|
  {
    hide Runs.Rests, Uart;
    if chunks != [] {
      Runs.NextKeeps(g, UartStep(chunks[0]));
      RouteAllRests(Route(g, ring, chunks[0]).0, Route(g, ring, chunks[0]).1, chunks[1..]);
    }
  }

  lemma DrainKeeps(s: Sys)
    requires Sound(s)
    requires s.gsm.manager.mode.PppStack? ==> UnreadAfterDrain(s) < RING_SIZE
    ensures Sound(Drain(s))
  {
    hide Runs.Rests, Holds, Saved, Chunks, Flatten, ReaderFits, PushAll;
    SavedBounds(s);
    var chunks := Chunks(s.dma.cells, s.last, s.dma.pos);
    DrainIsExact(s.dma, s.last, s.uart, s.drained);
    RouteAllIsOne(s.gsm, s.ring, chunks);
    RouteAllRests(s.gsm, s.ring, chunks);
    DrainSaved(s.dma, s.uart);
    var r, added := Drain(s), s.uart[s.drained..];
    if s.gsm.manager.mode.PppStack? {
      PushFits(s, added);
      assert s.uart[|s.atSink|..] == Written(s) + added;
      assert Written(r) == s.uart[|s.atSink|..];
    } else {
      assert r.atSink == s.uart;
      assert Written(r) == "" && Written(s) == "";
    }
  }

  lemma PushFits(s: Sys, data: string)
    requires Sound(s) && |s.uart| == s.drained + |data| && UnreadAfterDrain(s) < RING_SIZE
    ensures ReaderFits(PushAll(s.ring, data), s.pc, s.got, s.delivered, Written(s) + data)
  {
    hide Runs.Rests, Holds, Saved, Represents, PushAll;
    PushKeepsReader(s.ring, s.pc, s.got, s.delivered, Written(s), data);
  }

  lemma FlagsKeep(s: Sys)
    requires Sound(s)
    ensures Sound(s.(dma := FlagsServed(s.dma)))
  {
    hide Runs.Rests, ReaderFits, Cell;
  }

  lemma ArriveKeeps(s: Sys, b: char)
    requires Sound(s) && |s.uart| + 1 - s.drained < RX_SIZE
    ensures Sound(Act(s, ByteArrives(b)))
  {
    hide Runs.Rests, ReaderFits, Holds, Saved;
    ArriveHolds(s.dma, s.last, s.uart, s.drained, b);
    var r := Act(s, ByteArrives(b));
    SavedBounds(s);
    assert r.uart[..|s.atSink|] == s.uart[..|s.atSink|];
    assert Written(r) == Written(s);
  }

  lemma SavedBounds(s: Sys)
    requires Saved(s.dma, s.last, s.uart, s.drained)
    ensures s.drained <= |s.uart|
  {
  }

  /** A step of the main loop changes neither stream; at most it sets PPP mode. */
  lemma MainLoopKeeps(s: Sys, step: Step)
    requires Sound(s) && !step.UartStep? && Enabled(s.gsm, step)
    ensures Sound(Act(s, MainLoop(step)))
  {
    hide Next, Enabled, ReaderFits, Holds, Saved, Coherence.Coherent,
      EngineSafety.EngineRests, PowerCycle.PowerRests, BringUpCost.CostRests;
    Runs.NextKeeps(s.gsm, step);
    EngineSafety.NextRests(s.gsm, step);
  }

  lemma ActKeeps(s: Sys, a: Action)
    requires Sound(s) && Possible(s, a)
    ensures Sound(Act(s, a))
  {
    hide StreamFits, Runs.Rests, Drain, Read, Next, Enabled, Arrive;
    match a
    case ByteArrives(b) => ArriveKeeps(s, b);
    case CounterReloads => ReloadKeeps(s);
    case DmaInterrupt =>
      FlagsKeep(s);
      if s.dma.half || s.dma.complete {
        DrainKeeps(s.(dma := FlagsServed(s.dma)));
      }
    case IdleInterrupt => DrainKeeps(s);
    case ReaderMoves => ReaderKeeps(s);
    case MainLoop(step) => MainLoopKeeps(s, step);
  }

  lemma ReloadKeeps(s: Sys)
    requires Sound(s)
    ensures Sound(Act(s, CounterReloads))
  {
    hide Runs.Rests, ReaderFits, Holds, Saved;
    ReloadHolds(s.dma, s.last, s.uart, s.drained);
  }

  /** Power-up: gsm_init_hw has run, nothing has been received. */
  function Start(): (s: Sys)
    ensures WellFormedSys(s)
  {
    Sys(Dma(seq(RX_SIZE, _ => '\0'), 0, false, false), 0, Ring(seq(RING_SIZE, _ => '\0'), 0, 0),
        Outside, "", Initial(), "", 0, "", "")
  }

  lemma StartSound()
    ensures Sound(Start())
  {
    hide Initial, Cell, Slot;
    StartHolds();
    EmptyRepresents();
    Runs.InitialRests();
  }

  // ----- what one call of the poller delivers -----

  /** `k` moves of the poller with nothing in between. */
  function Reads(s: Sys, k: nat): (r: Sys)
    requires WellFormedSys(s)
    ensures WellFormedSys(r)
    decreases k
  {
    if k == 0 then s else Reads(Read(s), k - 1)
  }

  lemma {:induction false} ReadsJoin(s: Sys, a: nat, b: nat)
    requires WellFormedSys(s)
    ensures Reads(s, a + b) == Reads(Reads(s, a), b)
    decreases a
  {
    hide Read;
    if a > 0 {
      ReadsJoin(Read(s), a - 1, b);
    }
  }

  /** Ring bytes written and not yet fetched. */
  function Unread(s: Sys): int
    requires |s.atSink| <= s.drained <= |s.uart|
  {
    |Written(s)| - |s.delivered| - |s.got|
  }

  /** The poller's own variables moved; nothing else did. */
  predicate OnlyReader(s: Sys, r: Sys) {
    r == s.(pc := r.pc, got := r.got, delivered := r.delivered, ring := s.ring.(idxOut := r.ring.idxOut))
  }

  /** The poller between two bytes. */
  predicate AtCheck(s: Sys) {
    Sound(s) && s.pc.Check?
  }

  lemma CheckMeans(s: Sys)
    requires AtCheck(s)
    ensures |s.atSink| <= s.drained <= |s.uart| && 0 <= Unread(s) && |s.got| <= 512
    ensures s.ring.idxOut == s.ring.idxIn <==> Unread(s) == 0
    ensures Unread(s) > 0 ==>
              s.ring.idxOut < RING_SIZE && s.ring.cells[s.ring.idxOut] == Written(s)[|s.delivered| + |s.got|]
  {
    hide Runs.Rests, Holds, CellsHold, Slot;
    SavedBounds(s);
    var written, n := Written(s), |s.delivered| + |s.got|;
    ReadOne(s.ring, written, n);
    SmallReadable(written, n);
  }

  lemma FourMoves(s: Sys)
    requires WellFormedSys(s)
    ensures Reads(s, 4) == Read(Read(Read(Read(s))))
  {
    hide Read;
    var a, b, c := Read(s), Read(Read(s)), Read(Read(Read(s)));
    assert Reads(Read(c), 0) == Read(c) && Reads(c, 1) == Read(c);
    assert Reads(b, 2) == Read(c) && Reads(a, 3) == Read(c);
  }

  /** Four moves fetch one byte: the next unread one. */
  lemma OneByte(s: Sys)
    requires AtCheck(s) && |s.got| < 512
    requires |s.atSink| <= s.drained <= |s.uart| && Unread(s) > 0
    ensures var r := Reads(s, 4);
            && AtCheck(r) && OnlyReader(s, r) && r.delivered == s.delivered
            && |s.delivered| + |s.got| < |Written(s)|
            && r.got == s.got + [Written(s)[|s.delivered| + |s.got|]]
  {
    hide StreamFits, Runs.Rests;
    FourMoves(s);
    CheckMeans(s);
    SoundMoves(s);
    SoundMoves(Read(s));
    SoundMoves(Read(Read(s)));
    SoundMoves(Read(Read(Read(s))));
  }

  lemma SoundMoves(s: Sys)
    requires Sound(s)
    ensures Sound(Read(s))
  {
    hide StreamFits, Runs.Rests, Read;
    ReaderKeeps(s);
  }

  /** As many bytes as fit the caller's buffer and are there, in order. */
  lemma {:induction false} ManyBytes(s: Sys, c: nat)
    requires AtCheck(s) && |s.atSink| <= s.drained <= |s.uart|
    requires |s.got| + c <= 512 && c <= Unread(s)
    ensures var r, n := Reads(s, 4 * c), |s.delivered| + |s.got|;
            && AtCheck(r) && OnlyReader(s, r) && r.delivered == s.delivered
            && n + c <= |Written(s)| && r.got == s.got + Written(s)[n..n + c]
    decreases c
  {
    hide StreamFits, Runs.Rests, Read;
    var n := |s.delivered| + |s.got|;
    if c == 0 {
      assert Written(s)[n..n] == "";
    } else {
      OneByte(s);
      var t := Reads(s, 4);
      assert Written(t) == Written(s);
      ManyBytes(t, c - 1);
      ReadsJoin(s, 4, 4 * (c - 1));
      assert Written(s)[n..n + c] == [Written(s)[n]] + Written(s)[n + 1..n + c];
    }
  }

  /** A poller whose buffer is full, or that finds the ring empty, hands over what it has got. */
  lemma HandsOver(s: Sys)
    requires AtCheck(s) && (|s.got| == 512 || s.ring.idxOut == s.ring.idxIn)
    ensures var r := Reads(s, 2);
            && Sound(r) && r.pc.Outside? && OnlyReader(s, r) && r.ring == s.ring
            && r.delivered == s.delivered + s.got
  {
    hide StreamFits, Runs.Rests;
    var a, b := Read(s), Read(Read(s));
    assert Reads(b, 0) == b && Reads(a, 1) == b;
    SoundMoves(s);
    SoundMoves(a);
  }

  lemma OutsideMeans(s: Sys)
    requires Sound(s) && s.pc.Outside?
    ensures |s.atSink| <= s.drained <= |s.uart| && s.got == "" && 0 <= Unread(s) < 1024
    ensures AtCheck(Read(s)) && OnlyReader(s, Read(s))
    ensures Read(s).got == "" && Read(s).delivered == s.delivered && Reads(s, 1) == Read(s)
  {
    hide Runs.Rests, Holds, CellsHold, Slot;
    SavedBounds(s);
    SoundMoves(s);
    assert Reads(Read(s), 0) == Read(s);
  }

  /** One call of gsm_hw_pppos_polling with no interrupt in it: pppos_input is given the next
      min(512, n) of the n unread bytes, and the poller is outside again. */
  lemma RoundDelivers(s: Sys)
    requires Sound(s) && s.pc.Outside?
    ensures |s.atSink| <= s.drained <= |s.uart| && 0 <= Unread(s) == |Written(s)| - |s.delivered|
    ensures var c := if Unread(s) < 512 then Unread(s) else 512;
            var r := Reads(s, 4 * c + 3);
            && Sound(r) && r.pc.Outside? && OnlyReader(s, r)
            && r.delivered == s.delivered + Written(s)[|s.delivered|..][..c]
  {
    hide StreamFits, Runs.Rests, Read, Reads;
    OutsideMeans(s);
    var a := Read(s);
    assert Written(a) == Written(s);
    var c := if Unread(s) < 512 then Unread(s) else 512;
    ManyBytes(a, c);
    var b := Reads(a, 4 * c);
    assert Written(b) == Written(s) && |b.got| == c;
    CheckMeans(b);
    HandsOver(b);
    ReadsJoin(s, 1, 4 * c);
    ReadsJoin(s, 1 + 4 * c, 2);
    var d := |s.delivered|;
    assert Written(s)[d..][..c] == Written(s)[d..d + c];
  }

  /** The poller has nothing left to fetch. */
  predicate RingEmpty(s: Sys) {
    s.pc.Check? && s.ring.idxOut == s.ring.idxIn
  }

  lemma SameStreams(s: Sys, r: Sys)
    requires OnlyReader(s, r) && |s.atSink| <= s.drained <= |s.uart|
    ensures r.atSink == s.atSink && r.drained == s.drained && r.uart == s.uart && Written(r) == Written(s)
  {
  }

  lemma OnlyReaderJoins(s: Sys, r: Sys, t: Sys)
    requires OnlyReader(s, r) && OnlyReader(r, t)
    ensures OnlyReader(s, t)
  {
  }

  /** A full buffer is handed over and the next call begun. */
  lemma NextCall(s: Sys)
    requires AtCheck(s) && |s.got| == 512
    ensures var r := Reads(s, 3); AtCheck(r) && OnlyReader(s, r) && r.got == ""
    ensures |s.atSink| <= s.drained <= |s.uart| && Unread(Reads(s, 3)) == Unread(s)
  {
    hide StreamFits, Runs.Rests, Read, Reads;
    CheckMeans(s);
    HandsOver(s);
    var a := Reads(s, 2);
    SameStreams(s, a);
    OutsideMeans(a);
    SameStreams(a, Read(a));
    ReadsJoin(s, 2, 1);
    OnlyReaderJoins(s, a, Read(a));
  }

  /** One stretch of fetching: to the end of the ring or of the caller's buffer. */
  lemma OneStretch(s: Sys) returns (k: nat)
    requires AtCheck(s)
    ensures var r := Reads(s, k);
            && AtCheck(r) && OnlyReader(s, r) && |s.atSink| <= s.drained <= |s.uart|
            && (RingEmpty(r) || (|r.got| == 512 && Unread(r) <= Unread(s) && (|s.got| < 512 ==> Unread(r) < Unread(s))))
  {
    hide StreamFits, Runs.Rests, Read, Reads;
    CheckMeans(s);
    var c := if Unread(s) < 512 - |s.got| then Unread(s) else 512 - |s.got|;
    ManyBytes(s, c);
    k := 4 * c;
    SameStreams(s, Reads(s, k));
    CheckMeans(Reads(s, k));
  }

  /** Left alone, the poller gets to the end of the ring. */
  lemma {:induction false} CheckEmpties(s: Sys) returns (k: nat)
    requires AtCheck(s) && |s.atSink| <= s.drained <= |s.uart|
    ensures RingEmpty(Reads(s, k)) && OnlyReader(s, Reads(s, k)) && Sound(Reads(s, k))
    decreases Unread(s), |s.got|
  {
    hide StreamFits, Runs.Rests, Read, Reads, OnlyReader, Written;
    k := OneStretch(s);
    var a := Reads(s, k);
    CheckMeans(s);
    SameStreams(s, a);
    if !RingEmpty(a) {
      NextCall(a);
      var b := Reads(a, 3);
      SameStreams(a, b);
      var more := CheckEmpties(b);
      ReadsJoin(a, 3, more);
      ReadsJoin(s, k, 3 + more);
      OnlyReaderJoins(a, b, Reads(b, more));
      OnlyReaderJoins(s, a, Reads(b, more));
      k := k + (3 + more);
    }
  }

  /** From wherever it stands. */
  lemma ReaderEmpties(s: Sys) returns (k: nat)
    requires Sound(s)
    ensures RingEmpty(Reads(s, k)) && OnlyReader(s, Reads(s, k)) && Sound(Reads(s, k))
    decreases match s.pc
              case Check => 0
              case Outside => 1
              case Deliver => 2
              case Wrap => 1
              case Advance => 2
              case Fetch => 3
  {
    hide StreamFits, Runs.Rests;
    if s.pc.Check? {
      CheckBounds(s);
      k := CheckEmpties(s);
    } else {
      SoundMoves(s);
      var next := ReaderEmpties(Read(s));
      k := 1 + next;
    }
  }

  lemma CheckBounds(s: Sys)
    requires Sound(s)
    ensures |s.atSink| <= s.drained <= |s.uart|
  {
    hide Runs.Rests, Holds, ReaderFits;
    SavedBounds(s);
  }

  predicate PossibleRun(s: Sys, actions: seq<Action>)
    requires WellFormedSys(s)
    decreases |actions|
  {
    actions == [] || (Possible(s, actions[0]) && PossibleRun(Act(s, actions[0]), actions[1..]))
  }

  function Outcome(s: Sys, actions: seq<Action>): (r: Sys)
    requires WellFormedSys(s)
    ensures WellFormedSys(r)
    decreases |actions|
  {
    if actions == [] then s else Outcome(Act(s, actions[0]), actions[1..])
  }

  lemma {:induction false} OutcomeSound(s: Sys, actions: seq<Action>)
    requires Sound(s) && PossibleRun(s, actions)
    ensures Sound(Outcome(s, actions))
    decreases |actions|
  {
    hide Act, Possible, StreamFits, Runs.Rests;
    if actions != [] {
      ActKeeps(s, actions[0]);
      OutcomeSound(Act(s, actions[0]), actions[1..]);
    }
  }

  /** End-to-end stream. In every interleaving of arrivals, drains, reader steps and main-loop
      steps there is one split index k: the UART bytes before k, and no others, went to the AT
      buffer, and what pppos_input was given is a prefix, in order and without loss or
      duplication, of the bytes from k on. */
  lemma EndToEnd(actions: seq<Action>)
    requires PossibleRun(Start(), actions)
    ensures var s := Outcome(Start(), actions);
            exists k: nat | k <= |s.uart| :: s.atSink == s.uart[..k] && s.delivered <= s.uart[k..]
  {
    hide Start, Act, Possible, Holds, Runs.Rests;
    StartSound();
    OutcomeSound(Start(), actions);
    var s := Outcome(Start(), actions);
    DeliveredIsPrefix(s);
    var k := |s.atSink|;
    assert s.atSink == s.uart[..k] && s.delivered <= s.uart[k..];
  }

  lemma DeliveredIsPrefix(s: Sys)
    requires Sound(s)
    ensures |s.atSink| <= |s.uart| && s.atSink == s.uart[..|s.atSink|] && s.delivered <= s.uart[|s.atSink|..]
  {
    hide Holds, Runs.Rests, Represents;
    var rest, written := s.uart[|s.atSink|..], Written(s);
    assert written == rest[..|written|];
    assert s.delivered == (s.delivered + s.got)[..|s.delivered|];
  }

  function Moves(k: nat): seq<Action> {
    seq(k, _ => ReaderMoves)
  }

  lemma {:induction false} OutcomeOfMoves(s: Sys, k: nat)
    requires WellFormedSys(s)
    ensures PossibleRun(s, Moves(k)) && Outcome(s, Moves(k)) == Reads(s, k)
    decreases k
  {
    hide Read;
    if k > 0 {
      assert Moves(k)[1..] == Moves(k - 1);
      OutcomeOfMoves(Read(s), k - 1);
    }
  }

  lemma {:induction false} OutcomeJoins(s: Sys, a: seq<Action>, b: seq<Action>)
    requires WellFormedSys(s) && PossibleRun(s, a) && PossibleRun(Outcome(s, a), b)
    ensures PossibleRun(s, a + b) && Outcome(s, a + b) == Outcome(Outcome(s, a), b)
    decreases |a|
  {
    hide Act, Possible;
    if a == [] {
      assert a + b == b;
    } else {
      assert (a + b)[1..] == a[1..] + b;
      OutcomeJoins(Act(s, a[0]), a[1..], b);
    }
  }

  /** In every run: a call of the poller that is not interrupted hands pppos_input the next
      min(512, n) of the n bytes drained since the split and not yet handed over. */
  lemma PollerDelivers(actions: seq<Action>)
    requires PossibleRun(Start(), actions) && Outcome(Start(), actions).pc.Outside?
    ensures var s := Outcome(Start(), actions);
            && |s.atSink| <= s.drained <= |s.uart| && |s.delivered| <= s.drained - |s.atSink|
            && var n := s.drained - |s.atSink| - |s.delivered|;
               var c := if n < 512 then n else 512;
               && PossibleRun(Start(), actions + Moves(4 * c + 3))
               && Outcome(Start(), actions + Moves(4 * c + 3)).pc.Outside?
               && Outcome(Start(), actions + Moves(4 * c + 3)).delivered
                  == s.delivered + s.uart[|s.atSink|..s.drained][|s.delivered|..][..c]
  {
    hide Start, Act, Possible, StreamFits, Runs.Rests, Reads;
    StartSound();
    OutcomeSound(Start(), actions);
    var s := Outcome(Start(), actions);
    OutsideMeans(s);
    RoundDelivers(s);
    var c := if Unread(s) < 512 then Unread(s) else 512;
    OutcomeOfMoves(s, 4 * c + 3);
    OutcomeJoins(Start(), actions, Moves(4 * c + 3));
  }

  /** In every run: a poller that is left alone catches up with the interrupts. */
  lemma PollerCatchesUp(actions: seq<Action>) returns (k: nat)
    requires PossibleRun(Start(), actions)
    ensures PossibleRun(Start(), actions + Moves(k))
    ensures var s, r := Outcome(Start(), actions), Outcome(Start(), actions + Moves(k));
            && |s.atSink| <= s.drained <= |s.uart|
            && r.pc.Check? && r.ring.idxOut == r.ring.idxIn
            && r.delivered + r.got == s.uart[|s.atSink|..s.drained]
  {
    hide Start, Act, Possible, StreamFits, Runs.Rests, Reads;
    StartSound();
    OutcomeSound(Start(), actions);
    var s := Outcome(Start(), actions);
    k := ReaderEmpties(s);
    OutcomeOfMoves(s, k);
    OutcomeJoins(Start(), actions, Moves(k));
    CaughtUp(actions + Moves(k));
  }

  /** A transfer interrupt with a flag up, and every idle interrupt, drains all there is, to the
      AT buffer or to the ring, and leaves no flag behind that it answers. */
  lemma InterruptDrains(s: Sys, a: Action)
    requires Sound(s) && Possible(s, a)
    requires a.IdleInterrupt? || (a.DmaInterrupt? && (s.dma.half || s.dma.complete))
    ensures var r := Act(s, a);
            && r.drained == |s.uart| && r.uart == s.uart && r.last == s.dma.pos
            && (a.DmaInterrupt? ==> !r.dma.half && !r.dma.complete)
            && (s.gsm.manager.mode.AtStack? ==> r.atSink == s.uart)
            && (s.gsm.manager.mode.PppStack? ==>
                  |r.atSink| <= |s.uart| && r.atSink == s.atSink && Written(r) == s.uart[|s.atSink|..])
  {
    hide Runs.Rests, Holds, Saved, ReaderFits, Chunks, RouteAll, Flatten;
    FlagsKeep(s);
    SavedBounds(s);
    var t := if a.DmaInterrupt? then s.(dma := FlagsServed(s.dma)) else s;
    DrainIsExact(t.dma, t.last, t.uart, t.drained);
    DrainKeeps(t);
    assert s.uart[..s.drained] + s.uart[s.drained..] == s.uart;
  }

  /** Nothing is lost. In every run that has split the stream, one idle interrupt and a poller
      left alone bring every byte received since the split to the caller of pppos_input. */
  lemma EverythingArrives(actions: seq<Action>) returns (k: nat)
    requires PossibleRun(Start(), actions) && Outcome(Start(), actions).gsm.manager.mode.PppStack?
    requires Possible(Outcome(Start(), actions), IdleInterrupt)
    ensures PossibleRun(Start(), actions + [IdleInterrupt] + Moves(k))
    ensures var s, r := Outcome(Start(), actions), Outcome(Start(), actions + [IdleInterrupt] + Moves(k));
            && r.pc.Check? && |s.atSink| <= |s.uart| && r.uart == s.uart
            && r.delivered + r.got == s.uart[|s.atSink|..]
  {
    hide Start, Act, Possible, StreamFits, Runs.Rests, Reads;
    StartSound();
    OutcomeSound(Start(), actions);
    var s := Outcome(Start(), actions);
    InterruptDrains(s, IdleInterrupt);
    var drained := Act(s, IdleInterrupt);
    assert PossibleRun(s, [IdleInterrupt]) && Outcome(s, [IdleInterrupt]) == drained by {
      assert [IdleInterrupt][1..] == [];
      assert PossibleRun(drained, []) && Outcome(drained, []) == drained;
    }
    OutcomeJoins(Start(), actions, [IdleInterrupt]);
    ActKeeps(s, IdleInterrupt);
    k := PollerCatchesUp(actions + [IdleInterrupt]);
    OutcomeOfMoves(drained, k);
    OutcomeJoins(Start(), actions + [IdleInterrupt], Moves(k));
    MovesKeepStream(drained, k);
  }

  lemma {:induction false} MovesKeepStream(s: Sys, k: nat)
    requires WellFormedSys(s)
    ensures Reads(s, k).uart == s.uart
    decreases k
  {
    if k > 0 {
      MovesKeepStream(Read(s), k - 1);
    }
  }

  /** Nothing is held back either: a poller that finds the ring empty has passed on, or is
      about to, every byte drained since the split. */
  lemma CaughtUp(actions: seq<Action>)
    requires PossibleRun(Start(), actions)
    requires var s := Outcome(Start(), actions); s.pc.Check? && s.ring.idxOut == s.ring.idxIn
    ensures var s := Outcome(Start(), actions);
            |s.atSink| <= s.drained <= |s.uart| && s.delivered + s.got == s.uart[|s.atSink|..s.drained]
  {
    hide Start, Act, Possible, Holds, Runs.Rests, CellsHold, Slot;
    StartSound();
    OutcomeSound(Start(), actions);
    var s := Outcome(Start(), actions);
    SavedBounds(s);
    var written, n := Written(s), |s.delivered| + |s.got|;
    ReadOne(s.ring, written, n);
    SmallReadable(written, n);
  }

  /** The split is made once: after PPP mode is set the AT buffer receives nothing more. */
  lemma {:induction false} SplitIsFixed(s: Sys, actions: seq<Action>)
    requires Sound(s) && PossibleRun(s, actions) && s.gsm.manager.mode.PppStack?
    ensures Outcome(s, actions).atSink == s.atSink && Outcome(s, actions).gsm.manager.mode.PppStack?
    decreases |actions|
  {
    hide StreamFits, Runs.Rests, Possible, Read, Next, Arrive, Chunks;
    if actions != [] {
      var a := actions[0];
      ActKeeps(s, a);
      ReadLeavesGsm(s);
      if a.MainLoop? {
        StaysPpp(s, a.step);
      }
      SplitIsFixed(Act(s, a), actions[1..]);
    }
  }

  lemma ReadLeavesGsm(s: Sys)
    requires WellFormedSys(s)
    ensures Read(s).gsm == s.gsm && Read(s).atSink == s.atSink
  {
  }

  lemma StaysPpp(s: Sys, step: Step)
    requires Sound(s) && Possible(s, MainLoop(step)) && s.gsm.manager.mode.PppStack?
    ensures Next(s.gsm, step).manager.mode.PppStack?
  {
    hide Next, StreamFits, Coherence.Coherent, PowerCycle.PowerRests, BringUpCost.CostRests, EngineSafety.EngineRests;
    EngineSafety.NextRests(s.gsm, step);
  }

  /** The same system with the 768-byte assumption replaced by its cause: each half-transfer
      and transfer-complete interrupt is served before the next half of the buffer fills. */
  predicate Punctual(s: Sys, a: Action) {
    if a.ByteArrives? then InTime(s.dma) else Possible(s, a)
  }

  predicate PunctualRun(s: Sys, actions: seq<Action>)
    requires WellFormedSys(s)
    decreases |actions|
  {
    actions == [] || (Punctual(s, actions[0]) && PunctualRun(Act(s, actions[0]), actions[1..]))
  }

  predicate AllServed(s: Sys) {
    Served(s.dma, s.uart, s.drained)
  }

  lemma ArrivalInTime(s: Sys, b: char)
    requires Sound(s) && AllServed(s) && InTime(s.dma)
    ensures Possible(s, ByteArrives(b)) && AllServed(Act(s, ByteArrives(b)))
  {
    hide Runs.Rests, ReaderFits, Cell;
    ServedInTime(s.dma, s.uart, s.drained, b);
  }

  lemma OthersServe(s: Sys, a: Action)
    requires Sound(s) && AllServed(s) && !a.ByteArrives?
    ensures AllServed(Act(s, a))
  {
    hide Runs.Rests, StreamFits, Next, Chunks, RouteAll;
    HandlerServes(s.dma, s.uart);
  }

  /** With interrupts served in time every arrival meets the load assumption, in every run. */
  lemma {:induction false} PunctualIsPossible(s: Sys, actions: seq<Action>)
    requires Sound(s) && AllServed(s) && PunctualRun(s, actions)
    ensures PossibleRun(s, actions)
    decreases |actions|
  {
    hide Act, Possible, StreamFits, Runs.Rests, AllServed, InTime;
    if actions != [] {
      var a := actions[0];
      if a.ByteArrives? {
        ArrivalInTime(s, a.b);
      } else {
        OthersServe(s, a);
      }
      ActKeeps(s, a);
      PunctualIsPossible(Act(s, a), actions[1..]);
    }
  }

  /** End-to-end stream, from interrupt latency alone: if every interrupt is served in time and
      the reader keeps the ring below 1024 bytes, nothing is lost, duplicated or reordered. */
  lemma EndToEndInTime(actions: seq<Action>)
    requires PunctualRun(Start(), actions)
    ensures PossibleRun(Start(), actions)
    ensures var s := Outcome(Start(), actions);
            exists k: nat | k <= |s.uart| :: s.atSink == s.uart[..k] && s.delivered <= s.uart[k..]
  {
    hide Act, Possible, Sound, Initial;
    StartSound();
    PunctualIsPossible(Start(), actions);
    EndToEnd(actions);
  }

  // ----- what the AT engine hears -----

  lemma {:induction false} RouteAllHears(g: Gsm, ring: Ring, chunks: seq<string>)
    requires WellFormedGsm(g) && |ring.cells| == RING_SIZE && ring.idxIn < RING_SIZE
    ensures var e := RouteAll(g, ring, chunks).0.engine;
            && e.received == (if g.manager.mode.AtStack?
                              then g.engine.received + Flatten(chunks)
                              else g.engine.received)
            && e.newData == (g.engine.newData || Flatten(chunks) != "")
    decreases |chunks|
  {
    hide PushAll;
    if chunks != [] {
      var (h, next) := Route(g, ring, chunks[0]);
      RouteAllHears(h, next, chunks[1..]);
      assert g.engine.received + (chunks[0] + Flatten(chunks[1..]))
          == g.engine.received + chunks[0] + Flatten(chunks[1..]);
    }
  }

  /** A drain in AT mode hands exactly the new bytes to the engine, and tells it so; in PPP mode
      it only raises the flag. */
  lemma DrainIsHeard(s: Sys)
    requires Sound(s)
    ensures s.drained <= |s.uart|
    ensures var e, r, added := s.gsm.engine, Drain(s).gsm.engine, s.uart[s.drained..];
            && r.received == (if s.gsm.manager.mode.AtStack? then e.received + added else e.received)
            && r.newData == (e.newData || added != "")
  {
    hide Runs.Rests, Holds, Saved, Chunks, Flatten, ReaderFits, RouteAll;
    SavedBounds(s);
    var chunks := Chunks(s.dma.cells, s.last, s.dma.pos);
    DrainIsExact(s.dma, s.last, s.uart, s.drained);
    RouteAllHears(s.gsm, s.ring, chunks);
  }

  /** What the engine has received since it armed a command is the end of the AT stream. */
  predicate Hears(s: Sys) {
    var e := s.gsm.engine;
    |e.received| <= |s.atSink| && e.received == s.atSink[|s.atSink| - |e.received|..]
  }

  lemma ActHears(s: Sys, a: Action)
    requires Sound(s) && Possible(s, a) && Hears(s)
    ensures Hears(Act(s, a))
  {
    hide Drain, Read, Next, Enabled, Arrive, StreamFits, Runs.Rests;
    match a
    case MainLoop(step) => Deliveries.NextReceived(s.gsm, step);
    case DmaInterrupt =>
      FlagsKeep(s);
      if s.dma.half || s.dma.complete {
        DrainHears(s.(dma := FlagsServed(s.dma)));
      }
    case IdleInterrupt => DrainHears(s);
    case ReaderMoves => ReadLeavesGsm(s);
    case ByteArrives(_) =>
    case CounterReloads =>
  }

  lemma DrainHears(s: Sys)
    requires Sound(s) && Hears(s)
    ensures Hears(Drain(s))
  {
    hide Runs.Rests, Holds, Saved, ReaderFits, Chunks, RouteAll, Flatten;
    DrainIsHeard(s);
    DrainIsExact(s.dma, s.last, s.uart, s.drained);
    var e, r := s.gsm.engine, Drain(s);
    if s.gsm.manager.mode.AtStack? {
      var added := s.uart[s.drained..];
      assert r.atSink == s.atSink + added;
      assert s.atSink[|s.atSink| - |e.received|..] + added == r.atSink[|s.atSink| - |e.received|..];
    }
  }

  lemma {:induction false} OutcomeHears(s: Sys, actions: seq<Action>)
    requires Sound(s) && Hears(s) && PossibleRun(s, actions)
    ensures Hears(Outcome(s, actions))
    decreases |actions|
  {
    hide Act, Possible, StreamFits, Runs.Rests, Hears;
    if actions != [] {
      ActKeeps(s, actions[0]);
      ActHears(s, actions[0]);
      OutcomeHears(Act(s, actions[0]), actions[1..]);
    }
  }

  /** In every run the engine matches against the last bytes of the AT stream, no others. */
  lemma EngineHearsTheStream(actions: seq<Action>)
    requires PossibleRun(Start(), actions)
    ensures var s := Outcome(Start(), actions);
            var e := s.gsm.engine;
            && |e.received| <= |s.atSink| <= |s.uart|
            && e.received == s.uart[|s.atSink| - |e.received|..|s.atSink|]
  {
    hide Act, Possible, Holds, Runs.Rests;
    StartSound();
    assert Hears(Start());
    hide Start;
    OutcomeSound(Start(), actions);
    OutcomeHears(Start(), actions);
    var s := Outcome(Start(), actions);
    DeliveredIsPrefix(s);
  }
}
