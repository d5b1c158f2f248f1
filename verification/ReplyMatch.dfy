/** When the engine reports a complete reply, compared with the bytes really received. */
module ReplyMatch {
  import opened CStrings
  import opened AtEngine

  /** What a complete reply is, in terms of the bytes received since the command was armed. */
  predicate ReplyComplete(received: string, wanted: string, ending: string) {
    && Contains(CStr(received), wanted)
    && (ending == [] || (|ending| < |received| && EndsWith(received, ending)))
  }

  /** A chunk that fits lands behind the bytes already there and changes nothing else. */
  lemma {:induction false} StoreShort(buffer: string, index: nat, data: string)
    requires |buffer| == BUFFER_SIZE && index + |data| < BUFFER_SIZE
    ensures Store(buffer, index, data)
         == (buffer[..index] + data + buffer[index + |data|..], index + |data|)
    decreases |data|
  {
    if data == [] {
      assert buffer[..index] + data + buffer[index..] == buffer;
    } else {
      var next := buffer[index := data[0]];
      StoreShort(next, index + 1, data[1..]);
      assert next[..index + 1] + data[1..] + next[index + |data|..]
          == buffer[..index] + data + buffer[index + |data|..];
    }
  }

  /** Armed implies that the buffer holds exactly the bytes received and then only zeros. */
  predicate CleanWhileArmed(e: Engine) {
    e.retry > 0 && |e.received| < BUFFER_SIZE ==>
      e.index == |e.received| && e.buffer == e.received + Zeros(BUFFER_SIZE - |e.received|)
  }

  lemma ReceiveKeepsClean(e: Engine, data: string)
    requires WellFormed(e) && CleanWhileArmed(e)
    ensures CleanWhileArmed(Receive(e, data))
  {
    if e.retry > 0 && |e.received + data| < BUFFER_SIZE {
      StoreShort(e.buffer, e.index, data);
      var n := |e.received|;
      assert e.buffer[..n] == e.received;
      assert e.buffer[n + |data|..] == Zeros(BUFFER_SIZE - n - |data|);
    }
  }

  lemma EndingIsSuffix(buffer: string, received: string, ending: string)
    requires |received| < BUFFER_SIZE && buffer == received + Zeros(BUFFER_SIZE - |received|)
    requires |ending| < |received|
    ensures buffer[|received| - |ending|..|received|] == ending <==> EndsWith(received, ending)
  {
    assert buffer[|received| - |ending|..|received|] == received[|received| - |ending|..];
  }

  /** Soundness and completeness of the matcher below 256 received bytes. */
  lemma MatchIsReply(e: Engine)
    requires WellFormed(e) && CleanWhileArmed(e) && e.retry > 0 && |e.received| < 256
    ensures Matches(e) <==> ReplyComplete(e.received, e.wanted, e.ending)
  {
    hide CStr, Contains, Zeros, EndsWith;
    CStrPadded(e.received, BUFFER_SIZE - |e.received|);
    if |e.ending| < |e.received| {
      EndingIsSuffix(e.buffer, e.received, e.ending);
    }
  }

  /** An empty buffer at index 0 completes no command that waits for any text. */
  lemma EmptyNeverMatches(e: Engine)
    requires WellFormed(e) && e.index == 0 && e.buffer[0] == '\0'
    requires e.wanted != [] || e.ending != []
    ensures !Matches(e)
  {
    assert CStr(e.buffer) == [];
    if e.wanted != [] {
      assert forall i: nat :: !OccursAt([], e.wanted, i);
    }
  }

  lemma {:induction false} StoreSplit(buffer: string, index: nat, a: string, b: string)
    requires |buffer| == BUFFER_SIZE && index + |a| < BUFFER_SIZE
    ensures Store(buffer, index, a + b)
         == Store(Store(buffer, index, a).0, Store(buffer, index, a).1, b)
    decreases |a|
  {
    if a == [] {
      assert a + b == b;
    } else {
      assert (a + b)[1..] == a[1..] + b;
      StoreSplit(buffer[index := a[0]], index + 1, a[1..], b);
    }
  }

  lemma {:induction false} CStrPlain(text: string)
    requires '\0' !in text
    ensures CStr(text) == text
  {
    if text != [] {
      assert text[0] in text;
      assert '\0' !in text[1..];
      CStrPlain(text[1..]);
    }
  }

  /** A NUL behind `front` ends the C string there. */
  lemma {:induction false} CStrOfNoise(text: string, front: string)
    requires '\0' !in front && front < text && text[|front|] == '\0'
    ensures CStr(text) == front
  {
    if front != [] {
      assert text[0] == front[0] && front[0] in front;
      assert front[1..] < text[1..] && '\0' !in front[1..];
      CStrOfNoise(text[1..], front[1..]);
    }
  }

  /** Chunks arriving one after another, with no run of the engine in between. */
  function ReceiveAll(e: Engine, chunks: seq<string>): (r: Engine)
    requires WellFormed(e)
    ensures WellFormed(r)
    decreases |chunks|
  {
    if chunks == [] then e else ReceiveAll(Receive(e, chunks[0]), chunks[1..])
  }

  lemma {:induction false} ReceivedGrows(e: Engine, chunks: seq<string>)
    requires WellFormed(e)
    ensures e.received <= ReceiveAll(e, chunks).received
    ensures ReceiveAll(e, chunks).wanted == e.wanted && ReceiveAll(e, chunks).ending == e.ending
    decreases |chunks|
  {
    hide Store;
    if chunks != [] {
      ReceivedGrows(Receive(e, chunks[0]), chunks[1..]);
    }
  }

  /** A chunk that fills the buffer restarts it with its first byte cleared. */
  lemma {:induction false} StoreOverflows(buffer: string, index: nat, data: string)
    requires |buffer| == BUFFER_SIZE && index < BUFFER_SIZE <= index + |data|
    ensures Store(buffer, index, data).0[0] == '\0' && Store(buffer, index, data).1 == 0
    decreases |data|
  {
    if index + 1 < BUFFER_SIZE {
      StoreOverflows(buffer[index := data[0]], index + 1, data[1..]);
    }
  }

  lemma {:induction false} StoreKeepsFront(buffer: string, index: nat, data: string)
    requires |buffer| == BUFFER_SIZE && index < BUFFER_SIZE && buffer[0] == '\0'
    requires forall i | 0 <= i < |data| :: data[i] == '\0'
    ensures Store(buffer, index, data).0[0] == '\0'
    decreases |data|
  {
    if data != [] && index + 1 < BUFFER_SIZE {
      StoreKeepsFront(buffer[index := data[0]], index + 1, data[1..]);
    }
  }

  /** An OK reply with nothing but zeros behind it. */
  function OkThenZeros(n: nat): (text: string)
    requires n >= 4
    ensures |text| == n && forall i | 4 <= i < n :: text[i] == '\0'
  {
    "OK\r\n" + Zeros(n - 4)
  }

  /** Where the buffer stands while such a reply comes in. */
  predicate FrontLost(e: Engine) {
    CleanWhileArmed(e) && (|e.received| >= BUFFER_SIZE ==> WellFormed(e) && e.buffer[0] == '\0')
  }

  lemma ChunkLosesFront(e: Engine, chunk: string, n: nat)
    requires WellFormed(e) && e.retry > 0 && FrontLost(e) && n >= BUFFER_SIZE
    requires e.received + chunk <= OkThenZeros(n)
    ensures FrontLost(Receive(e, chunk))
  {
    ReceiveKeepsClean(e, chunk);
    var before := |e.received|;
    if before >= BUFFER_SIZE {
      forall i | 0 <= i < |chunk| ensures chunk[i] == '\0' {
        assert chunk[i] == (e.received + chunk)[before + i] == OkThenZeros(n)[before + i];
      }
      StoreKeepsFront(e.buffer, e.index, chunk);
    } else if before + |chunk| >= BUFFER_SIZE {
      StoreOverflows(e.buffer, e.index, chunk);
    }
  }

  lemma {:induction false} ChunksLoseFront(e: Engine, chunks: seq<string>, n: nat)
    requires WellFormed(e) && e.retry > 0 && FrontLost(e) && n >= BUFFER_SIZE
    requires ReceiveAll(e, chunks).received == OkThenZeros(n)
    ensures ReceiveAll(e, chunks).buffer[0] == '\0'
    decreases |chunks|
  {
    hide Store, CleanWhileArmed, OkThenZeros;
    if chunks != [] {
      ReceivedGrows(Receive(e, chunks[0]), chunks[1..]);
      ChunkLosesFront(e, chunks[0], n);
      ChunksLoseFront(Receive(e, chunks[0]), chunks[1..], n);
    }
  }

  lemma OkThenZerosIsComplete(n: nat)
    requires n >= 4
    ensures ReplyComplete(OkThenZeros(n), "OK\r\n", "")
  {
    CStrPadded("OK\r\n", n - 4);
    CStrPlain("OK\r\n");
    assert OccursAt("OK\r\n", "OK\r\n", 0);
  }

  /** The bound of 256 is exact for completeness: for every length from 256 on there are bytes
      that hold the reply and are not recognised, however they are cut into chunks. */
  lemma LongReplyIsLost(e: Engine, chunks: seq<string>, n: nat)
    requires WellFormed(e) && e.retry > 0 && e.received == [] && CleanWhileArmed(e)
    requires e.wanted == "OK\r\n" && e.ending == []
    requires n >= 256 && ReceiveAll(e, chunks).received == OkThenZeros(n)
    ensures var r := ReceiveAll(e, chunks); !Matches(r) && ReplyComplete(r.received, r.wanted, r.ending)
  {
    hide Store, CleanWhileArmed, OkThenZeros, ReplyComplete;
    ReceivedGrows(e, chunks);
    ChunksLoseFront(e, chunks, n);
    OkThenZerosIsComplete(n);
    var r := ReceiveAll(e, chunks);
    assert CStr(r.buffer) == [];
    assert forall i: nat :: !OccursAt([], r.wanted, i);
  }

  /** 256 bytes that overflow the buffer, holding the tail of a reply near their start. */
  function OverflowingNoise(): (noise: string)
    ensures |noise| == BUFFER_SIZE && noise[0] == 'x'
  {
    "xK\r\n" + Zeros(BUFFER_SIZE - 4)
  }

  /** A chunk of 256 bytes or more, from index 0 on, leaves its first 256 behind with only the
      first of them cleared; the rest is dropped. */
  lemma LongChunkWraps(buffer: string, chunk: string)
    requires |buffer| == BUFFER_SIZE && |chunk| >= BUFFER_SIZE
    ensures Store(buffer, 0, chunk) == (chunk[..BUFFER_SIZE][0 := '\0'], 0)
  {
    var first, last := chunk[..255], chunk[255..];
    assert chunk == first + last;
    StoreSplit(buffer, 0, first, last);
    StoreShort(buffer, 0, first);
    var filled := Store(buffer, 0, first).0;
    assert filled[..255] == first;
    assert filled[255 := last[0]] == chunk[..BUFFER_SIZE];
  }

  lemma NoOkInNoise()
    ensures !Contains("xK\r\n", "OK\r\n") && !Contains("", "OK\r\n")
  {
    var text, pattern := "xK\r\n", "OK\r\n";
    assert text[0..4] == text && text[0] != pattern[0];
  }

  /** An engine that has received nothing, or only bytes behind a NUL, and stands at index 0. */
  predicate Emptied(e: Engine) {
    && WellFormed(e) && e.index == 0 && (e.received == [] || e.received[0] == '\0')
    && e.wanted == "OK\r\n" && e.ending == []
  }

  lemma NoiseThenStrayByte(e: Engine, rest: string)
    requires Emptied(e)
    ensures var r := Receive(Receive(e, OverflowingNoise() + rest), "O");
            && r.buffer == "OK\r\n" + Zeros(252) && r.wanted == e.wanted && r.ending == e.ending
            && r.received == e.received + (OverflowingNoise() + rest) + "O"
  {
    var chunk := OverflowingNoise() + rest;
    assert chunk[..BUFFER_SIZE] == OverflowingNoise();
    var wrapped := OverflowingNoise()[0 := '\0'];
    LongChunkWraps(e.buffer, chunk);
    StoreShort(wrapped, 0, "O");
    assert wrapped[..0] + "O" + wrapped[1..] == "OK\r\n" + Zeros(252);
  }

  lemma OkBufferText()
    ensures Contains(CStr("OK\r\n" + Zeros(252)), "OK\r\n")
  {
    CStrPadded("OK\r\n", 252);
    CStrPlain("OK\r\n");
    assert OccursAt("OK\r\n", "OK\r\n", 0);
  }

  lemma NoiseIsNoReply(e: Engine, rest: string)
    requires Emptied(e)
    ensures !ReplyComplete(e.received + (OverflowingNoise() + rest) + "O", "OK\r\n", "")
  {
    var text := e.received + (OverflowingNoise() + rest) + "O";
    NoOkInNoise();
    if e.received == [] {
      assert text[4] == '\0' && text[..4] == "xK\r\n";
      CStrOfNoise(text, "xK\r\n");
    } else {
      assert text[0] == '\0';
    }
  }

  /** The bound is exact for soundness too: for every length from 257 on there are bytes, in
      chunks no longer than the DMA buffer, whose overflow completes a reply never received. */
  lemma {:induction false} OverflowFakesReply(e: Engine, n: nat) returns (chunks: seq<string>)
    requires Emptied(e) && n > 256
    ensures forall i | 0 <= i < |chunks| :: |chunks[i]| <= 768
    ensures var r := ReceiveAll(e, chunks);
            && |r.received| == |e.received| + n
            && Matches(r) && !ReplyComplete(r.received, r.wanted, r.ending)
    decreases n
  {
    hide Store, CStr, Contains, Zeros, ReplyComplete;
    if n > 2 * BUFFER_SIZE {
      var zeros := Zeros(BUFFER_SIZE);
      LongChunkWraps(e.buffer, zeros);
      assert zeros[..BUFFER_SIZE] == zeros;
      var later := OverflowFakesReply(Receive(e, zeros), n - BUFFER_SIZE);
      chunks := [zeros] + later;
      assert chunks[1..] == later;
    } else {
      var noise := OverflowingNoise() + Zeros(n - 1 - BUFFER_SIZE);
      chunks := [noise, "O"];
      assert chunks[1..] == ["O"] && ["O"][1..] == [];
      assert ReceiveAll(e, chunks) == ReceiveAll(Receive(e, noise), ["O"]) == Receive(Receive(e, noise), "O")
      by {
        assert ReceiveAll(Receive(Receive(e, noise), "O"), []) == Receive(Receive(e, noise), "O");
      }
      NoiseThenStrayByte(e, Zeros(n - 1 - BUFFER_SIZE));
      NoiseIsNoReply(e, Zeros(n - 1 - BUFFER_SIZE));
      OkBufferText();
    }
  }
}
