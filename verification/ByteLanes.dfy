/** Four bytes packed into a 32-bit word, as the priority and attribute registers hold them. */
module ByteLanes {
  /** Where the byte of item `n` starts in its word, in bits. */
  function BitShift(n: bv32): (s: bv32)
    ensures s <= 24
  {
    (n & 3) * 8
  }

  function GetByte(word: bv32, n: bv32): bv32 {
    (word >> BitShift(n)) & 0xFF
  }

  function SetByte(word: bv32, n: bv32, value: bv32): bv32 {
    (word & !((0xFF as bv32) << BitShift(n))) | ((value & 0xFF) << BitShift(n))
  }

  /** Byte `lane` of a word, the lowest first. */
  function ByteAt(word: bv32, lane: bv32): bv32
    requires lane < 4
  {
    if lane == 0 then word & 0xFF
    else if lane == 1 then (word >> 8) & 0xFF
    else if lane == 2 then (word >> 16) & 0xFF
    else (word >> 24) & 0xFF
  }

  /** The bytes lie in the word in the order of their items, the first one lowest. */
  lemma LaneLayout(word: bv32, n: bv32)
    ensures GetByte(word, n) == ByteAt(word, n & 3)
  {
    var lane := n & 3;
    assert lane == 0 || lane == 1 || lane == 2 || lane == 3;
  }

  predicate SameLane(n: bv32, other: bv32) {
    n & 3 == other & 3
  }

  lemma SameLaneAsItself(n: bv32)
    ensures SameLane(n, n)
  {
  }

  /** A store puts the value into its own byte and leaves the other three alone. */
  lemma StoreLayout(word: bv32, n: bv32, value: bv32, lane: bv32)
    requires lane < 4
    ensures ByteAt(SetByte(word, n, value), lane) == if lane == n & 3 then value & 0xFF else ByteAt(word, lane)
  {
    hide GetByte, SetByte, ByteAt, SameLane;
    LaneIsItself(lane);
    SameLaneIs(n, lane);
    OtherLanesStay(word, n, lane, value);
    LaneLayout(SetByte(word, n, value), lane);
    LaneLayout(word, lane);
  }

  lemma LaneIsItself(lane: bv32)
    requires lane < 4
    ensures lane & 3 == lane
  {
  }

  lemma SameLaneIs(n: bv32, lane: bv32)
    requires lane < 4
    ensures SameLane(n, lane) <==> lane == n & 3
  {
  }

  /** Storing one byte lane leaves the other three alone. */
  lemma OtherLanesStay(word: bv32, n: bv32, other: bv32, value: bv32)
    ensures GetByte(SetByte(word, n, value), other)
         == if SameLane(n, other) then value & 0xFF else GetByte(word, other)
  {
    var lane, lane' := n & 3, other & 3;
    assert lane == 0 || lane == 1 || lane == 2 || lane == 3;
    if lane == 0 {
      assert BitShift(n) == 0;
    } else if lane == 1 {
      assert BitShift(n) == 8;
    } else if lane == 2 {
      assert BitShift(n) == 16;
    } else {
      assert BitShift(n) == 24;
    }
    assert lane' == 0 || lane' == 1 || lane' == 2 || lane' == 3;
  }
}
