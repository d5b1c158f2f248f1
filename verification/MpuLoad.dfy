/** The banked table load of the Armv8-M memory protection unit. */
module MpuLoad {
  import opened Words
  import opened ByteLanes

  datatype Region = Region(rbar: Word, rlar: Word)

  /** The words of a table, as a pointer to its first RBAR walks over them. */
  function TableWord(table: seq<Region>, i: nat): Word
    requires i < 2 * |table|
  {
    if i % 2 == 0 then table[i / 2].rbar else table[i / 2].rlar
  }

  /** The region behind the k-th word from RBAR: RBAR and RLAR themselves address the selected
      region, alias n the n-th region of the selected region's bank. */
  function Addressed(rnr: nat, aliases: nat, k: nat): nat
    requires aliases >= 1
  {
    if k < 2 then rnr else rnr / aliases * aliases + k / 2
  }

  /** ARM_MPU_SetRegionEx for each table entry in turn: the load without any banking. */
  function LoadOneByOne(regions: seq<Region>, rnr: nat, table: seq<Region>): (r: seq<Region>)
    requires rnr + |table| <= |regions|
    ensures |r| == |regions|
    decreases |table|
  {
    if table == [] then regions
    else LoadOneByOne(regions[rnr := table[0]], rnr + 1, table[1..])
  }

  /** Where each region ends up: the loaded range holds the table, the rest is untouched. */
  lemma {:induction false} LoadedAt(regions: seq<Region>, rnr: nat, table: seq<Region>, i: nat)
    requires rnr + |table| <= |regions| && i < |regions|
    ensures LoadOneByOne(regions, rnr, table)[i]
         == if rnr <= i < rnr + |table| then table[i - rnr] else regions[i]
    decreases |table|
  {
    if table != [] {
      LoadedAt(regions[rnr := table[0]], rnr + 1, table[1..], i);
    }
  }

  /** The registers: RNR and, behind the windows, all regions. `aliases` is MPU_TYPE_RALIASES. */
  class Mpu {
    const aliases: nat
    const regions: array<Region>
    var rnr: nat

    ghost predicate Valid() {
      aliases == 1 || aliases == 4
    }

    constructor (aliases: nat, count: nat)
      requires aliases == 1 || aliases == 4
      ensures Valid() && fresh(regions) && regions.Length == count && this.aliases == aliases
    {
      this.aliases := aliases;
      regions := new Region[count](_ => Region(0, 0));
      rnr := 0;
    }

    /** A store to the k-th word from RBAR. */
    method Store(k: nat, word: Word)
      requires Valid() && k < 2 * aliases && Addressed(rnr, aliases, k) < regions.Length
      modifies regions
      ensures var i := Addressed(rnr, aliases, k);
              regions[..] == old(regions[..])[i := if k % 2 == 0 then old(regions[i]).(rbar := word)
                                                   else old(regions[i]).(rlar := word)]
    {
      var i := Addressed(rnr, aliases, k);
      regions[i] := if k % 2 == 0 then regions[i].(rbar := word) else regions[i].(rlar := word);
    }

    /** orderedCpy of `count` table entries, word by word, from the window at `offset` on. */
    method OrderedCpy(offset: nat, table: seq<Region>, first: nat, count: nat)
      requires Valid() && first + count <= |table|
      requires offset + count <= aliases && rnr + offset + count <= regions.Length
      requires (count == 1 && offset == 0) || rnr % aliases == 0
      modifies regions
      ensures forall i | 0 <= i < regions.Length ::
                regions[i] == if rnr + offset <= i < rnr + offset + count then table[first + i - rnr - offset]
                              else old(regions[i])
    {
      hide Addressed, TableWord, Copied;
      ghost var before, entries := regions[..], table[first..first + count];
      CopyStarts(before, rnr + offset, entries);
      for i := 0 to 2 * count
        invariant Copied(regions[..], before, rnr + offset, entries, i)
      {
        WindowIs(rnr, aliases, offset, i);
        EntryWord(table, first, count, i);
        CopyStep(regions[..], before, rnr + offset, entries, i);
        Store(2 * offset + i, TableWord(table, 2 * first + i));
      }
      CopyDone(regions[..], before, rnr + offset, entries);
    }

    /** ARM_MPU_LoadEx. */
    method LoadEx(number: nat, table: seq<Region>)
      requires Valid() && number + |table| <= regions.Length
      modifies this, regions
      ensures regions[..] == LoadOneByOne(old(regions[..]), number, table)
    {
      ghost var before := regions[..];
      if |table| == 1 {
        rnr := number;
        OrderedCpy(0, table, 0, 1);
      } else {
        var base: nat, offset: nat := number / aliases * aliases, number % aliases;
        var first: nat, count: nat := 0, |table|;
        rnr := base;
        BankOf(number, aliases);
        while offset + count > aliases
          invariant first + count == |table| && offset < aliases
          invariant rnr == base && base % aliases == 0 && base + offset == number + first
          invariant forall i | 0 <= i < regions.Length ::
            regions[i] == if number <= i < number + first then table[i - number] else before[i]
          decreases count
        {
          var c := aliases - offset;
          OrderedCpy(offset, table, first, c);
          first := first + c;
          count := count - c;
          offset := 0;
          NextBank(base, aliases);
          base := base + aliases;
          rnr := base;
        }
        OrderedCpy(offset, table, first, count);
      }
      ghost var loaded := LoadOneByOne(before, number, table);
      forall i | 0 <= i < regions.Length ensures regions[i] == loaded[i] {
        LoadedAt(before, number, table, i);
      }
    }
  }

  /** A region lies in the bank that its number rounds down to. */
  lemma BankOf(number: nat, aliases: nat)
    requires aliases == 1 || aliases == 4
    ensures number / aliases * aliases % aliases == 0 && number % aliases < aliases
    ensures number / aliases * aliases + number % aliases == number
  {
  }

  lemma NextBank(base: nat, aliases: nat)
    requires (aliases == 1 || aliases == 4) && base % aliases == 0
    ensures (base + aliases) % aliases == 0
  {
  }

  /** The regions after the first `i` words of `entries` were stored from region `at` on. */
  predicate Copied(regions: seq<Region>, before: seq<Region>, at: nat, entries: seq<Region>, i: nat) {
    && |regions| == |before| && at + |entries| <= |before| && i <= 2 * |entries|
    && forall j | 0 <= j < |regions| ::
         regions[j] == if at <= j < at + i / 2 then entries[j - at]
                       else if i % 2 == 1 && j == at + i / 2 then before[j].(rbar := entries[i / 2].rbar)
                       else before[j]
  }

  lemma CopyStarts(before: seq<Region>, at: nat, entries: seq<Region>)
    requires at + |entries| <= |before|
    ensures Copied(before, before, at, entries, 0)
  {
  }

  lemma CopyStep(regions: seq<Region>, before: seq<Region>, at: nat, entries: seq<Region>, i: nat)
    requires Copied(regions, before, at, entries, i) && i < 2 * |entries|
    ensures var k := at + i / 2;
            k < |regions| && Copied(regions[k := if i % 2 == 0 then regions[k].(rbar := TableWord(entries, i))
                                else regions[k].(rlar := TableWord(entries, i))],
                   before, at, entries, i + 1)
  {
  }

  lemma CopyDone(regions: seq<Region>, before: seq<Region>, at: nat, entries: seq<Region>)
    requires Copied(regions, before, at, entries, 2 * |entries|)
    ensures forall j | 0 <= j < |regions| ::
              regions[j] == if at <= j < at + |entries| then entries[j - at] else before[j]
  {
  }

  /** A word of a stretch of the table is a word of the table. */
  lemma EntryWord(table: seq<Region>, first: nat, count: nat, i: nat)
    requires first + count <= |table| && i < 2 * count
    ensures TableWord(table[first..first + count], i) == TableWord(table, 2 * first + i)
  {
    assert (2 * first + i) / 2 == first + i / 2;
  }

  /** The window word that a copy of whole entries reaches next. */
  lemma WindowIs(rnr: nat, aliases: nat, offset: nat, i: nat)
    requires aliases >= 1 && (rnr % aliases == 0 || (offset == 0 && i < 2))
    ensures Addressed(rnr, aliases, 2 * offset + i) == rnr + offset + i / 2
    ensures (2 * offset + i) % 2 == i % 2
  {
    if rnr % aliases == 0 {
      assert rnr / aliases * aliases == rnr;
    }
  }

  /** ARM_MPU_SetMemAttrEx on the two MAIR words; an index above 7 changes nothing. */
  function SetMemAttr(mair: seq<bv32>, idx: bv32, attr: bv32): (r: seq<bv32>)
    requires |mair| == 2 && idx < 256
    ensures |r| == 2
    ensures idx >= 8 ==> r == mair
    ensures forall other: bv32 | other < 8 ::
              Attribute(r, other) == if other == idx then attr & 0xFF else Attribute(mair, other)
  {
    var reg := Register(idx);
    if reg >= 2 then mair
    else
      var r := mair[reg := SetByte(mair[reg], idx, attr)];
      AttributesApart(mair, r, idx, attr);
      r
  }

  /** The MAIR word of an attribute. */
  function Register(idx: bv32): nat
    requires idx < 256
  {
    (idx >> 2) as nat
  }

  lemma RegisterRange(idx: bv32)
    requires idx < 256
    ensures Register(idx) < 2 <==> idx < 8
  {
    assert idx >> 2 < 2 <==> idx < 8;
  }

  /** The attribute stored at an index. */
  function Attribute(mair: seq<bv32>, idx: bv32): bv32
    requires |mair| == 2 && idx < 8
  {
    RegisterRange(idx);
    GetByte(mair[Register(idx)], idx)
  }

  lemma AttributesApart(mair: seq<bv32>, r: seq<bv32>, idx: bv32, attr: bv32)
    requires |mair| == 2 && idx < 256 && Register(idx) < 2
    requires r == mair[Register(idx) := SetByte(mair[Register(idx)], idx, attr)]
    ensures forall other: bv32 | other < 8 ::
              Attribute(r, other) == if other == idx then attr & 0xFF else Attribute(mair, other)
  {
    hide GetByte, SetByte, SameLane;
    forall other: bv32 | other < 8
      ensures Attribute(r, other) == if other == idx then attr & 0xFF else Attribute(mair, other)
    {
      OtherLanesStay(mair[Register(idx)], idx, other, attr);
      AttributeHomes(idx, other);
    }
  }

  /** Two attributes share the word and the lane only if they are the same. */
  lemma AttributeHomes(idx: bv32, other: bv32)
    requires idx < 256 && other < 8
    ensures SameLane(idx, other) && Register(idx) == Register(other) <==> idx == other
  {
    assert idx & 3 == other & 3 && idx >> 2 == other >> 2 ==> idx == other;
  }

  /** Attributes 0 to 3 are the bytes of MAIR0 from the lowest on, 4 to 7 those of MAIR1. */
  lemma AttributeLayout(mair: seq<bv32>, idx: bv32, attr: bv32)
    requires |mair| == 2 && idx < 8
    ensures Register(idx) == if idx < 4 then 0 else 1
    ensures Attribute(mair, idx) == ByteAt(mair[if idx < 4 then 0 else 1], idx & 3)
    ensures ByteAt(SetMemAttr(mair, idx, attr)[if idx < 4 then 0 else 1], idx & 3) == attr & 0xFF
  {
    hide GetByte, SetByte, ByteAt;
    assert idx >> 2 == if idx < 4 then 0 else 1;
    LaneLayout(mair[Register(idx)], idx);
    LaneLayout(SetMemAttr(mair, idx, attr)[Register(idx)], idx);
  }

  /** The eight words from RBAR on with four aliases: RBAR and RLAR of the selected region, then
      those of the second, third and fourth region of its bank. */
  lemma FourWindows(rnr: nat)
    ensures var bank := rnr - rnr % 4;
            && Addressed(rnr, 4, 0) == Addressed(rnr, 4, 1) == rnr
            && Addressed(rnr, 4, 2) == Addressed(rnr, 4, 3) == bank + 1
            && Addressed(rnr, 4, 4) == Addressed(rnr, 4, 5) == bank + 2
            && Addressed(rnr, 4, 6) == Addressed(rnr, 4, 7) == bank + 3
  {
  }
}
