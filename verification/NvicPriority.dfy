/** Interrupt priorities of the Cortex-M0+: group encoding and the packed byte lanes. All
    values are the 32-bit words of the source. */
module NvicPriority {
  import opened ByteLanes

  /** __NVIC_PRIO_BITS of the STM32L0 family. */
  const PRIO_BITS: bv32 := 2

  /** Bits of the preemption priority in a group, for any number of implemented bits. */
  function PreemptBits(group: bv32, bits: bv32): bv32 {
    var g := group & 7;
    if 7 - g > bits then bits else 7 - g
  }

  /** Bits of the subpriority in a group. */
  function SubBits(group: bv32, bits: bv32): bv32 {
    var g := group & 7;
    if g + bits < 7 then 0 else (g - 7) + bits
  }

  /** Whatever the group, the two fields share out exactly the implemented bits. */
  lemma BitsSum(group: bv32, bits: bv32)
    requires bits <= 8
    ensures PreemptBits(group, bits) + SubBits(group, bits) == bits
    ensures PreemptBits(group, bits) <= bits && SubBits(group, bits) <= bits
  {
    assert group & 7 <= 7;
  }

  /** The groups of a part with two priority bits: all of them preempt up to group 5, one each in
      group 6, none in group 7. */
  lemma Groups(group: bv32)
    ensures PreemptBits(group, 2) == (if group & 7 <= 5 then 2 else if group & 7 == 6 then 1 else 0)
    ensures SubBits(group, 2) == (if group & 7 <= 5 then 0 else if group & 7 == 6 then 1 else 2)
  {
  }

  function Mask(bits: bv32): bv32
    requires bits <= 8
  {
    ((1 as bv32) << bits) - 1
  }

  lemma MaskFits(bits: bv32)
    requires bits <= 2
    ensures Mask(bits) <= 3
  {
  }

  lemma MaskedFits(x: bv32, mask: bv32)
    requires mask <= 3
    ensures x & mask <= 3
  {
  }

  /** NVIC_EncodePriority. */
  function Encode(group: bv32, preempt: bv32, sub: bv32): bv32 {
    BitsSum(group, PRIO_BITS);
    var p, s := PreemptBits(group, PRIO_BITS), SubBits(group, PRIO_BITS);
    ((preempt & Mask(p)) << s) | (sub & Mask(s))
  }

  /** The preemption priority stands above the subpriority. */
  lemma EncodeLayout(group: bv32, preempt: bv32, sub: bv32)
    ensures Encode(group, preempt, sub)
         == if group & 7 <= 5 then preempt & 3
            else if group & 7 == 6 then (preempt & 1) * 2 + (sub & 1)
            else sub & 3
  {
    hide PreemptBits, SubBits;
    Groups(group);
  }

  /** NVIC_DecodePriority. */
  function Decode(priority: bv32, group: bv32): (bv32, bv32) {
    BitsSum(group, PRIO_BITS);
    var p, s := PreemptBits(group, PRIO_BITS), SubBits(group, PRIO_BITS);
    ((priority >> s) & Mask(p), priority & Mask(s))
  }

  /** Decoding an encoded priority gives both parts back, masked to their widths, and the code
      fits the implemented bits. */
  lemma DecodeEncode(group: bv32, preempt: bv32, sub: bv32)
    ensures PreemptBits(group, PRIO_BITS) <= 2 && SubBits(group, PRIO_BITS) <= 2
    ensures Decode(Encode(group, preempt, sub), group)
         == (preempt & Mask(PreemptBits(group, PRIO_BITS)), sub & Mask(SubBits(group, PRIO_BITS)))
    ensures Encode(group, preempt, sub) <= 3
  {
    BitsSum(group, PRIO_BITS);
    var p, s := PreemptBits(group, PRIO_BITS), SubBits(group, PRIO_BITS);
    if p == 0 {
      assert s == 2;
    } else if p == 1 {
      assert s == 1;
    } else {
      assert p == 2 && s == 0;
    }
  }

  /** IRQn as the 32-bit word the macros cast it to: device interrupts from 0 on, and the
      system handlers whose priority can be set, from -8 to -1. */
  predicate HasPriority(irq: bv32) {
    irq < 32 || irq >= 0xFFFF_FFF8
  }

  predicate IsDevice(irq: bv32) {
    irq < 0x8000_0000
  }

  /** _IP_IDX. */
  function IpIndex(irq: bv32): (i: nat)
    requires irq < 32
    ensures i < 8
  {
    assert irq >> 2 < 8;
    (irq >> 2) as nat
  }

  /** _SHP_IDX. */
  function ShpIndex(irq: bv32): (i: nat)
    requires irq >= 0xFFFF_FFF8
    ensures i < 2
  {
    assert ((irq & 0xF) - 8) >> 2 < 2;
    (((irq & 0xF) - 8) >> 2) as nat
  }

  /** NVIC->IP and SCB->SHP. */
  datatype Registers = Registers(ip: seq<bv32>, shp: seq<bv32>)

  predicate WellFormed(r: Registers) {
    |r.ip| == 8 && |r.shp| == 2
  }

  /** A priority in the implemented, upper bits of its byte, and back. */
  function Packed(priority: bv32): bv32 {
    (priority << (8 - PRIO_BITS)) & 0xFF
  }

  function Unpacked(byte: bv32): bv32 {
    byte >> (8 - PRIO_BITS)
  }

  lemma PackedBits(priority: bv32)
    ensures Unpacked(Packed(priority) & 0xFF) == priority & 3
  {
  }

  /** __NVIC_SetPriority. */
  function SetPriority(r: Registers, irq: bv32, priority: bv32): (s: Registers)
    requires WellFormed(r) && HasPriority(irq)
    ensures WellFormed(s)
  {
    var value := Packed(priority);
    if IsDevice(irq) then
      r.(ip := r.ip[IpIndex(irq) := SetByte(r.ip[IpIndex(irq)], irq, value)])
    else
      r.(shp := r.shp[ShpIndex(irq) := SetByte(r.shp[ShpIndex(irq)], irq, value)])
  }

  /** __NVIC_GetPriority. */
  function GetPriority(r: Registers, irq: bv32): bv32
    requires WellFormed(r) && HasPriority(irq)
  {
    Unpacked(GetByte(if IsDevice(irq) then r.ip[IpIndex(irq)] else r.shp[ShpIndex(irq)], irq))
  }

  /** No two interrupts share both the word and the lane. */
  lemma LanesAreTheirOwn(irq: bv32, other: bv32)
    requires HasPriority(irq) && HasPriority(other) && irq != other && IsDevice(irq) == IsDevice(other)
    requires SameLane(irq, other)
    ensures IsDevice(irq) ==> IpIndex(irq) != IpIndex(other)
    ensures !IsDevice(irq) ==> ShpIndex(irq) != ShpIndex(other)
  {
    if IsDevice(irq) {
      assert irq >> 2 != other >> 2;
    } else {
      assert ((irq & 0xF) - 8) >> 2 != ((other & 0xF) - 8) >> 2;
    }
  }

  /** Setting one interrupt's priority is read back from it and seen by no other interrupt. */
  lemma SetThenGet(r: Registers, irq: bv32, other: bv32, priority: bv32)
    requires WellFormed(r) && HasPriority(irq) && HasPriority(other)
    ensures GetPriority(SetPriority(r, irq, priority), other)
         == if other == irq then priority & 3 else GetPriority(r, other)
  {
    hide GetByte, SetByte, Packed, Unpacked, SameLane, IpIndex, ShpIndex;
    var value := Packed(priority);
    PackedBits(priority);
    SameLaneAsItself(irq);
    var word := if IsDevice(irq) then r.ip[IpIndex(irq)] else r.shp[ShpIndex(irq)];
    OtherLanesStay(word, irq, other, value);
    if irq != other && IsDevice(irq) == IsDevice(other) && SameLane(irq, other) {
      LanesAreTheirOwn(irq, other);
    }
  }

  /** Four interrupts to a word. */
  lemma IpWords(irq: bv32)
    requires irq < 32
    ensures IpIndex(irq) == if irq < 4 then 0 else if irq < 8 then 1 else if irq < 12 then 2 else if irq < 16 then 3
                            else if irq < 20 then 4 else if irq < 24 then 5 else if irq < 28 then 6 else 7
  {
    var i := irq >> 2;
    assert i == if irq < 4 then 0 else if irq < 8 then 1 else if irq < 12 then 2 else if irq < 16 then 3
                else if irq < 20 then 4 else if irq < 24 then 5 else if irq < 28 then 6 else 7;
  }

  /** The handlers from -8 to -5 in the first word, those from -4 to -1 in the second. */
  lemma ShpWords(irq: bv32)
    requires irq >= 0xFFFF_FFF8
    ensures ShpIndex(irq) == if irq < 0xFFFF_FFFC then 0 else 1
  {
    var i := ((irq & 0xF) - 8) >> 2;
    assert i == if irq < 0xFFFF_FFFC then 0 else 1;
  }

  /** Where a priority goes: the two implemented bits at the top of byte irq mod 4 of its word,
      nothing below them, and no other byte of either register block changes. */
  lemma PriorityLayout(r: Registers, irq: bv32, priority: bv32, i: nat, lane: bv32)
    requires WellFormed(r) && HasPriority(irq) && lane < 4
    ensures var s := SetPriority(r, irq, priority);
            && (i < 8 ==> ByteAt(s.ip[i], lane)
                          == if IsDevice(irq) && i == IpIndex(irq) && lane == irq & 3 then (priority & 3) * 64
                             else ByteAt(r.ip[i], lane))
            && (i < 2 ==> ByteAt(s.shp[i], lane)
                          == if !IsDevice(irq) && i == ShpIndex(irq) && lane == irq & 3 then (priority & 3) * 64
                             else ByteAt(r.shp[i], lane))
  {
    hide SetByte, ByteAt, Packed, IpIndex, ShpIndex;
    PackedPlace(priority);
    var word := if IsDevice(irq) then r.ip[IpIndex(irq)] else r.shp[ShpIndex(irq)];
    StoreLayout(word, irq, Packed(priority), lane);
  }

  lemma PackedPlace(priority: bv32)
    ensures Packed(priority) & 0xFF == (priority & 3) * 64
  {
  }

  /** The round trip: what Encode packed and SetPriority stored, GetPriority and Decode return
      as the two parts masked to their widths, and every other interrupt keeps its priority. */
  lemma PriorityRoundTrip(r: Registers, irq: bv32, other: bv32, group: bv32, preempt: bv32, sub: bv32)
    requires WellFormed(r) && HasPriority(irq) && HasPriority(other)
    ensures PreemptBits(group, PRIO_BITS) <= 2 && SubBits(group, PRIO_BITS) <= 2
    ensures var s := SetPriority(r, irq, Encode(group, preempt, sub));
            && Decode(GetPriority(s, irq), group)
               == (preempt & Mask(PreemptBits(group, PRIO_BITS)), sub & Mask(SubBits(group, PRIO_BITS)))
            && (other != irq ==> GetPriority(s, other) == GetPriority(r, other))
  {
    hide Encode, Decode, Mask, GetPriority, SetPriority;
    DecodeEncode(group, preempt, sub);
    var code := Encode(group, preempt, sub);
    assert code & 3 == code;
    SetThenGet(r, irq, irq, code);
    SetThenGet(r, irq, other, code);
  }

  /** The two register blocks and the functions that write them. */
  class Nvic {
    const ip: array<bv32>
    const shp: array<bv32>

    ghost predicate Valid() {
      ip.Length == 8 && shp.Length == 2 && ip != shp
    }

    ghost function View(): (r: Registers)
      requires Valid()
      reads ip, shp
      ensures WellFormed(r)
    {
      Registers(ip[..], shp[..])
    }

    constructor ()
      ensures Valid() && fresh(ip) && fresh(shp)
    {
      ip := new bv32[8](_ => 0);
      shp := new bv32[2](_ => 0);
    }

    /** __NVIC_SetPriority. */
    method Set(irq: bv32, priority: bv32)
      requires Valid() && HasPriority(irq)
      modifies ip, shp
      ensures View() == SetPriority(old(View()), irq, priority)
    {
      hide SetByte;
      if IsDevice(irq) {
        var i := IpIndex(irq);
        ip[i] := SetByte(ip[i], irq, Packed(priority));
      } else {
        var i := ShpIndex(irq);
        shp[i] := SetByte(shp[i], irq, Packed(priority));
      }
    }

    /** NVIC_DecodePriority stores both parts through its out-pointers. */
    method DecodePriority(priority: bv32, group: bv32) returns (preempt: bv32, sub: bv32)
      ensures (preempt, sub) == Decode(priority, group)
      ensures preempt <= 3 && sub <= 3
    {
      hide Mask, PreemptBits, SubBits;
      BitsSum(group, PRIO_BITS);
      var p, s := PreemptBits(group, PRIO_BITS), SubBits(group, PRIO_BITS);
      preempt := (priority >> s) & Mask(p);
      sub := priority & Mask(s);
      MaskFits(p);
      MaskFits(s);
      MaskedFits(priority >> s, Mask(p));
      MaskedFits(priority, Mask(s));
    }
  }
}
