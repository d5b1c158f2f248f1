/** The reply parsers of gsm_utilities.c in their own form: loops that accumulate a value or
    fill a caller's buffer. */
module Utilities {
  import opened Words
  import opened CStrings
  import opened Replies
  import opened AtEngine

  lemma {:induction false} DigitRunIs(text: string, n: nat)
    requires n <= |text| && AllDigits(text[..n])
    requires n < |text| ==> !IsDigit(text[n])
    ensures DigitRun(text) == text[..n]
    decreases n
  {
    if n > 0 {
      assert IsDigit(text[..n][0]);
      assert text[..n][1..] == text[1..][..n - 1];
      DigitRunIs(text[1..], n - 1);
      assert text[..n] == [text[0]] + text[1..][..n - 1];
    }
  }

  /** How far a 16-bit index can see. */
  const INDEX_SPAN: nat := 0x1_0000

  /** The characters the 16-bit index of the number loop meets, in order, from `begin` on: it
      wraps after 65536 of them and starts over. */
  function Sweep(begin: nat, text: string): string
    requires begin < INDEX_SPAN
  {
    if |text| < INDEX_SPAN then (if begin <= |text| then text[begin..] else [])
    else text[begin..INDEX_SPAN] + text[..begin]
  }

  /** Without a wrap the sweep is the rest of the text. */
  lemma SweepIsRest(begin: nat, text: string)
    requires begin < INDEX_SPAN && |text| < INDEX_SPAN
    ensures DecimalValue(DigitRun(Sweep(begin, text))) % TICKS == NumberAt(begin, text)
  {
    assert begin == |text| ==> text[begin..] == [];
  }

  /** The number loop after `k` characters of its sweep. */
  predicate Counted(sweep: string, k: nat, value: Word) {
    k <= |sweep| && AllDigits(sweep[..k]) && value == DecimalValue(sweep[..k]) % TICKS
  }

  lemma CountedStep(sweep: string, k: nat, value: Word)
    requires Counted(sweep, k, value) && k < |sweep| && IsDigit(sweep[k])
    ensures var digit := sweep[k] as int - '0' as int;
            digit >= 0 && Counted(sweep, k + 1, (value * 10 % TICKS + digit) % TICKS)
  {
    var seen, longer := sweep[..k], sweep[..k + 1];
    assert longer[..|longer| - 1] == seen && longer[|longer| - 1] == sweep[k];
    WrappedDigit(DecimalValue(seen), sweep[k] as int - '0' as int);
  }

  lemma CountedEnd(sweep: string, k: nat, value: Word)
    requires Counted(sweep, k, value) && (k < |sweep| ==> !IsDigit(sweep[k]))
    ensures value == DecimalValue(DigitRun(sweep)) % TICKS
  {
    DigitRunIs(sweep, k);
  }

  /** A text that does not consist of digits as far as the index can see. */
  predicate NumberEnds(text: string) {
    |text| < INDEX_SPAN || !AllDigits(text[..INDEX_SPAN])
  }

  /** Where the index stands after `k` characters, and that it has not gone round. */
  lemma SweepAt(begin: nat, text: string, k: nat)
    requires begin < INDEX_SPAN && NumberEnds(text) && k <= |Sweep(begin, text)|
    requires AllDigits(Sweep(begin, text)[..k])
    ensures var tmp := (begin + k) % INDEX_SPAN;
            k < |Sweep(begin, text)| <==> tmp < |text|
    ensures k < |Sweep(begin, text)| ==> Sweep(begin, text)[k] == text[(begin + k) % INDEX_SPAN]
  {
    WrapIndex(begin + k);
    var sweep := Sweep(begin, text);
    if |text| < INDEX_SPAN {
      assert begin + k < INDEX_SPAN;
    } else if k == |sweep| {
      assert sweep[..k] == sweep;
      SweptDigits(begin, text);
    } else {
      assert k < INDEX_SPAN - begin ==> sweep[k] == text[begin..INDEX_SPAN][k];
      assert k >= INDEX_SPAN - begin ==> sweep[k] == text[..begin][k - (INDEX_SPAN - begin)];
    }
  }

  lemma WrapIndex(x: nat)
    requires x < 2 * INDEX_SPAN
    ensures x % INDEX_SPAN == if x < INDEX_SPAN then x else x - INDEX_SPAN
  {
  }

  /** A sweep of digits only has met every character in front of the wrap. */
  lemma SweptDigits(begin: nat, text: string)
    requires begin < INDEX_SPAN <= |text| && AllDigits(Sweep(begin, text))
    ensures AllDigits(text[..INDEX_SPAN])
  {
    var sweep := Sweep(begin, text);
    forall i | 0 <= i < INDEX_SPAN ensures IsDigit(text[..INDEX_SPAN][i]) {
      if i >= begin {
        assert sweep[i - begin] == text[i];
      } else {
        assert sweep[i + (INDEX_SPAN - begin)] == text[i];
      }
    }
  }

  /** gsm_utilities_get_number_from_string, whose index is 16 bits wide. It ends for every text
      but one that has 65536 digits in front, where it would run for ever. */
  method GetNumberFromString(begin: nat, text: string) returns (value: Word)
    requires begin < INDEX_SPAN && NumberEnds(text)
    ensures value == DecimalValue(DigitRun(Sweep(begin, text))) % TICKS
    ensures |text| < INDEX_SPAN ==> value == NumberAt(begin, text)
  {
    hide Counted, NumberAt, Sweep, NumberEnds, DigitRun, DecimalValue;
    value := 0;
    var tmp := begin;
    ghost var sweep, k := Sweep(begin, text), 0;
    CountedStart(sweep);
    CountedInside(sweep, k, value);
    SweepAt(begin, text, k);
    if |text| < INDEX_SPAN {
      SweepIsRest(begin, text);
    }
    while tmp < |text| && text[tmp] != '\0'
      invariant Counted(sweep, k, value) && k <= |sweep| && tmp == (begin + k) % INDEX_SPAN
      invariant k < |sweep| <==> tmp < |text|
      invariant k < |sweep| ==> sweep[k] == text[tmp]
      decreases |sweep| - k
    {
      if IsDigit(text[tmp]) {
        CountedStep(sweep, k, value);
        value := value * 10 % TICKS;
        value := (value + (text[tmp] as int - '0' as int)) % TICKS;
      } else {
        break;
      }
      k := k + 1;
      CountedInside(sweep, k, value);
      SweepAt(begin, text, k);
      tmp := (tmp + 1) % INDEX_SPAN;
    }
    CountedEnd(sweep, k, value);
  }

  lemma CountedStart(sweep: string)
    ensures Counted(sweep, 0, 0)
  {
  }

  lemma CountedInside(sweep: string, k: nat, value: Word)
    requires Counted(sweep, k, value)
    ensures k <= |sweep| && AllDigits(sweep[..k])
  {
  }

  /** Wrapping at each step is wrapping once at the end. */
  lemma WrappedDigit(value: nat, digit: nat)
    ensures (value % TICKS * 10 % TICKS + digit) % TICKS == (value * 10 + digit) % TICKS
  {
    var q, s := value / TICKS, value % TICKS;
    assert value == TICKS * q + s;
    ModShift(s * 10 + digit, q * 10);
    ModShift(s * 10 % TICKS + digit, s * 10 / TICKS);
  }

  /** Decimal printing, most significant digit first. */
  function Decimal(n: nat): (s: string)
    ensures |s| > 0 && AllDigits(s)
  {
    var last := ['0' + (n % 10) as char];
    if n < 10 then last else Decimal(n / 10) + last
  }

  lemma {:induction false} DecimalReadsBack(n: nat)
    ensures DecimalValue(Decimal(n)) == n
  {
    var s := Decimal(n);
    if n >= 10 {
      DecimalReadsBack(n / 10);
      assert s[..|s| - 1] == Decimal(n / 10);
    } else {
      assert s[..|s| - 1] == [];
    }
  }

  /** Parsing inverts printing for every 32-bit number, wherever it stands in a reply. */
  lemma NumberRoundTrip(n: Word, before: string, after: string)
    requires after == [] || !IsDigit(after[0])
    ensures NumberAt(|before|, before + Decimal(n) + after) == n
  {
    hide Decimal, DecimalValue, DigitRun;
    var text := before + Decimal(n) + after;
    assert text[|before|..] == Decimal(n) + after;
    assert (Decimal(n) + after)[..|Decimal(n)|] == Decimal(n);
    DigitRunIs(Decimal(n) + after, |Decimal(n)|);
    DecimalReadsBack(n);
  }

  lemma DigitsSnoc(text: string, n: nat)
    requires n < |text|
    ensures Digits(text[..n + 1]) == Digits(text[..n]) + (if IsDigit(text[n]) then [text[n]] else [])
  {
    assert text[..n + 1][..n] == text[..n];
  }

  lemma {:induction false} DigitsGrow(text: string, n: nat, m: nat)
    requires n <= m <= |text|
    ensures Digits(text[..n]) <= Digits(text[..m])
    decreases m
  {
    if n < m {
      DigitsGrow(text, n, m - 1);
      DigitsSnoc(text, m - 1);
    }
  }

  /** Digits closed by a NUL read back as those digits. */
  lemma {:induction false} CStrOfDigits(buffer: string, digits: string)
    requires |digits| < |buffer| && buffer[..|digits|] == digits && buffer[|digits|] == '\0' && AllDigits(digits)
    ensures CStr(buffer) == digits
    decreases |digits|
  {
    if digits != [] {
      assert buffer[0] == digits[0] && IsDigit(digits[0]);
      assert buffer[1..][..|digits| - 1] == digits[1..];
      CStrOfDigits(buffer[1..], digits[1..]);
    }
  }

  /** What an 8-bit loop counter sees of a text. */
  const COUNTER_SPAN: nat := 256

  function Seen(text: string): string {
    Take(text, COUNTER_SPAN)
  }

  /** A text read `n` times over. */
  function Times(text: string, n: nat): (r: string)
    ensures text != [] ==> |r| >= n
    ensures AllDigits(text) ==> AllDigits(r)
  {
    if n == 0 then [] else Times(text, n - 1) + text
  }

  lemma {:induction false} TimesGrow(text: string, n: nat, m: nat)
    requires n <= m
    ensures Times(text, n) <= Times(text, m)
    decreases m
  {
    if n < m {
      TimesGrow(text, n, m - 1);
    }
  }

  /** A text on which the 8-bit counter of the IMEI loop comes to an end: short enough, or with
      a digit among its first 256 characters. */
  predicate ImeiEnds(text: string) {
    |text| < COUNTER_SPAN || Digits(Seen(text)) != []
  }

  /** The string gsm_utilities_get_imei leaves for any such text: the first 256 characters of a
      longer one are read round and round until there are enough digits. */
  function ImeiRead(text: string, maxLength: nat): string
    requires maxLength >= 1 && ImeiEnds(text)
  {
    if |text| < COUNTER_SPAN then ImeiText(text, maxLength)
    else Times(Digits(Seen(text)), maxLength)[..maxLength - 1]
  }

  /** Which is what the text says if it is short or enough digits come among the first 256. */
  lemma ImeiReadRight(text: string, maxLength: nat)
    requires maxLength >= 1 && ImeiEnds(text)
    requires |text| < COUNTER_SPAN || |Digits(Seen(text))| >= maxLength - 1
    ensures ImeiRead(text, maxLength) == ImeiText(text, maxLength)
  {
    hide Digits;
    if |text| >= COUNTER_SPAN {
      DigitsGrow(text, COUNTER_SPAN, |text|);
      assert text[..|text|] == text;
      var n, d := maxLength - 1, Digits(Seen(text));
      TimesGrow(d, 1, maxLength);
      assert Times(d, 1) == d by { assert Times(d, 0) == []; }
      assert Take(Digits(text), n) == d[..n] == Times(d, maxLength)[..n];
    }
  }

  /** How many digits the loop meets before it stops: those of a short text, but no more than
      `maxLength`, and always `maxLength` of a longer one. */
  function DigitsMet(text: string, maxLength: nat): (met: nat)
    ensures met <= maxLength
  {
    if |text| >= COUNTER_SPAN || |Digits(text)| >= maxLength then maxLength else |Digits(text)|
  }

  lemma NoDigits(text: string)
    ensures Digits(text[..0]) == []
  {
  }

  /** The digits written so far: those of `turns` whole turns of the counter, and then those of
      the turn under way. */
  predicate Turning(text: string, buffer: string, turns: nat, count: nat, tmp: nat) {
    && count <= |text| && tmp <= |buffer|
    && buffer[..tmp] == Times(Digits(text), turns) + Digits(text[..count])
  }

  lemma TurnDigit(text: string, buffer: string, turns: nat, count: nat, tmp: nat)
    requires Turning(text, buffer, turns, count, tmp) && count < |text| && tmp < |buffer|
    ensures IsDigit(text[count]) ==> Turning(text, buffer[tmp := text[count]], turns, count + 1, tmp + 1)
    ensures !IsDigit(text[count]) ==> Turning(text, buffer, turns, count + 1, tmp)
  {
    hide Digits, Times;
    DigitsSnoc(text, count);
    assert buffer[tmp := text[count]][..tmp + 1] == buffer[..tmp] + [text[count]];
  }

  /** The counter wraps: a whole turn is behind it, and the next one starts. */
  lemma TurnOver(text: string, buffer: string, turns: nat, tmp: nat)
    requires ImeiEnds(text) && |text| >= COUNTER_SPAN
    requires Turning(Seen(text), buffer, turns, COUNTER_SPAN, tmp)
    ensures tmp > turns && Turning(Seen(text), buffer, turns + 1, 0, tmp)
  {
    hide Digits;
    var seen := Seen(text);
    NoDigits(seen);
    assert seen[..COUNTER_SPAN] == seen;
    assert |buffer[..tmp]| == |Times(Digits(seen), turns)| + |Digits(seen)|;
  }

  lemma TurnStarts(text: string, buffer: string)
    ensures Turning(text, buffer, 0, 0, 0)
  {
    NoDigits(text);
  }

  /** There is room for the next digit as long as one is still to be met. */
  lemma RoomForDigit(text: string, buffer: string, turns: nat, count: nat, tmp: nat, maxLength: nat)
    requires Turning(Seen(text), buffer, turns, count, tmp) && tmp < maxLength
    requires count < |Seen(text)| && (|text| < COUNTER_SPAN ==> turns == 0)
    ensures tmp <= DigitsMet(text, maxLength)
    ensures IsDigit(text[count]) ==> tmp < DigitsMet(text, maxLength)
  {
    hide Digits;
    if |text| < COUNTER_SPAN {
      NoTimes(Digits(text));
      DigitsSnoc(text, count);
      DigitsGrow(text, count + 1, |text|);
      assert text[..|text|] == text;
    }
  }

  /** gsm_utilities_get_imei, whose loop counter is 8 bits wide. It ends for every text but a
      long one without a digit among its first 256 characters, on which it would run for ever.
      The last NUL goes behind the digits met: with `maxLength` of them that is at index
      `maxLength`, one past the length the caller names, and otherwise before it. */
  method GetImei(text: string, result: array<char>, maxLength: nat)
    requires 1 <= maxLength <= 255 && ImeiEnds(text) && result.Length > DigitsMet(text, maxLength)
    modifies result
    ensures CStr(result[..]) == ImeiRead(text, maxLength)
    ensures result[DigitsMet(text, maxLength)] == '\0'
    ensures forall i | DigitsMet(text, maxLength) < i < result.Length :: result[i] == old(result[i])
  {
    hide Digits, CStr, ImeiRead, Turning, ImeiEnds, DigitsMet;
    ghost var met := DigitsMet(text, maxLength);
    var count: nat, tmp: nat := 0, 0;
    ghost var seen, turns := Seen(text), 0;
    TurnStarts(seen, result[..]);
    while count < |text|
      invariant Turning(seen, result[..], turns, count, tmp)
      invariant turns <= tmp < maxLength && count < COUNTER_SPAN && count <= |text|
      invariant |text| < COUNTER_SPAN ==> turns == 0
      invariant forall i | met < i < result.Length :: result[i] == old(result[i])
      decreases maxLength - turns, COUNTER_SPAN - count
    {
      RoomForDigit(text, result[..], turns, count, tmp, maxLength);
      TurnDigit(seen, result[..], turns, count, tmp);
      if IsDigit(text[count]) {
        ghost var next := result[..][tmp := text[count]];
        result[tmp] := text[count];
        assert result[..] == next;
        tmp := tmp + 1;
      }
      if tmp >= maxLength {
        ghost var full := result[..];
        AllMet(text, full, turns, count + 1, maxLength);
        result[tmp - 1] := '\0';
        result[tmp] := '\0';
        EnoughDigits(text, full, result[..], turns, count + 1, maxLength);
        return;
      }
      count := (count + 1) % 256;
      if count == 0 {
        TurnOver(text, result[..], turns, tmp);
        turns := turns + 1;
      }
    }
    ghost var short := result[..];
    FewMet(text, short, tmp, maxLength);
    result[tmp] := '\0';
    FewDigits(text, short, result[..], maxLength, tmp);
  }

  lemma AllMet(text: string, buffer: string, turns: nat, count: nat, maxLength: nat)
    requires Turning(Seen(text), buffer, turns, count, maxLength)
    requires |text| < COUNTER_SPAN ==> turns == 0
    ensures DigitsMet(text, maxLength) == maxLength
  {
    hide Digits;
    if |text| < COUNTER_SPAN {
      NoTimes(Digits(text));
      DigitsGrow(text, count, |text|);
      assert text[..|text|] == text;
    }
  }

  lemma FewMet(text: string, buffer: string, tmp: nat, maxLength: nat)
    requires |text| < COUNTER_SPAN && Turning(Seen(text), buffer, 0, |text|, tmp) && tmp < maxLength
    ensures DigitsMet(text, maxLength) == tmp
  {
    hide Digits;
    NoTimes(Digits(text));
    assert text[..|text|] == text;
  }

  /** The buffer when the limit is reached. */
  lemma EnoughDigits(text: string, full: string, buffer: string, turns: nat, count: nat, maxLength: nat)
    requires ImeiEnds(text) && maxLength >= 1 && (|text| < COUNTER_SPAN ==> turns == 0)
    requires Turning(Seen(text), full, turns, count, maxLength)
    requires maxLength < |buffer| && buffer[..maxLength - 1] == full[..maxLength - 1]
    requires buffer[maxLength - 1] == '\0'
    ensures CStr(buffer) == ImeiRead(text, maxLength)
  {
    hide Digits, CStr, Times;
    var seen, d, n := Seen(text), Digits(Seen(text)), maxLength - 1;
    DigitsGrow(seen, count, |seen|);
    assert seen[..|seen|] == seen;
    FullIsCycled(d, turns, Digits(seen[..count]), maxLength);
    var front := full[..maxLength][..n];
    assert front == full[..n];
    if |text| < COUNTER_SPAN {
      NoTimes(d);
      assert front == Digits(text)[..n];
    }
    assert AllDigits(full[..maxLength]);
    CStrOfDigits(buffer, front);
  }

  lemma NoTimes(d: string)
    ensures Times(d, 0) == []
  {
  }

  /** Whole turns and a part of one are the beginning of any number of turns. */
  lemma FullIsCycled(d: string, turns: nat, part: string, maxLength: nat)
    requires part <= d && |Times(d, turns) + part| == maxLength >= 1
    ensures d != [] ==> (Times(d, turns) + part)[..maxLength - 1] == Times(d, maxLength)[..maxLength - 1]
    ensures AllDigits(d) ==> AllDigits(Times(d, turns) + part)
  {
    var far := turns + 1 + maxLength;
    assert Times(d, turns) + part <= Times(d, turns + 1);
    TimesGrow(d, turns + 1, far);
    TimesGrow(d, maxLength, far);
  }

  /** The buffer when the text is used up first. */
  lemma FewDigits(text: string, short: string, buffer: string, maxLength: nat, tmp: nat)
    requires |text| < COUNTER_SPAN && tmp < maxLength && tmp < |buffer|
    requires Turning(Seen(text), short, 0, |text|, tmp)
    requires buffer[..tmp] == short[..tmp] && buffer[tmp] == '\0'
    ensures ImeiEnds(text) && CStr(buffer) == ImeiRead(text, maxLength)
  {
    hide Digits, CStr;
    assert Seen(text) == text && text[..|text|] == text;
    CStrOfDigits(buffer, Digits(text));
  }

  /** A reply handed to a callback is short enough for that counter. */
  lemma ReplyFitsCounter(e: Engine, now: nat)
    requires WellFormed(e)
    ensures |CStr(Completed(e, now).buffer)| <= 255
  {
    CStrStops(Completed(e, now).buffer, e.index);
  }

  /** gsm_utilities_get_sim_ccid. */
  method GetSimCcid(text: string, result: array<char>, maxLength: nat)
    requires 1 <= maxLength <= 255 && result.Length >= maxLength + 1
    modifies result
    ensures CStr(result[..]) == CcidText(text, maxLength)
    ensures forall i | maxLength < i < result.Length :: result[i] == old(result[i])
  {
    hide CStr, DigitRun, AllDigits, CcidText;
    var found := StrStr(text, "+QCCID: ");
    if found.None? {
      result[0] := '\0';
      NoCcid(text, result[..], maxLength);
      return;
    }
    var p := text[found.value + 8..];
    var count: nat := 0;
    EmptyRun(p);
    while count < |p|
      invariant count <= |p| && count < maxLength
      invariant AllDigits(p[..count]) && result[..count] == p[..count]
      invariant forall i | maxLength < i < result.Length :: result[i] == old(result[i])
    {
      if !IsDigit(p[count]) {
        break;
      }
      LongerRun(p, count);
      result[count] := p[count];
      count := count + 1;
      if count >= maxLength {
        result[count - 1] := '\0';
        result[count] := '\0';
        LongCcid(text, result[..], maxLength);
        return;
      }
    }
    result[count] := '\0';
    ShortCcid(text, result[..], maxLength, count);
  }

  lemma EmptyRun(p: string)
    ensures AllDigits(p[..0])
  {
  }

  lemma LongerRun(p: string, n: nat)
    requires n < |p| && AllDigits(p[..n]) && IsDigit(p[n])
    ensures AllDigits(p[..n + 1])
  {
    assert p[..n + 1] == p[..n] + [p[n]];
  }

  lemma NoCcid(text: string, buffer: string, maxLength: nat)
    requires maxLength >= 1 && |buffer| > 0 && buffer[0] == '\0' && StrStr(text, "+QCCID: ").None?
    ensures CStr(buffer) == CcidText(text, maxLength)
  {
  }

  /** What follows the tag in a reply. */
  function AfterTag(text: string): string
    requires StrStr(text, "+QCCID: ").Some?
  {
    text[StrStr(text, "+QCCID: ").value + 8..]
  }

  lemma LongCcid(text: string, buffer: string, maxLength: nat)
    requires StrStr(text, "+QCCID: ").Some?
    requires 1 <= maxLength <= |AfterTag(text)| && AllDigits(AfterTag(text)[..maxLength])
    requires maxLength < |buffer| && buffer[..maxLength - 1] == AfterTag(text)[..maxLength - 1]
    requires buffer[maxLength - 1] == '\0'
    ensures CStr(buffer) == CcidText(text, maxLength)
  {
    hide CStr, DigitRun;
    var p := AfterTag(text);
    RunIsLong(p, maxLength);
    var front := p[..maxLength][..maxLength - 1];
    assert front == DigitRun(p)[..maxLength - 1] == p[..maxLength - 1];
    CStrOfDigits(buffer, front);
    assert |"+QCCID: "| == 8;
  }

  lemma ShortCcid(text: string, buffer: string, maxLength: nat, n: nat)
    requires StrStr(text, "+QCCID: ").Some?
    requires n <= |AfterTag(text)| && n < maxLength < |buffer| && AllDigits(AfterTag(text)[..n])
    requires n < |AfterTag(text)| ==> !IsDigit(AfterTag(text)[n])
    requires buffer[..n] == AfterTag(text)[..n] && buffer[n] == '\0'
    ensures CStr(buffer) == CcidText(text, maxLength)
  {
    hide CStr, DigitRun;
    DigitRunIs(AfterTag(text), n);
    CStrOfDigits(buffer, AfterTag(text)[..n]);
    assert |"+QCCID: "| == 8;
  }

  lemma {:induction false} RunIsLong(text: string, n: nat)
    requires n <= |text| && AllDigits(text[..n])
    ensures text[..n] <= DigitRun(text)
    decreases n
  {
    if n > 0 {
      assert IsDigit(text[..n][0]);
      assert text[..n][1..] == text[1..][..n - 1];
      RunIsLong(text[1..], n - 1);
      assert text[..n] == [text[0]] + text[1..][..n - 1];
    }
  }

  /** find_index_of_char: the first index, or -1. */
  method FindIndexOfChar(c: char, text: string) returns (index: int)
    ensures index == -1 || 0 <= index < |text|
    ensures index == -1 <==> c !in text
    ensures index >= 0 ==> text[index] == c && c !in text[..index]
  {
    for i := 0 to |text|
      invariant c !in text[..i]
    {
      if text[i] == c {
        return i;
      }
    }
    return -1;
  }

  /** Which stretch of `src` gsm_utilities_copy_parameters copies, if any: it stands between
      the first `first` and the first `last`, and is not empty. When both are the same
      character the second is looked for from index 1 on, so that a match needs the text to
      start with the delimiter. */
  function Parameter(src: string, first: char, last: char): (r: Option<(nat, nat)>)
    ensures r.Some? ==>
              var (b, e) := r.value;
              && b + 1 < e < |src| && src[b] == first && src[e] == last
              && first !in src[..b] && last !in (if first == last then src[1..e] else src[..e])
    ensures r.Some? && first == last ==> src != [] && src[0] == first
    ensures r.None? ==>
              forall b, e | 0 <= b && b + 1 < e < |src| && src[b] == first && src[e] == last ::
                first in src[..b] || last in (if first == last then src[1..e] else src[..e])
  {
    match (IndexFrom(src, first, 0),
           if first == last && src != [] then IndexFrom(src, last, 1) else IndexFrom(src, last, 0))
    case (Some(b), Some(e)) =>
      if b + 1 < e then Some((b, e)) else None
    case _ => None
  }

  /** The value an int16_t holds after an assignment. */
  function Int16(x: int): (r: int)
    ensures -0x8000 <= r < 0x8000
    ensures -0x8000 <= x < 0x8000 ==> r == x
  {
    (x + 0x8000) % 0x1_0000 - 0x8000
  }

  /** find_index_of_char as a value. */
  function FoundAt(text: string, c: char): int {
    match IndexFrom(text, c, 0)
    case Some(i) => i
    case None => -1
  }

  /** The two 16-bit indices between which gsm_utilities_copy_parameters copies, if it does. */
  function Window(src: string, first: char, last: char): Option<(int, int)> {
    var b := Int16(FoundAt(src, first));
    var e :=
      if first != last then Int16(FoundAt(src, last))
      else
        var t := if src == [] then -1 else Int16(FoundAt(src[1..], last));
        if t == -1 then -1 else Int16(t + 1);
    if b == -1 || e == -1 || e - b <= 1 then None else Some((b, e))
  }

  /** Both are the true ones while the closing delimiter stands below index 32768; and in a
      text shorter than that nothing is found that is not there. */
  lemma WindowIsParameter(src: string, first: char, last: char)
    ensures Parameter(src, first, last).Some? && Parameter(src, first, last).value.1 < 0x8000 ==>
              Window(src, first, last) == Parameter(src, first, last)
    ensures |src| < 0x8000 ==> Window(src, first, last) == Parameter(src, first, last)
  {
    if first == last && src != [] {
      IndexShifts(src, last);
    }
  }

  lemma IndexShifts(text: string, c: char)
    requires text != []
    ensures match (IndexFrom(text[1..], c, 0), IndexFrom(text, c, 1))
            case (Some(i), Some(j)) => j == i + 1
            case (None, None) => true
            case _ => false
  {
    match IndexFrom(text[1..], c, 0)
    case Some(i) =>
      assert forall k | 1 <= k < i + 1 :: text[k] == text[1..][k - 1];
      assert text[i + 1] == c;
    case None =>
      assert forall k | 1 <= k < |text| :: text[k] == text[1..][k - 1];
  }

  lemma IndexFound(text: string, c: char, index: int)
    requires index == -1 || 0 <= index < |text|
    requires index == -1 <==> c !in text
    requires index >= 0 ==> text[index] == c && c !in text[..index]
    ensures index == FoundAt(text, c)
  {
    forall k | 0 <= k < index ensures text[k] != c {
      assert text[k] == text[..index][k];
    }
    if IndexFrom(text, c, 0).Some? {
      assert text[IndexFrom(text, c, 0).value] in text;
    }
  }

  /** gsm_utilities_copy_parameters, whose indices are 16 bits wide. The caller has to have room
      in `dst`, and a text in which the opening delimiter is not found at a wrapped index, before
      the text begins. */
  method CopyParameters(src: string, dst: array<char>, first: char, last: char) returns (ok: bool)
    requires var w := Window(src, first, last);
             w.Some? ==> w.value.0 >= 0 && dst.Length >= w.value.1 - w.value.0
    modifies dst
    ensures ok <==> Window(src, first, last).Some?
    ensures ok ==> var (b, e) := Window(src, first, last).value;
                   && b + 1 < e <= |src|
                   && dst[..e - b - 1] == src[b + 1..e] && dst[e - b - 1] == '\0'
                   && forall i | e - b <= i < dst.Length :: dst[i] == old(dst[i])
    ensures !ok ==> dst[..] == old(dst[..])
  {
    hide IndexFrom, Int16;
    var found := FindIndexOfChar(first, src);
    IndexFound(src, first, found);
    var b := Int16(found);
    var e := -1;
    if first == last {
      if |src| > 0 {
        found := FindIndexOfChar(last, src[1..]);
        IndexFound(src[1..], last, found);
        e := Int16(found);
        if e != -1 {
          e := Int16(e + 1);
        }
      }
    } else {
      found := FindIndexOfChar(last, src);
      IndexFound(src, last, found);
      e := Int16(found);
    }
    if b == -1 || e == -1 {
      return false;
    }
    if e - b <= 1 {
      return false;
    }
    WindowInside(src, first, last);
    var i := 0;
    while i < e - b - 1
      invariant 0 <= i <= e - b - 1
      invariant forall k | 0 <= k < i :: dst[k] == src[b + 1 + k]
      invariant forall k | i <= k < dst.Length :: dst[k] == old(dst[k])
    {
      dst[i] := src[b + 1 + i];
      i := i + 1;
    }
    dst[i] := '\0';
    ok := true;
  }

  /** A 16-bit index that is not negative never exceeds the one it was cut from. */
  lemma WindowInside(src: string, first: char, last: char)
    requires Window(src, first, last).Some?
    ensures Window(src, first, last).value.1 <= |src|
  {
  }
}
