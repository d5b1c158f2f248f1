/** What the readers of a reply find: registration, signal strength, operator, CCID and IMEI,
    each from the reply alone. */
module ReplyReaders {
  import opened Words
  import opened CStrings
  import opened Replies
  import opened Utilities

  lemma {:induction false} CountIsMultiset(text: string, c: char)
    ensures CountOf(text, c) == multiset(text)[c]
    decreases |text|
  {
    if text != [] {
      assert text == [text[0]] + text[1..];
      CountIsMultiset(text[1..], c);
    }
  }

  /** The reply reports a registration: a "+CGREG:" with four commas or more behind it. */
  ghost predicate Registered(reply: string) {
    exists p: nat :: OccursAt(reply, "+CGREG:", p) && multiset(reply[p..])[','] >= 4
  }

  lemma RegisteredIff(reply: string)
    ensures HasAccessTechnology(reply) <==> Registered(reply)
  {
    match StrStr(reply, "+CGREG:")
    case None =>
    case Some(q) =>
      CountIsMultiset(reply[q..], ',');
      if Registered(reply) {
        var p: nat :| OccursAt(reply, "+CGREG:", p) && multiset(reply[p..])[','] >= 4;
        assert reply[q..] == reply[q..p] + reply[p..];
      }
  }

  /** A reply in which the first "+CSQ:" is followed by one character and a number. */
  predicate SignalReply(reply: string, before: string, gap: char, n: Word, after: string) {
    && reply == before + "+CSQ:" + [gap] + Decimal(n) + after
    && StrStr(reply, "+CSQ:") == Some(|before|)
    && (after == [] || !IsDigit(after[0]))
  }

  /** The signal strength is that number in 8 bits, and 99 when no "+CSQ:" came. */
  lemma SignalIs(reply: string, before: string, gap: char, n: Word, after: string)
    requires SignalReply(reply, before, gap, n, after)
    ensures SignalStrength(reply) == n % 256
  {
    hide StrStr, Decimal, NumberAt;
    var front := "+CSQ:" + [gap];
    assert reply[|before|..] == front + Decimal(n) + after;
    NumberRoundTrip(n, front, after);
  }

  lemma NoSignal(reply: string)
    ensures !Contains(reply, "+CSQ:") ==> SignalStrength(reply) == 99
    ensures Contains(reply, "+CSQ:") ==>
              SignalStrength(reply) == NumberAt(6, reply[StrStr(reply, "+CSQ:").value..]) % 256
  {
  }

  /** A reply in which the first "+COPS:" is followed by a quoted name. */
  predicate OperatorReply(reply: string, before: string, middle: string, name: string, after: string) {
    && reply == before + "+COPS:" + middle + "\"" + name + "\"" + after
    && StrStr(reply, "+COPS:") == Some(|before|)
    && '"' !in middle && '"' !in name
  }

  /** The name goes over the front of the old text, at most 31 characters of it and without a
      NUL: what the operator text then reads is the name and the rest of what stood there. */
  lemma OperatorIs(reply: string, before: string, middle: string, name: string, after: string, previous: string)
    requires OperatorReply(reply, before, middle, name, after) && |previous| == 32
    requires name != [] && '\0' !in name
    ensures var copied := Take(name, 31);
            && OperatorBuffer(reply, previous) == copied + previous[|copied|..]
            && CStr(OperatorBuffer(reply, previous)) == copied + CStr(previous[|copied|..])
  {
    hide StrStr, IndexFrom, CStr, Take;
    var tail := "+COPS:" + middle + "\"" + name + "\"" + after;
    assert reply[|before|..] == tail;
    QuotesAt("+COPS:" + middle, name, after);
    var copied := Take(name, 31);
    assert 0 < |copied| <= 31 && '\0' !in copied by { ShortName(name); }
    assert previous[0 := '\0'][|copied|..] == previous[|copied|..];
    CStrAfter(copied, previous[|copied|..]);
  }

  lemma ShortName(name: string)
    requires name != [] && '\0' !in name
    ensures 0 < |Take(name, 31)| <= 31 && '\0' !in Take(name, 31)
  {
  }

  lemma QuotesAt(front: string, name: string, after: string)
    requires '"' !in front && '"' !in name
    ensures var tail, open := front + "\"" + name + "\"" + after, |front|;
            && IndexFrom(tail, '"', 0) == Some(open)
            && IndexFrom(tail, '"', open + 1) == Some(open + 1 + |name|)
            && tail[open + 1..open + 1 + |name|] == name
  {
    hide IndexFrom;
    var tail, open := front + "\"" + name + "\"" + after, |front|;
    assert tail[..open] == front && tail[open] == '"';
    assert tail[open + 1..open + 1 + |name|] == name && tail[open + 1 + |name|] == '"';
    IndexIs(tail, 0, open);
    IndexIs(tail, open + 1, open + 1 + |name|);
  }

  lemma IndexIs(text: string, from: nat, i: nat)
    requires from <= i < |text| && text[i] == '"' && '"' !in text[from..i]
    ensures IndexFrom(text, '"', from) == Some(i)
  {
    forall k | from <= k < i ensures text[k] != '"' {
      assert text[from..i][k - from] == text[k];
    }
  }

  lemma {:induction false} CStrAfter(front: string, rest: string)
    requires '\0' !in front
    ensures CStr(front + rest) == front + CStr(rest)
    decreases |front|
  {
    if front == [] {
      assert front + rest == rest;
    } else {
      assert (front + rest)[1..] == front[1..] + rest && (front + rest)[0] == front[0];
      assert front[0] in front;
      CStrAfter(front[1..], rest);
    }
  }

  predicate HasTwoQuotes(text: string) {
    match IndexFrom(text, '"', 0)
    case None => false
    case Some(open) => IndexFrom(text, '"', open + 1).Some?
  }

  lemma QuotesCounted(text: string)
    ensures HasTwoQuotes(text) ==> multiset(text)['"'] >= 2
  {
    if HasTwoQuotes(text) {
      var open := IndexFrom(text, '"', 0).value;
      var close := IndexFrom(text, '"', open + 1).value;
      assert text == text[..open] + ['"'] + text[open + 1..close] + ['"'] + text[close + 1..];
    }
  }

  /** Without "+COPS:", or without two quotes behind it, the operator text reads empty. */
  lemma NoOperator(reply: string, previous: string)
    requires |previous| == 32
    requires StrStr(reply, "+COPS:").Some? ==> multiset(reply[StrStr(reply, "+COPS:").value..])['"'] < 2
    ensures CStr(OperatorBuffer(reply, previous)) == ""
  {
    if StrStr(reply, "+COPS:").Some? {
      QuotesCounted(reply[StrStr(reply, "+COPS:").value..]);
    }
  }

  /** A reply in which the first "+QCCID: " is followed by a number. */
  predicate CcidReply(reply: string, before: string, ccid: string, after: string) {
    && reply == before + "+QCCID: " + ccid + after
    && StrStr(reply, "+QCCID: ") == Some(|before|)
    && AllDigits(ccid) && (after == [] || !IsDigit(after[0]))
  }

  /** The CCID is at most 19 digits of it. */
  lemma CcidIs(reply: string, before: string, ccid: string, after: string)
    requires CcidReply(reply, before, ccid, after)
    ensures CcidText(reply, 20) == Take(ccid, 19)
  {
    hide StrStr, DigitRun;
    assert |"+QCCID: "| == 8;
    var rest := reply[|before| + 8..];
    assert rest == ccid + after;
    assert rest[..|ccid|] == ccid;
    DigitRunIs(rest, |ccid|);
  }

  /** Without the tag, or without a digit right behind it, there is none. */
  lemma NoCcidRead(reply: string)
    ensures !Contains(reply, "+QCCID: ") ==> CcidText(reply, 20) == ""
    ensures Contains(reply, "+QCCID: ") ==>
              var p := StrStr(reply, "+QCCID: ").value + 8;
              p == |reply| || (p < |reply| && !IsDigit(reply[p])) ==> CcidText(reply, 20) == ""
  {
    assert |"+QCCID: "| == 8;
  }

  lemma {:induction false} DigitsJoin(a: string, b: string)
    ensures Digits(a + b) == Digits(a) + Digits(b)
    decreases |b|
  {
    if b == [] {
      assert a + b == a;
    } else {
      var text, front := a + b, b[..|b| - 1];
      assert text[..|text| - 1] == a + front && text[|text| - 1] == b[|b| - 1];
      DigitsJoin(a, front);
    }
  }

  lemma {:induction false} DigitsOfDigits(text: string)
    requires AllDigits(text)
    ensures Digits(text) == text
    decreases |text|
  {
    if text != [] {
      DigitsOfDigits(text[..|text| - 1]);
      assert text == text[..|text| - 1] + [text[|text| - 1]];
    }
  }

  predicate NoDigit(text: string) {
    forall i | 0 <= i < |text| :: !IsDigit(text[i])
  }

  lemma {:induction false} NoDigitsIn(text: string)
    requires NoDigit(text)
    ensures Digits(text) == ""
    decreases |text|
  {
    if text != [] {
      NoDigitsIn(text[..|text| - 1]);
    }
  }

  /** The IMEI is at most 15 digits, those of the reply in order, whatever stands around and
      between them. */
  lemma ImeiIs(before: string, first: string, middle: string, second: string, after: string)
    requires AllDigits(first) && AllDigits(second) && NoDigit(before) && NoDigit(middle) && NoDigit(after)
    ensures ImeiText(before + first + middle + second + after, 16) == Take(first + second, 15)
  {
    hide Digits;
    DigitsOfDigits(first);
    DigitsOfDigits(second);
    NoDigitsIn(before);
    NoDigitsIn(middle);
    NoDigitsIn(after);
    DigitsJoin(before, first);
    DigitsJoin(before + first, middle);
    DigitsJoin(before + first + middle, second);
    DigitsJoin(before + first + middle + second, after);
  }
}
