/** What the bring-up callbacks read out of a modem reply. */
module Replies {
  import opened Words
  import opened CStrings

  predicate IsDigit(c: char) {
    '0' <= c <= '9'
  }

  predicate AllDigits(text: string) {
    forall i | 0 <= i < |text| :: IsDigit(text[i])
  }

  /** The longest prefix of decimal digits. */
  function DigitRun(text: string): (run: string)
    ensures run <= text && AllDigits(run)
    ensures |run| < |text| ==> !IsDigit(text[|run|])
  {
    if text == [] || !IsDigit(text[0]) then [] else [text[0]] + DigitRun(text[1..])
  }

  /** The value of a digit string, most significant digit first, without any width limit. */
  function DecimalValue(digits: string): nat
    requires AllDigits(digits)
  {
    if digits == [] then 0
    else
      assert IsDigit(digits[|digits| - 1]);
      DecimalValue(digits[..|digits| - 1]) * 10 + (digits[|digits| - 1] as int - '0' as int)
  }

  /** gsm_utilities_get_number_from_string: the digits at `begin`, modulo 2^32. */
  function NumberAt(begin: nat, text: string): Word {
    if begin >= |text| then 0 else DecimalValue(DigitRun(text[begin..])) % TICKS
  }

  /** The decimal digits of a text, in order. */
  function Digits(text: string): (d: string)
    ensures |d| <= |text| && AllDigits(d)
  {
    if text == [] then []
    else if IsDigit(text[|text| - 1]) then Digits(text[..|text| - 1]) + [text[|text| - 1]]
    else Digits(text[..|text| - 1])
  }

  function Take(text: string, n: nat): string {
    if |text| <= n then text else text[..n]
  }

  /** The string gsm_utilities_get_imei leaves in its result buffer. */
  function ImeiText(reply: string, maxLength: nat): string
    requires maxLength >= 1
  {
    Take(Digits(reply), maxLength - 1)
  }

  /** The string gsm_utilities_get_sim_ccid leaves in its result buffer. */
  function CcidText(reply: string, maxLength: nat): string
    requires maxLength >= 1
  {
    match StrStr(reply, "+QCCID: ")
    case None => []
    case Some(p) => Take(DigitRun(reply[p + |"+QCCID: "|..]), maxLength - 1)
  }

  /** The signal strength a reply reports, kept in 8 bits; 99 when there is none. */
  function SignalStrength(reply: string): nat {
    match StrStr(reply, "+CSQ:")
    case None => 99
    case Some(p) => NumberAt(6, reply[p..]) % 256
  }

  function CountOf(text: string, c: char): nat {
    if text == [] then 0 else (if text[0] == c then 1 else 0) + CountOf(text[1..], c)
  }

  predicate HasAccessTechnology(reply: string) {
    match StrStr(reply, "+CGREG:")
    case None => false
    case Some(p) => CountOf(reply[p..], ',') >= 4
  }

  /** Index of the first `c` at or after `from`. */
  function IndexFrom(text: string, c: char, from: nat): (r: Option<nat>)
    requires from <= |text|
    ensures r.Some? ==> from <= r.value < |text| && text[r.value] == c
    ensures r.Some? ==> forall i | from <= i < r.value :: text[i] != c
    ensures r.None? ==> forall i | from <= i < |text| :: text[i] != c
    decreases |text| - from
  {
    if from == |text| then None
    else if text[from] == c then Some(from)
    else IndexFrom(text, c, from + 1)
  }

  /** gsm_utilities_get_network_operator: the quoted name is copied over the front of the
      32-byte operator buffer without a terminator, so an older, longer name shows through. */
  function OperatorBuffer(reply: string, before: string): (buffer: string)
    requires |before| == 32
    ensures |buffer| == 32
  {
    var cleared := before[0 := '\0'];
    match StrStr(reply, "+COPS:")
    case None => cleared
    case Some(p) =>
      var tail := reply[p..];
      match IndexFrom(tail, '"', 0)
      case None => cleared
      case Some(open) =>
        match IndexFrom(tail, '"', open + 1)
        case None => cleared
        case Some(close) =>
          var name := Take(tail[open + 1..close], 31);
          name + cleared[|name|..]
  }
}
