/** C strings held in byte buffers. A byte is a `char`; '\0' terminates. */
module CStrings {
  datatype Option<+T> = None | Some(value: T)

  /** The C string at the start of a buffer: everything before the first NUL. */
  function CStr(buffer: string): (s: string)
    ensures |s| <= |buffer| && s == buffer[..|s|]
    ensures '\0' !in s
    ensures |s| < |buffer| ==> buffer[|s|] == '\0'
  {
    if buffer == [] || buffer[0] == '\0' then [] else [buffer[0]] + CStr(buffer[1..])
  }

  /** A NUL ends the C string at the latest where it stands. */
  lemma {:induction false} CStrStops(buffer: string, i: nat)
    requires i < |buffer| && buffer[i] == '\0'
    ensures |CStr(buffer)| <= i
    decreases i
  {
    if i > 0 {
      CStrStops(buffer[1..], i - 1);
    }
  }

  predicate OccursAt(text: string, pattern: string, i: nat) {
    i + |pattern| <= |text| && text[i..i + |pattern|] == pattern
  }

  /** strstr from position `from` on: the first occurrence, if there is one. */
  function FindFrom(text: string, pattern: string, from: nat): (r: Option<nat>)
    requires from <= |text|
    ensures r.Some? ==> from <= r.value && OccursAt(text, pattern, r.value)
    ensures forall i: nat | from <= i && OccursAt(text, pattern, i) :: r.Some? && r.value <= i
    decreases |text| - from
  {
    if OccursAt(text, pattern, from) then Some(from)
    else if from == |text| then None
    else FindFrom(text, pattern, from + 1)
  }

  function StrStr(text: string, pattern: string): Option<nat> {
    FindFrom(text, pattern, 0)
  }

  predicate Contains(text: string, pattern: string) {
    StrStr(text, pattern).Some?
  }

  predicate EndsWith(text: string, suffix: string) {
    |suffix| <= |text| && text[|text| - |suffix|..] == suffix
  }

  function Zeros(n: nat): (z: string)
    ensures |z| == n && forall i | 0 <= i < n :: z[i] == '\0'
  {
    seq(n, _ => '\0')
  }

  /** Zero padding does not change the C string in front of it. */
  lemma {:induction false} CStrPadded(text: string, n: nat)
    ensures CStr(text + Zeros(n)) == CStr(text)
  {
    var padded := text + Zeros(n);
    if text == [] {
      assert padded == [] || padded[0] == '\0';
    } else {
      assert padded[0] == text[0];
      assert padded[1..] == text[1..] + Zeros(n);
      CStrPadded(text[1..], n);
    }
  }
}
