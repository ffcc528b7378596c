/** Address text as the handler treats it: ASCII lower-casing for
    case-insensitive comparison, the FLOP address pattern, and the address
    carried in a 32-byte event topic. */
module Addresses {

  function LowerChar(c: char): char
  {
    if 'A' <= c <= 'Z' then (c as int + 32) as char else c
  }

  /** `s.toLowerCase()` over ASCII letters; its character-wise meaning is LowerSpec. */
  function Lower(s: string): (t: string)
    ensures |t| == |s|
  {
    seq(|s|, i requires 0 <= i < |s| => LowerChar(s[i]))
  }

  /** Two addresses compared the way the handler compares them, both lower-cased. */
  predicate SameAddress(a: string, b: string)
  {
    Lower(a) == Lower(b)
  }

  predicate IsAlphanumeric(c: char)
  {
    'a' <= c <= 'z' || 'A' <= c <= 'Z' || '0' <= c <= '9'
  }

  /** Matches `[a-zA-Z0-9]{n}$` against the whole of s, one character at a time. */
  function MatchesAlphanumericRun(s: string, n: nat): bool
  {
    if n == 0 then s == ""
    else s != "" && IsAlphanumeric(s[0]) && MatchesAlphanumericRun(s[1..], n - 1)
  }

  lemma {:induction false} AlphanumericRunIff(s: string, n: nat)
    ensures MatchesAlphanumericRun(s, n) <==> |s| == n && forall i :: 0 <= i < |s| ==> IsAlphanumeric(s[i])
  {
    if n > 0 && s != "" {
      AlphanumericRunIff(s[1..], n - 1);
      assert forall i :: 1 <= i < |s| ==> s[1..][i - 1] == s[i];
    }
  }

  /** The FLOP target address pattern `^F[a-zA-Z0-9]{33}$`. */
  function IsFlopAddress(s: string): (ok: bool)
    ensures ok <==> |s| == 34 && s[0] == 'F' && forall i :: 1 <= i < 34 ==> IsAlphanumeric(s[i])
  {
    if s == "" || s[0] != 'F' then false
    else
      AlphanumericRunIff(s[1..], 33);
      assert forall i :: 1 <= i < |s| ==> s[1..][i - 1] == s[i];
      MatchesAlphanumericRun(s[1..], 33)
  }

  /** `s.slice(start)` for a non-negative start. */
  function SliceFrom(s: string, start: nat): string
  {
    if start < |s| then s[start..] else ""
  }

  /** `"0x" + topic.slice(26).toLowerCase()`: the address in the low 20 bytes
      of a 32-byte topic written as "0x" and 64 hex digits. */
  function TopicAddress(topic: string): (a: string)
    ensures |a| >= 2 && a[..2] == "0x"
    ensures |a| == if |topic| > 26 then |topic| - 24 else 2
    ensures Lower(a) == a
  {
    var tail := Lower(SliceFrom(topic, 26));
    LowerAppend("0x", tail);
    LowerIdempotent(tail);
    assert Lower("0x") == "0x";
    "0x" + tail
  }

  /** How an event log stores an indexed address: "0x", 24 zero digits of
      padding, then the 40 hex digits of the address. */
  function AddressTopic(address: string): (topic: string)
    requires |address| == 42
  {
    "0x" + "000000000000000000000000" + address[2..]
  }

  /** Reading the address back out of its topic gives the address lower-cased. */
  lemma TopicAddressOfAddressTopic(address: string)
    requires |address| == 42 && address[..2] == "0x"
    ensures |AddressTopic(address)| == 66
    ensures TopicAddress(AddressTopic(address)) == Lower(address)
  {
    var topic := AddressTopic(address);
    assert SliceFrom(topic, 26) == address[2..];
    assert address == "0x" + address[2..];
    LowerAppend("0x", address[2..]);
    assert Lower("0x") == "0x";
  }

  /** Each capital becomes its small letter, every other character stays,
      and no capital is left. */
  lemma LowerSpec(s: string)
    ensures forall i :: 0 <= i < |s| && 'A' <= s[i] <= 'Z' ==> Lower(s)[i] as int == s[i] as int + 32
    ensures forall i :: 0 <= i < |s| && !('A' <= s[i] <= 'Z') ==> Lower(s)[i] == s[i]
    ensures forall i :: 0 <= i < |s| ==> !('A' <= Lower(s)[i] <= 'Z')
  {
  }

  lemma LowerIdempotent(s: string)
    ensures Lower(Lower(s)) == Lower(s)
  {
  }

  lemma LowerAppend(a: string, b: string)
    ensures Lower(a + b) == Lower(a) + Lower(b)
  {
    assert forall i :: 0 <= i < |a| + |b| ==> Lower(a + b)[i] == (Lower(a) + Lower(b))[i];
  }
}
