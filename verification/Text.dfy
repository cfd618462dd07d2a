/** Byte and code point scanning shared by the template and escape components. */
module Text {

  /** Length of the leading run of c. */
  function RunLength(s: string, c: char): (n: nat)
    ensures n <= |s|
    ensures forall k | 0 <= k < n :: s[k] == c
    ensures n < |s| ==> s[n] != c
  {
    if s != "" && s[0] == c then 1 + RunLength(s[1..], c) else 0
  }

  /** Position of the first c, or |s| when there is none. */
  function FirstIndex(s: string, c: char): (n: nat)
    ensures n <= |s|
    ensures forall k | 0 <= k < n :: s[k] != c
    ensures n < |s| ==> s[n] == c
  {
    if s == "" || s[0] == c then 0 else 1 + FirstIndex(s[1..], c)
  }

  /** Position of the first occurrence of sub, or -1 (Go's strings.Index). */
  function IndexOf(s: string, sub: string): (n: int)
    ensures n == -1 || 0 <= n <= |s| - |sub|
  {
    if sub <= s then 0
    else if s == "" then -1
    else
      var r := IndexOf(s[1..], sub);
      if r < 0 then -1 else r + 1
  }

  lemma {:induction false} IndexOfIsFirst(s: string, sub: string)
    ensures IndexOf(s, sub) >= 0 ==> sub <= s[IndexOf(s, sub)..]
    ensures forall k | 0 <= k <= |s| && (IndexOf(s, sub) < 0 || k < IndexOf(s, sub)) :: !(sub <= s[k..])
  {
    assert s[0..] == s;
    if !(sub <= s) && s != "" {
      IndexOfIsFirst(s[1..], sub);
      assert forall k | 0 < k <= |s| :: s[k..] == s[1..][k - 1..];
    }
  }

  predicate Contains(s: string, sub: string) {
    IndexOf(s, sub) >= 0
  }

  /** Number of non-overlapping occurrences, left to right (Go's strings.Count). */
  function Count(s: string, sub: string): nat
    requires sub != ""
    decreases |s|
  {
    var i := IndexOf(s, sub);
    if i < 0 then 0 else 1 + Count(s[i + |sub|..], sub)
  }

  /** unicode.IsSpace. */
  predicate IsSpace(c: char) {
    var n := c as int;
    9 <= n <= 13 || n == 0x20 || n == 0x85 || n == 0xA0 || n == 0x1680 || 0x2000 <= n <= 0x200a
    || n == 0x2028 || n == 0x2029 || n == 0x202f || n == 0x205f || n == 0x3000
  }

  /** strings.TrimSpace(s) == "". */
  predicate IsBlank(s: string) {
    forall i | 0 <= i < |s| :: IsSpace(s[i])
  }

  method CountRun(s: string, start: nat, c: char) returns (count: nat)
    requires start <= |s|
    ensures count == RunLength(s[start..], c)
  {
    count := 0;
    while start + count < |s| && s[start + count] == c
      invariant start + count <= |s|
      invariant RunLength(s[start..], c) == count + RunLength(s[start + count..], c)
    {
      assert s[start + count..][1..] == s[start + count + 1..];
      count := count + 1;
    }
  }

  function Concat(parts: seq<string>): string {
    if parts == [] then "" else parts[0] + Concat(parts[1..])
  }
}
