/**
 * C strings as chsmack handles them: sequences of bytes whose terminating NUL
 * is left implicit, the `strncmp`-based prefix test `leads`, and the view of a
 * buffer that `printf("%s", ...)` takes (everything before the first NUL).
 */
module CStrings {

  /** One C `char`, as the 8-bit value stored in memory. */
  type Byte = b: int | 0 <= b < 256

  const NUL: Byte := 0
  const Dash: Byte := 0x2D

  /** A C string holds no NUL before its terminator; every `argv` entry is one. */
  predicate IsCStr(s: seq<Byte>)
  {
    forall i :: 0 <= i < |s| ==> s[i] != NUL
  }

  /** The bytes of an ASCII literal such as "--access=". */
  function Ascii(s: string): (r: seq<Byte>)
    requires forall i :: 0 <= i < |s| ==> 0 < s[i] as int < 128
    ensures |r| == |s| && IsCStr(r)
    ensures forall i :: 0 <= i < |s| ==> r[i] == s[i] as int
  {
    seq(|s|, i requires 0 <= i < |s| => s[i] as int)
  }

  /** `s[i]` in C: the byte just past the last one is the terminating NUL. */
  function At(s: seq<Byte>, i: nat): Byte
  {
    if i < |s| then s[i] else NUL
  }

  /**
   * `strncmp(a, b, n) == 0`, looking at positions i, i+1, ... below n:
   * the comparison stops at the first difference or at a NUL common to both.
   */
  function StrNEqualFrom(a: seq<Byte>, b: seq<Byte>, i: nat, n: nat): bool
    decreases n - i
  {
    if i >= n then true
    else if At(a, i) != At(b, i) then false
    else if At(a, i) == NUL then true
    else StrNEqualFrom(a, b, i + 1, n)
  }

  /** `leads(in, lead)`: `strncmp(in, lead, strlen(lead)) == 0` (utils/chsmack.c:35-38). */
  function Leads(s: seq<Byte>, lead: seq<Byte>): bool
  {
    StrNEqualFrom(s, lead, 0, |lead|)
  }

  /** `p` is a prefix of `s`. */
  predicate IsPrefix(p: seq<Byte>, s: seq<Byte>)
  {
    |p| <= |s| && s[..|p|] == p
  }

  lemma {:induction false} StrNEqualFromMatches(s: seq<Byte>, lead: seq<Byte>, i: nat)
    requires IsCStr(s) && IsCStr(lead) && i <= |lead| && i <= |s|
    ensures StrNEqualFrom(s, lead, i, |lead|) <==>
            (|lead| <= |s| && forall k :: i <= k < |lead| ==> s[k] == lead[k])
    decreases |lead| - i
  {
    if i < |lead| {
      if At(s, i) == At(lead, i) {
        StrNEqualFromMatches(s, lead, i + 1);
      }
    }
  }

  /** For C strings, `leads` is exactly the prefix test its name promises. */
  lemma LeadsIsPrefix(s: seq<Byte>, lead: seq<Byte>)
    requires IsCStr(s) && IsCStr(lead)
    ensures Leads(s, lead) <==> IsPrefix(lead, s)
  {
    StrNEqualFromMatches(s, lead, 0);
    if |lead| <= |s| && forall k :: 0 <= k < |lead| ==> s[k] == lead[k] {
      assert s[..|lead|] == lead;
    }
  }

  /**
   * `argv[argi] + strlen(lead)`: the rest of an argument that leads with `lead`.
   */
  function After(s: seq<Byte>, lead: seq<Byte>): (r: seq<Byte>)
    requires IsCStr(s) && IsCStr(lead) && Leads(s, lead)
    ensures s == lead + r && IsCStr(r)
  {
    LeadsIsPrefix(s, lead);
    assert s == s[..|lead|] + s[|lead|..];
    s[|lead|..]
  }

  /**
   * The string `printf("%s", buf)` prints: the bytes of `buf` before its first NUL.
   */
  function UpToNul(buf: seq<Byte>): (r: seq<Byte>)
    ensures IsCStr(r) && IsPrefix(r, buf)
    ensures |r| < |buf| ==> buf[|r|] == NUL
  {
    if buf == [] then []
    else if buf[0] == NUL then []
    else [buf[0]] + UpToNul(buf[1..])
  }

  /** A NUL written after `v` ends the printed string there, whatever follows it. */
  lemma {:induction false} UpToNulAtTerminator(v: seq<Byte>, rest: seq<Byte>)
    ensures UpToNul(v + [NUL] + rest) == UpToNul(v)
  {
    if v != [] {
      assert (v + [NUL] + rest)[1..] == v[1..] + [NUL] + rest;
      UpToNulAtTerminator(v[1..], rest);
    }
  }

  /** A C string prints as itself. */
  lemma {:induction false} UpToNulOfCStr(s: seq<Byte>)
    requires IsCStr(s)
    ensures UpToNul(s) == s
  {
    if s != [] {
      UpToNulOfCStr(s[1..]);
    }
  }

  /** Writing a C string with its terminator (`strlen + 1` bytes) and printing it back gives the string. */
  lemma TerminatedPrintsBack(s: seq<Byte>)
    requires IsCStr(s)
    ensures UpToNul(s + [NUL]) == s
  {
    assert s + [NUL] == s + [NUL] + [];
    UpToNulAtTerminator(s, []);
    UpToNulOfCStr(s);
  }
}
