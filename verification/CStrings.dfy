/** The memory and string routines of kernel/string.c that the file system rests on, over byte
    arrays; a pointer is an array and an index. */
module CStrings {
  import opened Bits
  import opened FsLayout
  import opened FsSpec

  method Memset(p: array<byte>, at: nat, c: byte, n: nat)
    requires at + n <= p.Length
    modifies p
    ensures forall x :: 0 <= x < p.Length ==> p[x] == if at <= x < at + n then c else old(p[x])
  {
    var i := 0;
    while i < n
      invariant 0 <= i <= n
      invariant forall x :: 0 <= x < p.Length ==> p[x] == if at <= x < at + i then c else old(p[x])
    {
      p[at + i] := c;
      i := i + 1;
    }
  }

  method Memcpy(dest: array<byte>, at: nat, src: array<byte>, from: nat, n: nat)
    requires dest != src && at + n <= dest.Length && from + n <= src.Length
    modifies dest
    ensures dest[..] == Store(old(dest[..]), at, src[from..from + n])
  {
    var i := 0;
    while i < n
      invariant 0 <= i <= n
      invariant forall x :: 0 <= x < dest.Length ==> dest[x] == if at <= x < at + i then src[from + x - at] else old(dest[x])
    {
      dest[at + i] := src[from + i];
      i := i + 1;
    }
  }

  method Strlen(s: array<byte>) returns (len: nat)
    requires 0 in s[..]
    ensures len == |CString(s[..])| && len < s.Length
  {
    ghost var end :| 0 <= end < s.Length && s[end] == 0;
    len := 0;
    while s[len] != 0
      invariant 0 <= len <= end && 0 !in s[..len]
      decreases end - len
    {
      assert s[..len + 1] == s[..len] + [s[len]];
      len := len + 1;
    }
    CStringIs(s[..], len);
    assert s[..][..len] == s[..len];
  }

  /** Zero exactly when the two C strings are equal. */
  method Strcmp(s1: array<byte>, i: nat, s2: array<byte>) returns (r: int)
    requires i <= s1.Length && 0 in s1[i..] && 0 in s2[..]
    ensures r == 0 <==> CString(s1[i..]) == CString(s2[..])
  {
    hide CString;
    ghost var end1 :| 0 <= end1 < |s1[i..]| && s1[i..][end1] == 0;
    ghost var end2 :| 0 <= end2 < |s2[..]| && s2[..][end2] == 0;
    var k := 0;
    while s1[i + k] != 0 && s1[i + k] == s2[k]
      invariant k <= end1 && k <= end2
      invariant forall j :: 0 <= j < k ==> s1[i + j] == s2[j] != 0
      decreases end1 - k
    {
      k := k + 1;
    }
    r := s1[i + k] as int - s2[k] as int;
    assert s1[i..][..k] == s2[..][..k];
    CStringsCompare(s1[i..], s2[..], k);
  }

  /** Two strings that agree up to k, where they differ or the first one ends. */
  lemma {:induction false} CStringsCompare(s: seq<byte>, t: seq<byte>, k: nat)
    requires k < |s| && k < |t| && s[..k] == t[..k] && 0 !in s[..k]
    requires s[k] == 0 || s[k] != t[k]
    ensures CString(s) == CString(t) <==> s[k] == t[k]
  {
    if k > 0 {
      assert s[0] == s[..k][0] && t[0] == t[..k][0];
      assert s[1..][..k - 1] == s[..k][1..] && t[1..][..k - 1] == t[..k][1..];
      CStringsCompare(s[1..], t[1..], k - 1);
    }
  }

  /** What `strncpy` leaves in a field of n bytes. */
  function Ncpy(s: Name, n: nat): (r: seq<byte>)
    ensures |r| == n
  {
    if |s| >= n then s[..n] else s + Zeros(n - |s|)
  }

  method Strncpy(dest: array<byte>, at: nat, src: array<byte>, n: nat)
    requires dest != src && at + n <= dest.Length && 0 in src[..]
    modifies dest
    ensures dest[..] == Store(old(dest[..]), at, Ncpy(CString(src[..]), n))
  {
    ghost var s := CString(src[..]);
    CStringEnds(src[..]);
    var i := 0;
    while i < n && src[i] != 0
      invariant 0 <= i <= n && i <= |s|
      invariant forall x :: 0 <= x < dest.Length ==> dest[x] == if at <= x < at + i then s[x - at] else old(dest[x])
    {
      dest[at + i] := src[i];
      i := i + 1;
    }
    assert i == n || i == |s|;
    while i < n
      invariant 0 <= i <= n && (i == n || |s| <= i)
      invariant forall x :: 0 <= x < dest.Length ==>
        dest[x] == if at <= x < at + i then (if x - at < |s| then s[x - at] else 0) else old(dest[x])
    {
      dest[at + i] := 0;
      i := i + 1;
    }
  }

  lemma {:induction false} CStringEnds(s: seq<byte>)
    requires 0 in s
    ensures |CString(s)| < |s|
  {
    if s[0] != 0 {
      CStringEnds(s[1..]);
    }
  }
}
