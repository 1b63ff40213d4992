/** The few string operations the supervisor relies on: trimming, lower-casing and searching. */
module Text {

  /** The white space that Go's strings.TrimSpace removes. */
  predicate IsSpace(c: char) {
    || '\t' <= c <= '\r' || c == ' ' || c == '\U{85}' || c == '\U{A0}' || c == '\U{1680}'
    || '\U{2000}' <= c <= '\U{200A}' || c == '\U{2028}' || c == '\U{2029}' || c == '\U{202F}'
    || c == '\U{205F}' || c == '\U{3000}'
  }

  function TrimLeft(s: string): (r: string)
    ensures r != "" ==> !IsSpace(r[0])
  {
    if s != "" && IsSpace(s[0]) then TrimLeft(s[1..]) else s
  }

  function TrimRight(s: string): (r: string)
    ensures r <= s
    ensures r != "" ==> !IsSpace(r[|r| - 1])
  {
    if s != "" && IsSpace(s[|s| - 1]) then TrimRight(s[..|s| - 1]) else s
  }

  /** strings.TrimSpace */
  function TrimSpace(s: string): (r: string)
    ensures IsTrimmed(r)
    ensures IsTrimmed(s) ==> r == s
  {
    TrimRight(TrimLeft(s))
  }

  predicate IsTrimmed(s: string) {
    s != "" ==> !IsSpace(s[0]) && !IsSpace(s[|s| - 1])
  }

  predicate IsBlank(s: string) {
    TrimSpace(s) == ""
  }

  lemma TrimTwice(s: string)
    ensures TrimSpace(TrimSpace(s)) == TrimSpace(s) && (IsBlank(TrimSpace(s)) <==> IsBlank(s))
  {
  }

  function LowerChar(c: char): char {
    if 'A' <= c <= 'Z' then (c as int + 32) as char else c
  }

  /** strings.ToLower on ASCII letters; every other character is kept. */
  function Lower(s: string): (r: string)
    ensures |r| == |s|
    ensures forall i :: 0 <= i < |s| ==> r[i] == LowerChar(s[i])
  {
    seq(|s|, i requires 0 <= i < |s| => LowerChar(s[i]))
  }

  /** `pat` occurs in `s` at position `i`. */
  predicate OccursAt(s: string, pat: string, i: int) {
    0 <= i <= |s| - |pat| && s[i..i + |pat|] == pat
  }

  predicate Contains(s: string, pat: string) {
    exists i :: 0 <= i <= |s| && OccursAt(s, pat, i)
  }

  predicate HasPrefix(s: string, p: string) {
    |p| <= |s| && forall i :: 0 <= i < |p| ==> s[i] == p[i]
  }

  lemma PrefixIsStart(p: string, s: string)
    ensures p <= s <==> HasPrefix(s, p)
  {
  }

  /** `i` is the first occurrence of `pat` at or after `from`; negative when there is none. */
  ghost predicate IsIndex(s: string, pat: string, from: nat, i: int) {
    if i < 0 then forall k :: from <= k ==> !OccursAt(s, pat, k)
    else from <= i && OccursAt(s, pat, i) && forall k :: from <= k < i ==> !OccursAt(s, pat, k)
  }

  /** strings.Index: the first occurrence of `pat` in `s` at or after `from`, or -1. */
  method Index(s: string, pat: string, from: nat) returns (i: int)
    requires from <= |s|
    ensures i >= -1 && IsIndex(s, pat, from, i)
  {
    i := from;
    while i + |pat| <= |s|
      invariant from <= i
      invariant forall k :: from <= k < i ==> !OccursAt(s, pat, k)
    {
      if s[i..i + |pat|] == pat { return; }
      i := i + 1;
    }
    i := -1;
  }

  /** The length of a character, and of a text, in UTF-8, which is what the server's len counts. */
  function CharBytes(c: char): nat {
    if c < '\U{80}' then 1 else if c < '\U{800}' then 2 else if c < '\U{10000}' then 3 else 4
  }

  function Bytes(s: string): (n: nat)
    ensures |s| <= n
  {
    if s == "" then 0 else CharBytes(s[0]) + Bytes(s[1..])
  }

  lemma {:induction false} AsciiBytes(s: string)
    requires forall i :: 0 <= i < |s| ==> s[i] < '\U{80}'
    ensures Bytes(s) == |s|
  {
    if s != "" { AsciiBytes(s[1..]); }
  }

  /** UTF-8 takes one byte up to seven bits, two up to eleven, three up to sixteen and four beyond. */
  lemma BytesByBits(c: char)
    ensures 1 <= CharBytes(c) <= 4
    ensures (CharBytes(c) == 1 <==> (c as int) / 128 == 0) && (CharBytes(c) <= 2 <==> (c as int) / 2048 == 0)
    ensures CharBytes(c) <= 3 <==> (c as int) / 65536 == 0
  {
  }

  lemma {:induction false} BytesAdd(a: string, b: string)
    ensures Bytes(a + b) == Bytes(a) + Bytes(b)
  {
    if a == "" {
      assert a + b == b;
    } else {
      BytesAdd(a[1..], b);
      assert (a + b)[1..] == a[1..] + b;
    }
  }
}
