/** The Python string operations that the modelled code relies on. */
module PyText {

  /** Code points that Python's str.strip() treats as whitespace. */
  predicate IsSpace(c: char) {
    var n := c as int;
    || 9 <= n <= 13 || 28 <= n <= 32 || n == 0x85 || n == 0xA0 || n == 0x1680
    || 0x2000 <= n <= 0x200A || n == 0x2028 || n == 0x2029 || n == 0x202F || n == 0x205F || n == 0x3000
  }

  predicate AllSpace(s: string) {
    forall i :: 0 <= i < |s| ==> IsSpace(s[i])
  }

  /** s.lstrip() */
  function LStrip(s: string): (r: string)
    ensures |r| <= |s|
  {
    if s != "" && IsSpace(s[0]) then LStrip(s[1..]) else s
  }

  /** s.rstrip() */
  function RStrip(s: string): (r: string)
    ensures |r| <= |s|
  {
    if s != "" && IsSpace(s[|s| - 1]) then RStrip(s[..|s| - 1]) else s
  }

  /** lstrip drops a prefix of whitespace, and all of it. */
  lemma {:induction false} LStripIs(s: string)
    ensures var n := |s| - |LStrip(s)|;
      && LStrip(s) == s[n..] && AllSpace(s[..n])
      && (n < |s| ==> !IsSpace(s[n]))
  {
    if s != "" && IsSpace(s[0]) {
      LStripIs(s[1..]);
      var n := |s| - |LStrip(s)|;
      assert s[..n] == [s[0]] + s[1..][..n - 1];
    }
  }

  /** rstrip drops a suffix of whitespace, and all of it. */
  lemma {:induction false} RStripIs(s: string)
    ensures var n := |RStrip(s)|;
      && RStrip(s) == s[..n] && AllSpace(s[n..])
      && (0 < n ==> !IsSpace(s[n - 1]))
  {
    if s != "" && IsSpace(s[|s| - 1]) {
      RStripIs(s[..|s| - 1]);
      var n := |RStrip(s)|;
      assert s[n..] == s[..|s| - 1][n..] + [s[|s| - 1]];
    }
  }

  predicate OccursAt(s: string, sub: string, i: int) {
    0 <= i <= |s| - |sub| && forall j :: 0 <= j < |sub| ==> s[i + j] == sub[j]
  }

  /** s.find(sub, from): the first occurrence at or after `from`, or -1. */
  function Find(s: string, sub: string, from: nat): (r: int)
    requires from <= |s|
    ensures r == -1 || from <= r <= |s| - |sub|
    decreases |s| - from
  {
    if OccursAt(s, sub, from) then from
    else if from == |s| then -1
    else Find(s, sub, from + 1)
  }

  lemma {:induction false} FindIs(s: string, sub: string, from: nat)
    requires from <= |s|
    ensures var r := Find(s, sub, from);
      && (r == -1 || OccursAt(s, sub, r))
      && (forall i :: from <= i && (r == -1 || i < r) ==> !OccursAt(s, sub, i))
    decreases |s| - from
  {
    if !OccursAt(s, sub, from) && from < |s| {
      FindIs(s, sub, from + 1);
    }
  }

  /** s.rfind(sub, 0, end): the last occurrence that ends at or before `end`, or -1. */
  function RFind(s: string, sub: string, end: nat): (r: int)
    ensures r == -1 || 0 <= r <= end - |sub|
  {
    if end < |sub| then -1
    else if OccursAt(s, sub, end - |sub|) then end - |sub|
    else if end == 0 then -1
    else RFind(s, sub, end - 1)
  }

  lemma {:induction false} RFindIs(s: string, sub: string, end: nat)
    ensures var r := RFind(s, sub, end);
      && (r == -1 || OccursAt(s, sub, r))
      && (forall i :: r < i && i + |sub| <= end ==> !OccursAt(s, sub, i))
  {
    if |sub| <= end && end != 0 && !OccursAt(s, sub, end - |sub|) {
      RFindIs(s, sub, end - 1);
    }
  }

  /** len(s.encode("utf-8")), section 3 of RFC 3629. */
  function Utf8Size(s: string): (n: nat)
    ensures n >= |s|
  {
    if s == "" then 0
    else
      var c := s[|s| - 1] as int;
      Utf8Size(s[..|s| - 1]) + (if c < 0x80 then 1 else if c < 0x800 then 2 else if c < 0x10000 then 3 else 4)
  }

  lemma {:induction false} Utf8SizeConcat(a: string, b: string)
    ensures Utf8Size(a + b) == Utf8Size(a) + Utf8Size(b)
  {
    if b == "" {
      assert a + b == a;
    } else {
      Utf8SizeConcat(a, b[..|b| - 1]);
      assert (a + b)[..|a + b| - 1] == a + b[..|b| - 1];
    }
  }

  /** One to four bytes a character; exactly one each if and only if the text is ASCII. */
  lemma {:induction false} Utf8SizeIs(s: string)
    ensures |s| <= Utf8Size(s) <= 4 * |s|
    ensures Utf8Size(s) == |s| <==> forall i :: 0 <= i < |s| ==> s[i] as int < 0x80
  {
    if s != "" {
      Utf8SizeIs(s[..|s| - 1]);
    }
  }

  lemma Utf8SizeOfOne(c: char)
    ensures Utf8Size([c]) == 1 <==> c as int <= 0x7F
    ensures Utf8Size([c]) == 2 <==> 0x80 <= c as int <= 0x7FF
    ensures Utf8Size([c]) == 3 <==> 0x800 <= c as int <= 0xFFFF
  {
    assert [c][..0] == "";
  }
}
