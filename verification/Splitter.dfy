/**
  The Telegram HTML splitter (app/tg/markdown.py): a rendered message is cut into chunks that fit
  Telegram's limit, preferably at blank lines, then lines, then blanks, and never inside a <pre>
  block if that can be avoided.  A forced cut closes and re-opens the block by hand, so the text
  still to be split can grow.
*/
module Splitter {
  import opened PyText

  const PRE_OPEN := "<pre>"
  const PRE_CLOSE := "</pre>"
  const SHUT := "</code></pre>"
  const REOPEN := "<pre><code>"

  // ---------- <pre> ranges ----------

  datatype Range = Range(start: nat, end: nat)

  predicate Within(r: Range, idx: int) {
    r.start < idx < r.end
  }

  predicate Inside(ranges: seq<Range>, idx: int) {
    exists k :: 0 <= k < |ranges| && Within(ranges[k], idx)
  }

  /** The <pre> ranges of `text` from `pos` on. */
  ghost function RangesFrom(text: string, pos: nat): seq<Range>
    requires pos <= |text|
    decreases |text| - pos
  {
    var start := Find(text, PRE_OPEN, pos);
    if start == -1 then []
    else
      var close := Find(text, PRE_CLOSE, start);
      if close == -1 then [Range(start, |text|)]
      else [Range(start, close + |PRE_CLOSE|)] + RangesFrom(text, close + |PRE_CLOSE|)
  }

  lemma RangesStep(text: string, pos: nat)
    requires pos <= |text|
    ensures var start := Find(text, PRE_OPEN, pos);
      RangesFrom(text, pos)
        == if start == -1 then []
           else
             var close := Find(text, PRE_CLOSE, start);
             if close == -1 then [Range(start, |text|)]
             else [Range(start, close + |PRE_CLOSE|)] + RangesFrom(text, close + |PRE_CLOSE|)
  {
    hide Find;
  }

  /** A range opens at a <pre> tag and ends behind the first </pre> after it, or at the end of the text. */
  ghost predicate IsRange(text: string, r: Range) {
    && r.start + |PRE_OPEN| <= r.end <= |text|
    && OccursAt(text, PRE_OPEN, r.start)
    && (forall i :: r.start <= i < r.end - |PRE_CLOSE| ==> !OccursAt(text, PRE_CLOSE, i))
    && (OccursAt(text, PRE_CLOSE, r.end - |PRE_CLOSE|)
        || (r.end == |text| && forall i :: r.start <= i ==> !OccursAt(text, PRE_CLOSE, i)))
  }

  predicate Covers(r: Range, p: int) {
    r.start <= p < r.end
  }

  predicate Covered(ranges: seq<Range>, p: int) {
    exists k :: 0 <= k < |ranges| && Covers(ranges[k], p)
  }

  ghost predicate Genuine(text: string, pos: nat, rs: seq<Range>) {
    forall k :: 0 <= k < |rs| ==> pos <= rs[k].start && IsRange(text, rs[k])
  }

  ghost predicate Ordered(rs: seq<Range>) {
    forall j, k :: 0 <= j < k < |rs| ==> rs[j].end <= rs[k].start
  }

  ghost predicate Complete(text: string, pos: nat, rs: seq<Range>) {
    forall p :: pos <= p && OccursAt(text, PRE_OPEN, p) ==> Covered(rs, p)
  }

  /** The ranges are genuine, ordered and disjoint. */
  lemma {:induction false} RangesGenuine(text: string, pos: nat)
    requires pos <= |text|
    ensures Genuine(text, pos, RangesFrom(text, pos)) && Ordered(RangesFrom(text, pos))
    decreases |text| - pos
  {
    hide Find, IsRange, Genuine, Ordered, RangesFrom;
    var start := Find(text, PRE_OPEN, pos);
    RangesStep(text, pos);
    NoRanges(text, pos);
    if start != -1 {
      var close := Find(text, PRE_CLOSE, start);
      FindIs(text, PRE_OPEN, pos);
      FirstRange(text, start);
      if close == -1 {
        NoRanges(text, |text|);
        GenuineCons(text, pos, Range(start, |text|), []);
        assert [Range(start, |text|)] + [] == [Range(start, |text|)];
      } else {
        RangesGenuine(text, close + |PRE_CLOSE|);
        GenuineCons(text, pos, Range(start, close + |PRE_CLOSE|), RangesFrom(text, close + |PRE_CLOSE|));
      }
    }
  }

  lemma NoRanges(text: string, pos: nat)
    ensures Genuine(text, pos, []) && Ordered([])
  {
  }

  /** No <pre> tag from `pos` on lies outside all ranges. */
  lemma {:induction false} RangesComplete(text: string, pos: nat)
    requires pos <= |text|
    ensures Complete(text, pos, RangesFrom(text, pos))
    decreases |text| - pos
  {
    hide Find;
    var start := Find(text, PRE_OPEN, pos);
    FindIs(text, PRE_OPEN, pos);
    if start != -1 {
      var close := Find(text, PRE_CLOSE, start);
      if close == -1 {
        CompleteCons(text, pos, Range(start, |text|), []);
      } else {
        RangesComplete(text, close + |PRE_CLOSE|);
        CompleteCons(text, pos, Range(start, close + |PRE_CLOSE|), RangesFrom(text, close + |PRE_CLOSE|));
      }
    }
  }

  lemma FirstRange(text: string, start: nat)
    requires start <= |text| && OccursAt(text, PRE_OPEN, start)
    ensures var close := Find(text, PRE_CLOSE, start);
      IsRange(text, Range(start, if close == -1 then |text| else close + |PRE_CLOSE|))
  {
    FindIs(text, PRE_CLOSE, start);
  }

  lemma GenuineCons(text: string, pos: nat, first: Range, rest: seq<Range>)
    requires pos <= first.start && IsRange(text, first)
    requires Genuine(text, first.end, rest) && Ordered(rest)
    ensures Genuine(text, pos, [first] + rest) && Ordered([first] + rest)
  {
    var all := [first] + rest;
    assert forall k :: 0 < k < |all| ==> all[k] == rest[k - 1];
  }

  lemma CompleteCons(text: string, pos: nat, first: Range, rest: seq<Range>)
    requires forall p :: pos <= p < first.start ==> !OccursAt(text, PRE_OPEN, p)
    requires Complete(text, first.end, rest)
    ensures Complete(text, pos, [first] + rest)
  {
    forall p | pos <= p && OccursAt(text, PRE_OPEN, p) ensures Covered([first] + rest, p) {
      CoveredCons(first, rest, p);
    }
  }

  lemma CoveredCons(first: Range, rest: seq<Range>, p: int)
    ensures Covered([first] + rest, p) <==> Covers(first, p) || Covered(rest, p)
  {
    var all := [first] + rest;
    if Covered(rest, p) {
      var k :| 0 <= k < |rest| && Covers(rest[k], p);
      assert all[k + 1] == rest[k];
    }
    if Covers(first, p) {
      assert all[0] == first;
    }
  }

  method PreRanges(text: string) returns (ranges: seq<Range>)
    ensures ranges == RangesFrom(text, 0)
  {
    ranges := [];
    var pos := 0;
    while true
      invariant pos <= |text|
      invariant ranges + RangesFrom(text, pos) == RangesFrom(text, 0)
      decreases |text| - pos
    {
      var start := Find(text, PRE_OPEN, pos);
      if start == -1 {
        return;
      }
      var end := Find(text, PRE_CLOSE, start);
      if end == -1 {
        ranges := ranges + [Range(start, |text|)];
        return;
      }
      end := end + |PRE_CLOSE|;
      ranges := ranges + [Range(start, end)];
      pos := end;
    }
  }

  // ---------- choosing a cut ----------

  /** A usable cut: the separator occurs wholly in front of `hi` and not inside a <pre> range. */
  predicate FreeAt(text: string, sep: string, hi: int, ranges: seq<Range>, i: int) {
    OccursAt(text, sep, i) && i + |sep| <= hi && !Inside(ranges, i)
  }

  /** The last free occurrence of `sep` that ends at or before `hi`, or -1. */
  ghost function LastFree(text: string, sep: string, hi: nat, ranges: seq<Range>): (r: int)
    ensures r == -1 || 0 <= r <= hi - |sep|
  {
    if hi < |sep| then -1
    else if FreeAt(text, sep, hi, ranges, hi - |sep|) then hi - |sep|
    else if hi == 0 then -1
    else LastFree(text, sep, hi - 1, ranges)
  }

  ghost predicate IsLastFree(text: string, sep: string, hi: int, ranges: seq<Range>, r: int) {
    && (r == -1 || FreeAt(text, sep, hi, ranges, r))
    && -1 <= r
    && forall i :: r < i ==> !FreeAt(text, sep, hi, ranges, i)
  }

  lemma {:induction false} LastFreeIs(text: string, sep: string, hi: nat, ranges: seq<Range>)
    ensures IsLastFree(text, sep, hi, ranges, LastFree(text, sep, hi, ranges))
  {
    if |sep| <= hi && hi != 0 && !FreeAt(text, sep, hi, ranges, hi - |sep|) {
      LastFreeIs(text, sep, hi - 1, ranges);
      forall i | LastFree(text, sep, hi, ranges) < i ensures !FreeAt(text, sep, hi, ranges, i) {
        assert i != hi - |sep| ==> !FreeAt(text, sep, hi - 1, ranges, i);
      }
    }
  }

  /** The separators in order of preference. */
  const SEPARATORS := ["\n\n", "\n", " "]

  predicate IsSeparator(sep: string) {
    sep == "\n\n" || sep == "\n" || sep == " "
  }

  /** A blank may be anywhere but in front; the other separators must lie in the second half. */
  function Threshold(k: nat, limit: nat): nat {
    if k == 2 then 0 else limit / 2
  }

  ghost predicate AllTagged(text: string, ranges: seq<Range>) {
    forall k :: 0 <= k < |ranges| ==> ranges[k].start < |text| && text[ranges[k].start] == '<'
  }

  /** The part of the text in which <pre> ranges are looked for. */
  function Window(text: string, limit: nat): string {
    if limit + |PRE_CLOSE| <= |text| then text[..limit + |PRE_CLOSE|] else text
  }

  lemma WindowTagged(text: string, limit: nat)
    ensures AllTagged(text, RangesFrom(Window(text, limit), 0))
  {
    var w := Window(text, limit);
    var rs := RangesFrom(w, 0);
    RangesGenuine(w, 0);
    forall k | 0 <= k < |rs| ensures rs[k].start < |text| && text[rs[k].start] == '<' {
      assert IsRange(w, rs[k]);
      assert w[rs[k].start + 0] == PRE_OPEN[0];
    }
  }

  /** Where Python's slices and searches put index `i` of a string of length `n`: a negative one counts from the end. */
  function SliceAt(n: nat, i: int): nat {
    if i < 0 then (if n + i < 0 then 0 else n + i) else if n < i then n else i
  }

  /**
    The cut that is specified: the last free blank line if it lies in the second half, else the last
    free newline if it lies in the second half, else the last free blank, else a forced cut.
  */
  ghost function NextCut(text: string, limit: nat): (int, bool) {
    var ranges := RangesFrom(Window(text, limit), 0);
    Choose(limit,
           LastFree(text, "\n\n", limit, ranges),
           LastFree(text, "\n", limit, ranges),
           LastFree(text, " ", limit, ranges),
           RFind(text, "\n", SliceAt(|text|, limit - 13)))
  }

  ghost function Choose(limit: nat, paragraph: int, line: int, blank: int, newline: int): (int, bool) {
    if paragraph > limit / 2 then (paragraph + 2, false)
    else if line > limit / 2 then (line + 1, false)
    else if blank > 0 then (blank + 1, false)
    else if newline > 0 then (newline + 1, true)
    else (limit - 13, true)
  }

  /** No separator contains '<', so an occurrence never touches the start of a range. */
  lemma SeparatorFreeOfTags(text: string, sep: string, i: int)
    requires IsSeparator(sep) && OccursAt(text, sep, i)
    ensures forall p :: i <= p < i + |sep| ==> text[p] != '<'
  {
    forall p | i <= p < i + |sep| ensures text[p] != '<' {
      assert text[i + (p - i)] == sep[p - i];
    }
  }

  /** An occurrence that overlaps a later one inside a range lies inside that range itself. */
  lemma OverlapIsInside(text: string, sep: string, ranges: seq<Range>, idx: int, i: int)
    requires IsSeparator(sep) && AllTagged(text, ranges)
    requires Inside(ranges, idx) && OccursAt(text, sep, i) && i < idx < i + |sep|
    ensures Inside(ranges, i)
  {
    SeparatorFreeOfTags(text, sep, i);
    var k :| 0 <= k < |ranges| && Within(ranges[k], idx);
    assert ranges[k].start != i;
    assert Within(ranges[k], i);
  }

  /** Repeated rfind, stepping over occurrences inside ranges, finds the last free occurrence. */
  method LastSeparator(text: string, sep: string, limit: nat, ranges: seq<Range>) returns (idx: int)
    requires IsSeparator(sep) && AllTagged(text, ranges)
    ensures IsLastFree(text, sep, limit, ranges, idx)
  {
    idx := RFind(text, sep, limit);
    RFindIs(text, sep, limit);
    while idx > 0 && Inside(ranges, idx)
      invariant -1 <= idx
      invariant idx != -1 ==> OccursAt(text, sep, idx) && idx + |sep| <= limit
      invariant forall i :: idx < i ==> !FreeAt(text, sep, limit, ranges, i)
      decreases idx
    {
      var next := RFind(text, sep, idx);
      RFindIs(text, sep, idx);
      forall i | next < i ensures !FreeAt(text, sep, limit, ranges, i) {
        if i < idx && OccursAt(text, sep, i) {
          OverlapIsInside(text, sep, ranges, idx, i);
        }
      }
      idx := next;
    }
  }

  lemma LastFreeUnique(text: string, sep: string, hi: nat, ranges: seq<Range>, idx: int)
    requires IsLastFree(text, sep, hi, ranges, idx)
    ensures idx == LastFree(text, sep, hi, ranges)
  {
    LastFreeIs(text, sep, hi, ranges);
  }

  /** `n` is the last newline wholly in front of `end`, or -1. */
  ghost predicate IsLastNewline(text: string, end: nat, n: int) {
    && -1 <= n
    && (n == -1 || (OccursAt(text, "\n", n) && n + 1 <= end))
    && forall i :: n < i && i + 1 <= end ==> !OccursAt(text, "\n", i)
  }

  /** A forced cut lies behind the last newline in front of `end`, if there is one behind the start, and else right there. */
  ghost predicate CutsForced(text: string, end: nat, limit: nat, cut: int) {
    forall n :: IsLastNewline(text, end, n) ==> cut == if 0 < n then n + 1 else limit - 13
  }

  /**
    Which cut wins, for the last usable blank line `i`, newline `j` and blank `k`, if any (-1): behind the blank
    line, if that lies in the second half; else behind the newline, if that does; else behind the blank, if that
    is not in front; else a forced cut.
  */
  ghost predicate Wins(text: string, limit: nat, i: int, j: int, k: int, cut: int, forced: bool) {
    && (limit / 2 < i ==> cut == i + 2 && !forced)
    && (i <= limit / 2 < j ==> cut == j + 1 && !forced)
    && (i <= limit / 2 && j <= limit / 2 && 0 < k ==> cut == k + 1 && !forced)
    && (i <= limit / 2 && j <= limit / 2 && k <= 0 ==> forced && CutsForced(text, SliceAt(|text|, limit - 13), limit, cut))
  }

  ghost predicate Prefers(text: string, limit: nat, cut: int, forced: bool) {
    var rs := RangesFrom(Window(text, limit), 0);
    forall i, j, k :: (
      && IsLastFree(text, "\n\n", limit, rs, i)
      && IsLastFree(text, "\n", limit, rs, j)
      && IsLastFree(text, " ", limit, rs, k)) ==> Wins(text, limit, i, j, k, cut, forced)
  }

  lemma NewlineUnique(text: string, end: nat, n: int)
    requires IsLastNewline(text, end, n)
    ensures n == RFind(text, "\n", end)
  {
    RFindIs(text, "\n", end);
    hide RFind, OccursAt;
  }

  lemma NextCutPrefers(text: string, limit: nat)
    ensures Prefers(text, limit, NextCut(text, limit).0, NextCut(text, limit).1)
  {
    var rs, end := RangesFrom(Window(text, limit), 0), SliceAt(|text|, limit - 13);
    var (cut, forced) := NextCut(text, limit);
    hide RangesFrom, Window, RFind, LastFree, IsLastFree, IsLastNewline;
    forall i, j, k | IsLastFree(text, "\n\n", limit, rs, i) && IsLastFree(text, "\n", limit, rs, j) && IsLastFree(text, " ", limit, rs, k)
      ensures Wins(text, limit, i, j, k, cut, forced)
    {
      LastFreeUnique(text, "\n\n", limit, rs, i);
      LastFreeUnique(text, "\n", limit, rs, j);
      LastFreeUnique(text, " ", limit, rs, k);
      forall n | IsLastNewline(text, end, n) ensures n == RFind(text, "\n", end) {
        NewlineUnique(text, end, n);
      }
    }
  }

  method SafeCut(text: string, limit: nat) returns (cut: int, forced: bool)
    ensures (cut, forced) == NextCut(text, limit)
    ensures Prefers(text, limit, cut, forced)
  {
    hide RangesFrom, LastFree, RFind, FreeAt, AllTagged, Window, Prefers;
    NextCutPrefers(text, limit);
    var ranges := PreRanges(Window(text, limit));
    WindowTagged(text, limit);
    ghost var free := seq(3, k requires 0 <= k < 3 => LastFree(text, SEPARATORS[k], limit, ranges));
    ghost var newline' := RFind(text, "\n", SliceAt(|text|, limit - 13));
    assert NextCut(text, limit) == Choose(limit, free[0], free[1], free[2], newline');
    for k := 0 to 3
      invariant forall j :: 0 <= j < k ==> free[j] <= Threshold(j, limit)
    {
      var idx := LastSeparator(text, SEPARATORS[k], limit, ranges);
      LastFreeUnique(text, SEPARATORS[k], limit, ranges, idx);
      if idx > Threshold(k, limit) {
        return idx + |SEPARATORS[k]|, false;
      }
    }
    var safeLimit := limit - |SHUT|;
    var newline := RFind(text, "\n", SliceAt(|text|, safeLimit));
    if newline > 0 {
      return newline + 1, true;
    }
    return safeLimit, true;
  }

  // ---------- splitting ----------

  function Head(rest: string, cut: nat, forced: bool): string
    requires cut <= |rest|
  {
    if forced then RStrip(rest[..cut]) + SHUT else RStrip(rest[..cut])
  }

  function Remainder(rest: string, cut: nat, forced: bool): string
    requires cut <= |rest|
  {
    if forced then REOPEN + LStrip(rest[cut..]) else LStrip(rest[cut..])
  }

  /**
    What each round of the loop uses up.  A forced cut may leave a longer remainder, but only if the
    text did not yet start with the re-opened block; eleven credits pay for that one time.
  */
  ghost function Potential(rest: string): nat {
    |rest| + (if REOPEN <= rest then 0 else 11)
  }

  /** Neither a newline nor a blank occurs among the first eleven characters of a re-opened block. */
  lemma ReopenedHasNoSeparator(text: string, sep: string, i: int)
    requires REOPEN <= text && IsSeparator(sep) && 0 <= i < 11
    ensures !OccursAt(text, sep, i)
  {
    assert text[i + 0] == REOPEN[i] != sep[0];
  }

  lemma LastFreeLate(text: string, sep: string, hi: nat, ranges: seq<Range>)
    requires REOPEN <= text && IsSeparator(sep)
    ensures var r := LastFree(text, sep, hi, ranges); r == -1 || 11 <= r
  {
    LastFreeIs(text, sep, hi, ranges);
    var r := LastFree(text, sep, hi, ranges);
    if 0 <= r < 11 {
      ReopenedHasNoSeparator(text, sep, r);
    }
  }

  lemma CutBounds(text: string, limit: nat)
    requires 24 < limit < |text|
    ensures var (cut, forced) := NextCut(text, limit);
      && 2 <= cut <= limit
      && (forced ==> cut <= limit - 13)
      && (REOPEN <= text ==> 12 <= cut)
  {
    if REOPEN <= text {
      var ranges := RangesFrom(Window(text, limit), 0);
      LastFreeLate(text, "\n\n", limit, ranges);
      LastFreeLate(text, "\n", limit, ranges);
      LastFreeLate(text, " ", limit, ranges);
      RFindIs(text, "\n", limit - 13);
      var newline := RFind(text, "\n", limit - 13);
      if 0 <= newline < 11 {
        ReopenedHasNoSeparator(text, "\n", newline);
      }
    }
  }

  lemma PotentialDrops(rest: string, limit: nat)
    requires 24 < limit < |rest|
    ensures var (cut, forced) := NextCut(rest, limit);
      0 <= cut <= |rest| && Potential(Remainder(rest, cut, forced)) < Potential(rest)
  {
    CutBounds(rest, limit);
    var (cut, forced) := NextCut(rest, limit);
    assert REOPEN <= REOPEN + LStrip(rest[cut..]);
  }

  // ---------- the loop ----------

  /** One round of the loop, on what is left to be split. */
  ghost function Round(rest: string, limit: nat): string {
    var (cut, forced) := NextCut(rest, limit);
    if limit < |rest| then Remainder(rest, SliceAt(|rest|, cut), forced) else rest
  }

  ghost function Rounds(rest: string, limit: nat, n: nat): string
    decreases n
  {
    if n == 0 then rest else Rounds(Round(rest, limit), limit, n - 1)
  }

  ghost predicate Ends(text: string, limit: nat) {
    exists n: nat :: |Rounds(text, limit, n)| <= limit
  }

  lemma FitsStays(rest: string, limit: nat)
    requires |rest| <= limit
    ensures Round(rest, limit) == rest
  {
    hide NextCut;
  }

  lemma RoundsStep(rest: string, limit: nat, n: nat)
    requires 0 < n
    ensures Rounds(rest, limit, n) == Rounds(Round(rest, limit), limit, n - 1)
  {
    hide Round;
  }

  /** What fits is not split any further. */
  lemma {:induction false} FitsForGood(rest: string, limit: nat, n: nat, m: nat)
    requires |Rounds(rest, limit, n)| <= limit && n <= m
    ensures |Rounds(rest, limit, m)| <= limit
    decreases m
  {
    hide Round, Rounds;
    if n == m {
    } else if n == 0 {
      NoRounds(rest, limit);
      FitsStays(rest, limit);
      RoundsStep(rest, limit, m);
      FitsForGood(rest, limit, 0, m - 1);
    } else {
      RoundsStep(rest, limit, n);
      RoundsStep(rest, limit, m);
      FitsForGood(Round(rest, limit), limit, n - 1, m - 1);
    }
  }

  lemma NoRounds(rest: string, limit: nat)
    ensures Rounds(rest, limit, 0) == rest
  {
    hide Round;
  }

  ghost predicate IsLeft(rest: string, limit: nat, n: nat) {
    |Rounds(rest, limit, n)| <= limit && (n == 0 || limit < |Rounds(rest, limit, n - 1)|)
  }

  lemma {:induction false} LeastExists(rest: string, limit: nat, n: nat)
    requires |Rounds(rest, limit, n)| <= limit
    ensures exists m :: IsLeft(rest, limit, m)
    decreases n
  {
    hide Rounds;
    if n == 0 || limit < |Rounds(rest, limit, n - 1)| {
      assert IsLeft(rest, limit, n);
    } else {
      LeastExists(rest, limit, n - 1);
    }
  }

  /** How many rounds are left. */
  ghost function Left(rest: string, limit: nat): (n: nat)
    requires Ends(rest, limit)
    ensures IsLeft(rest, limit, n)
  {
    var k: nat :| |Rounds(rest, limit, k)| <= limit;
    LeastExists(rest, limit, k);
    var n :| IsLeft(rest, limit, n);
    n
  }

  lemma RoundTakesOne(rest: string, limit: nat)
    requires limit < |rest| && Ends(rest, limit)
    ensures Ends(Round(rest, limit), limit) && Left(Round(rest, limit), limit) < Left(rest, limit)
  {
    hide Round;
    var n := Left(rest, limit);
    assert |Rounds(Round(rest, limit), limit, n - 1)| <= limit;
    var m := Left(Round(rest, limit), limit);
    if n <= m {
      FitsForGood(Round(rest, limit), limit, n - 1, m - 1);
    }
  }

  /** The chunks of `rest`, wherever the loop ends. */
  ghost function Split(rest: string, limit: nat): seq<string>
    requires Ends(rest, limit)
    decreases Left(rest, limit)
  {
    if |rest| <= limit then
      if rest == "" then [] else [rest]
    else
      RoundTakesOne(rest, limit);
      var (cut, forced) := NextCut(rest, limit);
      [Head(rest, SliceAt(|rest|, cut), forced)] + Split(Round(rest, limit), limit)
  }

  lemma SplitStep(rest: string, limit: nat)
    requires limit < |rest| && Ends(rest, limit)
    ensures Ends(Round(rest, limit), limit) && Left(Round(rest, limit), limit) < Left(rest, limit)
    ensures var (cut, forced) := NextCut(rest, limit);
      Split(rest, limit) == [Head(rest, SliceAt(|rest|, cut), forced)] + Split(Round(rest, limit), limit)
  {
    RoundTakesOne(rest, limit);
  }

  method SplitChunks(text: string, limit: nat) returns (chunks: seq<string>)
    requires Ends(text, limit)
    ensures chunks == Split(text, limit)
  {
    hide NextCut, Head, Remainder, Ends;
    chunks := [];
    var rest := text;
    while |rest| > limit
      invariant Ends(rest, limit)
      invariant chunks + Split(rest, limit) == Split(text, limit)
      decreases Left(rest, limit)
    {
      var cut, forced := SafeCut(rest, limit);
      SplitStep(rest, limit);
      ghost var following := Split(Round(rest, limit), limit);
      var at := SliceAt(|rest|, cut);
      var head := Head(rest, at, forced);
      rest := Remainder(rest, at, forced);
      assert chunks + ([head] + following) == (chunks + [head]) + following;
      chunks := chunks + [head];
    }
    if rest != "" {
      chunks := chunks + [rest];
    }
  }

  // ---------- which limits end ----------

  lemma NoFreeSeparator(text: string, sep: string, hi: nat, ranges: seq<Range>)
    requires IsSeparator(sep)
    requires forall i :: 0 <= i < |text| ==> text[i] != '\n' && text[i] != ' '
    ensures LastFree(text, sep, hi, ranges) == -1 && RFind(text, sep, hi) == -1
  {
    LastFreeIs(text, sep, hi, ranges);
    RFindIs(text, sep, hi);
    forall i ensures !OccursAt(text, sep, i) {
      if 0 <= i < |text| {
        assert text[i + 0] != sep[0];
      }
    }
  }

  lemma CutOfSolidText(text: string, limit: nat)
    requires limit < |text|
    requires forall i :: 0 <= i < |text| ==> text[i] != '\n' && text[i] != ' '
    ensures NextCut(text, limit) == (limit - 13, true)
  {
    var ranges := RangesFrom(Window(text, limit), 0);
    NoFreeSeparator(text, "\n\n", limit, ranges);
    NoFreeSeparator(text, "\n", limit, ranges);
    NoFreeSeparator(text, "\n", SliceAt(|text|, limit - 13), ranges);
    NoFreeSeparator(text, " ", limit, ranges);
  }

  predicate Solid(s: string) {
    forall i :: 0 <= i < |s| ==> !IsSpace(s[i])
  }

  lemma SolidReopened(tail: string)
    requires Solid(tail)
    ensures LStrip(tail) == tail && Solid(REOPEN + tail)
  {
    forall i | 0 <= i < |REOPEN + tail| ensures !IsSpace((REOPEN + tail)[i]) {
      if i < 11 {
        assert (REOPEN + tail)[i] == REOPEN[i];
      } else {
        assert (REOPEN + tail)[i] == tail[i - 11];
      }
    }
  }

  lemma ForcedRound(rest: string, limit: nat, cut: int)
    requires limit < |rest| && NextCut(rest, limit) == (cut, true)
    ensures Round(rest, limit) == REOPEN + LStrip(rest[SliceAt(|rest|, cut)..])
  {
    hide NextCut, LStrip;
  }

  lemma ForcedCutIs(text: string, limit: nat)
    requires NextCut(text, limit).1
    ensures var newline := RFind(text, "\n", SliceAt(|text|, limit - 13));
      NextCut(text, limit) == (if newline > 0 then newline + 1 else limit - 13, true)
  {
    hide RFind, LastFree, RangesFrom, Window;
  }

  /** With a small limit a forced cut takes no more than it puts back. */
  lemma SolidRound(rest: string, limit: nat)
    requires limit <= 24 && limit != 12 && limit < |rest| && Solid(rest)
    ensures Solid(Round(rest, limit)) && limit < |Round(rest, limit)|
  {
    CutOfSolidText(rest, limit);
    ForcedRound(rest, limit, limit - 13);
    hide NextCut, LStrip, Round;
    var at := SliceAt(|rest|, limit - 13);
    assert Solid(rest[at..]);
    hide Solid;
    SolidReopened(rest[at..]);
  }

  lemma {:induction false} SmallLimitNeverEnds(rest: string, limit: nat, n: nat)
    requires limit <= 24 && limit != 12 && limit < |rest| && Solid(rest)
    ensures limit < |Rounds(rest, limit, n)|
    decreases n
  {
    hide Round, Solid;
    if n != 0 {
      SolidRound(rest, limit);
      SmallLimitNeverEnds(Round(rest, limit), limit, n - 1);
    }
  }

  lemma {:induction false} LargeLimitEnds(rest: string, limit: nat, n: nat)
    requires 24 < limit && (|rest| <= limit || Potential(rest) <= n)
    ensures |Rounds(rest, limit, n)| <= limit
    decreases n
  {
    if n != 0 {
      if limit < |rest| {
        PotentialDrops(rest, limit);
      }
      hide NextCut, Remainder;
      LargeLimitEnds(Round(rest, limit), limit, n - 1);
    }
  }

  lemma EndsBefore(rest: string, limit: nat)
    requires Ends(Round(rest, limit), limit)
    ensures Ends(rest, limit)
  {
    hide Round;
    var n: nat :| |Rounds(Round(rest, limit), limit, n)| <= limit;
    assert |Rounds(rest, limit, n + 1)| <= limit;
  }

  lemma EndsIfFits(rest: string, limit: nat)
    requires |rest| <= limit
    ensures Ends(rest, limit)
  {
    assert |Rounds(rest, limit, 0)| <= limit;
  }

  lemma StartsWithIts(text: string, sep: string, i: int)
    requires sep != ""
    ensures OccursAt(text, sep, i) ==> 0 <= i < |text| && text[i] == sep[0]
  {
    assert OccursAt(text, sep, i) ==> text[i..i + |sep|][0] == text[i];
  }

  /** With a limit of 12 a forced cut in a re-opened block of one line leaves just its last character. */
  lemma ReopenedLine(rest: string, tail: string)
    requires rest == REOPEN + tail && 12 < |rest| && !IsSpace(tail[0])
    requires forall i :: 0 <= i < |tail| - 1 ==> tail[i] != '\n'
    ensures NextCut(rest, 12) == (-1, true) && |Round(rest, 12)| <= 12
  {
    var ranges := RangesFrom(Window(rest, 12), 0);
    var n := |rest|;
    forall i | 0 <= i < n - 1 ensures rest[i] != '\n' && (i < 12 ==> rest[i] != ' ') {
      if i < 11 {
        assert rest[i] == REOPEN[i];
      } else {
        assert rest[i] == tail[i - 11];
      }
    }
    NoEarlySeparator(rest, "\n\n", ranges);
    NoEarlySeparator(rest, "\n", ranges);
    NoEarlySeparator(rest, " ", ranges);
    RFindIs(rest, "\n", n - 1);
    StartsWithIts(rest, "\n", RFind(rest, "\n", n - 1));
  }

  lemma NoEarlySeparator(rest: string, sep: string, ranges: seq<Range>)
    requires IsSeparator(sep) && 12 < |rest| && forall i :: 0 <= i < 12 ==> rest[i] != '\n' && rest[i] != ' '
    ensures LastFree(rest, sep, 12, ranges) == -1
  {
    LastFreeIs(rest, sep, 12, ranges);
    forall i ensures !FreeAt(rest, sep, 12, ranges, i) {
      StartsWithIts(rest, sep, i);
    }
  }

  lemma NotThere(text: string, i: nat)
    requires i < |text| && !OccursAt(text, "\n", i)
    ensures text[i] != '\n'
  {
    assert text[i..i + 1] == [text[i]];
  }

  /** What follows the last newline in front of the last character has no other, except perhaps that character. */
  lemma LastLine(text: string, newline: int)
    requires 0 < |text| && newline == RFind(text, "\n", |text| - 1) && 0 <= newline
    ensures var tail := LStrip(text[newline + 1..]);
      && (tail != "" ==> !IsSpace(tail[0]))
      && forall i :: 0 <= i < |tail| - 1 ==> tail[i] != '\n'
  {
    hide RFind, LStrip, OccursAt;
    RFindIs(text, "\n", |text| - 1);
    var rest := text[newline + 1..];
    LStripIs(rest);
    var tail := LStrip(rest);
    var k := newline + 1 + |rest| - |tail|;
    assert tail == text[k..];
    forall i | 0 <= i < |tail| - 1 ensures tail[i] != '\n' {
      NotThere(text, k + i);
    }
  }

  /** A forced cut with a limit of 12 is the last but one, at most. */
  lemma ForcedAtTwelveEnds(text: string)
    requires 12 < |text| && NextCut(text, 12).1
    ensures Ends(Round(text, 12), 12)
  {
    hide NextCut, Round, Ends, RFind, LStrip;
    var newline := RFind(text, "\n", |text| - 1);
    var next := Round(text, 12);
    ForcedCutIs(text, 12);
    ForcedRound(text, 12, if newline > 0 then newline + 1 else -1);
    if |next| <= 12 {
      EndsIfFits(next, 12);
    } else if newline > 0 {
      LastLine(text, newline);
      ReopenedLine(next, LStrip(text[newline + 1..]));
      EndsIfFits(Round(next, 12), 12);
      EndsBefore(next, 12);
    }
  }

  lemma UnforcedShrinks(text: string, limit: nat)
    requires limit < |text| && !NextCut(text, limit).1
    ensures |Round(text, limit)| < |text|
  {
  }

  /** A limit of 12 happens to end: a forced cut then keeps just the last line, and the next one its last character. */
  lemma {:induction false} TwelveEnds(text: string)
    ensures Ends(text, 12)
    decreases |text|
  {
    hide NextCut, Round, Ends;
    if |text| <= 12 {
      EndsIfFits(text, 12);
    } else {
      if NextCut(text, 12).1 {
        ForcedAtTwelveEnds(text);
      } else {
        UnforcedShrinks(text, 12);
        TwelveEnds(Round(text, 12));
      }
      EndsBefore(text, 12);
    }
  }

  lemma EndsAbove24(text: string, limit: nat)
    requires 24 < limit
    ensures Ends(text, limit)
  {
    LargeLimitEnds(text, limit, Potential(text));
  }

  /** The loop ends for every text exactly if the limit is above 24, or happens to be 12. */
  lemma EveryTextEndsIff(limit: nat)
    ensures (forall text :: Ends(text, limit)) <==> 24 < limit || limit == 12
  {
    if 24 < limit {
      forall text ensures Ends(text, limit) {
        EndsAbove24(text, limit);
      }
    } else if limit == 12 {
      forall text ensures Ends(text, limit) {
        TwelveEnds(text);
      }
    } else {
      var text := seq(25, _ => 'x');
      forall n: nat ensures limit < |Rounds(text, limit, n)| {
        SmallLimitNeverEnds(text, limit, n);
      }
      assert !Ends(text, limit);
    }
  }

  // ---------- what the chunks promise ----------

  lemma HeadFits(text: string, limit: nat, cut: nat, forced: bool)
    requires 2 <= cut <= |text| && cut <= limit && (forced ==> cut <= limit - 13)
    ensures |Head(text, cut, forced)| <= limit
    ensures !IsSpace(text[0]) ==> Head(text, cut, forced) != ""
  {
    RStripIs(text[..cut]);
    assert text[..cut][0..][0] == text[0];
  }

  lemma RemainderStartsClean(text: string, cut: nat, forced: bool)
    requires cut <= |text|
    ensures var rest := Remainder(text, cut, forced); rest == "" || !IsSpace(rest[0])
  {
    LStripIs(text[cut..]);
    if forced {
      assert Remainder(text, cut, forced)[0] == REOPEN[0];
    }
  }

  /** Every chunk fits, for every text; and none is empty unless the text starts with whitespace. */
  lemma {:induction false} ChunksFit(text: string, limit: nat)
    requires 24 < limit
    ensures Ends(text, limit)
    ensures forall c :: c in Split(text, limit) ==> |c| <= limit
    ensures text == "" || !IsSpace(text[0]) ==> "" !in Split(text, limit)
    decreases Potential(text)
  {
    EndsAbove24(text, limit);
    hide Ends, NextCut;
    if |text| > limit {
      var (cut, forced) := NextCut(text, limit);
      CutBounds(text, limit);
      PotentialDrops(text, limit);
      SplitStep(text, limit);
      HeadFits(text, limit, cut, forced);
      RemainderStartsClean(text, cut, forced);
      ChunksFit(Round(text, limit), limit);
    }
  }

  predicate EndsClean(s: string) {
    s == "" || !IsSpace(s[|s| - 1])
  }

  predicate StartsClean(s: string) {
    s == "" || !IsSpace(s[0])
  }

  lemma HeadEndsClean(text: string, cut: nat, forced: bool)
    requires cut <= |text|
    ensures EndsClean(Head(text, cut, forced))
  {
    RStripIs(text[..cut]);
    if forced {
      assert Head(text, cut, forced)[|Head(text, cut, forced)| - 1] == '>';
    }
  }

  /** No whitespace is left around a cut: chunks but the last end clean, chunks but the first start clean. */
  lemma {:induction false} CutsAreClean(text: string, limit: nat)
    requires 24 < limit
    ensures Ends(text, limit)
    ensures var chunks := Split(text, limit);
      && (forall n :: 0 <= n < |chunks| - 1 ==> EndsClean(chunks[n]))
      && (StartsClean(text) ==> forall n :: 0 <= n < |chunks| ==> StartsClean(chunks[n]))
      && (forall n :: 0 < n < |chunks| ==> StartsClean(chunks[n]))
    decreases Potential(text)
  {
    EndsAbove24(text, limit);
    hide Ends, NextCut, EndsClean, StartsClean, Head;
    if |text| > limit {
      var (cut, forced) := NextCut(text, limit);
      CutBounds(text, limit);
      PotentialDrops(text, limit);
      SplitStep(text, limit);
      HeadEndsClean(text, cut, forced);
      HeadStartsClean(text, cut, forced);
      RestStartsClean(text, cut, forced);
      CutsAreClean(Round(text, limit), limit);
    }
  }

  lemma HeadStartsClean(text: string, cut: nat, forced: bool)
    requires cut <= |text|
    ensures StartsClean(text) ==> StartsClean(Head(text, cut, forced))
  {
    RStripIs(text[..cut]);
    var kept := RStrip(text[..cut]);
    assert kept != "" ==> kept[0] == text[0];
    assert kept == "" ==> kept + SHUT == SHUT;
  }

  lemma RestStartsClean(text: string, cut: nat, forced: bool)
    requires cut <= |text|
    ensures StartsClean(Remainder(text, cut, forced))
  {
    RemainderStartsClean(text, cut, forced);
  }

  /** No usable cut lies behind `from`. */
  ghost predicate NoneFree(text: string, sep: string, hi: int, ranges: seq<Range>, from: int) {
    forall i :: from < i ==> !FreeAt(text, sep, hi, ranges, i)
  }

  lemma NoneFreeIff(text: string, sep: string, hi: nat, ranges: seq<Range>, from: nat)
    ensures NoneFree(text, sep, hi, ranges, from) <==> LastFree(text, sep, hi, ranges) <= from
  {
    hide FreeAt;
    LastFreeIs(text, sep, hi, ranges);
  }

  /** A cut is forced exactly if no separator outside the <pre> ranges is far enough behind the start. */
  lemma ForcedIff(text: string, limit: nat)
    ensures var ranges := RangesFrom(Window(text, limit), 0);
      NextCut(text, limit).1 <==>
        && NoneFree(text, "\n\n", limit, ranges, limit / 2)
        && NoneFree(text, "\n", limit, ranges, limit / 2)
        && NoneFree(text, " ", limit, ranges, 0)
  {
    hide NoneFree, RangesFrom, LastFree, Window;
    var ranges := RangesFrom(Window(text, limit), 0);
    NoneFreeIff(text, "\n\n", limit, ranges, limit / 2);
    NoneFreeIff(text, "\n", limit, ranges, limit / 2);
    NoneFreeIff(text, " ", limit, ranges, 0);
  }

  // ---------- nothing is lost ----------

  /** One chunk taken apart: the markers put around it, its own text, and the blanks dropped behind it. */
  datatype Piece = Piece(reopened: bool, body: string, closed: bool, gap: string)

  ghost function Render(p: Piece): string {
    Opening(p.reopened) + p.body + (if p.closed then SHUT else "")
  }

  function Opening(reopened: bool): string {
    if reopened then REOPEN else ""
  }

  ghost function Glue(pieces: seq<Piece>): string {
    if pieces == [] then "" else pieces[0].body + pieces[0].gap + Glue(pieces[1..])
  }

  ghost function Bodies(pieces: seq<Piece>): string {
    if pieces == [] then "" else pieces[0].body + Bodies(pieces[1..])
  }

  ghost predicate Linked(pieces: seq<Piece>, reopened: bool, k: int)
    requires 0 <= k < |pieces|
  {
    pieces[k].reopened == if k == 0 then reopened else pieces[k - 1].closed
  }

  /**
    `pieces` accounts for the chunks of `tail`: bodies and gaps put together give `tail`, the gaps are
    whitespace, and a chunk re-opens a block exactly if the chunk before it closed one.
  */
  ghost predicate Accounts(pieces: seq<Piece>, reopened: bool, tail: string, chunks: seq<string>) {
    && |pieces| == |chunks|
    && (forall k :: 0 <= k < |pieces| ==> chunks[k] == Render(pieces[k]) && AllSpace(pieces[k].gap))
    && (forall k :: 0 <= k < |pieces| ==> Linked(pieces, reopened, k))
    && (forall k :: k == |pieces| - 1 && 0 <= k ==> !pieces[k].closed)
    && (pieces == [] ==> !reopened)
    && Glue(pieces) == tail
  }

  /** No text is lost, repeated or reordered: only whitespace at the cuts disappears. */
  lemma SplitConserves(text: string, limit: nat)
    requires 24 < limit
    ensures Ends(text, limit)
    ensures exists pieces :: Accounts(pieces, false, text, Split(text, limit))
  {
    assert Opening(false) + text == text;
    var pieces := TakeApart(text, limit, false);
  }

  lemma {:induction false} TakeApart(tail: string, limit: nat, reopened: bool) returns (pieces: seq<Piece>)
    requires 24 < limit
    ensures Ends(Opening(reopened) + tail, limit)
    ensures Accounts(pieces, reopened, tail, Split(Opening(reopened) + tail, limit))
    decreases Potential(Opening(reopened) + tail)
  {
    var rest := Opening(reopened) + tail;
    EndsAbove24(rest, limit);
    hide Ends, NextCut;
    if |rest| <= limit {
      pieces := if rest == "" then [] else [Piece(reopened, tail, false, "")];
      LastPiece(tail, reopened, pieces);
    } else {
      var (cut, forced) := NextCut(rest, limit);
      CutBounds(rest, limit);
      PotentialDrops(rest, limit);
      SplitStep(rest, limit);
      var first, next := FirstPiece(tail, reopened, cut, forced);
      var more := TakeApart(next, limit, forced);
      pieces := [first] + more;
      AccountsCons(first, more, next, Split(Round(rest, limit), limit));
    }
  }

  lemma LastPiece(tail: string, reopened: bool, pieces: seq<Piece>)
    requires pieces == if Opening(reopened) + tail == "" then [] else [Piece(reopened, tail, false, "")]
    ensures Accounts(pieces, reopened, tail, if Opening(reopened) + tail == "" then [] else [Opening(reopened) + tail])
  {
    assert reopened ==> |Opening(reopened)| == 11;
    if pieces != [] {
      assert pieces[1..] == [];
      assert Glue(pieces) == tail + "" + "";
      assert Render(pieces[0]) == Opening(reopened) + tail + "";
    }
  }

  lemma FirstPiece(tail: string, reopened: bool, cut: nat, forced: bool) returns (first: Piece, next: string)
    requires cut <= |Opening(reopened) + tail| && (reopened ==> 12 <= cut)
    ensures var rest := Opening(reopened) + tail;
      && first.reopened == reopened && first.closed == forced && AllSpace(first.gap)
      && Render(first) == Head(rest, cut, forced)
      && Opening(forced) + next == Remainder(rest, cut, forced)
      && tail == first.body + first.gap + next
  {
    hide RStrip, LStrip, IsSpace;
    var rest, mark := Opening(reopened) + tail, Opening(reopened);
    KeepsMark(rest, cut, reopened);
    var kept, gap;
    kept, gap, next := CutParts(rest, cut);
    var body := kept[|mark|..];
    first := Piece(reopened, body, forced, gap);
    DropFront(mark, tail, body, gap, next, kept);
  }

  lemma DropFront(mark: string, tail: string, body: string, gap: string, next: string, kept: string)
    requires mark + tail == kept + gap + next && |mark| <= |kept| && body == kept[|mark|..]
    ensures kept == mark + body && tail == body + gap + next
  {
    var whole := mark + tail;
    assert kept == whole[..|kept|];
    assert kept[..|mark|] == whole[..|mark|] == mark;
    assert tail == whole[|mark|..];
  }

  /** What a cut makes of a text: the part that is kept, the whitespace dropped, and what follows. */
  lemma CutParts(rest: string, cut: nat) returns (kept: string, gap: string, next: string)
    requires cut <= |rest|
    ensures kept == RStrip(rest[..cut]) && next == LStrip(rest[cut..])
    ensures AllSpace(gap) && rest == kept + gap + next
  {
    hide RStrip, LStrip, IsSpace;
    kept, next := RStrip(rest[..cut]), LStrip(rest[cut..]);
    RStripIs(rest[..cut]);
    LStripIs(rest[cut..]);
    var n := |rest[cut..]| - |next|;
    var before, behind := rest[..cut][|kept|..], rest[cut..][..n];
    gap := before + behind;
    ThreeParts(rest, cut, kept, before, behind, next);
  }

  lemma ThreeParts(rest: string, cut: nat, kept: string, before: string, behind: string, next: string)
    requires cut <= |rest| && rest[..cut] == kept + before && rest[cut..] == behind + next
    ensures rest == kept + (before + behind) + next
  {
    assert rest == rest[..cut] + rest[cut..];
  }

  lemma SuffixNotSpace(s: string, i: nat)
    requires i < |s| && !IsSpace(s[i])
    ensures i < |RStrip(s)|
  {
    RStripIs(s);
    forall n: nat | n <= i ensures !AllSpace(s[n..]) {
      assert s[n..][i - n] == s[i];
    }
  }

  /** The re-opened block's own tags survive the rstrip of a chunk. */
  lemma KeepsMark(rest: string, cut: nat, reopened: bool)
    requires Opening(reopened) <= rest && cut <= |rest| && (reopened ==> 12 <= cut)
    ensures |Opening(reopened)| <= |RStrip(rest[..cut])|
  {
    RStripIs(rest[..cut]);
    if reopened {
      assert rest[10] == REOPEN[10];
      SuffixNotSpace(rest[..cut], 10);
    }
  }

  lemma AccountsCons(first: Piece, more: seq<Piece>, next: string, chunks: seq<string>)
    requires Accounts(more, first.closed, next, chunks) && AllSpace(first.gap)
    ensures Accounts([first] + more, first.reopened, first.body + first.gap + next, [Render(first)] + chunks)
  {
    hide Render, AllSpace;
    var all, texts := [first] + more, [Render(first)] + chunks;
    assert all[0] == first && all[1..] == more;
    assert Glue(all) == first.body + first.gap + Glue(more);
    forall k | 0 <= k < |all|
      ensures texts[k] == Render(all[k]) && AllSpace(all[k].gap) && Linked(all, first.reopened, k)
    {
      if k > 0 {
        assert all[k] == more[k - 1] && texts[k] == chunks[k - 1];
        assert Linked(more, first.closed, k - 1);
      }
    }
  }

  ghost function NonSpace(s: string): string {
    if s == "" then "" else (if IsSpace(s[0]) then "" else [s[0]]) + NonSpace(s[1..])
  }

  lemma {:induction false} NonSpaceConcat(a: string, b: string)
    ensures NonSpace(a + b) == NonSpace(a) + NonSpace(b)
  {
    if a == "" {
      assert a + b == b;
    } else {
      var first := if IsSpace(a[0]) then "" else [a[0]];
      NonSpaceConcat(a[1..], b);
      assert (a + b)[1..] == a[1..] + b;
      assert first + (NonSpace(a[1..]) + NonSpace(b)) == (first + NonSpace(a[1..])) + NonSpace(b);
    }
  }

  lemma {:induction false} NonSpaceOfSpace(s: string)
    requires AllSpace(s)
    ensures NonSpace(s) == ""
  {
    if s != "" {
      NonSpaceOfSpace(s[1..]);
    }
  }

  lemma {:induction false} BodiesKeepNonSpace(pieces: seq<Piece>)
    requires forall k :: 0 <= k < |pieces| ==> AllSpace(pieces[k].gap)
    ensures NonSpace(Bodies(pieces)) == NonSpace(Glue(pieces))
  {
    if pieces != [] {
      var p, more := pieces[0], pieces[1..];
      BodiesKeepNonSpace(more);
      NonSpaceConcat(p.body, Bodies(more));
      NonSpaceConcat(p.body + p.gap, Glue(more));
      NonSpaceConcat(p.body, p.gap);
      NonSpaceOfSpace(p.gap);
    }
  }

  /** Without the inserted markers, the chunks hold exactly the text's non-whitespace characters, in order. */
  lemma NonSpaceConserved(text: string, limit: nat)
    requires 24 < limit
    ensures Ends(text, limit)
    ensures exists pieces :: Accounts(pieces, false, text, Split(text, limit)) && NonSpace(Bodies(pieces)) == NonSpace(text)
  {
    SplitConserves(text, limit);
    var pieces :| Accounts(pieces, false, text, Split(text, limit));
    BodiesKeepNonSpace(pieces);
  }

  // ---------- cuts and <pre> blocks ----------

  lemma FindInPrefix(text: string, sub: string, from: nat, n: nat)
    requires from <= n <= |text|
    ensures var f := Find(text, sub, from);
      Find(text[..n], sub, from) == if f != -1 && f + |sub| <= n then f else -1
  {
    FindIs(text, sub, from);
    FindIs(text[..n], sub, from);
    assert forall i :: OccursAt(text[..n], sub, i) <==> OccursAt(text, sub, i) && i + |sub| <= n;
  }

  /** A range of the whole text that opens in the first `n` characters shows up in the ranges of those. */
  lemma {:induction false} InsideWindow(text: string, pos: nat, n: nat, cut: nat)
    requires pos <= n <= |text| && cut + 6 <= n
    requires Inside(RangesFrom(text, pos), cut)
    ensures Inside(RangesFrom(text[..n], pos), cut)
    decreases |text| - pos
  {
    hide Inside, Within, Find, RangesFrom;
    StartsBehind(text, pos, cut);
    var start := Find(text, PRE_OPEN, pos);
    var close := Find(text, PRE_CLOSE, start);
    FindInPrefix(text, PRE_OPEN, pos, n);
    FindInPrefix(text, PRE_CLOSE, start, n);
    RangesStep(text, pos);
    RangesStep(text[..n], pos);
    if close == -1 {
      InsideFirst(start, n, cut);
    } else {
      var end := close + 6;
      InsideCons(Range(start, end), RangesFrom(text, end), cut);
      if end <= n {
        if !Within(Range(start, end), cut) {
          InsideWindow(text, end, n, cut);
        }
        InsideCons(Range(start, end), RangesFrom(text[..n], end), cut);
      } else {
        InsideFirst(start, n, cut);
      }
    }
  }

  lemma InsideFirst(start: nat, n: nat, cut: nat)
    requires start < cut < n
    ensures Inside([Range(start, n)], cut)
  {
    assert Within([Range(start, n)][0], cut);
  }

  lemma InsideCons(first: Range, rest: seq<Range>, idx: int)
    ensures Inside([first] + rest, idx) <==> Within(first, idx) || Inside(rest, idx)
  {
    var all := [first] + rest;
    if Inside(rest, idx) {
      var k :| 0 <= k < |rest| && Within(rest[k], idx);
      assert all[k + 1] == rest[k];
    }
    if Within(first, idx) {
      assert all[0] == first;
    }
  }

  lemma StartsBehind(text: string, pos: nat, cut: nat)
    requires pos <= |text| && Inside(RangesFrom(text, pos), cut)
    ensures 0 <= Find(text, PRE_OPEN, pos) < cut
  {
    RangesGenuine(text, pos);
    FindIs(text, PRE_OPEN, pos);
    var rs := RangesFrom(text, pos);
    var k :| 0 <= k < |rs| && Within(rs[k], cut);
    assert IsRange(text, rs[k]);
  }

  /** What an unforced cut is: the end of an occurrence of a separator that is free in the window. */
  lemma UnforcedCutEndsSeparator(text: string, limit: nat) returns (sep: string)
    requires !NextCut(text, limit).1
    ensures IsSeparator(sep)
    ensures FreeAt(text, sep, limit, RangesFrom(Window(text, limit), 0), NextCut(text, limit).0 - |sep|)
  {
    hide LastFree, RangesFrom, Inside, OccursAt;
    var ranges := RangesFrom(Window(text, limit), 0);
    LastFreeIs(text, "\n\n", limit, ranges);
    LastFreeIs(text, "\n", limit, ranges);
    LastFreeIs(text, " ", limit, ranges);
    sep := if LastFree(text, "\n\n", limit, ranges) > limit / 2 then "\n\n"
           else if LastFree(text, "\n", limit, ranges) > limit / 2 then "\n"
           else " ";
  }

  lemma FreeEndIsOutside(text: string, sep: string, hi: int, ranges: seq<Range>, i: int)
    requires IsSeparator(sep) && AllTagged(text, ranges) && FreeAt(text, sep, hi, ranges, i)
    ensures !Inside(ranges, i + |sep|)
  {
    SeparatorFreeOfTags(text, sep, i);
    forall k | 0 <= k < |ranges| ensures !Within(ranges[k], i + |sep|) {
      assert !Within(ranges[k], i);
    }
  }

  /** A cut that is not forced never lands strictly inside a <pre> range of the text that is cut. */
  lemma UnforcedCutAvoidsPre(text: string, limit: nat)
    requires limit < |text| && !NextCut(text, limit).1
    ensures !Inside(RangesFrom(text, 0), NextCut(text, limit).0)
  {
    hide RangesFrom, Inside, AllTagged, NextCut, IsSeparator;
    var cut := NextCut(text, limit).0;
    var ranges := RangesFrom(Window(text, limit), 0);
    var sep := UnforcedCutEndsSeparator(text, limit);
    WindowTagged(text, limit);
    FreeEndIsOutside(text, sep, limit, ranges, cut - |sep|);
    if |Window(text, limit)| == limit + 6 && Inside(RangesFrom(text, 0), cut) {
      InsideWindow(text, 0, limit + 6, cut);
    }
  }

  /**
    `_safe_cut` documents a forced cut as one inside <pre>, but the branch is also taken for text
    without any <pre>, whose first chunk then closes a block that was never opened.
  */
  lemma ForcedCutOutsidePre(text: string)
    requires |text| == 26 && forall i :: 0 <= i < 26 ==> text[i] == 'x'
    ensures RangesFrom(text, 0) == [] && NextCut(text, 25) == (12, true)
    ensures Head(text, 12, true) == "xxxxxxxxxxxx</code></pre>"
  {
    CutOfSolidText(text, 25);
    FindIs(text, PRE_OPEN, 0);
    assert PRE_OPEN[0] != 'x';
    assert text[..12] == "xxxxxxxxxxxx";
  }
}
