/** Findings, the compaction of overlapping ones, and splicing replacements into text. */
module Spans {
  import opened ByteStrings
  import opened Vault

  datatype Verdict = Allow | Log | Redact | Block

  datatype Finding = Finding(kind: Kind, start: int, end: int, value: Bytes, score: int, verdict: Verdict)

  predicate SortedByStart(s: seq<Finding>) {
    forall i, j :: 0 <= i < j < |s| ==> s[i].start <= s[j].start
  }

  /** Each finding ends before the next one starts. */
  predicate Chained(s: seq<Finding>) {
    forall i, j :: 0 <= i < j < |s| ==> s[i].end <= s[j].start
  }

  predicate NonEmpty(s: seq<Finding>) {
    forall i :: 0 <= i < |s| ==> s[i].start < s[i].end
  }

  predicate Overlaps(f: Finding, g: Finding) {
    f.start < g.end && g.start < f.end
  }

  // ----- sorting -----

  function InsertByStart(f: Finding, s: seq<Finding>): seq<Finding> {
    if s == [] then [f]
    else if f.start <= s[0].start then [f] + s
    else [s[0]] + InsertByStart(f, s[1..])
  }

  lemma {:induction false} InsertKeepsAll(f: Finding, s: seq<Finding>)
    ensures multiset(InsertByStart(f, s)) == multiset(s) + multiset{f}
    decreases |s|
  {
    if s != [] {
      assert s == [s[0]] + s[1..];
      InsertKeepsAll(f, s[1..]);
    }
  }

  lemma {:induction false} InsertSorted(f: Finding, s: seq<Finding>)
    requires SortedByStart(s)
    ensures SortedByStart(InsertByStart(f, s))
    decreases |s|
  {
    if s != [] && f.start > s[0].start {
      var r := InsertByStart(f, s[1..]);
      InsertSorted(f, s[1..]);
      InsertKeepsAll(f, s[1..]);
      forall i | 0 <= i < |r|
        ensures s[0].start <= r[i].start
      {
        assert r[i] in multiset(r);
        assert r[i] == f || r[i] in s[1..];
      }
    }
  }

  lemma InsertSorts(f: Finding, s: seq<Finding>, t: seq<Finding>)
    requires SortedByStart(s) && multiset(s) == multiset(t)
    ensures SortedByStart(InsertByStart(f, s)) && multiset(InsertByStart(f, s)) == multiset([f] + t)
  {
    InsertKeepsAll(f, s);
    InsertSorted(f, s);
  }

  function SortedList(s: seq<Finding>): (r: seq<Finding>)
    ensures SortedByStart(r) && multiset(r) == multiset(s)
  {
    if s == [] then [] else
      var rest := SortedList(s[1..]);
      InsertSorts(s[0], rest, s[1..]);
      assert s == [s[0]] + s[1..];
      InsertByStart(s[0], rest)
  }

  /** Sorts in place by start offset; the order among equal offsets is not promised. */
  method SortByStart(a: array<Finding>)
    modifies a
    ensures SortedByStart(a[..]) && multiset(a[..]) == multiset(old(a[..]))
  {
    var s := SortedList(a[..]);
    assert |s| == a.Length by {
      assert |multiset(s)| == |multiset(a[..])|;
    }
    forall i | 0 <= i < a.Length {
      a[i] := s[i];
    }
    assert a[..] == s;
  }

  // ----- compaction -----

  /** One pass over the sorted findings, `last` being the one kept most recently. */
  function CompactFrom(last: Finding, rest: seq<Finding>): seq<Finding>
    decreases |rest|
  {
    if rest == [] then [last]
    else if rest[0].start < last.end then
      CompactFrom(if rest[0].score > last.score then rest[0] else last, rest[1..])
    else [last] + CompactFrom(rest[0], rest[1..])
  }

  function Compact(s: seq<Finding>): seq<Finding> {
    if s == [] then [] else CompactFrom(s[0], s[1..])
  }

  /** One finding read: it joins the one kept last, takes its place, or is kept itself. */
  lemma CompactStep(whole: seq<Finding>, kept: seq<Finding>, last: Finding, rest: seq<Finding>)
    requires rest != [] && whole == kept + CompactFrom(last, rest)
    ensures whole == if rest[0].start >= last.end then (kept + [last]) + CompactFrom(rest[0], rest[1..])
                     else kept + CompactFrom(if rest[0].score > last.score then rest[0] else last, rest[1..])
  {
    assert kept + ([last] + CompactFrom(rest[0], rest[1..])) == (kept + [last]) + CompactFrom(rest[0], rest[1..]);
  }

  /** Sorts the findings and compacts them into the front of the same array. Writes never run ahead of reads:
      the part still to be read is as the sort left it. */
  method DedupeOverlapping(a: array<Finding>) returns (n: nat, ghost sorted: seq<Finding>)
    modifies a
    ensures n <= a.Length
    ensures SortedByStart(sorted) && multiset(sorted) == multiset(old(a[..]))
    ensures a[..n] == Compact(sorted)
  {
    if a.Length < 2 {
      n := a.Length;
      sorted := a[..];
      assert a.Length == 1 ==> a[..][1..] == [];
      return;
    }
    SortByStart(a);
    sorted := a[..];
    n := 1;
    var i := 1;
    while i < a.Length
      invariant 1 <= n <= i <= a.Length
      invariant a[i..] == sorted[i..]
      invariant Compact(sorted) == a[..n - 1] + CompactFrom(a[n - 1], a[i..])
    {
      var f := a[i];
      ghost var kept := a[..n - 1];
      CompactStep(Compact(sorted), kept, a[n - 1], a[i..]);
      ghost var last := a[n - 1];
      if f.start < a[n - 1].end {
        if f.score > a[n - 1].score {
          a[n - 1] := f;
        }
        assert a[..n - 1] == kept;
      } else {
        a[n] := f;
        n := n + 1;
        assert a[..n - 1] == kept + [last];
      }
      assert a[i + 1..] == sorted[i..][1..];
      i := i + 1;
    }
    assert a[i..] == [] && a[..n] == a[..n - 1] + [a[n - 1]];
  }

  lemma {:induction false} CompactFromChained(last: Finding, rest: seq<Finding>)
    requires SortedByStart([last] + rest) && NonEmpty([last] + rest)
    ensures var r := CompactFrom(last, rest);
            && r != [] && Chained(r) && NonEmpty(r)
            && last.start <= r[0].start
    decreases |rest|
  {
    assert ([last] + rest)[0] == last;
    if rest != [] {
      var f, tail := rest[0], rest[1..];
      var next := if f.start < last.end && f.score <= last.score then last else f;
      SortedTail(last, rest, next);
      CompactFromChained(next, tail);
      if f.start >= last.end {
        var r := CompactFrom(f, tail);
        assert forall j :: 0 <= j < |r| ==> r[0].start <= r[j].start;
      }
    }
  }

  lemma SortedTail(last: Finding, rest: seq<Finding>, next: Finding)
    requires rest != [] && SortedByStart([last] + rest) && NonEmpty([last] + rest) && next in {last, rest[0]}
    ensures SortedByStart([next] + rest[1..]) && NonEmpty([next] + rest[1..])
    ensures last.start <= next.start
  {
    var s, t := [last] + rest, [next] + rest[1..];
    assert s[0] == last && s[1] == rest[0];
    assert forall i :: 0 < i < |t| ==> t[i] == s[i + 1];
  }

  /** The kept findings are in order and pairwise disjoint. */
  lemma CompactChained(s: seq<Finding>)
    requires SortedByStart(s) && NonEmpty(s)
    ensures Chained(Compact(s)) && NonEmpty(Compact(s))
  {
    if s != [] {
      assert s == [s[0]] + s[1..];
      CompactFromChained(s[0], s[1..]);
    }
  }

  lemma {:induction false} CompactFromSubset(last: Finding, rest: seq<Finding>)
    ensures multiset(CompactFrom(last, rest)) <= multiset([last] + rest)
    decreases |rest|
  {
    if rest != [] {
      var f, tail := rest[0], rest[1..];
      assert rest == [f] + tail;
      var next := if f.start < last.end && f.score <= last.score then last else f;
      CompactFromSubset(next, tail);
      assert multiset([next] + tail) <= multiset([last] + rest);
    }
  }

  /** Only reported findings are kept, none more often than it was reported. */
  lemma CompactSubset(s: seq<Finding>)
    ensures multiset(Compact(s)) <= multiset(s)
  {
    if s != [] {
      assert s == [s[0]] + s[1..];
      CompactFromSubset(s[0], s[1..]);
    }
  }

  lemma {:induction false} CompactFromDominates(last: Finding, rest: seq<Finding>, f: Finding)
    requires f == last || f in rest
    ensures exists g :: g in CompactFrom(last, rest) && g.score >= f.score
    decreases |rest|
  {
    if rest == [] {
      assert last in CompactFrom(last, rest);
    } else {
      var h, tail := rest[0], rest[1..];
      var next := if h.start < last.end && h.score <= last.score then last else h;
      var f' := if h.start < last.end && (f == last || f == h) then next else if f == last then h else f;
      if h.start >= last.end && f == last {
        assert last in CompactFrom(last, rest);
      } else {
        assert f' == next || f' in tail;
        CompactFromDominates(next, tail, f');
        var g :| g in CompactFrom(next, tail) && g.score >= f'.score;
        assert g in CompactFrom(last, rest);
      }
    }
  }

  /** A finding that outscores every other reported finding is always kept. */
  lemma CompactKeepsBest(s: seq<Finding>, f: Finding)
    requires f in s && forall g :: g in s && g != f ==> g.score < f.score
    ensures f in Compact(s)
  {
    CompactFromDominates(s[0], s[1..], f);
    var g :| g in Compact(s) && g.score >= f.score;
    CompactSubset(s);
    assert g in multiset(Compact(s));
    assert g in multiset(s);
  }

  lemma {:induction false} CompactFromKeepsIsolated(last: Finding, rest: seq<Finding>, f: Finding)
    requires SortedByStart([last] + rest) && NonEmpty([last] + rest)
    requires f == last || f in rest
    requires forall g :: (g == last || g in rest) && g != f ==> !Overlaps(f, g)
    ensures f in CompactFrom(last, rest)
    decreases |rest|
  {
    if rest != [] {
      var h, tail := rest[0], rest[1..];
      var s := [last] + rest;
      assert s[0] == last && s[1] == h && rest == [h] + tail;
      var next := if h.start < last.end && h.score <= last.score then last else h;
      SortedTail(last, rest, next);
      if h.start < last.end {
        assert Overlaps(last, h) && Overlaps(h, last);
        assert f == last <==> f == h;
        CompactFromKeepsIsolated(next, tail, f);
      } else if f != last {
        CompactFromKeepsIsolated(h, tail, f);
      }
    }
  }

  /** A finding that overlaps no other is always kept. */
  lemma CompactKeepsIsolated(s: seq<Finding>, f: Finding)
    requires SortedByStart(s) && NonEmpty(s)
    requires f in s && forall g :: g in s && g != f ==> !Overlaps(f, g)
    ensures f in Compact(s)
  {
    assert s == [s[0]] + s[1..];
    CompactFromKeepsIsolated(s[0], s[1..], f);
  }

  // ----- when every dropped finding overlaps a kept one -----

  /** Every reported finding shares a byte with some kept one: nothing found goes unscreened. */
  ghost predicate Covers(kept: seq<Finding>, s: seq<Finding>) {
    forall f :: f in s ==> Covered(f, kept)
  }

  ghost predicate Covered(f: Finding, kept: seq<Finding>) {
    exists g :: g in kept && Overlaps(f, g)
  }

  function Least(a: int, b: int): int {
    if a < b then a else b
  }

  /** Some finding takes another's place that starts after one of their cluster has ended. `low` is the least
      end seen since the last finding was kept for good. */
  predicate Overtakes(last: Finding, low: int, rest: seq<Finding>)
    decreases |rest|
  {
    if rest == [] then false
    else
      var f := rest[0];
      if f.start >= last.end then Overtakes(f, f.end, rest[1..])
      else if f.score > last.score then f.start >= low || Overtakes(f, Least(low, f.end), rest[1..])
      else Overtakes(last, Least(low, f.end), rest[1..])
  }

  /** Every finding of the cluster so far overlaps the one standing for it, and none ends before `low`. */
  predicate InCluster(e: Finding, last: Finding, low: int, rest: seq<Finding>) {
    && e.start < e.end && Overlaps(e, last) && low <= e.end
    && forall i :: 0 <= i < |rest| ==> e.start <= rest[i].start
  }

  lemma KeptIsIn(last: Finding, rest: seq<Finding>, e: Finding)
    requires rest != [] && rest[0].start >= last.end
    requires Covered(e, CompactFrom(rest[0], rest[1..])) || Overlaps(e, last)
    ensures Covered(e, CompactFrom(last, rest))
  {
    var r := CompactFrom(rest[0], rest[1..]);
    assert CompactFrom(last, rest) == [last] + r;
    if Overlaps(e, last) {
      assert last in CompactFrom(last, rest);
    } else {
      var g :| g in r && Overlaps(e, g);
      assert g in CompactFrom(last, rest);
    }
  }

  lemma SortedHead(last: Finding, rest: seq<Finding>)
    requires rest != [] && SortedByStart([last] + rest) && NonEmpty([last] + rest)
    ensures last.start <= rest[0].start && last.start < last.end && rest[0].start < rest[0].end
    ensures forall i :: 0 <= i < |rest[1..]| ==> rest[0].start <= rest[1..][i].start
  {
    var s := [last] + rest;
    assert s[0] == last && s[1] == rest[0];
    assert forall i :: 0 <= i < |rest[1..]| ==> rest[1..][i] == s[i + 2];
  }

  /** A finding of the cluster stays in it, whichever of the two stands for it from now on. */
  lemma StaysInCluster(last: Finding, low: int, f: Finding, tail: seq<Finding>, e: Finding)
    requires InCluster(e, last, low, [f] + tail) && f.start < f.end && (f.score > last.score ==> f.start < low)
    ensures InCluster(e, if f.score > last.score then f else last, Least(low, f.end), tail)
  {
    assert ([f] + tail)[0] == f;
    assert forall i :: 0 <= i < |tail| ==> tail[i] == ([f] + tail)[i + 1];
  }

  lemma JoinsCluster(last: Finding, low: int, f: Finding, tail: seq<Finding>)
    requires last.start <= f.start < last.end && f.start < f.end
    requires forall i :: 0 <= i < |tail| ==> f.start <= tail[i].start
    ensures InCluster(f, if f.score > last.score then f else last, Least(low, f.end), tail)
  {
  }

  /** The next finding opens a cluster of its own, or joins this one. */
  lemma ClusterStep(last: Finding, low: int, rest: seq<Finding>, e: Finding)
    requires rest != [] && SortedByStart([last] + rest) && NonEmpty([last] + rest) && !Overtakes(last, low, rest)
    requires InCluster(e, last, low, rest) || e in rest
    ensures var f, tail := rest[0], rest[1..];
            if f.start >= last.end then
              (InCluster(e, last, low, rest) ==> Overlaps(e, last)) && (e in rest ==> InCluster(e, f, f.end, tail) || e in tail)
            else
              InCluster(e, if f.score > last.score then f else last, Least(low, f.end), tail) || e in tail
  {
    var f, tail := rest[0], rest[1..];
    assert rest == [f] + tail;
    SortedHead(last, rest);
    if f.start < last.end {
      JoinsCluster(last, low, f, tail);
      if InCluster(e, last, low, rest) {
        StaysInCluster(last, low, f, tail, e);
      }
    }
  }

  lemma {:induction false} CoversUnlessOvertaken(last: Finding, low: int, rest: seq<Finding>, e: Finding)
    requires SortedByStart([last] + rest) && NonEmpty([last] + rest) && !Overtakes(last, low, rest)
    requires InCluster(e, last, low, rest) || e in rest
    ensures Covered(e, CompactFrom(last, rest))
    decreases |rest|
  {
    if rest == [] {
      assert last in CompactFrom(last, rest);
    } else {
      var f, tail := rest[0], rest[1..];
      var next := if f.start < last.end && f.score <= last.score then last else f;
      SortedTail(last, rest, next);
      ClusterStep(last, low, rest, e);
      if f.start >= last.end {
        if e in rest {
          CoversUnlessOvertaken(f, f.end, tail, e);
        }
        KeptIsIn(last, rest, e);
      } else {
        CoversUnlessOvertaken(next, Least(low, f.end), tail, e);
      }
    }
  }

  /** A finding that has ended before all that may still be kept begins is overlapped by none of them. */
  lemma LeftBehind(last: Finding, rest: seq<Finding>, e: Finding)
    requires SortedByStart([last] + rest) && NonEmpty([last] + rest) && e.end <= last.start
    ensures !Covered(e, CompactFrom(last, rest))
  {
    CompactFromChained(last, rest);
    var r := CompactFrom(last, rest);
    forall g | g in r
      ensures !Overlaps(e, g)
    {
      var j :| 0 <= j < |r| && r[j] == g;
      assert r[0].start <= r[j].start;
    }
  }

  /** `w` is the finding of the cluster that ends first. */
  lemma {:induction false} OvertakenIsUncovered(last: Finding, low: int, rest: seq<Finding>, w: Finding)
    returns (e: Finding)
    requires SortedByStart([last] + rest) && NonEmpty([last] + rest) && Overtakes(last, low, rest)
    requires w.end == low
    ensures e == w || e == last || e in rest
    ensures !Covered(e, CompactFrom(last, rest))
    decreases |rest|
  {
    var f, tail := rest[0], rest[1..];
    var s := [last] + rest;
    assert s[0] == last && s[1] == f && rest == [f] + tail;
    assert forall i :: 0 <= i < |tail| ==> tail[i] == s[i + 2];
    var next := if f.start < last.end && f.score <= last.score then last else f;
    SortedTail(last, rest, next);
    if f.start >= last.end {
      e := OvertakenIsUncovered(f, f.end, tail, f);
      assert !Overlaps(e, last);
    } else if f.score > last.score && f.start >= low {
      e := w;
      LeftBehind(f, tail, e);
    } else {
      e := OvertakenIsUncovered(next, Least(low, f.end), tail, if f.end < low then f else w);
    }
  }

  predicate AnyOvertaken(s: seq<Finding>) {
    s != [] && Overtakes(s[0], s[0].end, s[1..])
  }

  /** Every reported finding overlaps a kept one exactly when none is overtaken. */
  lemma CoversIff(s: seq<Finding>)
    requires SortedByStart(s) && NonEmpty(s)
    ensures Covers(Compact(s), s) <==> !AnyOvertaken(s)
  {
    if s == [] {
      return;
    }
    var last, rest := s[0], s[1..];
    assert s == [last] + rest;
    if Overtakes(last, last.end, rest) {
      var e := OvertakenIsUncovered(last, last.end, rest, last);
      assert e in s;
    } else {
      forall f | f in s
        ensures Covered(f, Compact(s))
      {
        assert InCluster(last, last, last.end, rest);
        CoversUnlessOvertaken(last, last.end, rest, f);
      }
    }
  }

  // ----- what detectors report -----

  predicate ReportedOne(text: Bytes, f: Finding) {
    0 <= f.start < f.end <= |text| && f.value == text[f.start..f.end]
  }

  /** What the detectors report: non-empty spans of the text, with the bytes they cover. */
  predicate Reported(text: Bytes, s: seq<Finding>) {
    forall f :: f in s ==> ReportedOne(text, f)
  }

  /** A key as the local part of an address, with a card number for its domain. */
  function KeyInAddress(key: Bytes, card: Bytes): (text: Bytes)
    requires |key| == 36 && |card| == 16
    ensures |text| == 63 && text[6..42] == key && text[43..59] == card
  {
    var text := Ascii("a.ghp_") + key + Ascii("@") + card + Ascii(".com");
    assert text[6..42] == key && text[43..59] == card;
    text
  }

  /** But a dropped finding need not overlap any kept one. A key inside an address loses to it, and the address
      to a card number that starts after the key has ended: the key's bytes are not rewritten. */
  lemma DroppedMayBeUncovered(key: Bytes, card: Bytes)
    requires |key| == 36 && |card| == 16
    ensures var text := KeyInAddress(key, card);
            var a := Finding(Kind(PII, "email"), 0, 63, text[0..63], 60, Redact);
            var b := Finding(Kind(Secret, "github_pat_classic"), 2, 42, text[2..42], 60, Redact);
            var c := Finding(Kind(PII, "credit_card"), 43, 59, card, 65, Redact);
            && SortedByStart([a, b, c]) && Reported(text, [a, b, c])
            && Compact([a, b, c]) == [c]
            && !Covered(b, Compact([a, b, c])) && !Covers(Compact([a, b, c]), [a, b, c])
            && AnyOvertaken([a, b, c])
  {
    var text := KeyInAddress(key, card);
    var a := Finding(Kind(PII, "email"), 0, 63, text[0..63], 60, Redact);
    var b := Finding(Kind(Secret, "github_pat_classic"), 2, 42, text[2..42], 60, Redact);
    var c := Finding(Kind(PII, "credit_card"), 43, 59, card, 65, Redact);
    assert [a, b, c][1..] == [b, c] && [b, c][1..] == [c] && [c][1..] == [];
    assert CompactFrom(a, [c]) == CompactFrom(c, []);
    assert b in [a, b, c];
  }

  // ----- splicing -----

  /** The findings lie in the text, from right to left, without overlap. */
  predicate RightToLeft(text: Bytes, d: seq<Finding>) {
    && (forall i :: 0 <= i < |d| ==> 0 <= d[i].start <= d[i].end <= |text|)
    && (forall i, j :: 0 <= i < j < |d| ==> d[j].end <= d[i].start)
  }

  /** Both ends of the span lie in the text, in either order: what the two slices around it need. */
  predicate EndsWithin(f: Finding, t: Bytes) {
    0 <= f.start <= |t| && 0 <= f.end <= |t|
  }

  function SpliceOne(t: Bytes, f: Finding, x: Bytes): Bytes
    requires EndsWithin(f, t)
  {
    t[..f.start] + x + t[f.end..]
  }

  /** Replaces one span after another in the text as it has become so far. */
  function Splice(text: Bytes, d: seq<Finding>, r: seq<Bytes>): Bytes
    requires |d| == |r|
    decreases |d|
  {
    if d == [] then text
    else
      var n := |d| - 1;
      var t := Splice(text, d[..n], r[..n]);
      if EndsWithin(d[n], t) then SpliceOne(t, d[n], r[n]) else t
  }

  /** A span that ends before it starts is spliced like any other: the bytes between its ends come twice. */
  lemma CrossedSpanRepeats(t: Bytes, f: Finding, x: Bytes)
    requires EndsWithin(f, t) && f.end <= f.start
    ensures Splice(t, [f], [x]) == t[..f.start] + x + t[f.end..f.start] + t[f.start..]
  {
    assert [f][..0] == [] && [x][..0] == [];
    assert t[f.end..] == t[f.end..f.start] + t[f.start..];
  }

  /** The first `hi` bytes of the text with every span replaced at once: all pieces come from `text`. */
  function Substitute(text: Bytes, hi: nat, d: seq<Finding>, r: seq<Bytes>): Bytes
    requires |d| == |r| && hi <= |text|
    decreases |d|
  {
    if d == [] then text[..hi]
    else if 0 <= d[0].start <= d[0].end <= hi then
      Substitute(text, d[0].start, d[1..], r[1..]) + r[0] + text[d[0].end..hi]
    else []
  }

  /** What lies between the spans, counted from the right: the text after span `i`, or before the last. */
  function Gap(text: Bytes, hi: nat, d: seq<Finding>, i: nat): Bytes {
    var a := if i < |d| then d[i].end else 0;
    var b := if i == 0 then hi else if i <= |d| then d[i - 1].start else 0;
    if 0 <= a <= b <= |text| then text[a..b] else []
  }

  lemma GapTail(text: Bytes, hi: nat, d: seq<Finding>, i: nat)
    requires d != [] && RightToLeft(text, d) && d[0].end <= hi <= |text| && i < |d|
    ensures Gap(text, d[0].start, d[1..], i) == Gap(text, hi, d, i + 1)
  {
  }

  /** The rightmost span, and the text after it. */
  lemma SubstituteHead(text: Bytes, hi: nat, d: seq<Finding>, r: seq<Bytes>)
    requires |d| == |r| > 0 && RightToLeft(text, d) && d[0].end <= hi <= |text|
    ensures Substitute(text, hi, d, r)
         == Substitute(text, d[0].start, d[1..], r[1..]) + (r[0] + text[d[0].end..hi])
  {
    Associates(Substitute(text, d[0].start, d[1..], r[1..]), r[0], text[d[0].end..hi]);
  }

  lemma Associates(a: Bytes, b: Bytes, c: Bytes)
    ensures a + b + c == a + (b + c)
  {
  }

  lemma MiddleSlice<T>(s: seq<T>)
    requires |s| > 1
    ensures s[1..][..|s| - 2] == s[..|s| - 1][1..] && s[1..][|s| - 2] == s[|s| - 1] && s[..|s| - 1][0] == s[0]
  {
  }

  /** A splice leaves what follows alone. */
  lemma SpliceBefore(a: Bytes, f: Finding, x: Bytes, tail: Bytes)
    requires 0 <= f.start <= f.end <= |a|
    ensures EndsWithin(f, a + tail) && SpliceOne(a + tail, f, x) == SpliceOne(a, f, x) + tail
  {
    assert (a + tail)[..f.start] == a[..f.start] && (a + tail)[f.end..] == a[f.end..] + tail;
    Associates(a[..f.start] + x, a[f.end..], tail);
  }

  lemma InitRightToLeft(text: Bytes, d: seq<Finding>)
    requires d != [] && RightToLeft(text, d)
    ensures RightToLeft(text, d[..|d| - 1]) && RightToLeft(text, d[1..])
  {
  }

  lemma {:induction false} SubstituteSnoc(text: Bytes, hi: nat, d: seq<Finding>, r: seq<Bytes>)
    requires |d| == |r| > 0 && RightToLeft(text, d) && d[0].end <= hi <= |text|
    ensures var n := |d| - 1;
            var t := Substitute(text, hi, d[..n], r[..n]);
            && d[n].end <= |t|
            && Substitute(text, hi, d, r) == SpliceOne(t, d[n], r[n])
    decreases |d|
  {
    var n := |d| - 1;
    SubstituteHead(text, hi, d, r);
    if n == 0 {
      assert d[1..] == [] && r[1..] == [] && d[..0] == [] && r[..0] == [];
      assert text[..hi][..d[0].start] == text[..d[0].start] && text[..hi][d[0].end..] == text[d[0].end..hi];
      Associates(text[..d[0].start], r[0], text[d[0].end..hi]);
    } else {
      InitRightToLeft(text, d);
      SubstituteSnoc(text, d[0].start, d[1..], r[1..]);
      MiddleSlice(d);
      MiddleSlice(r);
      SubstituteHead(text, hi, d[..n], r[..n]);
      SpliceBefore(Substitute(text, d[0].start, d[..n][1..], r[..n][1..]), d[n], r[n], r[0] + text[d[0].end..hi]);
    }
  }

  /** Right-to-left splicing is simultaneous substitution. */
  lemma {:induction false} SpliceIsSubstitution(text: Bytes, d: seq<Finding>, r: seq<Bytes>)
    requires |d| == |r| && RightToLeft(text, d)
    ensures Splice(text, d, r) == Substitute(text, |text|, d, r)
    decreases |d|
  {
    if d != [] {
      var n := |d| - 1;
      SpliceIsSubstitution(text, d[..n], r[..n]);
      SubstituteSnoc(text, |text|, d, r);
    } else {
      assert text[..|text|] == text;
    }
  }
}
