/** The memory bank: a rolling window of entries that folds its oldest half
    into a summary once it grows to its limit, and answers filtered, ranked
    queries over the entries it still holds. */
module Bank {
  import opened Base
  import opened Text
  import opened Numerals
  import opened Memory

  datatype MemoryBank = MemoryBank(
    entries: seq<MemoryEntry>,
    summaries: seq<MemorySummary>,
    maxEntries: int,
    compressionThreshold: int)

  /** A fresh bank with the given limits. */
  function NewBank(maxEntries: int, compressionThreshold: int): (b: MemoryBank)
    ensures b.entries == [] && b.summaries == []
    ensures b.maxEntries == maxEntries && b.compressionThreshold == compressionThreshold
  {
    MemoryBank([], [], maxEntries, compressionThreshold)
  }

  /** A fresh bank with the default limits: six entries, checked from six on. */
  function DefaultBank(): (b: MemoryBank)
    ensures b.entries == [] && b.summaries == []
    ensures b.maxEntries == 6 && b.compressionThreshold == 6
  {
    NewBank(6, 6)
  }

  // ---------------------------------------------------------------------------
  // Compression

  /** The ids of the given entries, in order. */
  function Ids(es: seq<MemoryEntry>): (r: seq<string>)
    ensures |r| == |es|
  {
    seq(|es|, i requires 0 <= i < |es| => es[i].id)
  }

  lemma IdsAppend(a: seq<MemoryEntry>, b: seq<MemoryEntry>)
    ensures Ids(a + b) == Ids(a) + Ids(b)
  {
  }

  /** One content line of a summary. */
  function SummaryLine(e: MemoryEntry): string {
    "Step " + IntToString(e.stepNumber) + " - " + e.skillName + ": " + e.summary
  }

  function SummaryLines(es: seq<MemoryEntry>): seq<string> {
    seq(|es|, i requires 0 <= i < |es| => SummaryLine(es[i]))
  }

  /** Every tag carried by some of the entries. */
  function TagUnion(es: seq<MemoryEntry>): set<string> {
    if es == [] then {} else (set t | t in es[0].tags) + TagUnion(es[1..])
  }

  lemma {:induction false} TagUnionIsUnion(es: seq<MemoryEntry>)
    ensures forall i, t :: 0 <= i < |es| && t in es[i].tags ==> t in TagUnion(es)
    ensures forall t :: t in TagUnion(es) ==> exists i :: 0 <= i < |es| && t in es[i].tags
  {
    if es != [] {
      TagUnionIsUnion(es[1..]);
      forall i, t | 0 <= i < |es| && t in es[i].tags ensures t in TagUnion(es) {
        if i > 0 { assert es[1..][i - 1] == es[i]; }
      }
      forall t | t in TagUnion(es) ensures exists i :: 0 <= i < |es| && t in es[i].tags {
        if t !in es[0].tags {
          assert t !in (set u | u in es[0].tags);
          assert t in TagUnion(es[1..]);
          var j :| 0 <= j < |es[1..]| && t in es[1..][j].tags;
          assert t in es[j + 1].tags;
        }
      }
    }
  }

  /** The title of a summary of `es`: its size and its first and last step numbers. */
  function SummaryTitle(es: seq<MemoryEntry>): string
    requires es != []
  {
    "Summary of " + NatToString(|es|) + " steps ("
      + IntToString(es[0].stepNumber) + "-" + IntToString(es[|es| - 1].stepNumber) + ")"
  }

  /** `_create_summary`: one summary standing for all of `es`. */
  function CreateSummary(es: seq<MemoryEntry>, id: string, timestamp: int): (s: MemorySummary)
    requires es != []
    ensures s.id == id && s.timestamp == timestamp
    ensures s.sourceEntries == Ids(es)
  {
    MemorySummary(id, timestamp, SummaryTitle(es), Join(SummaryLines(es), "\n"), Ids(es), TagUnion(es))
  }

  /** A summary lists the folded entries' ids in order, carries exactly the tags
      some of them carry, is titled with their count and step range, and holds
      one line per entry. */
  lemma SummaryDescribesEntries(es: seq<MemoryEntry>, id: string, timestamp: int)
    requires es != []
    ensures var s := CreateSummary(es, id, timestamp);
      && |s.sourceEntries| == |es|
      && (forall i :: 0 <= i < |es| ==> s.sourceEntries[i] == es[i].id)
      && (forall t :: t in s.tags <==> exists i :: 0 <= i < |es| && t in es[i].tags)
      && s.title == "Summary of " + NatToString(|es|) + " steps ("
           + IntToString(es[0].stepNumber) + "-" + IntToString(es[|es| - 1].stepNumber) + ")"
      && s.content == Join(SummaryLines(es), "\n")
  {
    TagUnionIsUnion(es);
  }

  /** Whether `_compress_if_needed` folds anything in a bank of `n` entries:
      the bank is at its limit and half of it (rounded down) is not empty. */
  predicate Folds(b: MemoryBank, n: int) {
    n >= b.maxEntries && n / 2 > 0
  }

  /** `_compress_if_needed`: at the limit, the oldest half (rounded down) becomes
      one summary and leaves the entries. */
  function Compress(b: MemoryBank, id: string, timestamp: int): (r: MemoryBank)
    ensures r.maxEntries == b.maxEntries && r.compressionThreshold == b.compressionThreshold
    ensures !Folds(b, |b.entries|) ==> r == b
    ensures Folds(b, |b.entries|) ==>
      var k := |b.entries| / 2;
      && r.entries == b.entries[k..]
      && r.summaries == b.summaries + [CreateSummary(b.entries[..k], id, timestamp)]
  {
    if |b.entries| >= b.maxEntries then
      var folded := b.entries[..|b.entries| / 2];
      if folded != [] then
        b.(summaries := b.summaries + [CreateSummary(folded, id, timestamp)],
           entries := b.entries[|folded|..])
      else b
    else b
  }

  /** `add_entry`: append, and check for compression once the bank has reached
      the threshold. `summaryId` and `summaryTime` stamp the summary if one is made. */
  function AddEntry(b: MemoryBank, e: MemoryEntry, summaryId: string, summaryTime: int): (r: MemoryBank)
    ensures r.maxEntries == b.maxEntries && r.compressionThreshold == b.compressionThreshold
    ensures 0 < |r.entries| <= |b.entries| + 1 && r.entries[|r.entries| - 1] == e
    ensures r.summaries == b.summaries || (|r.summaries| == |b.summaries| + 1 && r.summaries[..|b.summaries|] == b.summaries)
  {
    var grown := b.(entries := b.entries + [e]);
    if |grown.entries| >= b.compressionThreshold then Compress(grown, summaryId, summaryTime) else grown
  }

  /** The newest `n - n/2` entries stay verbatim and in order, and the oldest
      `n/2` become exactly one new summary, when the bank folds. */
  lemma AddEntryFolds(b: MemoryBank, e: MemoryEntry, summaryId: string, summaryTime: int)
    requires |b.entries| + 1 >= b.compressionThreshold && Folds(b, |b.entries| + 1)
    ensures var all := b.entries + [e]; var k := |all| / 2; var r := AddEntry(b, e, summaryId, summaryTime);
      && r.entries == all[k..]
      && |r.entries| == |all| - |all| / 2
      && r.summaries == b.summaries + [CreateSummary(all[..k], summaryId, summaryTime)]
  {
  }

  /** Below the limit, or below the threshold, an add only appends. */
  lemma AddEntryOnlyAppends(b: MemoryBank, e: MemoryEntry, summaryId: string, summaryTime: int)
    requires |b.entries| + 1 < b.compressionThreshold || !Folds(b, |b.entries| + 1)
    ensures AddEntry(b, e, summaryId, summaryTime) == b.(entries := b.entries + [e])
  {
  }

  /** With a limit of at least two and a threshold no larger than the limit, a
      bank below its limit stays below it after an add. */
  lemma AddEntryStaysBelowLimit(b: MemoryBank, e: MemoryEntry, summaryId: string, summaryTime: int)
    requires 2 <= b.maxEntries && b.compressionThreshold <= b.maxEntries
    requires |b.entries| < b.maxEntries
    ensures |AddEntry(b, e, summaryId, summaryTime).entries| < b.maxEntries
  {
  }

  /** The ids of every entry ever added, oldest first: those folded into the
      summaries, then those still held. */
  function History(b: MemoryBank): seq<string> {
    FoldedIds(b.summaries) + Ids(b.entries)
  }

  function FoldedIds(ss: seq<MemorySummary>): seq<string> {
    if ss == [] then [] else FoldedIds(ss[..|ss| - 1]) + ss[|ss| - 1].sourceEntries
  }

  /** Nothing is lost or reordered: an add extends the id history by exactly the
      new entry, whether or not it folds. */
  lemma AddEntryKeepsHistory(b: MemoryBank, e: MemoryEntry, summaryId: string, summaryTime: int)
    ensures History(AddEntry(b, e, summaryId, summaryTime)) == History(b) + [e.id]
  {
    var all := b.entries + [e];
    IdsAppend(b.entries, [e]);
    if |all| >= b.compressionThreshold && Folds(b, |all|) {
      AddEntryFolds(b, e, summaryId, summaryTime);
      var k := |all| / 2;
      FoldKeepsHistory(b.summaries, all, k, CreateSummary(all[..k], summaryId, summaryTime));
    } else {
      AddEntryOnlyAppends(b, e, summaryId, summaryTime);
    }
  }

  /** Moving the first `k` entries into a summary that lists their ids keeps the history. */
  lemma FoldKeepsHistory(ss: seq<MemorySummary>, all: seq<MemoryEntry>, k: nat, s: MemorySummary)
    requires k <= |all| && s.sourceEntries == Ids(all[..k])
    ensures FoldedIds(ss + [s]) + Ids(all[k..]) == FoldedIds(ss) + Ids(all)
  {
    FoldedIdsAppend(ss, s);
    assert all == all[..k] + all[k..];
    IdsAppend(all[..k], all[k..]);
    var f, a, c := FoldedIds(ss), Ids(all[..k]), Ids(all[k..]);
    assert (f + a) + c == f + (a + c);
  }

  lemma FoldedIdsAppend(ss: seq<MemorySummary>, s: MemorySummary)
    ensures FoldedIds(ss + [s]) == FoldedIds(ss) + s.sourceEntries
  {
    assert (ss + [s])[..|ss|] == ss;
  }

  /** A run of adds, the i-th stamped with `ids[i]` and `times[i]` if it folds. */
  function AddAll(b: MemoryBank, es: seq<MemoryEntry>, ids: seq<string>, times: seq<int>): (r: MemoryBank)
    requires |ids| == |es| && |times| == |es|
    ensures r.maxEntries == b.maxEntries && r.compressionThreshold == b.compressionThreshold
    decreases |es|
  {
    if es == [] then b else AddAll(AddEntry(b, es[0], ids[0], times[0]), es[1..], ids[1..], times[1..])
  }

  /** The limit holds after any run of adds that starts below it. */
  lemma {:induction false} AddAllStaysBelowLimit(b: MemoryBank, es: seq<MemoryEntry>, ids: seq<string>, times: seq<int>)
    requires |ids| == |es| && |times| == |es|
    requires 2 <= b.maxEntries && b.compressionThreshold <= b.maxEntries
    requires |b.entries| < b.maxEntries
    ensures |AddAll(b, es, ids, times).entries| < b.maxEntries
    decreases |es|
  {
    if es != [] {
      AddEntryStaysBelowLimit(b, es[0], ids[0], times[0]);
      AddAllStaysBelowLimit(AddEntry(b, es[0], ids[0], times[0]), es[1..], ids[1..], times[1..]);
    }
  }

  /** Any run of adds extends the id history by the added ids, in order. */
  lemma {:induction false} AddAllKeepsHistory(b: MemoryBank, es: seq<MemoryEntry>, ids: seq<string>, times: seq<int>)
    requires |ids| == |es| && |times| == |es|
    ensures History(AddAll(b, es, ids, times)) == History(b) + Ids(es)
    decreases |es|
  {
    if es != [] {
      var b1 := AddEntry(b, es[0], ids[0], times[0]);
      AddEntryKeepsHistory(b, es[0], ids[0], times[0]);
      AddAllKeepsHistory(b1, es[1..], ids[1..], times[1..]);
      assert es == [es[0]] + es[1..];
      IdsAppend([es[0]], es[1..]);
      var h, x, t := History(b), [es[0].id], Ids(es[1..]);
      assert AddAll(b, es, ids, times) == AddAll(b1, es[1..], ids[1..], times[1..]);
      assert (h + x) + t == h + (x + t);
    }
  }

  /** Adds that never reach the threshold only append. */
  lemma {:induction false} AddAllBelowThreshold(b: MemoryBank, es: seq<MemoryEntry>, ids: seq<string>, times: seq<int>)
    requires |ids| == |es| && |times| == |es|
    requires |b.entries| + |es| < b.compressionThreshold
    ensures AddAll(b, es, ids, times) == b.(entries := b.entries + es)
    decreases |es|
  {
    if es != [] {
      AddEntryOnlyAppends(b, es[0], ids[0], times[0]);
      var b1 := b.(entries := b.entries + [es[0]]);
      AddAllBelowThreshold(b1, es[1..], ids[1..], times[1..]);
      assert es == [es[0]] + es[1..];
      assert b1.entries + es[1..] == b.entries + es;
    }
  }

  /** A run of adds followed by one more add is the longer run. */
  lemma {:induction false} AddAllSnoc(b: MemoryBank, es: seq<MemoryEntry>, ids: seq<string>, times: seq<int>,
                                      e: MemoryEntry, id: string, time: int)
    requires |ids| == |es| && |times| == |es|
    ensures AddAll(b, es + [e], ids + [id], times + [time]) == AddEntry(AddAll(b, es, ids, times), e, id, time)
    decreases |es|
  {
    if es != [] {
      var b1 := AddEntry(b, es[0], ids[0], times[0]);
      assert (es + [e])[1..] == es[1..] + [e];
      assert (ids + [id])[1..] == ids[1..] + [id];
      assert (times + [time])[1..] == times[1..] + [time];
      AddAllSnoc(b1, es[1..], ids[1..], times[1..], e, id, time);
    }
  }

  /** With the default limits, six steps leave the last three entries and one
      summary of the first three, titled with their step range. */
  lemma DefaultBankSixSteps(es: seq<MemoryEntry>, ids: seq<string>, times: seq<int>)
    requires |es| == 6 && |ids| == 6 && |times| == 6
    requires es[0].stepNumber == 1 && es[2].stepNumber == 3
    ensures var r := AddAll(DefaultBank(), es, ids, times);
      && r.entries == es[3..]
      && |r.summaries| == 1
      && r.summaries[0].title == "Summary of 3 steps (1-3)"
      && r.summaries[0].sourceEntries == Ids(es[..3])
  {
    var b := DefaultBank();
    var es5, ids5, times5 := es[..5], ids[..5], times[..5];
    AddAllBelowThreshold(b, es5, ids5, times5);
    AddAllSnoc(b, es5, ids5, times5, es[5], ids[5], times[5]);
    assert es5 + [es[5]] == es;
    assert ids5 + [ids[5]] == ids;
    assert times5 + [times[5]] == times;
    SixthAddFolds(es5, es[5], ids[5], times[5]);
    assert es5[3..] + [es[5]] == es[3..];
    assert es5[..3] == es[..3];
  }

  lemma SixthAddFolds(es5: seq<MemoryEntry>, e: MemoryEntry, id: string, time: int)
    requires |es5| == 5 && es5[0].stepNumber == 1 && es5[2].stepNumber == 3
    ensures var r := AddEntry(DefaultBank().(entries := es5), e, id, time);
      && r.entries == es5[3..] + [e]
      && |r.summaries| == 1
      && r.summaries[0].sourceEntries == Ids(es5[..3])
      && r.summaries[0].title == "Summary of 3 steps (1-3)"
  {
    var b5 := DefaultBank().(entries := es5);
    AddEntryFolds(b5, e, id, time);
    assert (es5 + [e])[..3] == es5[..3];
    assert (es5 + [e])[3..] == es5[3..] + [e];
    FirstThreeTitle(es5[..3]);
  }

  lemma FirstThreeTitle(es: seq<MemoryEntry>)
    requires |es| == 3 && es[0].stepNumber == 1 && es[2].stepNumber == 3
    ensures SummaryTitle(es) == "Summary of 3 steps (1-3)"
  {
    assert NatToString(3) == "3" && IntToString(1) == "1" && IntToString(3) == "3";
  }

  /** A bank limited to one entry never folds a lone entry: half of one is none. */
  lemma SingleEntryNeverFolds(b: MemoryBank, e: MemoryEntry, summaryId: string, summaryTime: int)
    requires b.entries == []
    ensures AddEntry(b, e, summaryId, summaryTime) == b.(entries := [e])
  {
  }

  // ---------------------------------------------------------------------------
  // Queries

  /** The text a keyword is searched in. */
  function SearchText(e: MemoryEntry): string {
    e.skillName + " " + e.thinking + " " + e.command + " " + e.result + " " + e.summary
  }

  /** No keywords, or some keyword occurs in the entry's text, ignoring case. */
  predicate MatchesKeywords(e: MemoryEntry, keywords: seq<string>) {
    keywords == [] || exists i :: 0 <= i < |keywords| && Contains(Lower(SearchText(e)), Lower(keywords[i]))
  }

  /** No tags, or some query tag is among the entry's tags. */
  predicate MatchesTags(e: MemoryEntry, tags: seq<string>) {
    tags == [] || exists i :: 0 <= i < |tags| && tags[i] in e.tags
  }

  /** The filter of `get_relevant_memories`. */
  predicate Matches(e: MemoryEntry, q: MemoryQuery) {
    && e.importance >= q.minImportance
    && (q.dateFrom.Some? ==> e.timestamp >= q.dateFrom.value)
    && (q.dateTo.Some? ==> e.timestamp <= q.dateTo.value)
    && MatchesKeywords(e, q.keywords)
    && MatchesTags(e, q.tags)
  }

  /** The matching entries, in their original order. */
  function Filter(es: seq<MemoryEntry>, q: MemoryQuery): (r: seq<MemoryEntry>)
    ensures |r| <= |es|
    ensures forall x :: multiset(r)[x] == if Matches(x, q) then multiset(es)[x] else 0
  {
    if es == [] then []
    else
      assert es == [es[0]] + es[1..];
      (if Matches(es[0], q) then [es[0]] else []) + Filter(es[1..], q)
  }

  /** `a` ranks at least as high as `b`: higher importance, then later timestamp. */
  predicate RanksAbove(a: MemoryEntry, b: MemoryEntry) {
    a.importance > b.importance || (a.importance == b.importance && a.timestamp >= b.timestamp)
  }

  predicate Ranked(s: seq<MemoryEntry>) {
    forall i, j :: 0 <= i < j < |s| ==> RanksAbove(s[i], s[j])
  }

  /** Every element of `t` ranks no higher than `a`. */
  predicate AllBelow(a: MemoryEntry, t: seq<MemoryEntry>) {
    forall j :: 0 <= j < |t| ==> RanksAbove(a, t[j])
  }

  lemma ConsRanked(a: MemoryEntry, t: seq<MemoryEntry>)
    requires Ranked(t) && AllBelow(a, t)
    ensures Ranked([a] + t)
  {
  }

  /** Places `x` before the first element it ranks at least as high as. */
  function Insert(x: MemoryEntry, s: seq<MemoryEntry>): (r: seq<MemoryEntry>)
    requires Ranked(s)
    ensures Ranked(r)
    ensures multiset(r) == multiset(s) + multiset{x}
    ensures |r| == |s| + 1
  {
    if s == [] then [x]
    else if RanksAbove(x, s[0]) then
      assert AllBelow(x, s) by {
        forall j | 0 <= j < |s| ensures RanksAbove(x, s[j]) {
          if j > 0 { assert RanksAbove(s[0], s[j]); }
        }
      }
      ConsRanked(x, s);
      [x] + s
    else
      var t := Insert(x, s[1..]);
      assert s == [s[0]] + s[1..];
      HeadStaysAbove(x, s, t);
      ConsRanked(s[0], t);
      [s[0]] + t
  }

  /** The head of a ranked sequence ranks above an insertion into its tail of an
      element it outranks. */
  lemma HeadStaysAbove(x: MemoryEntry, s: seq<MemoryEntry>, t: seq<MemoryEntry>)
    requires s != [] && Ranked(s) && !RanksAbove(x, s[0])
    requires multiset(t) == multiset(s[1..]) + multiset{x}
    ensures AllBelow(s[0], t)
  {
    forall j | 0 <= j < |t| ensures RanksAbove(s[0], t[j]) {
      assert t[j] in multiset(t);
      if t[j] != x {
        assert t[j] in multiset(s[1..]);
        var k :| 0 <= k < |s[1..]| && s[1..][k] == t[j];
        assert s[k + 1] == t[j];
      }
    }
  }

  /** The stable descending sort of `get_relevant_memories`. */
  function Rank(s: seq<MemoryEntry>): (r: seq<MemoryEntry>)
    ensures Ranked(r)
    ensures |r| == |s|
    ensures multiset(r) == multiset(s)
  {
    if s == [] then []
    else
      assert s == [s[0]] + s[1..];
      Insert(s[0], Rank(s[1..]))
  }

  /** Every matching entry, best first. */
  function RankedMatches(es: seq<MemoryEntry>, q: MemoryQuery): (r: seq<MemoryEntry>)
    ensures Ranked(r)
    ensures |r| == MatchCount(es, q)
    ensures forall x :: multiset(r)[x] == if Matches(x, q) then multiset(es)[x] else 0
  {
    MatchCountIsFilterSize(es, q);
    Rank(Filter(es, q))
  }

  /** The elements of the ranked matches are matching entries of the bank. */
  lemma RankedMatchesAreMatches(es: seq<MemoryEntry>, q: MemoryQuery, i: int)
    requires 0 <= i < |RankedMatches(es, q)|
    ensures Matches(RankedMatches(es, q)[i], q) && RankedMatches(es, q)[i] in es
  {
    var s := RankedMatches(es, q);
    assert s[i] in multiset(s);
  }

  /** `get_relevant_memories`: the matching entries, best first, cut to
      `maxResults` by Python's slice rules. */
  function GetRelevantMemories(b: MemoryBank, q: MemoryQuery): (r: seq<MemoryEntry>)
    ensures Ranked(r)
    ensures forall i :: 0 <= i < |r| ==> Matches(r[i], q) && r[i] in b.entries
  {
    var ranked := RankedMatches(b.entries, q);
    var r := SliceTo(ranked, q.maxResults);
    forall i | 0 <= i < |r| ensures Matches(r[i], q) && r[i] in b.entries {
      RankedMatchesAreMatches(b.entries, q, i);
    }
    r
  }

  /** The number of matching entries. */
  function MatchCount(es: seq<MemoryEntry>, q: MemoryQuery): (n: nat)
    ensures n <= |es|
  {
    if es == [] then 0 else (if Matches(es[0], q) then 1 else 0) + MatchCount(es[1..], q)
  }

  lemma {:induction false} MatchCountIsFilterSize(es: seq<MemoryEntry>, q: MemoryQuery)
    ensures |Filter(es, q)| == MatchCount(es, q)
  {
    if es != [] {
      MatchCountIsFilterSize(es[1..], q);
    }
  }

  /** A non-negative cap keeps `min(matches, cap)` entries; a negative cap drops
      that many from the end. */
  lemma RelevantMemoriesCount(b: MemoryBank, q: MemoryQuery)
    ensures q.maxResults >= 0 ==> |GetRelevantMemories(b, q)| == Min(MatchCount(b.entries, q), q.maxResults)
    ensures q.maxResults < 0 ==> |GetRelevantMemories(b, q)| == Max(0, MatchCount(b.entries, q) + q.maxResults)
  {
  }

  /** The kept entries are the best: any matching entry left out ranks no
      higher than every entry kept. */
  lemma RelevantMemoriesAreBest(b: MemoryBank, q: MemoryQuery, x: MemoryEntry)
    requires x in b.entries && Matches(x, q) && x !in GetRelevantMemories(b, q)
    ensures forall y :: y in GetRelevantMemories(b, q) ==> RanksAbove(y, x)
  {
    var ranked := RankedMatches(b.entries, q);
    var r := GetRelevantMemories(b, q);
    assert x in multiset(ranked);
    assert x in ranked;
    assert r == ranked[..|r|];
    PrefixOutranksRest(ranked, |r|, x);
  }

  /** In a ranked sequence, an element outside a prefix ranks no higher than
      anything in the prefix. */
  lemma PrefixOutranksRest(s: seq<MemoryEntry>, n: nat, x: MemoryEntry)
    requires Ranked(s) && n <= |s| && x in s && x !in s[..n]
    ensures forall y :: y in s[..n] ==> RanksAbove(y, x)
  {
    var j :| 0 <= j < |s| && s[j] == x;
    assert j >= n;
    forall y | y in s[..n] ensures RanksAbove(y, x) {
      var i :| 0 <= i < n && s[..n][i] == y;
      assert s[i] == y;
    }
  }

  /** When the cap is at least the bank size, every matching entry is returned,
      as often as it occurs. */
  lemma AllMatchesReturned(b: MemoryBank, q: MemoryQuery)
    requires q.maxResults >= |b.entries|
    ensures forall x :: multiset(GetRelevantMemories(b, q))[x] == if Matches(x, q) then multiset(b.entries)[x] else 0
  {
    assert GetRelevantMemories(b, q) == RankedMatches(b.entries, q);
  }

  /** `get_recent_entries(count)`: for a positive count the last `count` entries
      (all of them when fewer); a count of zero yields every entry, and a
      negative count drops that many from the front. */
  function GetRecentEntries(b: MemoryBank, count: int): (r: seq<MemoryEntry>)
    ensures count >= 1 ==> r == b.entries[|b.entries| - Min(count, |b.entries|)..]
    ensures count == 0 ==> r == b.entries
    ensures count < 0 ==> r == b.entries[Min(-count, |b.entries|)..]
  {
    if |b.entries| >= count then SliceFrom(b.entries, -count) else b.entries
  }

  /** Default count of `get_recent_entries`. */
  const DefaultRecentCount: int := 5

  /** `get_summaries`: the summaries, which together list the ids of every folded entry. */
  function GetSummaries(b: MemoryBank): (r: seq<MemorySummary>)
    ensures |r| == GetStats(b).summaryCount
    ensures FoldedIds(r) + Ids(GetAllMemories(b)) == History(b)
  {
    b.summaries
  }

  /** `get_all_memories`: despite its name, only the entries not yet folded. */
  function GetAllMemories(b: MemoryBank): (r: seq<MemoryEntry>)
    ensures |r| == GetStats(b).entryCount
    ensures forall i :: 0 <= i < |r| ==> r[i].id == History(b)[|History(b)| - |r| + i]
  {
    b.entries
  }

  /** Entries folded by an add are no longer among all memories; they are the
      source entries of the newest summary. */
  lemma FoldedEntriesLeaveAllMemories(b: MemoryBank, e: MemoryEntry, summaryId: string, summaryTime: int)
    requires |b.entries| + 1 >= b.compressionThreshold && Folds(b, |b.entries| + 1)
    ensures var all := b.entries + [e]; var k := |all| / 2; var r := AddEntry(b, e, summaryId, summaryTime);
      && GetAllMemories(r) == all[k..]
      && |GetSummaries(r)| == |b.summaries| + 1
      && GetSummaries(r)[|b.summaries|].sourceEntries == Ids(all[..k])
  {
    AddEntryFolds(b, e, summaryId, summaryTime);
  }

  /** `clear`: both lists emptied, the limits kept. */
  function Clear(b: MemoryBank): (r: MemoryBank)
    ensures r.entries == [] && r.summaries == []
    ensures r.maxEntries == b.maxEntries && r.compressionThreshold == b.compressionThreshold
  {
    b.(entries := [], summaries := [])
  }

  datatype BankStats = BankStats(entryCount: nat, summaryCount: nat, totalCount: nat, compressionRatio: real)

  /** `get_stats`: the counts, and summaries per held entry (zero when none is held). */
  function GetStats(b: MemoryBank): (s: BankStats)
    ensures s.entryCount == |b.entries| && s.summaryCount == |b.summaries|
    ensures s.totalCount == |b.entries| + |b.summaries|
    ensures |b.entries| == 0 ==> s.compressionRatio == 0.0
    ensures |b.entries| > 0 ==> s.compressionRatio * (|b.entries| as real) == |b.summaries| as real
  {
    var ratio := if b.entries != [] then (|b.summaries| as real) / (Max(1, |b.entries|) as real) else 0.0;
    BankStats(|b.entries|, |b.summaries|, |b.entries| + |b.summaries|, ratio)
  }
}
