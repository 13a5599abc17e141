/** String helpers with Python's meaning: lower-casing, substring search, `join`,
    `strip`, `split(sep)[-1]` and character removal. */
module Text {

  /** Python's `str.lower()` restricted to ASCII letters. */
  function LowerChar(c: char): char {
    if 'A' <= c <= 'Z' then (c as int + 32) as char else c
  }

  function Lower(s: string): (r: string)
    ensures |r| == |s|
    ensures forall i :: 0 <= i < |s| ==> r[i] == LowerChar(s[i])
  {
    if s == [] then [] else [LowerChar(s[0])] + Lower(s[1..])
  }

  /** `needle` occurs in `hay` starting at index `i`. */
  predicate OccursAt(hay: string, needle: string, i: int) {
    0 <= i && i + |needle| <= |hay| && hay[i..i + |needle|] == needle
  }

  /** `needle in hay` on Python strings. */
  predicate Contains(hay: string, needle: string) {
    exists i | 0 <= i <= |hay| :: OccursAt(hay, needle, i)
  }

  /** A part of a concatenation occurs where the text before it ends. */
  lemma OccursInConcat(a: string, b: string, c: string)
    ensures OccursAt(a + b + c, b, |a|)
  {
    assert (a + b + c)[|a|..|a| + |b|] == b;
  }

  /** What occurs in a string occurs at the same place once more is appended. */
  lemma OccursAtPrefix(s: string, t: string, x: string, p: int)
    requires OccursAt(s, x, p)
    ensures OccursAt(s + t, x, p)
  {
    assert (s + t)[p..p + |x|] == s[p..p + |x|];
  }

  /** Each of four concatenated parts occurs where the parts before it end. */
  lemma PartsOccur(a: string, b: string, c: string, d: string)
    ensures OccursAt(a + b + c + d, a, 0)
    ensures OccursAt(a + b + c + d, b, |a|)
    ensures OccursAt(a + b + c + d, c, |a| + |b|)
    ensures OccursAt(a + b + c + d, d, |a| + |b| + |c|)
  {
    var s := a + b + c + d;
    assert s[..|a|] == a;
    assert s[|a|..|a| + |b|] == b;
    assert s[|a| + |b|..|a| + |b| + |c|] == c;
    assert s[|a| + |b| + |c|..] == d;
  }

  /** In `a + b + c + d + e`, `b` occurs after `a`, and `d` ends `|e|` characters
      before the end. */
  lemma FramedOccur(a: string, b: string, c: string, d: string, e: string)
    ensures OccursAt(a + b + c + d + e, b, |a|)
    ensures OccursAt(a + b + c + d + e, d, |a + b + c + d + e| - |e| - |d|)
  {
    var s := a + b + c + d + e;
    assert s[|a|..|a| + |b|] == b;
    assert s[|a| + |b| + |c|..|a| + |b| + |c| + |d|] == d;
  }

  /** An occurrence inside an occurrence is an occurrence. */
  lemma OccursAtTrans(s: string, t: string, u: string, p: int, q: int)
    requires OccursAt(s, t, p) && OccursAt(t, u, q)
    ensures OccursAt(s, u, p + q)
  {
    forall k | 0 <= k < |u| ensures s[p + q + k] == u[k] {
      assert s[p..p + |t|][q + k] == t[q + k];
      assert t[q..q + |u|][k] == u[k];
    }
    assert s[p + q..p + q + |u|] == u;
  }

  /** An occurrence at a known place is an occurrence. */
  lemma OccursAtContains(s: string, t: string, p: int)
    requires OccursAt(s, t, p)
    ensures Contains(s, t)
  {
  }

  /** What one of three strings contains, their concatenation contains. */
  lemma ContainsInConcat(a: string, b: string, c: string, x: string)
    requires Contains(a, x) || Contains(b, x) || Contains(c, x)
    ensures Contains(a + b + c, x)
  {
    var s := a + b + c;
    if Contains(a, x) {
      var p :| 0 <= p <= |a| && OccursAt(a, x, p);
      assert s[p..p + |x|] == a[p..p + |x|];
      assert OccursAt(s, x, p);
    } else if Contains(b, x) {
      var p :| 0 <= p <= |b| && OccursAt(b, x, p);
      assert s[|a| + p..|a| + p + |x|] == b[p..p + |x|];
      assert OccursAt(s, x, |a| + p);
    } else {
      var p :| 0 <= p <= |c| && OccursAt(c, x, p);
      assert s[|a| + |b| + p..|a| + |b| + p + |x|] == c[p..p + |x|];
      assert OccursAt(s, x, |a| + |b| + p);
    }
  }

  /** Each of four strings occurs in their concatenation. */
  lemma PartsContained(a: string, b: string, c: string, d: string)
    ensures Contains(a + b + c + d, a) && Contains(a + b + c + d, b)
    ensures Contains(a + b + c + d, c) && Contains(a + b + c + d, d)
  {
    PartsOccur(a, b, c, d);
    OccursAtContains(a + b + c + d, a, 0);
    OccursAtContains(a + b + c + d, b, |a|);
    OccursAtContains(a + b + c + d, c, |a| + |b|);
    OccursAtContains(a + b + c + d, d, |a| + |b| + |c|);
  }

  /** Containment is transitive. */
  lemma ContainsTrans(s: string, t: string, u: string)
    requires Contains(s, t) && Contains(t, u)
    ensures Contains(s, u)
  {
    var p :| 0 <= p <= |s| && OccursAt(s, t, p);
    var q :| 0 <= q <= |t| && OccursAt(t, u, q);
    OccursAtTrans(s, t, u, p, q);
  }

  /** `sep.join(parts)`. */
  function Join(parts: seq<string>, sep: string): (r: string)
    ensures |parts| == 1 ==> r == parts[0]
    ensures parts == [] ==> r == ""
  {
    if parts == [] then ""
    else if |parts| == 1 then parts[0]
    else parts[0] + sep + Join(parts[1..], sep)
  }

  /** Every part occurs in the parts joined with no separator, as repeated
      `+=` builds them. */
  lemma {:induction false} JoinedPartOccurs(parts: seq<string>, i: int)
    requires 0 <= i < |parts|
    ensures Contains(Join(parts, ""), parts[i])
  {
    var j := Join(parts, "");
    if |parts| == 1 {
      assert OccursAt(j, parts[0], 0);
    } else {
      var rest := Join(parts[1..], "");
      assert j == parts[0] + "" + rest;
      if i == 0 {
        OccursInConcat([], parts[0], rest);
        assert OccursAt(j, parts[0], 0);
      } else {
        JoinedPartOccurs(parts[1..], i - 1);
        var q :| 0 <= q <= |rest| && OccursAt(rest, parts[i], q);
        OccursInConcat(parts[0], rest, []);
        OccursAtTrans(j, rest, parts[i], |parts[0]|, q);
      }
    }
  }

  /** Whatever contains a join contains each of its parts. */
  lemma ContainsJoinedPart(s: string, parts: seq<string>, i: int)
    requires 0 <= i < |parts| && Contains(s, Join(parts, ""))
    ensures Contains(s, parts[i])
  {
    JoinedPartOccurs(parts, i);
    ContainsTrans(s, Join(parts, ""), parts[i]);
  }

  /** The characters for which Python's `str.isspace()` holds. */
  predicate IsSpace(c: char) {
    || c == ' ' || c == '\t' || c == '\n' || c == '\r' || c == '\U{B}' || c == '\U{C}'
    || ('\U{1C}' <= c <= '\U{1F}') || c == '\U{85}' || c == '\U{A0}' || c == '\U{1680}'
    || ('\U{2000}' <= c <= '\U{200A}') || c == '\U{2028}' || c == '\U{2029}' || c == '\U{202F}'
    || c == '\U{205F}' || c == '\U{3000}'
  }

  predicate AllSpace(s: string) {
    forall i :: 0 <= i < |s| ==> IsSpace(s[i])
  }

  /** The first index at or after `i` that does not hold whitespace (or `|s|`). */
  function SkipSpaces(s: string, i: nat): (n: nat)
    requires i <= |s|
    ensures i <= n <= |s|
    ensures forall k :: i <= k < n ==> IsSpace(s[k])
    ensures n == |s| || !IsSpace(s[n])
    decreases |s| - i
  {
    if i == |s| || !IsSpace(s[i]) then i else SkipSpaces(s, i + 1)
  }

  /** The smallest `m <= j` such that `s[m..j]` is all whitespace. */
  function SkipSpacesBack(s: string, j: nat): (m: nat)
    requires j <= |s|
    ensures m <= j
    ensures forall k :: m <= k < j ==> IsSpace(s[k])
    ensures m == 0 || !IsSpace(s[m - 1])
  {
    if j == 0 || !IsSpace(s[j - 1]) then j else SkipSpacesBack(s, j - 1)
  }

  /** Python's `str.strip()`: the text between the leading and trailing runs of whitespace. */
  function Strip(s: string): (r: string)
    ensures exists i, j :: 0 <= i <= j <= |s| && r == s[i..j] && AllSpace(s[..i]) && AllSpace(s[j..])
    ensures r == [] || (!IsSpace(r[0]) && !IsSpace(r[|r| - 1]))
  {
    var i := SkipSpaces(s, 0);
    var j := SkipSpacesBack(s, |s|);
    if j <= i then
      assert AllSpace(s[..|s|]) && AllSpace(s[|s|..]);
      []
    else
      assert AllSpace(s[..i]) && AllSpace(s[j..]);
      s[i..j]
  }

  /** A string that starts and ends with a non-space character is its own strip. */
  lemma StripOfTrimmed(s: string)
    requires s == [] || (!IsSpace(s[0]) && !IsSpace(s[|s| - 1]))
    ensures Strip(s) == s
  {
  }

  /** Where the last piece of `s.split(sep)` begins, scanning left to right from
      `i` as Python does; `start` is where the current piece began. */
  function PieceStart(s: string, sep: string, i: nat, start: nat): (k: nat)
    requires sep != [] && start <= i <= |s|
    requires start == 0 || (start >= |sep| && OccursAt(s, sep, start - |sep|))
    requires forall j :: start <= j < i ==> !OccursAt(s, sep, j)
    ensures start <= k <= |s|
    ensures k == 0 || (k >= |sep| && OccursAt(s, sep, k - |sep|))
    ensures forall j :: k <= j ==> !OccursAt(s, sep, j)
    decreases |s| - i
  {
    if i + |sep| > |s| then start
    else if OccursAt(s, sep, i) then PieceStart(s, sep, i + |sep|, i + |sep|)
    else PieceStart(s, sep, i + 1, start)
  }

  /** `s.split(sep)[-1]`: the text after the last occurrence of `sep`, or all of
      `s` when there is none. */
  function LastPiece(s: string, sep: string): (r: string)
    requires sep != []
    ensures |r| <= |s| && r == s[|s| - |r|..]
    ensures forall j :: |s| - |r| <= j ==> !OccursAt(s, sep, j)
    ensures |r| < |s| ==> |r| + |sep| <= |s| && OccursAt(s, sep, |s| - |r| - |sep|)
    ensures !Contains(s, sep) ==> r == s
  {
    s[PieceStart(s, sep, 0, 0)..]
  }

  /** `k` is where the last piece of `s` split on `sep` begins: the start, or the
      end of an occurrence, with no occurrence from `k` on. */
  ghost predicate AfterLast(s: string, sep: string, k: int) {
    && 0 <= k <= |s|
    && (k == 0 || (k >= |sep| && OccursAt(s, sep, k - |sep|)))
    && forall j :: k <= j ==> !OccursAt(s, sep, j)
  }

  /** No proper suffix of `sep` is also its prefix, so two occurrences never overlap. */
  predicate SelfDisjoint(sep: string) {
    forall d :: 0 < d < |sep| ==> sep[d..] != sep[..|sep| - d]
  }

  /** A separator whose first letter does not recur overlaps no shifted copy of itself. */
  lemma FirstLetterOnce(sep: string)
    requires forall d :: 0 < d < |sep| ==> sep[d] != sep[0]
    ensures SelfDisjoint(sep)
  {
    forall d | 0 < d < |sep| ensures sep[d..] != sep[..|sep| - d] {
      assert sep[d..][0] != sep[..|sep| - d][0];
    }
  }

  /** Two occurrences less than `|sep|` apart make `sep` overlap itself by their distance. */
  lemma OverlapShift(s: string, sep: string, a: int, b: int)
    requires OccursAt(s, sep, a) && OccursAt(s, sep, b) && a < b < a + |sep|
    ensures sep[b - a..] == sep[..|sep| - (b - a)]
  {
    var d := b - a;
    forall t | 0 <= t < |sep| - d ensures sep[d + t] == sep[t] {
      assert s[a..a + |sep|][d + t] == s[b..b + |sep|][t];
    }
  }

  /** Of two places where a last piece could begin, the later one ends an
      occurrence that starts after the earlier one and less than `|sep|` before the end. */
  lemma LaterStartOverlaps(s: string, sep: string, k: int, n: int)
    requires sep != [] && AfterLast(s, sep, k) && AfterLast(s, sep, n) && k < n
    ensures k >= |sep| && OccursAt(s, sep, k - |sep|) && OccursAt(s, sep, n - |sep|)
    ensures k - |sep| < n - |sep| < k
  {
  }

  /** For a separator that does not overlap itself, `split(sep)[-1]` is the text
      after the last occurrence, whichever way that occurrence is found. */
  lemma LastPieceIsUnique(s: string, sep: string, k: int)
    requires sep != [] && SelfDisjoint(sep) && AfterLast(s, sep, k)
    ensures LastPiece(s, sep) == s[k..]
  {
    var n := |s| - |LastPiece(s, sep)|;
    assert AfterLast(s, sep, n);
    if k < n {
      LaterStartOverlaps(s, sep, k, n);
      OverlapShift(s, sep, k - |sep|, n - |sep|);
    } else if n < k {
      LaterStartOverlaps(s, sep, n, k);
      OverlapShift(s, sep, n - |sep|, k - |sep|);
    }
  }

  /** `re.sub("[...]", "", s)` for a character class `bad`: every other character, in order. */
  function RemoveChars(s: string, bad: set<char>): (r: string)
    ensures |r| <= |s|
    ensures forall i :: 0 <= i < |r| ==> r[i] !in bad
    ensures forall c :: c !in bad ==> multiset(r)[c] == multiset(s)[c]
  {
    if s == [] then []
    else
      assert s == [s[0]] + s[1..];
      if s[0] in bad then RemoveChars(s[1..], bad)
      else [s[0]] + RemoveChars(s[1..], bad)
  }

  /** Removal works piece by piece: removing from a concatenation concatenates
      the removals, so the kept characters stay in their order. */
  lemma {:induction false} RemoveCharsAppend(a: string, b: string, bad: set<char>)
    ensures RemoveChars(a + b, bad) == RemoveChars(a, bad) + RemoveChars(b, bad)
  {
    KeptIsRemoval(a + b, bad);
    KeptIsRemoval(a, bad);
    KeptIsRemoval(b, bad);
    KeptAppend(a, b, bad);
  }

  /** The characters of `s` outside `bad`, in order: a reference definition of removal. */
  function Kept(s: string, bad: set<char>): string {
    if s == [] then [] else KeptPart(s[0], bad) + Kept(s[1..], bad)
  }

  /** Removal keeps exactly the characters outside the class, in their order. */
  lemma {:induction false} KeptIsRemoval(s: string, bad: set<char>)
    ensures RemoveChars(s, bad) == Kept(s, bad)
  {
    if s != [] {
      KeptIsRemoval(s[1..], bad);
      RemoveCharsFirst(s, bad);
    }
  }

  /** The kept characters of a concatenation are those of each part, in turn. */
  lemma {:induction false} KeptAppend(a: string, b: string, bad: set<char>)
    ensures Kept(a + b, bad) == Kept(a, bad) + Kept(b, bad)
  {
    if a == [] {
      assert a + b == b;
    } else {
      assert (a + b)[1..] == a[1..] + b;
      KeptAppend(a[1..], b, bad);
    }
  }

  /** The first character's share of a removal: itself, or nothing when it is in the class. */
  function KeptPart(c: char, bad: set<char>): string {
    if c in bad then [] else [c]
  }

  /** A removal is the first character's share followed by the removal from the rest. */
  lemma RemoveCharsFirst(s: string, bad: set<char>)
    requires s != []
    ensures RemoveChars(s, bad) == KeptPart(s[0], bad) + RemoveChars(s[1..], bad)
  {
  }

  /** One character is dropped when it is in the class and kept otherwise. */
  lemma RemoveCharsOne(c: char, bad: set<char>)
    ensures RemoveChars([c], bad) == KeptPart(c, bad)
  {
    assert [c][1..] == [];
  }

  /** Removing characters that do not occur leaves the text unchanged. */
  lemma {:induction false} RemoveCharsNoop(s: string, bad: set<char>)
    requires forall i :: 0 <= i < |s| ==> s[i] !in bad
    ensures RemoveChars(s, bad) == s
  {
    if s != [] {
      RemoveCharsNoop(s[1..], bad);
    }
  }
}
