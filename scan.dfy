/** The global search of a regular expression with the `g` flag: `exec` tries the pattern at each
    position from `lastIndex` on, reports the first match, and the next call resumes where that match
    ended. None of this depends on the pattern, so it is stated for any pattern: `attempt(p)` is what
    trying it at position `p` yields. */
module GlobalScan {
  import opened Wrappers

  /** A successful `exec`: where the match starts and ends, and the number it captured. */
  datatype Hit = Hit(start: nat, end: nat, amount: nat)

  /** `attempt` describes a pattern tried on a text of length `n`: a match found at `p` starts at `p`,
      is not empty and ends inside the text. */
  ghost predicate Attempts(attempt: nat -> Option<Hit>, n: nat) {
    forall p: nat :: p <= n && attempt(p).Some? ==> attempt(p).value.start == p < attempt(p).value.end <= n
  }

  /** `exec` with `lastIndex == from`: the match at the first position from `from` on where the
      pattern matches, or nothing. */
  function Next(attempt: nat -> Option<Hit>, n: nat, from: nat): (r: Option<Hit>)
    requires Attempts(attempt, n) && from <= n
    ensures r.Some? ==> from <= r.value.start < r.value.end <= n && attempt(r.value.start) == r
    decreases n - from
  {
    if from == n then None
    else if attempt(from).Some? then attempt(from)
    else Next(attempt, n, from + 1)
  }

  /** The pattern matches at no position of [lo, hi). */
  ghost predicate NoneIn(attempt: nat -> Option<Hit>, lo: nat, hi: nat) {
    forall p: nat :: lo <= p < hi ==> attempt(p).None?
  }

  /** The matches of `while ((match = re.exec(text)) !== null)` once `lastIndex` is `from`. */
  function All(attempt: nat -> Option<Hit>, n: nat, from: nat): seq<Hit>
    requires Attempts(attempt, n) && from <= n
    decreases n - from
  {
    match Next(attempt, n, from)
    case None => []
    case Some(h) => [h] + All(attempt, n, h.end)
  }

  /** The sum of the captured numbers. */
  function Sum(hs: seq<Hit>): nat {
    if hs == [] then 0 else hs[0].amount + Sum(hs[1..])
  }

  // ---------------------------------------------------------------------------------------------
  // One search.

  lemma NextSkips(attempt: nat -> Option<Hit>, n: nat, i: nat)
    requires Attempts(attempt, n) && i < n && attempt(i).None?
    ensures Next(attempt, n, i) == Next(attempt, n, i + 1)
  {
  }

  /** A position without a match extends a stretch without matches to its left. */
  lemma NoneInExtend(attempt: nat -> Option<Hit>, from: nat, hi: nat)
    requires attempt(from).None? && NoneIn(attempt, from + 1, hi)
    ensures NoneIn(attempt, from, hi)
  {
  }

  /** The match found is the leftmost one: none starts between `from` and it, and when nothing is
      found nothing matches in the rest of the text. */
  lemma {:induction false} NextLeftmost(attempt: nat -> Option<Hit>, n: nat, from: nat)
    requires Attempts(attempt, n) && from <= n
    ensures Next(attempt, n, from).Some? ==> NoneIn(attempt, from, Next(attempt, n, from).value.start)
    ensures Next(attempt, n, from).None? ==> NoneIn(attempt, from, n)
    decreases n - from
  {
    if from < n && attempt(from).None? {
      NextLeftmost(attempt, n, from + 1);
      NextSkips(attempt, n, from);
      var hi := match Next(attempt, n, from) case Some(h) => h.start case None => n;
      NoneInExtend(attempt, from, hi);
    }
  }

  /** A match with no match before it from `from` on is the one found. */
  lemma {:induction false} NextIs(attempt: nat -> Option<Hit>, n: nat, from: nat, h: Hit)
    requires Attempts(attempt, n) && from <= h.start < n && attempt(h.start) == Some(h)
    requires NoneIn(attempt, from, h.start)
    ensures Next(attempt, n, from) == Some(h)
    decreases h.start - from
  {
    if from < h.start {
      NextIs(attempt, n, from + 1, h);
      NextSkips(attempt, n, from);
    }
  }

  /** With no match in the rest of the text, nothing is found. */
  lemma {:induction false} NextNone(attempt: nat -> Option<Hit>, n: nat, from: nat)
    requires Attempts(attempt, n) && from <= n && NoneIn(attempt, from, n)
    ensures Next(attempt, n, from) == None
    decreases n - from
  {
    if from < n {
      NextNone(attempt, n, from + 1);
      NextSkips(attempt, n, from);
    }
  }

  // ---------------------------------------------------------------------------------------------
  // The whole scan.

  /** A declarative account of a global scan from `from`: `hs` lists, in order, the match at the first
      position where the pattern matches, then the scan resumed where it ended, until nothing is left. */
  ghost predicate IsScan(attempt: nat -> Option<Hit>, n: nat, from: nat, hs: seq<Hit>)
    decreases hs
  {
    if hs == [] then NoneIn(attempt, from, n)
    else
      && from <= hs[0].start < hs[0].end <= n
      && NoneIn(attempt, from, hs[0].start)
      && attempt(hs[0].start) == Some(hs[0])
      && IsScan(attempt, n, hs[0].end, hs[1..])
  }

  /** The loop's matches are a global scan ... */
  lemma {:induction false} AllIsScan(attempt: nat -> Option<Hit>, n: nat, from: nat)
    requires Attempts(attempt, n) && from <= n
    ensures IsScan(attempt, n, from, All(attempt, n, from))
    decreases n - from
  {
    NextLeftmost(attempt, n, from);
    match Next(attempt, n, from)
    case None =>
    case Some(h) =>
      AllIsScan(attempt, n, h.end);
      assert All(attempt, n, from) == [h] + All(attempt, n, h.end);
  }

  /** ... and the only one: the scan from a position is unique. */
  lemma {:induction false} ScanIsAll(attempt: nat -> Option<Hit>, n: nat, from: nat, hs: seq<Hit>)
    requires Attempts(attempt, n) && from <= n && IsScan(attempt, n, from, hs)
    ensures hs == All(attempt, n, from)
    decreases hs
  {
    if hs == [] {
      NextNone(attempt, n, from);
    } else {
      NextIs(attempt, n, from, hs[0]);
      ScanIsAll(attempt, n, hs[0].end, hs[1..]);
    }
  }

  /** Two patterns that agree at every position from `from` on find the same matches. */
  lemma {:induction false} AllAgree(a1: nat -> Option<Hit>, a2: nat -> Option<Hit>, n: nat, from: nat)
    requires Attempts(a1, n) && Attempts(a2, n) && from <= n
    requires forall p: nat :: from <= p <= n ==> a1(p) == a2(p)
    ensures All(a1, n, from) == All(a2, n, from)
    decreases n - from
  {
    AllIsScan(a1, n, from);
    ScanAgree(a1, a2, n, from, All(a1, n, from));
    ScanIsAll(a2, n, from, All(a1, n, from));
  }

  lemma {:induction false} ScanAgree(a1: nat -> Option<Hit>, a2: nat -> Option<Hit>, n: nat, from: nat, hs: seq<Hit>)
    requires forall p: nat :: from <= p <= n ==> a1(p) == a2(p)
    requires IsScan(a1, n, from, hs)
    ensures IsScan(a2, n, from, hs)
    decreases hs
  {
    if hs != [] {
      ScanAgree(a1, a2, n, hs[0].end, hs[1..]);
    }
  }

  // ---------------------------------------------------------------------------------------------
  // `re.exec`.

  /** `re.exec(text)` with `re.lastIndex == lastIndex`: the pattern is tried at each position in turn. */
  method Exec(attempt: nat -> Option<Hit>, n: nat, lastIndex: nat) returns (m: Option<Hit>)
    requires Attempts(attempt, n) && lastIndex <= n
    ensures m == Next(attempt, n, lastIndex)
    ensures m.Some? ==> NoneIn(attempt, lastIndex, m.value.start) && attempt(m.value.start) == m
    ensures m.None? ==> NoneIn(attempt, lastIndex, n)
  {
    NextLeftmost(attempt, n, lastIndex);
    var i := lastIndex;
    while i < n
      invariant lastIndex <= i <= n
      invariant Next(attempt, n, lastIndex) == Next(attempt, n, i)
      decreases n - i
    {
      var here := attempt(i);
      if here.Some? {
        return here;
      }
      NextSkips(attempt, n, i);
      i := i + 1;
    }
    return None;
  }
}
