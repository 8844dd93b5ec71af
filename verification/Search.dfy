/** The windowed UID search of one mailbox. UIDs are unsigned 32-bit numbers, and the
    arithmetic on them wraps around. */
module Search {
  import opened Ordering

  const MAX_UID := 0xFFFF_FFFF
  const WINDOW := 10_000

  type Uid = n: nat | n <= MAX_UID

  /** Unsigned 32-bit addition. */
  function Add(a: Uid, b: nat): (r: Uid)
    ensures a + b <= MAX_UID ==> r == a + b
  {
    (a + b) % (MAX_UID + 1)
  }

  /** What the server answers to one UID SEARCH: an error, or UIDs in any order, with
      repetitions, and possibly outside the range it was asked for. */
  datatype Reply = Refused | Found(uids: seq<Uid>)

  predicate Ascending(s: seq<Uid>) {
    forall i, j :: 0 <= i < j < |s| ==> s[i] < s[j]
  }

  predicate InRange(u: Uid, from: Uid, to: Uid) {
    from <= u && (to == 0 || u <= to)
  }

  function KeepInRange(found: seq<Uid>, from: Uid, to: Uid): (r: seq<Uid>)
    ensures forall u :: u in r <==> u in found && InRange(u, from, to)
  {
    if found == [] then []
    else (if InRange(found[0], from, to) then [found[0]] else []) + KeepInRange(found[1..], from, to)
  }

  predicate Leq(a: Uid, b: Uid) {
    a <= b
  }

  /** SearchUIDsRange: an open range may bring a UID from below it, so the answer is
      filtered, and it is sorted and freed of duplicates. */
  function Range(found: seq<Uid>, from: Uid, to: Uid): seq<Uid> {
    Compact(Sort(KeepInRange(found, from, to), Leq))
  }

  lemma SortedUids(found: seq<Uid>)
    ensures Ascending(Compact(Sort(found, Leq)))
    ensures forall u :: u in Compact(Sort(found, Leq)) <==> u in found
  {
    assert TotalPreorder(Leq) && Antisymmetric(Leq);
    SortSorted(found, Leq);
    CompactStrict(Sort(found, Leq), Leq);
    SameElements(found, Sort(found, Leq));
    var r := Compact(Sort(found, Leq));
    forall i, j | 0 <= i < j < |r| ensures r[i] < r[j] {
      assert Leq(r[i], r[j]) && r[i] != r[j];
    }
  }

  lemma RangeIs(found: seq<Uid>, from: Uid, to: Uid)
    ensures Ascending(Range(found, from, to))
    ensures forall u :: u in Range(found, from, to) <==> u in found && InRange(u, from, to)
  {
    SortedUids(KeepInRange(found, from, to));
  }

  // ---------------------------------------------------------------------------
  // What a search must bring.

  /** The ranges a search of (after, to] may ask for: one open range without an upper
      bound, closed ones with it. */
  predicate Asks(after: Uid, to: Uid, from: Uid, upTo: Uid) {
    if to == 0 then from == after + 1 && upTo == 0 else 0 < upTo <= to
  }

  /** Every answer names all the given UIDs of its range. */
  ghost predicate Complete(search: (Uid, Uid) -> Reply, after: Uid, to: Uid, must: set<Uid>) {
    forall from: Uid, upTo: Uid, u: Uid ::
      Asks(after, to, from, upTo) && search(from, upTo).Found? && u in must && InRange(u, from, upTo) ==>
        u in search(from, upTo).uids
  }

  /** No answer names another UID of its range. */
  ghost predicate Truthful(search: (Uid, Uid) -> Reply, after: Uid, to: Uid, may: set<Uid>) {
    forall from: Uid, upTo: Uid, u: Uid ::
      Asks(after, to, from, upTo) && search(from, upTo).Found? && InRange(u, from, upTo) ==>
        u in search(from, upTo).uids ==> u in may
  }

  /** The result holds the first of the required UIDs in (after, to]: it is full, and
      then what it misses lies above it, or it misses none. */
  ghost predicate Covers(uids: seq<Uid>, must: set<Uid>, after: Uid, to: Uid, limit: nat) {
    && Ascending(uids) && |uids| <= limit + 1
    && (forall u :: u in uids ==> after < u <= to)
    && (forall u :: u in must && after < u <= to && u !in uids ==>
          |uids| == limit + 1 && forall v :: v in uids ==> v < u)
  }

  /** The windows searched so far have covered (after, start) completely. */
  ghost predicate Gathered(all: seq<Uid>, must: set<Uid>, may: set<Uid>, after: Uid, start: int) {
    && Ascending(all)
    && (forall u :: u in all ==> after < u < start && u in may)
    && (forall u :: u in must && after < u < start ==> u in all)
  }

  lemma GatherWindow(all: seq<Uid>, found: seq<Uid>, must: set<Uid>, may: set<Uid>, after: Uid, start: int, end: int)
    requires Gathered(all, must, may, after, start) && after < start <= end + 1
    requires Ascending(found)
    requires forall u :: u in found ==> start <= u <= end && u in may
    requires forall u :: u in must && start <= u <= end ==> u in found
    ensures Gathered(all + found, must, may, after, end + 1)
  {
    var more := all + found;
    forall i, j | 0 <= i < j < |more| ensures more[i] < more[j] {
      if i < |all| && j >= |all| {
        assert more[i] in all && more[j] in found;
      }
    }
  }

  lemma InPrefix(s: seq<Uid>, k: nat, n: nat)
    requires k < |s| && n <= |s|
    ensures k < n ==> s[k] in s[..n]
  {
    assert k < n ==> s[..n][k] == s[k];
  }

  lemma CutCovers(all: seq<Uid>, must: set<Uid>, may: set<Uid>, after: Uid, start: int, to: Uid, limit: nat)
    requires Gathered(all, must, may, after, start) && start <= to + 1 && |all| > limit
    ensures Covers(all[..limit + 1], must, after, to, limit)
  {
    var cut := all[..limit + 1];
    assert forall v :: v in cut ==> v in all;
    forall u, v | u in must && after < u <= to && u !in cut && v in cut ensures v < u {
      var j :| 0 <= j < |cut| && cut[j] == v;
      if u in all {
        var k :| 0 <= k < |all| && all[k] == u;
        InPrefix(all, k, limit + 1);
        assert j < k ==> all[j] < all[k];
      }
    }
  }

  /** One window of a bounded search: its end, after the wrap-around of the addition. */
  function WindowEnd(start: Uid, to: Uid): (end: Uid)
    requires 0 < start <= to
    ensures start <= end <= to && end - start < WINDOW
    ensures end == to || end - start == WINDOW - 1
  {
    var end := Add(start, WINDOW - 1);
    if end < start || end > to then to else end
  }

  /** The ranges a bounded search may ask for. */
  ghost predicate Bounded(windows: seq<(Uid, Uid)>, after: Uid, to: Uid) {
    forall i :: 0 <= i < |windows| ==>
      after < windows[i].0 <= windows[i].1 <= to && windows[i].1 - windows[i].0 < WINDOW
  }

  ghost predicate Answered(search: (Uid, Uid) -> Reply, windows: seq<(Uid, Uid)>) {
    forall i :: 0 <= i < |windows| ==> search(windows[i].0, windows[i].1).Found?
  }

  method SearchWindow(search: (Uid, Uid) -> Reply, all: seq<Uid>, start: Uid, end: Uid,
                      ghost must: set<Uid>, ghost may: set<Uid>, ghost after: Uid, ghost to: Uid)
    returns (more: seq<Uid>, ok: bool)
    requires Complete(search, after, to, must) && Truthful(search, after, to, may)
    requires after < start <= end <= to && Gathered(all, must, may, after, start)
    ensures ok == search(start, end).Found?
    ensures ok ==> Gathered(more, must, may, after, end + 1)
  {
    var reply := search(start, end);
    if reply.Refused? {
      return [], false;
    }
    var found := Range(reply.uids, start, end);
    RangeIs(reply.uids, start, end);
    GatherWindow(all, found, must, may, after, start, end);
    return all + found, true;
  }

  /** Windows of at most WINDOW UIDs, so a large mailbox never answers at once; without
      an upper bound there is a single open request. Cancellation is looked at between
      two windows. */
  method SearchUids(
    search: (Uid, Uid) -> Reply, cancelled: nat -> bool, after: Uid, to: Uid, limit: nat,
    ghost must: set<Uid>, ghost may: set<Uid>)
    returns (uids: seq<Uid>, ok: bool, ghost windows: seq<(Uid, Uid)>)
    requires Complete(search, after, to, must) && Truthful(search, after, to, may)
    ensures ok ==> Ascending(uids) && forall u :: u in uids ==> after < u && u in may
    ensures ok && to > 0 && limit > 0 ==> Covers(uids, must, after, to, limit)
    ensures ok && to == 0 ==> forall u :: u in must && after < u ==> u in uids
    ensures ok && to > 0 && limit == 0 ==> forall u :: u in must && after < u <= to ==> u in uids
    ensures Answered(search, windows) && (forall i :: !cancelled(i)) ==> ok
    ensures to > 0 ==> Bounded(windows, after, to)
  {
    if after == MAX_UID {
      return [], true, [];
    }
    if to == 0 {
      uids, ok, windows := SearchOpen(search, after, must, may);
    } else {
      uids, ok, windows := SearchWindows(search, cancelled, after, to, limit, must, may);
    }
  }

  method SearchOpen(search: (Uid, Uid) -> Reply, after: Uid, ghost must: set<Uid>, ghost may: set<Uid>)
    returns (uids: seq<Uid>, ok: bool, ghost windows: seq<(Uid, Uid)>)
    requires Complete(search, after, 0, must) && Truthful(search, after, 0, may) && after < MAX_UID
    ensures ok ==> Ascending(uids) && forall u :: u in uids ==> after < u && u in may
    ensures ok ==> forall u :: u in must && after < u ==> u in uids
    ensures Answered(search, windows) ==> ok
  {
    var first := Add(after, 1);
    windows := [(first, 0)];
    var open := search(first, 0);
    if open.Refused? {
      assert search(windows[0].0, windows[0].1).Refused?;
      return [], false, windows;
    }
    uids, ok := Range(open.uids, first, 0), true;
    OpenComplete(search, after, must, may, open.uids, uids);
  }

  lemma OpenComplete(search: (Uid, Uid) -> Reply, after: Uid, must: set<Uid>, may: set<Uid>, found: seq<Uid>,
                     uids: seq<Uid>)
    requires Complete(search, after, 0, must) && Truthful(search, after, 0, may) && after < MAX_UID
    requires search(after + 1, 0) == Found(found) && uids == Range(found, after + 1, 0)
    ensures Ascending(uids) && forall u :: u in uids ==> after < u && u in may
    ensures forall u :: u in must && after < u ==> u in uids
  {
    RangeIs(found, after + 1, 0);
    assert Asks(after, 0, after + 1, 0);
  }

  method SearchWindows(
    search: (Uid, Uid) -> Reply, cancelled: nat -> bool, after: Uid, to: Uid, limit: nat,
    ghost must: set<Uid>, ghost may: set<Uid>)
    returns (uids: seq<Uid>, ok: bool, ghost windows: seq<(Uid, Uid)>)
    requires Complete(search, after, to, must) && Truthful(search, after, to, may)
    requires after < MAX_UID && to > 0
    ensures ok ==> Ascending(uids) && forall u :: u in uids ==> after < u && u in may
    ensures ok && limit > 0 ==> Covers(uids, must, after, to, limit)
    ensures ok && limit == 0 ==> forall u :: u in must && after < u <= to ==> u in uids
    ensures Answered(search, windows) && (forall i :: !cancelled(i)) ==> ok
    ensures Bounded(windows, after, to)
  {
    windows := [];
    uids := [];
    var start: int := after + 1;
    var rounds := 0;
    while start <= to
      invariant after < start && (start <= to + 1 || uids == [])
      invariant Gathered(uids, must, may, after, start)
      invariant limit > 0 ==> |uids| <= limit
      invariant Answered(search, windows) && Bounded(windows, after, to)
      decreases MAX_UID + 1 - start
    {
      var end: int := WindowEnd(start, to);
      ghost var asked := windows + [(start, end)];
      assert asked[|windows|] == (start, end);
      uids, ok := SearchWindow(search, uids, start, end, must, may, after, to);
      windows := asked;
      if !ok {
        return [], false, windows;
      }
      if limit > 0 && |uids| > limit {
        CutCovers(uids, must, may, after, end + 1, to, limit);
        uids := uids[..limit + 1];
        return;
      }
      start := end + 1;
      if end == MAX_UID {
        break;
      }
      if cancelled(rounds) {
        return uids, false, windows;
      }
      rounds := rounds + 1;
    }
    ok := true;
  }

  // ---------------------------------------------------------------------------
  // The windows together are one direct search.

  /** The first k of the matching UIDs, in ascending order. */
  ghost predicate FirstOf(uids: seq<Uid>, matching: set<Uid>, k: nat) {
    && Ascending(uids) && |uids| <= k
    && (forall u :: u in uids ==> u in matching)
    && (forall u :: u in matching && u !in uids ==> |uids| == k && forall v :: v in uids ==> v < u)
  }

  ghost function Matching(may: set<Uid>, after: Uid, to: Uid): set<Uid> {
    set u | u in may && after < u <= to
  }

  /** The ascending listing of a set. */
  ghost function Listing(s: set<Uid>): (r: seq<Uid>)
    ensures Ascending(r) && |r| == |s|
    ensures forall u :: u in r <==> u in s
    decreases s
  {
    if s == {} then []
    else
      var low := Lowest(s);
      var rest := Listing(s - {low});
      assert forall u :: u in rest ==> low < u;
      [low] + rest
  }

  ghost function Lowest(s: set<Uid>): (low: Uid)
    requires s != {}
    ensures low in s && forall u :: u in s ==> low <= u
    decreases s
  {
    var x :| x in s;
    var rest := s - {x};
    if rest == {} then
      assert s == {x};
      x
    else
      var low := Lowest(rest);
      assert forall u :: u in s ==> u == x || u in rest;
      if x <= low then x else low
  }

  lemma FirstHead(uids: seq<Uid>, matching: set<Uid>, k: nat)
    requires FirstOf(uids, matching, k) && uids != []
    ensures matching != {} && uids[0] == Lowest(matching)
  {
    assert uids[0] in matching;
    var low := Lowest(matching);
    assert low in uids ==> exists i :: 0 <= i < |uids| && uids[i] == low;
  }

  lemma FirstTail(uids: seq<Uid>, matching: set<Uid>, k: nat)
    requires FirstOf(uids, matching, k) && uids != []
    ensures k > 0 && FirstOf(uids[1..], matching - {uids[0]}, k - 1)
  {
    var rest, less := uids[1..], matching - {uids[0]};
    forall u | u in rest ensures u in less {
      var i :| 0 <= i < |rest| && rest[i] == u;
      assert uids[i + 1] == u && uids[0] < u;
    }
    forall u | u in less && u !in rest ensures u !in uids {
      assert uids == [uids[0]] + rest;
    }
  }

  /** The first k are a prefix of the listing, so there is one such result only. */
  lemma {:induction false} FirstIsPrefix(uids: seq<Uid>, matching: set<Uid>, k: nat)
    requires FirstOf(uids, matching, k)
    ensures |uids| == (if |matching| < k then |matching| else k)
    ensures uids == Listing(matching)[..|uids|]
    decreases uids
  {
    if uids == [] {
      assert k > 0 ==> matching == {};
    } else {
      FirstHead(uids, matching, k);
      FirstTail(uids, matching, k);
      FirstIsPrefix(uids[1..], matching - {uids[0]}, k - 1);
      assert |matching| == |matching - {uids[0]}| + 1;
      ConsPrefix(uids, Listing(matching - {uids[0]}));
    }
  }

  lemma ConsPrefix(uids: seq<Uid>, rest: seq<Uid>)
    requires uids != [] && |uids| - 1 <= |rest| && uids[1..] == rest[..|uids| - 1]
    ensures uids == ([uids[0]] + rest)[..|uids|]
  {
    assert uids == [uids[0]] + uids[1..];
  }

  /** Against a server that answers exactly, the windowed search returns what one direct
      search would: the first min(limit + 1, n) of the listing of its n matches. */
  lemma WindowedIsDirect(uids: seq<Uid>, may: set<Uid>, after: Uid, to: Uid, limit: nat)
    requires Covers(uids, may, after, to, limit) && forall u :: u in uids ==> u in may
    ensures var all := Listing(Matching(may, after, to));
            uids == all[..if |all| < limit + 1 then |all| else limit + 1]
  {
    assert FirstOf(uids, Matching(may, after, to), limit + 1);
    FirstIsPrefix(uids, Matching(may, after, to), limit + 1);
  }
}
