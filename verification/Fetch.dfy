/** The adaptive FETCH: one request for a batch of UIDs, and one request for each UID as
    soon as the server does not answer in the order that was asked for. */
module Fetch {
  import opened Ordering
  import opened Search

  /** One FETCH response; the body of an unreadable one cannot be read. */
  datatype Response = Response(uid: Uid, readable: bool)

  /** The responses of one command in the order they arrive, and how it ended. The server
      may repeat UIDs, name others, and leave out the ones expunged meanwhile. */
  datatype Stream = Stream(responses: seq<Response>, failed: bool)

  predicate Named(responses: seq<Response>, u: Uid) {
    exists i :: 0 <= i < |responses| && responses[i].uid == u
  }

  predicate Names(stream: Stream, u: Uid) {
    Named(stream.responses, u)
  }

  /** A command that ends well names the UID. */
  predicate Shown(stream: Stream, u: Uid) {
    stream.failed || Names(stream, u)
  }

  predicate Clean(stream: Stream) {
    !stream.failed && forall i :: 0 <= i < |stream.responses| ==> stream.responses[i].readable
  }

  /** The requested UIDs in the order of their first response. */
  function Firsts(responses: seq<Response>, uids: seq<Uid>): seq<Uid> {
    if responses == [] then []
    else
      var n := |responses| - 1;
      var before := Firsts(responses[..n], uids);
      var last := responses[n].uid;
      if last in uids && last !in before then before + [last] else before
  }

  lemma NamedStep(responses: seq<Response>, m: Response, u: Uid)
    ensures Named(responses + [m], u) <==> Named(responses, u) || m.uid == u
  {
    var more := responses + [m];
    if i :| 0 <= i < |responses| && responses[i].uid == u {
      assert more[i].uid == u;
    }
    if m.uid == u {
      assert more[|responses|].uid == u;
    }
  }

  lemma FirstsStep(responses: seq<Response>, m: Response, uids: seq<Uid>)
    ensures var before := Firsts(responses, uids);
            Firsts(responses + [m], uids) == if m.uid in uids && m.uid !in before then before + [m.uid] else before
  {
    assert (responses + [m])[..|responses|] == responses;
  }

  lemma {:induction false} FirstsAre(responses: seq<Response>, uids: seq<Uid>)
    ensures Distinct(Firsts(responses, uids))
    ensures forall u :: u in Firsts(responses, uids) <==> u in uids && Named(responses, u)
  {
    if responses != [] {
      var n := |responses| - 1;
      FirstsAre(responses[..n], uids);
      forall u ensures Named(responses, u) <==> Named(responses[..n], u) || responses[n].uid == u {
        assert responses == responses[..n] + [responses[n]];
        NamedStep(responses[..n], responses[n], u);
      }
    }
  }

  predicate Descends(order: seq<Uid>) {
    exists i :: 0 < i < |order| && order[i] < order[i - 1]
  }

  lemma DescendsStep(order: seq<Uid>, u: Uid)
    ensures Descends(order + [u]) <==> Descends(order) || (order != [] && u < order[|order| - 1])
  {
    var more := order + [u];
    if i :| 0 < i < |order| && order[i] < order[i - 1] {
      assert more[i] < more[i - 1];
    }
    if order != [] && u < order[|order| - 1] {
      assert more[|order|] < more[|order| - 1];
    }
  }

  /** The mode changes only when some requested UID really came after a larger one. */
  lemma {:induction false} DescendsIsReal(order: seq<Uid>)
    requires Distinct(order)
    ensures Descends(order) <==> !Ascending(order)
  {
    if !Descends(order) {
      forall i, j | 0 <= i < j < |order| ensures order[i] < order[j] {
        Climb(order, i, j);
      }
    }
  }

  lemma {:induction false} Climb(order: seq<Uid>, i: nat, j: nat)
    requires i < j < |order| && Distinct(order) && !Descends(order)
    ensures order[i] < order[j]
    decreases j
  {
    assert order[j - 1] != order[j];
    if i < j - 1 {
      Climb(order, i, j - 1);
    }
  }

  /** What is known while a batch is read: the first responses so far have the given
      order, the messages handed over are a prefix of the request, and while nothing
      unexpected came they are all that came. */
  ghost predicate Reading(uids: seq<Uid>, order: seq<Uid>, seen: set<Uid>, lastUid: Uid, unordered: bool,
                          next: nat, fallbackAt: int, readErr: bool)
  {
    && seen == (set u | u in order)
    && lastUid == (if order == [] then 0 else order[|order| - 1])
    && unordered == Descends(order)
    && next <= |uids| && uids[..next] <= order
    && (fallbackAt == -1 || fallbackAt == next)
    && (fallbackAt == -1 && !readErr ==> order == uids[..next])
  }

  lemma ReadingStep(uids: seq<Uid>, order: seq<Uid>, seen: set<Uid>, lastUid: Uid, unordered: bool,
                    next: nat, fallbackAt: int, readErr: bool, message: Response)
    requires Reading(uids, order, seen, lastUid, unordered, next, fallbackAt, readErr)
    ensures var uid := message.uid;
            var quiet := fallbackAt < 0 && !readErr;
            var expected := next < |uids| && uid == uids[next];
            Reading(uids, order + [uid], seen + {uid}, uid, unordered || (lastUid != 0 && uid < lastUid),
                    if quiet && expected && message.readable then next + 1 else next,
                    if quiet && !expected then next else fallbackAt,
                    readErr || (quiet && expected && !message.readable))
  {
    DescendsStep(order, message.uid);
    if next < |uids| {
      assert uids[..next + 1] == uids[..next] + [uids[next]];
    }
  }

  /** Reads one batch. The messages handed over are a prefix of the request; next tells
      where to go on one by one, and everything between is gone from the mailbox. */
  method FetchRawBatch(uids: seq<Uid>, stream: Stream) returns (handled: seq<Uid>, next: nat, unordered: bool, ok: bool)
    requires Ascending(uids)
    ensures handled <= uids
    ensures |handled| <= next <= |uids|
    ensures ok ==> forall k :: |handled| <= k < next ==> !Names(stream, uids[k])
    ensures unordered == Descends(Firsts(stream.responses, uids))
    ensures Clean(stream) ==> ok
    ensures ok ==> !stream.failed
    ensures forall u :: u in handled ==> Names(stream, u)
  {
    var seen: set<Uid> := {};
    var fallbackAt: int := -1;
    var lastUid: Uid := 0;
    var readErr := false;
    unordered, next := false, 0;
    ghost var order: seq<Uid> := [];
    for i := 0 to |stream.responses|
      invariant order == Firsts(stream.responses[..i], uids)
      invariant Reading(uids, order, seen, lastUid, unordered, next, fallbackAt, readErr)
      invariant Clean(stream) ==> !readErr
    {
      var message := stream.responses[i];
      var uid := message.uid;
      assert stream.responses[..i + 1] == stream.responses[..i] + [message];
      FirstsStep(stream.responses[..i], message, uids);
      if uid in uids && uid !in seen {
        ReadingStep(uids, order, seen, lastUid, unordered, next, fallbackAt, readErr, message);
        order := order + [uid];
        seen := seen + {uid};
        if lastUid != 0 && uid < lastUid {
          unordered := true;
        }
        lastUid := uid;
        if fallbackAt < 0 && !readErr {
          if next >= |uids| || uid != uids[next] {
            fallbackAt := next;
          } else if !message.readable {
            readErr := true;
          } else {
            next := next + 1;
          }
        }
      }
    }
    assert stream.responses[..|stream.responses|] == stream.responses;
    BatchDone(uids, stream, order, next);
    handled := uids[..next];
    ok := !stream.failed && !readErr;
    if ok && fallbackAt < 0 {
      next := |uids|;
    }
  }

  lemma BatchDone(uids: seq<Uid>, stream: Stream, order: seq<Uid>, next: nat)
    requires Ascending(uids) && next <= |uids|
    requires order == Firsts(stream.responses, uids) && uids[..next] <= order
    ensures forall u :: u in uids[..next] ==> Names(stream, u)
    ensures order == uids[..next] ==> forall k :: next <= k < |uids| ==> !Names(stream, uids[k])
  {
    FirstsAre(stream.responses, uids);
    assert forall u :: u in uids[..next] ==> u in order;
    NotRepeated(uids, next);
  }

  lemma NotRepeated(uids: seq<Uid>, n: nat)
    requires Ascending(uids) && n <= |uids|
    ensures forall k :: n <= k < |uids| ==> uids[k] !in uids[..n]
  {
  }

  /** The outcome of asking for one UID: its first response decides. */
  datatype One = Broken | Absent | Got

  function Asked(stream: Stream, u: Uid): One {
    if stream.failed then Broken else AskedFrom(stream.responses, u)
  }

  function AskedFrom(responses: seq<Response>, u: Uid): One {
    if responses == [] then Absent
    else if responses[0].uid == u then if responses[0].readable then Got else Broken
    else AskedFrom(responses[1..], u)
  }

  lemma {:induction false} AskedNames(stream: Stream, u: Uid)
    ensures !stream.failed ==> (Asked(stream, u) == Absent <==> !Names(stream, u))
    ensures Clean(stream) ==> Asked(stream, u) != Broken
    decreases |stream.responses|
  {
    if stream.responses != [] && stream.responses[0].uid != u {
      var rest := Stream(stream.responses[1..], stream.failed);
      AskedNames(rest, u);
      if i :| 0 <= i < |stream.responses| && stream.responses[i].uid == u {
        assert rest.responses[i - 1].uid == u;
      }
    } else if stream.responses != [] {
      assert stream.responses[0].uid == u;
    }
  }

  method FetchOne(stream: Stream, uid: Uid) returns (one: One)
    ensures one == Asked(stream, uid)
  {
    one := Absent;
    for i := 0 to |stream.responses|
      invariant one == Absent ==> AskedFrom(stream.responses, uid) == AskedFrom(stream.responses[i..], uid)
      invariant one != Absent ==> AskedFrom(stream.responses, uid) == one
    {
      if stream.responses[i].uid != uid || one != Absent {
        continue;
      }
      one := if stream.responses[i].readable then Got else Broken;
    }
    if stream.failed {
      one := Broken;
    }
  }

  /** The reference: every UID asked for on its own, up to the first error. */
  function OneAtATime(uids: seq<Uid>, single: Uid -> Stream): seq<Uid> {
    if uids == [] || Asked(single(uids[0]), uids[0]) == Broken then []
    else
      (if Asked(single(uids[0]), uids[0]) == Got then [uids[0]] else []) + OneAtATime(uids[1..], single)
  }

  predicate NoneBroken(uids: seq<Uid>, single: Uid -> Stream) {
    forall i :: 0 <= i < |uids| ==> Asked(single(uids[i]), uids[i]) != Broken
  }

  method FetchRawSequential(uids: seq<Uid>, single: Uid -> Stream) returns (handled: seq<Uid>, ok: bool)
    ensures handled == OneAtATime(uids, single)
    ensures ok == NoneBroken(uids, single)
  {
    handled := [];
    for i := 0 to |uids|
      invariant OneAtATime(uids, single) == handled + OneAtATime(uids[i..], single)
      invariant forall j :: 0 <= j < i ==> Asked(single(uids[j]), uids[j]) != Broken
    {
      var one := FetchOne(single(uids[i]), uids[i]);
      assert uids[i..][0] == uids[i] && uids[i..][1..] == uids[i + 1..];
      if one == Broken {
        return handled, false;
      }
      if one == Got {
        handled := handled + [uids[i]];
      }
    }
    ok := true;
  }

  lemma {:induction false} OneAtATimeIn(uids: seq<Uid>, single: Uid -> Stream)
    ensures forall u :: u in OneAtATime(uids, single) ==> u in uids && Asked(single(u), u) == Got
    ensures NoneBroken(uids, single) ==>
              forall u :: u in uids && Asked(single(u), u) == Got ==> u in OneAtATime(uids, single)
  {
    if uids != [] {
      var rest := uids[1..];
      assert forall i :: 0 <= i < |rest| ==> rest[i] == uids[i + 1];
      OneAtATimeIn(rest, single);
      assert forall u :: u in uids <==> u == uids[0] || u in rest;
    }
  }

  lemma {:induction false} OneAtATimeIs(uids: seq<Uid>, single: Uid -> Stream)
    requires Ascending(uids)
    ensures Ascending(OneAtATime(uids, single))
    ensures forall u :: u in OneAtATime(uids, single) ==> u in uids && Asked(single(u), u) == Got
    ensures NoneBroken(uids, single) ==>
              forall u :: u in uids && Asked(single(u), u) == Got ==> u in OneAtATime(uids, single)
  {
    OneAtATimeIn(uids, single);
    if uids != [] {
      var rest := uids[1..];
      assert forall i :: 0 <= i < |rest| ==> rest[i] == uids[i + 1];
      OneAtATimeIs(rest, single);
      var r := OneAtATime(rest, single);
      forall i | 0 <= i < |r| ensures uids[0] < r[i] {
        assert r[i] in r;
        var k :| 0 <= k < |rest| && rest[k] == r[i];
      }
    }
  }

  /** The requested UIDs, sorted and without repetitions. */
  function Ordered(uids: seq<Uid>): seq<Uid> {
    Compact(Sort(uids, Leq))
  }

  lemma {:induction false} KeepsGot(uids: seq<Uid>, h: nat, single: Uid -> Stream)
    requires h <= |uids|
    requires forall k :: 0 <= k < h ==> Asked(single(uids[k]), uids[k]) == Got
    ensures OneAtATime(uids, single) == uids[..h] + OneAtATime(uids[h..], single)
  {
    if h == 0 {
      assert uids[0..] == uids;
    } else {
      var rest := uids[1..];
      KeepsGot(rest, h - 1, single);
      assert rest[h - 1..] == uids[h..];
      assert uids[..h] == [uids[0]] + rest[..h - 1];
    }
  }

  lemma {:induction false} SkipsAbsent(uids: seq<Uid>, h: nat, n: nat, single: Uid -> Stream)
    requires h <= n <= |uids|
    requires forall k :: h <= k < n ==> Asked(single(uids[k]), uids[k]) == Absent
    ensures OneAtATime(uids[h..], single) == OneAtATime(uids[n..], single)
    decreases n - h
  {
    if h < n {
      SkipsAbsent(uids, h + 1, n, single);
      assert uids[h..][0] == uids[h] && uids[h..][1..] == uids[h + 1..];
    }
  }

  /** Single requests end without an error and agree with the batch on what exists. */
  ghost predicate Agree(uids: seq<Uid>, stream: Stream, single: Uid -> Stream) {
    forall u :: u in uids ==> Clean(single(u)) && (Names(stream, u) <==> Names(single(u), u))
  }

  /** What a FETCH promises, whatever the server sends: the messages handed over come in
      strictly ascending order, each at most once and only if asked for and named; without
      an error none is missed that the server shows in both kinds of request; and where
      the two agree, the result is that of asking one by one. */
  ghost predicate Fetched(uids: seq<Uid>, stream: Stream, single: Uid -> Stream, handled: seq<Uid>, ok: bool) {
    && Ascending(handled)
    && (forall u :: u in handled ==> u in uids && (Names(stream, u) || Names(single(u), u)))
    && (ok ==> forall u :: u in uids && Shown(stream, u) && Shown(single(u), u) ==> u in handled)
    && (ok && Agree(uids, stream, single) ==> handled == OneAtATime(uids, single))
  }

  lemma GotNames(single: Uid -> Stream, u: Uid)
    ensures Asked(single(u), u) == Got ==> Names(single(u), u)
    ensures Asked(single(u), u) != Broken && Shown(single(u), u) ==> Asked(single(u), u) == Got
  {
    AskedNames(single(u), u);
  }

  lemma SingleFetched(uids: seq<Uid>, stream: Stream, single: Uid -> Stream)
    requires Ascending(uids)
    ensures Fetched(uids, stream, single, OneAtATime(uids, single), NoneBroken(uids, single))
  {
    OneAtATimeIs(uids, single);
    forall u
      ensures Asked(single(u), u) == Got ==> Names(single(u), u)
      ensures Asked(single(u), u) != Broken && Shown(single(u), u) ==> Asked(single(u), u) == Got
    {
      GotNames(single, u);
    }
  }

  /** A batch whose first h messages came in order and whose next ones up to n are gone,
      followed by single requests for the rest. */
  lemma PiecesAscend(uids: seq<Uid>, single: Uid -> Stream, h: nat, n: nat)
    requires Ascending(uids) && h <= n <= |uids|
    ensures Ascending(uids[..h] + OneAtATime(uids[n..], single))
    ensures forall u :: u in uids[..h] + OneAtATime(uids[n..], single) ==> u in uids
  {
    var rest := uids[n..];
    OneAtATimeIs(rest, single);
    var all := uids[..h] + OneAtATime(rest, single);
    forall i, j | 0 <= i < j < |all| ensures all[i] < all[j] {
      if i < h <= j {
        assert all[j] in rest;
        var k :| 0 <= k < |rest| && rest[k] == all[j];
        assert uids[n + k] == all[j];
      }
    }
  }

  lemma PiecesComplete(uids: seq<Uid>, stream: Stream, single: Uid -> Stream, h: nat, n: nat, u: Uid)
    requires Ascending(uids) && h <= n <= |uids| && u in uids
    requires forall k :: h <= k < n ==> !Names(stream, uids[k])
    requires NoneBroken(uids[n..], single) && !stream.failed
    requires Shown(stream, u) && Shown(single(u), u)
    ensures u in uids[..h] + OneAtATime(uids[n..], single)
  {
    var k :| 0 <= k < |uids| && uids[k] == u;
    OneAtATimeIs(uids[n..], single);
    if k < h {
      assert uids[..h][k] == u;
    } else {
      assert k >= n && uids[n..][k - n] == u;
      GotNames(single, u);
    }
  }

  lemma PiecesAsked(uids: seq<Uid>, single: Uid -> Stream, h: nat, n: nat)
    requires h <= n <= |uids|
    requires forall k :: 0 <= k < h ==> Asked(single(uids[k]), uids[k]) == Got
    requires forall k :: h <= k < n ==> Asked(single(uids[k]), uids[k]) == Absent
    ensures uids[..h] + OneAtATime(uids[n..], single) == OneAtATime(uids, single)
  {
    KeepsGot(uids, h, single);
    SkipsAbsent(uids, h, n, single);
  }

  lemma PiecesAgree(uids: seq<Uid>, stream: Stream, single: Uid -> Stream, h: nat, n: nat)
    requires h <= n <= |uids|
    requires forall k :: 0 <= k < h ==> Names(stream, uids[k])
    requires forall k :: h <= k < n ==> !Names(stream, uids[k])
    requires Agree(uids, stream, single)
    ensures uids[..h] + OneAtATime(uids[n..], single) == OneAtATime(uids, single)
  {
    forall k | 0 <= k < n ensures Asked(single(uids[k]), uids[k]) == if k < h then Got else Absent {
      AgreedOn(uids, stream, single, k);
    }
    PiecesAsked(uids, single, h, n);
  }

  lemma AgreedOn(uids: seq<Uid>, stream: Stream, single: Uid -> Stream, k: nat)
    requires k < |uids| && Agree(uids, stream, single)
    ensures Asked(single(uids[k]), uids[k]) == if Names(stream, uids[k]) then Got else Absent
  {
    assert uids[k] in uids;
    AskedNames(single(uids[k]), uids[k]);
  }

  lemma PiecesFetched(uids: seq<Uid>, stream: Stream, single: Uid -> Stream, h: nat, n: nat, ok: bool)
    requires Ascending(uids) && h <= n <= |uids|
    requires forall k :: 0 <= k < h ==> Names(stream, uids[k])
    requires ok ==> NoneBroken(uids[n..], single) && !stream.failed && forall k :: h <= k < n ==>
               !Names(stream, uids[k])
    ensures Fetched(uids, stream, single, uids[..h] + OneAtATime(uids[n..], single), ok)
  {
    var handled := uids[..h] + OneAtATime(uids[n..], single);
    PiecesAscend(uids, single, h, n);
    OneAtATimeIs(uids[n..], single);
    forall u | u in handled ensures Names(stream, u) || Names(single(u), u) {
      if u in uids[..h] {
        var k :| 0 <= k < h && uids[k] == u;
      } else {
        GotNames(single, u);
      }
    }
    if ok {
      forall u | u in uids && Shown(stream, u) && Shown(single(u), u) ensures u in handled {
        PiecesComplete(uids, stream, single, h, n, u);
      }
      if Agree(uids, stream, single) {
        PiecesAgree(uids, stream, single, h, n);
      }
    }
  }

  /** One FETCH in the given mode, for UIDs in any order. The mode becomes sequential
      only after a response whose requested UIDs did not ascend, and then stays. */
  method FetchAdaptive(uids: seq<Uid>, sequential: bool, batch: seq<Uid> -> Stream, single: Uid -> Stream)
    returns (handled: seq<Uid>, ok: bool, mode: bool)
    ensures Fetched(Ordered(uids), batch(Ordered(uids)), single, handled, ok)
    ensures Clean(batch(Ordered(uids))) && NoneBroken(Ordered(uids), single) ==> ok
    ensures mode <==> sequential || (uids != [] && !Ascending(Firsts(batch(Ordered(uids)).responses, Ordered(uids))))
  {
    mode := sequential;
    var ordered := Ordered(uids);
    SortedUids(uids);
    if |uids| == 0 {
      return [], true, mode;
    }
    if sequential {
      handled, ok := FetchRawSequential(ordered, single);
      SingleFetched(ordered, batch(ordered), single);
      return;
    }
    handled, ok, mode := FetchInBatch(ordered, batch(ordered), single);
  }

  method FetchInBatch(ordered: seq<Uid>, stream: Stream, single: Uid -> Stream)
    returns (handled: seq<Uid>, ok: bool, mode: bool)
    requires Ascending(ordered)
    ensures Fetched(ordered, stream, single, handled, ok)
    ensures Clean(stream) && NoneBroken(ordered, single) ==> ok
    ensures mode <==> !Ascending(Firsts(stream.responses, ordered))
  {
    var next;
    handled, next, mode, ok := FetchRawBatch(ordered, stream);
    FirstsAre(stream.responses, ordered);
    DescendsIsReal(Firsts(stream.responses, ordered));
    ghost var h := |handled|;
    assert handled == ordered[..h] && forall k :: 0 <= k < h ==> ordered[k] in handled;
    if !ok || next >= |ordered| {
      PiecesFetched(ordered, stream, single, h, |ordered|, ok);
      assert OneAtATime(ordered[|ordered|..], single) == [];
      return;
    }
    var rest;
    rest, ok := FetchRawSequential(ordered[next..], single);
    handled := handled + rest;
    PiecesFetched(ordered, stream, single, h, next, ok);
  }

  class Session {
    var sequentialFetch: bool

    constructor ()
      ensures !sequentialFetch
    {
      sequentialFetch := false;
    }

    method FetchRaw(uids: seq<Uid>, batch: seq<Uid> -> Stream, single: Uid -> Stream)
      returns (handled: seq<Uid>, ok: bool)
      modifies this
      ensures Fetched(Ordered(uids), batch(Ordered(uids)), single, handled, ok)
      ensures Clean(batch(Ordered(uids))) && NoneBroken(Ordered(uids), single) ==> ok
      ensures sequentialFetch <==>
                old(sequentialFetch)
                  || (uids != [] && !Ascending(Firsts(batch(Ordered(uids)).responses, Ordered(uids))))
    {
      handled, ok, sequentialFetch := FetchAdaptive(uids, sequentialFetch, batch, single);
    }
  }
}
