/** The thread a new email joins. */
module Threading {
  import opened Options
  import opened Messages

  /** The emails named as predecessors, the vaguest first: the references, the email
      answered, and the one a bounce is about. */
  function Ancestry(p: Parsed): seq<string> {
    p.references
    + (if p.inReplyTo != "" then [p.inReplyTo] else [])
    + (if p.bounceOriginal != "" then [p.bounceOriginal] else [])
  }

  /** Each value once, at its last occurrence. */
  function KeptLast(values: seq<string>): seq<string> {
    if values == [] then []
    else if values[0] in values[1..] then KeptLast(values[1..])
    else [values[0]] + KeptLast(values[1..])
  }

  function LastIndex(values: seq<string>, v: string): (i: nat)
    requires v in values
    ensures i < |values| && values[i] == v
    ensures forall j :: i < j < |values| ==> values[j] != v
  {
    var last := |values| - 1;
    if values[last] == v then last
    else
      assert values == values[..last] + [values[last]];
      LastIndex(values[..last], v)
  }

  /** The last position of every value. */
  method LastPositions(values: seq<string>) returns (strongest: map<string, nat>)
    ensures forall v :: v in strongest <==> v in values
    ensures forall j :: 0 <= j < |values| ==>
              j <= strongest[values[j]] < |values| && values[strongest[values[j]]] == values[j]
  {
    strongest := map[];
    for i := 0 to |values|
      invariant forall v :: v in strongest <==> v in values[..i]
      invariant forall v :: v in strongest ==> strongest[v] < i && values[strongest[v]] == v
      invariant forall j :: 0 <= j < i ==> j <= strongest[values[j]]
    {
      assert values[..i + 1] == values[..i] + [values[i]];
      strongest := strongest[values[i] := i];
    }
    assert values[..|values|] == values;
  }

  method KeepLastOccurrence(values: seq<string>) returns (result: seq<string>)
    ensures result == KeptLast(values)
  {
    var strongest := LastPositions(values);
    result := [];
    for i := 0 to |values|
      invariant result + KeptLast(values[i..]) == KeptLast(values)
    {
      var last := strongest[values[i]];
      LastIsLast(values, strongest, i);
      KeptStep(values, i, last);
      Regroup(result, if last == i then [values[i]] else [], KeptLast(values[i + 1..]));
      if last == i {
        result := result + [values[i]];
      }
    }
  }

  lemma LastIsLast(values: seq<string>, strongest: map<string, nat>, i: nat)
    requires i < |values| && forall v :: v in strongest <==> v in values
    requires forall j :: 0 <= j < |values| ==>
               j <= strongest[values[j]] < |values| && values[strongest[values[j]]] == values[j]
    ensures forall j :: strongest[values[i]] < j < |values| ==> values[j] != values[i]
  {
  }

  lemma Regroup(a: seq<string>, b: seq<string>, c: seq<string>)
    ensures a + (b + c) == a + b + c && (b == [] ==> a + (b + c) == a + c)
  {
  }

  lemma KeptStep(values: seq<string>, i: nat, last: nat)
    requires i <= last < |values| && values[last] == values[i]
    requires forall j :: last < j < |values| ==> values[j] != values[i]
    ensures KeptLast(values[i..]) == (if last == i then [values[i]] else []) + KeptLast(values[i + 1..])
  {
    var rest := values[i..];
    assert rest[0] == values[i] && rest[1..] == values[i + 1..];
    if last > i {
      assert values[i + 1..][last - i - 1] == values[i];
    } else {
      assert values[i] !in values[i + 1..];
    }
  }

  lemma LastIndexTail(values: seq<string>, v: string)
    requires values != [] && v in values[1..]
    ensures LastIndex(values, v) == LastIndex(values[1..], v) + 1
  {
    var i := LastIndex(values[1..], v);
    assert values[i + 1] == v;
    forall j | i + 1 < j < |values| ensures values[j] != v {
      assert values[1..][j - 1] == values[j];
    }
  }

  /** The values that are kept are all the values, in the order of their last occurrence. */
  lemma {:induction false} KeptLastIs(values: seq<string>)
    ensures forall v :: v in KeptLast(values) <==> v in values
    ensures forall i, j :: 0 <= i < j < |KeptLast(values)| ==>
              LastIndex(values, KeptLast(values)[i]) < LastIndex(values, KeptLast(values)[j])
  {
    if values != [] {
      var rest := values[1..];
      var kept, tail := KeptLast(values), KeptLast(rest);
      KeptLastIs(rest);
      assert forall v :: v in values <==> v == values[0] || v in rest;
      forall i, j | 0 <= i < j < |kept| ensures LastIndex(values, kept[i]) < LastIndex(values, kept[j]) {
        var shift := |kept| - |tail|;
        assert kept[j] == tail[j - shift];
        LastIndexTail(values, kept[j]);
        if i >= shift {
          assert kept[i] == tail[i - shift];
          LastIndexTail(values, kept[i]);
        } else {
          assert kept[i] == values[0] && values[0] !in rest;
        }
      }
    }
  }

  // ---------------------------------------------------------------------------
  // The lookups.

  datatype Lookup = Lookup(scope: Scope, onlyRegular: bool)

  /** A stored message whose thread the lookup may return. */
  predicate InLookup(threads: seq<Thread>, l: Lookup, m: Message) {
    Joined(threads, m) && m.scope == l.scope && (l.onlyRegular ==> threads[m.thread].kind.RegularThread?)
  }

  /** array_position: the first position of a value. */
  function ArrayPosition(ids: seq<string>, v: string): (i: nat)
    requires v in ids
    ensures i < |ids| && ids[i] == v && forall j :: 0 <= j < i ==> ids[j] != v
  {
    if ids[0] == v then 0 else ArrayPosition(ids[1..], v) + 1
  }

  predicate Named(db: Db, l: Lookup, ids: seq<string>, m: nat) {
    m < |db.messages| && InLookup(db.threads, l, db.messages[m]) && db.messages[m].messageId in ids
  }

  /** Of the first n rows, the one whose id stands last in the list. */
  function HighestNamed(db: Db, l: Lookup, ids: seq<string>, n: nat): (r: Option<nat>)
    requires n <= |db.messages|
    ensures r.None? ==> forall m :: 0 <= m < n ==> !Named(db, l, ids, m)
    ensures r.Some? ==> r.value < n && Named(db, l, ids, r.value)
    ensures r.Some? ==> forall m :: 0 <= m < n && Named(db, l, ids, m) ==>
              ArrayPosition(ids, db.messages[m].messageId) <= ArrayPosition(ids, db.messages[r.value].messageId)
  {
    if n == 0 then None
    else
      var r := HighestNamed(db, l, ids, n - 1);
      if !Named(db, l, ids, n - 1) then r
      else if r.None? then Some(n - 1)
      else if ArrayPosition(ids, db.messages[r.value].messageId) < ArrayPosition(ids, db.messages[n - 1].messageId)
      then Some(n - 1)
      else r
  }

  function LocateByMessageIds(db: Db, l: Lookup, ids: seq<string>): Option<nat> {
    var r := HighestNamed(db, l, ids, |db.messages|);
    if r.None? then None else Some(db.messages[r.value].thread)
  }

  predicate Replies(db: Db, l: Lookup, parent: string, m: nat) {
    m < |db.messages| && InLookup(db.threads, l, db.messages[m]) && db.messages[m].inReplyTo == parent
  }

  /** ORDER BY (t.kind <> 'regular'), m.received_at, m.id. */
  predicate Before(db: Db, a: nat, b: nat)
    requires a < |db.messages| && b < |db.messages|
    requires Joined(db.threads, db.messages[a]) && Joined(db.threads, db.messages[b])
  {
    var regularA := db.threads[db.messages[a].thread].kind.RegularThread?;
    var regularB := db.threads[db.messages[b].thread].kind.RegularThread?;
    if regularA != regularB then regularA
    else if db.messages[a].receivedAt != db.messages[b].receivedAt
      then db.messages[a].receivedAt < db.messages[b].receivedAt
    else a <= b
  }

  function FirstReply(db: Db, l: Lookup, parent: string, n: nat): (r: Option<nat>)
    requires n <= |db.messages|
    ensures r.None? ==> forall m :: 0 <= m < n ==> !Replies(db, l, parent, m)
    ensures r.Some? ==> r.value < n && Replies(db, l, parent, r.value)
    ensures r.Some? ==> forall m :: 0 <= m < n && Replies(db, l, parent, m) ==> Before(db, r.value, m)
  {
    if n == 0 then None
    else
      var r := FirstReply(db, l, parent, n - 1);
      if !Replies(db, l, parent, n - 1) then r
      else if r.None? || !Before(db, r.value, n - 1) then Some(n - 1)
      else r
  }

  /** An absent In-Reply-To is stored as NULL and never matches. */
  function LocateByInReplyTo(db: Db, l: Lookup, parent: string): Option<nat> {
    if parent == "" then None
    else
      var r := FirstReply(db, l, parent, |db.messages|);
      if r.None? then None else Some(db.messages[r.value].thread)
  }

  function LookupOf(p: Parsed): Lookup {
    Lookup(p.place.scope, p.kind.Regular?)
  }

  /** Predecessors come first, then other replies to the same email, then replies to this one. */
  function ResolveThread(db: Db, p: Parsed): Option<nat> {
    var ancestor := LocateByMessageIds(db, LookupOf(p), KeptLast(Ancestry(p)));
    if ancestor.Some? then ancestor
    else
      var sibling := LocateByInReplyTo(db, LookupOf(p), p.inReplyTo);
      if sibling.Some? then sibling
      else if p.generated then None
      else LocateByInReplyTo(db, LookupOf(p), p.messageId)
  }

  function NewThread(p: Parsed): Thread {
    if p.kind.Regular? then Thread(p.place.scope, RegularThread, Pending, None)
    else Thread(p.place.scope, ServiceThread, NotApplicable, None)
  }

  // ---------------------------------------------------------------------------
  // What the lookups choose.

  lemma PositionIsOrder(values: seq<string>, a: string, b: string)
    requires a in values && b in values
    ensures a in KeptLast(values) && b in KeptLast(values)
    ensures ArrayPosition(KeptLast(values), a) <= ArrayPosition(KeptLast(values), b) <==>
              LastIndex(values, a) <= LastIndex(values, b)
  {
    KeptLastIs(values);
    InOrder(values, KeptLast(values), ArrayPosition(KeptLast(values), a), ArrayPosition(KeptLast(values), b));
  }

  lemma InOrder(values: seq<string>, kept: seq<string>, i: nat, j: nat)
    requires i < |kept| && j < |kept| && forall v :: v in kept ==> v in values
    requires forall i, j :: 0 <= i < j < |kept| ==> LastIndex(values, kept[i]) < LastIndex(values, kept[j])
    ensures i <= j <==> LastIndex(values, kept[i]) <= LastIndex(values, kept[j])
  {
  }

  /** The email names an identifier as a predecessor. */
  predicate Mentions(p: Parsed, id: string) {
    id in p.references || id == p.inReplyTo != "" || id == p.bounceOriginal != ""
  }

  /** The email a bounce is about is the strongest, then the email that is answered, then
      the references from the last one on. */
  function Strength(p: Parsed, id: string): nat
    requires Mentions(p, id)
  {
    if id == p.bounceOriginal != "" then |p.references| + 1
    else if id == p.inReplyTo != "" then |p.references|
    else LastIndex(p.references, id)
  }

  /** A stored message of the scope that the email names, for an ordinary email in an
      ordinary thread. */
  ghost predicate Ancestor(db: Db, p: Parsed, m: nat) {
    && m < |db.messages| && db.messages[m].scope == p.place.scope && Joined(db.threads, db.messages[m])
    && (p.kind.Regular? ==> db.threads[db.messages[m].thread].kind.RegularThread?)
    && Mentions(p, db.messages[m].messageId)
  }

  lemma LastIndexIs(values: seq<string>, v: string, i: nat)
    requires i < |values| && values[i] == v && forall j :: i < j < |values| ==> values[j] != v
    ensures v in values && LastIndex(values, v) == i
  {
    assert values[i] in values;
  }

  /** The place of an identifier in the raw list is its strength, but for a gap where no
      email is answered. */
  lemma StrengthIs(p: Parsed, id: string)
    requires Mentions(p, id)
    ensures id in Ancestry(p)
    ensures var gap := if id == p.bounceOriginal != "" && p.inReplyTo == "" then 1 else 0;
            LastIndex(Ancestry(p), id) == Strength(p, id) - gap
  {
    var raw, n := Ancestry(p), |p.references|;
    if id == p.bounceOriginal != "" {
      LastIndexIs(raw, id, |raw| - 1);
    } else if id == p.inReplyTo != "" {
      LastIndexIs(raw, id, n);
    } else {
      LastIndexIs(raw, id, LastIndex(p.references, id));
    }
  }

  lemma AncestorNamed(db: Db, p: Parsed, m: nat)
    ensures Ancestor(db, p, m) <==> Named(db, LookupOf(p), Ancestry(p), m)
  {
    if m < |db.messages| && Mentions(p, db.messages[m].messageId) {
      StrengthIs(p, db.messages[m].messageId);
    }
  }

  lemma InRawOrder(p: Parsed, a: string, b: string)
    requires Mentions(p, a) && Mentions(p, b)
    ensures a in Ancestry(p) && b in Ancestry(p)
    ensures LastIndex(Ancestry(p), a) <= LastIndex(Ancestry(p), b) <==> Strength(p, a) <= Strength(p, b)
  {
    StrengthIs(p, a);
    StrengthIs(p, b);
  }

  /** Threading priority: an email with a stored ancestor joins the thread of the strongest
      one, however often it is named. */
  lemma LastAncestorDecides(db: Db, p: Parsed)
    ensures (exists m: nat :: Ancestor(db, p, m)) ==>
              exists m: nat :: Ancestor(db, p, m) && ResolveThread(db, p) == Some(db.messages[m].thread)
                && forall o: nat :: Ancestor(db, p, o) ==>
                     Strength(p, db.messages[o].messageId) <= Strength(p, db.messages[m].messageId)
  {
    var raw := Ancestry(p);
    var l, ids := LookupOf(p), KeptLast(raw);
    KeptLastIs(raw);
    var r := HighestNamed(db, l, ids, |db.messages|);
    if o: nat :| Ancestor(db, p, o) {
      AncestorNamed(db, p, o);
      assert Named(db, l, ids, o);
      var m := r.value;
      AncestorNamed(db, p, m);
      forall o: nat | Ancestor(db, p, o)
        ensures Strength(p, db.messages[o].messageId) <= Strength(p, db.messages[m].messageId)
      {
        AncestorNamed(db, p, o);
        assert Named(db, l, ids, o);
        PositionIsOrder(raw, db.messages[o].messageId, db.messages[m].messageId);
        InRawOrder(p, db.messages[o].messageId, db.messages[m].messageId);
      }
    }
  }

  /** A stored message, in the scope of the email and for an ordinary email in an ordinary
      thread, that answers the given one. */
  predicate AnswersTo(db: Db, p: Parsed, parent: string, m: nat) {
    && m < |db.messages| && db.messages[m].inReplyTo == parent != ""
    && db.messages[m].scope == p.place.scope && Joined(db.threads, db.messages[m])
    && (p.kind.Regular? ==> db.threads[db.messages[m].thread].kind.RegularThread?)
  }

  /** One in an ordinary thread comes first, then the one received first, then the one
      stored first. */
  ghost predicate Earliest(db: Db, p: Parsed, parent: string, m: nat) {
    && AnswersTo(db, p, parent, m)
    && forall o: nat :: AnswersTo(db, p, parent, o) ==>
         var regular := db.threads[db.messages[m].thread].kind.RegularThread?;
         var other := db.threads[db.messages[o].thread].kind.RegularThread?;
         && (other ==> regular)
         && (other == regular ==> db.messages[m].receivedAt <= db.messages[o].receivedAt)
         && (other == regular && db.messages[m].receivedAt == db.messages[o].receivedAt ==> m <= o)
  }

  lemma ReplyIsEarliest(db: Db, p: Parsed, parent: string)
    ensures var t := LocateByInReplyTo(db, LookupOf(p), parent);
            && (t.None? ==> forall m: nat :: !AnswersTo(db, p, parent, m))
            && (t.Some? ==> exists m: nat :: Earliest(db, p, parent, m) && t.value == db.messages[m].thread)
  {
    var l := LookupOf(p);
    assert forall m: nat :: AnswersTo(db, p, parent, m) ==> Replies(db, l, parent, m);
    if LocateByInReplyTo(db, l, parent).Some? {
      var m := FirstReply(db, l, parent, |db.messages|).value;
      assert AnswersTo(db, p, parent, m);
      assert Earliest(db, p, parent, m);
    }
  }

  /** Without a stored ancestor, the earliest reply to the same parent decides, then the
      earliest reply to the email itself, which nothing can name if its identifier was
      generated; only then a new thread is opened. */
  lemma RepliesDecide(db: Db, p: Parsed)
    requires forall m: nat :: !Ancestor(db, p, m)
    ensures (exists m: nat :: AnswersTo(db, p, p.inReplyTo, m)) ==>
              exists m: nat :: Earliest(db, p, p.inReplyTo, m) && ResolveThread(db, p) == Some(db.messages[m].thread)
    ensures (forall m: nat :: !AnswersTo(db, p, p.inReplyTo, m)) ==>
              && ((exists m: nat :: !p.generated && AnswersTo(db, p, p.messageId, m)) ==>
                    exists m: nat ::
                      Earliest(db, p, p.messageId, m) && ResolveThread(db, p) == Some(db.messages[m].thread))
              && ((forall m: nat :: p.generated || !AnswersTo(db, p, p.messageId, m)) ==> ResolveThread(db, p) == None)
  {
    NoAncestorFound(db, p);
    ReplyIsEarliest(db, p, p.inReplyTo);
    ReplyIsEarliest(db, p, p.messageId);
  }

  lemma NoAncestorFound(db: Db, p: Parsed)
    requires forall m: nat :: !Ancestor(db, p, m)
    ensures LocateByMessageIds(db, LookupOf(p), KeptLast(Ancestry(p))) == None
  {
    var raw := Ancestry(p);
    KeptLastIs(raw);
    var r := HighestNamed(db, LookupOf(p), KeptLast(raw), |db.messages|);
    if r.Some? {
      AncestorNamed(db, p, r.value);
    }
  }

  /** The thread found is one of the scope, and an ordinary email never joins a service
      thread. */
  lemma ResolvedInScope(db: Db, p: Parsed)
    requires ResolveThread(db, p).Some?
    ensures var t := ResolveThread(db, p).value;
            t < |db.threads| && db.threads[t].scope == p.place.scope
              && (p.kind.Regular? ==> db.threads[t].kind.RegularThread?)
  {
  }
}
