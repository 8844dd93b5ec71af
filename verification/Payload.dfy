/** The payload of an event: built from stored rows, truncated and never too long. */
module Payload {
  import opened Options
  import opened Ordering
  import opened Utf8
  import opened Cleaning
  import opened Event

  datatype RecipientKind = From | Sender | ReplyTo | To | Cc | Bcc

  datatype Recipient = Recipient(kind: RecipientKind, address: seq<Byte>, name: seq<Byte>, ordinal: int)

  datatype PartRow = PartRow(
    stored: bool, file: Option<int>, attached: bool, name: seq<Byte>, mime: seq<Byte>, size: int, position: int)

  datatype ThreadRow = ThreadRow(id: int, domainId: int, profileId: int, regular: bool, contactId: Option<int>)

  datatype MessageRow = MessageRow(
    id: int, domainId: int, profileId: int, threadId: int, inbound: bool, regular: bool,
    messageId: seq<Byte>, inReplyTo: seq<Byte>, subject: seq<Byte>, textBody: seq<Byte>, receivedAt: Instant)

  datatype Source = Source(
    occurredAt: Instant, flowId: Option<int>, thread: ThreadRow, message: MessageRow,
    recipients: seq<Recipient>, attachments: seq<PartRow>)

  // ---------------------------------------------------------------------------
  // Selecting and ordering rows.

  function Select<T>(s: seq<T>, keep: T -> bool): seq<T> {
    if s == [] then [] else (if keep(s[0]) then [s[0]] else []) + Select(s[1..], keep)
  }

  method Filter<T>(s: seq<T>, keep: T -> bool) returns (r: seq<T>)
    ensures r == Select(s, keep)
  {
    r := [];
    for i := 0 to |s|
      invariant r + Select(s[i..], keep) == Select(s, keep)
    {
      assert s[i..][0] == s[i] && s[i..][1..] == s[i + 1..];
      if keep(s[i]) {
        assert r + ([s[i]] + Select(s[i + 1..], keep)) == r + [s[i]] + Select(s[i + 1..], keep);
        r := r + [s[i]];
      }
    }
  }

  lemma SelectCons<T>(x: T, s: seq<T>, keep: T -> bool)
    ensures Select([x] + s, keep) == (if keep(x) then [x] else []) + Select(s, keep)
  {
    assert ([x] + s)[1..] == s;
  }

  /** Equivalent rows keep their order. */
  lemma {:induction false} InsertStable<T(!new)>(x: T, s: seq<T>, leq: (T, T) -> bool, same: T -> bool)
    requires forall a, b :: same(a) && same(b) ==> leq(a, b)
    ensures Select(Insert(x, s, leq), same) == (if same(x) then [x] else []) + Select(s, same)
  {
    if s == [] || leq(x, s[0]) {
      SelectCons(x, s, same);
    } else {
      var rest := Insert(x, s[1..], leq);
      InsertStable(x, s[1..], leq, same);
      SelectCons(s[0], rest, same);
      OneEmpty(if same(s[0]) then [s[0]] else [], if same(x) then [x] else [], Select(s[1..], same));
    }
  }

  lemma OneEmpty<T>(a: seq<T>, b: seq<T>, s: seq<T>)
    requires a == [] || b == []
    ensures a + (b + s) == b + (a + s)
  {
  }

  lemma {:induction false} SortStable<T(!new)>(s: seq<T>, leq: (T, T) -> bool, same: T -> bool)
    requires forall a, b :: same(a) && same(b) ==> leq(a, b)
    ensures Select(Sort(s, leq), same) == Select(s, same)
  {
    if s != [] {
      SortStable(s[1..], leq, same);
      InsertStable(s[0], Sort(s[1..], leq), leq, same);
    }
  }

  predicate ByOrdinal(a: Recipient, b: Recipient) {
    a.ordinal <= b.ordinal
  }

  predicate ByPosition(a: PartRow, b: PartRow) {
    a.position <= b.position
  }

  /** The order of a header: ascending ordinals, nothing lost or added, and rows with the
      same ordinal as they were listed. */
  lemma OrdinalOrder(rs: seq<Recipient>, ordinal: int)
    ensures SortedBy(Sort(rs, ByOrdinal), ByOrdinal) && multiset(Sort(rs, ByOrdinal)) == multiset(rs)
    ensures Select(Sort(rs, ByOrdinal), (r: Recipient) => r.ordinal == ordinal)
              == Select(rs, (r: Recipient) => r.ordinal == ordinal)
  {
    assert TotalPreorder(ByOrdinal);
    SortSorted(rs, ByOrdinal);
    SortStable(rs, ByOrdinal, (r: Recipient) => r.ordinal == ordinal);
  }

  lemma PositionOrder(ps: seq<PartRow>, position: int)
    ensures SortedBy(Sort(ps, ByPosition), ByPosition) && multiset(Sort(ps, ByPosition)) == multiset(ps)
    ensures Select(Sort(ps, ByPosition), (p: PartRow) => p.position == position)
              == Select(ps, (p: PartRow) => p.position == position)
  {
    assert TotalPreorder(ByPosition);
    SortSorted(ps, ByPosition);
    SortStable(ps, ByPosition, (p: PartRow) => p.position == position);
  }

  function Taken<T>(s: seq<T>, n: nat): seq<T> {
    if |s| > n then s[..n] else s
  }

  // ---------------------------------------------------------------------------
  // The lists of an event.

  function AddressOf(r: Recipient): Address {
    Address(Text(r.address, MAX_ADDRESS, true), Text(r.name, MAX_DISPLAY_NAME, true))
  }

  predicate AddressCut(r: Recipient) {
    WasCut(r.address, MAX_ADDRESS, true) || WasCut(r.name, MAX_DISPLAY_NAME, true)
  }

  /** The rows of one header in its order. */
  function Header(rs: seq<Recipient>, kind: RecipientKind): seq<Recipient> {
    Sort(Select(rs, (r: Recipient) => r.kind == kind), ByOrdinal)
  }

  /** The first addresses of a header; the flag tells whether an address is missing, or a
      part of one that is there. */
  function AddressesOf(rs: seq<Recipient>, kind: RecipientKind, limit: nat): List<Address> {
    var all := Header(rs, kind);
    var kept := Taken(all, limit);
    List(seq(|kept|, i requires 0 <= i < |kept| => AddressOf(kept[i])),
         |all| > limit || exists i :: 0 <= i < |kept| && AddressCut(kept[i]))
  }

  function OfOrdinal(rs: seq<Recipient>, kind: RecipientKind, ordinal: int): seq<Recipient> {
    Select(rs, (r: Recipient) => r.kind == kind && r.ordinal == ordinal)
  }

  /** All the rows of one kind by ascending ordinals, those of one ordinal as they are listed. */
  ghost predicate InOrder(all: seq<Recipient>, rs: seq<Recipient>, kind: RecipientKind) {
    && (forall i :: 0 <= i < |all| ==> all[i].kind == kind)
    && (forall i, j :: 0 <= i < j < |all| ==> all[i].ordinal <= all[j].ordinal)
    && (forall ordinal :: OfOrdinal(all, kind, ordinal) == OfOrdinal(rs, kind, ordinal))
  }

  /** The list has the first rows, address by address and name by name; the flag is set for
      a row that is missing, and for one that was cut. */
  ghost predicate ListsFirst(l: List<Address>, all: seq<Recipient>, limit: nat) {
    && |l.items| == (if |all| < limit then |all| else limit)
    && (forall i :: 0 <= i < |l.items| ==>
          && l.items[i].address == Text(all[i].address, 320, true) && l.items[i].name == Text(all[i].name, 256, true))
    && (l.truncated <==>
          || limit < |all|
          || exists i :: 0 <= i < |l.items| && (WasCut(all[i].address, 320, true) || WasCut(all[i].name, 256, true)))
  }

  ghost predicate ShowsHeader(l: List<Address>, rs: seq<Recipient>, kind: RecipientKind, limit: nat) {
    exists all :: InOrder(all, rs, kind) && ListsFirst(l, all, limit)
  }

  lemma {:induction false} SelectTwice<T>(s: seq<T>, wide: T -> bool, narrow: T -> bool)
    requires forall x :: narrow(x) ==> wide(x)
    ensures Select(Select(s, wide), narrow) == Select(s, narrow)
  {
    if s != [] {
      SelectTwice(s[1..], wide, narrow);
      SelectCons(s[0], Select(s[1..], wide), narrow);
      assert !wide(s[0]) ==> Select(s, wide) == Select(s[1..], wide);
    }
  }

  lemma HeaderInOrder(rs: seq<Recipient>, kind: RecipientKind)
    ensures InOrder(Header(rs, kind), rs, kind)
  {
    var ofKind := (r: Recipient) => r.kind == kind;
    var chosen := Select(rs, ofKind);
    assert TotalPreorder(ByOrdinal);
    SortSorted(chosen, ByOrdinal);
    SelectIs(rs, ofKind);
    SameElements(Sort(chosen, ByOrdinal), chosen);
    var all := Sort(chosen, ByOrdinal);
    forall i | 0 <= i < |all| ensures all[i].kind == kind {
      assert all[i] in all;
    }
    forall i, j | 0 <= i < j < |all| ensures all[i].ordinal <= all[j].ordinal {
      assert ByOrdinal(all[i], all[j]);
    }
    forall ordinal ensures OfOrdinal(all, kind, ordinal) == OfOrdinal(rs, kind, ordinal) {
      var same := (r: Recipient) => r.kind == kind && r.ordinal == ordinal;
      SortStable(chosen, ByOrdinal, same);
      SelectTwice(rs, ofKind, same);
    }
  }

  lemma AddressesShown(rs: seq<Recipient>, kind: RecipientKind, limit: nat)
    ensures ShowsHeader(AddressesOf(rs, kind, limit), rs, kind, limit)
  {
    var all := Header(rs, kind);
    HeaderInOrder(rs, kind);
    var l, kept := AddressesOf(rs, kind, limit), Taken(all, limit);
    assert forall i :: 0 <= i < |l.items| ==> kept[i] == all[i];
    assert ListsFirst(l, all, limit);
  }

  method Addresses(rs: seq<Recipient>, kind: RecipientKind, limit: nat) returns (l: List<Address>)
    ensures l == AddressesOf(rs, kind, limit) && ShowsHeader(l, rs, kind, limit)
  {
    AddressesShown(rs, kind, limit);
    var matched := Filter(rs, (r: Recipient) => r.kind == kind);
    matched := Sort(matched, ByOrdinal);
    var truncated := |matched| > limit;
    if truncated {
      matched := matched[..limit];
    }
    var items, cut := CleanAddresses(matched);
    l := List(items, truncated || cut);
    assert items == AddressesOf(rs, kind, limit).items;
  }

  method CleanAddress(r: Recipient) returns (a: Address, cut: bool)
    ensures a == AddressOf(r) && (cut <==> AddressCut(r))
  {
    var address, addressCut := Clean(r.address, MAX_ADDRESS, true);
    var name, nameCut := Clean(r.name, MAX_DISPLAY_NAME, true);
    return Address(address, name), addressCut || nameCut;
  }

  method CleanAddresses(rs: seq<Recipient>) returns (items: seq<Address>, cut: bool)
    ensures AreClean(items, cut, rs, |rs|)
  {
    items, cut := [], false;
    for i := 0 to |rs|
      invariant AreClean(items, cut, rs, i)
    {
      var a, c := CleanAddress(rs[i]);
      OneMoreClean(items, cut, rs, i, a, c);
      items, cut := items + [a], cut || c;
    }
  }

  ghost predicate AreClean(items: seq<Address>, cut: bool, rs: seq<Recipient>, n: nat) {
    && |items| == n <= |rs| && (forall k :: 0 <= k < n ==> items[k] == AddressOf(rs[k]))
    && (cut <==> exists k :: 0 <= k < n && AddressCut(rs[k]))
  }

  lemma OneMoreClean(items: seq<Address>, cut: bool, rs: seq<Recipient>, n: nat, a: Address, c: bool)
    requires AreClean(items, cut, rs, n) && n < |rs| && a == AddressOf(rs[n]) && (c <==> AddressCut(rs[n]))
    ensures AreClean(items + [a], cut || c, rs, n + 1)
  {
  }

  /** Only stored attachment parts are listed. */
  predicate Listed(p: PartRow) {
    p.stored && p.file.Some? && p.attached
  }

  function AttachmentOf(p: PartRow, maxField: nat): Attachment
    requires p.file.Some?
  {
    Attachment(p.file.value, Text(p.name, maxField, true), p.size, Text(p.mime, MAX_MIME_TYPE, true))
  }

  predicate PartCut(p: PartRow, maxField: nat) {
    WasCut(p.name, maxField, true) || WasCut(p.mime, MAX_MIME_TYPE, true)
  }

  function Parts(ps: seq<PartRow>): (r: seq<PartRow>)
    ensures forall i :: 0 <= i < |r| ==> r[i].file.Some? && Listed(r[i]) && r[i] in ps
  {
    var chosen := Select(ps, Listed);
    SelectIs(ps, Listed);
    SameElements(Sort(chosen, ByPosition), chosen);
    assert forall i :: 0 <= i < |Sort(chosen, ByPosition)| ==> Sort(chosen, ByPosition)[i] in chosen;
    Sort(chosen, ByPosition)
  }

  lemma {:induction false} SelectIs<T>(s: seq<T>, keep: T -> bool)
    ensures forall x :: x in Select(s, keep) <==> x in s && keep(x)
  {
    if s != [] {
      SelectIs(s[1..], keep);
      assert s == [s[0]] + s[1..];
    }
  }

  function AttachmentsOf(ps: seq<PartRow>, limit: nat, maxField: nat): List<Attachment> {
    var all := Parts(ps);
    var kept := Taken(all, limit);
    List(seq(|kept|, i requires 0 <= i < |kept| => AttachmentOf(kept[i], maxField)),
         |all| > limit || exists i :: 0 <= i < |kept| && PartCut(kept[i], maxField))
  }

  function AtPosition(ps: seq<PartRow>, position: int): seq<PartRow> {
    Select(ps, (p: PartRow) => p.stored && p.file.Some? && p.attached && p.position == position)
  }

  /** All stored attachments by ascending positions. */
  ghost predicate PartsInOrder(all: seq<PartRow>, ps: seq<PartRow>) {
    && (forall i :: 0 <= i < |all| ==> all[i].stored && all[i].file.Some? && all[i].attached)
    && (forall i, j :: 0 <= i < j < |all| ==> all[i].position <= all[j].position)
    && (forall position :: AtPosition(all, position) == AtPosition(ps, position))
  }

  ghost predicate ListsFiles(l: List<Attachment>, all: seq<PartRow>, limit: nat, maxField: nat)
    requires forall i :: 0 <= i < |all| ==> all[i].file.Some?
  {
    && |l.items| == (if |all| < limit then |all| else limit)
    && (forall i :: 0 <= i < |l.items| ==>
          && l.items[i].id == all[i].file.value && l.items[i].size == all[i].size
          && l.items[i].name == Text(all[i].name, maxField, true) && l.items[i].mime == Text(all[i].mime, 255, true))
    && (l.truncated <==>
          || limit < |all|
          || exists i :: 0 <= i < |l.items| && (WasCut(all[i].name, maxField, true) || WasCut(all[i].mime, 255, true)))
  }

  ghost predicate ShowsFiles(l: List<Attachment>, ps: seq<PartRow>, limit: nat, maxField: nat) {
    exists all :: PartsInOrder(all, ps) && ListsFiles(l, all, limit, maxField)
  }

  lemma PartsAreInOrder(ps: seq<PartRow>)
    ensures PartsInOrder(Parts(ps), ps)
  {
    var chosen := Select(ps, Listed);
    assert TotalPreorder(ByPosition);
    SortSorted(chosen, ByPosition);
    var all := Sort(chosen, ByPosition);
    forall i, j | 0 <= i < j < |all| ensures all[i].position <= all[j].position {
      assert ByPosition(all[i], all[j]);
    }
    forall position ensures AtPosition(all, position) == AtPosition(ps, position) {
      var same := (p: PartRow) => p.stored && p.file.Some? && p.attached && p.position == position;
      SortStable(chosen, ByPosition, same);
      SelectTwice(ps, Listed, same);
    }
  }

  lemma AttachmentsShown(ps: seq<PartRow>, limit: nat, maxField: nat)
    ensures ShowsFiles(AttachmentsOf(ps, limit, maxField), ps, limit, maxField)
  {
    var all := Parts(ps);
    PartsAreInOrder(ps);
    var l, kept := AttachmentsOf(ps, limit, maxField), Taken(all, limit);
    assert forall i :: 0 <= i < |l.items| ==> kept[i] == all[i];
    assert ListsFiles(l, all, limit, maxField);
  }

  method Attachments(ps: seq<PartRow>, limit: nat, maxField: nat) returns (l: List<Attachment>)
    ensures l == AttachmentsOf(ps, limit, maxField) && ShowsFiles(l, ps, limit, maxField)
  {
    AttachmentsShown(ps, limit, maxField);
    var stored := Filter(ps, Listed);
    stored := Sort(stored, ByPosition);
    assert stored == Parts(ps);
    var truncated := |stored| > limit;
    if truncated {
      stored := stored[..limit];
    }
    var items, cut := CleanParts(stored, maxField);
    l := List(items, truncated || cut);
    assert items == AttachmentsOf(ps, limit, maxField).items;
  }

  method CleanPart(p: PartRow, maxField: nat) returns (a: Attachment, cut: bool)
    requires p.file.Some?
    ensures a == AttachmentOf(p, maxField) && (cut <==> PartCut(p, maxField))
  {
    var name, nameCut := Clean(p.name, maxField, true);
    var mime, mimeCut := Clean(p.mime, MAX_MIME_TYPE, true);
    return Attachment(p.file.value, name, p.size, mime), nameCut || mimeCut;
  }

  method CleanParts(ps: seq<PartRow>, maxField: nat) returns (items: seq<Attachment>, cut: bool)
    requires forall i :: 0 <= i < |ps| ==> ps[i].file.Some?
    ensures ArePartsClean(items, cut, ps, |ps|, maxField)
  {
    items, cut := [], false;
    for i := 0 to |ps|
      invariant ArePartsClean(items, cut, ps, i, maxField)
    {
      var a, c := CleanPart(ps[i], maxField);
      OneMorePart(items, cut, ps, i, maxField, a, c);
      items, cut := items + [a], cut || c;
    }
  }

  ghost predicate ArePartsClean(items: seq<Attachment>, cut: bool, ps: seq<PartRow>, n: nat, maxField: nat) {
    && |items| == n <= |ps|
         && (forall k :: 0 <= k < n ==> ps[k].file.Some? && items[k] == AttachmentOf(ps[k], maxField))
    && (cut <==> exists k :: 0 <= k < n && PartCut(ps[k], maxField))
  }

  lemma OneMorePart(items: seq<Attachment>, cut: bool, ps: seq<PartRow>, n: nat, maxField: nat, a: Attachment, c: bool)
    requires ArePartsClean(items, cut, ps, n, maxField) && n < |ps| && ps[n].file.Some?
    requires a == AttachmentOf(ps[n], maxField) && (c <==> PartCut(ps[n], maxField))
    ensures ArePartsClean(items + [a], cut || c, ps, n + 1, maxField)
  {
  }

  // ---------------------------------------------------------------------------
  // The event.

  predicate Eligible(src: Source) {
    src.message.inbound && src.message.regular && src.thread.regular
  }

  predicate Belongs(src: Source) {
    && src.message.domainId == src.thread.domainId && src.message.threadId == src.thread.id
    && src.message.profileId == src.thread.profileId
  }

  function EnvelopeOf(src: Source, l: Limits): Envelope
    requires InRange(l)
  {
    var m, n := src.message, l.maxAddressesPerType;
    Envelope(
      src.occurredAt, m.domainId, m.profileId, src.flowId, src.thread.id, m.id,
      Text(m.messageId, l.maxFieldSize, true), Text(m.inReplyTo, l.maxFieldSize, true),
        Text(m.subject, l.maxFieldSize, true),
      src.thread.contactId, m.receivedAt,
      AddressesOf(src.recipients, From, n), AddressesOf(src.recipients, Sender, n),
        AddressesOf(src.recipients, ReplyTo, n),
      AddressesOf(src.recipients, To, n), AddressesOf(src.recipients, Cc, n),
      List(Text(m.textBody, l.maxBodyTextSize, false), WasCut(m.textBody, l.maxBodyTextSize, false)),
      AttachmentsOf(src.attachments, l.maxAttachments, l.maxFieldSize))
  }

  /** The event tells each stored column under its own name. */
  ghost predicate Tells(e: Envelope, src: Source, l: Limits)
    requires InRange(l)
  {
    var m, rs, n := src.message, src.recipients, l.maxAddressesPerType;
    && e.occurredAt == src.occurredAt && e.receivedAt == m.receivedAt
    && e.domainId == m.domainId && e.profileId == m.profileId && e.messageId == m.id && e.threadId == src.thread.id
    && e.flowId == src.flowId && e.contactId == src.thread.contactId
    && e.internetMessageId == Text(m.messageId, l.maxFieldSize, true)
    && e.inReplyTo == Text(m.inReplyTo, l.maxFieldSize, true) && e.subject == Text(m.subject, l.maxFieldSize, true)
    && e.body.items == Text(m.textBody, l.maxBodyTextSize, false)
    && (e.body.truncated <==> WasCut(m.textBody, l.maxBodyTextSize, false))
    && ShowsHeader(e.from, rs, From, n) && ShowsHeader(e.sender, rs, Sender, n)
    && ShowsHeader(e.replyTo, rs, ReplyTo, n) && ShowsHeader(e.to, rs, To, n) && ShowsHeader(e.cc, rs, Cc, n)
    && ShowsFiles(e.attachments, src.attachments, l.maxAttachments, l.maxFieldSize)
  }

  lemma EnvelopeTells(src: Source, l: Limits)
    requires InRange(l)
    ensures Tells(EnvelopeOf(src, l), src, l)
  {
    var rs, n := src.recipients, l.maxAddressesPerType;
    AddressesShown(rs, From, n);
    AddressesShown(rs, Sender, n);
    AddressesShown(rs, ReplyTo, n);
    AddressesShown(rs, To, n);
    AddressesShown(rs, Cc, n);
    AttachmentsShown(src.attachments, l.maxAttachments, l.maxFieldSize);
  }

  predicate Positive(n: Option<int>) {
    n.Some? ==> n.value > 0
  }

  /** InboundMessage.Validate, for an event id that is set. */
  predicate ValidEnvelope(e: Envelope) {
    && e.occurredAt != ZERO && e.receivedAt != ZERO
    && e.domainId > 0 && e.profileId > 0 && e.threadId > 0 && e.messageId > 0
    && Positive(e.flowId) && Positive(e.contactId) && e.internetMessageId != []
  }

  /** The encoder refuses a time outside the years it can write. */
  predicate Encodable(e: Envelope) {
    Proper(e.occurredAt) && Proper(e.receivedAt)
  }

  predicate Int64(n: int) {
    -MAX_INT64 - 1 <= n <= MAX_INT64
  }

  predicate OptionalInt64(n: Option<int>) {
    n.Some? ==> Int64(n.value)
  }

  /** The types of the stored columns; file ids and sizes are not negative. */
  predicate Stored(src: Source) {
    && Int64(src.message.id) && Int64(src.message.domainId) && Int64(src.message.profileId) && Int64(src.thread.id)
    && OptionalInt64(src.flowId) && OptionalInt64(src.thread.contactId)
    && forall i :: 0 <= i < |src.attachments| ==> PartStored(src.attachments[i])
  }

  predicate PartStored(p: PartRow) {
    0 <= p.size <= MAX_INT64 && (p.file.Some? ==> 0 <= p.file.value <= MAX_INT64)
  }

  datatype Outcome = Rendered(size: nat) | NotEligible | NotOfThread | Incomplete | Unencodable | TooLong

  /** NewInboundMessage and Marshal, and the event that was made on the way. */
  method Render(src: Source, l: Limits) returns (o: Outcome, ghost e: Envelope)
    requires InRange(l)
    ensures e == EnvelopeOf(src, l) && Tells(e, src, l)
    ensures o.NotEligible? <==> !(src.message.inbound && src.message.regular && src.thread.regular)
    ensures o.NotOfThread? <==>
              Eligible(src) && (src.message.domainId, src.message.threadId, src.message.profileId)
                               != (src.thread.domainId, src.thread.id, src.thread.profileId)
    ensures o.Incomplete? <==> Eligible(src) && Belongs(src) && !ValidEnvelope(e)
    ensures o.Rendered? ==>
              && e.occurredAt != ZERO && e.receivedAt != ZERO && e.internetMessageId != []
              && 0 < e.domainId && 0 < e.profileId && 0 < e.threadId && 0 < e.messageId
              && (e.flowId.None? || 0 < e.flowId.value) && (e.contactId.None? || 0 < e.contactId.value)
    ensures o.Unencodable? <==> Eligible(src) && Belongs(src) && ValidEnvelope(e) && !Encodable(e)
    ensures o.TooLong? <==>
              && Eligible(src) && Belongs(src) && ValidEnvelope(e) && Encodable(e)
              && EncodedLength(e) > l.maxPayloadSize
    ensures o.Rendered? ==> o.size == EncodedLength(e) <= l.maxPayloadSize
    ensures ValidLimits(l) && Stored(src) ==> !o.TooLong?
  {
    EnvelopeTells(src, l);
    e := EnvelopeOf(src, l);
    if !Eligible(src) {
      return NotEligible, e;
    }
    if !Belongs(src) {
      return NotOfThread, e;
    }
    var built := NewEnvelope(src, l);
    if !ValidEnvelope(built) {
      return Incomplete, e;
    }
    if !Encodable(built) {
      return Unencodable, e;
    }
    if ValidLimits(l) && Stored(src) {
      PayloadBound(src, l);
    }
    if EncodedLength(built) > l.maxPayloadSize {
      return TooLong, e;
    }
    return Rendered(EncodedLength(built)), e;
  }

  method NewEnvelope(src: Source, l: Limits) returns (e: Envelope)
    requires InRange(l)
    ensures e == EnvelopeOf(src, l) && Tells(e, src, l)
  {
    var m, n := src.message, l.maxAddressesPerType;
    var body, bodyCut := Clean(m.textBody, l.maxBodyTextSize, false);
    var id, _ := Clean(m.messageId, l.maxFieldSize, true);
    var parent, _ := Clean(m.inReplyTo, l.maxFieldSize, true);
    var subject, _ := Clean(m.subject, l.maxFieldSize, true);
    var senders := Addresses(src.recipients, From, n);
    var sender := Addresses(src.recipients, Sender, n);
    var replyTo := Addresses(src.recipients, ReplyTo, n);
    var receivers := Addresses(src.recipients, To, n);
    var copies := Addresses(src.recipients, Cc, n);
    var attachments := Attachments(src.attachments, l.maxAttachments, l.maxFieldSize);
    e := Envelope(
      src.occurredAt, m.domainId, m.profileId, src.flowId, src.thread.id, m.id, id, parent, subject,
      src.thread.contactId, m.receivedAt, senders, sender, replyTo, receivers, copies, List(body, bodyCut),
        attachments);
  }

  // ---------------------------------------------------------------------------
  // The bound.

  lemma AddressBound(r: Recipient)
    ensures AddressLength(AddressOf(r)) <= AddressLength(WorstAddress())
  {
    TextLength(r.address, MAX_ADDRESS, true);
    TextLength(r.name, MAX_DISPLAY_NAME, true);
    WorstAddressLength();
  }

  lemma AddressesBound(rs: seq<Recipient>, kind: RecipientKind, n: nat)
    requires n >= 1
    ensures AddressesLength(AddressesOf(rs, kind, n)) <= 2 + WorstList(n, AddressLength(WorstAddress()))
  {
    var kept := Taken(Header(rs, kind), n);
    var items := AddressesOf(rs, kind, n).items;
    forall i | 0 <= i < |items| ensures AddressLength(items[i]) <= AddressLength(WorstAddress()) {
      AddressBound(kept[i]);
    }
    ListBound(items, AddressLength, AddressLength(WorstAddress()), n);
  }

  lemma PartBound(p: PartRow, l: Limits)
    requires p.file.Some? && PartStored(p) && l.maxFieldSize >= 0
    ensures AttachmentLength(AttachmentOf(p, l.maxFieldSize)) <= AttachmentLength(WorstAttachment(l))
  {
    TextLength(p.name, l.maxFieldSize, true);
    TextLength(p.mime, MAX_MIME_TYPE, true);
    IntBound(p.file.value);
    IntBound(p.size);
    WorstAttachmentLength(l);
  }

  lemma PartsBound(ps: seq<PartRow>, l: Limits)
    requires InRange(l) && forall i :: 0 <= i < |ps| ==> PartStored(ps[i])
    ensures ListLength(AttachmentsOf(ps, l.maxAttachments, l.maxFieldSize).items, AttachmentLength)
            <= 2 + WorstList(l.maxAttachments, AttachmentLength(WorstAttachment(l)))
  {
    var kept := Taken(Parts(ps), l.maxAttachments);
    var items := AttachmentsOf(ps, l.maxAttachments, l.maxFieldSize).items;
    forall i | 0 <= i < |items| ensures AttachmentLength(items[i]) <= AttachmentLength(WorstAttachment(l)) {
      assert kept[i] in ps;
      PartBound(kept[i], l);
    }
    ListBound(items, AttachmentLength, AttachmentLength(WorstAttachment(l)), l.maxAttachments);
  }

  lemma OptionalBound(n: Option<int>)
    requires Positive(n) && OptionalInt64(n)
    ensures OptionalLength(n) <= IntLength(MAX_INT64)
  {
    if n.Some? {
      IntBound(n.value);
    } else {
      IntMonotone(1000, MAX_INT64);
      assert IntLength(1000) == 4;
    }
  }

  lemma HeadBound(src: Source, l: Limits)
    requires InRange(l) && Stored(src) && ValidEnvelope(EnvelopeOf(src, l))
    ensures HeadLength(EnvelopeOf(src, l)) <= HeadLength(WorstEnvelope(l))
  {
    var m := src.message;
    TextLength(m.messageId, l.maxFieldSize, true);
    TextLength(m.inReplyTo, l.maxFieldSize, true);
    TextLength(m.subject, l.maxFieldSize, true);
    IntBound(m.domainId);
    IntBound(m.profileId);
    IntBound(m.id);
    IntBound(src.thread.id);
    OptionalBound(src.flowId);
    OptionalBound(src.thread.contactId);
    TimeBound(src.occurredAt);
    TimeBound(m.receivedAt);
    WorstHeadLength(l);
  }

  lemma ListsBound(src: Source, l: Limits)
    requires InRange(l) && Stored(src)
    ensures ListsLength(EnvelopeOf(src, l)) <= 12 + 5 * WorstList(l.maxAddressesPerType, AddressLength(WorstAddress()))
                                               + WorstList(l.maxAttachments, AttachmentLength(WorstAttachment(l)))
  {
    var n := l.maxAddressesPerType;
    AddressesBound(src.recipients, From, n);
    AddressesBound(src.recipients, Sender, n);
    AddressesBound(src.recipients, ReplyTo, n);
    AddressesBound(src.recipients, To, n);
    AddressesBound(src.recipients, Cc, n);
    PartsBound(src.attachments, l);
  }

  /** The payload bound: under limits that were accepted, every event that is complete
      takes at most the computed worst case, which is at most the payload limit. */
  lemma PayloadBound(src: Source, l: Limits)
    requires ValidLimits(l) && Stored(src) && ValidEnvelope(EnvelopeOf(src, l))
    ensures EncodedLength(EnvelopeOf(src, l)) <= WorstCaseSize(l) <= l.maxPayloadSize
  {
    HeadBound(src, l);
    ListsBound(src, l);
    TextLength(src.message.textBody, l.maxBodyTextSize, false);
    WorstRest(l);
  }

  /** A stored email that an event can describe. */
  predicate Describable(src: Source) {
    && Eligible(src) && Belongs(src) && Stored(src) && src.message.messageId != []
    && src.occurredAt != ZERO && src.message.receivedAt != ZERO && Proper(src.occurredAt)
         && Proper(src.message.receivedAt)
    && src.message.domainId > 0 && src.message.profileId > 0 && src.thread.id > 0 && src.message.id > 0
    && Positive(src.flowId) && Positive(src.thread.contactId)
  }

  /** Oversized input is truncated, not rejected, if and only if the first rune of the
      Message-ID fits its field; a field limit of four bytes is enough. */
  lemma RejectedIff(src: Source, l: Limits)
    requires ValidLimits(l) && Describable(src)
    ensures Prepared(src.message.messageId, true) != []
    ensures ValidEnvelope(EnvelopeOf(src, l)) && EncodedLength(EnvelopeOf(src, l)) <= l.maxPayloadSize
            <==> |Encode(Prepared(src.message.messageId, true)[0])| <= l.maxFieldSize
  {
    EmptyIff(src.message.messageId, l.maxFieldSize);
    EmptyText(Cleaned(src.message.messageId, l.maxFieldSize, true));
    if ValidEnvelope(EnvelopeOf(src, l)) {
      PayloadBound(src, l);
    }
  }

  lemma EmptyText(rs: seq<Rune>)
    ensures EncodeAll(rs) == [] <==> rs == []
  {
  }

  /** With a field limit of one byte, an accented letter at the start of the Message-ID is
      enough to reject the event, whatever follows it. */
  lemma AccentRejected(src: Source, l: Limits)
    requires ValidLimits(l) && Describable(src) && l.maxFieldSize == 1
    requires |src.message.messageId| >= 2 && src.message.messageId[..2] == [0xC3, 0xA9]
    ensures !ValidEnvelope(EnvelopeOf(src, l))
  {
    AccentCut(src.message.messageId);
  }

  lemma AccentCut(id: seq<Byte>)
    requires |id| >= 2 && id[..2] == [0xC3, 0xA9]
    ensures Text(id, 1, true) == []
  {
    assert id[0] == id[..2][0] && id[1] == id[..2][1];
    assert DecodeFirst(id) == Valid(0xE9, 2);
    assert ToValid(id) == [0xE9] + ToValid(id[2..], false);
    EmptyIff(id, 1);
  }
}
