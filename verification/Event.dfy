/** The event of an inbound message: its fields, their limits, and the size of its JSON. */
module Event {
  import opened Options
  import opened Utf8
  import opened Cleaning

  const MAX_INT64 := 0x7FFF_FFFF_FFFF_FFFF

  const MAX_ADDRESS := 320
  const MAX_DISPLAY_NAME := 256
  const MAX_MIME_TYPE := 255

  const BODY_LIMIT := 8 * 1024 * 1024
  const FIELD_LIMIT := 64 * 1024
  const LIST_LIMIT := 10_000
  const PAYLOAD_LIMIT := 16 * 1024 * 1024

  datatype Limits = Limits(
    maxBodyTextSize: int, maxAddressesPerType: int, maxAttachments: int, maxFieldSize: int, maxPayloadSize: int)

  /** Seconds since the zero time, and nanoseconds. */
  datatype Instant = Instant(seconds: int, nanos: int)

  const ZERO := Instant(0, 0)
  const LATEST := Instant(315_537_897_599, 999_999_999)

  predicate Proper(t: Instant) {
    0 <= t.seconds <= LATEST.seconds && 0 <= t.nanos <= LATEST.nanos
  }

  datatype Address = Address(address: seq<Byte>, name: seq<Byte>)

  datatype Attachment = Attachment(id: int, name: seq<Byte>, size: int, mime: seq<Byte>)

  datatype List<T> = List(items: seq<T>, truncated: bool)

  datatype Envelope = Envelope(
    occurredAt: Instant, domainId: int, profileId: int, flowId: Option<int>, threadId: int, messageId: int,
    internetMessageId: seq<Byte>, inReplyTo: seq<Byte>, subject: seq<Byte>, contactId: Option<int>, receivedAt: Instant,
    from: List<Address>, sender: List<Address>, replyTo: List<Address>, to: List<Address>, cc: List<Address>,
    body: List<Byte>, attachments: List<Attachment>)

  // ---------------------------------------------------------------------------
  // Lengths of the encoded values.

  /** The text the encoder writes around the values: the keys, the constant values with the
      36 characters of the event id, and the punctuation of an envelope, of an address, of
      an attachment, and of a time without its fraction. */
  const HEAD_TEXT := 151
  const SNAPSHOT_TEXT := 209
  const FLAGS_TEXT := 141
  const ENVELOPE_TEXT := HEAD_TEXT + 36 + SNAPSHOT_TEXT + FLAGS_TEXT
  const ADDRESS_TEXT := 20
  const ATTACHMENT_TEXT := 65
  const TIME_TEXT := 22

  /** The texts themselves. */
  lemma HeadText()
    ensures HEAD_TEXT ==
            |"{\"event_id\":\"\",\"event_type\":\"email.message.inbound\","|
            + |"\"schema_version\":1,\"occurred_at\":,\"domain_id\":,"|
            + |"\"profile_id\":,\"flow_id\":,\"thread_id\":,\"message_id\":,"|
  {
  }

  lemma SnapshotText()
    ensures SNAPSHOT_TEXT ==
            |"\"snapshot\":{\"internet_message_id\":,\"in_reply_to\":,"|
            + |"\"subject\":,\"message_kind\":\"regular\",\"thread_kind\":\"regular\","|
            + |"\"contact_id\":,\"received_at\":,\"from\":,\"sender\":,"|
            + |"\"reply_to\":,\"to\":,\"cc\":,\"body_text\":,\"attachments\":,"|
  {
  }

  lemma FlagsText()
    ensures FLAGS_TEXT ==
            |"\"body_text_truncated\":,\"from_truncated\":,"|
            + |"\"sender_truncated\":,\"reply_to_truncated\":,"|
            + |"\"to_truncated\":,\"cc_truncated\":,\"attachments_truncated\":}}"|
  {
  }

  lemma ItemTexts()
    ensures ADDRESS_TEXT == |"{\"address\":,\"name\":}"|
    ensures ATTACHMENT_TEXT ==
            |"{\"id\":,\"name\":,\"size\":,\"mime\":,"| + |"\"view_name\":null,\"channel\":\"mail\"}"|
    ensures TIME_TEXT == |"\"0001-01-01T00:00:00Z\""|
  {
  }

  function IntLength(n: int): (l: nat)
    ensures l >= 1
    decreases if n < 0 then 1 - n else n
  {
    if n < 0 then 1 + IntLength(-n) else if n < 10 then 1 else 1 + IntLength(n / 10)
  }

  function OptionalLength(n: Option<int>): nat {
    if n.Some? then IntLength(n.value) else 4
  }

  /** The digits of a fraction without its trailing zeros. */
  function FractionLength(n: int, width: nat): (l: nat)
    ensures l <= width
    decreases width
  {
    if width == 0 then 0 else if n % 10 == 0 then FractionLength(n / 10, width - 1) else width
  }

  /** RFC 3339 in UTC, with a fraction of up to nine digits. */
  function TimeLength(t: Instant): nat {
    TIME_TEXT + if t.nanos == 0 then 0 else 1 + FractionLength(t.nanos, 9)
  }

  function FlagLength(b: bool): nat {
    if b then 4 else 5
  }

  function AddressLength(a: Address): nat {
    ADDRESS_TEXT + StringLength(a.address) + StringLength(a.name)
  }

  function AttachmentLength(a: Attachment): nat {
    ATTACHMENT_TEXT + IntLength(a.id) + StringLength(a.name) + IntLength(a.size) + StringLength(a.mime)
  }

  /** Brackets, items and the commas between them. */
  function ItemsLength<T>(items: seq<T>, length: T -> nat): nat {
    if items == [] then 0 else length(items[0]) + (if |items| > 1 then 1 else 0) + ItemsLength(items[1..], length)
  }

  function ListLength<T>(items: seq<T>, length: T -> nat): nat {
    2 + ItemsLength(items, length)
  }

  /** Everything but the lists and the body. */
  function HeadLength(e: Envelope): nat {
    TimeLength(e.occurredAt) + IntLength(e.domainId) + IntLength(e.profileId) + OptionalLength(e.flowId)
    + IntLength(e.threadId) + IntLength(e.messageId) + StringLength(e.internetMessageId) + StringLength(e.inReplyTo)
    + StringLength(e.subject) + OptionalLength(e.contactId) + TimeLength(e.receivedAt)
  }

  function FlagsLength(e: Envelope): nat {
    FlagLength(e.body.truncated) + FlagLength(e.from.truncated) + FlagLength(e.sender.truncated)
      + FlagLength(e.replyTo.truncated)
    + FlagLength(e.to.truncated) + FlagLength(e.cc.truncated) + FlagLength(e.attachments.truncated)
  }

  function AddressesLength(l: List<Address>): nat {
    ListLength(l.items, AddressLength)
  }

  function ListsLength(e: Envelope): nat {
    AddressesLength(e.from) + AddressesLength(e.sender) + AddressesLength(e.replyTo) + AddressesLength(e.to)
      + AddressesLength(e.cc)
    + ListLength(e.attachments.items, AttachmentLength)
  }

  function EncodedLength(e: Envelope): nat {
    ENVELOPE_TEXT + HeadLength(e) + FlagsLength(e) + ListsLength(e) + StringLength(e.body.items)
  }

  // ---------------------------------------------------------------------------
  // The worst case and the check of the limits.

  function Nothing<T>(): List<T> {
    List([], false)
  }

  function WorstEnvelope(l: Limits): Envelope
    requires l.maxFieldSize >= 0
  {
    var field := Fill(l.maxFieldSize);
    Envelope(LATEST, MAX_INT64, MAX_INT64, Some(MAX_INT64), MAX_INT64, MAX_INT64, field, field, field, Some(MAX_INT64),
      LATEST,
             Nothing(), Nothing(), Nothing(), Nothing(), Nothing(), Nothing(), Nothing())
  }

  function WorstAddress(): Address {
    Address(Fill(MAX_ADDRESS), Fill(MAX_DISPLAY_NAME))
  }

  function WorstAttachment(l: Limits): Attachment
    requires l.maxFieldSize >= 0
  {
    Attachment(MAX_INT64, Fill(l.maxFieldSize), MAX_INT64, Fill(MAX_MIME_TYPE))
  }

  /** What a list of n equal items takes beside its brackets: the items, and a comma between two. */
  function WorstList(n: int, itemLength: int): int {
    n * itemLength + n - 1
  }

  function WorstCaseSize(l: Limits): int
    requires l.maxFieldSize >= 0
  {
    EncodedLength(WorstEnvelope(l)) + 2 * l.maxBodyTextSize
    + 5 * WorstList(l.maxAddressesPerType, AddressLength(WorstAddress()))
    + WorstList(l.maxAttachments, AttachmentLength(WorstAttachment(l)))
  }

  predicate InRange(l: Limits) {
    && 1 <= l.maxBodyTextSize <= BODY_LIMIT && 1 <= l.maxFieldSize <= FIELD_LIMIT
    && 1 <= l.maxAddressesPerType <= LIST_LIMIT && 1 <= l.maxAttachments <= LIST_LIMIT
    && 1 <= l.maxPayloadSize <= PAYLOAD_LIMIT
  }

  /** Limits.Validate. */
  predicate ValidLimits(l: Limits) {
    InRange(l) && WorstCaseSize(l) <= l.maxPayloadSize
  }

  // ---------------------------------------------------------------------------
  // Bounds of the parts.

  lemma {:induction false} IntMonotone(a: int, b: int)
    requires 0 <= a <= b
    ensures IntLength(a) <= IntLength(b)
    decreases b
  {
    if a >= 10 {
      IntMonotone(a / 10, b / 10);
    }
  }

  lemma IntBound(a: int)
    requires 0 <= a <= MAX_INT64
    ensures IntLength(a) <= IntLength(MAX_INT64)
  {
    IntMonotone(a, MAX_INT64);
  }

  function Ten(k: nat): nat {
    if k == 0 then 1 else 10 * Ten(k - 1)
  }

  lemma {:induction false} DigitsBound(n: int, k: nat)
    requires 0 <= n < Ten(k) && k > 0
    ensures IntLength(n) <= k
  {
    if n >= 10 {
      assert k > 1;
      DigitsBound(n / 10, k - 1);
    }
  }

  lemma {:induction false} TenAdd(a: nat, b: nat)
    ensures Ten(a + b) == Ten(a) * Ten(b)
  {
    if a > 0 {
      TenAdd(a - 1, b);
      assert Ten(a) * Ten(b) == 10 * (Ten(a - 1) * Ten(b));
    }
  }

  /** No 64-bit number has more than nineteen digits. */
  lemma MaxLength()
    ensures IntLength(MAX_INT64) <= 19
  {
    assert Ten(6) == 1_000_000;
    assert Ten(12) == 1_000_000 * Ten(6) && Ten(18) == 1_000_000 * Ten(12) by {
      TenAdd(6, 6);
      TenAdd(6, 12);
    }
    DigitsBound(MAX_INT64, 19);
  }

  lemma TimeBound(t: Instant)
    ensures TimeLength(t) <= TimeLength(LATEST)
  {
  }

  /** A list whose items are no longer than the longest. */
  lemma {:induction false} ItemsBound<T>(items: seq<T>, length: T -> nat, longest: nat)
    requires items != [] && forall i :: 0 <= i < |items| ==> length(items[i]) <= longest
    ensures ItemsLength(items, length) <= WorstList(|items|, longest)
  {
    if |items| > 1 {
      ItemsBound(items[1..], length, longest);
      assert WorstList(|items|, longest) == WorstList(|items| - 1, longest) + longest + 1 by {
        Distribute(|items| - 1, longest);
      }
    }
  }

  lemma Distribute(n: int, k: int)
    ensures (n + 1) * k == n * k + k
  {
  }

  lemma MoreItems(n: nat, m: nat, k: nat)
    requires n <= m
    ensures WorstList(n, k) <= WorstList(m, k)
  {
    assert n * k <= m * k;
  }

  lemma ListBound<T>(items: seq<T>, length: T -> nat, longest: nat, n: int)
    requires |items| <= n && 1 <= n && forall i :: 0 <= i < |items| ==> length(items[i]) <= longest
    ensures ListLength(items, length) <= 2 + WorstList(n, longest)
  {
    if items != [] {
      ItemsBound(items, length, longest);
      MoreItems(|items|, n, longest);
    } else {
      MoreItems(1, n, longest);
    }
  }

  lemma WorstAddressLength()
    ensures AddressLength(WorstAddress()) == ADDRESS_TEXT + 2 + 2 * MAX_ADDRESS + 2 + 2 * MAX_DISPLAY_NAME
  {
    FillLength(MAX_ADDRESS);
    FillLength(MAX_DISPLAY_NAME);
  }

  lemma WorstAttachmentLength(l: Limits)
    requires l.maxFieldSize >= 0
    ensures AttachmentLength(WorstAttachment(l)) == ATTACHMENT_TEXT + 2 * IntLength(MAX_INT64) + 2 + 2 * l.maxFieldSize
              + 2 + 2 * MAX_MIME_TYPE
  {
    FillLength(l.maxFieldSize);
    FillLength(MAX_MIME_TYPE);
  }

  lemma WorstHeadLength(l: Limits)
    requires l.maxFieldSize >= 0
    ensures HeadLength(WorstEnvelope(l)) == 2 * TimeLength(LATEST) + 6 * IntLength(MAX_INT64)
              + 3 * (2 + 2 * l.maxFieldSize)
  {
    FillLength(l.maxFieldSize);
  }

  lemma WorstBaseLength(l: Limits)
    requires InRange(l)
    ensures EncodedLength(WorstEnvelope(l)) <= 1_000_000
  {
    WorstHeadLength(l);
    MaxLength();
    WorstRest(l);
    assert TimeLength(LATEST) <= 40;
  }

  lemma WorstRest(l: Limits)
    requires l.maxFieldSize >= 0
    ensures var e := WorstEnvelope(l);
            FlagsLength(e) == 35 && ListsLength(e) == 12 && StringLength(e.body.items) == 2
  {
  }

  lemma WorstListBound(n: int, k: int, longest: int)
    requires 1 <= n <= LIST_LIMIT && 0 <= k <= longest
    ensures 0 <= WorstList(n, k) <= LIST_LIMIT * longest + LIST_LIMIT
  {
    assert n * k <= LIST_LIMIT * k;
  }

  /** The sum stays far below the range of a 64-bit integer. */
  lemma NoOverflow(l: Limits)
    requires InRange(l)
    ensures 0 <= WorstCaseSize(l) <= MAX_INT64
  {
    WorstAddressLength();
    WorstAttachmentLength(l);
    WorstBaseLength(l);
    MaxLength();
    var address, attachment := AddressLength(WorstAddress()), AttachmentLength(WorstAttachment(l));
    WorstListBound(l.maxAddressesPerType, address, 2000);
    WorstListBound(l.maxAttachments, attachment, 200_000);
  }
}
