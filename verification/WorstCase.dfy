/** The computed worst case is reached, so limits are rejected exactly when some email
    could exceed them. */
module WorstCase {
  import opened Options
  import opened Ordering
  import opened Utf8
  import opened Cleaning
  import opened Event
  import opened Payload

  function Repeat<T>(n: nat, x: T): (s: seq<T>)
    ensures |s| == n && forall i :: 0 <= i < n ==> s[i] == x
  {
    seq(n, _ => x)
  }

  // ---------------------------------------------------------------------------
  // Text made of quotation marks is not changed.

  lemma {:induction false} FillRunes(k: nat)
    ensures EncodeAll(Repeat<Rune>(k, 0x22)) == Fill(k)
  {
    if k > 0 {
      FillRunes(k - 1);
      assert Fill(k) == [0x22] + Fill(k - 1);
      assert Repeat<Rune>(k, 0x22)[1..] == Repeat<Rune>(k - 1, 0x22);
    }
  }

  lemma FillText(k: nat, singleLine: bool)
    ensures Text(Fill(k), k, singleLine) == Fill(k) && !WasCut(Fill(k), k, singleLine)
  {
    var rs := Repeat<Rune>(k, 0x22);
    FillRunes(k);
    ValidUnchanged(rs, false);
    StaysMapped(rs, singleLine);
    FillLength(k);
    FittingIs(rs, k);
  }

  // ---------------------------------------------------------------------------
  // Lists of equal rows.

  lemma {:induction false} SelectRepeat<T>(n: nat, x: T, keep: T -> bool)
    ensures Select(Repeat(n, x), keep) == if keep(x) then Repeat(n, x) else []
  {
    if n > 0 {
      SelectRepeat(n - 1, x, keep);
      assert Repeat(n, x)[1..] == Repeat(n - 1, x);
    }
  }

  lemma {:induction false} SelectAppend<T>(a: seq<T>, b: seq<T>, keep: T -> bool)
    ensures Select(a + b, keep) == Select(a, keep) + Select(b, keep)
  {
    if a == [] {
      assert a + b == b;
    } else {
      var rest := a[1..];
      var head := if keep(a[0]) then [a[0]] else [];
      SelectAppend(rest, b, keep);
      assert (a + b)[0] == a[0] && (a + b)[1..] == rest + b;
      assert head + (Select(rest, keep) + Select(b, keep)) == head + Select(rest, keep) + Select(b, keep);
    }
  }

  lemma {:induction false} SortRepeat<T>(n: nat, x: T, leq: (T, T) -> bool)
    requires leq(x, x)
    ensures Sort(Repeat(n, x), leq) == Repeat(n, x)
  {
    if n > 0 {
      SortRepeat(n - 1, x, leq);
      assert Repeat(n, x)[1..] == Repeat(n - 1, x);
    }
  }

  lemma {:induction false} RepeatLength<T>(n: nat, x: T, length: T -> nat)
    requires n > 0
    ensures ItemsLength(Repeat(n, x), length) == WorstList(n, length(x))
  {
    assert Repeat(n, x)[1..] == Repeat(n - 1, x);
    if n > 1 {
      RepeatLength(n - 1, x, length);
      Distribute(n - 1, length(x));
    }
  }

  // ---------------------------------------------------------------------------
  // The longest email.

  function LongRecipient(kind: RecipientKind): Recipient {
    Recipient(kind, Fill(MAX_ADDRESS), Fill(MAX_DISPLAY_NAME), 0)
  }

  function LongRecipients(n: nat): seq<Recipient> {
    Repeat(n, LongRecipient(From)) + Repeat(n, LongRecipient(Sender)) + Repeat(n, LongRecipient(ReplyTo))
    + Repeat(n, LongRecipient(To)) + Repeat(n, LongRecipient(Cc))
  }

  function LongPart(l: Limits): PartRow
    requires l.maxFieldSize >= 0
  {
    PartRow(true, Some(MAX_INT64), true, Fill(l.maxFieldSize), Fill(MAX_MIME_TYPE), MAX_INT64, 0)
  }

  function LongSource(l: Limits): Source
    requires InRange(l)
  {
    var field := Fill(l.maxFieldSize);
    Source(LATEST, Some(MAX_INT64), ThreadRow(MAX_INT64, MAX_INT64, MAX_INT64, true, Some(MAX_INT64)),
           MessageRow(MAX_INT64, MAX_INT64, MAX_INT64, MAX_INT64, true, true, field, field, field,
             Fill(l.maxBodyTextSize), LATEST),
           LongRecipients(l.maxAddressesPerType), Repeat(l.maxAttachments, LongPart(l)))
  }

  lemma SelectFive<T>(a: seq<T>, b: seq<T>, c: seq<T>, d: seq<T>, e: seq<T>, keep: T -> bool)
    ensures Select(a + b + c + d + e, keep)
            == Select(a, keep) + Select(b, keep) + Select(c, keep) + Select(d, keep) + Select(e, keep)
  {
    SelectAppend(a + b + c + d, e, keep);
    SelectAppend(a + b + c, d, keep);
    SelectAppend(a + b, c, keep);
    SelectAppend(a, b, keep);
  }

  lemma SelectKind(n: nat, own: RecipientKind, kind: RecipientKind)
    ensures Select(Repeat(n, LongRecipient(own)), (r: Recipient) => r.kind == kind)
            == if own == kind then Repeat(n, LongRecipient(kind)) else []
  {
    SelectRepeat(n, LongRecipient(own), (r: Recipient) => r.kind == kind);
  }

  lemma OneOfFive<T>(a: seq<T>, b: seq<T>, c: seq<T>, d: seq<T>, e: seq<T>, x: seq<T>)
    requires (a == x && b == c == d == e == []) || (b == x && a == c == d == e == [])
               || (c == x && a == b == d == e == [])
             || (d == x && a == b == c == e == []) || (e == x && a == b == c == d == [])
    ensures a + b + c + d + e == x
  {
  }

  lemma LongSelected(n: nat, kind: RecipientKind)
    requires !kind.Bcc?
    ensures Select(LongRecipients(n), (r: Recipient) => r.kind == kind) == Repeat(n, LongRecipient(kind))
  {
    var keep := (r: Recipient) => r.kind == kind;
    var a, b, c := Repeat(n, LongRecipient(From)), Repeat(n, LongRecipient(Sender)), Repeat(n, LongRecipient(ReplyTo));
    var d, e := Repeat(n, LongRecipient(To)), Repeat(n, LongRecipient(Cc));
    SelectFive(a, b, c, d, e, keep);
    SelectKind(n, From, kind);
    SelectKind(n, Sender, kind);
    SelectKind(n, ReplyTo, kind);
    SelectKind(n, To, kind);
    SelectKind(n, Cc, kind);
    OneOfFive(Select(a, keep), Select(b, keep), Select(c, keep), Select(d, keep), Select(e, keep),
      Repeat(n, LongRecipient(kind)));
  }

  lemma LongHeader(n: nat, kind: RecipientKind)
    requires !kind.Bcc?
    ensures Header(LongRecipients(n), kind) == Repeat(n, LongRecipient(kind))
  {
    LongSelected(n, kind);
    SortRepeat(n, LongRecipient(kind), ByOrdinal);
  }

  lemma LongAddress(kind: RecipientKind)
    ensures AddressOf(LongRecipient(kind)) == WorstAddress() && !AddressCut(LongRecipient(kind))
  {
    FillText(MAX_ADDRESS, true);
    FillText(MAX_DISPLAY_NAME, true);
  }

  lemma EqualRows(list: List<Address>, kept: seq<Recipient>, r: Recipient, n: nat)
    requires kept == Repeat(n, r) && !AddressCut(r)
    requires list == List(seq(|kept|, i requires 0 <= i < |kept| => AddressOf(kept[i])),
                          exists i :: 0 <= i < |kept| && AddressCut(kept[i]))
    ensures list == List(Repeat(n, AddressOf(r)), false)
  {
    assert forall i :: 0 <= i < n ==> list.items[i] == AddressOf(kept[i]) && kept[i] == r;
    assert list.items == Repeat(n, AddressOf(r));
  }

  lemma LongItems(n: nat, kind: RecipientKind)
    requires !kind.Bcc?
    ensures AddressesOf(LongRecipients(n), kind, n) == List(Repeat(n, WorstAddress()), false)
  {
    LongHeader(n, kind);
    LongAddress(kind);
    EqualRows(AddressesOf(LongRecipients(n), kind, n), Repeat(n, LongRecipient(kind)), LongRecipient(kind), n);
  }

  lemma LongAddresses(n: nat, kind: RecipientKind)
    requires n > 0 && !kind.Bcc?
    ensures AddressesLength(AddressesOf(LongRecipients(n), kind, n)) == 2 + WorstList(n, AddressLength(WorstAddress()))
    ensures !AddressesOf(LongRecipients(n), kind, n).truncated
  {
    LongItems(n, kind);
    RepeatLength(n, WorstAddress(), AddressLength);
  }

  lemma LongParts(l: Limits)
    requires InRange(l)
    ensures var list := AttachmentsOf(Repeat(l.maxAttachments, LongPart(l)), l.maxAttachments, l.maxFieldSize);
            && ListLength(list.items, AttachmentLength) == 2
                 + WorstList(l.maxAttachments, AttachmentLength(WorstAttachment(l)))
            && !list.truncated
  {
    var n := l.maxAttachments;
    SelectRepeat(n, LongPart(l), Listed);
    SortRepeat(n, LongPart(l), ByPosition);
    FillText(l.maxFieldSize, true);
    FillText(MAX_MIME_TYPE, true);
    assert AttachmentsOf(Repeat(n, LongPart(l)), n, l.maxFieldSize).items == Repeat(n, WorstAttachment(l));
    RepeatLength(n, WorstAttachment(l), AttachmentLength);
  }

  lemma LongHead(l: Limits)
    requires InRange(l)
    ensures HeadLength(EnvelopeOf(LongSource(l), l)) == HeadLength(WorstEnvelope(l))
    ensures ValidEnvelope(EnvelopeOf(LongSource(l), l))
  {
    FillText(l.maxFieldSize, true);
    FillLength(l.maxFieldSize);
  }

  lemma LongLists(l: Limits)
    requires InRange(l)
    ensures var e := EnvelopeOf(LongSource(l), l);
            && ListsLength(e) == 12 + 5 * WorstList(l.maxAddressesPerType, AddressLength(WorstAddress()))
                                + WorstList(l.maxAttachments, AttachmentLength(WorstAttachment(l)))
            && !e.from.truncated && !e.sender.truncated && !e.replyTo.truncated && !e.to.truncated && !e.cc.truncated
            && !e.attachments.truncated
  {
    var n := l.maxAddressesPerType;
    LongAddresses(n, From);
    LongAddresses(n, Sender);
    LongAddresses(n, ReplyTo);
    LongAddresses(n, To);
    LongAddresses(n, Cc);
    LongParts(l);
  }

  /** The worst case is the size of an email. */
  lemma WorstCaseReached(l: Limits)
    requires InRange(l)
    ensures EncodedLength(EnvelopeOf(LongSource(l), l)) == WorstCaseSize(l)
  {
    LongHead(l);
    LongLists(l);
    FillText(l.maxBodyTextSize, false);
    FillLength(l.maxBodyTextSize);
    WorstRest(l);
  }

  lemma LongDescribable(l: Limits)
    requires InRange(l)
    ensures Describable(LongSource(l))
  {
    FillLength(l.maxFieldSize);
  }

  /** Limits.Validate is exact: it accepts limits in range if and only if no email that an
      event can describe exceeds the payload limit. */
  lemma LimitsExact(l: Limits)
    requires InRange(l)
    ensures ValidLimits(l) <==>
              forall src :: Describable(src) && ValidEnvelope(EnvelopeOf(src, l)) ==>
                EncodedLength(EnvelopeOf(src, l)) <= l.maxPayloadSize
  {
    if ValidLimits(l) {
      forall src | Describable(src) && ValidEnvelope(EnvelopeOf(src, l))
        ensures EncodedLength(EnvelopeOf(src, l)) <= l.maxPayloadSize {
        PayloadBound(src, l);
      }
    } else {
      WorstCaseReached(l);
      LongDescribable(l);
      LongHead(l);
    }
  }
}
