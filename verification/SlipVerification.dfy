/** Building and verifying payment slips: what the checksum protects, and which built slips pass. */
module SlipVerification {
  import opened Bytes
  import opened Crc16
  import opened SlipText
  import opened Tables
  import opened Text
  import opened Tlv

  /** What the caller hands in; an absent text is empty. */
  datatype Slip = Slip(
    markedMalformed: bool, markedBadCrc: bool, requireCrc: bool, raw: string,
    amount: Option<string>, tag54: Option<string>, total: Option<string>,
    recipient: string, transRef: string, ref: string, hash: string)

  datatype Terms = Terms(expected: int, tolerance: int, order: OrderId, recipient: string)

  datatype Reason =
    | MarkedMalformed | MarkedBadCrc | BrokenTlv(fault: Fault, at: nat) | BadChecksum | NoChecksum
    | NoAmount | UnreadableAmount | NotPositive | OutOfTolerance | WrongRecipient

  datatype Verdict = Passed(claimKey: Key, slipHash: string, amount: Amount) | Failed(reason: Reason)

  // ---------- The checksum ----------

  function ChecksumText(data: string): (s: string)
    ensures |s| == 4
  {
    Hex(Checksum(Utf8(data)))
  }

  function ChecksumTag(tags: map<string, string>): (tag: Option<string>)
    ensures tag.Some? ==> tag.value in tags && |tag.value| == 2
  {
    if "91" in tags then Some("91") else if "63" in tags then Some("63") else None
  }

  /** The checksum covers everything up to and including the last tag-and-length marker. */
  predicate ChecksumHolds(raw: string, tag: string, value: string)
    requires |tag| == 2
  {
    var at := LastIndex(raw, tag + "04");
    at == -1 || Upper(value) == Upper(ChecksumText(raw[..at+4]))
  }

  // ---------- Verification ----------

  function Present(a: Option<string>): bool {
    a.Some? && a.value != ""
  }

  function TagOf(tags: map<string, string>, tag: string): Option<string> {
    if tag in tags then Some(tags[tag]) else None
  }

  /** The first amount that is stated; the last place is taken as it is. */
  function StatedAmount(slip: Slip, tags: map<string, string>): Option<string> {
    if Present(TagOf(tags, "54")) then TagOf(tags, "54")
    else if Present(slip.amount) then slip.amount
    else if Present(slip.tag54) then slip.tag54
    else slip.total
  }

  function Reference(slip: Slip, tags: map<string, string>, order: OrderId): string {
    if slip.transRef != "" then slip.transRef
    else if Present(TagOf(tags, "01")) then tags["01"]
    else if Present(TagOf(tags, "02")) then tags["02"]
    else if slip.ref != "" then slip.ref
    else order
  }

  /** Recipients are compared only when both sides name one. */
  predicate RecipientAgrees(slip: Slip, terms: Terms) {
    terms.recipient == "" || slip.recipient == "" || slip.recipient == terms.recipient
  }

  function VerifyAmount(slip: Slip, tags: map<string, string>, terms: Terms): Verdict {
    var stated := StatedAmount(slip, tags);
    if stated.None? then Failed(NoAmount)
    else
      match ParseAmount(stated.value)
      case None => Failed(UnreadableAmount)
      case Some(amount) =>
        if amount.units <= 0 then Failed(NotPositive)
        else if !Within(amount, terms.expected, terms.tolerance) then Failed(OutOfTolerance)
        else if !RecipientAgrees(slip, terms) then Failed(WrongRecipient)
        else
          var reference := Reference(slip, tags, terms.order);
          Passed(if reference != "" then "ref:" + reference else "ord:" + terms.order,
                 if slip.hash != "" then slip.hash else if reference != "" then "hash_" + reference else "",
                 amount)
  }

  function VerifyRaw(slip: Slip, terms: Terms): Verdict {
    match AsTags(Parse(slip.raw, 0))
    case Malformed(fault, at) => Failed(BrokenTlv(fault, at))
    case Tags(tags) =>
      match ChecksumTag(tags)
      case Some(tag) =>
        if ChecksumHolds(slip.raw, tag, tags[tag]) then VerifyAmount(slip, tags, terms) else Failed(BadChecksum)
      case None => if slip.requireCrc then Failed(NoChecksum) else VerifyAmount(slip, tags, terms)
  }

  function Verify(slip: Slip, terms: Terms): Verdict {
    if slip.markedMalformed then Failed(MarkedMalformed)
    else if slip.markedBadCrc then Failed(MarkedBadCrc)
    else if slip.raw != "" then VerifyRaw(slip, terms)
    else VerifyAmount(slip, map[], terms)
  }

  // ---------- What passing means ----------

  /** A slip text that is not a row of entries is refused, whatever else the caller hands in. */
  lemma BrokenTextIsRejected(slip: Slip, terms: Terms)
    requires slip.raw != "" && forall es | AllFit(es) :: Encode(es) != slip.raw
    ensures Verify(slip, terms).Failed?
  {
    if Parse(slip.raw, 0).Entries? {
      ReadIffWritten(slip.raw, Parse(slip.raw, 0).entries);
    }
  }

  lemma AmountIsChecked(slip: Slip, tags: map<string, string>, terms: Terms)
    requires VerifyAmount(slip, tags, terms).Passed?
    ensures var amount := VerifyAmount(slip, tags, terms).amount;
            && amount.units > 0 && Within(amount, terms.expected, terms.tolerance)
            && (exists text :: StatedAmount(slip, tags) == Some(text) && ParseAmount(text) == Some(amount))
    ensures terms.recipient != "" && slip.recipient != "" ==> slip.recipient == terms.recipient
  {
    var stated := StatedAmount(slip, tags);
    assert stated == Some(stated.value) && ParseAmount(stated.value) == Some(VerifyAmount(slip, tags, terms).amount);
  }

  /** What a slip that passes has shown: a readable text with its checksum, an amount in range, no other recipient. */
  lemma PassedMeansChecked(slip: Slip, terms: Terms) returns (es: seq<Entry>)
    requires Verify(slip, terms).Passed?
    ensures !slip.markedMalformed && !slip.markedBadCrc
    ensures AllFit(es) && Encode(es) == slip.raw
    ensures forall tag | ChecksumTag(LastWins(es)) == Some(tag) :: ChecksumHolds(slip.raw, tag, LastWins(es)[tag])
    ensures slip.requireCrc && slip.raw != "" ==> ChecksumTag(LastWins(es)).Some?
    ensures var amount := Verify(slip, terms).amount;
            && amount.units > 0 && Within(amount, terms.expected, terms.tolerance)
            && (exists text :: StatedAmount(slip, LastWins(es)) == Some(text) && ParseAmount(text) == Some(amount))
    ensures terms.recipient != "" && slip.recipient != "" ==> slip.recipient == terms.recipient
  {
    if slip.raw == "" {
      es := [];
    } else {
      es := Parse(slip.raw, 0).entries;
      ReadIffWritten(slip.raw, es);
    }
    AmountIsChecked(slip, LastWins(es), terms);
  }

  // ---------- Exactly which slips pass ----------

  /** The tags a slip shows: those of the entries that write its text, or none without a text. */
  ghost predicate Shows(slip: Slip, tags: map<string, string>) {
    if slip.raw == "" then tags == map[]
    else exists es :: AllFit(es) && Encode(es) == slip.raw && LastWins(es) == tags
  }

  /** The checksum of tag 91, or without that tag the one of tag 63, holds; without either none is called for. */
  predicate ChecksumStep(slip: Slip, tags: map<string, string>) {
    slip.raw == ""
    || if "91" in tags then ChecksumHolds(slip.raw, "91", tags["91"])
       else if "63" in tags then ChecksumHolds(slip.raw, "63", tags["63"])
       else !slip.requireCrc
  }

  /** `text` is the first of the four places for the amount that is not empty; the last one counts even when it is. */
  predicate States(slip: Slip, tags: map<string, string>, text: Option<string>) {
    if "54" in tags && tags["54"] != "" then text == Some(tags["54"])
    else if slip.amount.Some? && slip.amount.value != "" then text == slip.amount
    else if slip.tag54.Some? && slip.tag54.value != "" then text == slip.tag54
    else text == slip.total
  }

  /** `text` is the first reference that is not empty, of the caller's, tag 01, tag 02, the second one and the order. */
  predicate Refers(slip: Slip, tags: map<string, string>, order: OrderId, text: string) {
    if slip.transRef != "" then text == slip.transRef
    else if "01" in tags && tags["01"] != "" then text == tags["01"]
    else if "02" in tags && tags["02"] != "" then text == tags["02"]
    else if slip.ref != "" then text == slip.ref
    else text == order
  }

  lemma ShownIsParsed(slip: Slip, tags: map<string, string>)
    requires slip.raw != ""
    ensures Shows(slip, tags) <==> AsTags(Parse(slip.raw, 0)) == Tags(tags)
  {
    if es :| AllFit(es) && Encode(es) == slip.raw && LastWins(es) == tags {
      ReadIffWritten(slip.raw, es);
    }
    if Parse(slip.raw, 0).Entries? {
      ReadIffWritten(slip.raw, Parse(slip.raw, 0).entries);
    }
  }

  /** The checks on the amount and the recipient, in their order, and what passing yields. */
  lemma AmountVerdict(slip: Slip, tags: map<string, string>, terms: Terms, text: Option<string>, reference: string)
    requires States(slip, tags, text) && Refers(slip, tags, terms.order, reference)
    ensures var v := VerifyAmount(slip, tags, terms);
            if text.None? then v == Failed(NoAmount)
            else if ParseAmount(text.value).None? then v == Failed(UnreadableAmount)
            else
              var amount := ParseAmount(text.value).value;
              if amount.units <= 0 then v == Failed(NotPositive)
              else if !Within(amount, terms.expected, terms.tolerance) then v == Failed(OutOfTolerance)
              else if terms.recipient != "" && slip.recipient != "" && slip.recipient != terms.recipient then
                v == Failed(WrongRecipient)
              else
                v == Passed(
                  if reference != "" then "ref:" + reference else "ord:" + terms.order,
                  if slip.hash != "" then slip.hash else if reference != "" then "hash_" + reference else "",
                  amount)
  {
  }

  /** A readable slip is refused for its marks first, then for its checksum, and else judged by its amount and recipient. */
  lemma ReadableVerdict(slip: Slip, terms: Terms, tags: map<string, string>)
    requires Shows(slip, tags)
    ensures var v := Verify(slip, terms);
            if slip.markedMalformed then v == Failed(MarkedMalformed)
            else if slip.markedBadCrc then v == Failed(MarkedBadCrc)
            else if ChecksumStep(slip, tags) then v == VerifyAmount(slip, tags, terms)
            else v == Failed(if "91" in tags || "63" in tags then BadChecksum else NoChecksum)
  {
    if slip.raw != "" {
      ShownIsParsed(slip, tags);
    }
  }

  /**
   * Exactly which slips pass: no mark is set, the text is empty or readable with its checksum step met, the stated amount
   * is a decimal, positive and within tolerance, and no other recipient is named. The claim key names the reference.
   */
  lemma PassesIff(slip: Slip, terms: Terms, tags: map<string, string>, text: Option<string>, reference: string)
    requires Shows(slip, tags) && States(slip, tags, text) && Refers(slip, tags, terms.order, reference)
    ensures Verify(slip, terms).Passed? <==>
            && !slip.markedMalformed && !slip.markedBadCrc && ChecksumStep(slip, tags)
            && text.Some? && ParseAmount(text.value).Some? && ParseAmount(text.value).value.units > 0
            && Within(ParseAmount(text.value).value, terms.expected, terms.tolerance)
            && (terms.recipient == "" || slip.recipient == "" || slip.recipient == terms.recipient)
    ensures Verify(slip, terms).Passed? ==>
              && Verify(slip, terms).amount == ParseAmount(text.value).value
              && Verify(slip, terms).claimKey == if reference != "" then "ref:" + reference else "ord:" + terms.order
  {
    ReadableVerdict(slip, terms, tags);
    AmountVerdict(slip, tags, terms, text, reference);
  }

  /** A slip whose text is no row of entries fails, with the place where reading stopped. */
  lemma UnreadableVerdict(slip: Slip, terms: Terms)
    requires slip.raw != "" && (forall tags :: !Shows(slip, tags)) && !slip.markedMalformed && !slip.markedBadCrc
    ensures Parse(slip.raw, 0).Broken?
    ensures Verify(slip, terms) == Failed(BrokenTlv(Parse(slip.raw, 0).fault, Parse(slip.raw, 0).at))
  {
    if Parse(slip.raw, 0).Entries? {
      ShownIsParsed(slip, LastWins(Parse(slip.raw, 0).entries));
    }
  }

  lemma PassedShows(slip: Slip, terms: Terms) returns (tags: map<string, string>)
    requires Verify(slip, terms).Passed?
    ensures Shows(slip, tags)
  {
    if slip.raw == "" {
      tags := map[];
    } else {
      tags := LastWins(Parse(slip.raw, 0).entries);
      ShownIsParsed(slip, tags);
    }
  }

  /** Whatever order a slip is shown for, a reference that comes with it gives the one claim key. */
  lemma OneReferenceOneKey(slip: Slip, terms: Terms, again: Slip, others: Terms)
    requires Verify(slip, terms).Passed? && Verify(again, others).Passed?
    requires slip.transRef != "" && again.transRef == slip.transRef
    ensures Verify(again, others).claimKey == Verify(slip, terms).claimKey == "ref:" + slip.transRef
  {
    var tags := PassedShows(slip, terms);
    var shown := PassedShows(again, others);
    ReadableVerdict(slip, terms, tags);
    ReadableVerdict(again, others, shown);
    AmountVerdict(slip, tags, terms, StatedAmount(slip, tags), slip.transRef);
    AmountVerdict(again, shown, others, StatedAmount(again, shown), again.transRef);
  }

  /** The letters of a checksum may be written small or large. */
  lemma CaseDoesNotMatter(raw: string, tag: string, value: string, again: string)
    requires |tag| == 2 && |value| == |again|
    requires forall k | 0 <= k < |value| ::
               value[k] == again[k] || ('a' <= value[k] <= 'f' && 'A' <= again[k] <= 'F' && value[k] - 'a' == again[k] - 'A')
    ensures ChecksumHolds(raw, tag, value) <==> ChecksumHolds(raw, tag, again)
  {
    forall k | 0 <= k < |value| ensures Upper(value)[k] == Upper(again)[k] {
      UpperChanges(value, k);
      UpperChanges(again, k);
    }
    assert Upper(value) == Upper(again);
  }

  /** The value of the checksum entry matters exactly when the text contains the entry's tag followed by 04. */
  lemma ChecksumMattersIffMarked(raw: string, tag: string)
    requires |tag| == 2
    ensures (exists value :: !ChecksumHolds(raw, tag, value)) <==> exists k :: Occurs(raw, tag + "04", k)
  {
    var at := LastIndex(raw, tag + "04");
    if at == -1 {
      assert forall k :: !Occurs(raw, tag + "04", k);
    } else {
      assert Occurs(raw, tag + "04", at);
      assert |Upper(ChecksumText(raw[..at+4]))| == 4 && |Upper("")| == 0;
      assert !ChecksumHolds(raw, tag, "");
    }
  }

  // ---------- Slips that end in their checksum ----------

  /** Entries followed by a last one of tag 91, or of tag 63 where no tag 91 comes before it, and length 04. */
  ghost predicate Sealed(body: seq<Entry>, tag: string, crc: string) {
    && AllFit(body)
    && |crc| == 4
    && (tag == "91" || (tag == "63" && forall e | e in body :: e.tag != "91"))
  }

  function SealedText(body: seq<Entry>, tag: string, crc: string): string {
    Encode(body) + (tag + "04") + crc
  }

  lemma SealedTextIsEncoded(body: seq<Entry>, tag: string, crc: string)
    requires |tag| == 2 && |crc| == 4
    ensures SealedText(body, tag, crc) == Encode(body + [Entry(tag, crc)])
  {
    var last := Entry(tag, crc);
    EncodeAppends(body, [last]);
    EncodeOne(last, []);
    assert [last] + [] == [last];
    assert TwoDigits(4) == "04";
    assert EncodeEntry(last) == tag + "04" + crc;
  }

  lemma SealedTags(body: seq<Entry>, tag: string, crc: string)
    requires Sealed(body, tag, crc)
    ensures Parse(SealedText(body, tag, crc), 0) == Entries(body + [Entry(tag, crc)])
    ensures ChecksumTag(LastWins(body + [Entry(tag, crc)])) == Some(tag)
    ensures LastWins(body + [Entry(tag, crc)])[tag] == crc
  {
    var es := body + [Entry(tag, crc)];
    SealedTextIsEncoded(body, tag, crc);
    ReadIffWritten(SealedText(body, tag, crc), es);
    LastEntryWins(es, |body|);
    TagsOf(es, "91");
  }

  lemma OtherwiseAt(s: string, marker: string, k: nat, i: nat)
    requires i < |marker| && (k + |marker| <= |s| ==> s[k + i] != marker[i])
    ensures !Occurs(s, marker, k)
  {
  }

  /** A text of four characters that cannot overlap itself, followed by four more. */
  lemma LastOfTwo(p: string, marker: string, crc: string)
    requires |marker| == |crc| == 4 && marker[0] != marker[1] && marker[0] != marker[2] && marker[0] != marker[3]
    ensures LastIndex(p + marker + crc, marker) == if crc == marker then |p| + 4 else |p|
  {
    var s, n := p + marker + crc, |p|;
    assert s[n..n+4] == marker && s[n+4..n+8] == crc;
    assert s[n+1] == marker[1] && s[n+2] == marker[2] && s[n+3] == marker[3];
    OtherwiseAt(s, marker, n + 1, 0);
    OtherwiseAt(s, marker, n + 2, 0);
    OtherwiseAt(s, marker, n + 3, 0);
    assert Occurs(s, marker, n);
    assert Occurs(s, marker, n + 4) <==> crc == marker;
  }

  /** The marker that is found last: the entry's own, unless the checksum reads like a marker itself. */
  lemma LastMarker(p: string, tag: string, crc: string)
    requires tag == "91" || tag == "63"
    requires |crc| == 4
    ensures LastIndex(p + (tag + "04") + crc, tag + "04") == if crc == tag + "04" then |p| + 4 else |p|
  {
    var marker := tag + "04";
    assert marker[0] == tag[0] && marker[1] == tag[1] && marker[2] == '0' && marker[3] == '4';
    LastOfTwo(p, marker, crc);
  }

  /** What the checksum of a sealed slip is compared with. */
  function Covered(body: seq<Entry>, tag: string, crc: string): string {
    if crc == tag + "04" then SealedText(body, tag, crc) else Encode(body) + (tag + "04")
  }

  lemma TakePrefix(p: string, marker: string, crc: string, at: int)
    requires |marker| == |crc| == 4 && at == if crc == marker then |p| + 4 else |p|
    ensures (p + marker + crc)[..at+4] == if crc == marker then p + marker + crc else p + marker
  {
  }

  lemma CutAtMarker(body: seq<Entry>, tag: string, crc: string)
    requires (tag == "91" || tag == "63") && |crc| == 4
    ensures var s, at := SealedText(body, tag, crc), LastIndex(SealedText(body, tag, crc), tag + "04");
            at >= 0 && s[..at+4] == Covered(body, tag, crc)
  {
    LastMarker(Encode(body), tag, crc);
    TakePrefix(Encode(body), tag + "04", crc, LastIndex(SealedText(body, tag, crc), tag + "04"));
  }

  /**
   * A sealed slip passes the checksum step exactly when its last value is the checksum of everything before that
   * value; a value that reads like the marker is compared with the checksum of the whole slip instead.
   */
  lemma SealIsChecked(body: seq<Entry>, tag: string, crc: string)
    requires Sealed(body, tag, crc)
    ensures ChecksumHolds(SealedText(body, tag, crc), tag, crc) <==> Upper(crc) == ChecksumText(Covered(body, tag, crc))
  {
    CutAtMarker(body, tag, crc);
    HexIsUpper(Checksum(Utf8(Covered(body, tag, crc))));
  }

  // ---------- Tampering ----------

  function Altered(body: seq<Entry>, j: nat, value: string): seq<Entry>
    requires j < |body|
  {
    body[j := Entry(body[j].tag, value)]
  }

  lemma EncodeAround(left: seq<Entry>, e: Entry, right: seq<Entry>)
    ensures Encode(left + ([e] + right)) == Encode(left) + (EncodeEntry(e) + Encode(right))
  {
    EncodeAppends(left, [e] + right);
    EncodeOne(e, right);
  }

  lemma Rebracket(a: string, b: string, c: string, d: string, e: string, f: string)
    ensures a + (b + (c + d + e) + f) == (a + b + c) + d + (e + f)
  {
  }

  function TextBefore(left: seq<Entry>, tag: string, length: nat, head: string): string {
    Encode(left) + (tag + TwoDigits(length)) + head
  }

  /** The text around a part of one value. */
  lemma TextAround(left: seq<Entry>, e: Entry, right: seq<Entry>, head: string, m: string, tail: string, before: string)
    requires e.value == head + m + tail && before == TextBefore(left, e.tag, |e.value|, head)
    ensures Encode(left + ([e] + right)) == before + m + (tail + Encode(right))
  {
    EncodeAround(left, e, right);
    Rebracket(Encode(left), e.tag + TwoDigits(|e.value|), head, m, tail, Encode(right));
  }

  lemma SplitAt(body: seq<Entry>, j: nat, f: Entry)
    requires j < |body|
    ensures body[..j] + ([body[j]] + body[j+1..]) == body
    ensures body[..j] + ([f] + body[j+1..]) == body[j := f]
  {
  }

  /** Changing a part of one value changes that part of the text and nothing else. */
  lemma AlteredText(body: seq<Entry>, j: nat, head: string, m: string, n: string, tail: string)
    returns (before: string, after: string)
    requires j < |body| && body[j].value == head + m + tail && |m| == |n|
    ensures Encode(body) == before + m + after
    ensures Encode(Altered(body, j, head + n + tail)) == before + n + after
  {
    var left, e, right := body[..j], body[j], body[j+1..];
    var f := Entry(e.tag, head + n + tail);
    before, after := TextBefore(left, e.tag, |e.value|, head), tail + Encode(right);
    SplitAt(body, j, f);
    TextAround(left, e, right, head, m, tail, before);
    assert |f.value| == |e.value|;
    TextAround(left, f, right, head, n, tail, before);
  }

  /** Texts that differ in one character or in two neighbouring ones have different checksums. */
  lemma ChecksumsDiffer(before: string, m: string, n: string, after: string)
    requires |m| == |n| <= 2 && m != n && Ascii(m) && Ascii(n)
    ensures ChecksumText(before + m + after) != ChecksumText(before + n + after)
  {
    Utf8Appends(before + m, after);
    Utf8Appends(before, m);
    Utf8Appends(before + n, after);
    Utf8Appends(before, n);
    AsciiIsInjective(m, n);
    NeighbouringErrorsAreDetected(Utf8(before), Utf8(m), Utf8(n), Utf8(after));
    if ChecksumText(before + m + after) == ChecksumText(before + n + after) {
      HexIsInjective(Checksum(Utf8(before + m + after)), Checksum(Utf8(before + n + after)));
    }
  }

  lemma Reassociate(a: string, b: string, c: string, d: string, e: string)
    ensures (a + b + c) + d == a + b + (c + d)
    ensures (a + b + c) + d + e == a + b + (c + (d + e))
  {
  }

  lemma CoveredText(body: seq<Entry>, tag: string, crc: string, before: string, m: string, after: string)
    requires Encode(body) == before + m + after
    ensures Covered(body, tag, crc) ==
            before + m + if crc == tag + "04" then after + ((tag + "04") + crc) else after + (tag + "04")
  {
    Reassociate(before, m, after, tag + "04", crc);
  }

  lemma CoveredDiffers(body: seq<Entry>, j: nat, tag: string, crc: string, head: string, m: string, n: string, tail: string)
    requires j < |body| && body[j].value == head + m + tail
    requires |m| == |n| <= 2 && m != n && Ascii(m) && Ascii(n)
    ensures ChecksumText(Covered(body, tag, crc)) != ChecksumText(Covered(Altered(body, j, head + n + tail), tag, crc))
  {
    var before, after := AlteredText(body, j, head, m, n, tail);
    CoveredText(body, tag, crc, before, m, after);
    CoveredText(Altered(body, j, head + n + tail), tag, crc, before, n, after);
    ChecksumsDiffer(before, m, n, if crc == tag + "04" then after + ((tag + "04") + crc) else after + (tag + "04"));
  }

  /**
   * A slip that ends in its checksum and whose checksum holds is refused once one character, or two neighbouring
   * ones, inside any other value are changed.
   */
  lemma TamperingIsRejected(slip: Slip, terms: Terms, body: seq<Entry>, j: nat, tag: string, crc: string,
                            head: string, m: string, n: string, tail: string)
    requires Sealed(body, tag, crc) && slip.raw == SealedText(body, tag, crc)
    requires !slip.markedMalformed && !slip.markedBadCrc && ChecksumHolds(slip.raw, tag, crc)
    requires j < |body| && body[j].value == head + m + tail
    requires |m| == |n| <= 2 && m != n && Ascii(m) && Ascii(n)
    ensures Verify(slip.(raw := SealedText(Altered(body, j, head + n + tail), tag, crc)), terms) == Failed(BadChecksum)
  {
    var other := Altered(body, j, head + n + tail);
    SealIsChecked(body, tag, crc);
    AlteredStaysSealed(body, j, tag, crc, head + n + tail);
    SealIsChecked(other, tag, crc);
    CoveredDiffers(body, j, tag, crc, head, m, n, tail);
    BrokenSealIsRejected(slip.(raw := SealedText(other, tag, crc)), terms, other, tag, crc);
  }

  lemma BrokenSealIsRejected(slip: Slip, terms: Terms, body: seq<Entry>, tag: string, crc: string)
    requires Sealed(body, tag, crc) && slip.raw == SealedText(body, tag, crc)
    requires !slip.markedMalformed && !slip.markedBadCrc && !ChecksumHolds(slip.raw, tag, crc)
    ensures Verify(slip, terms) == Failed(BadChecksum)
  {
    SealedTags(body, tag, crc);
  }

  lemma AlteredStaysSealed(body: seq<Entry>, j: nat, tag: string, crc: string, value: string)
    requires Sealed(body, tag, crc) && j < |body| && |value| == |body[j].value|
    ensures Sealed(Altered(body, j, value), tag, crc)
  {
    var other := Altered(body, j, value);
    assert Fits(body[j]);
    forall e | e in other ensures Fits(e) && (tag == "63" ==> e.tag != "91") {
      assert e in body || e == Entry(body[j].tag, value);
    }
  }

  // ---------- Building ----------

  function BuildTestSlip(cents: int, ref: string, validCrc: bool, tag: string, currency: string, country: string): string {
    var amount := FormatCents(cents);
    var prefix := "000201"
                + ("01" + TwoDigits(|ref|) + ref)
                + ("53" + TwoDigits(|currency|) + currency)
                + ("54" + TwoDigits(|amount|) + amount)
                + ("58" + TwoDigits(|country|) + country)
                + (tag + "04");
    prefix + if validCrc then ChecksumText(prefix) else "0000"
  }

  function BuiltBody(cents: int, ref: string, currency: string, country: string): seq<Entry> {
    [Entry("00", "01")] + [Entry("01", ref)] + [Entry("53", currency)] + [Entry("54", FormatCents(cents))]
    + [Entry("58", country)]
  }

  lemma EncodeLast(es: seq<Entry>, e: Entry)
    ensures Encode(es + [e]) == Encode(es) + EncodeEntry(e)
  {
    EncodeAppends(es, [e]);
    EncodeOne(e, []);
    assert [e] + [] == [e];
  }

  lemma EncodeFive(a: Entry, b: Entry, c: Entry, d: Entry, e: Entry)
    ensures Encode([a] + [b] + [c] + [d] + [e]) ==
            EncodeEntry(a) + EncodeEntry(b) + EncodeEntry(c) + EncodeEntry(d) + EncodeEntry(e)
  {
    EncodeLast([], a);
    assert [] + [a] == [a] && Encode([a]) == EncodeEntry(a);
    EncodeLast([a], b);
    EncodeLast([a] + [b], c);
    EncodeLast([a] + [b] + [c], d);
    EncodeLast([a] + [b] + [c] + [d], e);
  }

  lemma BuiltBodyText(cents: int, ref: string, currency: string, country: string)
    ensures var amount := FormatCents(cents);
            Encode(BuiltBody(cents, ref, currency, country)) ==
            "000201" + ("01" + TwoDigits(|ref|) + ref) + ("53" + TwoDigits(|currency|) + currency)
            + ("54" + TwoDigits(|amount|) + amount) + ("58" + TwoDigits(|country|) + country)
  {
    var a, b, c := Entry("00", "01"), Entry("01", ref), Entry("53", currency);
    EncodeFive(a, b, c, Entry("54", FormatCents(cents)), Entry("58", country));
    assert TwoDigits(2) == "02";
    assert EncodeEntry(a) == "000201";
  }

  // ---------- Which built slips pass ----------

  lemma FourBytes(a: char, b: char, c: char, d: char)
    requires Ascii([a, b, c, d])
    ensures Utf8([a, b, c, d]) == CharBytes(a) + CharBytes(b) + CharBytes(c) + CharBytes(d)
  {
    assert [a, b, c, d][1..] == [b, c, d] && [b, c, d][1..] == [c, d] && [c, d][1..] == [d] && [d][1..] == "";
    assert Utf8([d]) == CharBytes(d) + Utf8("");
    assert Utf8([c, d]) == CharBytes(c) + Utf8([d]);
    assert Utf8([b, c, d]) == CharBytes(b) + Utf8([c, d]);
  }

  lemma BytesOf9104()
    ensures Utf8("9104") == [0x39, 0x31, 0x30, 0x34]
  {
    DigitBytes();
    FourBytes('9', '1', '0', '4');
  }

  lemma BytesOf6304()
    ensures Utf8("6304") == [0x36, 0x33, 0x30, 0x34]
  {
    DigitBytes();
    FourBytes('6', '3', '0', '4');
  }

  lemma OneByOne(bytes: seq<Byte>, a: Byte, b: Byte, c: Byte, d: Byte)
    ensures bytes + [a, b, c, d] == bytes + [a] + [b] + [c] + [d]
  {
  }

  lemma Never9104(p: string)
    requires ChecksumText(p) == "9104"
    ensures ChecksumText(p + "9104") != "9104"
  {
    var bytes := Utf8(p);
    BytesOf9104();
    Utf8Appends(p, "9104");
    OneByOne(bytes, 0x39, 0x31, 0x30, 0x34);
    NoFixedMarker(bytes);
  }

  lemma Never6304(p: string)
    requires ChecksumText(p) == "6304"
    ensures ChecksumText(p + "6304") != "6304"
  {
    var bytes := Utf8(p);
    BytesOf6304();
    Utf8Appends(p, "6304");
    OneByOne(bytes, 0x36, 0x33, 0x30, 0x34);
    NoFixedMarker(bytes);
  }

  /** A checksum that reads like the marker is never the checksum of the text it then ends. */
  lemma OwnMarkerNeverHolds(p: string, marker: string)
    requires marker == "9104" || marker == "6304"
    requires ChecksumText(p) == marker
    ensures ChecksumText(p + marker) != marker
  {
    if marker == "9104" {
      Never9104(p);
    } else {
      Never6304(p);
    }
  }

  lemma MarkerOf(tag: string)
    requires tag == "91" || tag == "63"
    ensures tag + "04" == if tag == "91" then "9104" else "6304"
    ensures tag + "04" != "0000"
  {
  }

  lemma TrueChecksumHolds(body: seq<Entry>, tag: string)
    requires Sealed(body, tag, "0000")
    ensures var crc := ChecksumText(Encode(body) + (tag + "04"));
            ChecksumHolds(SealedText(body, tag, crc), tag, crc) <==> crc != tag + "04"
  {
    var p := Encode(body) + (tag + "04");
    var crc := ChecksumText(p);
    SealIsChecked(body, tag, crc);
    HexIsUpper(Checksum(Utf8(p)));
    if crc == tag + "04" {
      MarkerOf(tag);
      OwnMarkerNeverHolds(p, tag + "04");
    }
  }

  lemma FixedChecksumHolds(body: seq<Entry>, tag: string, crc: string)
    requires Sealed(body, tag, crc) && crc != tag + "04" && Upper(crc) == crc
    ensures ChecksumHolds(SealedText(body, tag, crc), tag, crc) <==> ChecksumText(Encode(body) + (tag + "04")) == crc
  {
    SealIsChecked(body, tag, crc);
  }

  lemma BuiltChecksumHolds(body: seq<Entry>, tag: string, validCrc: bool, crc: string)
    requires Sealed(body, tag, "0000")
    requires crc == if validCrc then ChecksumText(Encode(body) + (tag + "04")) else "0000"
    ensures ChecksumHolds(SealedText(body, tag, crc), tag, crc) <==>
            if validCrc then crc != tag + "04" else ChecksumText(Encode(body) + (tag + "04")) == "0000"
  {
    if validCrc {
      TrueChecksumHolds(body, tag);
    } else {
      MarkerOf(tag);
      DigitsAreUpper("0000");
      FixedChecksumHolds(body, tag, crc);
    }
  }

  lemma CentsWithin(cents: int, expected: int, tolerance: int)
    ensures Within(Amount(cents, 2), expected, tolerance) <==> -tolerance <= cents - expected <= tolerance
  {
    assert Power10(2) == 10 * Power10(1) == 100;
  }

  lemma BuiltTags(cents: int, ref: string, currency: string, country: string, tag: string, crc: string)
    requires tag == "91" || tag == "63"
    ensures var tags := LastWins(BuiltBody(cents, ref, currency, country) + [Entry(tag, crc)]);
            "54" in tags && tags["54"] == FormatCents(cents) && "01" in tags && tags["01"] == ref
  {
    var es := BuiltBody(cents, ref, currency, country) + [Entry(tag, crc)];
    LastEntryWins(es, 1);
    LastEntryWins(es, 3);
  }

  lemma BuiltBodyFits(cents: int, ref: string, currency: string, country: string)
    requires |ref| <= 99 && |currency| <= 99 && |country| <= 99 && |FormatCents(cents)| <= 99
    ensures AllFit(BuiltBody(cents, ref, currency, country))
    ensures forall e | e in BuiltBody(cents, ref, currency, country) :: e.tag != "91"
  {
  }

  lemma BuiltIsSealed(cents: int, ref: string, validCrc: bool, tag: string, currency: string, country: string)
    requires |ref| <= 99 && |currency| <= 99 && |country| <= 99 && |FormatCents(cents)| <= 99
    requires tag == "91" || tag == "63"
    ensures var body := BuiltBody(cents, ref, currency, country);
            && Sealed(body, tag, "0000")
            && BuildTestSlip(cents, ref, validCrc, tag, currency, country) ==
               SealedText(body, tag, if validCrc then ChecksumText(Encode(body) + (tag + "04")) else "0000")
  {
    BuiltBodyFits(cents, ref, currency, country);
    BuiltBodyText(cents, ref, currency, country);
  }

  /**
   * A built slip passes exactly when its amount is positive and within tolerance, no other recipient is named, and its
   * checksum text does not read like the checksum's own marker; built with the constant 0000 it passes only if that is the checksum.
   */
  lemma BuiltSlipPassesIff(slip: Slip, terms: Terms, cents: int, ref: string, validCrc: bool, tag: string,
                           currency: string, country: string)
    requires |ref| <= 99 && |currency| <= 99 && |country| <= 99 && |FormatCents(cents)| <= 99
    requires tag == "91" || tag == "63"
    requires !slip.markedMalformed && !slip.markedBadCrc
    requires slip.raw == BuildTestSlip(cents, ref, validCrc, tag, currency, country)
    ensures var sum := ChecksumText(Encode(BuiltBody(cents, ref, currency, country)) + (tag + "04"));
            Verify(slip, terms).Passed? <==>
            && cents > 0
            && -terms.tolerance <= cents - terms.expected <= terms.tolerance
            && (if validCrc then sum != tag + "04" else sum == "0000")
            && RecipientAgrees(slip, terms)
    ensures Verify(slip, terms).Passed? ==> Verify(slip, terms).amount == Amount(cents, 2)
    ensures Verify(slip, terms).Passed? && slip.transRef == "" && ref != "" ==> Verify(slip, terms).claimKey == "ref:" + ref
  {
    var body := BuiltBody(cents, ref, currency, country);
    var crc := if validCrc then ChecksumText(Encode(body) + (tag + "04")) else "0000";
    var tags := LastWins(body + [Entry(tag, crc)]);
    BuiltIsSealed(cents, ref, validCrc, tag, currency, country);
    SealedTags(body, tag, crc);
    BuiltChecksumHolds(body, tag, validCrc, crc);
    BuiltTags(cents, ref, currency, country, tag, crc);
    AmountReadsBack(cents);
    CentsWithin(cents, terms.expected, terms.tolerance);
    VerifyUnfolds(slip, terms, tags, tag, cents);
  }

  lemma VerifyUnfolds(slip: Slip, terms: Terms, tags: map<string, string>, tag: string, cents: int)
    requires !slip.markedMalformed && !slip.markedBadCrc && slip.raw != ""
    requires AsTags(Parse(slip.raw, 0)) == Tags(tags) && ChecksumTag(tags) == Some(tag)
    requires "54" in tags && tags["54"] != "" && ParseAmount(tags["54"]) == Some(Amount(cents, 2)) && "01" in tags
    ensures Verify(slip, terms).Passed? <==>
            && ChecksumHolds(slip.raw, tag, tags[tag])
            && cents > 0 && Within(Amount(cents, 2), terms.expected, terms.tolerance) && RecipientAgrees(slip, terms)
    ensures Verify(slip, terms).Passed? ==> Verify(slip, terms).amount == Amount(cents, 2)
    ensures Verify(slip, terms).Passed? && slip.transRef == "" && tags["01"] != "" ==>
            Verify(slip, terms).claimKey == "ref:" + tags["01"]
  {
  }
}
