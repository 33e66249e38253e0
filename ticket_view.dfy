/** The purchased-ticket viewer (components/TicketViewModal.tsx): the
    ticket-type abbreviation on each tab, the list of ticket indexes, the
    QR payload `{orderId}-{ticketIndex}`, and the reset of the selected
    ticket when a ticket is opened. */
module TicketView {
  import opened Js
  import opened Strings

  /** `word.charAt(0)` */
  function FirstChar(word: string): (r: string)
    ensures |r| <= 1 && (r == "" <==> word == "")
    ensures word != "" ==> r == [word[0]]
  {
    if word == "" then "" else [word[0]]
  }

  /** `words.map(word => word.charAt(0)).join('')` */
  function Initials(words: seq<string>): string {
    if words == [] then "" else FirstChar(words[0]) + Initials(words[1..])
  }

  /** `abbreviateTicketType(type)`: never holds a lower-case ASCII letter. */
  function Abbreviate(ticketType: string): (r: string)
    ensures ticketType == "" ==> r == ""
    ensures forall i :: 0 <= i < |r| ==> !('a' <= r[i] <= 'z')
  {
    if ticketType == "" then "" else ToUpper(Initials(Split(ticketType, ' ')))
  }

  /** The number of non-empty words. */
  function NonEmptyCount(words: seq<string>): nat {
    if words == [] then 0 else (if words[0] != "" then 1 else 0) + NonEmptyCount(words[1..])
  }

  lemma {:induction false} InitialsLength(words: seq<string>)
    ensures |Initials(words)| == NonEmptyCount(words) <= |words|
    decreases |words|
  {
    if words != [] {
      InitialsLength(words[1..]);
    }
  }

  /** The abbreviation has one letter per non-empty word, so never more than
      one more than the number of spaces. */
  lemma AbbreviateLength(ticketType: string)
    ensures ticketType != "" ==> |Abbreviate(ticketType)| == NonEmptyCount(Split(ticketType, ' '))
    ensures |Abbreviate(ticketType)| <= multiset(ticketType)[' '] + 1
  {
    InitialsLength(Split(ticketType, ' '));
    SplitCount(ticketType, ' ');
  }

  /** The initials of non-empty words are their first characters, in order. */
  lemma {:induction false} InitialsOfWords(words: seq<string>)
    requires forall i :: 0 <= i < |words| ==> words[i] != ""
    ensures |Initials(words)| == |words|
    ensures forall i :: 0 <= i < |words| ==> Initials(words)[i] == words[i][0]
    decreases |words|
  {
    if words != [] {
      InitialsOfWords(words[1..]);
      var rest := Initials(words[1..]);
      assert Initials(words) == [words[0][0]] + rest;
      forall i | 1 <= i < |words| ensures Initials(words)[i] == words[i][0] {
        assert Initials(words)[i] == rest[i - 1];
        assert words[1..][i - 1] == words[i];
      }
    }
  }

  /** Words joined by single spaces abbreviate to their upper-cased first
      letters, one per word, in order. */
  lemma AbbreviateJoinedWords(words: seq<string>)
    requires |words| >= 1
    requires forall i :: 0 <= i < |words| ==> words[i] != "" && ' ' !in words[i]
    ensures var r := Abbreviate(Join(words, ' '));
      |r| == |words| && forall i :: 0 <= i < |words| ==> r[i] == UpperChar(words[i][0])
  {
    SplitJoin(words, ' ');
    InitialsOfWords(words);
    assert Join(words, ' ') != "" by {
      JoinStartsWithFirst(words, ' ');
    }
  }

  lemma JoinStartsWithFirst(parts: seq<string>, sep: char)
    requires |parts| >= 1
    ensures |Join(parts, sep)| >= |parts[0]|
  {
  }

  /** `Array.from({ length: qty }, (_, i) => i)` */
  function TicketIndexes(qty: nat): (r: seq<nat>)
    ensures |r| == qty
    ensures forall i :: 0 <= i < qty ==> r[i] == i
  {
    if qty == 0 then [] else TicketIndexes(qty - 1) + [qty - 1]
  }

  /** `ticketArray`: the indexes of the open ticket's `qty` tickets, none
      without a ticket. `Array.from` clamps a negative length to 0. */
  function TicketArray(qty: Option<int>): (r: seq<nat>)
    ensures qty.None? ==> r == []
    ensures qty.Some? && qty.value < 0 ==> r == []
    ensures qty.Some? && qty.value >= 0 ==> |r| == qty.value && forall i :: 0 <= i < |r| ==> r[i] == i
  {
    if qty.Some? && qty.value >= 0 then TicketIndexes(qty.value) else []
  }

  /** `ticket?.orderId || 'unknown_order'` */
  function SafeOrderId(orderId: string): string {
    if orderId == "" then "unknown_order" else orderId
  }

  /** `${safeOrderId}-${activeTicketIndex}` */
  function QrValue(orderId: string, activeTicketIndex: nat): string {
    SafeOrderId(orderId) + "-" + NatToString(activeTicketIndex)
  }

  /** The payload reads back: the text after its last hyphen is the decimal
      ticket index, and the text before it is the order id (or the
      placeholder), whatever hyphens the order id itself contains. */
  lemma QrValueRoundTrip(orderId: string, activeTicketIndex: nat)
    ensures var qr := QrValue(orderId, activeTicketIndex);
      var digits := Last(Split(qr, '-'));
      && (forall i :: 0 <= i < |digits| ==> IsDigit(digits[i]))
      && DecimalValue(digits) == activeTicketIndex
      && |digits| < |qr|
      && qr[..|qr| - |digits| - 1] == SafeOrderId(orderId)
  {
    var digits := NatToString(activeTicketIndex);
    assert forall i :: 0 <= i < |digits| ==> digits[i] != '-';
    assert QrValue(orderId, activeTicketIndex) == SafeOrderId(orderId) + ['-'] + digits;
    LastPieceAfterSeparator(SafeOrderId(orderId), '-', digits);
    DecimalValueOfNatToString(activeTicketIndex);
    var qr := QrValue(orderId, activeTicketIndex);
    assert qr[..|qr| - |digits| - 1] == SafeOrderId(orderId);
  }

  /** The selected ticket after the open effect: opening the modal on a
      ticket selects the first ticket; otherwise the selection stays. */
  function IndexAfterOpenEffect(isOpen: bool, hasTicket: bool, activeTicketIndex: nat): (r: nat)
    ensures isOpen && hasTicket ==> r == 0
    ensures !(isOpen && hasTicket) ==> r == activeTicketIndex
  {
    if isOpen && hasTicket then 0 else activeTicketIndex
  }

  /** So the QR code first shown for an order is that of its first ticket. */
  lemma OpenShowsFirstTicket(orderId: string, activeTicketIndex: nat)
    ensures QrValue(orderId, IndexAfterOpenEffect(true, true, activeTicketIndex)) == SafeOrderId(orderId) + "-0"
  {
  }
}
