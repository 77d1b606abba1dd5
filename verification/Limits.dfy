/** The wire ceilings, the string caps, and truncation on a character boundary. */
module Limits {
  import opened Utf8
  import opened Json

  const MAX_IPC_BYTES: nat := 1024 * 1024
  const MAX_ENTRY_SIZE_BYTES: nat := MAX_IPC_BYTES * 3 / 4
  const IPC_ENVELOPE_RESERVE_BYTES: nat := 8 * 1024
  const PREVIEW_MAX_CHARS: nat := 180
  const MAX_DTO_SOURCE_APP_NAME_BYTES: nat := 128
  const MAX_DTO_MIME_BYTES: nat := 64
  const MAX_DTO_LANGUAGE_BYTES: nat := 32
  const MAX_DTO_REPRESENTATION_SUMMARIES: nat := 8
  const IPC_ROW_SCALAR_BYTES: nat := 512
  const IPC_ROW_OVERHEAD_BYTES: nat :=
    IPC_ROW_SCALAR_BYTES + PREVIEW_MAX_CHARS * 4 * 6 + MAX_DTO_SOURCE_APP_NAME_BYTES * 6 + MAX_DTO_LANGUAGE_BYTES * 6
    + MAX_DTO_REPRESENTATION_SUMMARIES * (MAX_DTO_MIME_BYTES * 6 + 64)
  const MAX_RESPONSE_TEXT_WIRE_BYTES: nat := MAX_IPC_BYTES - IPC_ENVELOPE_RESERVE_BYTES
  const MAX_ENTRY_TEXT_WIRE_BYTES: nat := MAX_RESPONSE_TEXT_WIRE_BYTES - IPC_ROW_OVERHEAD_BYTES

  predicate EntryTextFitsWire(text: string) {
    EscapedLen(text) <= MAX_ENTRY_TEXT_WIRE_BYTES
  }

  /** Text is admitted exactly when it fits one response beside the most metadata a row can have. */
  lemma AdmittedIff(text: string)
    ensures EntryTextFitsWire(text) <==> |Escape(Encode(text))| + 9_376 <= 1024 * 1024 - 8 * 1024
    ensures IPC_ROW_OVERHEAD_BYTES == 9_376
  {
  }

  /** The build-time budget assertions, and what they are for: text at the raw ceiling whose
    * bytes need no escaping is never refused by the wire ceiling.
    */
  lemma PlainTextAtTheRawCeilingFits(text: string)
    requires ByteLen(text) <= MAX_ENTRY_SIZE_BYTES
    requires forall c :: c in text ==> !MustEscape(c)
    ensures EntryTextFitsWire(text)
    ensures MAX_IPC_BYTES - MAX_ENTRY_SIZE_BYTES >= 64 * 1024 && MAX_ENTRY_TEXT_WIRE_BYTES < MAX_IPC_BYTES
  {
    BytewiseIsCharwise(text);
    NothingToEscape(text);
  }

  lemma {:induction false} NothingToEscape(text: string)
    requires forall c :: c in text ==> !MustEscape(c)
    ensures EscapeText(text) == text
  {
    if text != [] {
      assert text[0] in text;
      NothingToEscape(text[1..]);
      assert text == [text[0]] + text[1..];
    }
  }

  // --- Truncation ------------------------------------------------------------------------

  function Truncated(text: string, max: nat): string {
    if ByteLen(text) <= max then text else Truncated(text[..|text| - 1], max)
  }

  /** The longest prefix of whole characters within `max` bytes. */
  lemma {:induction false} TruncatedIsLongest(text: string, max: nat)
    ensures Truncated(text, max) <= text && ByteLen(Truncated(text, max)) <= max
    ensures forall k :: 0 <= k <= |text| && ByteLen(text[..k]) <= max ==> k <= |Truncated(text, max)|
    ensures |Escape(Encode(Truncated(text, max)))| <= 6 * max
  {
    if ByteLen(text) > max {
      var init := text[..|text| - 1];
      TruncatedIsLongest(init, max);
      assert text[..|text|] == text;
      forall k | 0 <= k <= |text| && ByteLen(text[..k]) <= max ensures k <= |Truncated(text, max)| {
        assert k < |text|;
        assert text[..k] == init[..k];
      }
    }
    EscapeBounds(Encode(Truncated(text, max)));
  }

  /** Walks back from `max` to a character boundary. */
  method TruncateOnCharBoundary(text: string, max: nat) returns (kept: seq<Byte>)
    ensures kept == Encode(Truncated(text, max))
  {
    var bytes := Encode(text);
    if |bytes| <= max { return bytes; }
    var end := max;
    while end > 0 && !IsCharBoundary(bytes, end)
      invariant 0 <= end <= max
      invariant forall i :: end < i <= max ==> !IsCharBoundary(bytes, i)
    {
      end := end - 1;
    }
    kept := bytes[..end];
    LongestEnd(text, max, end);
  }

  /** The last boundary at or before `max` is where the longest prefix ends. */
  lemma LongestEnd(text: string, max: nat, end: nat)
    requires end <= max < ByteLen(text) && IsCharBoundary(Encode(text), end)
    requires forall i :: end < i <= max ==> !IsCharBoundary(Encode(text), i)
    ensures Encode(text)[..end] == Encode(Truncated(text, max))
  {
    var k := PrefixEnd(text, end);
    EncodeSplit(text, k);
    TruncatedIsLongest(text, max);
    var t := Truncated(text, max);
    assert text[..|t|] == t;
    EndIsBoundary(text, |t|);
    if k < |t| { PrefixBytesGrow(text, k, |t|); }
    assert k == |t|;
  }
}
