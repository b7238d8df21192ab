/**
  The parts of a decoded G7 glucose message that this model reads, together
  with the bytes the message was parsed from, and the parser that builds a
  message from bytes.

  The byte layout of the message is not part of this model: the parser
  (`G7GlucoseMessage(data:)`) is a function handed in by the caller. A
  message's wire form is its `data`, exactly as the source writes
  `message.data`. The one property of the parser the rest of the model relies
  on is `KeepsData`: a parsed message keeps the bytes it was parsed from.
 */
module GlucoseMessages {
  import opened Wrappers

  /** LoopKit's classification of a reading relative to the sensor's range. */
  datatype RangeCategory = BelowRange | UrgentLow | Low | Normal | High | AboveRange

  /**
    A decoded reading. `glucoseQuantity` is absent when the message carries no
    numeric value (mg/dL otherwise); `rangeCategory` tags sentinel values;
    `trendRate` (mg/dL per minute) is absent when the message has none, which
    is distinct from a rate of zero. `data` holds the message's wire bytes,
    so two readings with equal values but different sequence numbers or
    timestamps are different messages.
   */
  datatype GlucoseMessage = GlucoseMessage(
    glucoseQuantity: Option<int>,
    rangeCategory: Option<RangeCategory>,
    trendRate: Option<int>,
    data: seq<bv8>)

  /** `G7GlucoseMessage(data:)`: a failable parse. */
  type Decoder = seq<bv8> -> Option<GlucoseMessage>

  /** `m` is what its own bytes parse to, as is every message the parser builds. */
  predicate ParsesFromOwnData(decode: Decoder, m: GlucoseMessage)
  {
    decode(m.data) == Some(m)
  }

  /** The parser stores the bytes it was given as the message's `data`. */
  ghost predicate KeepsData(decode: Decoder)
  {
    forall bytes :: decode(bytes).Some? ==> decode(bytes).value.data == bytes
  }

  /** A parser that keeps its input builds only messages that parse from their own bytes. */
  lemma ParsedMessagesParseFromOwnData(decode: Decoder, bytes: seq<bv8>)
    requires KeepsData(decode)
    ensures decode(bytes).Some? ==> ParsesFromOwnData(decode, decode(bytes).value)
  {
    if decode(bytes).Some? {
      assert decode(bytes).value.data == bytes;
    }
  }

  /** `KeepsData` is met by some parser, so it is no vacuous hypothesis. */
  lemma KeepsDataIsSatisfiable()
    ensures KeepsData(bytes => Some(GlucoseMessage(None, None, None, bytes)))
  {
  }
}
