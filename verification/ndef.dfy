/** Decoding of a Web NFC record into text (`decodeNDEFRecord`, identical in
    the three screens). The byte-to-text work of `TextDecoder` is a parameter. */
module Ndef {
  import opened Js

  /** The shapes `record.data` can take: absent, an `ArrayBuffer`, a
      `DataView` onto a window of an underlying buffer, or some other object. */
  datatype Payload =
    | NoData
    | Buffer(bytes: seq<byte>)
    | View(buffer: seq<byte>, offset: nat, length: nat)
    | Unsupported

  datatype NdefRecord = NdefRecord(data: Payload, encoding: Option<string>)

  /** `new TextDecoder(label).decode(bytes)`: `None` when the constructor
      rejects the label (a `RangeError`), otherwise the decoded text. */
  type Decoder = (string, seq<byte>) -> Option<string>

  /** Result of decoding: text, or an exception thrown by the decoder constructor. */
  datatype Decoded = Text(text: string) | DecodeFault

  const DefaultLabel := "utf-8"

  /** `record.encoding || "utf-8"`. */
  function Label(encoding: Option<string>): (name: string)
    ensures Truthy(encoding) ==> name == encoding.value
    ensures !Truthy(encoding) ==> name == DefaultLabel
  {
    OrElse(encoding, DefaultLabel)
  }

  /** `decodeNDEFRecord(record)`: no payload or an unsupported payload decodes
      to the empty string; a buffer is decoded whole; a view is decoded through
      its WHOLE underlying buffer, ignoring its window. */
  function DecodeRecord(record: NdefRecord, decode: Decoder): (r: Decoded)
    ensures (record.data.NoData? || record.data.Unsupported?) ==> r == Text("")
    ensures record.data.Buffer? ==>
      r == (match decode(Label(record.encoding), record.data.bytes)
            case Some(t) => Text(t)
            case None => DecodeFault)
    ensures record.data.View? ==>
      r == (match decode(Label(record.encoding), record.data.buffer)
            case Some(t) => Text(t)
            case None => DecodeFault)
  {
    var bytes :=
      match record.data
      case NoData => None
      case Unsupported => None
      case Buffer(b) => Some(b)
      case View(b, _, _) => Some(b);
    match bytes
    case None => Text("")
    case Some(b) =>
      match decode(Label(record.encoding), b)
      case Some(t) => Text(t)
      case None => DecodeFault
  }

  /** A view decodes exactly like its underlying buffer, whatever its window. */
  lemma ViewDecodesWholeBuffer(buffer: seq<byte>, offset: nat, length: nat, encoding: Option<string>, decode: Decoder)
    ensures DecodeRecord(NdefRecord(View(buffer, offset, length), encoding), decode)
         == DecodeRecord(NdefRecord(Buffer(buffer), encoding), decode)
  {
  }

  /** A missing or empty label and an explicit "utf-8" label decode alike. */
  lemma DefaultLabelIsUtf8(data: Payload, encoding: Option<string>, decode: Decoder)
    requires !Truthy(encoding)
    ensures DecodeRecord(NdefRecord(data, encoding), decode)
         == DecodeRecord(NdefRecord(data, Some("utf-8")), decode)
  {
  }

  /** `event.message.records[0]` decoded: only the first record counts; a
      message without records makes the read of `.data` throw. */
  function DecodeFirst(records: seq<NdefRecord>, decode: Decoder): (r: Decoded)
    ensures |records| == 0 ==> r == DecodeFault
    ensures |records| > 0 ==> r == DecodeRecord(records[0], decode)
  {
    if |records| == 0 then DecodeFault else DecodeRecord(records[0], decode)
  }

  /** Records after the first never influence the text of a read. */
  lemma OnlyFirstRecordCounts(first: NdefRecord, rest1: seq<NdefRecord>, rest2: seq<NdefRecord>, decode: Decoder)
    ensures DecodeFirst([first] + rest1, decode) == DecodeFirst([first] + rest2, decode)
  {
  }
}
