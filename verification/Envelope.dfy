/** The envelope a managed file holds: magic, format version, revision, length, content. */
module Envelopes {
  import opened Prelude
  import opened StoreContract
  import opened Bytes

  const MAGIC: seq<byte> := [79, 66, 74, 83, 68, 83, 70, 83]
  const ENVELOPE_VERSION: byte := 1
  const HEADER_LEN: nat := 33

  datatype DecodeError = InvalidObjectFormat | UnsupportedFormatVersion

  type Content = bs: seq<byte> | |bs| <= U64_MAX

  function Envelope(revision: Uuid, content: Content): seq<byte> {
    WordWidths();
    MAGIC + [ENVELOPE_VERSION] + BigEndian(revision, 16) + BigEndian(|content|, 8) + content
  }

  /** What stands where in an envelope. */
  lemma {:induction false} Layout(revision: Uuid, content: Content)
    ensures var e := Envelope(revision, content);
            && |e| == HEADER_LEN + |content|
            && (forall i :: 0 <= i < 8 ==> e[i] as char == "OBJSDSFS"[i]) && e[8] == 1
            && FromBigEndian(e[9..25]) == revision && FromBigEndian(e[25..33]) == |content| && e[33..] == content
  {
    WordWidths();
    var e := Envelope(revision, content);
    assert e[..8] == MAGIC && e[8] == ENVELOPE_VERSION;
    assert e[9..25] == BigEndian(revision, 16);
    assert e[25..33] == BigEndian(|content|, 8);
    ReadsBack(revision, 16);
    ReadsBack(|content|, 8);
  }

  /** Encoding appends the parts one by one. */
  method Encode(revision: Uuid, content: Content) returns (version: Version, encoded: seq<byte>)
    ensures version == UuidText(revision) && encoded == Envelope(revision, content)
  {
    WordWidths();
    version := UuidText(revision);
    encoded := [];
    encoded := encoded + MAGIC;
    encoded := encoded + [ENVELOPE_VERSION];
    encoded := encoded + BigEndian(revision, 16);
    encoded := encoded + BigEndian(|content|, 8);
    encoded := encoded + content;
  }

  function Decode(encoded: seq<byte>): Result<Object<seq<byte>>, DecodeError> {
    WordWidths();
    if |encoded| < HEADER_LEN || encoded[..8] != MAGIC then Err(InvalidObjectFormat)
    else if encoded[8] != ENVELOPE_VERSION then Err(UnsupportedFormatVersion)
    else
      var revision := FromBigEndian(encoded[9..25]);
      var length := FromBigEndian(encoded[25..33]);
      var content := encoded[HEADER_LEN..];
      if |content| != length then Err(InvalidObjectFormat)
      else Ok(Object(content, UuidText(revision)))
  }

  /** Decoding gives back what was encoded, for every content and revision. */
  lemma {:induction false} DecodeInvertsEnvelope(revision: Uuid, content: Content)
    ensures Decode(Envelope(revision, content)) == Ok(Object(content, UuidText(revision)))
  {
    WordWidths();
    var e := Envelope(revision, content);
    assert e[..8] == MAGIC && e[8] == ENVELOPE_VERSION;
    assert e[9..25] == BigEndian(revision, 16);
    assert e[25..33] == BigEndian(|content|, 8);
    assert e[33..] == content;
    ReadsBack(revision, 16);
    ReadsBack(|content|, 8);
  }

  /** Whatever decodes is exactly the envelope of what it decodes to; so no truncation or
      extension of an envelope decodes. */
  lemma {:induction false} DecodedIsEnvelope(encoded: seq<byte>) returns (revision: Uuid)
    requires Decode(encoded).Ok?
    ensures |Decode(encoded).value.bytes| <= U64_MAX
    ensures encoded == Envelope(revision, Decode(encoded).value.bytes)
    ensures Decode(encoded).value.version == UuidText(revision)
  {
    WordWidths();
    var content := encoded[HEADER_LEN..];
    revision := FromBigEndian(encoded[9..25]);
    WritesBack(encoded[9..25]);
    WritesBack(encoded[25..33]);
    assert encoded == encoded[..8] + [encoded[8]] + encoded[9..25] + encoded[25..33] + content;
  }

  /** An input is refused exactly when it is no envelope; the version byte alone decides which error
      an otherwise well-started input gets. */
  lemma {:induction false} RefusedIffNoEnvelope(encoded: seq<byte>)
    ensures Decode(encoded).Err? <==> !exists revision: Uuid, content: Content :: encoded == Envelope(revision, content)
    ensures Decode(encoded) == Err(UnsupportedFormatVersion) <==>
              |encoded| >= HEADER_LEN && MAGIC <= encoded && encoded[8] != ENVELOPE_VERSION
  {
    if Decode(encoded).Ok? {
      var revision := DecodedIsEnvelope(encoded);
      assert encoded == Envelope(revision, Decode(encoded).value.bytes);
    } else {
      forall revision: Uuid, content: Content ensures encoded != Envelope(revision, content) {
        DecodeInvertsEnvelope(revision, content);
      }
    }
  }

  lemma {:induction false} LengthField(revision: Uuid, content: Content)
    ensures var e := Envelope(revision, content);
            |e| == HEADER_LEN + |content| && |e[25..33]| == 8 && FromBigEndian(e[25..33]) == |content|
  {
    WordWidths();
    assert Envelope(revision, content)[25..33] == BigEndian(|content|, 8);
    ReadsBack(|content|, 8);
  }

  /** Cutting off or adding anything makes an envelope undecodable. */
  lemma {:induction false} ResizedIsRefused(revision: Uuid, content: Content, n: nat, more: seq<byte>)
    requires n <= |Envelope(revision, content)| && (n < |Envelope(revision, content)| || more != [])
    requires n < |Envelope(revision, content)| ==> more == []
    ensures Decode(Envelope(revision, content)[..n] + more).Err?
  {
    var e := Envelope(revision, content);
    var f := e[..n] + more;
    LengthField(revision, content);
    if n >= HEADER_LEN {
      assert f[..33] == e[..33];
      assert f[25..33] == f[..33][25..33] && e[25..33] == e[..33][25..33];
    }
    RefusedByLength(f, |content|);
  }

  lemma {:induction false} RefusedByLength(encoded: seq<byte>, length: nat)
    requires |encoded| != HEADER_LEN + length
    requires |encoded| >= HEADER_LEN ==> |encoded[25..33]| == 8 && FromBigEndian(encoded[25..33]) == length
    ensures Decode(encoded).Err?
  {
  }
}
