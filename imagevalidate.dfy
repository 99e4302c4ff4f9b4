/**
 * The upload validator: an image is accepted by the magic bytes it starts
 * with, not by its name or declared type.
 */
module ImageValidate {
  import opened Wrappers
  import opened Bytes

  datatype Ext = Png | Jpg | Gif | Webp

  /** The validator's answer `{valid, ext}`. */
  datatype Verdict = Verdict(valid: bool, ext: Option<Ext>)

  const PNG_MAGIC: seq<byte> := [0x89, 0x50, 0x4E, 0x47]
  const JPG_MAGIC: seq<byte> := [0xFF, 0xD8, 0xFF]
  const GIF_MAGIC: seq<byte> := [0x47, 0x49, 0x46, 0x38]
  const RIFF: seq<byte> := [0x52, 0x49, 0x46, 0x46]
  const WEBP: seq<byte> := [0x57, 0x45, 0x42, 0x50]

  /**
   * Every byte of the signature is at the same place in `bytes` (an index
   * past the end reads as `undefined`, which equals no byte).
   */
  predicate Matches(bytes: seq<byte>, signature: seq<byte>) {
    |signature| <= |bytes| && forall i :: 0 <= i < |signature| ==> bytes[i] == signature[i]
  }

  /** A RIFF container whose form type, at bytes 8..11, is WEBP. */
  predicate IsWebp(bytes: seq<byte>) {
    |bytes| >= 12 && bytes[..4] == RIFF && bytes[8..12] == WEBP
  }

  /** A missing buffer or one of fewer than 12 bytes is refused outright; then png, jpg, gif, webp are tried in turn. */
  function ValidateImage(buffer: Option<seq<byte>>): (v: Verdict)
    ensures v.valid <==> v.ext.Some?
    ensures buffer.None? || |buffer.value| < 12 ==> v == Verdict(false, None)
  {
    if buffer.None? || |buffer.value| < 12 then Verdict(false, None)
    else
      var bytes := buffer.value;
      if Matches(bytes, PNG_MAGIC) then Verdict(true, Some(Png))
      else if Matches(bytes, JPG_MAGIC) then Verdict(true, Some(Jpg))
      else if Matches(bytes, GIF_MAGIC) then Verdict(true, Some(Gif))
      else if IsWebp(bytes) then Verdict(true, Some(Webp))
      else Verdict(false, None)
  }

  /** A signature matches exactly when the buffer starts with it. */
  lemma MatchesIsPrefix(bytes: seq<byte>, signature: seq<byte>)
    ensures Matches(bytes, signature) <==> signature <= bytes
  {
    if Matches(bytes, signature) {
      assert bytes[..|signature|] == signature;
    }
  }

  /**
   * The four formats are told apart by their first byte, so the order of the
   * checks does not matter: each extension is reported exactly when its
   * signature is present in a buffer of at least 12 bytes.
   */
  lemma ExtensionIff(bytes: seq<byte>)
    requires |bytes| >= 12
    ensures ValidateImage(Some(bytes)).ext == Some(Png) <==> PNG_MAGIC <= bytes
    ensures ValidateImage(Some(bytes)).ext == Some(Jpg) <==> JPG_MAGIC <= bytes
    ensures ValidateImage(Some(bytes)).ext == Some(Gif) <==> GIF_MAGIC <= bytes
    ensures ValidateImage(Some(bytes)).ext == Some(Webp) <==> RIFF <= bytes && bytes[8..12] == WEBP
    ensures !ValidateImage(Some(bytes)).valid <==>
              !(PNG_MAGIC <= bytes || JPG_MAGIC <= bytes || GIF_MAGIC <= bytes || IsWebp(bytes))
  {
    MatchesIsPrefix(bytes, PNG_MAGIC);
    MatchesIsPrefix(bytes, JPG_MAGIC);
    MatchesIsPrefix(bytes, GIF_MAGIC);
    assert PNG_MAGIC <= bytes ==> bytes[0] == 0x89;
    assert JPG_MAGIC <= bytes ==> bytes[0] == 0xFF;
    assert GIF_MAGIC <= bytes ==> bytes[0] == 0x47;
    assert RIFF <= bytes <==> bytes[..4] == RIFF;
    assert RIFF <= bytes ==> bytes[0] == 0x52;
  }

  /** Only the first 12 bytes are looked at. */
  lemma FirstTwelveDecide(a: seq<byte>, b: seq<byte>)
    requires |a| >= 12 && |b| >= 12 && a[..12] == b[..12]
    ensures ValidateImage(Some(a)) == ValidateImage(Some(b))
  {
    assert forall i :: 0 <= i < 12 ==> a[i] == a[..12][i] && b[i] == b[..12][i];
    assert a[..4] == a[..12][..4] && b[..4] == b[..12][..4];
    assert a[8..12] == a[..12][8..12] && b[8..12] == b[..12][8..12];
  }
}
