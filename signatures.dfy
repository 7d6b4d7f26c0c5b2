/**
  Byte-signature sniffing: `isValidImage` and `getContentType` (api/favicon.js, copied in worker.js).
  Bytes are `bv8`; the SVG text sniff of `getContentType` is a byte search, which agrees with the
  decoded-text search because both targets are ASCII and a UTF-8 decoder never folds an ASCII byte
  into another character.
*/
module ImageSignatures {
  import opened Text

  /** The six signatures of `isValidImage`, in the order of its table. */
  datatype ImageKind = Png | Jpeg | Gif | Ico | SvgTag | XmlDecl

  function SignatureOf(kind: ImageKind): (sig: seq<bv8>)
    ensures 3 <= |sig| <= 4
  {
    match kind
    case Png => [0x89, 0x50, 0x4E, 0x47]
    case Jpeg => [0xFF, 0xD8, 0xFF]
    case Gif => [0x47, 0x49, 0x46]
    case Ico => [0x00, 0x00, 0x01, 0x00]
    case SvgTag => [0x3C, 0x73, 0x76, 0x67]   // "<svg"
    case XmlDecl => [0x3C, 0x3F, 0x78, 0x6D]  // "<?xm"
  }

  const Signatures: seq<seq<bv8>> :=
    [SignatureOf(Png), SignatureOf(Jpeg), SignatureOf(Gif),
     SignatureOf(Ico), SignatureOf(SvgTag), SignatureOf(XmlDecl)]

  /**
    `signatures.some(sig => sig.every((byte, index) => buffer[index] === byte))`.
    Reading past the end gives `undefined` in JavaScript, which matches no byte, so `every`
    is a prefix test.
  */
  function MatchesSome(b: seq<bv8>, sigs: seq<seq<bv8>>): (found: bool)
    ensures found <==> exists i :: 0 <= i < |sigs| && StartsWith(b, sigs[i])
  {
    if sigs == [] then false
    else StartsWith(b, sigs[0]) || MatchesSome(b, sigs[1..])
  }

  /** `isValidImage`: at least four bytes, opening with one of the six signatures. */
  function IsValidImage(b: seq<bv8>): (valid: bool)
    ensures valid ==> |b| >= 4
  {
    if |b| < 4 then false else MatchesSome(b, Signatures)
  }

  /** Valid means: at least four bytes, opening with the signature of one of the six kinds. */
  lemma ValidImageKinds(b: seq<bv8>)
    ensures IsValidImage(b) <==> |b| >= 4 && exists kind :: StartsWith(b, SignatureOf(kind))
  {
    if kind :| StartsWith(b, SignatureOf(kind)) {
      var i := match kind
        case Png => 0 case Jpeg => 1 case Gif => 2
        case Ico => 3 case SvgTag => 4 case XmlDecl => 5;
      assert Signatures[i] == SignatureOf(kind);
    }
    if |b| >= 4 && IsValidImage(b) {
      var i :| 0 <= i < |Signatures| && StartsWith(b, Signatures[i]);
      var kind := [Png, Jpeg, Gif, Ico, SvgTag, XmlDecl][i];
      assert Signatures[i] == SignatureOf(kind);
    }
  }

  /** The signatures are told apart by their first two bytes, so at most one of them matches. */
  lemma {:induction false} SignaturesExclusive(b: seq<bv8>, k1: ImageKind, k2: ImageKind)
    requires StartsWith(b, SignatureOf(k1)) && StartsWith(b, SignatureOf(k2))
    ensures k1 == k2
  {
    assert b[0] == SignatureOf(k1)[0] == SignatureOf(k2)[0];
    assert b[1] == SignatureOf(k1)[1] == SignatureOf(k2)[1];
  }

  /** `isValidImage` spelled out byte by byte, one disjunct per signature. */
  lemma ValidImageBytes(b: seq<bv8>)
    ensures IsValidImage(b) <==> (|b| >= 4 && (
      || (b[0] == 0x89 && b[1] == 0x50 && b[2] == 0x4E && b[3] == 0x47)
      || (b[0] == 0xFF && b[1] == 0xD8 && b[2] == 0xFF)
      || (b[0] == 0x47 && b[1] == 0x49 && b[2] == 0x46)
      || (b[0] == 0x00 && b[1] == 0x00 && b[2] == 0x01 && b[3] == 0x00)
      || (b[0] == 0x3C && b[1] == 0x73 && b[2] == 0x76 && b[3] == 0x67)
      || (b[0] == 0x3C && b[1] == 0x3F && b[2] == 0x78 && b[3] == 0x6D)))
  {
    ValidImageKinds(b);
    if |b| >= 4 {
      SignatureBytes(b, Png);
      SignatureBytes(b, Jpeg);
      SignatureBytes(b, Gif);
      SignatureBytes(b, Ico);
      SignatureBytes(b, SvgTag);
      SignatureBytes(b, XmlDecl);
      if kind :| StartsWith(b, SignatureOf(kind)) {
        assert kind in {Png, Jpeg, Gif, Ico, SvgTag, XmlDecl};
      }
    }
  }

  /** Opening with a signature is agreeing with it on each of its three or four bytes. */
  lemma SignatureBytes(b: seq<bv8>, kind: ImageKind)
    requires |b| >= 4
    ensures var sig := SignatureOf(kind);
      StartsWith(b, sig) <==>
        b[0] == sig[0] && b[1] == sig[1] && b[2] == sig[2] && (|sig| == 3 || b[3] == sig[3])
  {
    var sig := SignatureOf(kind);
    if b[0] == sig[0] && b[1] == sig[1] && b[2] == sig[2] && (|sig| == 3 || b[3] == sig[3]) {
      assert b[..|sig|] == sig;
    }
  }

  /** A JPEG or GIF header alone (three bytes) is rejected: the length test comes first. */
  lemma ShortHeadersRejected()
    ensures !IsValidImage([0xFF, 0xD8, 0xFF])
    ensures !IsValidImage([0x47, 0x49, 0x46])
    ensures IsValidImage([0xFF, 0xD8, 0xFF, 0xE0])
  {
    var jpeg: seq<bv8> := [0xFF, 0xD8, 0xFF, 0xE0];
    assert StartsWith(jpeg, SignatureOf(Jpeg));
  }

  const PngMime: string := "image/png"
  const JpegMime: string := "image/jpeg"
  const GifMime: string := "image/gif"
  const IconMime: string := "image/x-icon"
  const SvgMime: string := "image/svg+xml"

  const SvgOpen: seq<bv8> := [0x3C, 0x73, 0x76, 0x67]          // "<svg"
  const XmlOpen: seq<bv8> := [0x3C, 0x3F, 0x78, 0x6D, 0x6C]    // "<?xml"

  /**
    The SVG text sniff: `<svg` or `<?xml` somewhere in the first 100 bytes. It always finds an
    opening `<svg` or `<?xml`, and never fires on fewer than four bytes.
  */
  predicate SniffsSvg(b: seq<bv8>): (found: bool)
    ensures StartsWith(b, SvgOpen) || StartsWith(b, XmlOpen) ==> found
    ensures found ==> |b| >= 4
  {
    var head := if |b| <= 100 then b else b[..100];
    assert head[0..] == head;
    assert StartsWith(b, SvgOpen) ==> StartsWith(head, SvgOpen);
    assert StartsWith(b, XmlOpen) ==> StartsWith(head, XmlOpen);
    Contains(head, SvgOpen) || Contains(head, XmlOpen)
  }

  /** One of the four binary signatures that `getContentType` tests before the SVG sniff. */
  predicate HasBinarySignature(b: seq<bv8>)
  {
    || StartsWith(b, SignatureOf(Png)) || StartsWith(b, SignatureOf(Jpeg))
    || StartsWith(b, SignatureOf(Gif)) || StartsWith(b, SignatureOf(Ico))
  }

  /**
    `getContentType`: the first matching of PNG, JPEG, GIF and ICO signatures names the type;
    otherwise the SVG sniff gives `image/svg+xml`; anything else, and every buffer shorter
    than four bytes, is served as `image/x-icon`.
  */
  function GetContentType(b: seq<bv8>): (mime: string)
    ensures mime in {PngMime, JpegMime, GifMime, IconMime, SvgMime}
    ensures |b| < 4 ==> mime == IconMime
    ensures |b| >= 4 ==> (mime == PngMime <==> StartsWith(b, SignatureOf(Png)))
    ensures |b| >= 4 ==> (mime == JpegMime <==> StartsWith(b, SignatureOf(Jpeg)))
    ensures |b| >= 4 ==> (mime == GifMime <==> StartsWith(b, SignatureOf(Gif)))
    ensures |b| >= 4 && StartsWith(b, SignatureOf(Ico)) ==> mime == IconMime
    ensures mime == SvgMime <==> |b| >= 4 && !HasBinarySignature(b) && SniffsSvg(b)
  {
    if |b| >= 4 then
      if b[0] == 0x89 && b[1] == 0x50 && b[2] == 0x4E && b[3] == 0x47 then PngMime
      else if b[0] == 0xFF && b[1] == 0xD8 && b[2] == 0xFF then JpegMime
      else if b[0] == 0x47 && b[1] == 0x49 && b[2] == 0x46 then GifMime
      else if b[0] == 0x00 && b[1] == 0x00 && b[2] == 0x01 && b[3] == 0x00 then IconMime
      else if SniffsSvg(b) then SvgMime
      else IconMime
    else IconMime
  }

  /** The MIME type each signature stands for. */
  function MimeOf(kind: ImageKind): string
  {
    match kind
    case Png => PngMime
    case Jpeg => JpegMime
    case Gif => GifMime
    case Ico => IconMime
    case SvgTag => SvgMime
    case XmlDecl => SvgMime
  }

  /**
    On every buffer that passes `isValidImage`, `getContentType` names the type of the matched
    signature, except that a buffer opening with `<?xm` is `image/svg+xml` only when the SVG
    sniff finds `<svg` or `<?xml` in its first 100 bytes, and `image/x-icon` otherwise.
  */
  lemma {:induction false} ContentTypeOfValidImage(b: seq<bv8>, kind: ImageKind)
    requires IsValidImage(b) && StartsWith(b, SignatureOf(kind))
    ensures kind != XmlDecl ==> GetContentType(b) == MimeOf(kind)
    ensures kind == XmlDecl ==> GetContentType(b) == (if SniffsSvg(b) then SvgMime else IconMime)
    ensures kind == XmlDecl && |b| >= 5 && b[4] == 0x6C ==> GetContentType(b) == SvgMime
  {
    var sig := SignatureOf(kind);
    assert b[..|sig|] == sig;
    assert b[0] == sig[0] && b[1] == sig[1] && b[2] == sig[2];
    var head := if |b| <= 100 then b else b[..100];
    if kind == SvgTag {
      assert head[0..][..4] == SvgOpen;
    } else if kind == XmlDecl && |b| >= 5 && b[4] == 0x6C {
      assert head[0..][..5] == XmlOpen;
    }
  }

  /** A valid `<?xm` buffer with no `<?xml` and no `<svg` in it is served as an icon. */
  lemma XmlPrefixAloneIsIcon()
    ensures var b: seq<bv8> := [0x3C, 0x3F, 0x78, 0x6D, 0x00];
      IsValidImage(b) && GetContentType(b) == IconMime
  {
    var b: seq<bv8> := [0x3C, 0x3F, 0x78, 0x6D, 0x00];
    assert StartsWith(b, SignatureOf(XmlDecl));
    forall i | 0 <= i <= |b| ensures !StartsWith(b[i..], SvgOpen) && !StartsWith(b[i..], XmlOpen) {
      if i == 0 {
        assert b[..4][1] != SvgOpen[1];
        assert b[..5][4] != XmlOpen[4];
      } else if i < 5 {
        assert b[i..][0] != 0x3C;
      }
    }
    assert !SniffsSvg(b);
  }
}
