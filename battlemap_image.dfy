/**
 * The battlemap image endpoint (`generateBattlemapImage`): the `data` query
 * parameter is turned back into standard base64, decoded, recognised as gzip,
 * raw JSON or zlib, parsed into a request and rendered. Every outcome is an
 * HTTP 200 SVG response; a failure becomes the pink error image.
 *
 * Base64, the two decompressors, UTF-8 and Jackson are parameters (`Codecs`).
 */
module BattlemapImage {
  import opened Common
  import opened Text
  import opened GridFormat
  import opened BattlemapRequest
  import opened BackgroundTextures
  import opened SvgText
  import opened SvgRender

  /** `Base64.getDecoder().decode`: the bytes, or the message of the `IllegalArgumentException` it throws. */
  type Base64Strict = string -> Result<seq<byte>, Option<string>>

  /** A decompressor (`GZIPInputStream` or `InflaterInputStream` read to the end as UTF-8), which may throw an `IOException`. */
  type Decompressor = seq<byte> -> Result<string, JavaException>

  datatype Codecs = Codecs(
    base64: Base64Strict,
    gunzip: Decompressor,
    inflate: Decompressor,
    utf8: seq<byte> -> string,
    readJson: string -> Result<Request, JavaException>)

  /** The parts of a `ResponseEntity<String>` this endpoint sets. */
  datatype Response = Response(status: int, contentType: string, cacheControl: Option<string>, body: string)

  const SvgMediaType: string := "image/svg+xml"
  const WeekCache: string := "public, max-age=604800"

  const EmptyDataMessage: string := "Data parameter is empty"
  const EmptyBytesMessage: string := "Decoded bytes are empty"
  const Base64Prefix: string := "Invalid base64 encoding: "
  const ProcessingPrefix: string := "Error processing battlemap data: "

  // ---------------------------------------------------------------- URL-safe base64

  /** `String.replace(char, char)`: every `c` becomes `d`. */
  function Substitute(s: string, c: char, d: char): (r: string)
    ensures |r| == |s|
    ensures forall i :: 0 <= i < |s| ==> r[i] == if s[i] == c then d else s[i]
  {
    if s == [] then [] else [if s[0] == c then d else s[0]] + Substitute(s[1..], c, d)
  }

  /** The standard-alphabet character for one character of URL-safe base64. */
  function StandardChar(c: char): char
  {
    if c == '-' then '+' else if c == '_' then '/' else c
  }

  /** Number of `=` that make a length a multiple of four. */
  function PaddingNeeded(n: nat): (r: nat)
    ensures r < 4 && (n + r) % 4 == 0
    ensures n % 4 == 0 <==> r == 0
  {
    (4 - n % 4) % 4
  }

  /**
   * The text handed to the base64 decoder: `-` and `_` become `+` and `/`
   * (only when one of them occurs), then `=` pads to a multiple of four.
   */
  function NormalizeBase64(data: string): (r: string)
    ensures |r| == |data| + PaddingNeeded(|data|) && |r| % 4 == 0
    ensures forall i :: 0 <= i < |data| ==> r[i] == StandardChar(data[i])
    ensures forall i :: |data| <= i < |r| ==> r[i] == '='
  {
    var converted := if '-' in data || '_' in data then Substitute(Substitute(data, '-', '+'), '_', '/') else data;
    converted + Repeat('=', PaddingNeeded(|converted|))
  }

  /** The normalised text uses the standard alphabet only: no `-` and no `_` is left. */
  lemma NormalizedIsStandard(data: string)
    ensures '-' !in NormalizeBase64(data) && '_' !in NormalizeBase64(data)
  {
    var r := NormalizeBase64(data);
    forall i | 0 <= i < |r|
      ensures r[i] != '-' && r[i] != '_'
    {
      if i < |data| {
        assert r[i] == StandardChar(data[i]);
      }
    }
  }

  /** Text already in standard, padded form passes through unchanged. */
  lemma StandardPassesThrough(data: string)
    requires '-' !in data && '_' !in data && |data| % 4 == 0
    ensures NormalizeBase64(data) == data
  {
    var r := NormalizeBase64(data);
    assert |r| == |data|;
    forall i | 0 <= i < |data|
      ensures r[i] == data[i]
    {
      assert data[i] != '-' && data[i] != '_';
    }
  }

  /** Normalising twice is normalising once. */
  lemma NormalizeIdempotent(data: string)
    ensures NormalizeBase64(NormalizeBase64(data)) == NormalizeBase64(data)
  {
    NormalizedIsStandard(data);
    StandardPassesThrough(NormalizeBase64(data));
  }

  // ---------------------------------------------------------------- payload format

  datatype Format = Gzip | RawJson | Compressed

  /** The format test on the decoded bytes: the gzip magic `1f 8b`, else a leading `{`, else some other compressed stream. */
  function FormatOf(bytes: seq<byte>): Format
  {
    if |bytes| >= 2 && bytes[0] == 0x1f && bytes[1] == 0x8b then Gzip
    else if |bytes| > 0 && bytes[0] == 0x7B then RawJson
    else Compressed
  }

  /** `inflateToString`: nothing for no bytes, else gzip, falling back to zlib when gzip throws. */
  function InflateToString(bytes: seq<byte>, codecs: Codecs): (r: Result<string, JavaException>)
    ensures bytes == [] ==> r == Ok("")
    ensures bytes != [] && codecs.gunzip(bytes).Ok? ==> r == codecs.gunzip(bytes)
    ensures bytes != [] && codecs.gunzip(bytes).Err? ==> r == codecs.inflate(bytes)
  {
    if bytes == [] then Ok("")
    else match codecs.gunzip(bytes)
      case Ok(text) => Ok(text)
      case Err(_) => codecs.inflate(bytes)
  }

  /** The JSON text of the decoded bytes. */
  function JsonTextOf(bytes: seq<byte>, codecs: Codecs): Result<string, JavaException>
  {
    match FormatOf(bytes)
    case Gzip => InflateToString(bytes, codecs)
    case RawJson => Ok(codecs.utf8(bytes))
    case Compressed => InflateToString(bytes, codecs)
  }

  /**
   * The gzip and the fallback branch run the same decompression, so the
   * test comes down to the first byte: a `{` is read as UTF-8 text, anything
   * else is decompressed.
   */
  lemma FormatByFirstByte(bytes: seq<byte>, codecs: Codecs)
    requires bytes != []
    ensures JsonTextOf(bytes, codecs) ==
      if bytes[0] == 0x7B then Ok(codecs.utf8(bytes)) else InflateToString(bytes, codecs)
  {
  }

  // ---------------------------------------------------------------- decoding the parameter

  /** The text Java's `+` makes of a possibly null message. */
  function MessageText(message: Option<string>): string
  {
    if message.Some? then message.value else "null"
  }

  /** From the `data` parameter to the request, or the exception that leaves the `try` block. */
  function DecodeRequest(data: string, codecs: Codecs): (r: Result<Request, JavaException>)
    ensures data == [] ==> r == Err(IllegalArgument(Some(EmptyDataMessage)))
    ensures data != [] && codecs.base64(NormalizeBase64(data)).Err? ==>
      r == Err(IllegalArgument(Some(Base64Prefix + MessageText(codecs.base64(NormalizeBase64(data)).error))))
    ensures data != [] && codecs.base64(NormalizeBase64(data)) == Ok([]) ==>
      r == Err(IllegalArgument(Some(EmptyBytesMessage)))
    ensures data != [] && codecs.base64(NormalizeBase64(data)).Ok? && codecs.base64(NormalizeBase64(data)).value != [] ==>
      var bytes := codecs.base64(NormalizeBase64(data)).value;
      r == match JsonTextOf(bytes, codecs) { case Err(e) => Err(e) case Ok(json) => codecs.readJson(json) }
  {
    if data == [] then Err(IllegalArgument(Some(EmptyDataMessage)))
    else match codecs.base64(NormalizeBase64(data))
      case Err(message) => Err(IllegalArgument(Some(Base64Prefix + MessageText(message))))
      case Ok(bytes) =>
        if bytes == [] then Err(IllegalArgument(Some(EmptyBytesMessage)))
        else match JsonTextOf(bytes, codecs)
          case Err(e) => Err(e)
          case Ok(json) => codecs.readJson(json)
  }

  // ---------------------------------------------------------------- the response

  /** The message the two catch blocks put in the error image. */
  function CaughtMessage(e: JavaException): (r: string)
    ensures e.IllegalArgument? ==> r == Base64Prefix + MessageText(e.message)
    ensures e.OtherException? && e.message.Some? ==> r == ProcessingPrefix + e.message.value
    ensures e.OtherException? && e.message.None? ==> r == ProcessingPrefix + e.simpleName
  {
    match e
    case IllegalArgument(message) => Base64Prefix + MessageText(message)
    case OtherException(simpleName, message) =>
      ProcessingPrefix + (if message.Some? then message.value else simpleName)
  }

  function ErrorResponse(e: JavaException): Response
  {
    Response(200, SvgMediaType, None, CreateErrorSvg(CaughtMessage(e)))
  }

  /** What the endpoint answers, given the flood-fill blobs the renderer finds. */
  ghost function ResponseOf(reg: Registry, data: string, codecs: Codecs, assets: Assets,
                            minRecord: nat, blobs: seq<set<int>>): Response
    requires reg.Valid()
  {
    match DecodeRequest(data, codecs)
    case Err(e) => ErrorResponse(e)
    case Ok(req) =>
      match Document(reg, req, assets, minRecord, blobs)
      case Err(e) => ErrorResponse(e)
      case Ok(svg) => Response(200, SvgMediaType, Some(WeekCache), svg)
  }

  /**
   * `generateBattlemapImage`. `minRecord` is the number of bytes the scenery
   * loop demands before it reads another record: `RecordGuardAsWritten` (5) is
   * the endpoint as written, `RecordGuard` (6) the corrected one.
   */
  method GenerateBattlemapImage(reg: Registry, data: string, codecs: Codecs, assets: Assets, minRecord: nat)
    returns (response: Response, ghost blobs: seq<set<int>>)
    requires reg.Valid() && minRecord >= RecordGuardAsWritten
    ensures response == ResponseOf(reg, data, codecs, assets, minRecord, blobs)
  {
    blobs := [];
    var request := DecodeRequest(data, codecs);
    if request.Err? {
      return ErrorResponse(request.error), blobs;
    }
    var svg;
    svg, blobs := GenerateSvg(reg, request.value, assets, minRecord);
    if svg.Err? {
      return ErrorResponse(svg.error), blobs;
    }
    response := Response(200, SvgMediaType, Some(WeekCache), svg.value);
  }

  // ---------------------------------------------------------------- properties

  /**
   * Every answer is a 200 SVG; it carries the seven-day cache header exactly
   * when the map was drawn, and otherwise it is the error image of the
   * exception that was caught.
   */
  lemma AlwaysAnSvg(reg: Registry, data: string, codecs: Codecs, assets: Assets,
                    minRecord: nat, blobs: seq<set<int>>)
    requires reg.Valid()
    ensures var r := ResponseOf(reg, data, codecs, assets, minRecord, blobs);
      && r.status == 200 && r.contentType == SvgMediaType
      && (r.cacheControl.Some? <==>
           DecodeRequest(data, codecs).Ok? && Document(reg, DecodeRequest(data, codecs).value, assets, minRecord, blobs).Ok?)
      && (r.cacheControl.Some? ==>
            r.cacheControl == Some(WeekCache)
            && r.body == Document(reg, DecodeRequest(data, codecs).value, assets, minRecord, blobs).value)
      && (r.cacheControl.None? ==> exists e :: r.body == CreateErrorSvg(CaughtMessage(e)))
  {
    var r := ResponseOf(reg, data, codecs, assets, minRecord, blobs);
    if DecodeRequest(data, codecs).Err? {
      assert r.body == CreateErrorSvg(CaughtMessage(DecodeRequest(data, codecs).error));
    } else if Document(reg, DecodeRequest(data, codecs).value, assets, minRecord, blobs).Err? {
      assert r.body == CreateErrorSvg(CaughtMessage(Document(reg, DecodeRequest(data, codecs).value, assets, minRecord, blobs).error));
    }
  }

  /** An empty parameter is reported through the base64 catch block. */
  lemma EmptyDataIsReported(reg: Registry, codecs: Codecs, assets: Assets, minRecord: nat, blobs: seq<set<int>>)
    requires reg.Valid()
    ensures var r := ResponseOf(reg, "", codecs, assets, minRecord, blobs);
      ErrorSvgMessage(r.body) == Some(Base64Prefix + EmptyDataMessage) && r.cacheControl.None?
  {
    ErrorSvgShowsMessage(Base64Prefix + EmptyDataMessage);
  }

  /**
   * A decoder failure passes through two `"Invalid base64 encoding: "`
   * prefixes: one where it is rethrown and one in the catch block.
   */
  lemma Base64FailureIsPrefixedTwice(reg: Registry, data: string, codecs: Codecs, assets: Assets,
                                     minRecord: nat, blobs: seq<set<int>>, message: string)
    requires reg.Valid() && data != []
    requires codecs.base64(NormalizeBase64(data)) == Err(Some(message))
    ensures ErrorSvgMessage(ResponseOf(reg, data, codecs, assets, minRecord, blobs).body)
      == Some(Base64Prefix + Base64Prefix + message)
  {
    ErrorSvgShowsMessage(Base64Prefix + (Base64Prefix + message));
    assert Base64Prefix + (Base64Prefix + message) == Base64Prefix + Base64Prefix + message;
  }

  /** Bytes that decode to nothing are reported through the base64 catch block too. */
  lemma EmptyBytesAreReported(reg: Registry, data: string, codecs: Codecs, assets: Assets,
                              minRecord: nat, blobs: seq<set<int>>)
    requires reg.Valid() && data != [] && codecs.base64(NormalizeBase64(data)) == Ok([])
    ensures ErrorSvgMessage(ResponseOf(reg, data, codecs, assets, minRecord, blobs).body)
      == Some(Base64Prefix + EmptyBytesMessage)
  {
    ErrorSvgShowsMessage(Base64Prefix + EmptyBytesMessage);
  }

  /**
   * A request whose scenery ends in a five-byte record: the endpoint as
   * written answers with the error image naming the overrun, the corrected
   * guard draws the map.
   */
  lemma FiveByteTailAtEndpoint(reg: Registry, data: string, codecs: Codecs, assets: Assets, blobs: seq<set<int>>)
    requires reg.Valid()
    requires DecodeRequest(data, codecs) == Ok(EmptyRequest.(environmentObjectsBinary := NumberList([0, 1, 0, 2, 0])))
    ensures ErrorSvgMessage(ResponseOf(reg, data, codecs, assets, RecordGuardAsWritten, blobs).body)
      == Some(CaughtMessage(IndexOutOfBounds(5, 5)))
    ensures ResponseOf(reg, data, codecs, assets, RecordGuard, blobs).cacheControl == Some(WeekCache)
  {
    FiveByteSceneryFailsImage(reg, assets, blobs);
    ErrorSvgShowsMessage(CaughtMessage(IndexOutOfBounds(5, 5)));
  }
}
