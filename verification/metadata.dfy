/**
  The token-metadata unwrapping of the bot: `get_svg` strips the data-URI
  prefixes around two base64 decodes and a JSON lookup, and `svg_to_png`
  rasterises with a fall-back to its input.

  The base64 decoder (RFC 4648 section 4 alphabet), the UTF-8 decoder, the
  JSON parser and the rasteriser are library code outside this model: they are
  parameters, and `None` stands for "the library call raised".
*/
module Metadata {
  import opened Wrappers

  type Bytes = seq<bv8>

  const JsonPrefix: string := "data:application/json;base64,"
  const SvgPrefix: string := "data:image/svg+xml;base64,"

  /** The library calls `get_svg` and `svg_to_png` rely on. */
  datatype Codecs = Codecs(
    b64decode: string -> Option<Bytes>,    // base64.b64decode
    utf8decode: Bytes -> Option<string>,   // bytes.decode("utf-8")
    imageField: string -> Option<string>)  // json.loads(text)["image"], a string

  /** Why `get_svg` raised. */
  datatype SvgError =
    | MetadataNotBase64   // the token URI payload is not base64
    | MetadataNotUtf8     // the decoded payload is not UTF-8 text
    | NoImageField        // the text is not JSON, or has no string "image" field
    | ImageNotBase64      // the image payload is not base64

  /** `s` with `prefix` removed once if `s` starts with it, else `s` itself. */
  function StripPrefix(s: string, prefix: string): (r: string)
    ensures prefix <= s ==> prefix + r == s
    ensures !(prefix <= s) ==> r == s
  {
    if prefix <= s then s[|prefix|..] else s
  }

  /** Stripping removes the prefix exactly once, even when what follows starts with it again. */
  lemma StripPrefixOnce(prefix: string, rest: string)
    ensures StripPrefix(prefix + rest, prefix) == rest
    ensures StripPrefix(prefix + prefix + rest, prefix) == prefix + rest
  {
    assert prefix <= prefix + rest;
    assert prefix <= prefix + prefix + rest;
    assert prefix + prefix + rest == prefix + (prefix + rest);
  }

  /** The last stage of `get_svg`: strip the SVG data-URI prefix from the image field and decode. */
  function DecodeImage(c: Codecs, image: string): (r: Result<Bytes, SvgError>)
    ensures r.Ok? <==> c.b64decode(StripPrefix(image, SvgPrefix)).Some?
    ensures r.Ok? ==> c.b64decode(StripPrefix(image, SvgPrefix)) == Some(r.value)
    ensures r.Err? ==> r.error == ImageNotBase64
  {
    match c.b64decode(StripPrefix(image, SvgPrefix))
    case None => Err(ImageNotBase64)
    case Some(svg) => Ok(svg)
  }

  /** `get_svg` once the JSON data-URI prefix has been dealt with: decode, parse, take the image. */
  function DecodeMetadata(c: Codecs, payload: string): (r: Result<Bytes, SvgError>)
    ensures c.b64decode(payload).None? ==> r == Err(MetadataNotBase64)
    ensures c.b64decode(payload).Some? && c.utf8decode(c.b64decode(payload).value).None? ==>
      r == Err(MetadataNotUtf8)
    ensures c.b64decode(payload).Some? && c.utf8decode(c.b64decode(payload).value).Some? ==>
      var text := c.utf8decode(c.b64decode(payload).value).value;
      && (c.imageField(text).None? ==> r == Err(NoImageField))
      && (c.imageField(text).Some? ==> r == DecodeImage(c, c.imageField(text).value))
  {
    match c.b64decode(payload)
    case None => Err(MetadataNotBase64)
    case Some(raw) =>
      match c.utf8decode(raw)
      case None => Err(MetadataNotUtf8)
      case Some(text) =>
        match c.imageField(text)
        case None => Err(NoImageField)
        case Some(image) => DecodeImage(c, image)
  }

  /** `get_svg`: the SVG bytes carried by a token URI, or the stage that raised. */
  function GetSvg(c: Codecs, uri: string): (r: Result<Bytes, SvgError>)
    ensures JsonPrefix <= uri ==> r == DecodeMetadata(c, uri[|JsonPrefix|..])
    ensures !(JsonPrefix <= uri) ==> r == DecodeMetadata(c, uri)
  {
    DecodeMetadata(c, StripPrefix(uri, JsonPrefix))
  }

  /** A prefixed URI is decoded from exactly what follows the prefix. */
  lemma GetSvgPrefixed(c: Codecs, rest: string)
    ensures GetSvg(c, JsonPrefix + rest) == DecodeMetadata(c, rest)
  {
    StripPrefixOnce(JsonPrefix, rest);
  }

  /** A prefixed image field is decoded from exactly what follows the prefix. */
  lemma DecodeImagePrefixed(c: Codecs, rest: string)
    ensures DecodeImage(c, SvgPrefix + rest) ==
            if c.b64decode(rest).Some? then Ok(c.b64decode(rest).value) else Err(ImageNotBase64)
  {
    StripPrefixOnce(SvgPrefix, rest);
  }

  /** `svg_to_png`: never raises; when rasterisation fails the SVG bytes come back unchanged. */
  function SvgToPng(rasterize: Bytes -> Option<Bytes>, svg: Bytes): (png: Bytes)
    ensures rasterize(svg) == Some(png) || (rasterize(svg).None? && png == svg)
  {
    match rasterize(svg)
    case Some(converted) => converted
    case None => svg
  }
}
