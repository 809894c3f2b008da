/** to_data_url(): the image bytes as a JPEG data URL carrying their base 64 encoding. */
module DataUrl {
  import opened Wrappers
  import Base64

  const PREFIX := "data:image/jpeg;base64,"

  function ToDataUrl(image: seq<Base64.byte>): (url: string)
    ensures |url| >= |PREFIX| && url[..|PREFIX|] == PREFIX
    ensures url[|PREFIX|..] == Base64.Encode(image)
  {
    PREFIX + Base64.Encode(image)
  }

  /** Reading a data URL back: the prefix, then a decodable base 64 payload. */
  function Parse(url: string): Option<seq<Base64.byte>>
  {
    if |url| >= |PREFIX| && url[..|PREFIX|] == PREFIX then Base64.Decode(url[|PREFIX|..])
    else None
  }

  /** The data URL carries exactly the image bytes. */
  lemma ParseToDataUrl(image: seq<Base64.byte>)
    ensures Parse(ToDataUrl(image)) == Some(image)
  {
    Base64.DecodeEncode(image);
  }

  /** Different images give different data URLs. */
  lemma ToDataUrlInjective(a: seq<Base64.byte>, b: seq<Base64.byte>)
    requires ToDataUrl(a) == ToDataUrl(b)
    ensures a == b
  {
    ParseToDataUrl(a);
    ParseToDataUrl(b);
  }
}
