/** Input validation of the `/memories` handler: what a memory must look like
    before it is stored and can later be turned into a puzzle. */
module Memories {
  import opened Errors

  datatype Kind = Text | Image

  /** A stored memory. `data` is the raw text, or the picture's URL for an image. */
  datatype Memory = Memory(id: string, ownerId: string, kind: Kind, data: string)

  predicate StartsWith(s: string, prefix: string) {
    |prefix| <= |s| && s[..|prefix|] == prefix
  }

  /** The test `/^https?:\/\//`: "http", an optional "s", then "://". */
  predicate HasHttpScheme(data: string) {
    StartsWith(data, "http://") || StartsWith(data, "https://")
  }

  /** The two checks of the handler, in order: the type must be "text" or "image",
      and image data (a missing value reads as "") must carry an http(s) scheme.
      Text data is not checked at all. */
  function ValidateMemory(memoryType: string, data: Option<string>): (r: Result<Kind>)
    ensures r.Ok? <==>
      (memoryType == "text" || memoryType == "image") &&
      (memoryType == "image" ==> HasHttpScheme(data.GetOr("")))
    ensures r.Ok? ==> (r.value == Image <==> memoryType == "image")
    ensures r.Err? && memoryType != "text" && memoryType != "image" ==> r.error == TypeInvalid
    ensures r.Err? && memoryType == "image" ==> r.error == ImageDataNotUrl
  {
    if memoryType != "text" && memoryType != "image" then Err(TypeInvalid)
    else if memoryType == "image" && !HasHttpScheme(data.GetOr("")) then Err(ImageDataNotUrl)
    else if memoryType == "image" then Ok(Image)
    else Ok(Text)
  }

  /** An accepted image memory's data begins with "http" and is at least as long
      as the shortest scheme, "http://"; the character after "http" is ':' or 's'. */
  lemma AcceptedImageIsUrl(data: Option<string>)
    requires ValidateMemory("image", data).Ok?
    ensures data.Some?
    ensures |data.value| >= 7 && data.value[..4] == "http"
    ensures data.value[4] == ':' || data.value[4] == 's'
  {
    var d := data.GetOr("");
    if StartsWith(d, "http://") {
      assert d[..4] == d[..7][..4];
    } else {
      assert d[..4] == d[..8][..4];
      assert d[4] == d[..8][4];
    }
  }

  /** Examples: another scheme, a bare host and a missing value are all refused
      for images, while text needs no data at all. */
  lemma ValidationExamples()
    ensures ValidateMemory("image", Some("https://example.org/a.png")) == Ok(Image)
    ensures ValidateMemory("image", Some("ftp://example.org/a.png")) == Err(ImageDataNotUrl)
    ensures ValidateMemory("image", Some("example.org")) == Err(ImageDataNotUrl)
    ensures ValidateMemory("image", None) == Err(ImageDataNotUrl)
    ensures ValidateMemory("text", None) == Ok(Text)
    ensures ValidateMemory("audio", Some("https://example.org/a.mp3")) == Err(TypeInvalid)
  {
    assert "ftp://example.org/a.png"[..7][0] != "http://"[0];
    assert "ftp://example.org/a.png"[..8][0] != "https://"[0];
    assert "example.org"[..7][0] != "http://"[0];
    assert "example.org"[..8][0] != "https://"[0];
  }
}
