/** The extension-to-MIME-type table `analyze_image` uses for the inline image payload. */
module Mime {
  import opened Paths
  import Scanner

  const MimeTypes: map<string, string> := map[
    ".jpg" := "image/jpeg",
    ".jpeg" := "image/jpeg",
    ".png" := "image/png",
    ".gif" := "image/gif",
    ".bmp" := "image/bmp",
    ".webp" := "image/webp"
  ]

  /** The type used for any extension the table does not know. */
  const FallbackMimeType := "image/jpeg"

  /** `mime_types.get(extension, 'image/jpeg')`: total, and always an image type. */
  function MimeType(extension: string): (m: string)
    ensures |m| > 6 && m[..6] == "image/"
  {
    if extension in MimeTypes then MimeTypes[extension] else FallbackMimeType
  }

  /** The type sent for an image file: looked up by its lower-cased suffix. */
  function MimeTypeOf(path: string): (m: string)
    ensures |m| > 6 && m[..6] == "image/"
  {
    MimeType(Lower(Suffix(Name(path))))
  }

  /** The two JPEG spellings and the four other default formats each name their own type. */
  lemma KnownExtensions()
    ensures MimeType(".jpg") == "image/jpeg" && MimeType(".jpeg") == "image/jpeg"
    ensures MimeType(".png") == "image/png" && MimeType(".gif") == "image/gif"
    ensures MimeType(".bmp") == "image/bmp" && MimeType(".webp") == "image/webp"
  {
  }

  /**
   * The table has exactly the default formats as keys, and each of them maps
   * to the image type named after it (`.jpg` being a JPEG).
   */
  lemma TableCoversDefaultFormats(extension: string)
    ensures extension in MimeTypes <==> extension in Scanner.DefaultFormats
    ensures extension in Scanner.DefaultFormats ==>
      MimeType(extension) == "image/" + (if extension == ".jpg" then "jpeg" else extension[1..])
  {
    if extension in Scanner.DefaultFormats {
      assert extension in {".jpg", ".jpeg", ".png", ".gif", ".bmp", ".webp"};
    }
  }

  /** Every extension outside the default formats is sent as JPEG. */
  lemma UnknownExtensionIsJpeg(extension: string)
    requires extension !in Scanner.DefaultFormats
    ensures MimeType(extension) == "image/jpeg"
  {
    TableCoversDefaultFormats(extension);
  }
}
