/** The classification examples of the resource's unit tests, as facts about
    the model. */
module S3Examples {
  import opened Wrappers
  import opened JsString
  import opened S3

  lemma TextByExtension()
    ensures IsTextFile("file.txt", None) && IsTextFile("file.json", None) && IsTextFile("file.html", None)
  {
    assert EndsWith(ToLower("file.txt"), TextExtensions[0]);
    assert EndsWith(ToLower("file.json"), TextExtensions[1]);
    assert EndsWith(ToLower("file.html"), TextExtensions[3]);
  }

  lemma NotTextByExtension(key: string)
    requires key == "file.jpg" || key == "file.png" || key == "file.zip"
    ensures !IsTextFile(key, None)
  {
    assert key[6..] in {"pg", "ng", "ip"};
    assert ToLower(key[6..]) == key[6..];
    NotTextByName(key);
    assert !IsTextContentType("");
  }

  lemma TextByContentType()
    ensures IsTextFile("file", Some("text/plain")) && IsTextFile("file", Some("application/json"))
    ensures IsTextFile("file", Some("application/xml"))
  {
    assert "text/plain"[..5] == "text/";
    assert IsTextContentType("text/plain");
    assert IsTextContentType("application/json");
    assert IsTextContentType("application/xml");
  }

  /** Other content types are not text; in particular the content type is
      compared as given, so an upper-case "TEXT/PLAIN" is not text. */
  lemma NotTextByContentType(key: string, contentType: string)
    requires key == "file"
    requires contentType == "image/jpeg" || contentType == "application/octet-stream"
      || contentType == "TEXT/PLAIN"
    ensures !IsTextFile(key, Some(contentType))
  {
    assert key[2..] == "le" && ToLower("le") == "le";
    NotTextByName(key);
    NotTextType(contentType);
  }

  /** A content type that does not start with 't' and is not as long as any
      of the three application types is not a text content type. */
  lemma NotTextType(contentType: string)
    requires |contentType| > 0 && contentType[0] != 't'
    requires |contentType| != |"application/json"| && |contentType| != |"application/xml"|
    requires |contentType| != |"application/javascript"|
    ensures !IsTextContentType(contentType)
  {
  }

  lemma PdfExamples()
    ensures IsPdfFile("file.pdf", None) && IsPdfFile("file.PDF", None)
    ensures !IsPdfFile("file.txt", None) && !IsPdfFile("file.jpg", None)
    ensures IsPdfFile("file", Some("application/pdf"))
    ensures !IsPdfFile("file", Some("text/plain")) && !IsPdfFile("file", Some("image/jpeg"))
  {
    assert ToLower("file.txt")[4..] == ".txt";
    assert ToLower("file.jpg")[4..] == ".jpg";
  }
}
