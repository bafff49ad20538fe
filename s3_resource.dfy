/** The object-store resource: which buckets may be exposed, how many are
    listed, and how a fetched object is classified as text, PDF or binary.
    The storage client, the PDF text extractor and UTF-8 decoding are passed in
    as functions; every reply of the storage backend is a value. */
module S3 {
  import opened Wrappers
  import opened Errors
  import opened Bytes
  import opened JsString
  import opened JsNumber
  import Json

  /** The environment variables the resource reads (`None` = unset). */
  datatype Env = Env(
    awsRegion: Option<string>,
    accessKeyId: Option<string>,
    secretAccessKey: Option<string>,
    endpoint: Option<string>,
    forcePathStyle: Option<string>,
    s3Buckets: Option<string>,
    s3MaxBuckets: Option<string>)

  datatype Credentials = Credentials(accessKeyId: string, secretAccessKey: string)

  /** The options the storage client is built with. */
  datatype ClientOptions = ClientOptions(
    region: string,
    credentials: Option<Credentials>,
    endpoint: Option<string>,
    forcePathStyle: bool)

  /** The client options of the constructor: `AWS_REGION` wins over the
      `region` argument, which defaults to "us-east-1" when it is not passed;
      credentials only when both keys are set; an endpoint when one is set;
      path-style addressing only for exactly "true". */
  function ClientOptionsOf(env: Env, region: Option<string>): (o: ClientOptions)
    ensures TruthyText(env.awsRegion) ==> o.region == env.awsRegion.value
    ensures !TruthyText(env.awsRegion) ==> o.region == region.GetOr("us-east-1")
    ensures o.credentials.Some? <==> TruthyText(env.accessKeyId) && TruthyText(env.secretAccessKey)
    ensures o.credentials.Some? ==>
      o.credentials.value == Credentials(env.accessKeyId.value, env.secretAccessKey.value)
    ensures o.endpoint.Some? <==> TruthyText(env.endpoint)
    ensures o.endpoint.Some? ==> o.endpoint == env.endpoint
    ensures o.forcePathStyle <==> env.forcePathStyle == Some("true")
  {
    ClientOptions(
      if TruthyText(env.awsRegion) then env.awsRegion.value else region.GetOr("us-east-1"),
      if TruthyText(env.accessKeyId) && TruthyText(env.secretAccessKey)
      then Some(Credentials(env.accessKeyId.value, env.secretAccessKey.value)) else None,
      if TruthyText(env.endpoint) then env.endpoint else None,
      env.forcePathStyle == Some("true"))
  }

  /** The entries of a split whose trimmed form is not empty, untrimmed and in order. */
  function NonBlank(parts: seq<string>): (r: seq<string>)
    ensures |r| <= |parts|
    ensures forall k :: 0 <= k < |r| ==> r[k] in parts
  {
    if |parts| == 0 then []
    else (if Trim(parts[0]) != "" then [parts[0]] else []) + NonBlank(parts[1..])
  }

  /** Every kept entry has a non-empty trimmed form. */
  lemma {:induction false} NonBlankTrimmed(parts: seq<string>)
    ensures forall x :: x in NonBlank(parts) ==> Trim(x) != ""
  {
    if |parts| > 0 {
      var head := if Trim(parts[0]) != "" then [parts[0]] else [];
      assert NonBlank(parts) == head + NonBlank(parts[1..]);
      NonBlankTrimmed(parts[1..]);
    }
  }

  /** No kept entry is blank. */
  lemma NonBlankEntries(parts: seq<string>)
    ensures forall k :: 0 <= k < |NonBlank(parts)| ==> !IsBlank(NonBlank(parts)[k])
  {
    NonBlankTrimmed(parts);
    forall k | 0 <= k < |NonBlank(parts)| ensures !IsBlank(NonBlank(parts)[k]) {
      assert NonBlank(parts)[k] in NonBlank(parts);
      TrimEmptyIffBlank(NonBlank(parts)[k]);
    }
  }

  /** No piece that is not blank is dropped. */
  lemma {:induction false} NonBlankComplete(parts: seq<string>, p: string)
    requires p in parts && !IsBlank(p)
    ensures p in NonBlank(parts)
  {
    if parts[0] == p {
      TrimEmptyIffBlank(p);
    } else {
      NonBlankComplete(parts[1..], p);
    }
  }

  lemma {:induction false} NonBlankAppend(a: seq<string>, b: seq<string>)
    ensures NonBlank(a + b) == NonBlank(a) + NonBlank(b)
  {
    if |a| == 0 {
      assert a + b == b;
    } else {
      assert (a + b)[1..] == a[1..] + b;
      NonBlankAppend(a[1..], b);
    }
  }

  /** The allow-list: `S3_BUCKETS` split on commas, blank entries dropped. */
  function ConfiguredBuckets(s3Buckets: Option<string>): (r: seq<string>)
    ensures forall k :: 0 <= k < |r| ==> r[k] in Split(if TruthyText(s3Buckets) then s3Buckets.value else "", ',')
  {
    NonBlank(Split(if TruthyText(s3Buckets) then s3Buckets.value else "", ','))
  }

  /** No entry of the allow-list is blank or contains a comma. */
  lemma ConfiguredBucketsEntries(s3Buckets: Option<string>)
    ensures forall k :: 0 <= k < |ConfiguredBuckets(s3Buckets)| ==>
      !IsBlank(ConfiguredBuckets(s3Buckets)[k]) && ',' !in ConfiguredBuckets(s3Buckets)[k]
  {
    var text := if TruthyText(s3Buckets) then s3Buckets.value else "";
    SplitPiecesHaveNoSeparator(text, ',');
    NonBlankEntries(Split(text, ','));
  }

  /** Every comma-separated piece of `S3_BUCKETS` that is not blank is allowed. */
  lemma ConfiguredBucketsComplete(s3Buckets: Option<string>, p: string)
    requires TruthyText(s3Buckets) && p in Split(s3Buckets.value, ',') && !IsBlank(p)
    ensures p in ConfiguredBuckets(s3Buckets)
  {
    NonBlankComplete(Split(s3Buckets.value, ','), p);
  }

  /** An unset or empty `S3_BUCKETS` gives the empty allow-list. */
  lemma NoConfiguredBuckets(s3Buckets: Option<string>)
    requires !TruthyText(s3Buckets)
    ensures ConfiguredBuckets(s3Buckets) == []
  {
    assert Split("", ',') == [""];
    assert Trim("") == "";
  }

  /** A single entry: kept as it is (surrounding blanks included) unless it is blank. */
  lemma {:induction false} ConfiguredBucketsSingle(s: string)
    requires s != "" && ',' !in s
    ensures ConfiguredBuckets(Some(s)) == if IsBlank(s) then [] else [s]
  {
    SplitNoSeparator(s, ',');
    TrimEmptyIffBlank(s);
  }

  /** A comma separates the allow-list into the entries before and after it,
      in order: together with the single-entry case this determines the list. */
  lemma {:induction false} ConfiguredBucketsAppend(a: string, b: string)
    requires a != "" && b != ""
    ensures ConfiguredBuckets(Some(a + "," + b)) == ConfiguredBuckets(Some(a)) + ConfiguredBuckets(Some(b))
  {
    var ab := a + "," + b;
    assert ab == a + [','] + b;
    assert TruthyText(Some(ab));
    assert ConfiguredBuckets(Some(ab)) == NonBlank(Split(ab, ','));
    SplitAppend(a, b, ',');
    NonBlankAppend(Split(a, ','), Split(b, ','));
    assert ConfiguredBuckets(Some(a)) == NonBlank(Split(a, ','));
    assert ConfiguredBuckets(Some(b)) == NonBlank(Split(b, ','));
  }

  /** The bucket limit: the constructor argument when given, otherwise
      `S3_MAX_BUCKETS` parsed in base 10 when it is set, otherwise 5. */
  function MaxBucketsOf(maxBuckets: Option<int>, env: Env): (n: Num)
    ensures maxBuckets.Some? ==> n == Int(maxBuckets.value)
    ensures maxBuckets.None? && !TruthyText(env.s3MaxBuckets) ==> n == Int(5)
    ensures maxBuckets.None? && TruthyText(env.s3MaxBuckets) ==> n == ParseInt10(env.s3MaxBuckets.value)
  {
    if maxBuckets.Some? then Int(maxBuckets.value)
    else if TruthyText(env.s3MaxBuckets) then ParseInt10(env.s3MaxBuckets.value)
    else Int(5)
  }

  /** `S3_MAX_BUCKETS=1`, as in the resource's unit test, limits listings to one. */
  lemma MaxBucketsFromEnvironment(env: Env)
    requires env.s3MaxBuckets == Some("1")
    ensures MaxBucketsOf(None, env) == Int(1)
  {
    ParseDecimal(1, "");
    assert ToDecimal(1) + "" == "1";
  }

  /** A bucket as the backend lists it. */
  datatype Bucket = Bucket(name: Option<string>, creationDate: Option<string>)

  /** An object summary as the backend lists it. */
  datatype S3Object = S3Object(
    key: Option<string>,
    lastModified: Option<string>,
    eTag: Option<string>,
    size: Option<int>,
    storageClass: Option<string>)

  /** `JSON.stringify`'s view of a bucket: absent members are left out. */
  function BucketJson(b: Bucket): (v: Json.Value)
    ensures v.Obj?
    ensures Json.Lookup(v.fields, "Name") == Json.OptStr(b.name)
  {
    Json.Obj(Json.Member("Name", Json.OptStr(b.name)) + Json.Member("CreationDate", Json.OptStr(b.creationDate)))
  }

  function BucketsJson(bs: seq<Bucket>): (v: Json.Value)
    ensures v.Arr? && |v.items| == |bs|
    ensures forall i :: 0 <= i < |bs| ==> v.items[i] == BucketJson(bs[i])
  {
    Json.Arr(seq(|bs|, i requires 0 <= i < |bs| => BucketJson(bs[i])))
  }

  function ObjectJson(o: S3Object): (v: Json.Value)
    ensures v.Obj?
    ensures Json.Lookup(v.fields, "Key") == Json.OptStr(o.key)
  {
    Json.Obj(
      Json.Member("Key", Json.OptStr(o.key))
      + Json.Member("LastModified", Json.OptStr(o.lastModified))
      + Json.Member("ETag", Json.OptStr(o.eTag))
      + Json.Member("Size", Json.OptNum(o.size))
      + Json.Member("StorageClass", Json.OptStr(o.storageClass)))
  }

  function ObjectsJson(os: seq<S3Object>): (v: Json.Value)
    ensures v.Arr? && |v.items| == |os|
    ensures forall i :: 0 <= i < |os| ==> v.items[i] == ObjectJson(os[i])
  {
    Json.Arr(seq(|os|, i requires 0 <= i < |os| => ObjectJson(os[i])))
  }

  /** What a fetched object is returned as: decoded text or raw octets. */
  datatype Payload = Text(text: string) | Binary(bytes: seq<byte>)

  datatype ObjectData = ObjectData(data: Payload, contentType: string)

  /** The commands sent to the backend. */
  datatype ListObjectsRequest = ListObjectsRequest(bucket: string, prefix: string, maxKeys: int)
  datatype GetObjectRequest = GetObjectRequest(bucket: string, key: string)

  /** The body of a fetched object: a readable stream, which delivers its
      chunks and then either ends or fails with an error, or anything else. */
  datatype Body = Stream(chunks: seq<seq<byte>>, failure: Option<Thrown>) | NotStream

  datatype GetObjectReply = GetObjectReply(contentType: Option<string>, body: Body)

  /** The error raised for a bucket outside the allow-list. */
  function NotAllowed(bucket: string): (e: Thrown)
    ensures e.ErrorObject?
  {
    ErrorObject("Bucket " + bucket + " is not in the allowed buckets list")
  }

  const UnexpectedBody := ErrorObject("Unexpected response body type")

  /** The text returned in place of a PDF whose text cannot be extracted. */
  const PdfFallback := "Error: Could not extract text from PDF file."

  /** The name extensions that mark a text object. */
  const TextExtensions: seq<string> := [
    ".txt", ".json", ".xml", ".html", ".htm", ".css", ".js", ".ts", ".md", ".csv",
    ".yml", ".yaml", ".log", ".sh", ".bash", ".py", ".rb", ".java", ".c", ".cpp",
    ".h", ".cs", ".php"]

  /** The content types that mark a text object (compared case-sensitively). */
  predicate IsTextContentType(ct: string)
    ensures IsTextContentType(ct) ==> ct != "" && ct != "application/octet-stream" && ct != "application/pdf"
  {
    assert StartsWith(ct, "text/") ==> ct[0] == 't';
    assert "application/octet-stream"[0] == 'a' && "application/pdf"[0] == 'a';
    StartsWith(ct, "text/") || ct == "application/json" || ct == "application/xml"
    || ct == "application/javascript"
  }

  /** `exts.some((ext) => k.endsWith(ext))`. */
  function EndsWithAny(k: string, exts: seq<string>): (r: bool)
    ensures r <==> exists i :: 0 <= i < |exts| && EndsWith(k, exts[i])
  {
    if |exts| == 0 then false
    else if EndsWith(k, exts[0]) then true
    else
      var r := EndsWithAny(k, exts[1..]);
      assert forall i :: 1 <= i < |exts| ==> exts[i] == exts[1..][i - 1];
      r
  }

  /** `isTextFile`: by content type (absent = ""), then by the lower-cased key. */
  function IsTextFile(key: string, contentType: Option<string>): (r: bool)
    ensures r <==> IsTextContentType(contentType.GetOr("")) || exists i :: 0 <= i < |TextExtensions| && EndsWith(ToLower(key), TextExtensions[i])
  {
    if IsTextContentType(contentType.GetOr("")) then true
    else EndsWithAny(ToLower(key), TextExtensions)
  }

  /** `isPdfFile`: content type exactly "application/pdf", or a key ending in
      ".pdf" in any letter case. */
  function IsPdfFile(key: string, contentType: Option<string>): (r: bool)
  {
    if contentType.GetOr("") == "application/pdf" then true
    else EndsWith(ToLower(key), ".pdf")
  }

  /** The letter case of the key does not matter to either classification. */
  lemma ClassificationIgnoresKeyCase(key: string, contentType: Option<string>)
    ensures IsTextFile(ToLower(key), contentType) == IsTextFile(key, contentType)
    ensures IsPdfFile(ToLower(key), contentType) == IsPdfFile(key, contentType)
  {
    ToLowerIdempotent(key);
  }

  /** A key ending in ".PDF" is a PDF whatever its content type. */
  lemma UpperCasePdfExtension(key: string, contentType: Option<string>)
    requires EndsWith(key, ".PDF")
    ensures IsPdfFile(key, contentType)
  {
    ToLowerSuffix(key, ".PDF");
    assert ToLower(".PDF") == ".pdf";
  }

  /** No text extension ends in 'f', so a ".pdf" key is never text by its name:
      only a text content type makes such an object text. */
  lemma {:induction false} PdfKeyIsNotTextByName(key: string, contentType: Option<string>)
    requires EndsWith(ToLower(key), ".pdf")
    ensures IsPdfFile(key, contentType)
    ensures IsTextFile(key, contentType) <==> IsTextContentType(contentType.GetOr(""))
  {
    var k := ToLower(key);
    assert k[|k| - 1] == 'f';
    forall i | 0 <= i < |TextExtensions| ensures !EndsWith(k, TextExtensions[i]) {
      var e := TextExtensions[i];
      assert e[|e| - 1] != 'f';
    }
  }

  /** The last two characters of the text extensions. */
  const TextExtensionTails: set<string> :=
    {"xt", "on", "ml", "tm", "ss", "js", "ts", "md", "sv", "og", "sh", "py", "rb", "va", ".c", "pp",
     ".h", "cs", "hp"}

  /** A key is not text by its name when its last two characters, lower-cased,
      are not the last two characters of any text extension: such an object is
      text exactly when its content type is. */
  lemma NotTextByName(key: string)
    requires |key| >= 2 && ToLower(key[|key| - 2..]) !in TextExtensionTails
    ensures forall i :: 0 <= i < |TextExtensions| ==> !EndsWith(ToLower(key), TextExtensions[i])
    ensures forall contentType :: IsTextFile(key, contentType) == IsTextContentType(contentType.GetOr(""))
  {
    var k := ToLower(key);
    var tail := key[|key| - 2..];
    ToLowerSuffix(key, tail);
    assert k[|k| - 2..] == ToLower(tail);
    forall i | 0 <= i < |TextExtensions| ensures !EndsWith(k, TextExtensions[i]) {
      var e := TextExtensions[i];
      assert e[|e| - 2..] in TextExtensionTails;
    }
  }

  /** `convertPdfToText`: the extractor's text, or the fixed placeholder when it fails. */
  function ConvertPdfToText(data: seq<byte>, pdfParse: seq<byte> -> Result<string, Thrown>): (t: string)
    ensures pdfParse(data).Err? ==> t == PdfFallback
    ensures pdfParse(data).Ok? ==> t == pdfParse(data).value
  {
    match pdfParse(data)
    case Ok(text) => text
    case Err(_) => PdfFallback
  }

  /** `Buffer.concat(chunks)`. */
  function Concat(chunks: seq<seq<byte>>): seq<byte> {
    if |chunks| == 0 then [] else chunks[0] + Concat(chunks[1..])
  }

  lemma {:induction false} ConcatAppend(a: seq<seq<byte>>, b: seq<seq<byte>>)
    ensures Concat(a + b) == Concat(a) + Concat(b)
  {
    if |a| == 0 {
      assert a + b == b;
    } else {
      assert (a + b)[1..] == a[1..] + b;
      ConcatAppend(a[1..], b);
    }
  }

  /** Each octet of the concatenation is an octet of some chunk, in order: byte
      `j` of chunk `i` lands right after all the chunks before it. */
  lemma {:induction false} ConcatAt(chunks: seq<seq<byte>>, i: nat, j: nat)
    requires i < |chunks| && j < |chunks[i]|
    ensures |Concat(chunks[..i])| + j < |Concat(chunks)|
    ensures Concat(chunks)[|Concat(chunks[..i])| + j] == chunks[i][j]
  {
    assert chunks == chunks[..i] + chunks[i..];
    ConcatAppend(chunks[..i], chunks[i..]);
    assert Concat(chunks[i..]) == chunks[i] + Concat(chunks[i + 1..]);
  }

  /** The content type of a reply; absent or empty means octet-stream. */
  function ContentTypeOf(reply: GetObjectReply): (r: string)
    ensures r != ""
    ensures TruthyText(reply.contentType) ==> r == reply.contentType.value
    ensures !TruthyText(reply.contentType) ==> r == "application/octet-stream"
  {
    if TruthyText(reply.contentType) then reply.contentType.value else "application/octet-stream"
  }

  class S3Resource {
    const clientOptions: ClientOptions
    const maxBuckets: Num
    const configuredBuckets: seq<string>

    /** No entry of the allow-list is blank or contains a comma. */
    ghost predicate Valid() {
      forall k :: 0 <= k < |configuredBuckets| ==> !IsBlank(configuredBuckets[k]) && ',' !in configuredBuckets[k]
    }

    constructor (env: Env, region: Option<string>, maxBuckets: Option<int>)
      ensures Valid()
      ensures this.clientOptions == ClientOptionsOf(env, region)
      ensures this.maxBuckets == MaxBucketsOf(maxBuckets, env)
      ensures this.configuredBuckets == ConfiguredBuckets(env.s3Buckets)
    {
      this.clientOptions := ClientOptionsOf(env, region);
      this.maxBuckets := MaxBucketsOf(maxBuckets, env);
      this.configuredBuckets := ConfiguredBuckets(env.s3Buckets);
      ConfiguredBucketsEntries(env.s3Buckets);
    }

    /** The guard of `listObjects` and `getObject`: an empty allow-list admits
        every bucket, a non-empty one exactly its entries. */
    predicate Admits(bucket: string)
      ensures |configuredBuckets| == 0 ==> Admits(bucket)
      ensures |configuredBuckets| > 0 ==> (Admits(bucket) <==> bucket in configuredBuckets)
    {
      !(|configuredBuckets| > 0 && bucket !in configuredBuckets)
    }

    /** The filter of `listBuckets` with an allow-list: a bucket whose name is
        present (and, being truthy, non-empty) and listed. */
    predicate Listed(b: Bucket)
      ensures Listed(b) ==> b.name.Some? && b.name.value in configuredBuckets
      ensures b.name.None? || b.name.value !in configuredBuckets ==> !Listed(b)
    {
      b.name.Some? && b.name.value != "" && b.name.value in configuredBuckets
    }

    /** The emptiness test of the filter adds nothing: a valid allow-list has
        no empty entry. */
    lemma ListedIffNamed(b: Bucket)
      requires Valid()
      ensures Listed(b) <==> b.name.Some? && b.name.value in configuredBuckets
    {
      if b.name.Some? && b.name.value in configuredBuckets {
        var k :| 0 <= k < |configuredBuckets| && configuredBuckets[k] == b.name.value;
        assert IsBlank("");
      }
    }

    function KeepListed(bs: seq<Bucket>): (r: seq<Bucket>)
      ensures |r| <= |bs|
      ensures forall k :: 0 <= k < |r| ==> Listed(r[k]) && r[k] in bs
    {
      if |bs| == 0 then []
      else (if Listed(bs[0]) then [bs[0]] else []) + KeepListed(bs[1..])
    }

    /** The filter keeps order: filtering a concatenation filters each part. */
    lemma {:induction false} KeepListedAppend(a: seq<Bucket>, b: seq<Bucket>)
      ensures KeepListed(a + b) == KeepListed(a) + KeepListed(b)
    {
      if |a| == 0 {
        assert a + b == b;
      } else {
        assert (a + b)[1..] == a[1..] + b;
        KeepListedAppend(a[1..], b);
      }
    }

    /** Nothing listed is lost: every listed bucket of the reply survives the filter. */
    lemma {:induction false} KeepListedComplete(bs: seq<Bucket>, b: Bucket)
      requires b in bs && Listed(b)
      ensures b in KeepListed(bs)
    {
      if bs[0] != b {
        KeepListedComplete(bs[1..], b);
      }
    }

    /** `listBuckets` on the backend's reply (a missing `Buckets` field is `None`). */
    function ListBuckets(reply: Result<Option<seq<Bucket>>, Thrown>): (r: Result<seq<Bucket>, Thrown>)
      ensures reply.Err? ==> r == Err(reply.error)
      ensures reply.Ok? ==> r.Ok?
      ensures reply == Ok(None) ==> r == Ok([])
      ensures reply.Ok? && |configuredBuckets| == 0 ==> r.value == SlicePrefix(reply.value.GetOr([]), maxBuckets)
      ensures reply.Ok? && |configuredBuckets| > 0 ==> r.value == SlicePrefix(KeepListed(reply.value.GetOr([])), maxBuckets)
      ensures r.Ok? && maxBuckets.Int? && maxBuckets.value >= 0 ==> |r.value| <= maxBuckets.value
      ensures r.Ok? && |configuredBuckets| > 0 ==> forall k :: 0 <= k < |r.value| ==> Listed(r.value[k])
    {
      match reply
      case Err(e) => Err(e)
      case Ok(response) =>
        var buckets := response.GetOr([]);
        if |configuredBuckets| > 0 then Ok(SlicePrefix(KeepListed(buckets), maxBuckets))
        else Ok(SlicePrefix(buckets, maxBuckets))
    }

    /** `listObjects`: the guard comes first, so a refused bucket fails the same
        way whatever the backend would have answered; otherwise the command
        carries the arguments (defaults "" and 1000) and a missing `Contents`
        field gives the empty list. */
    function ListObjects(bucket: string, prefix: Option<string>, maxKeys: Option<int>,
                         send: ListObjectsRequest -> Result<Option<seq<S3Object>>, Thrown>): (r: Result<seq<S3Object>, Thrown>)
      ensures !Admits(bucket) ==> r == Err(NotAllowed(bucket))
      ensures Admits(bucket) ==>
        var reply := send(ListObjectsRequest(bucket, prefix.GetOr(""), maxKeys.GetOr(1000)));
        (reply.Err? ==> r == Err(reply.error)) && (reply.Ok? ==> r == Ok(reply.value.GetOr([])))
    {
      if !Admits(bucket) then Err(NotAllowed(bucket))
      else
        match send(ListObjectsRequest(bucket, prefix.GetOr(""), maxKeys.GetOr(1000)))
        case Err(e) => Err(e)
        case Ok(contents) => Ok(contents.GetOr([]))
    }

    /** `getObject`: the guard, one backend request, the body's chunks gathered
        in order, then text (decoded) over PDF (extracted) over raw octets; a
        stream that fails while it is read gives its error instead. */
    method GetObject(bucket: string, key: string,
                     send: GetObjectRequest -> Result<GetObjectReply, Thrown>,
                     utf8: seq<byte> -> string,
                     pdfParse: seq<byte> -> Result<string, Thrown>) returns (r: Result<ObjectData, Thrown>)
      ensures !Admits(bucket) ==> r == Err(NotAllowed(bucket))
      ensures Admits(bucket) && send(GetObjectRequest(bucket, key)).Err? ==>
        r == Err(send(GetObjectRequest(bucket, key)).error)
      ensures Admits(bucket) && send(GetObjectRequest(bucket, key)).Ok? ==>
        var reply := send(GetObjectRequest(bucket, key)).value;
        var ct := ContentTypeOf(reply);
        && (reply.body.NotStream? ==> r == Err(UnexpectedBody))
        && (reply.body.Stream? && reply.body.failure.Some? ==> r == Err(reply.body.failure.value))
        && (reply.body.Stream? && reply.body.failure.None? ==>
              var data := Concat(reply.body.chunks);
              && (IsTextFile(key, Some(ct)) ==> r == Ok(ObjectData(Text(utf8(data)), ct)))
              && (!IsTextFile(key, Some(ct)) && IsPdfFile(key, Some(ct)) ==>
                    r == Ok(ObjectData(Text(ConvertPdfToText(data, pdfParse)), ct)))
              && (!IsTextFile(key, Some(ct)) && !IsPdfFile(key, Some(ct)) ==>
                    r == Ok(ObjectData(Binary(data), ct))))
    {
      if !Admits(bucket) {
        return Err(NotAllowed(bucket));
      }
      var response := send(GetObjectRequest(bucket, key));
      if response.Err? {
        return Err(response.error);
      }
      var reply := response.value;
      var contentType := ContentTypeOf(reply);
      if reply.body.NotStream? {
        return Err(UnexpectedBody);
      }
      var chunks := reply.body.chunks;
      var data: seq<byte> := [];
      var i := 0;
      while i < |chunks|
        invariant 0 <= i <= |chunks|
        invariant data == Concat(chunks[..i])
      {
        ConcatAppend(chunks[..i], [chunks[i]]);
        assert chunks[..i + 1] == chunks[..i] + [chunks[i]];
        data := data + chunks[i];
        i := i + 1;
      }
      assert chunks[..i] == chunks;
      if reply.body.failure.Some? {
        return Err(reply.body.failure.value);
      }
      if IsTextFile(key, Some(contentType)) {
        r := Ok(ObjectData(Text(utf8(data)), contentType));
      } else if IsPdfFile(key, Some(contentType)) {
        r := Ok(ObjectData(Text(ConvertPdfToText(data, pdfParse)), contentType));
      } else {
        r := Ok(ObjectData(Binary(data), contentType));
      }
    }
  }
}
