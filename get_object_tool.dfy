/** `GetObjectTool.execute`: fetch one object through the resource and shape the
    result as text, as a base64 preview of binary data, or as an error. */
module GetObjectTool {
  import opened Wrappers
  import opened Errors
  import opened Bytes
  import opened ErrorResponse
  import Base64
  import S3
  import JsString

  /** The text shown for binary data. */
  function BinaryText(contentType: string, data: seq<byte>): (r: string)
    ensures var head := "Binary content (" + contentType + "): base64 data is ";
      && |head| + 3 <= |r| <= |head| + 103
      && JsString.StartsWith(r, head) && JsString.EndsWith(r, "...")
      && |r| - |head| - 3 <= |Base64.Encode(data)|
      && r[|head|..|r| - 3] == Base64.Encode(data)[..|r| - |head| - 3]
  {
    "Binary content (" + contentType + "): base64 data is " + Base64.Preview(data) + "..."
  }

  /** The message passed to `createErrorResponse` on failure. */
  function ErrorContext(bucket: string, key: string): (r: string)
    ensures JsString.StartsWith(r, "Error getting object " + key)
    ensures JsString.EndsWith(r, " from bucket " + bucket)
  {
    "Error getting object " + key + " from bucket " + bucket
  }

  /** `execute({bucket, key})`: `getObject` is the resource's operation, asked
      once, for exactly (bucket, key); every failure becomes an envelope. */
  function Execute(bucket: string, key: string,
                   getObject: (string, string) -> Result<S3.ObjectData, Thrown>): (r: ToolResponse)
    ensures |r.content| == 1
    ensures getObject(bucket, key).Ok? && getObject(bucket, key).value.data.Text? ==>
      r == Success(getObject(bucket, key).value.data.text)
    ensures getObject(bucket, key).Ok? && getObject(bucket, key).value.data.Binary? ==>
      r == Success(BinaryText(getObject(bucket, key).value.contentType, getObject(bucket, key).value.data.bytes))
    ensures getObject(bucket, key).Err? ==>
      r.isError == Some(true) &&
      r.content[0].text == "Error: " + ErrorContext(bucket, key) + ": " + Describe(getObject(bucket, key).error)
  {
    match getObject(bucket, key)
    case Ok(result) =>
      (match result.data
       case Text(t) => Success(t)
       case Binary(b) => Success(BinaryText(result.contentType, b)))
    case Err(e) =>
      ToolErrorText(e, ErrorContext(bucket, key));
      CreateErrorResponse(e, Some(ErrorContext(bucket, key) + ": " + Describe(e)))
  }

  /** Only the answer for (bucket, key) matters: two resources that agree on it
      give the same envelope. */
  lemma ExecuteAsksOnlyForItsObject(bucket: string, key: string,
                                    f: (string, string) -> Result<S3.ObjectData, Thrown>,
                                    g: (string, string) -> Result<S3.ObjectData, Thrown>)
    requires f(bucket, key) == g(bucket, key)
    ensures Execute(bucket, key, f) == Execute(bucket, key, g)
  {
  }

  /** The preview of binary data is its base64 text, cut at 100 characters:
      for data of at most 75 bytes it is the whole encoding. */
  lemma {:induction false} BinaryPreviewIsWholeForShortData(contentType: string, data: seq<byte>)
    requires |data| <= 75
    ensures BinaryText(contentType, data)
      == "Binary content (" + contentType + "): base64 data is " + Base64.Encode(data) + "..."
    ensures Base64.Decode(Base64.Preview(data)) == Some(data)
  {
    Base64.PreviewShowsShortData(data);
    assert (|data| + 2) / 3 <= 25;
    assert Base64.Preview(data) == Base64.Encode(data);
  }

  /** A bucket refused by the allow-list reaches the caller as an error envelope
      that names the object, the bucket and the refusal. */
  lemma {:induction false} RefusedBucket(bucket: string, key: string,
                      getObject: (string, string) -> Result<S3.ObjectData, Thrown>)
    requires getObject(bucket, key) == Err(S3.NotAllowed(bucket))
    ensures Execute(bucket, key, getObject).isError == Some(true)
    ensures Execute(bucket, key, getObject).content[0].text ==
      RefusalText(key, bucket)
  {
    var why := Describe(S3.NotAllowed(bucket));
    assert why == "Bucket " + bucket + " is not in the allowed buckets list";
    RefusalTextShape(key, bucket, why);
  }

  /** The text of a refusal, as the tool's callers see it. */
  function RefusalText(key: string, bucket: string): (r: string)
    ensures JsString.StartsWith(r, "Error: Error getting object " + key)
    ensures JsString.EndsWith(r, ": Bucket " + bucket + " is not in the allowed buckets list")
  {
    "Error: Error getting object " + key + " from bucket " + bucket + ": Bucket " + bucket
    + " is not in the allowed buckets list"
  }

  lemma RefusalTextShape(key: string, bucket: string, why: string)
    requires why == "Bucket " + bucket + " is not in the allowed buckets list"
    ensures "Error: " + ErrorContext(bucket, key) + ": " + why == RefusalText(key, bucket)
  {
    var e, g, f, c := "Error: ", "Error getting object ", " from bucket ", ": ";
    var n := " is not in the allowed buckets list";
    assert e + g == "Error: Error getting object ";
    assert c + "Bucket " == ": Bucket ";
    Regroup(e, g + key + f, bucket);
    Regroup(e, g + key, f);
    Regroup(e, g, key);
    Regroup(e + g + key + f + bucket, c, "Bucket " + bucket + n);
    Regroup(e + g + key + f + bucket + c, "Bucket " + bucket, n);
    Regroup(e + g + key + f + bucket + c, "Bucket ", bucket);
    Regroup(e + g + key + f + bucket, c, "Bucket ");
  }

  lemma Regroup(a: string, b: string, c: string)
    ensures a + (b + c) == a + b + c
  {
  }
}
