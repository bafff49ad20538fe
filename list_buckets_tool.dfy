/** `ListBucketsTool.execute`: list through the resource and shape the result as
    JSON text or as an error. The tool takes no arguments. */
module ListBucketsTool {
  import opened Wrappers
  import opened Errors
  import opened ErrorResponse
  import Json
  import S3

  const ErrorContext := "Error listing buckets"

  /** `execute(args)`: `outcome` is the answer of the one `listBuckets` call;
      `args` is not looked at. */
  function Execute(args: map<string, Json.Value>, outcome: Result<seq<S3.Bucket>, Thrown>,
                   stringify: Json.Value -> string): (r: ToolResponse)
    ensures |r.content| == 1
    ensures outcome.Ok? ==> r == Success(stringify(S3.BucketsJson(outcome.value)))
    ensures outcome.Err? ==>
      r.isError == Some(true) &&
      r.content[0].text == "Error: " + ErrorContext + ": " + Describe(outcome.error)
  {
    match outcome
    case Ok(buckets) => Success(stringify(S3.BucketsJson(buckets)))
    case Err(e) =>
      ToolErrorText(e, ErrorContext);
      CreateErrorResponse(e, Some(ErrorContext + ": " + Describe(e)))
  }

  lemma IgnoresArguments(a: map<string, Json.Value>, b: map<string, Json.Value>,
                         outcome: Result<seq<S3.Bucket>, Thrown>, stringify: Json.Value -> string)
    ensures Execute(a, outcome, stringify) == Execute(b, outcome, stringify)
  {
  }

  /** The JSON of a bucket list has exactly as many entries as the list, in
      order, each with the bucket's name (or none when the bucket has none). */
  lemma BucketListJson(buckets: seq<S3.Bucket>)
    ensures |S3.BucketsJson(buckets).items| == |buckets|
    ensures forall i :: 0 <= i < |buckets| ==>
      Json.Lookup(S3.BucketsJson(buckets).items[i].fields, "Name") == Json.OptStr(buckets[i].name)
  {
  }
}
