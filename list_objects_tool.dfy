/** `ListObjectsTool.execute`: default the optional arguments, list through the
    resource, and shape the result as JSON text or as an error. */
module ListObjectsTool {
  import opened Wrappers
  import opened Errors
  import opened ErrorResponse
  import Json
  import S3

  /** `prefix || ""`. */
  function EffectivePrefix(prefix: Option<string>): (p: string)
    ensures prefix.Some? && prefix.value != "" ==> p == prefix.value
    ensures prefix.None? || prefix.value == "" ==> p == ""
  {
    if prefix.Some? && prefix.value != "" then prefix.value else ""
  }

  /** `maxKeys || 1000`: absent and zero both become 1000. */
  function EffectiveMaxKeys(maxKeys: Option<int>): (k: int)
    ensures k != 0
    ensures maxKeys.Some? && maxKeys.value != 0 ==> k == maxKeys.value
    ensures maxKeys.None? || maxKeys.value == 0 ==> k == 1000
  {
    if maxKeys.Some? && maxKeys.value != 0 then maxKeys.value else 1000
  }

  function ErrorContext(bucket: string): string {
    "Error listing objects in bucket " + bucket
  }

  /** `execute({bucket, prefix, maxKeys})`; `stringify` is `JSON.stringify(_, null, 2)`. */
  function Execute(bucket: string, prefix: Option<string>, maxKeys: Option<int>,
                   listObjects: (string, string, int) -> Result<seq<S3.S3Object>, Thrown>,
                   stringify: Json.Value -> string): (r: ToolResponse)
    ensures |r.content| == 1
    ensures
      var outcome := listObjects(bucket, EffectivePrefix(prefix), EffectiveMaxKeys(maxKeys));
      && (outcome.Ok? ==> r == Success(stringify(S3.ObjectsJson(outcome.value))))
      && (outcome.Err? ==>
            r.isError == Some(true) &&
            r.content[0].text == "Error: " + ErrorContext(bucket) + ": " + Describe(outcome.error))
  {
    match listObjects(bucket, EffectivePrefix(prefix), EffectiveMaxKeys(maxKeys))
    case Ok(objects) => Success(stringify(S3.ObjectsJson(objects)))
    case Err(e) =>
      ToolErrorText(e, ErrorContext(bucket));
      CreateErrorResponse(e, Some(ErrorContext(bucket) + ": " + Describe(e)))
  }

  /** Arguments given with a truthy value reach the resource unchanged. */
  lemma ArgumentsPassThrough(bucket: string, prefix: string, maxKeys: int,
                             listObjects: (string, string, int) -> Result<seq<S3.S3Object>, Thrown>,
                             stringify: Json.Value -> string)
    requires prefix != "" && maxKeys != 0
    ensures Execute(bucket, Some(prefix), Some(maxKeys), listObjects, stringify)
      == Execute(bucket, Some(prefix), Some(maxKeys), (b, p, k) => if b == bucket && p == prefix && k == maxKeys then listObjects(b, p, k) else Err(OtherValue("")), stringify)
  {
  }

  /** Leaving the arguments out is the same as passing "" and 0. */
  lemma DefaultsAreFalsyValues(bucket: string,
                               listObjects: (string, string, int) -> Result<seq<S3.S3Object>, Thrown>,
                               stringify: Json.Value -> string)
    ensures Execute(bucket, None, None, listObjects, stringify)
      == Execute(bucket, Some(""), Some(0), listObjects, stringify)
      == Execute(bucket, Some(""), Some(1000), listObjects, stringify)
  {
  }

  /** The JSON of a listing has one entry per object, in order, each carrying
      the object's key. */
  lemma ListingJson(objects: seq<S3.S3Object>)
    ensures |S3.ObjectsJson(objects).items| == |objects|
    ensures forall i :: 0 <= i < |objects| ==>
      Json.Lookup(S3.ObjectsJson(objects).items[i].fields, "Key") == Json.OptStr(objects[i].key)
  {
  }
}
