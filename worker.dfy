/**
 * The derivation worker (`lambda_handler`): invoked with the bucket and the decoded key of
 * a newly created object, it downloads the object, resizes it, stores the resized copy
 * under the processed key and then inserts a record pointing at it.
 */
module Worker {
  import opened Results
  import opened Strings
  import opened Keys
  import opened Storage

  /** The image library's thumbnail-and-encode step: bytes and a bounding box to JPEG bytes, or an error. */
  type Resizer = (seq<Byte>, int, int) -> Result<seq<Byte>, string>

  const MaxWidth := 1280
  const MaxHeight := 720
  const JpegContentType: string := "image/jpeg"
  const SuccessMessage: string := "Image resized and data stored successfully!"
  const ErrorPrefix: string := "Error processing image: "
  const IndexErrorMessage: string := "IndexError: list index out of range"

  /** What each service call inside the `try` raises, if anything. */
  datatype Faults = Faults(fetch: Option<string>, publish: Option<string>, record: Option<string>)

  /** How an invocation ends. */
  datatype HandlerResult =
    | NoResponse                                // the bare `return` of the folder guard
    | Response(statusCode: int, body: string)   // the returned dictionary, body before JSON encoding
    | Uncaught(error: string)                   // an exception escaping the handler

  function ServerError(message: string): HandlerResult
  {
    Response(500, ErrorPrefix + message)
  }

  /** The processed copy the worker writes for resized bytes. */
  function ProcessedObject(jpeg: seq<Byte>): StoredObject
  {
    StoredObject(jpeg, JpegContentType, true)
  }

  /**
   * What the steps inside the `try` do for an upload key whose owner is `owner`, from the
   * store contents and table items before (`objects`, `items`) to those after (`objects'`,
   * `items'`), ending in `r`. The steps run in order, the first one that raises ends the
   * run with 500 and its message, and each path says exactly which writes happened.
   */
  ghost predicate TrySteps(objects: map<Location, StoredObject>, items: seq<Record>,
                           objects': map<Location, StoredObject>, items': seq<Record>,
                           r: HandlerResult, bucket: string, key: string, owner: string,
                           faults: Faults, resize: Resizer)
  {
    var raw := Fetched(objects, Location(bucket, key), faults.fetch);
    var jpeg := if raw.Success? then resize(raw.value, MaxWidth, MaxHeight) else Failure("");
    var processedKey := ProcessedKey(key);
    var target := Location(bucket, processedKey);
    if raw.Failure? then
      r == ServerError(raw.error) && objects' == objects && items' == items
    else if jpeg.Failure? then
      r == ServerError(jpeg.error) && objects' == objects && items' == items
    else if faults.publish.Some? then
      r == ServerError(faults.publish.value) && objects' == objects && items' == items
    else if faults.record.Some? then
      r == ServerError(faults.record.value)
      && objects' == objects[target := ProcessedObject(jpeg.value)] && items' == items
    else
      r == Response(200, SuccessMessage)
      && objects' == objects[target := ProcessedObject(jpeg.value)]
      && items' == items + [Record(owner, PublicUrl(bucket, processedKey))]
  }

  /**
   * One invocation. The owner name is read before the guard and outside the `try`, so a
   * key without `/` escapes as an `IndexError`; a key outside `uploads/` is ignored. Both
   * leave the store and the table alone. For an upload key the steps inside the `try` run
   * as `TrySteps` describes.
   */
  method LambdaHandler(s3: ObjectStore, table: RecordTable, bucket: string, key: string,
                       faults: Faults, resize: Resizer)
    returns (r: HandlerResult)
    modifies s3, table
    ensures '/' !in key ==> r == Uncaught(IndexErrorMessage)
    ensures '/' in key && !IsUploadKey(key) ==> r == NoResponse
    ensures !IsUploadKey(key) ==> s3.objects == old(s3.objects) && table.items == old(table.items)
    ensures IsUploadKey(key) ==>
              TrySteps(old(s3.objects), old(table.items), s3.objects, table.items, r,
                       bucket, key, OwnerName(key).value, faults, resize)
  {
    var owner := OwnerName(key);
    if owner.None? {
      return Uncaught(IndexErrorMessage);
    }
    if !IsUploadKey(key) {
      return NoResponse;
    }
    r := RunSteps(s3, table, bucket, key, owner.value, faults, resize);
  }

  /** The body of the `try`: fetch, resize, store the processed copy, insert the record. */
  method RunSteps(s3: ObjectStore, table: RecordTable, bucket: string, key: string,
                  owner: string, faults: Faults, resize: Resizer)
    returns (r: HandlerResult)
    modifies s3, table
    ensures TrySteps(old(s3.objects), old(table.items), s3.objects, table.items, r,
                     bucket, key, owner, faults, resize)
  {
    var raw := s3.GetObject(bucket, key, faults.fetch);
    if raw.Failure? {
      return ServerError(raw.error);
    }
    var jpeg := resize(raw.value, MaxWidth, MaxHeight);
    if jpeg.Failure? {
      return ServerError(jpeg.error);
    }
    var processedKey := ProcessedKey(key);
    var raised := s3.PutObject(bucket, processedKey, ProcessedObject(jpeg.value), faults.publish);
    if raised.Some? {
      return ServerError(raised.value);
    }
    var url := PublicUrl(bucket, processedKey);
    raised := table.PutItem(Record(owner, url), faults.record);
    if raised.Some? {
      return ServerError(raised.value);
    }
    return Response(200, SuccessMessage);
  }

  /** A record is only ever inserted after the processed object is in place, and on success. */
  lemma RecordOnlyAfterPublish(objects: map<Location, StoredObject>, items: seq<Record>,
                               objects': map<Location, StoredObject>, items': seq<Record>,
                               r: HandlerResult, bucket: string, key: string, owner: string,
                               faults: Faults, resize: Resizer)
    requires TrySteps(objects, items, objects', items', r, bucket, key, owner, faults, resize)
    requires items' != items
    ensures r == Response(200, SuccessMessage)
    ensures Location(bucket, ProcessedKey(key)) in objects'
    ensures objects'[Location(bucket, ProcessedKey(key))].contentType == JpegContentType
    ensures objects'[Location(bucket, ProcessedKey(key))].publicRead
  {
  }

  /**
   * Status 200 exactly when every step succeeds, and then exactly one object (the resized
   * copy at the processed key) and one record `{owner, URL}` are added.
   */
  lemma SuccessWritesOneOfEach(objects: map<Location, StoredObject>, items: seq<Record>,
                               objects': map<Location, StoredObject>, items': seq<Record>,
                               r: HandlerResult, bucket: string, key: string, owner: string,
                               faults: Faults, resize: Resizer)
    requires TrySteps(objects, items, objects', items', r, bucket, key, owner, faults, resize)
    ensures r.Response? && r.statusCode == 200 <==>
              && Fetched(objects, Location(bucket, key), faults.fetch).Success?
              && resize(Fetched(objects, Location(bucket, key), faults.fetch).value,
                        MaxWidth, MaxHeight).Success?
              && faults.publish.None? && faults.record.None?
    ensures r.Response? && r.statusCode == 200 ==>
              && objects'.Keys == objects.Keys + {Location(bucket, ProcessedKey(key))}
              && items' == items + [Record(owner, PublicUrl(bucket, ProcessedKey(key)))]
  {
  }

  /**
   * Whatever happens, only the processed key can change, and the raw object of an upload
   * key keeps its contents.
   */
  lemma OnlyProcessedKeyChanges(objects: map<Location, StoredObject>, items: seq<Record>,
                                objects': map<Location, StoredObject>, items': seq<Record>,
                                r: HandlerResult, bucket: string, key: string, owner: string,
                                faults: Faults, resize: Resizer, at: Location)
    requires TrySteps(objects, items, objects', items', r, bucket, key, owner, faults, resize)
    requires IsUploadKey(key)
    requires at != Location(bucket, ProcessedKey(key))
    ensures at in objects' <==> at in objects
    ensures at in objects ==> objects'[at] == objects[at]
    ensures Location(bucket, key) != Location(bucket, ProcessedKey(key))
    ensures |items'| <= |items| + 1
  {
  }
}
