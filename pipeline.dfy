/**
 * The two components connected through the object store: an upload into an empty store,
 * followed by the worker invocation that the new raw object triggers, with every service
 * call succeeding.
 */
module Pipeline {
  import opened Results
  import opened Strings
  import opened Keys
  import opened Storage
  import opened Worker
  import opened Intake

  /**
   * With an owner name free of `/` and an object name in which `uploads/` does not occur
   * again, the upload lands under its raw key, the resized copy under
   * `processed/<name>_<filename>`, and the one record names the owner (the submitted name
   * up to its first `_`, which is the whole name exactly when it has no `_`) and links
   * the processed copy.
   */
  method UploadThenDerive(bucket: string, name: string, image: FileUpload, resize: Resizer)
    returns (page: UploadPage, result: HandlerResult,
             objects: map<Location, StoredObject>, records: seq<Record>)
    requires '/' !in name
    requires !Contains(name + "_" + image.filename, UploadPrefix)
    requires resize(image.data, MaxWidth, MaxHeight).Success?
    ensures page == ResultPage(true, None)
    ensures result == Response(200, SuccessMessage)
    ensures objects == map[
              Location(bucket, RawKey(name, image.filename)) :=
                StoredObject(image.data, image.contentType, false),
              Location(bucket, ProcessedPrefix + name + "_" + image.filename) :=
                ProcessedObject(resize(image.data, MaxWidth, MaxHeight).value)]
    ensures records == [Record(Before(name, '_'),
                               PublicUrl(bucket, ProcessedPrefix + name + "_" + image.filename))]
    ensures records[0].name == name <==> '_' !in name
  {
    var s3 := new ObjectStore();
    var table := new RecordTable();
    var form := UploadForm(map[NameField := name], map[ImageField := image]);
    page := Upload(s3, bucket, form, None);
    var key := RawKey(name, image.filename);
    OwnerOfRawKey(name, image.filename);
    OwnerRoundTrip(name, image.filename);
    ProcessedKeyOfRawKey(name, image.filename);
    result := LambdaHandler(s3, table, bucket, key, Faults(None, None, None), resize);
    objects, records := s3.objects, table.items;
  }

  /** The end-to-end example: owner `alice` uploads `beach.png`. */
  method AliceUploadsBeach(bucket: string, data: seq<Byte>, resize: Resizer)
    returns (objects: map<Location, StoredObject>, records: seq<Record>)
    requires resize(data, MaxWidth, MaxHeight).Success?
    ensures Location(bucket, "uploads/alice_beach.png") in objects
    ensures Location(bucket, "processed/alice_beach.png") in objects
    ensures records == [Record("alice", PublicUrl(bucket, "processed/alice_beach.png"))]
  {
    var name, filename := "alice", "beach.png";
    AliceObjectName();
    AliceRawKey();
    AliceProcessedKey();
    AliceOwner();
    var page, result;
    page, result, objects, records :=
      UploadThenDerive(bucket, name, FileUpload(filename, "image/png", data), resize);
  }

  /** The object name `alice_beach.png` has no second `uploads/`. */
  lemma AliceObjectName()
    ensures !Contains("alice" + "_" + "beach.png", UploadPrefix)
  {
    var objectName := "alice_beach.png";
    assert "alice" + "_" + "beach.png" == objectName;
    assert forall j :: 0 <= j < |objectName| ==> objectName[j] != '/';
    NoSlashNoUploadPrefix(objectName);
  }

  /** The raw key of the example, written out. */
  lemma AliceRawKey()
    ensures RawKey("alice", "beach.png") == "uploads/alice_beach.png"
  {
  }

  /** The processed key of the example, written out. */
  lemma AliceProcessedKey()
    ensures ProcessedPrefix + "alice" + "_" + "beach.png" == "processed/alice_beach.png"
  {
  }

  /** The name `alice` has no `_`, so it is its own owner name. */
  lemma AliceOwner()
    ensures Before("alice", '_') == "alice"
  {
    var name := "alice";
    assert forall j :: 0 <= j < |name| ==> name[j] != '_';
    BeforeAbsent(name, '_');
  }
}
