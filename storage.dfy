/**
 * The two services the pipeline writes to, as state: the object store (the S3 client)
 * and the record table (the DynamoDB table). A service call that raises is an input of
 * the call: `fault` is `Some(message)` when the service raises with that message.
 */
module Storage {
  import opened Results

  type Byte = bv8

  /** Where an object lives: a bucket and a key inside it. */
  datatype Location = Location(bucket: string, key: string)

  /** A stored object: its bytes, its content type and whether it is publicly readable. */
  datatype StoredObject = StoredObject(body: seq<Byte>, contentType: string, publicRead: bool)

  /** The message the store raises when a key is absent. */
  const NoSuchKey: string := "NoSuchKey"

  /** What `get_object(...)['Body'].read()` yields on a store holding `objects`. */
  function Fetched(objects: map<Location, StoredObject>, at: Location, fault: Option<string>)
    : Result<seq<Byte>, string>
  {
    if fault.Some? then Failure(fault.value)
    else if at !in objects then Failure(NoSuchKey)
    else Success(objects[at].body)
  }

  class ObjectStore {
    var objects: map<Location, StoredObject>

    constructor ()
      ensures objects == map[]
    {
      objects := map[];
    }

    /**
     * Downloads an object's bytes. It raises with the service's message on a fault,
     * raises `NoSuchKey` when nothing is stored there, and otherwise returns the body.
     */
    method GetObject(bucket: string, key: string, fault: Option<string>)
      returns (r: Result<seq<Byte>, string>)
      ensures r == Fetched(objects, Location(bucket, key), fault)
      ensures fault.Some? ==> r == Failure(fault.value)
      ensures fault.None? && Location(bucket, key) !in objects ==> r == Failure(NoSuchKey)
      ensures fault.None? && Location(bucket, key) in objects ==>
                r == Success(objects[Location(bucket, key)].body)
    {
      var at := Location(bucket, key);
      if fault.Some? {
        r := Failure(fault.value);
      } else if at !in objects {
        r := Failure(NoSuchKey);
      } else {
        r := Success(objects[at].body);
      }
    }

    /**
     * Writes (or overwrites) one object. On a fault nothing is stored and the fault's
     * message is returned; otherwise exactly that location changes.
     */
    method PutObject(bucket: string, key: string, obj: StoredObject, fault: Option<string>)
      returns (raised: Option<string>)
      modifies this
      ensures raised == fault
      ensures fault.Some? ==> objects == old(objects)
      ensures fault.None? ==> objects == old(objects)[Location(bucket, key) := obj]
    {
      raised := fault;
      if fault.None? {
        objects := objects[Location(bucket, key) := obj];
      }
    }
  }

  /** An item of the record table: an owner name and the URL of a processed image. */
  datatype Record = Record(name: string, imageUrl: string)

  class RecordTable {
    /** The items in insertion order; nothing is ever updated or deleted. */
    var items: seq<Record>

    constructor ()
      ensures items == []
    {
      items := [];
    }

    /** Inserts one item: appended on success, nothing on a fault. */
    method PutItem(item: Record, fault: Option<string>) returns (raised: Option<string>)
      modifies this
      ensures raised == fault
      ensures fault.Some? ==> items == old(items)
      ensures fault.None? ==> items == old(items) + [item]
    {
      raised := fault;
      if fault.None? {
        items := items + [item];
      }
    }
  }
}
