# ImageFlow upload-and-resize pipeline, modelled in Dafny

ImageFlow has two parts. A web form (the intake) stores an uploaded image in an object
store under `uploads/<name>_<filename>`. A storage-triggered function (the worker) then
handles the new object. It reads the owner name back out of the key, downloads the image,
resizes it and stores the copy under `processed/...`. Last, it inserts a record
`{name, image_url}` into a table.

This project models the key-naming contract between the two parts and the order of the
worker's steps, and proves properties of both.

- `Results` — `Option` and `Result`.
- `Strings` — the Python string operations the key logic uses, with Python's semantics:
  `str.split` on one character, `str.replace` with a non-empty pattern, `str.startswith`.
  It also defines independent reference definitions (`IndexOf`, `Before`, `After`, `Join`)
  that the operations are proved against.
- `Keys` — the raw key, the owner-name extraction, the folder guard, the processed key and
  the public URL, with their lemmas. This includes the round trip between the intake's key
  and the worker's owner extraction.
- `Storage` — the object store and the record table as classes whose methods update a
  `map` and a `seq`. Each service call takes a `fault` argument: `Some(message)` when the
  service raises.
- `Worker` — `lambda_handler` as a method, with the body of its `try` as a second method.
  A predicate over the state before and after says which writes happen on each path.
- `Intake` — the `/upload` handler as a method that makes one store write.
- `Pipeline` — an upload followed by the worker run it triggers, and the `alice` /
  `beach.png` example.

Behaviour of the code worth noting:

- The processed key comes from `str.replace`, which rewrites every `uploads/` in the key,
  not only the first one, so no `uploads/` is left in it (`Keys.ProcessedKeyLeavesNoUploadPrefix`).
- The owner name is split out before the folder guard and outside the `try`. So a key with
  no `/` escapes as an uncaught `IndexError`; it is neither ignored nor answered with 500.
- The intake does not check that the owner name is non-empty. A missing form field ends
  the request (Flask answers 400) before anything is stored.
- The intake grants no public read on the raw object. The worker marks the processed copy
  public-read with content type `image/jpeg`.
- Every failure inside the worker's `try` gives the same answer: status 500 with the
  message `Error processing image: <message>`. There is no separate error kind per step.
- A second `/`-segment without `_` is the owner in full. For an intake key whose name has
  no `/`, the owner is the name up to its first `_`, so a name with `_` is cut short. A name
  with `/` is also cut at its first `/`. Neither case is rejected.
- Because every `uploads/` is rewritten, the processed key identifies the raw key only
  among keys with no second `uploads/` (`Keys.ProcessedKeyInjective`). Otherwise two
  uploads can share one processed key: the same name with file names `uploads/x` and
  `processed/x` both lead to `processed/<name>_processed/x`, so the later run overwrites the
  earlier copy and the records of both runs carry the same URL (`Keys.IntakeKeysCollide`).
- The model appends one record per successful run. DynamoDB's `put_item` replaces an item
  with the same primary key, so re-running on the same raw key rewrites that record (the
  item is identical) instead of adding one; which uploads share a key depends on the
  table's key schema.

## Model

| member | source | states |
|---|---|---|
| `Strings.Split` | lambda_pre_process.py:29 | `str.split` on one character: at least one piece; a second piece exactly when the separator occurs; the first piece is the text before the first separator and the second the text up to the next one; no piece contains the separator; joining the pieces gives back the input |
| `Strings.SplitUnique` | lambda_pre_process.py:29 | any cut into separator-free pieces that join back to a string is the one `Split` gives |
| `Strings.ReplaceAll` | lambda_pre_process.py:44 | `str.replace` with a non-empty pattern, scanning left to right; it has no contract of its own: `ReplaceAllUnchanged` and `ReplaceAllAtFirstOccurrence` together determine it, and `ReplaceAllLeavesNone` says no occurrence survives |
| `Strings.ReplaceAllUnchanged` | lambda_pre_process.py:44 | `str.replace` with a non-empty pattern leaves a string that has no occurrence of the pattern unchanged |
| `Strings.ReplaceAllAtFirstOccurrence` | lambda_pre_process.py:44 | when the leftmost occurrence of the pattern is at position `i`, the result is the text before `i`, then the replacement, then the result of replacing in the text after that occurrence |
| `Strings.ReplaceAllLeavesNone` | lambda_pre_process.py:44 | for any input, the result contains no occurrence of the pattern, provided the replacement is at least as long as the pattern, lacks its first character and cannot continue any proper suffix of it |
| `Strings.ReplaceAllCopiesClean` | lambda_pre_process.py:44 | a prefix without the pattern's first character is copied unchanged, and the scan goes on after it |
| `Strings.ReplaceAllTwoOccurrences` | lambda_pre_process.py:44 | when the pattern occurs at the start and once more after a stretch that does not contain its first character, both occurrences are replaced and nothing else changes |
| `Keys.IsUploadKey` | lambda_pre_process.py:32-33 | a key that passes the `uploads/` guard contains a `/` |
| `Keys.RawKey` | src/app.py:22-28 | every key the intake builds passes the worker's guard; after `uploads/` comes exactly `name_filename` |
| `Keys.OwnerName` | lambda_pre_process.py:29 | it fails (index out of range) exactly when the key has no `/`; otherwise the owner is the second `/`-segment up to its first `_` (the whole segment when it has none), and contains neither `/` nor `_` |
| `Keys.ProcessedKey` | lambda_pre_process.py:44 | a key without `uploads/` is unchanged; an upload key becomes a different key starting with `processed/`; with no further `uploads/` it becomes `processed/` plus the same suffix |
| `Keys.OwnerOfRawKey` | lambda_pre_process.py:29 | for an intake key whose name has no `/`, the owner the worker reads is that name up to its first `_`, whatever the file name |
| `Keys.OwnerRoundTrip` | src/app.py:22-28 | the worker recovers exactly the submitted name from the intake's key if and only if the name contains neither `_` nor `/` |
| `Keys.ProcessedKeyOfRawKey` | lambda_pre_process.py:44 | the processed key of `uploads/name_filename` is `processed/name_filename` when `uploads/` does not occur again in `name_filename` |
| `Keys.ProcessedKeyLeavesNoUploadPrefix` | lambda_pre_process.py:44 | for every key, the processed key contains no `uploads/`: every occurrence is rewritten and `processed/` never forms a new one |
| `Keys.ProcessedKeyRewritesEveryOccurrence` | lambda_pre_process.py:44 | an example with exactly two occurrences: for `uploads/<owner>uploads/<rest>`, where the owner part has no `u` and `rest` has no `uploads/`, the processed key has `processed/` in both places |
| `Keys.ProcessedKeyInjective` | lambda_pre_process.py:44 | two upload keys with no second `uploads/` and the same processed key are the same key, so each such processed object has one triggering raw object |
| `Keys.IntakeKeysCollide` | lambda_pre_process.py:44 | for a name and a file part `f` without `u`, the intake keys for file names `uploads/<f>` and `processed/<f>` differ but have the same processed key |
| `Keys.PublicUrl` | lambda_pre_process.py:56 | the URL `https://<bucket>.s3.amazonaws.com/<key>`; it has no contract of its own, and `PublicUrlIdentifiesObject` states what it guarantees |
| `Keys.PublicUrlIdentifiesObject` | lambda_pre_process.py:56 | `https://<bucket>.s3.amazonaws.com/<key>` determines both the bucket (for bucket names without `/`) and the key |
| `Storage.ObjectStore.GetObject` | lambda_pre_process.py:37-38 | the download yields `Fetched` of the current contents, the same function the worker's step predicate uses: it raises the service's message on a fault and `NoSuchKey` for an absent key; otherwise it returns the stored body |
| `Storage.ObjectStore.PutObject` | lambda_pre_process.py:47-53 | a write with no fault changes exactly one location, to the given object; on a fault nothing changes and the message is raised |
| `Storage.RecordTable.PutItem` | lambda_pre_process.py:60-65 | a successful insert appends exactly the item; on a fault the table is unchanged |
| `Worker.LambdaHandler` | lambda_pre_process.py:23-77 | a key with no `/` raises `IndexError` before the guard; a key with `/` outside `uploads/` returns nothing; in both cases the store and the table are unchanged. For an upload key the run does what `Worker.RunSteps` states, with the owner read from the key |
| `Worker.RunSteps` | lambda_pre_process.py:35-77 | fetch, resize to 1280×720, processed write and record insert run in that order; the first that raises ends the run with 500 and `Error processing image: <message>`, with exactly the writes made before it; on success the processed key holds the resized JPEG, public-read, the table gains `{owner, URL}` and the status is 200 |
| `Worker.RecordOnlyAfterPublish` | lambda_pre_process.py:47-65 | whenever the table changed, the run answered 200 and the processed key holds a public-read JPEG |
| `Worker.SuccessWritesOneOfEach` | lambda_pre_process.py:37-70 | status 200 if and only if the fetch, the resize and both writes succeed; then the store gains exactly the processed key and the table exactly one record `{owner, URL}` |
| `Worker.OnlyProcessedKeyChanges` | lambda_pre_process.py:44-53 | every location other than the processed key keeps its presence and contents, the raw key is not the processed key, and at most one record is added |
| `Intake.Upload` | src/app.py:18-36 | a missing `name` or `image` field ends the request with nothing stored; otherwise one write of the file's bytes under `uploads/<name>_<filename>` with the file's content type; success is reported when the write does not raise, otherwise failure with the raised message and no write |
| `Pipeline.UploadThenDerive` | lambda_pre_process.py:29-65 | upload then worker, with no faults, for a name without `/` and an object name `<name>_<filename>` in which `uploads/` does not occur: the store holds exactly the raw object and `processed/<name>_<filename>`; the table holds one record naming the owner (the name up to its first `_`, the whole name exactly when it has no `_`) and linking the processed copy |
| `Pipeline.AliceUploadsBeach` | lambda_pre_process.py:44-65 | owner `alice` uploading `beach.png` creates `uploads/alice_beach.png` and `processed/alice_beach.png` objects and the single record `{alice, https://<bucket>.s3.amazonaws.com/processed/alice_beach.png}` |

## Left out

- Image work: decoding, `thumbnail` to 1280×720 and JPEG encoding (lambda_pre_process.py:14-21) are a foreign library. `Worker.Resizer` is a parameter that returns the JPEG bytes or an error message. The model passes it the bounding box 1280×720 and says nothing about pixels or dimensions.
- Percent-decoding of the event key (`unquote_plus`, lambda_pre_process.py:26): the worker takes the decoded key as input. The pipeline assumes the event carries the key the intake wrote.
- Reading the bucket and key out of the event dictionary (lambda_pre_process.py:25-26): delivery plumbing; the worker takes them as arguments.
- Service behaviour: when S3 or DynamoDB raises, and with which message, is an input (`Worker.Faults`, the `fault` arguments). The message text of a missing object is abbreviated to `NoSuchKey`.
- Flask routing, the form page at `/`, templates and `app.run` (src/app.py:1-15, 38-39): web plumbing. The rendered result page is modelled as its `success` and `error` values.
- Bucket, region, credentials and table name (src/app.py:7-11, lambda_pre_process.py:12): configuration. The intake's bucket is a parameter.
- JSON encoding of the worker's response body and the `print` logging: output formatting only. The body is the string before `json.dumps`.
- Concurrency, ordering and redelivery of storage events: external to the program. Each run is modelled on its own.
- `Storage.RecordTable.PutItem`: modelled as an append. The table's primary key is part of its configuration, not of the code, so the model does not capture that `put_item` replaces an existing item with an equal key: a repeated run on the same raw key, or (with `name` as the key) a second upload by the same owner, leaves one record where the model shows two.
- `Strings.ReplaceAll`: covers only a non-empty pattern. Python's behaviour for an empty pattern (inserting between characters) is not modelled, because the only call uses `uploads/`.
- `Intake.Upload`: a multipart upload that fails is modelled as storing nothing; there are no partial objects.
- `Storage.ObjectStore.PutObject` and `Storage.RecordTable.PutItem`: a call that raises is modelled as having had no effect. A write that the service stored but whose response was lost cannot be expressed, so the worker's "nothing written on a failed write" paths hold only under this assumption.
