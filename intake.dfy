/**
 * The intake service (`POST /upload`): it reads the form's owner name and image file and
 * stores the file under the raw key with the file's content type, in one write.
 */
module Intake {
  import opened Results
  import opened Keys
  import opened Storage

  /** An uploaded file part: its client-side file name, its content type and its bytes. */
  datatype FileUpload = FileUpload(filename: string, contentType: string, data: seq<Byte>)

  /** The submitted form: text fields and file parts by field name. */
  datatype UploadForm = UploadForm(fields: map<string, string>, files: map<string, FileUpload>)

  /** What the request produces. */
  datatype UploadPage =
    | ResultPage(success: bool, error: Option<string>)  // the rendered result page
    | BadRequest(missingField: string)                  // a missing form field aborts the request (400)

  const NameField: string := "name"
  const ImageField: string := "image"

  /**
   * Handles one upload. Missing fields end the request before anything is stored. Otherwise
   * the file goes to `RawKey(name, filename)` in `bucket` with the file's content type (and
   * no public-read grant); the page reports success, or failure with the raised message,
   * and on failure nothing is stored.
   */
  method Upload(s3: ObjectStore, bucket: string, form: UploadForm, fault: Option<string>)
    returns (page: UploadPage)
    modifies s3
    ensures NameField !in form.fields ==> page == BadRequest(NameField) && s3.objects == old(s3.objects)
    ensures NameField in form.fields && ImageField !in form.files ==>
              page == BadRequest(ImageField) && s3.objects == old(s3.objects)
    ensures NameField in form.fields && ImageField in form.files ==>
      var image := form.files[ImageField];
      var at := Location(bucket, RawKey(form.fields[NameField], image.filename));
      && (fault.None? ==>
            page == ResultPage(true, None)
            && s3.objects == old(s3.objects)[at := StoredObject(image.data, image.contentType, false)])
      && (fault.Some? ==>
            page == ResultPage(false, fault) && s3.objects == old(s3.objects))
  {
    if NameField !in form.fields {
      return BadRequest(NameField);
    }
    if ImageField !in form.files {
      return BadRequest(ImageField);
    }
    var name := form.fields[NameField];
    var image := form.files[ImageField];
    var raised := s3.PutObject(bucket, RawKey(name, image.filename),
                               StoredObject(image.data, image.contentType, false), fault);
    if raised.Some? {
      return ResultPage(false, raised);
    }
    return ResultPage(true, None);
  }
}
