/** The image-upload endpoint: its three guards and the reply after the object-store upload. */
module Upload {
  import opened Strings

  /** An uploaded file: its name, MIME type and size in bytes. */
  datatype File = File(name: string, mimeType: string, size: nat)

  /** What `formData.get('file')` returns: nothing, a text value, or a file. */
  datatype Field = Absent | Text(value: string) | Attached(file: File)

  datatype UploadReply =
    | NoFile                    // 400 "No file provided"
    | NotAnImage                // 400 "Only image files are allowed"
    | TooLarge                  // 400 "File size must be less than 5MB"
    | Uploaded(imageUrl: string) // 200, success with the stored URL
    | UploadFailed              // 500, the handler threw (a text field, or the store failed)

  const MAX_UPLOAD_BYTES: nat := 5 * 1024 * 1024

  function Status(reply: UploadReply): (code: int)
    ensures code == 200 <==> reply.Uploaded?
    ensures code == 500 <==> reply.UploadFailed?
  {
    match reply
    case Uploaded(_) => 200
    case UploadFailed => 500
    case _ => 400
  }

  /** POST with the `file` and `projectId` fields; `stored` is what the object store returns:
      the public URL, or `None` when the upload throws. A missing or empty field is "no file";
      a non-empty text field has no MIME type, so the type check throws and the catch-all
      500 answers. */
  function Post(file: Field, projectId: string, stored: Option<string>): (reply: UploadReply)
    ensures reply == NoFile <==> file.Absent? || file == Text("")
    ensures file.Text? && file.value != "" ==> reply == UploadFailed
    ensures reply == NotAnImage <==> file.Attached? && !StartsWith(file.file.mimeType, "image/")
    ensures reply == TooLarge <==>
              file.Attached? && StartsWith(file.file.mimeType, "image/") && file.file.size > MAX_UPLOAD_BYTES
    ensures reply.Uploaded? ==> file.Attached? && stored == Some(reply.imageUrl)
  {
    match file
    case Absent => NoFile
    case Text(v) => if v == "" then NoFile else UploadFailed
    case Attached(f) =>
      if !StartsWith(f.mimeType, "image/") then NotAnImage
      else if f.size > MAX_UPLOAD_BYTES then TooLarge
      else if stored.None? then UploadFailed
      else if projectId != "" then Uploaded(stored.value)
      else Uploaded(stored.value)
  }

  /** A file that passes every guard is uploaded, and a file of exactly 5 MiB passes the size
      guard. */
  lemma AcceptedIffGuardsPass(file: File, projectId: string, url: string)
    ensures Post(Attached(file), projectId, Some(url)) == Uploaded(url) <==>
              StartsWith(file.mimeType, "image/") && file.size <= MAX_UPLOAD_BYTES
    ensures StartsWith(file.mimeType, "image/") && file.size == 5242880 ==>
              Post(Attached(file), projectId, Some(url)).Uploaded?
  {
  }

  /** The first failing guard decides: a non-image is refused as such whatever its size. */
  lemma TypeCheckedBeforeSize(file: File, projectId: string, stored: Option<string>)
    requires !StartsWith(file.mimeType, "image/")
    ensures Post(Attached(file), projectId, stored) == NotAnImage
  {
  }

  /** The reply does not depend on whether a project id came with the file. */
  lemma ProjectIdIrrelevant(file: Field, p1: string, p2: string, stored: Option<string>)
    ensures Post(file, p1, stored) == Post(file, p2, stored)
  {
  }
}
