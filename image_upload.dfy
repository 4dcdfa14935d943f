/** The image picker of the storefront's client
    (frontend/src/components/ImageUpload.jsx): the checks on a chosen file,
    the upload and its failure path, and removing the image. The upload
    service's answer is passed in; `notifiesParent` says whether the parent
    gave an `onImageUpload` callback, and `reported` lists what it was
    told. */
module ImageUpload {
  import opened Common

  /** A chosen file: its MIME type and its size in bytes. */
  datatype SelectedFile = SelectedFile(mimeType: string, size: int)

  /** The largest accepted file: 5 MiB. */
  const MAX_FILE_BYTES := 5 * 1024 * 1024

  const TYPE_ERROR := "Please select an image file"
  const SIZE_ERROR := "File size must be less than 5MB"
  const UPLOAD_ERROR := "Failed to upload image"

  /** The verdict of `handleFileSelect`'s early returns. */
  datatype FileCheck = NoFile | Rejected(message: string) | Accepted

  predicate IsImage(file: SelectedFile)
  {
    "image/" <= file.mimeType
  }

  /** No file, no verdict; a file is accepted exactly when its type starts
      with "image/" and it has at most 5 MiB. The type is checked first, so
      a file that fails both checks reports the type. */
  function CheckFile(file: Option<SelectedFile>): (r: FileCheck)
    ensures r.NoFile? <==> file.None?
    ensures r.Accepted? <==> file.Some? && IsImage(file.value) && file.value.size <= MAX_FILE_BYTES
    ensures file.Some? && !IsImage(file.value) ==> r == Rejected(TYPE_ERROR)
    ensures file.Some? && IsImage(file.value) && file.value.size > MAX_FILE_BYTES ==> r == Rejected(SIZE_ERROR)
  {
    if file.None? then NoFile
    else if !IsImage(file.value) then Rejected(TYPE_ERROR)
    else if file.value.size > MAX_FILE_BYTES then Rejected(SIZE_ERROR)
    else Accepted
  }

  /** The size limit is inclusive: an image of exactly 5 MiB passes and one
      byte more fails. */
  lemma SizeLimitInclusive(mimeType: string)
    requires "image/" <= mimeType
    ensures CheckFile(Some(SelectedFile(mimeType, 5242880))) == Accepted
    ensures CheckFile(Some(SelectedFile(mimeType, 5242881))) == Rejected(SIZE_ERROR)
  {
  }

  datatype UploadOutcome = Uploaded(imageUrl: string) | UploadFailed(message: Option<string>)

  class ImageUploader {
    var uploading: bool
    var error: string
    var preview: string
    /** The files handed to the upload service, oldest first. */
    var sent: seq<SelectedFile>
    /** The URLs given to the parent's `onImageUpload`, oldest first. */
    var reported: seq<string>
    const notifiesParent: bool

    /** The preview starts as the current image, or empty. */
    constructor (currentImageUrl: string, notifiesParent: bool)
      ensures preview == currentImageUrl && error == "" && !uploading
      ensures sent == [] && reported == [] && this.notifiesParent == notifiesParent
    {
      uploading := false;
      error := "";
      preview := currentImageUrl;
      sent := [];
      reported := [];
      this.notifiesParent := notifiesParent;
    }

    /** `handleUpload`: on success the preview shows the uploaded image and
        the parent is told its URL; on failure the preview is cleared and
        the error recorded. Uploading ends either way. */
    method HandleUpload(file: SelectedFile, outcome: UploadOutcome)
      modifies this
      ensures sent == old(sent) + [file] && !uploading
      ensures outcome.Uploaded? ==>
                && preview == outcome.imageUrl && error == ""
                && reported == old(reported) + (if notifiesParent then [outcome.imageUrl] else [])
      ensures outcome.UploadFailed? ==>
                && preview == "" && error == Reported(outcome.message, UPLOAD_ERROR)
                && reported == old(reported)
    {
      uploading := true;
      error := "";
      sent := sent + [file];
      match outcome {
        case Uploaded(url) =>
          preview := url;
          if notifiesParent {
            reported := reported + [url];
          }
        case UploadFailed(message) =>
          error := Reported(message, UPLOAD_ERROR);
          preview := "";
      }
      uploading := false;
    }

    /** `handleFileSelect`: without a file nothing changes; a rejected file
        only records its error and is not uploaded; an accepted file clears
        the error and is uploaded, and the parent is told the new URL when
        the upload succeeds. */
    method HandleFileSelect(file: Option<SelectedFile>, outcome: UploadOutcome)
      modifies this
      ensures CheckFile(file).NoFile? ==> unchanged(this)
      ensures CheckFile(file).Rejected? ==>
                && error == CheckFile(file).message
                && sent == old(sent) && preview == old(preview)
                && reported == old(reported) && uploading == old(uploading)
      ensures CheckFile(file).Accepted? ==> sent == old(sent) + [file.value] && !uploading
      ensures CheckFile(file).Accepted? ==>
                reported == old(reported) + (if outcome.Uploaded? && notifiesParent then [outcome.imageUrl] else [])
      ensures CheckFile(file).Accepted? && outcome.Uploaded? ==>
                preview == outcome.imageUrl && error == ""
      ensures CheckFile(file).Accepted? && outcome.UploadFailed? ==>
                preview == "" && error == Reported(outcome.message, UPLOAD_ERROR)
    {
      var check := CheckFile(file);
      match check {
        case NoFile =>
          return;
        case Rejected(message) =>
          error := message;
          return;
        case Accepted =>
          error := "";
          HandleUpload(file.value, outcome);
      }
    }

    /** `handleRemoveImage`: clears the preview and tells the parent the
        image is now the empty URL. */
    method HandleRemoveImage()
      modifies this
      ensures preview == "" && reported == old(reported) + (if notifiesParent then [""] else [])
      ensures error == old(error) && uploading == old(uploading) && sent == old(sent)
    {
      preview := "";
      if notifiesParent {
        reported := reported + [""];
      }
    }
  }
}
