/** The course thumbnail widget (ImageUpload.tsx). A selected file is
    checked for an image MIME type, stored under `folder/timestamp.ext`,
    and its public URL becomes the preview and is reported to the page;
    the upload itself is the result handed to `FinishUpload`. */
module ImageUpload {
  import opened Common
  import opened Text
  import opened Storage

  const NotAnImage := Notice("Error", "Please select an image file", true)
  const ImageUploaded := Notice("Success", "Image uploaded successfully", false)
  const ImageUploadFailed := Notice("Error", "Failed to upload image", true)

  class ImageUpload {
    const bucket: string
    const folder: string

    var uploading: bool
    /** The URL shown; "" shows the upload prompt. */
    var preview: string
    /** The URLs passed to `onImageUploaded`, in order. */
    var reported: seq<string>
    var notices: seq<Notice>

    /** `preview` starts as `currentImage || ''`. */
    constructor (bucket: string, folder: string, currentImage: Option<string>)
      ensures this.bucket == bucket && this.folder == folder
      ensures !uploading && preview == currentImage.GetOr("") && reported == [] && notices == []
    {
      this.bucket := bucket;
      this.folder := folder;
      uploading := false;
      preview := currentImage.GetOr("");
      reported := [];
      notices := [];
    }

    /** `handleFileUpload` up to the upload call. Without a file nothing
        happens; a file that is not an image is refused with an error
        notice and no upload; otherwise `uploading` is set and the object
        to upload to, in the widget's bucket, is returned. */
    method BeginUpload(file: Option<FileInfo>, now: nat) returns (target: Option<ObjectRef>)
      modifies this`uploading, this`notices
      ensures file.None? ==> target == None && uploading == old(uploading) && notices == old(notices)
      ensures file.Some? && !Accepts(file.value, "image/") ==>
        target == None && uploading == old(uploading) && notices == old(notices) + [NotAnImage]
      ensures file.Some? && Accepts(file.value, "image/") ==>
        && target == Some(ObjectRef(bucket, ObjectPath(folder, now, FileExtension(file.value))))
        && LastSegment(target.value.path, '.') == FileExtension(file.value)
        && uploading && notices == old(notices)
    {
      target := None;
      if file.None? {
        return;
      }
      if !Accepts(file.value, "image/") {
        notices := notices + [NotAnImage];
        return;
      }
      uploading := true;
      PathKeepsExtension(folder, now, file.value);
      target := Some(ObjectRef(bucket, ObjectPath(folder, now, FileExtension(file.value))));
    }

    /** The rest of `handleFileUpload`, once the upload has answered: on
        success the public URL becomes the preview and is reported; on
        failure the preview stays. `uploading` is cleared either way. The
        reply only comes to an upload `BeginUpload` started, so `uploading`
        is set. */
    method FinishUpload(result: UploadResult)
      requires uploading
      modifies this`uploading, this`preview, this`reported, this`notices
      ensures !uploading
      ensures result.Uploaded? ==>
        && preview == result.publicUrl && reported == old(reported) + [result.publicUrl]
        && notices == old(notices) + [ImageUploaded]
      ensures result.UploadFailed? ==>
        preview == old(preview) && reported == old(reported) && notices == old(notices) + [ImageUploadFailed]
    {
      if result.Uploaded? {
        preview := result.publicUrl;
        reported := reported + [result.publicUrl];
        notices := notices + [ImageUploaded];
      } else {
        notices := notices + [ImageUploadFailed];
      }
      uploading := false;
    }

    /** `removeImage()`: the preview is cleared and "" is reported. */
    method RemoveImage()
      modifies this`preview, this`reported
      ensures preview == "" && reported == old(reported) + [""]
    {
      preview := "";
      reported := reported + [""];
    }
  }
}
