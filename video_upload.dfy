/** The lesson video widget (VideoUpload.tsx). A selected file is
    checked for a video MIME type, stored under `folder/timestamp.ext`,
    and its public URL becomes the preview and is reported to the page;
    the upload itself is the result handed to `FinishUpload`. */
module VideoUpload {
  import opened Common
  import opened Text
  import opened Storage

  const NotAVideo := Notice("Error", "Please select a video file", true)
  const VideoUploaded := Notice("Success", "Video uploaded successfully", false)
  const VideoUploadFailed := Notice("Error", "Failed to upload video", true)

  class VideoUpload {
    const bucket: string
    const folder: string

    var uploading: bool
    /** The URL shown; "" shows the upload prompt. */
    var preview: string
    /** The URLs passed to `onVideoUploaded`, in order. */
    var reported: seq<string>
    var notices: seq<Notice>

    /** `preview` starts as `currentVideo || ''`. */
    constructor (bucket: string, folder: string, currentVideo: Option<string>)
      ensures this.bucket == bucket && this.folder == folder
      ensures !uploading && preview == currentVideo.GetOr("") && reported == [] && notices == []
    {
      this.bucket := bucket;
      this.folder := folder;
      uploading := false;
      preview := currentVideo.GetOr("");
      reported := [];
      notices := [];
    }

    /** `handleFileUpload` up to the upload call. Without a file nothing
        happens; a file that is not a video is refused with an error
        notice and no upload; otherwise `uploading` is set and the object
        to upload to, in the widget's bucket, is returned. */
    method BeginUpload(file: Option<FileInfo>, now: nat) returns (target: Option<ObjectRef>)
      modifies this`uploading, this`notices
      ensures file.None? ==> target == None && uploading == old(uploading) && notices == old(notices)
      ensures file.Some? && !Accepts(file.value, "video/") ==>
        target == None && uploading == old(uploading) && notices == old(notices) + [NotAVideo]
      ensures file.Some? && Accepts(file.value, "video/") ==>
        && target == Some(ObjectRef(bucket, ObjectPath(folder, now, FileExtension(file.value))))
        && LastSegment(target.value.path, '.') == FileExtension(file.value)
        && uploading && notices == old(notices)
    {
      target := None;
      if file.None? {
        return;
      }
      if !Accepts(file.value, "video/") {
        notices := notices + [NotAVideo];
        return;
      }
      uploading := true;
      PathKeepsExtension(folder, now, file.value);
      target := Some(ObjectRef(bucket, ObjectPath(folder, now, FileExtension(file.value))));
    }

    /** The rest of `handleFileUpload`, once the upload has answered: on
        success the public URL becomes the preview and is reported; on
        failure the preview stays. `uploading` is cleared either way. The
        reply only comes to an upload `BeginUpload` started, so `uploading`
        is set. */
    method FinishUpload(result: UploadResult)
      requires uploading
      modifies this`uploading, this`preview, this`reported, this`notices
      ensures !uploading
      ensures result.Uploaded? ==>
        && preview == result.publicUrl && reported == old(reported) + [result.publicUrl]
        && notices == old(notices) + [VideoUploaded]
      ensures result.UploadFailed? ==>
        preview == old(preview) && reported == old(reported) && notices == old(notices) + [VideoUploadFailed]
    {
      if result.Uploaded? {
        preview := result.publicUrl;
        reported := reported + [result.publicUrl];
        notices := notices + [VideoUploaded];
      } else {
        notices := notices + [VideoUploadFailed];
      }
      uploading := false;
    }

    /** `removeVideo()`: the preview is cleared and "" is reported. */
    method RemoveVideo()
      modifies this`preview, this`reported
      ensures preview == "" && reported == old(reported) + [""]
    {
      preview := "";
      reported := reported + [""];
    }
  }
}
