/** The parts of the two upload widgets (ImageUpload.tsx, VideoUpload.tsx)
    that do not touch component state: the selected file, the MIME-type
    guard, the extension taken from the file name and the object path built
    from the folder, the time stamp and that extension. */
module Storage {
  import opened Text

  /** The selected file: its `name` and its MIME `type`. */
  datatype FileInfo = FileInfo(name: string, mimeType: string)

  /** The object an upload writes: `storage.from(bucket)` and the path in it. */
  datatype ObjectRef = ObjectRef(bucket: string, path: string)

  /** What the storage upload and the public-URL lookup produce. */
  datatype UploadResult = Uploaded(publicUrl: string) | UploadFailed

  /** `file.type.startsWith(prefix)`. */
  predicate Accepts(file: FileInfo, prefix: string) {
    StartsWith(file.mimeType, prefix)
  }

  /** `file.name.split('.').pop()`: the text after the last '.', or the
      whole name when it has none. */
  function FileExtension(file: FileInfo): (r: string)
    ensures '.' !in r
    ensures '.' !in file.name ==> r == file.name
    ensures '.' in file.name ==> |r| < |file.name|
    ensures |r| < |file.name| ==> file.name == file.name[..|file.name| - |r| - 1] + "." + r
  {
    var r := LastSegment(file.name, '.');
    if '.' in file.name then
      assert |r| < |file.name| ==> file.name == file.name[..|file.name| - |r| - 1] + "." + r;
      r
    else
      LastSegmentWithoutSeparator(file.name, '.');
      r
  }

  /** `${folder}/${Date.now()}.${fileExt}`, the time stamp in milliseconds. */
  function ObjectPath(folder: string, now: nat, ext: string): string {
    folder + "/" + NatToString(now) + "." + ext
  }

  /** The stored object keeps the file's extension. */
  lemma PathKeepsExtension(folder: string, now: nat, file: FileInfo)
    ensures LastSegment(ObjectPath(folder, now, FileExtension(file)), '.') == FileExtension(file)
  {
    var ext := FileExtension(file);
    assert ObjectPath(folder, now, ext) == (folder + "/" + NatToString(now)) + ['.'] + ext;
    LastSegmentOfJoin(folder + "/" + NatToString(now), '.', ext);
  }

  /** Within one folder, the path determines the time stamp and the
      extension: uploads at different milliseconds never share a path. */
  lemma PathDeterminesStampAndExtension(folder: string, t1: nat, e1: string, t2: nat, e2: string)
    requires ObjectPath(folder, t1, e1) == ObjectPath(folder, t2, e2)
    ensures t1 == t2 && e1 == e2
  {
    var prefix := folder + "/";
    var d1, d2 := NatToString(t1), NatToString(t2);
    assert ObjectPath(folder, t1, e1) == prefix + (d1 + ['.'] + e1);
    assert ObjectPath(folder, t2, e2) == prefix + (d2 + ['.'] + e2);
    assert d1 + ['.'] + e1 == (prefix + (d1 + ['.'] + e1))[|prefix|..];
    assert d2 + ['.'] + e2 == (prefix + (d2 + ['.'] + e2))[|prefix|..];
    assert forall i :: 0 <= i < |d1| ==> d1[i] != '.';
    assert forall i :: 0 <= i < |d2| ==> d2[i] != '.';
    SplitAtSeparator(d1, e1, d2, e2, '.');
    NatToStringInjective(t1, t2);
  }
}
