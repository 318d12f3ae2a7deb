/**
 * BunnyCDNClient.StorageObject: one entry of a directory listing, keeping the
 * fields the client's logic reads. Its String fields may be null.
 */
module StorageObjects {
  import opened Wrappers
  import opened JavaStrings

  datatype StorageObject = StorageObject(
    path: Option<string>,             // the directory holding the object, e.g. "/my-zone/folder/"
    storageZoneName: Option<string>,
    objectName: Option<string>,
    isDirectory: bool,
    length: int)

  /** What Java's `+` appends for a String operand: its text, or "null". */
  function JavaText(s: Option<string>): (r: string)
    ensures s.Some? ==> r == s.value
    ensures s.None? ==> r == "null"
  {
    match s
    case Some(v) => v
    case None => "null"
  }

  /** The prefix that getFullPath strips from `path`. */
  function ZonePrefix(zone: string): string {
    "/" + zone + "/"
  }

  /**
   * StorageObject.getFullPath: the object's path within its zone, that is
   * `path` without a leading "/<zone>/", followed by `objectName`; "" when
   * one of the three fields is null.
   */
  function FullPath(o: StorageObject): (r: string)
    ensures o.path.Some? && o.storageZoneName.Some? && o.objectName.Some? ==>
              EndsWith(r, o.objectName.value) && |r| <= |o.path.value| + |o.objectName.value|
  {
    if o.path.None? || o.storageZoneName.None? || o.objectName.None? then ""
    else
      var prefix := ZonePrefix(o.storageZoneName.value);
      var relativePath := if StartsWith(o.path.value, prefix) then o.path.value[|prefix|..] else o.path.value;
      relativePath + o.objectName.value
  }

  lemma FullPathOfIncompleteObject(o: StorageObject)
    requires o.path.None? || o.storageZoneName.None? || o.objectName.None?
    ensures FullPath(o) == ""
  {
  }

  /** With the zone prefix present, prefix and full path give back path and name. */
  lemma FullPathStripsZonePrefix(path: string, zone: string, name: string, isDirectory: bool, length: int)
    requires StartsWith(path, ZonePrefix(zone))
    ensures ZonePrefix(zone) + FullPath(StorageObject(Some(path), Some(zone), Some(name), isDirectory, length)) == path + name
  {
    var prefix := ZonePrefix(zone);
    assert prefix + path[|prefix|..] == path;
  }

  /** Without the zone prefix, the full path is path followed by name. */
  lemma FullPathKeepsOtherPaths(path: string, zone: string, name: string, isDirectory: bool, length: int)
    requires !StartsWith(path, ZonePrefix(zone))
    ensures FullPath(StorageObject(Some(path), Some(zone), Some(name), isDirectory, length)) == path + name
  {
  }

  /** The example of the documentation comment: '/my-zone/folder/' and 'file.txt'. */
  lemma FullPathExample()
    ensures FullPath(StorageObject(Some("/my-zone/folder/"), Some("my-zone"), Some("file.txt"), false, 0))
            == "folder/file.txt"
  {
    assert ZonePrefix("my-zone") == "/my-zone/";
    assert "/my-zone/folder/"[..9] == "/my-zone/";
    assert "/my-zone/folder/"[9..] == "folder/";
  }
}
