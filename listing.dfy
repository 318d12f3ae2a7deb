/**
 * The listing logic of BunnyCDNClient as pure functions: the request that
 * listFiles sends, and the depth-first walk of listRecursively that
 * flattens a remote directory tree into the files that pass a filter.
 */
module Listing {
  import opened Wrappers
  import opened JavaStrings
  import opened StorageObjects
  import opened Filter
  import opened Http

  /** A listing call: the entries, or the exception that ended it. */
  type Listed = Result<seq<StorageObject>, ClientError>

  /** listFiles appends "/" to a non-empty path that lacks one. */
  function NormalizeDirPath(path: string): (r: string)
    ensures r == path <==> (path == "" || EndsWith(path, "/"))
    ensures r != path ==> r == path + "/"
    ensures r == "" <==> path == ""
    ensures r != "" ==> EndsWith(r, "/")
  {
    if !EndsWith(path, "/") && path != "" then path + "/" else path
  }

  lemma NormalizeDirPathIdempotent(path: string)
    ensures NormalizeDirPath(NormalizeDirPath(path)) == NormalizeDirPath(path)
  {
  }

  /** The URI that listFiles requests. */
  function ListUri(baseUri: string, path: string): (r: string)
    ensures StartsWith(r, baseUri)
    ensures path != "" ==> EndsWith(r, "/")
    ensures path == "" ==> r == baseUri
  {
    baseUri + NormalizeDirPath(path)
  }

  /** listFiles: the parsed listing when the server answers 200, an IOException otherwise. */
  function ListPage(server: Server, baseUri: string, path: string): (r: Listed)
    ensures r.Success? <==> server(Request(Get, baseUri + NormalizeDirPath(path))).status == 200
    ensures r.Success? ==> r.value == server(Request(Get, baseUri + NormalizeDirPath(path))).listing
    ensures r.Failure? ==>
              r.error == UnexpectedStatus(ListOp, server(Request(Get, baseUri + NormalizeDirPath(path))).status)
  {
    var response := server(Request(Get, ListUri(baseUri, path)));
    match CheckStatus(ListOp, response.status)
    case Success(_) => Success(response.listing)
    case Failure(e) => Failure(e)
  }

  /**
   * The path listRecursively descends into for a directory entry: `path` with
   * EVERY occurrence of "/" + zone removed, then the object name. A null
   * `path` throws; a null zone or name is concatenated as "null".
   */
  function SubDirectoryPath(item: StorageObject): (r: Result<string, ClientError>)
    ensures r.Failure? <==> item.path.None?
    ensures r.Failure? ==> r.error == NullReference
    ensures r.Success? ==> EndsWith(r.value, JavaText(item.objectName))
  {
    match item.path
    case None => Failure(NullReference)
    case Some(p) => Success(Replace(p, "/" + JavaText(item.storageZoneName), "") + JavaText(item.objectName))
  }

  /** From a Bunny-style path "/<zone>/dir/", the derived path starts with "/" and equals "/" + getFullPath. */
  lemma SubDirectoryPathOfZonePath(zone: string, dir: string, name: string, length: int)
    requires !Occurs("/" + dir, "/" + zone)
    ensures SubDirectoryPath(StorageObject(Some("/" + zone + "/" + dir), Some(zone), Some(name), true, length))
            == Success("/" + FullPath(StorageObject(Some("/" + zone + "/" + dir), Some(zone), Some(name), true, length)))
  {
    var path := "/" + zone + "/" + dir;
    RemoveLeadingZone(zone, dir);
    var prefix := ZonePrefix(zone);
    assert path == prefix + dir;
    assert path[..|prefix|] == prefix;
    assert path[|prefix|..] == dir;
    var o := StorageObject(Some(path), Some(zone), Some(name), true, length);
    assert FullPath(o) == dir + name;
    assert "/" + JavaText(Some(zone)) == "/" + zone;
    assert SubDirectoryPath(o) == Success("/" + dir + name);
    assert "/" + dir + name == "/" + (dir + name);
  }

  /** Removing "/<zone>" from "/<zone>/dir", where "/dir" holds no further "/<zone>", leaves "/dir". */
  lemma RemoveLeadingZone(zone: string, dir: string)
    requires !Occurs("/" + dir, "/" + zone)
    ensures Replace("/" + zone + "/" + dir, "/" + zone, "") == "/" + dir
  {
    var target := "/" + zone;
    assert "/" + zone + "/" + dir == target + ("/" + dir);
    ReplaceLeading(target, "/" + dir, "");
    ReplaceWithoutOccurrence("/" + dir, target, "");
  }

  /** ... so the next request repeats the slash that ends the base URI. */
  lemma SubDirectoryRequestHasDoubleSlash(baseUri: string, zone: string, dir: string, name: string, length: int)
    requires EndsWith(baseUri, "/")
    requires !Occurs("/" + dir, "/" + zone)
    ensures StartsWith(ListUri(baseUri, SubDirectoryPath(
              StorageObject(Some("/" + zone + "/" + dir), Some(zone), Some(name), true, length)).value), baseUri + "/")
  {
    var o := StorageObject(Some("/" + zone + "/" + dir), Some(zone), Some(name), true, length);
    SubDirectoryPathOfZonePath(zone, dir, name, length);
    var sub := SubDirectoryPath(o).value;
    assert sub == "/" + FullPath(o);
    assert sub[0] == '/';
    var normalized := NormalizeDirPath(sub);
    assert normalized == sub || normalized == sub + "/";
    assert normalized[0] == '/';
    var uri := ListUri(baseUri, sub);
    assert uri == baseUri + normalized;
    assert uri[..|baseUri| + 1] == baseUri + [normalized[0]];
  }

  /** getFullPath strips only a leading "/<zone>/"; the walk removes every "/<zone>". */
  lemma FullPathAndSubDirectoryPathDiffer()
    ensures FullPath(StorageObject(Some("/z/a/z/"), Some("z"), Some("b"), true, 0)) == "a/z/b"
    ensures SubDirectoryPath(StorageObject(Some("/z/a/z/"), Some("z"), Some("b"), true, 0)) == Success("/a/b")
  {
    assert "/z/a/z/"[..3] == "/z/";
    assert "/z/a/z/"[3..] == "a/z/";
    assert "/" + JavaText(Some("z")) == "/z";
    RemoveZoneExample();
    assert "/a/" + JavaText(Some("b")) == "/a/b";
  }

  lemma RemoveZoneExample()
    ensures Replace("/z/a/z/", "/z", "") == "/a/"
  {
    var t := "/z";
    assert !OccursAt("/", t, 0);
    ReplaceWithoutOccurrence("/", t, "");
    assert "/z/" == t + "/";
    ReplaceLeading(t, "/", "");
    assert "a/z/" == ['a'] + "/z/";
    assert "a/z/"[..2][0] != t[0];
    ReplaceSkips('a', "/z/", t, "");
    assert "/a/z/" == ['/'] + "a/z/";
    assert "/a/z/"[..2][1] != t[1];
    ReplaceSkips('/', "a/z/", t, "");
    assert "/z/a/z/" == t + "/a/z/";
    ReplaceLeading(t, "/a/z/", "");
  }

  /**
   * In a zone "x", a directory "x" inside a directory "x" lists with the path
   * "/x/x/"; removing every "/x" leaves "/", so the walk's next path is "/x",
   * which it requests as ".../x//x/".
   */
  lemma RepeatedZoneNameCollapses()
    ensures SubDirectoryPath(StorageObject(Some("/x/x/"), Some("x"), Some("x"), true, 0)) == Success("/x")
  {
    var t := "/x";
    assert "/" + JavaText(Some("x")) == t;
    assert !OccursAt("/", t, 0);
    ReplaceWithoutOccurrence("/", t, "");
    assert "/x/" == t + "/";
    ReplaceLeading(t, "/", "");
    assert "/x/x/" == t + "/x/";
    ReplaceLeading(t, "/x/", "");
    assert Replace("/x/x/", t, "") == "/";
    assert "/" + JavaText(Some("x")) == "/x";
  }

  /** Removing every "/img" from "/img/imgs/" leaves "s/". */
  lemma RemoveZoneFromPrefixedDirectory()
    ensures Replace("/img/imgs/", "/img", "") == "s/"
  {
    var t := "/img";
    assert !OccursAt("s/", t, 0);
    ReplaceWithoutOccurrence("s/", t, "");
    assert "/imgs/" == t + "s/";
    ReplaceLeading(t, "s/", "");
    assert "/img/imgs/" == t + "/imgs/";
    ReplaceLeading(t, "/imgs/", "");
  }

  /**
   * In a zone "img", a directory "a" inside the top-level directory "imgs"
   * lists with the path "/img/imgs/". getFullPath gives "imgs/a", but
   * removing every "/img" takes the start of "/imgs" as well, so the walk's
   * next path is "s/a", a directory that was never listed.
   */
  lemma ZoneNamePrefixOfDirectory()
    ensures FullPath(StorageObject(Some("/img/imgs/"), Some("img"), Some("a"), true, 0)) == "imgs/a"
    ensures SubDirectoryPath(StorageObject(Some("/img/imgs/"), Some("img"), Some("a"), true, 0)) == Success("s/a")
  {
    var o := StorageObject(Some("/img/imgs/"), Some("img"), Some("a"), true, 0);
    var prefix := ZonePrefix("img");
    assert prefix == "/img/";
    assert StartsWith("/img/imgs/", prefix);
    assert "/img/imgs/"[|prefix|..] == "imgs/";
    assert FullPath(o) == "imgs/" + "a";
    assert "imgs/" + "a" == "imgs/a";
    assert "/" + JavaText(o.storageZoneName) == "/img";
    RemoveZoneFromPrefixedDirectory();
    assert SubDirectoryPath(o) == Success("s/" + "a");
    assert "s/" + "a" == "s/a";
  }
}
