/**
 * BunnyCDNClient itself: argument validation and the base URI built by its
 * constructors, and the request methods, each proved against the pure
 * definitions of Listing. The network is the `server` parameter.
 */
module Client {
  import opened Wrappers
  import opened JavaStrings
  import opened StorageObjects
  import opened Filter
  import opened Http
  import opened Listing
  import opened RecursiveListing

  /** BunnyCDNClient.StorageRegion and the host name of each region. */
  datatype StorageRegion = Falkenstein | NewYork | LosAngeles | Singapore | Sydney {
    function Uri(): (r: string)
      ensures EndsWith(r, StorageHost)
      ensures r == StorageHost <==> this == Falkenstein
    {
      match this
      case Falkenstein => StorageHost
      case NewYork => "ny." + StorageHost
      case LosAngeles => "la." + StorageHost
      case Singapore => "sg." + StorageHost
      case Sydney => "syd." + StorageHost
    }
  }

  /** The host of FALKENSTEIN, which every other region's host extends. */
  const StorageHost := "storage.bunnycdn.com"

  /** The base URI of a client for `zone` in `region` (null: Falkenstein). */
  function BaseUri(zone: string, region: Option<StorageRegion>): (r: string)
    ensures StartsWith(r, "https://")
    ensures EndsWith(r, "/" + zone + "/")
  {
    var host := match region
      case None => StorageHost
      case Some(g) => g.Uri();
    var r := "https://" + host + "/" + zone + "/";
    assert r == "https://" + (host + "/" + zone + "/");
    assert r == ("https://" + host) + ("/" + zone + "/");
    r
  }

  /** A null region and FALKENSTEIN give the same base URI. */
  lemma FalkensteinIsDefault(zone: string)
    ensures BaseUri(zone, Some(Falkenstein)) == BaseUri(zone, None)
  {
  }

  /** The base URI determines the region. */
  lemma BaseUriDeterminesRegion(zone: string, a: StorageRegion, b: StorageRegion)
    requires BaseUri(zone, Some(a)) == BaseUri(zone, Some(b))
    ensures a == b
  {
    var ua, ub := a.Uri(), b.Uri();
    var tail := "/" + zone + "/";
    assert BaseUri(zone, Some(a)) == "https://" + ua + tail;
    assert BaseUri(zone, Some(b)) == "https://" + ub + tail;
    assert |ua| == |ub|;
    assert ua == BaseUri(zone, Some(a))[8..8 + |ua|];
    assert ub == BaseUri(zone, Some(b))[8..8 + |ub|];
    if a != b {
      DistinctHosts(a, b);
    }
  }

  /** No two regions share a host name. */
  lemma DistinctHosts(a: StorageRegion, b: StorageRegion)
    requires a != b
    ensures a.Uri() != b.Uri()
  {
    var ua, ub := a.Uri(), b.Uri();
    if |ua| == |ub| {
      assert ua[0] != ub[0];
    }
  }

  /** The base URI determines the zone name. */
  lemma BaseUriDeterminesZone(a: string, b: string, region: Option<StorageRegion>)
    requires BaseUri(a, region) == BaseUri(b, region)
    ensures a == b
  {
    var host := match region
      case None => StorageHost
      case Some(g) => g.Uri();
    var head := "https://" + host + "/";
    assert BaseUri(a, region) == head + a + "/";
    assert BaseUri(b, region) == head + b + "/";
    assert a == BaseUri(a, region)[|head|..|head| + |a|];
    assert b == BaseUri(b, region)[|head|..|head| + |b|];
  }

  /** The listing oracle of a client at `baseUri`: listFiles against `server`. */
  function ListingOf(server: Server, baseUri: string): (r: Lister)
    ensures forall path :: r(path) == ListPage(server, baseUri, path)
  {
    path => ListPage(server, baseUri, path)
  }

  /**
   * A server that answers ".../x//x/" like ".../x/x/" lists the entry
   * "/x/x/" + "x" again under "/x": no ranking exists, and listRecursively
   * would descend into "/x" without end.
   */
  lemma RepeatedZoneNameWalkDoesNotEnd(server: Server, baseUri: string, rank: string -> nat, i: int)
    requires server(Request(Get, baseUri + "/x/")).status == 200
    requires 0 <= i < |server(Request(Get, baseUri + "/x/")).listing|
    requires server(Request(Get, baseUri + "/x/")).listing[i] == StorageObject(Some("/x/x/"), Some("x"), Some("x"), true, 0)
    ensures !WellFounded(ListingOf(server, baseUri), rank, SubDirectoryPath)
  {
    RepeatedZoneNameCollapses();
    assert NormalizeDirPath("/x") == "/x/";
    assert Children(ListingOf(server, baseUri), "/x") == server(Request(Get, baseUri + "/x/")).listing;
    SelfDescentIsNotWellFounded(ListingOf(server, baseUri), rank, SubDirectoryPath, "/x", i);
  }

  /** The IllegalArgumentException the constructor throws. */
  datatype ArgumentError = BlankStorageZoneName | BlankApiKey

  /** The constructor's checks, zone name first. */
  function CheckArguments(storageZoneName: Option<string>, apiKey: Option<string>): (r: Result<(), ArgumentError>)
    ensures r == Failure(BlankStorageZoneName) <==>
              storageZoneName.None? || AllTrimmable(storageZoneName.value)
    ensures r == Failure(BlankApiKey) <==>
              storageZoneName.Some? && !AllTrimmable(storageZoneName.value) &&
              (apiKey.None? || AllTrimmable(apiKey.value))
    ensures r.Success? <==>
              storageZoneName.Some? && !AllTrimmable(storageZoneName.value) &&
              apiKey.Some? && !AllTrimmable(apiKey.value)
  {
    match storageZoneName
    case None => Failure(BlankStorageZoneName)
    case Some(zone) =>
      BlankIffAllTrimmable(zone);
      if IsBlank(zone) then Failure(BlankStorageZoneName)
      else
        match apiKey
        case None => Failure(BlankApiKey)
        case Some(key) =>
          BlankIffAllTrimmable(key);
          if IsBlank(key) then Failure(BlankApiKey) else Success(())
  }

  /** Stated apart so that ListRecursively's loop invariant closes cheaply. */
  lemma AppendAssociative<T>(a: seq<T>, b: seq<T>, c: seq<T>)
    ensures a + b + c == a + (b + c)
  {
  }

  /**
   * What listRecursively does to `allFiles` for a part of the walk: it ends
   * with the exception of `walk`, if any, having appended whatever it had
   * reached, and otherwise it has appended exactly the files of `walk`.
   */
  predicate Appended(r: Result<(), ClientError>, walk: Listed, before: seq<StorageObject>, after: seq<StorageObject>) {
    (r.Success? <==> walk.Success?) &&
    (r.Failure? ==> r.error == walk.error) &&
    (r.Success? ==> after == before + walk.value) &&
    before <= after
  }

  /** The java.util.ArrayList that listRecursively appends to. */
  class FileList {
    var items: seq<StorageObject>

    constructor ()
      ensures items == []
    {
      items := [];
    }

    method Add(item: StorageObject)
      modifies this
      ensures items == old(items) + [item]
    {
      items := items + [item];
    }
  }

  class BunnyCdnClient {
    const apiKey: string
    const baseUri: string

    /** The field assignments of the constructor, once its checks have passed. */
    constructor (storageZoneName: string, apiKey: string, region: Option<StorageRegion>)
      requires !AllTrimmable(storageZoneName) && !AllTrimmable(apiKey)
      ensures this.apiKey == apiKey
      ensures baseUri == BaseUri(storageZoneName, region)
    {
      this.apiKey := apiKey;
      if region.None? {
        this.baseUri := "https://" + StorageHost + "/" + storageZoneName + "/";
      } else {
        this.baseUri := "https://" + region.value.Uri() + "/" + storageZoneName + "/";
      }
    }

    /** BunnyCDNClient(storageZoneName, apiKey, region): a client, or the exception it throws. */
    static method Create(storageZoneName: Option<string>, apiKey: Option<string>, region: Option<StorageRegion>)
      returns (r: Result<BunnyCdnClient, ArgumentError>)
      ensures r.Failure? <==> CheckArguments(storageZoneName, apiKey).Failure?
      ensures r.Failure? ==> r.error == CheckArguments(storageZoneName, apiKey).error
      ensures r.Success? ==> storageZoneName.Some? && apiKey.Some? &&
                             r.value.apiKey == apiKey.value &&
                             r.value.baseUri == BaseUri(storageZoneName.value, region)
    {
      if storageZoneName.None? || IsBlank(storageZoneName.value) {
        return Failure(BlankStorageZoneName);
      }
      if apiKey.None? || IsBlank(apiKey.value) {
        return Failure(BlankApiKey);
      }
      BlankIffAllTrimmable(storageZoneName.value);
      BlankIffAllTrimmable(apiKey.value);
      var client := new BunnyCdnClient(storageZoneName.value, apiKey.value, region);
      return Success(client);
    }

    /** BunnyCDNClient(storageZoneName, apiKey): the same with a null region. */
    static method CreateInDefaultRegion(storageZoneName: Option<string>, apiKey: Option<string>)
      returns (r: Result<BunnyCdnClient, ArgumentError>)
      ensures r.Failure? <==> CheckArguments(storageZoneName, apiKey).Failure?
      ensures r.Failure? ==> r.error == CheckArguments(storageZoneName, apiKey).error
      ensures r.Success? ==> storageZoneName.Some? && apiKey.Some? &&
                             r.value.apiKey == apiKey.value &&
                             r.value.baseUri == BaseUri(storageZoneName.value, None)
    {
      r := Create(storageZoneName, apiKey, None);
    }

    /** listFiles(path): one directory, not recursive. */
    method ListFiles(server: Server, path: string) returns (r: Result<seq<StorageObject>, ClientError>)
      ensures r.Success? <==> server(Request(Get, baseUri + NormalizeDirPath(path))).status == 200
      ensures r.Success? ==> r.value == server(Request(Get, baseUri + NormalizeDirPath(path))).listing
      ensures r.Failure? ==> r.error == UnexpectedStatus(ListOp, server(Request(Get, baseUri + NormalizeDirPath(path))).status)
      ensures r == ListPage(server, baseUri, path)
    {
      var dirPath := path;
      if !EndsWith(dirPath, "/") && dirPath != "" {
        dirPath := dirPath + "/";
      }
      var response := server(Request(Get, baseUri + dirPath));
      if response.status != 200 {
        return Failure(UnexpectedStatus(ListOp, response.status));
      }
      return Success(response.listing);
    }

    /** listFilesRecursive(path): every file under `path`. */
    method ListAllFilesRecursive(server: Server, path: Option<string>, ghost rank: string -> nat)
      returns (r: Result<seq<StorageObject>, ClientError>)
      requires WellFounded(ListingOf(server, baseUri), rank, SubDirectoryPath)
      ensures path.None? ==> r == Failure(NullReference)
      ensures path.Some? ==> r == Walk(ListingOf(server, baseUri), rank, SubDirectoryPath, path.value, None)
      ensures r.Success? ==> forall k :: 0 <= k < |r.value| ==> !r.value[k].isDirectory
    {
      r := ListFilesRecursive(server, path, None, rank);
      if r.Success? {
        forall k | 0 <= k < |r.value| ensures !r.value[k].isDirectory {
          assert Kept(r.value[k], None);
        }
      }
    }

    /**
     * listFilesRecursive(path, extensionFilter). A null path reaches
     * listFiles, whose first call on it throws.
     */
    method ListFilesRecursive(server: Server, path: Option<string>, extensionFilter: Option<string>,
                              ghost rank: string -> nat)
      returns (r: Result<seq<StorageObject>, ClientError>)
      requires WellFounded(ListingOf(server, baseUri), rank, SubDirectoryPath)
      ensures path.None? ==> r == Failure(NullReference)
      ensures path.Some? ==> r == Walk(ListingOf(server, baseUri), rank, SubDirectoryPath, path.value, extensionFilter)
      ensures r.Success? ==> AllKept(r.value, extensionFilter)
    {
      if path.None? {
        return Failure(NullReference);
      }
      var allFiles := new FileList();
      var outcome := ListRecursively(server, path.value, allFiles, extensionFilter, rank);
      WalkKeepsMatchingFiles(ListingOf(server, baseUri), rank, SubDirectoryPath, path.value, extensionFilter);
      if outcome.Failure? {
        return Failure(outcome.error);
      }
      ghost var walk := Walk(ListingOf(server, baseUri), rank, SubDirectoryPath, path.value, extensionFilter);
      assert allFiles.items == [] + walk.value == walk.value;
      return Success(allFiles.items);
    }

    /** listRecursively(currentPath, allFiles, filter): appends the walk's files to `allFiles`. */
    method ListRecursively(server: Server, currentPath: string, allFiles: FileList, filter: Option<string>,
                           ghost rank: string -> nat)
      returns (r: Result<(), ClientError>)
      requires WellFounded(ListingOf(server, baseUri), rank, SubDirectoryPath)
      modifies allFiles
      ensures Appended(r, Walk(ListingOf(server, baseUri), rank, SubDirectoryPath, currentPath, filter), old(allFiles.items), allFiles.items)
      decreases rank(currentPath), 2
    {
      var page := ListFiles(server, currentPath);
      if page.Failure? {
        return Failure(page.error);
      }
      var itemsInCurrentPath := page.value;
      assert itemsInCurrentPath == Children(ListingOf(server, baseUri), currentPath);
      WalkOfListedDirectory(ListingOf(server, baseUri), rank, SubDirectoryPath, currentPath, filter);
      r := ListEntries(server, currentPath, itemsInCurrentPath, allFiles, filter, rank);
    }

    /** listRecursively's loop over the entries `items` listed under `currentPath`. */
    method ListEntries(server: Server, currentPath: string, items: seq<StorageObject>, allFiles: FileList,
                       filter: Option<string>, ghost rank: string -> nat)
      returns (r: Result<(), ClientError>)
      requires WellFounded(ListingOf(server, baseUri), rank, SubDirectoryPath)
      requires forall k :: 0 <= k < |items| ==> Ranked(rank, SubDirectoryPath, currentPath, items[k])
      modifies allFiles
      ensures Appended(r, WalkItems(ListingOf(server, baseUri), rank, SubDirectoryPath, currentPath, items, filter), old(allFiles.items), allFiles.items)
      decreases rank(currentPath), 1
    {
      ghost var lister := ListingOf(server, baseUri);
      ghost var steps := Steps(lister, rank, SubDirectoryPath, currentPath, items, filter);
      ghost var whole := ConcatAll(steps);
      WalkItemsIsConcatAll(lister, rank, SubDirectoryPath, currentPath, items, filter);
      ghost var start := allFiles.items;
      ghost var done: seq<StorageObject> := [];
      assert steps[0..] == steps;
      if whole.Success? {
        assert [] + whole.value == whole.value;
      }
      var i := 0;
      while i < |items|
        invariant 0 <= i <= |items|
        invariant allFiles.items == start + done
        invariant whole == Concat(Success(done), ConcatAll(steps[i..]))
      {
        ConcatAllFrom(steps, i, done, whole);
        var outcome := ListEntry(server, currentPath, items[i], allFiles, filter, rank);
        if outcome.Failure? {
          return outcome;
        }
        AppendAssociative(start, done, steps[i].value);
        done := done + steps[i].value;
        i := i + 1;
      }
      assert steps[i..] == [];
      return Success(());
    }

    /**
     * One turn of listRecursively's loop, for an entry listed under `currentPath`:
     * a directory is walked in turn, a file that passes the filter is appended.
     */
    method ListEntry(server: Server, currentPath: string, item: StorageObject, allFiles: FileList,
                     filter: Option<string>, ghost rank: string -> nat)
      returns (r: Result<(), ClientError>)
      requires WellFounded(ListingOf(server, baseUri), rank, SubDirectoryPath)
      requires Ranked(rank, SubDirectoryPath, currentPath, item)
      modifies allFiles
      ensures Appended(r, Step(ListingOf(server, baseUri), rank, SubDirectoryPath, currentPath, item, filter), old(allFiles.items), allFiles.items)
      decreases rank(currentPath), 0
    {
      if item.isDirectory {
        var subDirectoryPath := SubDirectoryPath(item);
        if subDirectoryPath.Failure? {
          return Failure(subDirectoryPath.error);
        }
        r := ListRecursively(server, subDirectoryPath.value, allFiles, filter, rank);
      } else {
        var matches := ItemMatches(item, filter);
        if matches.Failure? {
          return Failure(matches.error);
        }
        if matches.value {
          allFiles.Add(item);
        } else {
          assert old(allFiles.items) + [] == old(allFiles.items);
        }
        return Success(());
      }
    }

    /**
     * downloadFile / downloadFileAsStream: a GET that must answer 200. A null
     * path is concatenated as "null" and requested like any other.
     */
    method DownloadFile(server: Server, storagePath: Option<string>) returns (r: Result<(), ClientError>)
      ensures r.Success? <==> server(Request(Get, baseUri + JavaText(storagePath))).status == 200
      ensures r.Failure? ==> r.error == UnexpectedStatus(DownloadOp, server(Request(Get, baseUri + JavaText(storagePath))).status)
    {
      var response := server(Request(Get, baseUri + JavaText(storagePath)));
      r := CheckStatus(DownloadOp, response.status);
    }

    /** uploadFile (both overloads): a PUT that must answer 201. */
    method UploadFile(server: Server, storagePath: Option<string>) returns (r: Result<(), ClientError>)
      ensures r.Success? <==> server(Request(Put, baseUri + JavaText(storagePath))).status == 201
      ensures r.Failure? ==> r.error == UnexpectedStatus(UploadOp, server(Request(Put, baseUri + JavaText(storagePath))).status)
    {
      var response := server(Request(Put, baseUri + JavaText(storagePath)));
      r := CheckStatus(UploadOp, response.status);
    }

    /** deleteFile: a DELETE that must answer 200. */
    method DeleteFile(server: Server, path: Option<string>) returns (r: Result<(), ClientError>)
      ensures r.Success? <==> server(Request(Delete, baseUri + JavaText(path))).status == 200
      ensures r.Failure? ==> r.error == UnexpectedStatus(DeleteOp, server(Request(Delete, baseUri + JavaText(path))).status)
    {
      var response := server(Request(Delete, baseUri + JavaText(path)));
      r := CheckStatus(DeleteOp, response.status);
    }
  }
}
