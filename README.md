# BunnyCDNClient, modelled in Dafny

This project models the logic of `BunnyCDNClient`, a Java client for the
BunnyCDN Edge Storage API. It covers the parts that do more than send one
HTTP request:

- the constructor checks its arguments and builds the base URI of a storage zone in a region;
- `listFiles` adds a trailing `/` to the directory path before it requests the listing;
- `listRecursively` / `listFilesRecursive` walk the remote tree depth first and append every file that passes the filter to a shared `ArrayList`;
- `matchesFilter` is the name filter: blank or `*`, then `*.*`, then `*.ext`, then an exact name ignoring case;
- `StorageObject.getFullPath` gives an object's path within its zone;
- every request accepts exactly one status code: 200, or 201 for an upload.

Modules, one per file:

- `Wrappers`: `Option` and `Result`.
- `JavaStrings`: the `java.lang.String` operations the client uses. This covers `trim`/`isEmpty`, ASCII `toLowerCase`, `equalsIgnoreCase`, `startsWith`/`endsWith` and `contains`. It also has `replace`, written as one left-to-right pass.
- `StorageObjects`: the listing entry and `getFullPath`. A Java `String` that may be null is an `Option<string>`. `JavaText` is what Java's `+` appends, so a null operand becomes `"null"`.
- `Filter`: `matchesFilter`, with one lemma per branch.
- `Http`: requests, responses, the `Server` oracle and the status check.
- `Listing`: the path normalisation and single request of `listFiles`, and the sub-directory path that `listRecursively` derives.
- `RecursiveListing`: the walk as pure functions `Walk` / `WalkItems` / `Step`, with the lemmas about its result.
  - `Walk` takes a listing oracle `Lister` (path to entries, or an exception).
  - `Walk` takes a `Descend` function (entry to sub-directory path). The client passes `Listing.SubDirectoryPath`.
  - `Walk` takes a ranking of paths. Every listed sub-directory ranks below the directory that lists it (`WellFounded`), so the walk terminates.
- `Client`: the class `BunnyCdnClient` with its final fields `apiKey` and `baseUri`, and the `FileList` accumulator class.
  - The constructor is split in two. `Create` does the validation and returns a `Result`. The unnamed constructor does the field assignments.
  - The methods take the server as a parameter. Each is proved against the pure definitions.
  - `ListRecursively` lists one directory and hands its entries to `ListEntries`, the `while` loop of `listRecursively`. One turn of the loop is `ListEntry`, which recurses into a sub-directory. The loop invariant ties the accumulator to the contributions of the entries already visited.
  - A path that Java may pass as null is an `Option<string>`. A null start path of `listFilesRecursive` throws a `NullPointerException`, and a null path of a download, upload or delete is requested as the text `null`.

Exceptions are values of `Http.ClientError`:

- `UnexpectedStatus(operation, status)` is the `IOException` of a rejected status.
- `NullReference` is a `NullPointerException`, raised by a null start path or by a null field of a listed entry.

The constructor's `IllegalArgumentException` is `Client.ArgumentError`.

Three things follow from the code as written:

- The path that `listRecursively` descends into removes every occurrence of `"/" + storageZoneName`, not only a leading `/<zone>/` as `getFullPath` does. It then appends the object name. For a Bunny-style path `/<zone>/dir/`, that path begins with `/`. The next request URI therefore repeats the slash that ends the base URI (`Listing.SubDirectoryRequestHasDoubleSlash`). For a directory whose path contains `/<zone>` again deeper down, the two paths differ (`Listing.FullPathAndSubDirectoryPathDiffer`). The model follows the code in both cases.
- The same removal also cuts into a directory name that starts with the zone name. In a zone `img`, the directory `a` inside the top-level directory `imgs` has the path `/img/imgs/`. Its full path is `imgs/a`, but removing every `/img` also takes the start of `/imgs`, so the walk descends into `s/a` (`Listing.ZoneNamePrefixOfDirectory`). The lemma states what the code does; the model follows it.
- The code throws one `IOException` carrying the status code for every rejected request. It does not tell a missing path from an authentication failure, and neither does the model.
- Removing every `"/" + storageZoneName` can lead the walk back to where it started. In a zone `x`, take a directory `x` inside a directory `x`: its entry has path `/x/x/` and name `x`, and the walk descends into `/x` (`Listing.RepeatedZoneNameCollapses`). It requests that as `.../x//x/`. If the server answers that request like `.../x/x/`, the same entry comes back, no ranking exists (`Client.RepeatedZoneNameWalkDoesNotEnd`), and the Java recursion only stops with a `StackOverflowError`. The lemma states what the code does when a server answers that way.

## Model

| member | source | states |
|---|---|---|
| JavaStrings.TrimStart | BunnyTransfer.NET/BunnyCDNClient.java:45-48 | the first half of `trim`: the result is a suffix of `s`, everything it drops is at or below U+0020, and it does not start with such a char |
| JavaStrings.TrimEnd | BunnyTransfer.NET/BunnyCDNClient.java:45-48 | the second half of `trim`: the result is a prefix of `s`, everything it drops is at or below U+0020, and it does not end with such a char |
| JavaStrings.Trim | BunnyTransfer.NET/BunnyCDNClient.java:45-48 | `trim` is never longer than its input, and a non-empty result neither starts nor ends with a char at or below U+0020 |
| JavaStrings.BlankIffAllTrimmable | BunnyTransfer.NET/BunnyCDNClient.java:45-48 | `IsBlank`, the test `s.trim().isEmpty()` of lines 45, 48 and 143, holds exactly when every char of `s` is at or below U+0020 |
| JavaStrings.Replace | BunnyTransfer.NET/BunnyCDNClient.java:132 | `replace` never lengthens a string when the replacement is no longer than the target, and keeps its length when both are equally long |
| JavaStrings.ReplaceFirstOccurrence | BunnyTransfer.NET/BunnyCDNClient.java:132 | when the target first occurs in `a + t + b` right after `a`, `replace` gives `a`, then the replacement, then `b` with the target replaced in turn: the first occurrence is replaced and the scan goes on after it |
| JavaStrings.ReplaceDocumentationExample | BunnyTransfer.NET/BunnyCDNClient.java:132 | the example of `String.replace`'s documentation: `"aaa".replace("aa", "b")` is `"ba"` |
| JavaStrings.ToLower | BunnyTransfer.NET/BunnyCDNClient.java:152-153 | `toLowerCase` keeps the length and lower-cases each character in its place |
| JavaStrings.EqualsIgnoreCase | BunnyTransfer.NET/BunnyCDNClient.java:156 | `equalsIgnoreCase` holds only for strings of equal length, and holds for equal strings |
| JavaStrings.EqualsIgnoreCaseIffLowerEqual | BunnyTransfer.NET/BunnyCDNClient.java:156 | over ASCII, `equalsIgnoreCase` is equality of the lower-cased strings, both directions |
| JavaStrings.ReplaceWithoutOccurrence | BunnyTransfer.NET/BunnyCDNClient.java:132 | `replace` leaves a string without an occurrence of the target unchanged |
| JavaStrings.ReplaceIsSinglePass | BunnyTransfer.NET/BunnyCDNClient.java:132 | `replace` is one pass: removing `/z` from `//zz` leaves `/z`, a new occurrence |
| StorageObjects.JavaText | BunnyTransfer.NET/BunnyCDNClient.java:132 | what Java's string `+` appends: the text of a non-null `String`, the four characters `null` for a null one (also at the URI concatenations of lines 169, 241 and 282) |
| StorageObjects.FullPath | BunnyTransfer.NET/BunnyCDNClient.java:397-410 | with path, zone and name non-null, the full path ends with the object name and is no longer than path plus name |
| StorageObjects.FullPathOfIncompleteObject | BunnyTransfer.NET/BunnyCDNClient.java:398-400 | a null path, zone name or object name gives `""` |
| StorageObjects.FullPathStripsZonePrefix | BunnyTransfer.NET/BunnyCDNClient.java:402-409 | when the path starts with `/<zone>/`, that prefix followed by the full path gives back path + name |
| StorageObjects.FullPathKeepsOtherPaths | BunnyTransfer.NET/BunnyCDNClient.java:403-409 | without the prefix, the full path is path + name unchanged |
| StorageObjects.FullPathExample | BunnyTransfer.NET/BunnyCDNClient.java:392-393 | `/my-zone/folder/` and `file.txt` give `folder/file.txt` |
| Filter.IsCatchAll | BunnyTransfer.NET/BunnyCDNClient.java:143 | the first branch is taken exactly when the filter is null, consists only of characters up to U+0020 (so `trim().isEmpty()` holds), or is `*` |
| Filter.MatchesFilter | BunnyTransfer.NET/BunnyCDNClient.java:142-157 | a catch-all filter (null, blank or `*`) accepts every name; the lemmas below state the other three branches |
| Filter.DotFilterNeedsDot | BunnyTransfer.NET/BunnyCDNClient.java:147-154 | a filter `*.` + anything, whether `*.*` or an extension, matches only names that contain a `.` |
| Filter.StarDotStarMatchesDottedNames | BunnyTransfer.NET/BunnyCDNClient.java:147-149 | `*.*` matches exactly the names that contain a `.` |
| Filter.StarDotStarIsNotAnExtension | BunnyTransfer.NET/BunnyCDNClient.java:147-154 | `*.*` is tested first: `a.b` passes it although it does not end with `.*` |
| Filter.ExtensionFilterMatchesSuffix | BunnyTransfer.NET/BunnyCDNClient.java:151-154 | `*.` + rest (other than `*.*`) matches exactly the names ending with `.` + rest, ignoring case, dot included |
| Filter.LowerSuffixIffEndsWithIgnoringCase | BunnyTransfer.NET/BunnyCDNClient.java:152-153 | `endsWith` on the lower-cased name and suffix is a case-insensitive suffix test, both directions |
| Filter.OtherFilterMatchesSameName | BunnyTransfer.NET/BunnyCDNClient.java:156 | any other non-blank filter not starting with `*.` matches exactly the name equal to it ignoring case |
| Filter.MatchIgnoresCaseOfName | BunnyTransfer.NET/BunnyCDNClient.java:142-157 | the outcome never depends on the case of the file name |
| Http.CheckStatus | BunnyTransfer.NET/BunnyCDNClient.java:92-93 | a request succeeds exactly on 201 for an upload and on 200 otherwise; a rejection carries the operation and the status |
| Listing.NormalizeDirPath | BunnyTransfer.NET/BunnyCDNClient.java:81-83 | the path is unchanged exactly when it is empty or ends with `/`, otherwise exactly one `/` is appended; only `""` stays empty and any other result ends with `/` |
| Listing.NormalizeDirPathIdempotent | BunnyTransfer.NET/BunnyCDNClient.java:81-83 | normalising twice is normalising once |
| Listing.ListUri | BunnyTransfer.NET/BunnyCDNClient.java:86 | the listing URI starts with `baseUri`; it is `baseUri` itself for an empty path and ends with `/` for any other |
| Listing.ListPage | BunnyTransfer.NET/BunnyCDNClient.java:80-95 | the listing GETs `baseUri` + the normalised path; it succeeds exactly on status 200 with the parsed entries, and fails otherwise with that status |
| Listing.SubDirectoryPath | BunnyTransfer.NET/BunnyCDNClient.java:132 | it fails with a null reference exactly when the entry's path is null; otherwise the result ends with the object name (`"null"` for a null name) |
| Listing.SubDirectoryPathOfZonePath | BunnyTransfer.NET/BunnyCDNClient.java:132 | for a path `/<zone>/dir/` with no further `/<zone>`, the derived path is `/` + `getFullPath` |
| Listing.SubDirectoryRequestHasDoubleSlash | BunnyTransfer.NET/BunnyCDNClient.java:132-133 | the listing URI of such a sub-directory starts with `baseUri` + `/`, a doubled slash |
| Listing.FullPathAndSubDirectoryPathDiffer | BunnyTransfer.NET/BunnyCDNClient.java:132 | for `/z/a/z/` and `b`, `getFullPath` gives `a/z/b` while the walk descends into `/a/b` |
| Listing.ZoneNamePrefixOfDirectory | BunnyTransfer.NET/BunnyCDNClient.java:132 | in zone `img`, the directory entry with path `/img/imgs/` and name `a` has the full path `imgs/a` but leads the walk into `s/a` |
| Listing.RepeatedZoneNameCollapses | BunnyTransfer.NET/BunnyCDNClient.java:132 | in zone `x`, the directory entry with path `/x/x/` and name `x` leads the walk into `/x` |
| RecursiveListing.ItemMatches | BunnyTransfer.NET/BunnyCDNClient.java:135 | a named entry is tested by `matchesFilter`; a catch-all filter accepts without reading the name |
| RecursiveListing.KeptWithoutFilter | BunnyTransfer.NET/BunnyCDNClient.java:106-108 | with a null filter the walk keeps exactly the non-directory entries |
| RecursiveListing.Keep | BunnyTransfer.NET/BunnyCDNClient.java:135-137 | a file's contribution holds only entries that pass the filter |
| RecursiveListing.Step | BunnyTransfer.NET/BunnyCDNClient.java:131-137 | one entry's contribution: a directory whose sub-directory path throws fails with that exception; a file fails exactly when its filter test throws, and otherwise contributes only files that pass the filter |
| RecursiveListing.WalkItems | BunnyTransfer.NET/BunnyCDNClient.java:130-139 | the loop over no entries contributes nothing; an exception at the first entry is the exception of the whole loop |
| RecursiveListing.Walk | BunnyTransfer.NET/BunnyCDNClient.java:128 | a failing listing of the start directory is the walk's own failure |
| RecursiveListing.WalkOfListedDirectory | BunnyTransfer.NET/BunnyCDNClient.java:128-130 | a listed directory is walked by the loop over its entries, in order; every entry is ranked below it |
| RecursiveListing.WalkItemsIsConcatAll | BunnyTransfer.NET/BunnyCDNClient.java:130-139 | the loop over the entries is their contributions run one after the other, the first exception winning |
| RecursiveListing.ConcatAllFrom | BunnyTransfer.NET/BunnyCDNClient.java:130-139 | one turn of the loop: an exception in part i is the exception of the whole; otherwise part i's files follow those already done, then the rest |
| RecursiveListing.StepKeepsMatchingFiles | BunnyTransfer.NET/BunnyCDNClient.java:131-137 | one entry's contribution holds only files that pass the filter |
| RecursiveListing.WalkItemsKeepMatchingFiles | BunnyTransfer.NET/BunnyCDNClient.java:130-139 | the loop's result holds only files that pass the filter |
| RecursiveListing.WalkKeepsMatchingFiles | BunnyTransfer.NET/BunnyCDNClient.java:127-139 | the walk's result holds no directory and only files that pass the filter |
| RecursiveListing.WalkItemsAppend | BunnyTransfer.NET/BunnyCDNClient.java:130 | the loop over a concatenation of entries is the loop over each part, in order |
| RecursiveListing.WalkSplicesEntry | BunnyTransfer.NET/BunnyCDNClient.java:130-139 | the walk of a directory is the entries before i, then entry i's contribution, then the entries after i |
| RecursiveListing.DirectoryContentsSpliced | BunnyTransfer.NET/BunnyCDNClient.java:131-133 | a sub-directory's whole walk appears as one block at its entry's position, depth first |
| RecursiveListing.SelfDescentIsNotWellFounded | BunnyTransfer.NET/BunnyCDNClient.java:131-133 | once a directory lists an entry that descends back into it, no ranking exists |
| RecursiveListing.SubDirectoryFailureAborts | BunnyTransfer.NET/BunnyCDNClient.java:133 | an exception from any entry of a directory makes the walk of that directory fail |
| RecursiveListing.ReachableFailureAborts | BunnyTransfer.NET/BunnyCDNClient.java:92-93 | a failing listing of any directory the walk reaches, at any depth, makes the whole walk fail with no partial list |
| RecursiveListing.ReachableFileIncluded | BunnyTransfer.NET/BunnyCDNClient.java:134-137 | every file that passes the filter, in any reachable directory, is in the result |
| RecursiveListing.WalkItemsOrigin | BunnyTransfer.NET/BunnyCDNClient.java:130-139 | each element of the loop's result comes from the contribution of one entry |
| RecursiveListing.WalkResultIsListed | BunnyTransfer.NET/BunnyCDNClient.java:127-139 | each element of the walk's result is an entry listed in some directory the walk reaches |
| RecursiveListing.FilterFilesCatchAll | BunnyTransfer.NET/BunnyCDNClient.java:143-145 | filtering a list of files with a catch-all filter keeps all of it |
| RecursiveListing.StepIsFilteredStep | BunnyTransfer.NET/BunnyCDNClient.java:131-137 | one entry's filtered contribution is its unfiltered contribution, filtered |
| RecursiveListing.WalkItemsIsFilteredWalkItems | BunnyTransfer.NET/BunnyCDNClient.java:130-139 | the same for the loop over a directory's entries |
| RecursiveListing.WalkIsFilteredWalk | BunnyTransfer.NET/BunnyCDNClient.java:127-139 | filtering during the walk gives the unfiltered walk's files, filtered, in the same order |
| RecursiveListing.CatchAllWalkIsUnfilteredWalk | BunnyTransfer.NET/BunnyCDNClient.java:106-108 | the one-argument overload (filter null) and any catch-all filter list the same files |
| Client.StorageRegion.Uri | BunnyTransfer.NET/BunnyCDNClient.java:417-422 | every region's host ends with `storage.bunnycdn.com`, and only FALKENSTEIN's host is that name alone |
| Client.DistinctHosts | BunnyTransfer.NET/BunnyCDNClient.java:417-422 | no two regions share a host |
| Client.BaseUri | BunnyTransfer.NET/BunnyCDNClient.java:55-59 | the base URI starts with `https://` and ends with `/<zone>/` |
| Client.FalkensteinIsDefault | BunnyTransfer.NET/BunnyCDNClient.java:418 | FALKENSTEIN yields the same base URI as a null region |
| Client.BaseUriDeterminesRegion | BunnyTransfer.NET/BunnyCDNClient.java:417-422 | distinct regions give distinct base URIs for the same zone |
| Client.BaseUriDeterminesZone | BunnyTransfer.NET/BunnyCDNClient.java:55-59 | distinct zone names give distinct base URIs in the same region |
| Client.CheckArguments | BunnyTransfer.NET/BunnyCDNClient.java:45-50 | a null or whitespace-only zone name is rejected first, then a null or whitespace-only API key; anything else passes |
| Client.ListingOf | BunnyTransfer.NET/BunnyCDNClient.java:128 | the walk's listing oracle answers every path as `listFiles` against the same server and base URI does |
| Client.RepeatedZoneNameWalkDoesNotEnd | BunnyTransfer.NET/BunnyCDNClient.java:130-133 | if the server lists the entry `/x/x/` + `x` again under `/x`, no ranking of the client's listings exists, so the walk has no end |
| Client.FileList.constructor | BunnyTransfer.NET/BunnyCDNClient.java:122 | `listFilesRecursive` starts from an empty accumulator |
| Client.FileList.Add | BunnyTransfer.NET/BunnyCDNClient.java:136 | appends one entry at the end of the accumulator |
| Client.BunnyCdnClient.constructor | BunnyTransfer.NET/BunnyCDNClient.java:51-59 | for a zone name and API key that pass the checks, stores the key and the base URI of the zone in the region |
| Client.BunnyCdnClient.Create | BunnyTransfer.NET/BunnyCDNClient.java:44-60 | rejects exactly what the argument checks reject, with their error; otherwise a client with that key and base URI |
| Client.BunnyCdnClient.CreateInDefaultRegion | BunnyTransfer.NET/BunnyCDNClient.java:68-70 | the two-argument constructor is the three-argument one with a null region |
| Client.BunnyCdnClient.ListFiles | BunnyTransfer.NET/BunnyCDNClient.java:80-96 | GETs `baseUri` + the normalised path; the entries on 200, otherwise a rejection with the status |
| Client.BunnyCdnClient.ListAllFilesRecursive | BunnyTransfer.NET/BunnyCDNClient.java:106-108 | the walk with a null filter; its result holds no directory; a null path throws a null reference |
| Client.BunnyCdnClient.ListFilesRecursive | BunnyTransfer.NET/BunnyCDNClient.java:121-125 | a null path throws a null reference; otherwise returns the walk from an empty accumulator, and every returned entry is a file that passes the filter |
| Client.BunnyCdnClient.ListRecursively | BunnyTransfer.NET/BunnyCDNClient.java:127-140 | succeeds exactly when the walk does, with the walk's exception otherwise; on success it appends exactly the walk's files to the accumulator, which only ever grows |
| Client.BunnyCdnClient.ListEntries | BunnyTransfer.NET/BunnyCDNClient.java:130-139 | the loop over the listed entries: succeeds exactly when the loop of the walk does, with its exception otherwise; on success it appends exactly that loop's files, and the accumulator only grows |
| Client.BunnyCdnClient.ListEntry | BunnyTransfer.NET/BunnyCDNClient.java:130-139 | one loop turn is one entry's contribution: it recurses into a directory and appends a passing file |
| Client.BunnyCdnClient.DownloadFile | BunnyTransfer.NET/BunnyCDNClient.java:167-178 | GETs `baseUri` + the storage path (`null` for a null path) and succeeds exactly on status 200, failing with that status otherwise |
| Client.BunnyCdnClient.UploadFile | BunnyTransfer.NET/BunnyCDNClient.java:239-250 | PUTs to `baseUri` + the storage path (`null` for a null path) and succeeds exactly on status 201, failing with that status otherwise |
| Client.BunnyCdnClient.DeleteFile | BunnyTransfer.NET/BunnyCDNClient.java:280-291 | DELETEs `baseUri` + the path (`null` for a null path) and succeeds exactly on status 200, failing with that status otherwise |

## Left out

- HTTP traffic is not modelled. This covers `HttpClient.send`, request building, the `AccessKey` header, body handlers and publishers, and streaming to a file. The server is a function from a request (verb and URI) to a response (status and parsed listing).
- `URI.create` rejecting a malformed URI is not modelled. Every URI string reaches the server.
- JSON parsing of a listing (the Jackson `ObjectMapper`) is not modelled, and neither is its failure. The response carries the parsed entries.
- The file, stream, text and bytes variants of download, and the two upload overloads, are not modelled separately. Each is the status check of its request. UTF-8 decoding and reading a stream are I/O.
- `InterruptedException` and interruption are not modelled. They are concurrency concerns.
- The Lombok `@Getter`/`@ToString` parts are not modelled. The same goes for the `StorageObject` fields that no logic reads: guid, lastChanged, serverId, arrayNumber, userId, contentType, dateCreated, storageZoneId, checksum and replicatedZones.
- The `httpClient` and `objectMapper` fields are not modelled. No modelled logic reads `length`; the entry only carries it.
- `toLowerCase` and `equalsIgnoreCase` are modelled over ASCII only. The locale and the rest of Unicode are not modelled.
- A null `path` argument to `listFiles` is not modelled. The parameter is annotated `@NotNull` (line 80), and `ListFiles` takes a `string`. A null start path of `listFilesRecursive` is modelled: it reaches `listFiles`, whose `path.endsWith` call (line 81) throws.
- A remote tree in which some directory lists itself or an ancestor again is not walked. On such a tree the Java recursion never ends. The walk assumes a ranking under which every listed sub-directory ranks below its parent, and the lemmas about self-descent show that no such ranking exists on that tree. The ranking covers every path, not only the paths the walk reaches.
- Client.BunnyCdnClient.ListRecursively: after an exception, it states only that the accumulator was extended, not which files the Java code had already appended by then. Those entries are lost to the caller anyway, because `listFilesRecursive` rethrows.
- Client.BunnyCdnClient.ListEntries: the same weakening after an exception as ListRecursively.
- Client.BunnyCdnClient.ListEntry: the same weakening after an exception as ListRecursively.
- JavaStrings.Trim: its own contract does not say which middle part of the string it keeps. TrimStart and TrimEnd state that for each half, and Trim is their composition.
