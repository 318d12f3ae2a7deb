/**
 * listRecursively as a pure function over the listing oracle `list`, which
 * answers a directory path with its entries or the exception listFiles
 * throws: the depth-first walk that flattens a remote directory tree into
 * the files that pass a filter.
 */
module RecursiveListing {
  import opened Wrappers
  import opened JavaStrings
  import opened StorageObjects
  import opened Filter
  import opened Http
  import opened Listing

  /** listFiles as the walk sees it: path to entries, or the exception. */
  type Lister = string -> Listed

  /**
   * How the walk derives the path of a sub-directory from its entry, or the
   * exception that derivation throws; the client passes SubDirectoryPath.
   */
  type Descend = StorageObject -> Result<string, ClientError>

  /** The entries of a directory whose listing succeeds; none otherwise. */
  function Children(list: Lister, path: string): seq<StorageObject> {
    match list(path)
    case Success(items) => items
    case Failure(_) => []
  }

  /** matchesFilter applied to an entry's name; a null name throws unless the filter is a catch-all. */
  function ItemMatches(item: StorageObject, filter: Option<string>): (r: Result<bool, ClientError>)
    ensures item.objectName.Some? ==> r == Success(MatchesFilter(item.objectName.value, filter))
    ensures IsCatchAll(filter) ==> r == Success(true)
  {
    match item.objectName
    case Some(name) => Success(MatchesFilter(name, filter))
    case None => if IsCatchAll(filter) then Success(true) else Failure(NullReference)
  }

  /** An entry the walk keeps: a file that passes the filter. */
  predicate Kept(item: StorageObject, filter: Option<string>) {
    !item.isDirectory && ItemMatches(item, filter) == Success(true)
  }

  predicate AllKept(items: seq<StorageObject>, filter: Option<string>) {
    forall k :: 0 <= k < |items| ==> Kept(items[k], filter)
  }

  /** Without a filter, the walk keeps every file. */
  lemma KeptWithoutFilter(item: StorageObject)
    ensures Kept(item, None) <==> !item.isDirectory
  {
  }

  /** A file entry's contribution: itself if it passes the filter, else nothing. */
  function Keep(item: StorageObject, filter: Option<string>): (r: Listed)
    ensures r.Success? ==> AllKept(r.value, filter) || item.isDirectory
  {
    match ItemMatches(item, filter)
    case Failure(e) => Failure(e)
    case Success(keep) => Success(if keep then [item] else [])
  }

  /** Running two parts of the walk in sequence: the first exception wins. */
  function Concat(a: Listed, b: Listed): (r: Listed)
    ensures r.Success? <==> a.Success? && b.Success?
    ensures r.Success? ==> r.value == a.value + b.value
    ensures a.Failure? ==> r == a
  {
    match a
    case Failure(e) => Failure(e)
    case Success(x) =>
      match b
      case Failure(e) => Failure(e)
      case Success(y) => Success(x + y)
  }

  /** An entry of a successful concatenation comes from its first or its second part. */
  lemma ConcatOrigin(a: Listed, b: Listed, k: int)
    requires Concat(a, b).Success?
    requires 0 <= k < |Concat(a, b).value|
    ensures a.Success? && b.Success?
    ensures k < |a.value| ==> Concat(a, b).value[k] == a.value[k]
    ensures k >= |a.value| ==> k - |a.value| < |b.value| && Concat(a, b).value[k] == b.value[k - |a.value|]
  {
  }

  lemma ConcatAssociative(a: Listed, b: Listed, c: Listed)
    ensures Concat(Concat(a, b), c) == Concat(a, Concat(b, c))
  {
    if a.Success? && b.Success? && c.Success? {
      assert (a.value + b.value) + c.value == a.value + (b.value + c.value);
    }
  }

  /** Three parts in sequence succeed only together, with their entries in order. */
  lemma ConcatOfThree(a: Listed, b: Listed, c: Listed)
    requires Concat(a, Concat(b, c)).Success?
    ensures a.Success? && b.Success? && c.Success?
    ensures Concat(a, Concat(b, c)).value == a.value + b.value + c.value
  {
    assert a.value + (b.value + c.value) == a.value + b.value + c.value;
  }

  /** A listed sub-directory ranks strictly below the directory listing it. */
  predicate Ranked(rank: string -> nat, descend: Descend, parent: string, item: StorageObject) {
    item.isDirectory && descend(item).Success? ==> rank(descend(item).value) < rank(parent)
  }

  /** The remote tree is finite: the walk descends along a ranking. */
  ghost predicate WellFounded(list: Lister, rank: string -> nat, descend: Descend) {
    forall path: string, i :: 0 <= i < |Children(list, path)| ==>
      Ranked(rank, descend, path, Children(list, path)[i])
  }

  /**
   * No ranking exists once a directory lists an entry that descends back
   * into it: the walk of listRecursively would not end there.
   */
  lemma SelfDescentIsNotWellFounded(list: Lister, rank: string -> nat, descend: Descend, path: string, i: int)
    requires 0 <= i < |Children(list, path)|
    requires Children(list, path)[i].isDirectory
    requires descend(Children(list, path)[i]) == Success(path)
    ensures !WellFounded(list, rank, descend)
  {
    assert !Ranked(rank, descend, path, Children(list, path)[i]);
  }

  /** One iteration of listRecursively's loop, for an entry listed under `parent`. */
  function Step(list: Lister, rank: string -> nat, descend: Descend, parent: string,
                item: StorageObject, filter: Option<string>): (r: Listed)
    requires WellFounded(list, rank, descend)
    requires Ranked(rank, descend, parent, item)
    ensures item.isDirectory && descend(item).Failure? ==> r == Failure(descend(item).error)
    ensures !item.isDirectory ==> (r.Success? <==> ItemMatches(item, filter).Success?)
    ensures !item.isDirectory && r.Success? ==> AllKept(r.value, filter)
    decreases rank(parent), 0, 0
  {
    if item.isDirectory then
      match descend(item)
      case Failure(e) => Failure(e)
      case Success(sub) => Walk(list, rank, descend, sub, filter)
    else
      Keep(item, filter)
  }

  /** listRecursively's loop over the entries `items` of the directory `parent`. */
  function WalkItems(list: Lister, rank: string -> nat, descend: Descend, parent: string,
                     items: seq<StorageObject>, filter: Option<string>): (r: Listed)
    requires WellFounded(list, rank, descend)
    requires forall k :: 0 <= k < |items| ==> Ranked(rank, descend, parent, items[k])
    ensures items == [] ==> r == Success([])
    ensures items != [] && Step(list, rank, descend, parent, items[0], filter).Failure? ==>
              r == Step(list, rank, descend, parent, items[0], filter)
    decreases rank(parent), 0, |items|
  {
    if items == [] then Success([])
    else Concat(Step(list, rank, descend, parent, items[0], filter),
                WalkItems(list, rank, descend, parent, items[1..], filter))
  }

  /**
   * listRecursively(path, allFiles, filter), as the list it appends: every
   * file under `path` that passes the filter, in depth-first order; the first
   * exception anywhere ends the walk.
   */
  function Walk(list: Lister, rank: string -> nat, descend: Descend, path: string,
                filter: Option<string>): (r: Listed)
    requires WellFounded(list, rank, descend)
    ensures list(path).Failure? ==> r == list(path)
    decreases rank(path), 1
  {
    match list(path)
    case Failure(e) => Failure(e)
    case Success(items) =>
      assert items == Children(list, path);
      WalkItems(list, rank, descend, path, items, filter)
  }

  /** A directory whose listing succeeds is walked by the loop over its entries. */
  lemma WalkOfListedDirectory(list: Lister, rank: string -> nat, descend: Descend, path: string,
                              filter: Option<string>)
    requires WellFounded(list, rank, descend)
    requires list(path).Success?
    ensures forall k :: 0 <= k < |Children(list, path)| ==>
              Ranked(rank, descend, path, Children(list, path)[k])
    ensures Walk(list, rank, descend, path, filter) == WalkItems(list, rank, descend, path, Children(list, path), filter)
  {
  }

  /** The contribution of each of the entries `items` of `parent`, in order. */
  function Steps(list: Lister, rank: string -> nat, descend: Descend, parent: string,
                 items: seq<StorageObject>, filter: Option<string>): (r: seq<Listed>)
    requires WellFounded(list, rank, descend)
    requires forall k :: 0 <= k < |items| ==> Ranked(rank, descend, parent, items[k])
    ensures |r| == |items|
    ensures forall k :: 0 <= k < |items| ==> r[k] == Step(list, rank, descend, parent, items[k], filter)
  {
    seq(|items|, k requires 0 <= k < |items| => Step(list, rank, descend, parent, items[k], filter))
  }

  /** Parts run one after the other: the first exception wins. */
  function ConcatAll(parts: seq<Listed>): Listed
    decreases |parts|
  {
    if parts == [] then Success([]) else Concat(parts[0], ConcatAll(parts[1..]))
  }

  /** The loop over the entries is the concatenation of their contributions. */
  lemma {:induction false} WalkItemsIsConcatAll(list: Lister, rank: string -> nat, descend: Descend, parent: string,
                                                items: seq<StorageObject>, filter: Option<string>)
    requires WellFounded(list, rank, descend)
    requires forall k :: 0 <= k < |items| ==> Ranked(rank, descend, parent, items[k])
    ensures WalkItems(list, rank, descend, parent, items, filter) == ConcatAll(Steps(list, rank, descend, parent, items, filter))
    decreases |items|
  {
    if items != [] {
      var steps := Steps(list, rank, descend, parent, items, filter);
      var tail := Steps(list, rank, descend, parent, items[1..], filter);
      assert steps[1..] == tail by {
        forall k | 0 <= k < |tail|
          ensures steps[1..][k] == tail[k]
        {
          assert items[1..][k] == items[k + 1];
        }
      }
      WalkItemsIsConcatAll(list, rank, descend, parent, items[1..], filter);
    }
  }

  /**
   * One turn of listRecursively's loop, with `done` the files of the parts
   * before i: an exception in part i ends the whole with it; otherwise what
   * remains from part i + 1 follows `done` and part i's files.
   */
  lemma ConcatAllFrom(parts: seq<Listed>, i: int, done: seq<StorageObject>, whole: Listed)
    requires 0 <= i < |parts|
    requires whole == Concat(Success(done), ConcatAll(parts[i..]))
    ensures parts[i].Failure? ==> whole.Failure? && whole.error == parts[i].error
    ensures parts[i].Success? ==> whole == Concat(Success(done + parts[i].value), ConcatAll(parts[i + 1..]))
  {
    assert parts[i..][0] == parts[i];
    assert parts[i..][1..] == parts[i + 1..];
    ConcatAssociative(Success(done), parts[i], ConcatAll(parts[i + 1..]));
  }

  /** The loop over a non-empty list of entries: the first entry, then the others. */
  lemma WalkItemsUnfold(list: Lister, rank: string -> nat, descend: Descend, parent: string,
                        items: seq<StorageObject>, filter: Option<string>)
    requires WellFounded(list, rank, descend)
    requires forall k :: 0 <= k < |items| ==> Ranked(rank, descend, parent, items[k])
    requires items != []
    ensures Ranked(rank, descend, parent, items[0])
    ensures forall k :: 0 <= k < |items[1..]| ==> Ranked(rank, descend, parent, items[1..][k])
    ensures WalkItems(list, rank, descend, parent, items, filter)
            == Concat(Step(list, rank, descend, parent, items[0], filter),
                      WalkItems(list, rank, descend, parent, items[1..], filter))
  {
  }

  /** The walk keeps only files, and only those that pass the filter. */
  lemma {:induction false} StepKeepsMatchingFiles(list: Lister, rank: string -> nat, descend: Descend,
                                                  parent: string, item: StorageObject, filter: Option<string>)
    requires WellFounded(list, rank, descend)
    requires Ranked(rank, descend, parent, item)
    ensures var r := Step(list, rank, descend, parent, item, filter);
            r.Success? ==> AllKept(r.value, filter)
    decreases rank(parent), 0, 0
  {
    if item.isDirectory && descend(item).Success? {
      WalkKeepsMatchingFiles(list, rank, descend, descend(item).value, filter);
    }
  }

  lemma {:induction false} WalkItemsKeepMatchingFiles(list: Lister, rank: string -> nat, descend: Descend,
                                                      parent: string, items: seq<StorageObject>,
                                                      filter: Option<string>)
    requires WellFounded(list, rank, descend)
    requires forall k :: 0 <= k < |items| ==> Ranked(rank, descend, parent, items[k])
    ensures var r := WalkItems(list, rank, descend, parent, items, filter);
            r.Success? ==> AllKept(r.value, filter)
    decreases rank(parent), 0, |items|
  {
    if items != [] {
      var a := Step(list, rank, descend, parent, items[0], filter);
      var b := WalkItems(list, rank, descend, parent, items[1..], filter);
      StepKeepsMatchingFiles(list, rank, descend, parent, items[0], filter);
      WalkItemsKeepMatchingFiles(list, rank, descend, parent, items[1..], filter);
      if a.Success? && b.Success? {
        forall k | 0 <= k < |a.value + b.value| ensures Kept((a.value + b.value)[k], filter) {
          if k < |a.value| {
            assert (a.value + b.value)[k] == a.value[k];
          } else {
            assert (a.value + b.value)[k] == b.value[k - |a.value|];
          }
        }
      }
    }
  }

  lemma {:induction false} WalkKeepsMatchingFiles(list: Lister, rank: string -> nat, descend: Descend,
                                                  path: string, filter: Option<string>)
    requires WellFounded(list, rank, descend)
    ensures var r := Walk(list, rank, descend, path, filter);
            r.Success? ==> AllKept(r.value, filter)
    decreases rank(path), 1
  {
    if list(path).Success? {
      WalkItemsKeepMatchingFiles(list, rank, descend, path, Children(list, path), filter);
    }
  }

  /** The loop over a concatenation is the loop over each part, in order. */
  lemma {:induction false} WalkItemsAppend(list: Lister, rank: string -> nat, descend: Descend, parent: string,
                                           a: seq<StorageObject>, b: seq<StorageObject>, filter: Option<string>)
    requires WellFounded(list, rank, descend)
    requires forall k :: 0 <= k < |a| ==> Ranked(rank, descend, parent, a[k])
    requires forall k :: 0 <= k < |b| ==> Ranked(rank, descend, parent, b[k])
    ensures forall k :: 0 <= k < |a + b| ==> Ranked(rank, descend, parent, (a + b)[k])
    ensures WalkItems(list, rank, descend, parent, a + b, filter)
            == Concat(WalkItems(list, rank, descend, parent, a, filter),
                      WalkItems(list, rank, descend, parent, b, filter))
    decreases |a|
  {
    forall k | 0 <= k < |a + b| ensures Ranked(rank, descend, parent, (a + b)[k]) {
      if k < |a| {
        assert (a + b)[k] == a[k];
      } else {
        assert (a + b)[k] == b[k - |a|];
      }
    }
    if a == [] {
      assert a + b == b;
      var y := WalkItems(list, rank, descend, parent, b, filter);
      if y.Success? {
        assert [] + y.value == y.value;
      }
    } else {
      var ab := a + b;
      assert ab[0] == a[0];
      assert ab[1..] == a[1..] + b;
      WalkItemsAppend(list, rank, descend, parent, a[1..], b, filter);
      var first := Step(list, rank, descend, parent, a[0], filter);
      assert WalkItems(list, rank, descend, parent, ab, filter)
             == Concat(first, WalkItems(list, rank, descend, parent, a[1..] + b, filter));
      ConcatAssociative(first,
                        WalkItems(list, rank, descend, parent, a[1..], filter),
                        WalkItems(list, rank, descend, parent, b, filter));
    }
  }

  /**
   * The walk of a directory is the walk of the entries before entry i, then
   * entry i's own contribution (a sub-directory's whole walk, spliced in at
   * its position), then the entries after it.
   */
  lemma WalkSplicesEntry(list: Lister, rank: string -> nat, descend: Descend, path: string,
                         filter: Option<string>, i: int)
    requires WellFounded(list, rank, descend)
    requires 0 <= i < |Children(list, path)|
    ensures var items := Children(list, path);
            Walk(list, rank, descend, path, filter)
            == Concat(WalkItems(list, rank, descend, path, items[..i], filter),
                      Concat(Step(list, rank, descend, path, items[i], filter),
                             WalkItems(list, rank, descend, path, items[i + 1..], filter)))
  {
    var items := Children(list, path);
    assert items == items[..i] + items[i..];
    WalkItemsAppend(list, rank, descend, path, items[..i], items[i..], filter);
    assert items[i..][1..] == items[i + 1..];
  }

  /** A sub-directory's files appear as one block at the directory's position. */
  lemma DirectoryContentsSpliced(list: Lister, rank: string -> nat, descend: Descend, path: string,
                                 filter: Option<string>, i: int)
    requires WellFounded(list, rank, descend)
    requires 0 <= i < |Children(list, path)|
    requires Children(list, path)[i].isDirectory
    requires descend(Children(list, path)[i]).Success?
    requires Walk(list, rank, descend, path, filter).Success?
    ensures var items := Children(list, path);
            var sub := descend(items[i]).value;
            Walk(list, rank, descend, sub, filter).Success? &&
            WalkItems(list, rank, descend, path, items[..i], filter).Success? &&
            WalkItems(list, rank, descend, path, items[i + 1..], filter).Success? &&
            Walk(list, rank, descend, path, filter).value
            == WalkItems(list, rank, descend, path, items[..i], filter).value
               + Walk(list, rank, descend, sub, filter).value
               + WalkItems(list, rank, descend, path, items[i + 1..], filter).value
  {
    var items := Children(list, path);
    var sub := descend(items[i]).value;
    WalkSplicesEntry(list, rank, descend, path, filter, i);
    var here := Step(list, rank, descend, path, items[i], filter);
    ConcatOfThree(WalkItems(list, rank, descend, path, items[..i], filter), here,
                  WalkItems(list, rank, descend, path, items[i + 1..], filter));
    assert here == Walk(list, rank, descend, sub, filter);
  }

  /** A failing walk of any listed sub-directory makes the whole walk fail. */
  lemma SubDirectoryFailureAborts(list: Lister, rank: string -> nat, descend: Descend, path: string,
                                  filter: Option<string>, i: int)
    requires WellFounded(list, rank, descend)
    requires 0 <= i < |Children(list, path)|
    requires Step(list, rank, descend, path, Children(list, path)[i], filter).Failure?
    ensures Walk(list, rank, descend, path, filter).Failure?
  {
    WalkSplicesEntry(list, rank, descend, path, filter, i);
  }

  /**
   * The directory reached from `path` by descending, at each level, into the
   * entry whose index is the next element of `chain`.
   */
  function Follow(list: Lister, descend: Descend, path: string, chain: seq<nat>): Option<string>
    decreases |chain|
  {
    if chain == [] then Some(path)
    else
      var items := Children(list, path);
      if chain[0] < |items| && items[chain[0]].isDirectory && descend(items[chain[0]]).Success? then
        Follow(list, descend, descend(items[chain[0]]).value, chain[1..])
      else None
  }

  /** A listing that fails at any depth the walk reaches leaves no partial list. */
  lemma {:induction false} ReachableFailureAborts(list: Lister, rank: string -> nat, descend: Descend,
                                                  path: string, filter: Option<string>, chain: seq<nat>)
    requires WellFounded(list, rank, descend)
    requires Follow(list, descend, path, chain).Some?
    requires list(Follow(list, descend, path, chain).value).Failure?
    ensures Walk(list, rank, descend, path, filter).Failure?
    decreases |chain|
  {
    if chain != [] {
      var items := Children(list, path);
      var sub := descend(items[chain[0]]).value;
      ReachableFailureAborts(list, rank, descend, sub, filter, chain[1..]);
      SubDirectoryFailureAborts(list, rank, descend, path, filter, chain[0]);
    }
  }

  /** Every file that passes the filter, in any directory the walk reaches, is in its result. */
  lemma {:induction false} ReachableFileIncluded(list: Lister, rank: string -> nat, descend: Descend,
                                                 path: string, filter: Option<string>, chain: seq<nat>, i: int)
    requires WellFounded(list, rank, descend)
    requires Follow(list, descend, path, chain).Some?
    requires 0 <= i < |Children(list, Follow(list, descend, path, chain).value)|
    requires Kept(Children(list, Follow(list, descend, path, chain).value)[i], filter)
    requires Walk(list, rank, descend, path, filter).Success?
    ensures Children(list, Follow(list, descend, path, chain).value)[i]
            in Walk(list, rank, descend, path, filter).value
    decreases |chain|
  {
    var items := Children(list, path);
    if chain == [] {
      WalkSplicesEntry(list, rank, descend, path, filter, i);
      assert Step(list, rank, descend, path, items[i], filter).value == [items[i]];
    } else {
      var sub := descend(items[chain[0]]).value;
      DirectoryContentsSpliced(list, rank, descend, path, filter, chain[0]);
      ReachableFileIncluded(list, rank, descend, sub, filter, chain[1..], i);
    }
  }

  /** Each entry of a loop's result comes from one entry's contribution. */
  lemma {:induction false} WalkItemsOrigin(list: Lister, rank: string -> nat, descend: Descend, parent: string,
                                           items: seq<StorageObject>, filter: Option<string>, k: int)
    returns (j: nat, m: nat)
    requires WellFounded(list, rank, descend)
    requires forall n :: 0 <= n < |items| ==> Ranked(rank, descend, parent, items[n])
    requires WalkItems(list, rank, descend, parent, items, filter).Success?
    requires 0 <= k < |WalkItems(list, rank, descend, parent, items, filter).value|
    ensures j < |items|
    ensures Step(list, rank, descend, parent, items[j], filter).Success?
    ensures m < |Step(list, rank, descend, parent, items[j], filter).value|
    ensures Step(list, rank, descend, parent, items[j], filter).value[m]
            == WalkItems(list, rank, descend, parent, items, filter).value[k]
    decreases |items|
  {
    WalkItemsUnfold(list, rank, descend, parent, items, filter);
    var first := Step(list, rank, descend, parent, items[0], filter);
    var rest := WalkItems(list, rank, descend, parent, items[1..], filter);
    ConcatOrigin(first, rest, k);
    if k < |first.value| {
      j, m := 0, k;
      assert items[j] == items[0];
      assert first.Success?;
      assert WalkItems(list, rank, descend, parent, items, filter).value[k] == first.value[k];
    } else {
      var k' := k - |first.value|;
      assert rest.Success? && 0 <= k' < |rest.value|;
      var j', m' := WalkItemsOrigin(list, rank, descend, parent, items[1..], filter, k');
      j, m := j' + 1, m';
      assert items[1..][j'] == items[j];
      assert WalkItems(list, rank, descend, parent, items, filter).value[k] == rest.value[k'];
    }
  }

  /** Every entry of the walk's result is a file listed in a directory the walk reaches. */
  lemma {:induction false} WalkResultIsListed(list: Lister, rank: string -> nat, descend: Descend,
                                              path: string, filter: Option<string>, k: int)
    returns (chain: seq<nat>, i: nat)
    requires WellFounded(list, rank, descend)
    requires Walk(list, rank, descend, path, filter).Success?
    requires 0 <= k < |Walk(list, rank, descend, path, filter).value|
    ensures Follow(list, descend, path, chain).Some?
    ensures i < |Children(list, Follow(list, descend, path, chain).value)|
    ensures Children(list, Follow(list, descend, path, chain).value)[i]
            == Walk(list, rank, descend, path, filter).value[k]
    decreases rank(path)
  {
    var items := Children(list, path);
    var j, m := WalkItemsOrigin(list, rank, descend, path, items, filter, k);
    if items[j].isDirectory {
      var sub := descend(items[j]).value;
      var chain', i' := WalkResultIsListed(list, rank, descend, sub, filter, m);
      chain, i := [j] + chain', i';
      assert ([j] + chain')[1..] == chain';
    } else {
      chain, i := [], j;
    }
  }

  /** The outcome of a walk ignoring which exception ended it. */
  function Payload(r: Listed): Option<seq<StorageObject>> {
    match r
    case Success(v) => Some(v)
    case Failure(_) => None
  }

  /** Filtering an already flattened list of files, in order. */
  function FilterFiles(files: seq<StorageObject>, filter: Option<string>): (r: Listed)
    decreases |files|
  {
    if files == [] then Success([])
    else Concat(Keep(files[0], filter), FilterFiles(files[1..], filter))
  }

  function FilterListed(r: Listed, filter: Option<string>): Listed {
    match r
    case Failure(e) => Failure(e)
    case Success(files) => FilterFiles(files, filter)
  }

  /** A catch-all filter keeps every entry. */
  lemma {:induction false} FilterFilesCatchAll(files: seq<StorageObject>, filter: Option<string>)
    requires IsCatchAll(filter)
    ensures FilterFiles(files, filter) == Success(files)
    decreases |files|
  {
    if files != [] {
      FilterFilesCatchAll(files[1..], filter);
      assert [files[0]] + files[1..] == files;
    }
  }

  lemma {:induction false} FilterFilesAppend(a: seq<StorageObject>, b: seq<StorageObject>, filter: Option<string>)
    ensures FilterFiles(a + b, filter) == Concat(FilterFiles(a, filter), FilterFiles(b, filter))
    decreases |a|
  {
    if a == [] {
      assert a + b == b;
      var fb := FilterFiles(b, filter);
      if fb.Success? {
        assert [] + fb.value == fb.value;
      }
    } else {
      assert (a + b)[0] == a[0];
      assert (a + b)[1..] == a[1..] + b;
      FilterFilesAppend(a[1..], b, filter);
      ConcatAssociative(Keep(a[0], filter), FilterFiles(a[1..], filter), FilterFiles(b, filter));
    }
  }

  lemma FilterListedConcat(a: Listed, b: Listed, filter: Option<string>)
    ensures Payload(FilterListed(Concat(a, b), filter))
            == Payload(Concat(FilterListed(a, filter), FilterListed(b, filter)))
  {
    if a.Success? && b.Success? {
      FilterFilesAppend(a.value, b.value, filter);
    }
  }

  /**
   * Filtering while walking is filtering the unfiltered walk: the filtered
   * walk succeeds exactly when the unfiltered walk and the filtering of its
   * result both do, with the same list.
   */
  lemma {:induction false} StepIsFilteredStep(list: Lister, rank: string -> nat, descend: Descend, parent: string,
                                              item: StorageObject, filter: Option<string>)
    requires WellFounded(list, rank, descend)
    requires Ranked(rank, descend, parent, item)
    ensures Payload(Step(list, rank, descend, parent, item, filter))
            == Payload(FilterListed(Step(list, rank, descend, parent, item, None), filter))
    decreases rank(parent), 0, 0
  {
    if item.isDirectory {
      if descend(item).Success? {
        WalkIsFilteredWalk(list, rank, descend, descend(item).value, filter);
      }
    } else {
      var k := Keep(item, filter);
      assert FilterFiles([item], filter) == Concat(k, FilterFiles([], filter));
      if k.Success? {
        assert k.value + [] == k.value;
      }
    }
  }

  lemma {:induction false} WalkItemsIsFilteredWalkItems(list: Lister, rank: string -> nat, descend: Descend,
                                                        parent: string, items: seq<StorageObject>,
                                                        filter: Option<string>)
    requires WellFounded(list, rank, descend)
    requires forall k :: 0 <= k < |items| ==> Ranked(rank, descend, parent, items[k])
    ensures Payload(WalkItems(list, rank, descend, parent, items, filter))
            == Payload(FilterListed(WalkItems(list, rank, descend, parent, items, None), filter))
    decreases rank(parent), 0, |items|
  {
    if items != [] {
      var a := Step(list, rank, descend, parent, items[0], None);
      var b := WalkItems(list, rank, descend, parent, items[1..], None);
      StepIsFilteredStep(list, rank, descend, parent, items[0], filter);
      WalkItemsIsFilteredWalkItems(list, rank, descend, parent, items[1..], filter);
      FilterListedConcat(a, b, filter);
    }
  }

  lemma {:induction false} WalkIsFilteredWalk(list: Lister, rank: string -> nat, descend: Descend,
                                              path: string, filter: Option<string>)
    requires WellFounded(list, rank, descend)
    ensures Payload(Walk(list, rank, descend, path, filter))
            == Payload(FilterListed(Walk(list, rank, descend, path, None), filter))
    decreases rank(path), 1
  {
    if list(path).Success? {
      var items := Children(list, path);
      WalkItemsIsFilteredWalkItems(list, rank, descend, path, items, filter);
    }
  }

  /** The one-argument overload (filter null) lists every file, and any catch-all filter does the same. */
  lemma CatchAllWalkIsUnfilteredWalk(list: Lister, rank: string -> nat, descend: Descend,
                                     path: string, filter: Option<string>)
    requires WellFounded(list, rank, descend)
    requires IsCatchAll(filter)
    ensures Payload(Walk(list, rank, descend, path, filter)) == Payload(Walk(list, rank, descend, path, None))
  {
    WalkIsFilteredWalk(list, rank, descend, path, filter);
    var all := Walk(list, rank, descend, path, None);
    if all.Success? {
      FilterFilesCatchAll(all.value, filter);
    }
  }
}
