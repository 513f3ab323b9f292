/** The restore tool's remote-facing code (main.go): the page fetchers, the listing loops,
    the restore walk and the per-argument dispatch of `main`, as methods of the client they
    run against. Each method is proved against its specification in `Paging` or `Walk`. */
module Drive {
  import opened Wrappers
  import opened Errors
  import opened Query
  import opened Paging
  import opened Walk

  /** The Drive client together with its pacer. The two remote calls are oracles that give the
      outcome `p.Call` settles on; `trace` records every pacer-wrapped call made and every
      failure logged. */
  class Service {
    const list: Lister
    const untrash: Updater
    var trace: seq<Event>

    constructor (list: Lister, untrash: Updater)
      ensures this.list == list && this.untrash == untrash && trace == []
    {
      this.list := list;
      this.untrash := untrash;
      trace := [];
    }

    /** `getFolderPage` / `getPage`: one listing call for filter `q`, continuing from `token`
        when it is not empty. A failure is wrapped and comes with no files and no token. */
    method GetPage(q: string, token: string) returns (files: seq<File>, next: string, err: Option<Error>)
      modifies this
      ensures Fetched(files, next, err) == PageAt(list, q, token)
      ensures trace == old(trace) + [Fetch(MakeRequest(q, token))]
    {
      var call := MakeRequest(q, token);
      trace := trace + [Fetch(call)];
      var response := list(call);
      match response
      case Failed(e) =>
        files, next, err := [], "", Some(Unretrievable(e));
      case Page(items, nextPageToken) =>
        files, next, err := items, nextPageToken, None;
    }

    /** The loop of `listFolder` / `listDrive`: fetch the first page, give up at once if that
        fails, then follow the continuation tokens, appending each page, until a page has no
        next token or a fetch fails. */
    method ListAll(q: string, ghost n: nat) returns (files: seq<File>, err: Option<Error>)
      requires EndsWithin(list, q, "", n)
      modifies this
      ensures files == Paginate(list, q, "", n).files && err == Paginate(list, q, "", n).err
      ensures trace == old(trace) + FetchEvents(q, Paginate(list, q, "", n).fetched)
    {
      var pageToken;
      ghost var whole := Paginate(list, q, "", n);
      files, pageToken, err := GetPage(q, "");
      ghost var fetched: seq<string> := [""];
      ListStart(list, q, n, PageAt(list, q, ""));
      ghost var m: nat := n - 1;
      assert trace == old(trace) + FetchEvents(q, fetched) by {
        assert FetchEvents(q, [""]) == [Fetch(MakeRequest(q, ""))];
      }
      if err.Some? {
        return;
      }
      while pageToken != "" && err.None?
        invariant trace == old(trace) + FetchEvents(q, fetched)
        invariant Midway(list, q, whole, files, err, fetched, pageToken, m)
        decreases m
      {
        ghost var token := pageToken;
        ghost var filesBefore := files;
        ghost var fetchedBefore := fetched;
        var f;
        f, pageToken, err := GetPage(q, pageToken);
        LoopStep(list, q, whole, filesBefore, fetchedBefore, token, m, Fetched(f, pageToken, err));
        FetchEventsSnoc(q, fetchedBefore, token);
        files := files + f;
        fetched := fetched + [token];
        m := m - 1;
      }
    }

    /** `listFolder`: every page of the listing of one folder. */
    method ListFolder(folderId: string, ghost n: nat) returns (files: seq<File>, err: Option<Error>)
      requires EndsWithin(list, FolderQuery(folderId), "", n)
      modifies this
      ensures files == SubListing(list, folderId, n).files && err == SubListing(list, folderId, n).err
      ensures trace == old(trace) + FetchEvents(FolderQuery(folderId), SubListing(list, folderId, n).fetched)
    {
      files, err := ListAll(FolderQuery(folderId), n);
    }

    /** `listDrive`: every page of the whole-drive listing. */
    method ListDrive(ghost n: nat) returns (files: seq<File>, err: Option<Error>)
      requires EndsWithin(list, DriveQuery(), "", n)
      modifies this
      ensures files == Paginate(list, DriveQuery(), "", n).files && err == Paginate(list, DriveQuery(), "", n).err
      ensures trace == old(trace) + FetchEvents(DriveQuery(), Paginate(list, DriveQuery(), "", n).fetched)
    {
      files, err := ListAll(DriveQuery(), n);
    }

    /** `restoreTrashed`: walk the children in listing order, each one as `RestoreChild` does.
        Nothing is remembered between children or between levels. */
    method RestoreTrashed(childs: seq<File>, recurse: bool, ghost d: nat, ghost n: nat)
      requires Bounded(list, childs, recurse, d, n)
      modifies this
      ensures trace == old(trace) + WalkTrace(list, untrash, childs, recurse, d, n)
      decreases d, 1
    {
      var i := 0;
      while i < |childs|
        invariant 0 <= i <= |childs|
        invariant Bounded(list, childs[..i], recurse, d, n)
        invariant trace == old(trace) + WalkTrace(list, untrash, childs[..i], recurse, d, n)
      {
        WalkSnoc(list, untrash, childs, i, recurse, d, n);
        ghost var walked := WalkTrace(list, untrash, childs[..i], recurse, d, n);
        RestoreChild(childs[i], recurse, d, n);
        Regroup3(old(trace), walked, ChildTrace(list, untrash, childs[i], recurse, d, n));
        i := i + 1;
      }
      assert childs[..|childs|] == childs;
    }

    /** The body of the loop in `restoreTrashed` for child `c`: untrash it if it is explicitly
        trashed (logging a failure and going on), then, when recursing into a folder, list it
        and walk its children, or log the failed listing and go on. */
    method RestoreChild(c: File, recurse: bool, ghost d: nat, ghost n: nat)
      requires ChildBounded(list, c, recurse, d, n)
      modifies this
      ensures trace == old(trace) + ChildTrace(list, untrash, c, recurse, d, n)
      decreases d, 0
    {
      if c.explicitlyTrashed {
        trace := trace + [Untrash(c.id)];
        var err := untrash(c.id);
        if err.Some? {
          trace := trace + [UntrashFailed(c.id, c.name, err.value)];
        }
      }
      assert trace == old(trace) + UntrashTrace(untrash, c);
      ChildTraceParts(list, untrash, c, recurse, d, n);
      if recurse && IsFolder(c) {
        ghost var own := trace;
        ghost var sub := SubListing(list, c.id, n);
        var dchilds, err := ListFolder(c.id, n);
        ghost var listed := trace;
        assert listed == own + FetchEvents(FolderQuery(c.id), sub.fetched);
        if err.Some? {
          trace := trace + [ChildListFailed(c.name, err.value)];
        } else {
          RestoreTrashed(dchilds, recurse, d - 1, n);
        }
        assert trace == listed + AfterListing(list, untrash, c, recurse, d, n);
        Regroup(old(trace), UntrashTrace(untrash, c), FetchEvents(FolderQuery(c.id), sub.fetched),
                AfterListing(list, untrash, c, recurse, d, n));
      }
    }

    /** The dispatch at the end of `main`: restore each folder given, or, when none is, the
        whole drive. A folder whose listing fails is logged and skipped; a failed whole-drive
        listing halts the run with its error. */
    method Run(args: seq<string>, ghost d: nat, ghost n: nat) returns (fatal: Option<Error>)
      requires RunBounded(list, args, d, n)
      modifies this
      ensures trace == old(trace) + RunSpec(list, untrash, args, d, n).trace
      ensures fatal == RunSpec(list, untrash, args, d, n).fatal
    {
      if |args| > 0 {
        var i := 0;
        while i < |args|
          invariant 0 <= i <= |args|
          invariant FoldersBounded(list, args[..i], d, n)
          invariant trace == old(trace) + ArgsTrace(list, untrash, args[..i], d, n)
        {
          assert args[..i + 1] == args[..i] + [args[i]];
          ArgsTraceSnoc(list, untrash, args[..i], args[i], d, n);
          ghost var done := ArgsTrace(list, untrash, args[..i], d, n);
          RestoreFolder(args[i], d, n);
          Regroup3(old(trace), done, FolderTrace(list, untrash, args[i], d, n));
          i := i + 1;
        }
        assert args[..|args|] == args;
        fatal := None;
      } else {
        ghost var l := Paginate(list, DriveQuery(), "", n);
        var files, err := ListDrive(n);
        if err.Some? {
          return err;
        }
        RestoreTrashed(files, true, d, n);
        Regroup3(old(trace), FetchEvents(DriveQuery(), l.fetched), WalkTrace(list, untrash, l.files, true, d, n));
        fatal := None;
      }
    }

    /** One folder given as an argument: list it, then walk its children recursively, or log
        the failed listing and go on. */
    method RestoreFolder(folderId: string, ghost d: nat, ghost n: nat)
      requires RootBounded(list, FolderQuery(folderId), d, n)
      modifies this
      ensures trace == old(trace) + FolderTrace(list, untrash, folderId, d, n)
    {
      ghost var l := Paginate(list, FolderQuery(folderId), "", n);
      var files, err := ListFolder(folderId, n);
      ghost var fetches := FetchEvents(FolderQuery(folderId), l.fetched);
      if err.Some? {
        trace := trace + [FolderListFailed(folderId, err.value)];
        Regroup3(old(trace), fetches, [FolderListFailed(folderId, err.value)]);
      } else {
        RestoreTrashed(files, true, d, n);
        Regroup3(old(trace), fetches, WalkTrace(list, untrash, l.files, true, d, n));
      }
    }
  }
}
