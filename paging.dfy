/** Pagination of a listing (main.go, `getFolderPage`/`getPage` and `listFolder`/`listDrive`).

    The remote service is an oracle `Lister`: for each request, the response `p.Call` finally
    settles on once the pacer has done its retries. `Paginate` is the specification of the
    listing loop; `IsRunFrom` and `Collected` describe a complete listing independently of it. */
module Paging {
  import opened Wrappers
  import opened Errors
  import opened Query

  /** A listed item, with the four fields the listing asks for. */
  datatype File = File(id: string, name: string, mimeType: string, explicitlyTrashed: bool)

  /** A folder: an item the walk can recurse into. */
  predicate IsFolder(f: File) {
    f.mimeType == FolderMimeType
  }

  /** What the pacer-wrapped `Files.List(...).Do()` call finally yields. */
  datatype Response = Page(items: seq<File>, nextPageToken: string) | Failed(err: Error)

  type Lister = Request -> Response

  /** The triple a page fetcher returns: files, next token, error. */
  datatype Fetched = Fetched(files: seq<File>, next: string, err: Option<Error>)

  /** One page fetch for filter `q` continuing from `token`. A failure comes back wrapped, with
      no files and an empty next token; a success hands on the page's files and token. */
  function PageAt(list: Lister, q: string, token: string): (r: Fetched)
    ensures r.err.Some? <==> list(MakeRequest(q, token)).Failed?
    ensures r.err.Some? ==>
              r == Fetched([], "", Some(Unretrievable(list(MakeRequest(q, token)).err)))
    ensures r.err.None? ==>
              r.files == list(MakeRequest(q, token)).items &&
              r.next == list(MakeRequest(q, token)).nextPageToken
  {
    match list(MakeRequest(q, token))
    case Failed(e) => Fetched([], "", Some(Unretrievable(e)))
    case Page(items, next) => Fetched(items, next, None)
  }

  /** The listing for `q` from `token` stops within `n` fetches: some fetch among the first
      `n` fails or returns an empty next token. The service promises this; the code relies on
      it, since a token chain that never ends makes the listing loop run forever. */
  predicate EndsWithin(list: Lister, q: string, token: string, n: nat)
    decreases n
  {
    n > 0 &&
    var p := PageAt(list, q, token);
    p.err.Some? || p.next == "" || EndsWithin(list, q, p.next, n - 1)
  }

  /** Outcome of a whole listing: the files gathered, the error it stopped on (if any), and the
      page tokens it fetched, in order. */
  datatype Listed = Listed(files: seq<File>, err: Option<Error>, fetched: seq<string>)

  /** The listing loop from `token`: fetch, append, and go on while the next token is not
      empty and no fetch has failed. */
  function Paginate(list: Lister, q: string, token: string, n: nat): (r: Listed)
    requires EndsWithin(list, q, token, n)
    ensures |r.fetched| >= 1 && r.fetched[0] == token
    decreases n
  {
    var p := PageAt(list, q, token);
    if p.err.Some? || p.next == "" then
      Listed(p.files, p.err, [token])
    else
      var rest := Paginate(list, q, p.next, n - 1);
      Listed(p.files + rest.files, rest.err, [token] + rest.fetched)
  }

  /** One step of the listing loop: the fetch at `token` either ends it or hands on to the
      listing from the next token. */
  lemma PaginateStep(list: Lister, q: string, token: string, n: nat)
    requires EndsWithin(list, q, token, n)
    ensures var p := PageAt(list, q, token);
            if p.err.Some? || p.next == "" then
              Paginate(list, q, token, n) == Listed(p.files, p.err, [token])
            else
              EndsWithin(list, q, p.next, n - 1) &&
              var rest := Paginate(list, q, p.next, n - 1);
              Paginate(list, q, token, n) == Listed(p.files + rest.files, rest.err, [token] + rest.fetched)
  {
  }

  /** The state of the listing loop with `files` gathered, `err` seen and `fetched` fetched,
      and `token` the next page to ask for: while the loop goes on, the rest of the listing
      from `token` completes `whole`; once it stops, `whole` is what it has. */
  ghost predicate Midway(list: Lister, q: string, whole: Listed, files: seq<File>, err: Option<Error>,
                         fetched: seq<string>, token: string, m: nat)
  {
    if token != "" && err.None? then
      EndsWithin(list, q, token, m) &&
      var rest := Paginate(list, q, token, m);
      whole == Listed(files + rest.files, rest.err, fetched + rest.fetched)
    else
      whole == Listed(files, err, fetched)
  }

  /** One step of the listing loop: when the listing from `token` completes `whole`, fetching
      `token` leaves the loop in a state from which the rest still completes it. */
  lemma LoopStep(list: Lister, q: string, whole: Listed, files: seq<File>, fetched: seq<string>,
                 token: string, m: nat, page: Fetched)
    requires EndsWithin(list, q, token, m)
    requires whole == Listed(files + Paginate(list, q, token, m).files,
                             Paginate(list, q, token, m).err,
                             fetched + Paginate(list, q, token, m).fetched)
    requires page == PageAt(list, q, token)
    ensures m > 0 && Midway(list, q, whole, files + page.files, page.err, fetched + [token], page.next, m - 1)
  {
    PaginateStep(list, q, token, m);
    if page.next != "" && page.err.None? {
      var rest := Paginate(list, q, page.next, m - 1);
      assert files + (page.files + rest.files) == files + page.files + rest.files;
      assert fetched + ([token] + rest.fetched) == fetched + [token] + rest.fetched;
    }
  }

  /** The first fetch of the listing loop: fetching the empty token starts it in a state from
      which the rest completes the whole listing. */
  lemma ListStart(list: Lister, q: string, n: nat, page: Fetched)
    requires EndsWithin(list, q, "", n)
    requires page == PageAt(list, q, "")
    ensures n > 0 && Midway(list, q, Paginate(list, q, "", n), page.files, page.err, [""], page.next, n - 1)
  {
    var whole := Paginate(list, q, "", n);
    assert [] + whole.files == whole.files && [] + whole.fetched == whole.fetched;
    LoopStep(list, q, whole, [], [], "", n, page);
    assert [] + page.files == page.files && [] + [""] == [""];
  }

  /** Fetching `token` yields a page that sends the listing on to `next`. */
  predicate Continues(list: Lister, q: string, token: string, next: string) {
    var r := list(MakeRequest(q, token));
    r.Page? && r.nextPageToken == next && next != ""
  }

  /** Fetching `token` ends the listing: it fails, or its page has no next token. */
  predicate Stops(list: Lister, q: string, token: string) {
    var r := list(MakeRequest(q, token));
    r.Failed? || r.nextPageToken == ""
  }

  /** `ts` is the sequence of tokens a complete listing from `token` fetches: each fetch but
      the last continues to the next token, and the last one stops. */
  ghost predicate IsRunFrom(list: Lister, q: string, token: string, ts: seq<string>) {
    |ts| > 0 && ts[0] == token &&
    (forall i :: 0 < i < |ts| ==> Continues(list, q, ts[i - 1], ts[i])) &&
    Stops(list, q, ts[|ts| - 1])
  }

  /** The items of the page fetched at `token`; a failed fetch contributes none. */
  function ItemsAt(list: Lister, q: string, token: string): seq<File> {
    match list(MakeRequest(q, token))
    case Page(items, _) => items
    case Failed(_) => []
  }

  /** The items of the pages fetched at `ts`, concatenated in order. */
  function Collected(list: Lister, q: string, ts: seq<string>): seq<File> {
    if ts == [] then [] else ItemsAt(list, q, ts[0]) + Collected(list, q, ts[1..])
  }

  /** The error a listing reports when its fetch at `token` is the one that stops it. */
  function StopError(list: Lister, q: string, token: string): Option<Error> {
    match list(MakeRequest(q, token))
    case Failed(e) => Some(Unretrievable(e))
    case Page(_, _) => None
  }

  /** The listing loop fetches exactly a complete run of tokens, returns the in-order
      concatenation of the pages it got, and reports an error exactly when its last fetch
      failed (the pages before it are kept). */
  lemma {:induction false} PaginateIsRun(list: Lister, q: string, token: string, n: nat)
    requires EndsWithin(list, q, token, n)
    ensures var r := Paginate(list, q, token, n);
      IsRunFrom(list, q, token, r.fetched) &&
      r.files == Collected(list, q, r.fetched) &&
      r.err == StopError(list, q, r.fetched[|r.fetched| - 1])
    decreases n
  {
    var p := PageAt(list, q, token);
    if p.err.Some? || p.next == "" {
      LastPage(list, q, token, n);
    } else {
      PaginateIsRun(list, q, p.next, n - 1);
      NextPage(list, q, token, n);
    }
  }

  /** A listing whose first fetch stops it is that one fetch. */
  lemma LastPage(list: Lister, q: string, token: string, n: nat)
    requires EndsWithin(list, q, token, n)
    requires PageAt(list, q, token).err.Some? || PageAt(list, q, token).next == ""
    ensures var r := Paginate(list, q, token, n);
      r.fetched == [token] && IsRunFrom(list, q, token, [token]) &&
      r.files == Collected(list, q, [token]) && r.err == StopError(list, q, token)
  {
    assert Collected(list, q, [token]) == ItemsAt(list, q, token) + Collected(list, q, []);
  }

  /** A listing whose first fetch continues it is that fetch followed by the listing from the
      next token. */
  lemma NextPage(list: Lister, q: string, token: string, n: nat)
    requires EndsWithin(list, q, token, n)
    requires PageAt(list, q, token).err.None? && PageAt(list, q, token).next != ""
    requires var rest := Paginate(list, q, PageAt(list, q, token).next, n - 1);
      IsRunFrom(list, q, PageAt(list, q, token).next, rest.fetched) &&
      rest.files == Collected(list, q, rest.fetched) &&
      rest.err == StopError(list, q, rest.fetched[|rest.fetched| - 1])
    ensures var r := Paginate(list, q, token, n);
      IsRunFrom(list, q, token, r.fetched) &&
      r.files == Collected(list, q, r.fetched) &&
      r.err == StopError(list, q, r.fetched[|r.fetched| - 1])
  {
    var p := PageAt(list, q, token);
    var r := Paginate(list, q, token, n);
    var rest := Paginate(list, q, p.next, n - 1);
    var ts := r.fetched;
    assert ts == [token] + rest.fetched && ts[1..] == rest.fetched;
    assert ts[|ts| - 1] == rest.fetched[|rest.fetched| - 1];
    assert r.files == Collected(list, q, ts) by {
      assert Collected(list, q, ts) == ItemsAt(list, q, token) + Collected(list, q, rest.fetched);
    }
    assert Continues(list, q, token, rest.fetched[0]);
    forall i | 0 < i < |ts|
      ensures Continues(list, q, ts[i - 1], ts[i])
    {
      if i > 1 {
        assert ts[i - 1] == rest.fetched[i - 2] && ts[i] == rest.fetched[i - 1];
      }
    }
  }

  /** A complete run from a token is unique: a listing has only one way to go. */
  lemma {:induction false} RunIsUnique(list: Lister, q: string, token: string, ts: seq<string>, us: seq<string>)
    requires IsRunFrom(list, q, token, ts) && IsRunFrom(list, q, token, us)
    ensures ts == us
    decreases |ts|
  {
    assert |ts| > 1 ==> Continues(list, q, ts[0], ts[1]);
    assert |us| > 1 ==> Continues(list, q, us[0], us[1]);
    if Stops(list, q, token) {
      assert |ts| == 1 && |us| == 1;
    } else {
      assert |ts| > 1 && |us| > 1 && ts[1] == us[1];
      assert forall i :: 0 < i < |ts[1..]| ==> ts[1..][i - 1] == ts[i] && ts[1..][i] == ts[i + 1];
      assert forall i :: 0 < i < |us[1..]| ==> us[1..][i - 1] == us[i] && us[1..][i] == us[i + 1];
      RunIsUnique(list, q, ts[1], ts[1..], us[1..]);
      assert ts == [ts[0]] + ts[1..] && us == [us[0]] + us[1..];
    }
  }

  /** A first fetch that fails ends the listing at once with that error (wrapped) and no
      files; no second fetch is made. */
  lemma FirstFetchFails(list: Lister, q: string, n: nat)
    requires EndsWithin(list, q, "", n)
    requires list(MakeRequest(q, "")).Failed?
    ensures Paginate(list, q, "", n) == Listed([], Some(Unretrievable(list(MakeRequest(q, "")).err)), [""])
  {
  }
}
