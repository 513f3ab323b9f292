# drive-untrash, modelled in Dafny

drive-untrash restores items of a Google Drive that were moved to the trash. It lists a
folder (or the whole drive) page by page. Each item marked `explicitlyTrashed` gets an update
call that sends `Trashed: false` for it. It then walks every subfolder it found, and the subfolders
below those. All of the decision logic lives in one Go file, `main.go`. This project models
that logic and proves what it does:

- the retry classifier handed to the rate-limiting pacer (`shouldRetry`);
- the listing requests the tool builds (`getFolderPage` and `getPage`): the query text, the
  page size, the requested fields, and the page token;
- the two pagination loops (`listFolder` and `listDrive`), which follow continuation tokens
  until a page has no next token or a fetch fails;
- the restore walk (`restoreTrashed`): depth-first, sequential, in listing order;
- the dispatch at the end of `main`: each folder given on the command line, or else the
  whole drive.

The remote service is not modelled. It is replaced by two oracles that give the outcome a
pacer-wrapped call finally settles on:
- `Lister` maps a listing `Request` to a page or an error;
- `Updater` maps an item id to `None` (the update call succeeded) or its final error.

The class `Drive.Service` holds the two oracles. Its field `trace` records every pacer-wrapped
call made and every failure line logged, in order. Its methods are the Go functions:
- they are written imperatively, with the same loops and branches;
- each is proved against a specification function on values (`Paging.Paginate`,
  `Walk.WalkTrace`, `Walk.RunSpec`);
- lemmas state what those functions promise.

The code does not always do what a general description of this tool would suggest. The model
follows the code:
- It is sequential. It has no worker pool and no completion barrier.
- It keeps no set of visited folders. A folder reachable through two parents is listed and
  walked twice (`Walk.SharedFolderWalkedTwice`; what the second listing returns is the
  oracle's answer, see "Left out"). A folder that contains itself is walked
  forever (`Walk.CycleNeverBounded`).
- It keeps no counters of folders or items restored.
- A failed whole-drive listing halts the process (`log.Fatalf`). It is not logged and
  skipped.

A listing terminates only if its token chain ends. The walk terminates only if the folder
graph below the start has no cycle. The model therefore takes two ghost bounds, both promised
by the caller:
- `n`, the number of pages a listing may take (`Paging.EndsWithin`);
- `d`, the depth of folders walked (`Walk.Bounded`, `Walk.RunBounded`).

Go's `nil` slice is the empty sequence. A Go `error` is `Option<Error>`, where `None` stands
for `nil`.

## Model

| member | source | states |
|---|---|---|
| Errors.ShouldRetry | main.go:60-74 | The error is always returned unchanged. Only an API error can be retried. An API error with a 5xx code is retried whatever its reasons. Any other API error is retried iff it has at least one reason and the first is `rateLimitExceeded` or `userRateLimitExceeded`. |
| Errors.OnlyFirstReasonInspected | main.go:66-70 | Two API errors with the same code and the same first reason are classified alike; later reasons never matter. |
| Query.FolderQuery | main.go:82 | The folder id can be read back from a folder query. The whole-drive filter is its parenthesised tail. |
| Query.ParentOf | main.go:82 | When it finds a folder id, the query is exactly that id quoted and followed by the folder-query suffix. |
| Query.FolderQueryInjective | main.go:82 | Distinct folder ids give distinct queries. |
| Query.DriveQuery | main.go:120 | The whole-drive filter: folders (to recurse into) or trashed items, with no parent clause. |
| Query.DriveQueryHasNoParent | main.go:120 | No folder id can be read out of the whole-drive filter: unlike the folder query, it names no parent. |
| Query.MakeRequest | main.go:82-85 | A listing request asks for pages of 1000 with the four file fields and the next-page token. It carries a page token iff the token is non-empty, and the token can be read back. |
| Paging.PageAt | main.go:81-93 | A fetch fails iff the service fails. A failure yields no files, an empty token and the wrapped error. A success yields the page's files and next token, with no error. |
| Paging.EndsWithin | main.go:103 | The termination assumption on the listing loop: within `n` fetches from the token, some fetch fails or returns an empty next token. |
| Paging.Paginate | main.go:95-111 | The listing from a token fetches that token first (`listFolder` and `listDrive` start from the empty token). |
| Paging.PaginateIsRun | main.go:103-111 | The tokens fetched form a complete run: each fetch but the last continues to the next token, and the last one stops. The files are the in-order concatenation of the pages fetched; a failed fetch adds none. The error is the wrapped failure of the last fetch, or none. |
| Paging.RunIsUnique | main.go:103 | Only one complete run starts from a given token, so `PaginateIsRun` fixes the fetch sequence exactly. |
| Paging.FirstFetchFails | main.go:96-99 | If the first fetch fails, the listing makes that one fetch and returns no files and the wrapped error. |
| Paging.ListStart | main.go:96-99 | After the first fetch, the loop state is one from which the rest of the listing completes the whole listing. |
| Paging.LoopStep | main.go:103-110 | One iteration of the loop preserves that state; the fuel left decreases. |
| Walk.FetchEvents | main.go:105 | The listing calls for a token sequence: one call per token, in order, each request built for that token. |
| Walk.FetchEventsAreListings | main.go:103-106 | Listing calls contain no untrash call. They are all remote calls, and their requests are exactly the requests for the fetched tokens, in order. |
| Walk.UntrashTrace | main.go:33-46 | The untrash part of one child: nothing unless it is explicitly trashed; otherwise its update call first, followed by one failure line exactly when that call fails. |
| Walk.ChildTrace | main.go:33-56 | One pass of the loop body for a child: its untrash part, then, only for a folder when recursing, its listing calls and what follows them. |
| Walk.AfterListing | main.go:50-55 | What follows a subfolder's listing: one failure line naming the child when the listing failed, else the walk of its children one level down. |
| Walk.WalkTrace | main.go:28-58 | The specification of `restoreTrashed`: the children's parts, one after the other in listing order, with nothing remembered between them. |
| Walk.WalkAppend | main.go:32-57 | Siblings are walked independently: the walk of `a + b` is the walk of `a` followed by the walk of `b`. |
| Walk.OwnUntrashTrace | main.go:33-47 | A child's untrash part has one untrash call iff the child is explicitly trashed, and no listing. |
| Walk.ChildUntrashes | main.go:33-56 | A child's untrash calls are its own (if it is explicitly trashed) followed by those of its subtree. The subtree is walked only for a folder, only when recursing, and only when its listing succeeded. A failed untrash adds nothing and stops nothing. |
| Walk.FlatWalk | main.go:32-47 | Without recursion, the walk untrashes exactly the explicitly trashed children, in listing order, and lists nothing. |
| Walk.TrashedChildrenInOrder | main.go:32-47 | With or without recursion, every explicitly trashed child is untrashed, in listing order, whatever the outcome of earlier calls. |
| Walk.OnlyFoldersListed | main.go:49-50 | A child that is not a folder, or any child when not recursing, causes no listing. A folder, when recursing, is listed from its first page before anything else in its subtree. |
| Walk.ListingFailureSkipsSubtree | main.go:49-54 | When a subfolder's listing fails, that child's part is its own untrash call, its listing calls, and a final failure line naming it. Nothing of its subtree is untrashed. |
| Walk.WalkCallsIgnoreOutcomes | main.go:40-46 | No branch of the walk depends on an untrash outcome: given the same listing answers, whether untrash calls succeed never changes which remote calls the walk makes, or their order. |
| Walk.ChildCallsIgnoreOutcomes | main.go:33-56 | The same, for one child. |
| Walk.AfterListingCallsIgnoreOutcomes | main.go:50-55 | The same, for the part after a subfolder's listing. |
| Walk.ChildCalls | main.go:33-56 | A child's remote calls are its untrash call, then (for a folder, when recursing) its listing calls and the calls of its subtree. |
| Walk.SharedFolderWalkedTwice | main.go:49-55 | Let root hold A then B, and let A hold B. Then B is listed twice, with the same request. Because the listing oracle answers that request the same way both times, the trashed file in B is untrashed twice. |
| Walk.CycleNeverBounded | main.go:49-55 | If a folder lists itself as its own child, no depth bound covers the walk: it would not terminate. |
| Walk.FolderTrace | main.go:248-253 | One folder argument: its listing calls, then either a failure line naming the folder or the recursive walk of what it listed. |
| Walk.ArgsTrace | main.go:247-254 | The folder arguments' parts in command-line order; a failure on one does not stop the next. |
| Walk.RunSpec | main.go:246-261 | A run halts with an error only when no folder was given and the whole-drive listing failed. That error is the listing's, and no untrash was issued. With no arguments and no error, the whole-drive listing succeeded. |
| Walk.ArgsAppend | main.go:247-254 | Folder arguments are handled one after another with nothing carried over. The run over `a + b` is the run over `a` followed by the run over `b`. |
| Drive.Service.GetPage | main.go:76-94 | `getFolderPage` and `getPage` (main.go:114-133): one listing call is recorded, and the result is `PageAt` for that query and token. |
| Drive.Service.ListAll | main.go:95-111 | The loop shared by `listFolder` and `listDrive` returns the files and error of `Paginate`. The trace gains one listing call per token `Paginate` fetches, in order. |
| Drive.Service.ListFolder | main.go:95-112 | Lists a folder with the folder query. |
| Drive.Service.ListDrive | main.go:134-152 | Lists the whole drive with the whole-drive query. |
| Drive.Service.RestoreTrashed | main.go:28-58 | The trace gains exactly `WalkTrace` of the children. |
| Drive.Service.RestoreChild | main.go:33-56 | One pass of the loop body: the trace gains exactly `ChildTrace` of the child. |
| Drive.Service.RestoreFolder | main.go:247-254 | One folder argument: the trace gains the folder's listing calls, then its walk, or the failure line when the listing failed. |
| Drive.Service.Run | main.go:246-261 | The dispatch of `main`: the trace gains exactly `RunSpec`'s trace, and the fatal error returned is `RunSpec`'s. |

## Left out

- OAuth: the authorisation flow, the token cache file and the client-secret file
  (main.go:154-217, 229-244). These are file I/O, terminal input and foreign library calls.
- The pacer's internals: the backoff curve, the retry budget of 5 and the 10-connection cap
  (main.go:221-224). It is a library not shown. Each pacer-wrapped call is modelled by the
  outcome it finally settles on. `Errors.ShouldRetry` is the classifier the pacer is given.
- The Drive client calls themselves (`Files.List().Do()`, `Files.Update().Do()`). They are
  network I/O, replaced by the `Lister` and `Updater` oracles.
- The remote store is treated as unchanging during a run. The same request always gets the
  same answer, although a live store's answer to a listing filtered on `trashed = true`
  (main.go:82) drops an item once an earlier untrash has restored it.
- Walk.SharedFolderWalkedTwice: that `F` is untrashed twice holds only under the unchanging
  store; that `B` is listed twice is the code's own behaviour.
- Walk.WalkCallsIgnoreOutcomes: the calls are the same only for the same listing answers; a
  live store could answer a later listing differently after an untrash took effect.
- Verbose logging and the `-v` flag (main.go:25, 29-31, 34-36, 100-102, 107-109, 139-141, 147-149). Also the
  `parent` argument of `restoreTrashed`, which is used only in that logging. Only the failure
  lines are recorded in the trace.
- `log.Fatalf` ends the process. Here it is a fatal error returned by `Drive.Service.Run`.
  Client creation failing (main.go:241-244) is not part of this model.
- A token chain that never ends, and a folder graph with a cycle: both loop forever in the
  code. The model requires the bounds `n` and `d` instead. `Walk.CycleNeverBounded` shows
  that a cycle admits no such bound.
- Concurrency, a completion barrier, a visited set and counters: the code has none of them.
- Paging.Paginate: its own contract states only the first token fetched. What the listing
  returns is stated by `Paging.PaginateIsRun`, `Paging.RunIsUnique` and
  `Paging.FirstFetchFails`.
