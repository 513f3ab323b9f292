/** The listing requests the tool sends (main.go, `getFolderPage` and `getPage`). */
module Query {
  import opened Wrappers

  /** The MIME type Drive gives to folders. */
  const FolderMimeType := "application/vnd.google-apps.folder"

  /** Every listing asks for the largest page the API serves. */
  const PageSize := 1000

  /** The partial response asked for: the continuation token and four fields per file. */
  const Fields := ["nextPageToken", "files(id, name, mimeType, explicitlyTrashed)"]

  /** The filter of the whole-drive listing: folders (to recurse into) or trashed items. */
  function DriveQuery(): string {
    "mimeType = '" + FolderMimeType + "' or trashed = true"
  }

  /** What follows the folder id in a folder query. */
  function FolderQuerySuffix(): string {
    "' in parents and (" + DriveQuery() + ")"
  }

  /** The filter of one folder's listing: the id, quoted with `%s` and no escaping, as a
      parent, conjoined with the whole-drive filter. The id can be read back out of it, and
      the whole-drive filter is its parenthesised tail. */
  function FolderQuery(folderId: string): (q: string)
    ensures ParentOf(q) == Some(folderId)
    ensures |q| > |DriveQuery()| + 1 && q[|q| - |DriveQuery()| - 1..|q| - 1] == DriveQuery()
  {
    var q := "'" + folderId + FolderQuerySuffix();
    assert q[|q| - |FolderQuerySuffix()|..] == FolderQuerySuffix();
    assert q[1..|q| - |FolderQuerySuffix()|] == folderId;
    q
  }

  /** Reads the folder id back out of a folder query; `None` for any other text. */
  function ParentOf(q: string): (r: Option<string>)
    ensures r.Some? ==> q == "'" + r.value + FolderQuerySuffix()
  {
    var k := |FolderQuerySuffix()|;
    if |q| >= 1 + k && q[0] == '\'' && q[|q| - k..] == FolderQuerySuffix() then
      assert q == [q[0]] + q[1..|q| - k] + q[|q| - k..];
      Some(q[1..|q| - k])
    else
      None
  }

  /** Distinct folders are listed with distinct queries. */
  lemma FolderQueryInjective(a: string, b: string)
    requires FolderQuery(a) == FolderQuery(b)
    ensures a == b
  {
  }

  /** The whole-drive filter names no parent folder: no folder id can be read out of it. */
  lemma DriveQueryHasNoParent()
    ensures ParentOf(DriveQuery()) == None
  {
    assert DriveQuery()[0] == 'm';
  }

  /** One `Files.List` call: filter, optional page token, page size and requested fields. */
  datatype Request = Request(q: string, pageToken: Option<string>, pageSize: int, fields: seq<string>)

  /** The token a request continues from; the empty token for the first page. */
  function TokenOf(r: Request): string {
    match r.pageToken
    case None => ""
    case Some(t) => t
  }

  /** Builds a listing request; the page token is set only when it is not empty. */
  function MakeRequest(q: string, token: string): (r: Request)
    ensures r.q == q && r.pageSize == PageSize && r.fields == Fields
    ensures r.pageToken.None? <==> token == ""
    ensures TokenOf(r) == token
  {
    var call := Request(q, None, 1000, ["nextPageToken", "files(id, name, mimeType, explicitlyTrashed)"]);
    if token != "" then call.(pageToken := Some(token)) else call
  }
}
