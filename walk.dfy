/** What the restore walk and the top-level dispatch do, as the sequence of remote calls and
    failure log lines they produce (main.go, `restoreTrashed` and `main`).

    `WalkTrace` and `ChildTrace` are the specification that `Drive.Service.RestoreTrashed`
    is proved against; the lemmas below state what that sequence contains. */
module Walk {
  import opened Wrappers
  import opened Errors
  import opened Query
  import opened Paging

  /** The final outcome of the pacer-wrapped `Files.Update(id, {Trashed: false}).Do()` call:
      `None` when the call succeeded, its final error otherwise. */
  type Updater = string -> Option<Error>

  /** One observable step: a remote call, or one of the failure lines the code logs. */
  datatype Event =
    | Fetch(request: Request)                              // a `Files.List` call
    | Untrash(id: string)                                  // a `Files.Update` call sending `Trashed: false`
    | UntrashFailed(id: string, name: string, err: Error)  // "unable restore trash"
    | ChildListFailed(name: string, err: Error)            // "unable to list" a subfolder
    | FolderListFailed(folderId: string, err: Error)       // "Unable to list folder" given as argument

  /** The listing calls made for the tokens `ts` of filter `q`, in order. */
  function FetchEvents(q: string, ts: seq<string>): (r: seq<Event>)
    ensures |r| == |ts|
    ensures forall i :: 0 <= i < |ts| ==> r[i] == Fetch(MakeRequest(q, ts[i]))
  {
    if ts == [] then [] else FetchEvents(q, ts[..|ts| - 1]) + [Fetch(MakeRequest(q, ts[|ts| - 1]))]
  }

  /** One more listing call at the end. */
  lemma FetchEventsSnoc(q: string, ts: seq<string>, token: string)
    ensures FetchEvents(q, ts + [token]) == FetchEvents(q, ts) + [Fetch(MakeRequest(q, token))]
  {
    assert (ts + [token])[..|ts|] == ts;
  }

  /** The listing of folder `id` that a subfolder walk would make. */
  function SubListing(list: Lister, id: string, n: nat): Listed
    requires EndsWithin(list, FolderQuery(id), "", n)
  {
    Paginate(list, FolderQuery(id), "", n)
  }

  /** Walking child `c` needs at most `d` more levels and listings of at most `n` pages. */
  predicate ChildBounded(list: Lister, c: File, recurse: bool, d: nat, n: nat)
    decreases d, 0
  {
    recurse && IsFolder(c) ==>
      d > 0 && EndsWithin(list, FolderQuery(c.id), "", n) &&
      (SubListing(list, c.id, n).err.None? ==> Bounded(list, SubListing(list, c.id, n).files, recurse, d - 1, n))
  }

  /** Walking every child of `childs` terminates within the same bounds. A folder that is
      its own descendant has no such bound (see `CycleNeverBounded`). */
  predicate Bounded(list: Lister, childs: seq<File>, recurse: bool, d: nat, n: nat)
    decreases d, 1
  {
    forall i :: 0 <= i < |childs| ==> ChildBounded(list, childs[i], recurse, d, n)
  }

  /** The untrash call for `c`, when it is explicitly trashed, followed by the failure line
      if that call fails. */
  function UntrashTrace(untrash: Updater, c: File): (r: seq<Event>)
    ensures r != [] <==> c.explicitlyTrashed
    ensures r != [] ==> r[0] == Untrash(c.id) && |r| == if untrash(c.id).Some? then 2 else 1
  {
    if c.explicitlyTrashed then
      [Untrash(c.id)] + match untrash(c.id) {
        case Some(e) => [UntrashFailed(c.id, c.name, e)]
        case None => []
      }
    else []
  }

  /** One pass of the loop body for child `c`: its untrash call, then (for a folder, when
      recursing) its listing and what follows it. */
  function ChildTrace(list: Lister, untrash: Updater, c: File, recurse: bool, d: nat, n: nat): seq<Event>
    requires ChildBounded(list, c, recurse, d, n)
    decreases d, 1
  {
    UntrashTrace(untrash, c) +
    if recurse && IsFolder(c) then
      FetchEvents(FolderQuery(c.id), SubListing(list, c.id, n).fetched) + AfterListing(list, untrash, c, recurse, d, n)
    else []
  }

  /** What follows the listing of subfolder `c`: the failure line, or the walk of its children
      one level down. */
  function AfterListing(list: Lister, untrash: Updater, c: File, recurse: bool, d: nat, n: nat): seq<Event>
    requires ChildBounded(list, c, recurse, d, n) && recurse && IsFolder(c)
    decreases d, 0
  {
    match SubListing(list, c.id, n).err {
      case Some(e) => [ChildListFailed(c.name, e)]
      case None => WalkTrace(list, untrash, SubListing(list, c.id, n).files, recurse, d - 1, n)
    }
  }

  /** The whole walk over `childs`, one child after the other in listing order. */
  function WalkTrace(list: Lister, untrash: Updater, childs: seq<File>, recurse: bool, d: nat, n: nat): seq<Event>
    requires Bounded(list, childs, recurse, d, n)
    decreases d, |childs| + 1
  {
    if childs == [] then []
    else
      var init := childs[..|childs| - 1];
      assert forall i :: 0 <= i < |init| ==> init[i] == childs[i];
      WalkTrace(list, untrash, init, recurse, d, n) + ChildTrace(list, untrash, childs[|childs| - 1], recurse, d, n)
  }

  /** The ids of the untrash calls in a trace, in order. */
  function Untrashes(t: seq<Event>): seq<string> {
    if t == [] then [] else (if t[0].Untrash? then [t[0].id] else []) + Untrashes(t[1..])
  }

  /** The remote calls of a trace, without the log lines. */
  function Calls(t: seq<Event>): seq<Event> {
    if t == [] then [] else (if t[0].Fetch? || t[0].Untrash? then [t[0]] else []) + Calls(t[1..])
  }

  /** The listing requests of a trace, in order. */
  function Requests(t: seq<Event>): seq<Request> {
    if t == [] then [] else (if t[0].Fetch? then [t[0].request] else []) + Requests(t[1..])
  }

  /** The id of `c` if it is explicitly trashed. */
  function OwnUntrash(c: File): seq<string> {
    if c.explicitlyTrashed then [c.id] else []
  }

  /** The ids of the explicitly trashed files of `childs`, in listing order. */
  function TrashedIds(childs: seq<File>): seq<string> {
    if childs == [] then [] else TrashedIds(childs[..|childs| - 1]) + OwnUntrash(childs[|childs| - 1])
  }

  /** `a` can be obtained from `b` by deleting elements. */
  predicate IsSubsequence(a: seq<string>, b: seq<string>)
    decreases |b|
  {
    if a == [] then true
    else if b == [] then false
    else (a[0] == b[0] && IsSubsequence(a[1..], b[1..])) || IsSubsequence(a, b[1..])
  }

  // ---- Traces split at concatenation -------------------------------------------------------

  lemma {:induction false} UntrashesAppend(a: seq<Event>, b: seq<Event>)
    ensures Untrashes(a + b) == Untrashes(a) + Untrashes(b)
  {
    if a == [] {
      assert a + b == b;
    } else {
      assert (a + b)[0] == a[0] && (a + b)[1..] == a[1..] + b;
      UntrashesAppend(a[1..], b);
      Regroup3((if a[0].Untrash? then [a[0].id] else []), Untrashes(a[1..]), Untrashes(b));
    }
  }

  lemma {:induction false} CallsAppend(a: seq<Event>, b: seq<Event>)
    ensures Calls(a + b) == Calls(a) + Calls(b)
  {
    if a == [] {
      assert a + b == b;
    } else {
      assert (a + b)[0] == a[0] && (a + b)[1..] == a[1..] + b;
      CallsAppend(a[1..], b);
      Regroup3((if a[0].Fetch? || a[0].Untrash? then [a[0]] else []), Calls(a[1..]), Calls(b));
    }
  }

  lemma {:induction false} RequestsAppend(a: seq<Event>, b: seq<Event>)
    ensures Requests(a + b) == Requests(a) + Requests(b)
  {
    if a == [] {
      assert a + b == b;
    } else {
      assert (a + b)[0] == a[0] && (a + b)[1..] == a[1..] + b;
      RequestsAppend(a[1..], b);
      Regroup3((if a[0].Fetch? then [a[0].request] else []), Requests(a[1..]), Requests(b));
    }
  }

  /** Listing calls restore nothing, are all calls, and carry the listing's requests. */
  lemma {:induction false} FetchEventsAreListings(q: string, ts: seq<string>)
    ensures Untrashes(FetchEvents(q, ts)) == []
    ensures Calls(FetchEvents(q, ts)) == FetchEvents(q, ts)
    ensures |Requests(FetchEvents(q, ts))| == |ts|
    ensures forall i :: 0 <= i < |ts| ==> Requests(FetchEvents(q, ts))[i] == MakeRequest(q, ts[i])
  {
    if ts != [] {
      var init := ts[..|ts| - 1];
      var x := Fetch(MakeRequest(q, ts[|ts| - 1]));
      var f := FetchEvents(q, init);
      FetchEventsAreListings(q, init);
      assert FetchEvents(q, ts) == f + [x];
      assert [x][1..] == [];
      assert Untrashes(f + [x]) == [] by {
        UntrashesAppend(f, [x]);
      }
      assert Calls(f + [x]) == f + [x] by {
        CallsAppend(f, [x]);
      }
      assert Requests(f + [x]) == Requests(f) + [x.request] by {
        RequestsAppend(f, [x]);
      }
      forall i | 0 <= i < |ts|
        ensures Requests(FetchEvents(q, ts))[i] == MakeRequest(q, ts[i])
      {
        if i < |init| {
          assert init[i] == ts[i];
        }
      }
    }
  }

  // ---- The walk -----------------------------------------------------------------------------

  /** A walk's bound holds for every part of its child list. */
  lemma BoundedSplit(list: Lister, a: seq<File>, b: seq<File>, recurse: bool, d: nat, n: nat)
    requires Bounded(list, a + b, recurse, d, n)
    ensures Bounded(list, a, recurse, d, n) && Bounded(list, b, recurse, d, n)
  {
    assert forall i :: 0 <= i < |a| ==> (a + b)[i] == a[i];
    assert forall i :: 0 <= i < |b| ==> (a + b)[|a| + i] == b[i];
  }

  /** Siblings are walked independently: the walk of `a + b` is the walk of `a` followed by
      the walk of `b`, whatever failed while walking `a`. */
  lemma {:induction false} WalkAppend(list: Lister, untrash: Updater, a: seq<File>, b: seq<File>, recurse: bool, d: nat, n: nat)
    requires Bounded(list, a + b, recurse, d, n)
    ensures Bounded(list, a, recurse, d, n) && Bounded(list, b, recurse, d, n)
    ensures WalkTrace(list, untrash, a + b, recurse, d, n) ==
            WalkTrace(list, untrash, a, recurse, d, n) + WalkTrace(list, untrash, b, recurse, d, n)
    decreases |b|
  {
    BoundedSplit(list, a, b, recurse, d, n);
    if b == [] {
      assert a + b == a;
    } else {
      var init := b[..|b| - 1];
      var c := b[|b| - 1];
      assert b == init + [c];
      assert a + b == (a + init) + [c];
      WalkSnocLast(list, untrash, a + init, c, recurse, d, n);
      WalkSnocLast(list, untrash, init, c, recurse, d, n);
      WalkAppend(list, untrash, a, init, recurse, d, n);
      Regroup3(WalkTrace(list, untrash, a, recurse, d, n), WalkTrace(list, untrash, init, recurse, d, n),
               ChildTrace(list, untrash, c, recurse, d, n));
    }
  }

  /** Regrouping a sequence made of three parts. */
  lemma Regroup3<T>(a: seq<T>, b: seq<T>, c: seq<T>)
    ensures a + b + c == a + (b + c)
  {
  }

  /** Regrouping a trace made of four parts. */
  lemma Regroup(a: seq<Event>, b: seq<Event>, c: seq<Event>, d: seq<Event>)
    ensures a + b + c + d == a + (b + c + d)
  {
  }

  /** Unfolds `WalkTrace` on the prefix `childs[..i + 1]`: the walk so far, then child `i`. */
  lemma WalkSnoc(list: Lister, untrash: Updater, childs: seq<File>, i: nat, recurse: bool, d: nat, n: nat)
    requires Bounded(list, childs, recurse, d, n) && i < |childs|
    ensures Bounded(list, childs[..i], recurse, d, n) && Bounded(list, childs[..i + 1], recurse, d, n)
    ensures WalkTrace(list, untrash, childs[..i + 1], recurse, d, n) ==
            WalkTrace(list, untrash, childs[..i], recurse, d, n) + ChildTrace(list, untrash, childs[i], recurse, d, n)
  {
    assert childs[..i + 1][..i] == childs[..i];
  }

  /** Unfolds `WalkTrace` at its last child. */
  lemma WalkSnocLast(list: Lister, untrash: Updater, s: seq<File>, c: File, recurse: bool, d: nat, n: nat)
    requires Bounded(list, s + [c], recurse, d, n)
    ensures Bounded(list, s, recurse, d, n) && ChildBounded(list, c, recurse, d, n)
    ensures WalkTrace(list, untrash, s + [c], recurse, d, n) ==
            WalkTrace(list, untrash, s, recurse, d, n) + ChildTrace(list, untrash, c, recurse, d, n)
  {
    BoundedSplit(list, s, [c], recurse, d, n);
    var all := s + [c];
    assert all[..|all| - 1] == s && all[|all| - 1] == c;
  }

  /** The walk of a single child is that child's part. */
  lemma WalkSingle(list: Lister, untrash: Updater, c: File, recurse: bool, d: nat, n: nat)
    requires ChildBounded(list, c, recurse, d, n)
    ensures Bounded(list, [c], recurse, d, n)
    ensures WalkTrace(list, untrash, [c], recurse, d, n) == ChildTrace(list, untrash, c, recurse, d, n)
  {
    assert [c][..0] == [] && [c][0] == c;
    assert WalkTrace(list, untrash, [c], recurse, d, n) == [] + ChildTrace(list, untrash, c, recurse, d, n);
  }

  /** The trace of child `c`, split into its untrash part, its listing calls and what follows
      the listing. */
  lemma ChildTraceParts(list: Lister, untrash: Updater, c: File, recurse: bool, d: nat, n: nat)
    requires ChildBounded(list, c, recurse, d, n)
    ensures !(recurse && IsFolder(c)) ==> ChildTrace(list, untrash, c, recurse, d, n) == UntrashTrace(untrash, c)
    ensures recurse && IsFolder(c) ==>
              ChildTrace(list, untrash, c, recurse, d, n) ==
              UntrashTrace(untrash, c) + FetchEvents(FolderQuery(c.id), SubListing(list, c.id, n).fetched) +
              AfterListing(list, untrash, c, recurse, d, n)
  {
    if recurse && IsFolder(c) {
      Regroup3(UntrashTrace(untrash, c), FetchEvents(FolderQuery(c.id), SubListing(list, c.id, n).fetched),
               AfterListing(list, untrash, c, recurse, d, n));
    } else {
      assert ChildTrace(list, untrash, c, recurse, d, n) == UntrashTrace(untrash, c) + [];
    }
  }

  /** After a failed subfolder listing comes the failure line alone: no call and no untrash. */
  lemma FailedListingTail(list: Lister, untrash: Updater, c: File, recurse: bool, d: nat, n: nat)
    requires ChildBounded(list, c, recurse, d, n) && recurse && IsFolder(c)
    requires SubListing(list, c.id, n).err.Some?
    ensures AfterListing(list, untrash, c, recurse, d, n) == [ChildListFailed(c.name, SubListing(list, c.id, n).err.value)]
    ensures Untrashes(AfterListing(list, untrash, c, recurse, d, n)) == []
    ensures Calls(AfterListing(list, untrash, c, recurse, d, n)) == []
    ensures Requests(AfterListing(list, untrash, c, recurse, d, n)) == []
  {
    var t := AfterListing(list, untrash, c, recurse, d, n);
    assert t[1..] == [];
  }

  /** The untrash part of a child holds its own untrash call and no listing. */
  lemma OwnUntrashTrace(untrash: Updater, c: File)
    ensures Untrashes(UntrashTrace(untrash, c)) == OwnUntrash(c)
    ensures Requests(UntrashTrace(untrash, c)) == []
    ensures Calls(UntrashTrace(untrash, c)) == if c.explicitlyTrashed then [Untrash(c.id)] else []
  {
    var own := UntrashTrace(untrash, c);
    if c.explicitlyTrashed {
      assert own == [Untrash(c.id)] + own[1..];
      UntrashesAppend([Untrash(c.id)], own[1..]);
      RequestsAppend([Untrash(c.id)], own[1..]);
      CallsAppend([Untrash(c.id)], own[1..]);
    }
  }

  /** The untrash calls of one child: its own, when it is explicitly trashed, and then those of
      its subtree, which is walked only for a folder, only when recursing, and only when its
      listing succeeded. A failed listing or a failed untrash adds no untrash call. */
  lemma {:induction false} ChildUntrashes(list: Lister, untrash: Updater, c: File, recurse: bool, d: nat, n: nat)
    requires ChildBounded(list, c, recurse, d, n)
    ensures Untrashes(ChildTrace(list, untrash, c, recurse, d, n)) ==
            OwnUntrash(c) +
            if recurse && IsFolder(c) && SubListing(list, c.id, n).err.None?
            then Untrashes(WalkTrace(list, untrash, SubListing(list, c.id, n).files, recurse, d - 1, n))
            else []
  {
    OwnUntrashTrace(untrash, c);
    ChildTraceParts(list, untrash, c, recurse, d, n);
    if recurse && IsFolder(c) {
      var sub := SubListing(list, c.id, n);
      var own := UntrashTrace(untrash, c);
      var fetches := FetchEvents(FolderQuery(c.id), sub.fetched);
      var tail := AfterListing(list, untrash, c, recurse, d, n);
      FetchEventsAreListings(FolderQuery(c.id), sub.fetched);
      UntrashesAppend(own, fetches);
      UntrashesAppend(own + fetches, tail);
      assert Untrashes(own + fetches) == OwnUntrash(c);
      if sub.err.Some? {
        FailedListingTail(list, untrash, c, recurse, d, n);
      }
    } else {
      assert OwnUntrash(c) + [] == OwnUntrash(c);
    }
  }

  /** Without recursion the walk lists nothing and untrashes exactly the explicitly trashed
      children, each once, in listing order. */
  lemma {:induction false} FlatWalk(list: Lister, untrash: Updater, childs: seq<File>, d: nat, n: nat)
    ensures Bounded(list, childs, false, d, n)
    ensures Untrashes(WalkTrace(list, untrash, childs, false, d, n)) == TrashedIds(childs)
    ensures Requests(WalkTrace(list, untrash, childs, false, d, n)) == []
  {
    if childs != [] {
      var init := childs[..|childs| - 1];
      var c := childs[|childs| - 1];
      FlatWalk(list, untrash, init, d, n);
      OwnUntrashTrace(untrash, c);
      ChildTraceParts(list, untrash, c, false, d, n);
      var w := WalkTrace(list, untrash, init, false, d, n);
      var own := UntrashTrace(untrash, c);
      assert WalkTrace(list, untrash, childs, false, d, n) == w + own;
      UntrashesAppend(w, own);
      RequestsAppend(w, own);
    }
  }

  lemma {:induction false} SubsequenceOfExtension(a: seq<string>, x: seq<string>)
    ensures IsSubsequence(a, a + x)
  {
    if a != [] {
      assert (a + x)[0] == a[0] && (a + x)[1..] == a[1..] + x;
      SubsequenceOfExtension(a[1..], x);
    }
  }

  lemma {:induction false} SubsequenceConcat(a1: seq<string>, b1: seq<string>, a2: seq<string>, b2: seq<string>)
    requires IsSubsequence(a1, b1) && IsSubsequence(a2, b2)
    ensures IsSubsequence(a1 + a2, b1 + b2)
    decreases |b1|
  {
    if b1 == [] {
      assert a1 == [];
      assert a1 + a2 == a2 && b1 + b2 == b2;
    } else {
      assert (b1 + b2)[0] == b1[0] && (b1 + b2)[1..] == b1[1..] + b2;
      if a1 == [] {
        SubsequenceConcat(a1, b1[1..], a2, b2);
        assert a1 + a2 == a2;
      } else {
        assert (a1 + a2)[0] == a1[0] && (a1 + a2)[1..] == a1[1..] + a2;
        if a1[0] == b1[0] && IsSubsequence(a1[1..], b1[1..]) {
          SubsequenceConcat(a1[1..], b1[1..], a2, b2);
        } else {
          SubsequenceConcat(a1, b1[1..], a2, b2);
        }
      }
    }
  }

  /** With or without recursion, every explicitly trashed child gets its untrash call, and
      these calls come in listing order (the calls for subtrees come in between). */
  lemma {:induction false} TrashedChildrenInOrder(list: Lister, untrash: Updater, childs: seq<File>, recurse: bool, d: nat, n: nat)
    requires Bounded(list, childs, recurse, d, n)
    ensures IsSubsequence(TrashedIds(childs), Untrashes(WalkTrace(list, untrash, childs, recurse, d, n)))
  {
    if childs != [] {
      var init := childs[..|childs| - 1];
      var c := childs[|childs| - 1];
      assert forall i :: 0 <= i < |init| ==> init[i] == childs[i];
      TrashedChildrenInOrder(list, untrash, init, recurse, d, n);
      ChildUntrashes(list, untrash, c, recurse, d, n);
      var rest := Untrashes(ChildTrace(list, untrash, c, recurse, d, n));
      SubsequenceOfExtension(OwnUntrash(c), rest[|OwnUntrash(c)|..]);
      assert OwnUntrash(c) + rest[|OwnUntrash(c)|..] == rest;
      UntrashesAppend(WalkTrace(list, untrash, init, recurse, d, n), ChildTrace(list, untrash, c, recurse, d, n));
      SubsequenceConcat(TrashedIds(init), Untrashes(WalkTrace(list, untrash, init, recurse, d, n)), OwnUntrash(c), rest);
    }
  }

  /** A child is listed only if it is a folder and the walk recurses; then its folder listing,
      from the first page, is the first listing its part of the walk makes. */
  lemma {:induction false} OnlyFoldersListed(list: Lister, untrash: Updater, c: File, recurse: bool, d: nat, n: nat)
    requires ChildBounded(list, c, recurse, d, n)
    ensures !(recurse && IsFolder(c)) ==> Requests(ChildTrace(list, untrash, c, recurse, d, n)) == []
    ensures recurse && IsFolder(c) ==>
              var t := ChildTrace(list, untrash, c, recurse, d, n);
              |Requests(t)| > 0 && Requests(t)[0] == MakeRequest(FolderQuery(c.id), "")
  {
    OwnUntrashTrace(untrash, c);
    ChildTraceParts(list, untrash, c, recurse, d, n);
    if recurse && IsFolder(c) {
      var sub := SubListing(list, c.id, n);
      var own := UntrashTrace(untrash, c);
      var fetches := FetchEvents(FolderQuery(c.id), sub.fetched);
      var tail := AfterListing(list, untrash, c, recurse, d, n);
      FetchEventsAreListings(FolderQuery(c.id), sub.fetched);
      RequestsAppend(own, fetches);
      RequestsAppend(own + fetches, tail);
      assert Requests(own + fetches) == Requests(fetches);
    }
  }

  /** When a folder's listing fails, its part of the walk is its own untrash call, the
      listing's requests and the failure line: its subtree is skipped. */
  lemma {:induction false} ListingFailureSkipsSubtree(list: Lister, untrash: Updater, c: File, recurse: bool, d: nat, n: nat)
    requires ChildBounded(list, c, recurse, d, n)
    requires recurse && IsFolder(c) && SubListing(list, c.id, n).err.Some?
    ensures var t := ChildTrace(list, untrash, c, recurse, d, n);
            var sub := SubListing(list, c.id, n);
            Untrashes(t) == OwnUntrash(c) &&
            |Requests(t)| == |sub.fetched| &&
            (forall i :: 0 <= i < |sub.fetched| ==> Requests(t)[i] == MakeRequest(FolderQuery(c.id), sub.fetched[i])) &&
            t[|t| - 1] == ChildListFailed(c.name, sub.err.value)
  {
    var sub := SubListing(list, c.id, n);
    var t := ChildTrace(list, untrash, c, recurse, d, n);
    assert Untrashes(t) == OwnUntrash(c) by {
      ChildUntrashes(list, untrash, c, recurse, d, n);
      assert OwnUntrash(c) + [] == OwnUntrash(c);
    }
    var own := UntrashTrace(untrash, c);
    var fetches := FetchEvents(FolderQuery(c.id), sub.fetched);
    var tail := AfterListing(list, untrash, c, recurse, d, n);
    assert t == (own + fetches) + tail && tail == [ChildListFailed(c.name, sub.err.value)] && Requests(tail) == [] by {
      ChildTraceParts(list, untrash, c, recurse, d, n);
      FailedListingTail(list, untrash, c, recurse, d, n);
    }
    assert Requests(t) == Requests(fetches) by {
      OwnUntrashTrace(untrash, c);
      RequestsAppend(own, fetches);
      RequestsAppend(own + fetches, tail);
    }
    FetchEventsAreListings(FolderQuery(c.id), sub.fetched);
  }

  /** No branch of the walk depends on the outcome of an untrash call: against the same
      listing answers, two runs that differ only in which untrash calls fail make the same
      calls in the same order; only their log lines differ. (A live store could answer a later
      listing differently once an untrash has taken effect; the `Lister` oracle does not.) */
  lemma {:induction false} WalkCallsIgnoreOutcomes(list: Lister, u1: Updater, u2: Updater, childs: seq<File>, recurse: bool, d: nat, n: nat)
    requires Bounded(list, childs, recurse, d, n)
    ensures Calls(WalkTrace(list, u1, childs, recurse, d, n)) == Calls(WalkTrace(list, u2, childs, recurse, d, n))
    decreases d, |childs| + 1
  {
    if childs != [] {
      var init := childs[..|childs| - 1];
      var c := childs[|childs| - 1];
      assert forall i :: 0 <= i < |init| ==> init[i] == childs[i];
      WalkCallsIgnoreOutcomes(list, u1, u2, init, recurse, d, n);
      ChildCallsIgnoreOutcomes(list, u1, u2, c, recurse, d, n);
      CallsAppend(WalkTrace(list, u1, init, recurse, d, n), ChildTrace(list, u1, c, recurse, d, n));
      CallsAppend(WalkTrace(list, u2, init, recurse, d, n), ChildTrace(list, u2, c, recurse, d, n));
    }
  }

  lemma {:induction false} ChildCallsIgnoreOutcomes(list: Lister, u1: Updater, u2: Updater, c: File, recurse: bool, d: nat, n: nat)
    requires ChildBounded(list, c, recurse, d, n)
    ensures Calls(ChildTrace(list, u1, c, recurse, d, n)) == Calls(ChildTrace(list, u2, c, recurse, d, n))
    decreases d, 1
  {
    assert Calls(UntrashTrace(u1, c)) == Calls(UntrashTrace(u2, c)) by {
      OwnUntrashTrace(u1, c);
      OwnUntrashTrace(u2, c);
    }
    if recurse && IsFolder(c) {
      AfterListingCallsIgnoreOutcomes(list, u1, u2, c, recurse, d, n);
    }
    ChildCalls(list, u1, c, recurse, d, n);
    ChildCalls(list, u2, c, recurse, d, n);
  }

  lemma {:induction false} AfterListingCallsIgnoreOutcomes(list: Lister, u1: Updater, u2: Updater, c: File, recurse: bool, d: nat, n: nat)
    requires ChildBounded(list, c, recurse, d, n) && recurse && IsFolder(c)
    ensures Calls(AfterListing(list, u1, c, recurse, d, n)) == Calls(AfterListing(list, u2, c, recurse, d, n))
    decreases d, 0
  {
    if SubListing(list, c.id, n).err.Some? {
      FailedListingTail(list, u1, c, recurse, d, n);
      FailedListingTail(list, u2, c, recurse, d, n);
    } else {
      WalkCallsIgnoreOutcomes(list, u1, u2, SubListing(list, c.id, n).files, recurse, d - 1, n);
    }
  }

  /** The calls of one child: its untrash call, its listing, and the calls of its subtree. */
  lemma ChildCalls(list: Lister, untrash: Updater, c: File, recurse: bool, d: nat, n: nat)
    requires ChildBounded(list, c, recurse, d, n)
    ensures !(recurse && IsFolder(c)) ==>
              Calls(ChildTrace(list, untrash, c, recurse, d, n)) == Calls(UntrashTrace(untrash, c))
    ensures recurse && IsFolder(c) ==>
              Calls(ChildTrace(list, untrash, c, recurse, d, n)) ==
              Calls(UntrashTrace(untrash, c)) + FetchEvents(FolderQuery(c.id), SubListing(list, c.id, n).fetched) +
              Calls(AfterListing(list, untrash, c, recurse, d, n))
  {
    OwnUntrashTrace(untrash, c);
    ChildTraceParts(list, untrash, c, recurse, d, n);
    if recurse && IsFolder(c) {
      var own := UntrashTrace(untrash, c);
      var fetches := FetchEvents(FolderQuery(c.id), SubListing(list, c.id, n).fetched);
      FetchEventsAreListings(FolderQuery(c.id), SubListing(list, c.id, n).fetched);
      CallsAppend(own, fetches);
      CallsAppend(own + fetches, AfterListing(list, untrash, c, recurse, d, n));
    }
  }

  // ---- What the code does not guard against ---------------------------------------------------

  /** The store of the shared-folder example: folder `A` holds folder `B`, and `B` holds the
      explicitly trashed file `F`, each listing on one page. */
  predicate SharesB(list: Lister) {
    list(MakeRequest(FolderQuery("A"), "")) == Page([File("B", "b", FolderMimeType, false)], "") &&
    list(MakeRequest(FolderQuery("B"), "")) == Page([File("F", "f", "text/plain", true)], "")
  }

  /** `F` is walked at any depth as its own untrash call alone. */
  lemma SharedLeaf(list: Lister, untrash: Updater, d: nat)
    ensures var f := File("F", "f", "text/plain", true);
            Bounded(list, [f], true, d, 1) &&
            Untrashes(WalkTrace(list, untrash, [f], true, d, 1)) == ["F"] &&
            Requests(WalkTrace(list, untrash, [f], true, d, 1)) == []
  {
    var f := File("F", "f", "text/plain", true);
    FlatWalk(list, untrash, [f], d, 1);
    assert [f][..0] == [];
    assert WalkTrace(list, untrash, [f], true, d, 1) == WalkTrace(list, untrash, [f], false, d, 1);
    assert TrashedIds([f]) == ["F"];
  }

  /** Folder `B` is walked (from depth 1 on) as one listing and the untrash call of `F`. */
  lemma SharedB(list: Lister, untrash: Updater, d: nat)
    requires SharesB(list) && d > 0
    ensures var b := File("B", "b", FolderMimeType, false);
            ChildBounded(list, b, true, d, 1) &&
            Untrashes(ChildTrace(list, untrash, b, true, d, 1)) == ["F"] &&
            Requests(ChildTrace(list, untrash, b, true, d, 1)) == [MakeRequest(FolderQuery("B"), "")]
  {
    var b := File("B", "b", FolderMimeType, false);
    var f := File("F", "f", "text/plain", true);
    assert SubListing(list, "B", 1) == Listed([f], None, [""]);
    SharedLeaf(list, untrash, d - 1);
    var t := ChildTrace(list, untrash, b, true, d, 1);
    ChildUntrashes(list, untrash, b, true, d, 1);
    OwnUntrashTrace(untrash, b);
    ChildTraceParts(list, untrash, b, true, d, 1);
    var fb := FetchEvents(FolderQuery("B"), [""]);
    var w := WalkTrace(list, untrash, [f], true, d - 1, 1);
    assert AfterListing(list, untrash, b, true, d, 1) == w;
    assert t == [] + fb + w;
    RequestsAppend(fb, w);
    FetchEventsAreListings(FolderQuery("B"), [""]);
  }

  /** Folder `A` is walked as its listing and then the walk of `B`. */
  lemma SharedA(list: Lister, untrash: Updater)
    requires SharesB(list)
    ensures var a := File("A", "a", FolderMimeType, false);
            ChildBounded(list, a, true, 2, 1) &&
            Untrashes(ChildTrace(list, untrash, a, true, 2, 1)) == ["F"] &&
            Requests(ChildTrace(list, untrash, a, true, 2, 1)) ==
              [MakeRequest(FolderQuery("A"), ""), MakeRequest(FolderQuery("B"), "")]
  {
    var a := File("A", "a", FolderMimeType, false);
    var b := File("B", "b", FolderMimeType, false);
    assert SubListing(list, "A", 1) == Listed([b], None, [""]);
    var tb := ChildTrace(list, untrash, b, true, 1, 1);
    var w := WalkTrace(list, untrash, [b], true, 1, 1);
    assert Untrashes(w) == ["F"] && Requests(w) == [MakeRequest(FolderQuery("B"), "")] by {
      SharedB(list, untrash, 1);
      WalkSingle(list, untrash, b, true, 1, 1);
    }
    var t := ChildTrace(list, untrash, a, true, 2, 1);
    assert Untrashes(t) == ["F"] by {
      ChildUntrashes(list, untrash, a, true, 2, 1);
      assert Untrashes(t) == [] + Untrashes(w);
    }
    var fa := FetchEvents(FolderQuery("A"), [""]);
    assert t == fa + w by {
      OwnUntrashTrace(untrash, a);
      ChildTraceParts(list, untrash, a, true, 2, 1);
      assert t == [] + fa + w;
    }
    assert Requests(fa) == [MakeRequest(FolderQuery("A"), "")] by {
      FetchEventsAreListings(FolderQuery("A"), [""]);
    }
    RequestsAppend(fa, w);
  }

  /** There is no visited set: when folder `B` is both a child of the root and of folder `A`,
      walking the root's children `A` and `B` lists `B` twice. The `Lister` oracle gives the
      repeated request the same answer, so the untrash call for `F` is issued twice; a live
      store would drop `F` from the second listing if the first untrash had taken effect. */
  lemma SharedFolderWalkedTwice(list: Lister, untrash: Updater)
    requires SharesB(list)
    ensures var childs := [File("A", "a", FolderMimeType, false), File("B", "b", FolderMimeType, false)];
            Bounded(list, childs, true, 2, 1) &&
            Untrashes(WalkTrace(list, untrash, childs, true, 2, 1)) == ["F", "F"] &&
            Requests(WalkTrace(list, untrash, childs, true, 2, 1)) ==
              [MakeRequest(FolderQuery("A"), ""), MakeRequest(FolderQuery("B"), ""), MakeRequest(FolderQuery("B"), "")]
  {
    var a := File("A", "a", FolderMimeType, false);
    var b := File("B", "b", FolderMimeType, false);
    SharedA(list, untrash);
    SharedB(list, untrash, 2);
    var ta := ChildTrace(list, untrash, a, true, 2, 1);
    var tb := ChildTrace(list, untrash, b, true, 2, 1);
    WalkPair(list, untrash, a, b, true, 2, 1);
    UntrashesAppend(ta, tb);
    RequestsAppend(ta, tb);
  }

  /** Unfolds the walk of two children. */
  lemma WalkPair(list: Lister, untrash: Updater, x: File, y: File, recurse: bool, d: nat, n: nat)
    requires ChildBounded(list, x, recurse, d, n) && ChildBounded(list, y, recurse, d, n)
    ensures Bounded(list, [x, y], recurse, d, n)
    ensures WalkTrace(list, untrash, [x, y], recurse, d, n) ==
            ChildTrace(list, untrash, x, recurse, d, n) + ChildTrace(list, untrash, y, recurse, d, n)
  {
    WalkSingle(list, untrash, x, recurse, d, n);
    assert [x] + [y] == [x, y];
    WalkSnocLast(list, untrash, [x], y, recurse, d, n);
  }

  /** A cycle admits no depth bound: in a store where folder `A` lists itself as its own
      child, the walk would recurse forever, as the code does on such a store, so no run of
      the model starts on it. */
  lemma {:induction false} CycleNeverBounded(list: Lister, d: nat, n: nat)
    requires list(MakeRequest(FolderQuery("A"), "")) == Page([File("A", "a", FolderMimeType, false)], "")
    ensures !Bounded(list, [File("A", "a", FolderMimeType, false)], true, d, n)
  {
    var a := File("A", "a", FolderMimeType, false);
    assert [a][0] == a;
    if d > 0 {
      CycleNeverBounded(list, d - 1, n);
      if EndsWithin(list, FolderQuery("A"), "", n) {
        assert SubListing(list, "A", n) == Listed([a], None, [""]);
      }
    }
  }

  // ---- The top-level dispatch -------------------------------------------------------------------

  /** Listing the root filter `q` ends, and walking what it returns stays within depth `d`. */
  predicate RootBounded(list: Lister, q: string, d: nat, n: nat) {
    EndsWithin(list, q, "", n) &&
    (Paginate(list, q, "", n).err.None? ==> Bounded(list, Paginate(list, q, "", n).files, true, d, n))
  }

  /** Every folder given as an argument is bounded. */
  predicate FoldersBounded(list: Lister, args: seq<string>, d: nat, n: nat) {
    forall i :: 0 <= i < |args| ==> RootBounded(list, FolderQuery(args[i]), d, n)
  }

  /** The bound a whole run needs: on the folders given, or on the whole drive if none is. */
  predicate RunBounded(list: Lister, args: seq<string>, d: nat, n: nat) {
    if args == [] then RootBounded(list, DriveQuery(), d, n) else FoldersBounded(list, args, d, n)
  }

  /** One argument: list the folder, then walk its children recursively, or log the failure. */
  function FolderTrace(list: Lister, untrash: Updater, folderId: string, d: nat, n: nat): seq<Event>
    requires RootBounded(list, FolderQuery(folderId), d, n)
  {
    var l := Paginate(list, FolderQuery(folderId), "", n);
    FetchEvents(FolderQuery(folderId), l.fetched) +
    match l.err {
      case Some(e) => [FolderListFailed(folderId, e)]
      case None => WalkTrace(list, untrash, l.files, true, d, n)
    }
  }

  /** The arguments, one after the other; a failure on one does not stop the next. */
  function ArgsTrace(list: Lister, untrash: Updater, args: seq<string>, d: nat, n: nat): seq<Event>
    requires FoldersBounded(list, args, d, n)
  {
    if args == [] then []
    else
      var init := args[..|args| - 1];
      assert forall i :: 0 <= i < |init| ==> init[i] == args[i];
      ArgsTrace(list, untrash, init, d, n) + FolderTrace(list, untrash, args[|args| - 1], d, n)
  }

  /** What a run produces: its trace, and the error it halts on (only a failed whole-drive
      listing is fatal). */
  datatype RunResult = RunResult(trace: seq<Event>, fatal: Option<Error>)

  /** A whole run: each folder argument in turn, or the whole drive when there is none. A run
      halts with an error only when no folder was given and the whole-drive listing failed,
      and then before any untrash call. */
  function RunSpec(list: Lister, untrash: Updater, args: seq<string>, d: nat, n: nat): (r: RunResult)
    requires RunBounded(list, args, d, n)
    ensures r.fatal.Some? ==> args == [] && Paginate(list, DriveQuery(), "", n).err == r.fatal && Untrashes(r.trace) == []
    ensures r.fatal.None? && args == [] ==> Paginate(list, DriveQuery(), "", n).err.None?
  {
    if args != [] then
      RunResult(ArgsTrace(list, untrash, args, d, n), None)
    else
      var l := Paginate(list, DriveQuery(), "", n);
      var fetches := FetchEvents(DriveQuery(), l.fetched);
      if l.err.Some? then
        FetchEventsAreListings(DriveQuery(), l.fetched);
        RunResult(fetches, l.err)
      else
        RunResult(fetches + WalkTrace(list, untrash, l.files, true, d, n), None)
  }

  /** Arguments are processed one by one with no memory of earlier ones: the run over
      `a + b` is the run over `a` followed by the run over `b`. A folder given twice is
      listed and walked twice. */
  lemma {:induction false} ArgsAppend(list: Lister, untrash: Updater, a: seq<string>, b: seq<string>, d: nat, n: nat)
    requires FoldersBounded(list, a + b, d, n)
    ensures FoldersBounded(list, a, d, n) && FoldersBounded(list, b, d, n)
    ensures ArgsTrace(list, untrash, a + b, d, n) == ArgsTrace(list, untrash, a, d, n) + ArgsTrace(list, untrash, b, d, n)
    decreases |b|
  {
    FoldersSplit(list, a, b, d, n);
    if b == [] {
      assert a + b == a;
    } else {
      var init := b[..|b| - 1];
      var id := b[|b| - 1];
      assert b == init + [id];
      assert a + b == (a + init) + [id];
      ArgsTraceSnoc(list, untrash, a + init, id, d, n);
      ArgsTraceSnoc(list, untrash, init, id, d, n);
      ArgsAppend(list, untrash, a, init, d, n);
      Regroup3(ArgsTrace(list, untrash, a, d, n), ArgsTrace(list, untrash, init, d, n),
               FolderTrace(list, untrash, id, d, n));
    }
  }

  lemma FoldersSplit(list: Lister, a: seq<string>, b: seq<string>, d: nat, n: nat)
    requires FoldersBounded(list, a + b, d, n)
    ensures FoldersBounded(list, a, d, n) && FoldersBounded(list, b, d, n)
  {
    assert forall i :: 0 <= i < |a| ==> (a + b)[i] == a[i];
    assert forall i :: 0 <= i < |b| ==> (a + b)[|a| + i] == b[i];
  }

  /** Unfolds `ArgsTrace` once at its last argument. */
  lemma ArgsTraceSnoc(list: Lister, untrash: Updater, args: seq<string>, id: string, d: nat, n: nat)
    requires FoldersBounded(list, args + [id], d, n)
    ensures FoldersBounded(list, args, d, n) && RootBounded(list, FolderQuery(id), d, n)
    ensures ArgsTrace(list, untrash, args + [id], d, n) == ArgsTrace(list, untrash, args, d, n) + FolderTrace(list, untrash, id, d, n)
  {
    FoldersSplit(list, args, [id], d, n);
    var all := args + [id];
    assert all[..|all| - 1] == args && all[|all| - 1] == id;
  }
}
