/** main.py: the bot's global tracking state and the two pollers that turn a fresh
    snapshot of listings into the list of new ones, plus the `!dm` toggle. */
module Monitor {
  import opened PyBuiltins
  import opened StudefiPage
  import DbManager

  // ---------------------------------------------------------------------------
  // CROUS API source: listings keyed by their `id`.

  /** One entry of `results.items`: `id` is `item.get('id')` (None when absent), `title` its `label`, kept only for display. */
  datatype ApiItem = ApiItem(id: Option<int>, title: string)
  /** The response body: JSON whose `results.items` (default []) are the listings, or a body `.json()` rejects. */
  datatype ApiBody = NotJson | Json(items: seq<ApiItem>)
  /** The outcome of the POST to the search API. */
  datatype ApiReply = ApiRaised | ApiReplied(status: int, body: ApiBody)

  /** The result of one tick of a poller. */
  datatype Poll<T> = Skipped | Failed | Completed(reported: seq<T>)

  /** The items of a successful fetch: status 200 and a JSON body. */
  function FetchedItems(reply: ApiReply): Option<seq<ApiItem>> {
    match reply
    case ApiReplied(200, Json(items)) => Some(items)
    case _ => None
  }

  /** `{item.get('id') for item in items}`. */
  function Ids(items: seq<ApiItem>): set<Option<int>> {
    set it | it in items :: it.id
  }

  /** `[item for item in items if item.get('id') not in seen]`. */
  function NewItems(items: seq<ApiItem>, seen: set<Option<int>>): seq<ApiItem> {
    if items == [] then []
    else (if items[0].id in seen then [] else [items[0]]) + NewItems(items[1..], seen)
  }

  /** Every fetched item whose id was not seen is new, as many times as it was fetched; no other item is. */
  lemma {:induction false} NewItemsCounts(items: seq<ApiItem>, seen: set<Option<int>>, x: ApiItem)
    ensures multiset(NewItems(items, seen))[x] == if x.id in seen then 0 else multiset(items)[x]
  {
    if items != [] {
      assert items == [items[0]] + items[1..];
      NewItemsCounts(items[1..], seen, x);
    }
  }

  /** New items keep the fetched order. */
  lemma {:induction false} NewItemsAppend(a: seq<ApiItem>, b: seq<ApiItem>, seen: set<Option<int>>)
    ensures NewItems(a + b, seen) == NewItems(a, seen) + NewItems(b, seen)
  {
    if a == [] {
      assert a + b == b;
    } else {
      var kept := if a[0].id in seen then [] else [a[0]];
      assert (a + b)[0] == a[0] && (a + b)[1..] == a[1..] + b;
      NewItemsAppend(a[1..], b, seen);
      assert kept + (NewItems(a[1..], seen) + NewItems(b, seen)) == (kept + NewItems(a[1..], seen)) + NewItems(b, seen);
    }
  }

  /** Nothing is new against a remembered set that already holds every fetched id. */
  lemma {:induction false} NothingNewWhenAllSeen(items: seq<ApiItem>, seen: set<Option<int>>)
    requires Ids(items) <= seen
    ensures NewItems(items, seen) == []
  {
    if items != [] {
      assert items[0] in items;
      assert Ids(items[1..]) <= Ids(items) by {
        forall id | id in Ids(items[1..]) ensures id in Ids(items) {
          var it :| it in items[1..] && it.id == id;
          assert it in items;
        }
      }
      NothingNewWhenAllSeen(items[1..], seen);
    }
  }

  /** The remembered ids after a tick: replaced by the fetched ids on success, untouched otherwise. */
  function NextSeen(seen: set<Option<int>>, reply: ApiReply): set<Option<int>> {
    match FetchedItems(reply)
    case Some(items) => Ids(items)
    case None => seen
  }

  /** What a tick with channels reports: the new items on success, a failure otherwise. */
  function CrousPoll(seen: set<Option<int>>, reply: ApiReply): Poll<ApiItem> {
    match FetchedItems(reply)
    case Some(items) => Completed(NewItems(items, seen))
    case None => Failed
  }

  /** Two successful ticks fetching the same items: the second reports nothing new. */
  lemma ReplayReportsNothing(seen: set<Option<int>>, reply: ApiReply)
    requires FetchedItems(reply).Some?
    ensures CrousPoll(NextSeen(seen, reply), reply) == Completed([])
  {
    NothingNewWhenAllSeen(FetchedItems(reply).value, Ids(FetchedItems(reply).value));
  }

  /** The remembered ids after a series of ticks. */
  function SeenAfter(seen: set<Option<int>>, replies: seq<ApiReply>): set<Option<int>>
    decreases |replies|
  {
    if replies == [] then seen
    else NextSeen(SeenAfter(seen, replies[..|replies| - 1]), replies[|replies| - 1])
  }

  /** After a series of ticks the bot remembers exactly the ids of the last successful
      fetch; the ids of earlier fetches are forgotten, not accumulated. */
  lemma {:induction false} SeenAfterIsLastSuccess(seen: set<Option<int>>, replies: seq<ApiReply>, k: nat)
    requires k < |replies| && FetchedItems(replies[k]).Some?
    requires forall j :: k < j < |replies| ==> FetchedItems(replies[j]).None?
    ensures SeenAfter(seen, replies) == Ids(FetchedItems(replies[k]).value)
    decreases |replies|
  {
    var n := |replies| - 1;
    if k < n {
      var init := replies[..n];
      assert forall i :: 0 <= i < n ==> init[i] == replies[i];
      SeenAfterIsLastSuccess(seen, init, k);
    }
  }

  /** Ticks that all fail leave the remembered ids as they were. */
  lemma {:induction false} SeenAfterFailures(seen: set<Option<int>>, replies: seq<ApiReply>)
    requires forall i :: 0 <= i < |replies| ==> FetchedItems(replies[i]).None?
    ensures SeenAfter(seen, replies) == seen
    decreases |replies|
  {
    if replies != [] {
      var n := |replies| - 1;
      var init := replies[..n];
      assert forall i :: 0 <= i < n ==> init[i] == replies[i];
      SeenAfterFailures(seen, init);
    }
  }

  /** The scenario of a listing that vanishes and comes back: it is reported again. */
  lemma VanishedListingIsNewAgain(a: ApiItem, b: ApiItem)
    requires a.id != b.id
    ensures var polls := [ApiReplied(200, Json([a])), ApiReplied(200, Json([b])), ApiReplied(200, Json([a]))];
      && CrousPoll(SeenAfter({}, polls[..0]), polls[0]) == Completed([a])
      && CrousPoll(SeenAfter({}, polls[..1]), polls[1]) == Completed([b])
      && CrousPoll(SeenAfter({}, polls[..2]), polls[2]) == Completed([a])
  {
    var polls := [ApiReplied(200, Json([a])), ApiReplied(200, Json([b])), ApiReplied(200, Json([a]))];
    assert [a][1..] == [] && [b][1..] == [];
    assert Ids([a]) == {a.id} by { assert a in [a]; }
    assert Ids([b]) == {b.id} by { assert b in [b]; }
    assert polls[..0] == [];
    assert SeenAfter({}, polls[..1]) == {a.id} by {
      assert polls[..1][..0] == [];
    }
    assert SeenAfter({}, polls[..2]) == {b.id} by {
      assert polls[..2][..1] == polls[..1];
    }
    assert NewItems([a], {}) == [a];
    assert NewItems([b], {a.id}) == [b];
    assert NewItems([a], {b.id}) == [a];
  }

  /** Ids 1 and 2, then 2 and 3: first both are new, then only 3. */
  lemma TwoPollScenario(i1: ApiItem, i2: ApiItem, i3: ApiItem)
    requires i1.id == Some(1) && i2.id == Some(2) && i3.id == Some(3)
    ensures CrousPoll({}, ApiReplied(200, Json([i1, i2]))) == Completed([i1, i2])
    ensures CrousPoll(NextSeen({}, ApiReplied(200, Json([i1, i2]))), ApiReplied(200, Json([i2, i3]))) == Completed([i3])
  {
    assert Ids([i1, i2]) == {Some(1), Some(2)} by {
      assert i1 in [i1, i2] && i2 in [i1, i2];
    }
    assert [i2, i3][1..] == [i3] && [i3][1..] == [];
    assert [i1, i2][1..] == [i2] && [i2][1..] == [];
    assert NewItems([i1, i2], {}) == [i1, i2] by {
      assert NewItems([i2], {}) == [i2];
    }
    assert NewItems([i2, i3], {Some(1), Some(2)}) == [i3] by {
      assert NewItems([i3], {Some(1), Some(2)}) == [i3];
    }
  }

  // ---------------------------------------------------------------------------
  // Studefi page source: residences keyed by name and link.

  /** `f"{name}:{link}"`. */
  function Key(r: Residence): string {
    r.name + ":" + r.link
  }

  /** The keys of the residences. */
  function KeySet(rs: seq<Residence>): set<string>
    decreases |rs|
  {
    if rs == [] then {} else KeySet(rs[..|rs| - 1]) + {Key(rs[|rs| - 1])}
  }

  /** The residences whose key is not in `seen`, in page order, repeats included. */
  function Unseen(rs: seq<Residence>, seen: set<string>): seq<Residence>
    decreases |rs|
  {
    if rs == [] then []
    else Unseen(rs[..|rs| - 1], seen) + (if Key(rs[|rs| - 1]) in seen then [] else [rs[|rs| - 1]])
  }

  /** A key is remembered exactly when some residence of the scan has it. */
  lemma {:induction false} KeySetMembers(rs: seq<Residence>, k: string)
    ensures k in KeySet(rs) <==> exists r :: r in rs && Key(r) == k
    decreases |rs|
  {
    if rs != [] {
      var init := rs[..|rs| - 1];
      assert rs == init + [rs[|rs| - 1]];
      KeySetMembers(init, k);
    }
  }

  /** A residence is reported exactly when it was scanned and its key was not seen. */
  lemma {:induction false} UnseenMembers(rs: seq<Residence>, seen: set<string>, x: Residence)
    ensures x in Unseen(rs, seen) <==> x in rs && Key(x) !in seen
    decreases |rs|
  {
    if rs != [] {
      var init := rs[..|rs| - 1];
      assert rs == init + [rs[|rs| - 1]];
      UnseenMembers(init, seen, x);
    }
  }

  /** Nothing is reported against a remembered set that holds every scanned key. */
  lemma {:induction false} NothingUnseenWhenAllSeen(rs: seq<Residence>, seen: set<string>)
    requires KeySet(rs) <= seen
    ensures Unseen(rs, seen) == []
    decreases |rs|
  {
    if rs != [] {
      NothingUnseenWhenAllSeen(rs[..|rs| - 1], seen);
    }
  }

  /** Two different residences can share a key, since both parts may hold ':'; once one of them is remembered
      from an earlier scan, the other is not reported. */
  lemma KeyNotInjective()
    ensures Residence("a:b", "c") != Residence("a", "b:c")
    ensures Key(Residence("a:b", "c")) == Key(Residence("a", "b:c"))
  {
    assert "a:b" + ":" + "c" == "a:b:c";
    assert "a" + ":" + "b:c" == "a:b:c";
  }

  /** The residences of a successful scan of main.php: status 200 and every available element readable. */
  function ScannedResidences(reply: Reply): Option<seq<Residence>> {
    if reply.Raised? || reply.page.status != 200 then None
    else AvailableResidences(reply.page.listing)
  }

  /** The remembered keys after a Studefi tick. */
  function NextStudefiSeen(seen: set<string>, reply: Reply): set<string> {
    match ScannedResidences(reply)
    case Some(rs) => KeySet(rs)
    case None => seen
  }

  /** What a Studefi tick with channels reports. */
  function StudefiPoll(seen: set<string>, reply: Reply): Poll<Residence> {
    match ScannedResidences(reply)
    case Some(rs) => Completed(Unseen(rs, seen))
    case None => Failed
  }

  /** Two successful Studefi ticks on the same page: the second reports nothing new. */
  lemma StudefiReplayReportsNothing(seen: set<string>, reply: Reply)
    requires ScannedResidences(reply).Some?
    ensures StudefiPoll(NextStudefiSeen(seen, reply), reply) == Completed([])
  {
    var rs := ScannedResidences(reply).value;
    NothingUnseenWhenAllSeen(rs, KeySet(rs));
  }

  // ---------------------------------------------------------------------------
  // The bot's globals and the operations that update them.

  /** `dm_users` after `!dm`: the user leaves it if present, joins it otherwise. */
  function Toggled(users: set<int>, userId: int): (r: set<int>)
    ensures userId in r <==> userId !in users
    ensures forall u :: u != userId ==> (u in r <==> u in users)
  {
    if userId in users then users - {userId} else users + {userId}
  }

  /** Toggling twice restores the set. */
  lemma ToggleTwice(users: set<int>, userId: int)
    ensures Toggled(Toggled(users, userId), userId) == users
  {
  }

  class Bot {
    /** `last_results`: the ids of the last successful CROUS fetch. */
    var lastResults: set<Option<int>>
    /** `last_studefi_results`: the keys of the last successful Studefi scan. */
    var lastStudefiResults: set<string>
    /** `channels`: one alert channel per guild. */
    var channels: seq<int>
    /** `dm_users`: users who get alerts in DM. */
    var dmUsers: set<int>

    /** Start-up: empty tracking sets, then `on_ready` sets the channels it found and loads the DM users. */
    constructor (found: seq<int>, db: DbManager.Store)
      ensures lastResults == {} && lastStudefiResults == {}
      ensures channels == found && dmUsers == db.dmUsers
    {
      lastResults := {};
      lastStudefiResults := {};
      channels := found;
      dmUsers := db.dmUsers;
    }

    /** `check_crous_api`: nothing without channels; otherwise on a 200 JSON reply report
        the unseen items and replace the remembered ids, and on any failure change nothing. */
    method CheckCrousApi(reply: ApiReply) returns (poll: Poll<ApiItem>)
      modifies this`lastResults
      ensures channels == [] ==> poll == Skipped && lastResults == old(lastResults)
      ensures channels != [] ==> poll == CrousPoll(old(lastResults), reply) && lastResults == NextSeen(old(lastResults), reply)
    {
      if channels == [] {
        return Skipped;
      }
      if reply.ApiRaised? || reply.status != 200 || reply.body.NotJson? {
        return Failed;
      }
      var items := reply.body.items;
      var current := set it | it in items :: it.id;
      var newItems := NewItems(items, lastResults);
      lastResults := current;
      poll := Completed(newItems);
    }

    /** `check_studefi`: nothing without channels; otherwise scan the available residences,
        collecting keys and unseen residences, and replace the remembered keys only when the
        whole scan succeeds. */
    method CheckStudefi(reply: Reply) returns (poll: Poll<Residence>)
      modifies this`lastStudefiResults
      ensures channels == [] ==> poll == Skipped && lastStudefiResults == old(lastStudefiResults)
      ensures channels != [] ==> poll == StudefiPoll(old(lastStudefiResults), reply) &&
                                 lastStudefiResults == NextStudefiSeen(old(lastStudefiResults), reply)
    {
      if channels == [] {
        return Skipped;
      }
      if reply.Raised? || reply.page.status != 200 {
        return Failed;
      }
      var elems := reply.page.listing;
      var current: set<string> := {};
      var newResidences: seq<Residence> := [];
      ghost var scanned: seq<Residence> := [];
      var i := 0;
      while i < |elems|
        invariant 0 <= i <= |elems|
        invariant AvailableResidences(elems[..i]) == Some(scanned)
        invariant current == KeySet(scanned)
        invariant newResidences == Unseen(scanned, lastStudefiResults)
      {
        assert elems[..i + 1][..i] == elems[..i];
        var e := elems[i];
        if e.dispo.Some? {
          var src := e.dispo.value.src.GetOr("");
          if !Contains(src, UnavailableMarker) {
            if e.nameLink.None? {
              // AttributeError on the missing name anchor: caught, nothing committed.
              assert !(forall j :: 0 <= j < |elems| && ShownAvailable(elems[j]) ==> elems[j].nameLink.Some?);
              return Failed;
            }
            var name := e.nameLink.value.text;
            var link := e.nameLink.value.href.GetOr("");
            var resultId := name + ":" + link;
            current := current + {resultId};
            if resultId !in lastStudefiResults {
              newResidences := newResidences + [Residence(name, link)];
            }
            assert (scanned + [Residence(name, link)])[..|scanned|] == scanned;
            scanned := scanned + [Residence(name, link)];
          }
        }
        i := i + 1;
      }
      assert elems[..i] == elems;
      lastStudefiResults := current;
      poll := Completed(newResidences);
    }

    /** `!dm`: flips the user's membership, in memory and in the database alike. */
    method ToggleDm(userId: int, db: DbManager.Store) returns (enabled: bool)
      modifies this`dmUsers, db`dmUsers
      ensures enabled <==> userId !in old(dmUsers)
      ensures dmUsers == Toggled(old(dmUsers), userId)
      ensures db.dmUsers == if enabled then old(db.dmUsers) + {userId} else old(db.dmUsers) - {userId}
      ensures old(dmUsers) == old(db.dmUsers) ==> dmUsers == db.dmUsers
    {
      if userId in dmUsers {
        dmUsers := dmUsers - {userId};
        db.RemoveDmUser(userId);
        enabled := false;
      } else {
        dmUsers := dmUsers + {userId};
        db.AddDmUser(userId);
        enabled := true;
      }
    }
  }
}
