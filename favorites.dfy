/**
 * The favorites slice: a list of favourite team ids with toggle, add,
 * remove and initialise-from-storage reducers. Every reducer that changes
 * the list also writes it to the `favorites` storage slot (only in a
 * browser, where `window` exists).
 */
module Favorites {
  import opened Wrappers

  /** No id occurs twice. */
  predicate NoDuplicates(ids: seq<int>)
  {
    forall i, j :: 0 <= i < j < |ids| ==> ids[i] != ids[j]
  }

  lemma NoDuplicatesCons(x: int, ids: seq<int>)
    ensures NoDuplicates([x] + ids) <==> x !in ids && NoDuplicates(ids)
  {
    if x !in ids && NoDuplicates(ids) {
      forall i, j | 0 <= i < j < |[x] + ids|
        ensures ([x] + ids)[i] != ([x] + ids)[j]
      {
        if i == 0 {
          assert ([x] + ids)[j] == ids[j - 1];
        }
      }
    }
    if NoDuplicates([x] + ids) {
      forall i, j | 0 <= i < j < |ids|
        ensures ids[i] != ids[j]
      {
        assert ids[i] == ([x] + ids)[i + 1] && ids[j] == ([x] + ids)[j + 1];
      }
      forall k | 0 <= k < |ids|
        ensures ids[k] != x
      {
        assert ([x] + ids)[0] == x && ([x] + ids)[k + 1] == ids[k];
      }
    }
  }

  /** `Array.prototype.indexOf`: the first position of `t` in `ids`, or -1. */
  function IndexOf(ids: seq<int>, t: int): (i: int)
    ensures -1 <= i < |ids|
    ensures i == -1 <==> t !in ids
    ensures 0 <= i ==> ids[i] == t && t !in ids[..i]
  {
    if ids == [] then -1
    else if ids[0] == t then 0
    else
      var j := IndexOf(ids[1..], t);
      if j == -1 then -1
      else
        assert ids[..j + 1] == [ids[0]] + ids[1..][..j];
        j + 1
  }

  /**
   * The list after `toggleFavorite(t)`: the first occurrence of a present id
   * is spliced out, an absent id is pushed at the end.
   */
  function Toggled(ids: seq<int>, t: int): (r: seq<int>)
    ensures t !in ids ==> r == ids + [t]
    ensures t in ids ==>
      exists k :: 0 <= k < |ids| && ids[k] == t && t !in ids[..k] && r == ids[..k] + ids[k + 1..]
    ensures t in ids ==> multiset(r) == multiset(ids) - multiset{t}
  {
    var index := IndexOf(ids, t);
    if index > -1 then
      assert ids == ids[..index] + [t] + ids[index + 1..];
      ids[..index] + ids[index + 1..]
    else ids + [t]
  }

  /** The list after `addFavorite(t)`. */
  function Added(ids: seq<int>, t: int): (r: seq<int>)
    ensures t in r
    ensures ids <= r
    ensures |r| == if t in ids then |ids| else |ids| + 1
  {
    if t in ids then ids else ids + [t]
  }

  /** The list after `removeFavorite(t)`: `ids.filter(id => id !== t)`. */
  function Removed(ids: seq<int>, t: int): (r: seq<int>)
    ensures t !in r
    ensures forall x :: x != t ==> multiset(r)[x] == multiset(ids)[x]
    ensures |r| <= |ids|
  {
    if ids == [] then []
    else
      assert ids == [ids[0]] + ids[1..];
      (if ids[0] == t then [] else [ids[0]]) + Removed(ids[1..], t)
  }

  /** Toggling flips membership of a list without duplicates. */
  lemma ToggleFlipsMembership(ids: seq<int>, t: int)
    requires NoDuplicates(ids)
    ensures t in Toggled(ids, t) <==> t !in ids
  {
    if t in ids {
      var k := IndexOf(ids, t);
      var r := Toggled(ids, t);
      assert r == ids[..k] + ids[k + 1..];
      forall j | k < j < |ids|
        ensures ids[j] != t
      {
        assert ids[k] == t;
      }
      assert t !in ids[k + 1..];
    }
  }

  /** Toggling never changes whether any other id is present. */
  lemma ToggleLeavesOthers(ids: seq<int>, t: int, x: int)
    requires x != t
    ensures x in Toggled(ids, t) <==> x in ids
  {
    var r := Toggled(ids, t);
    if t in ids {
      assert multiset(r)[x] == multiset(ids)[x];
    } else {
      assert r == ids + [t];
    }
  }

  /** Splicing one element out of a list keeps it free of duplicates. */
  lemma SpliceKeepsNoDuplicates(ids: seq<int>, k: int)
    requires NoDuplicates(ids) && 0 <= k < |ids|
    ensures NoDuplicates(ids[..k] + ids[k + 1..])
  {
    var r := ids[..k] + ids[k + 1..];
    assert forall i :: 0 <= i < k ==> r[i] == ids[i];
    assert forall i :: k <= i < |r| ==> r[i] == ids[i + 1];
  }

  lemma ToggleKeepsNoDuplicates(ids: seq<int>, t: int)
    requires NoDuplicates(ids)
    ensures NoDuplicates(Toggled(ids, t))
  {
    if t in ids {
      var k := IndexOf(ids, t);
      SpliceKeepsNoDuplicates(ids, k);
    }
  }

  /** Toggling an id twice gives back the same favourites (as a collection). */
  lemma {:induction false} ToggleTwiceKeepsFavorites(ids: seq<int>, t: int)
    requires NoDuplicates(ids)
    ensures multiset(Toggled(Toggled(ids, t), t)) == multiset(ids)
    ensures t !in ids ==> Toggled(Toggled(ids, t), t) == ids
  {
    var once := Toggled(ids, t);
    ToggleFlipsMembership(ids, t);
    if t !in ids {
      assert once == ids + [t];
      var k := IndexOf(once, t);
      assert k == |ids| by {
        assert once[|ids|] == t;
      }
      assert once[..k] == ids;
    }
  }

  lemma AddKeepsNoDuplicates(ids: seq<int>, t: int)
    requires NoDuplicates(ids)
    ensures NoDuplicates(Added(ids, t))
  {
  }

  /** Adding an id that is already present changes nothing, so adding is idempotent. */
  lemma AddIsIdempotent(ids: seq<int>, t: int)
    ensures Added(Added(ids, t), t) == Added(ids, t)
  {
  }

  /** Removing keeps the other ids in order: it distributes over concatenation. */
  lemma {:induction false} RemovedAppend(a: seq<int>, b: seq<int>, t: int)
    ensures Removed(a + b, t) == Removed(a, t) + Removed(b, t)
  {
    if a != [] {
      assert (a + b)[0] == a[0] && (a + b)[1..] == a[1..] + b;
      RemovedAppend(a[1..], b, t);
    } else {
      assert a + b == b;
    }
  }

  /** Removing an absent id leaves the list as it is. */
  lemma {:induction false} RemovedAbsent(ids: seq<int>, t: int)
    requires t !in ids
    ensures Removed(ids, t) == ids
  {
    if ids != [] {
      RemovedAbsent(ids[1..], t);
    }
  }

  lemma {:induction false} RemoveKeepsNoDuplicates(ids: seq<int>, t: int)
    requires NoDuplicates(ids)
    ensures NoDuplicates(Removed(ids, t))
  {
    if ids != [] {
      NoDuplicatesCons(ids[0], ids[1..]);
      assert ids == [ids[0]] + ids[1..];
      RemoveKeepsNoDuplicates(ids[1..], t);
      var rest := Removed(ids[1..], t);
      if ids[0] != t {
        assert multiset(rest)[ids[0]] == multiset(ids[1..])[ids[0]];
        NoDuplicatesCons(ids[0], rest);
      } else {
        assert Removed(ids, t) == rest;
      }
    }
  }

  /** What reading the `favorites` slot and `JSON.parse` on it produced. */
  datatype StoredFavorites =
    | Missing                      // no item, or the empty string
    | Unparsable                   // `JSON.parse` threw
    | NotAnArray                   // parsed, but not an array
    | ParsedArray(ids: seq<int>)   // parsed to an array of ids

  /** The list after `initializeFavorites` in a browser. */
  function Initialized(ids: seq<int>, saved: StoredFavorites): (r: seq<int>)
    ensures saved.ParsedArray? ==> r == saved.ids
    ensures !saved.ParsedArray? ==> r == ids
  {
    match saved
    case ParsedArray(stored) => stored
    case _ => ids
  }

  /** The favorites state together with its persisted storage slot. */
  class FavoritesStore {
    var teamIds: seq<int>
    /** The `favorites` storage slot: the JSON array last written, if any. */
    ghost var persisted: Option<seq<int>>
    /** Whether the reducers run where `window` (and so storage) exists. */
    const inBrowser: bool

    constructor (inBrowser: bool, ghost slot: Option<seq<int>>)
      ensures teamIds == []
      ensures persisted == slot
      ensures this.inBrowser == inBrowser
    {
      teamIds := [];
      persisted := slot;
      this.inBrowser := inBrowser;
    }

    /** `selectIsFavorite(t)`. */
    function IsFavorite(teamId: int): (r: bool)
      reads this
      ensures r <==> IndexOf(teamIds, teamId) != -1
    {
      teamId in teamIds
    }

    method ToggleFavorite(teamId: int)
      modifies this
      ensures teamIds == Toggled(old(teamIds), teamId)
      ensures persisted == if inBrowser then Some(teamIds) else old(persisted)
    {
      var index := IndexOf(teamIds, teamId);
      if index > -1 {
        teamIds := teamIds[..index] + teamIds[index + 1..];
      } else {
        teamIds := teamIds + [teamId];
      }
      if inBrowser {
        persisted := Some(teamIds);
      }
    }

    method AddFavorite(teamId: int)
      modifies this
      ensures teamIds == Added(old(teamIds), teamId)
      ensures persisted == if inBrowser && teamId !in old(teamIds) then Some(teamIds) else old(persisted)
    {
      if teamId !in teamIds {
        teamIds := teamIds + [teamId];
        if inBrowser {
          persisted := Some(teamIds);
        }
      }
    }

    method RemoveFavorite(teamId: int)
      modifies this
      ensures teamIds == Removed(old(teamIds), teamId)
      ensures persisted == if inBrowser then Some(teamIds) else old(persisted)
    {
      teamIds := Removed(teamIds, teamId);
      if inBrowser {
        persisted := Some(teamIds);
      }
    }

    method InitializeFavorites(saved: StoredFavorites)
      modifies this
      ensures teamIds == if inBrowser then Initialized(old(teamIds), saved) else old(teamIds)
      ensures persisted == old(persisted)
    {
      if inBrowser {
        match saved {
          case ParsedArray(stored) =>
            teamIds := stored;
          case _ =>
        }
      }
    }
  }
}
