/** The favorites collection and the per-user favoriteCount that toggleFavorite keeps in
    step with it. */
module Favorites {
  import opened Identity
  import opened Records

  /** The keys of the favorites that belong to `u`. */
  function FavoritesOf(favs: map<string, Favorite>, u: Uid): set<string> {
    set k | k in favs && favs[k].uid == u
  }

  /** Every favorite is stored under the key built from its own uid and news id, and its uid
      has the generated length. */
  ghost predicate WellKeyed(favs: map<string, Favorite>) {
    forall k :: k in favs ==>
      |favs[k].uid| == UidLength && k == FavoriteKey(favs[k].uid, favs[k].newsId)
  }

  /** The favorites after a toggle on key `k`: removed when present, otherwise `f` is added. */
  function Toggled(favs: map<string, Favorite>, k: string, f: Favorite): map<string, Favorite> {
    if k in favs then favs - {k} else favs[k := f]
  }

  /** The change a toggle on key `k` makes to the owner's favoriteCount. */
  function ToggleDelta(favs: map<string, Favorite>, k: string): int {
    if k in favs then -1 else 1
  }

  /** A toggle flips membership of its key and leaves every other favorite alone. */
  lemma ToggleFlips(favs: map<string, Favorite>, k: string, f: Favorite)
    ensures k in Toggled(favs, k, f) <==> k !in favs
    ensures k !in favs ==> Toggled(favs, k, f)[k] == f
    ensures forall j :: j != k ==> (j in Toggled(favs, k, f) <==> j in favs)
    ensures forall j :: j != k && j in favs ==> Toggled(favs, k, f)[j] == favs[j]
  {
  }

  /** Toggling the same key twice restores the set of favorite keys and the owner's count;
      when the key was absent the collection is restored exactly (a favorite that was present
      comes back with the second call's payload and time). */
  lemma ToggleTwice(favs: map<string, Favorite>, k: string, f1: Favorite, f2: Favorite)
    ensures Toggled(Toggled(favs, k, f1), k, f2).Keys == favs.Keys
    ensures ToggleDelta(favs, k) + ToggleDelta(Toggled(favs, k, f1), k) == 0
    ensures k !in favs ==> Toggled(Toggled(favs, k, f1), k, f2) == favs
  {
    if k in favs {
      assert Toggled(Toggled(favs, k, f1), k, f2).Keys == favs.Keys - {k} + {k};
    } else {
      assert Toggled(Toggled(favs, k, f1), k, f2) == favs;
    }
  }

  /** A toggle by `u` with a matching favorite keeps every favorite under its own key. */
  lemma ToggleKeepsWellKeyed(favs: map<string, Favorite>, u: Uid, newsId: string, f: Favorite)
    requires WellKeyed(favs)
    requires |u| == UidLength && f.uid == u && f.newsId == newsId
    ensures WellKeyed(Toggled(favs, FavoriteKey(u, newsId), f))
  {
  }

  /** Removing one of `u`'s favorites lowers their number by one. */
  lemma RemoveOwnFavorite(favs: map<string, Favorite>, u: Uid, k: string)
    requires k in favs && favs[k].uid == u
    ensures |FavoritesOf(favs - {k}, u)| == |FavoritesOf(favs, u)| - 1
  {
    assert FavoritesOf(favs - {k}, u) == FavoritesOf(favs, u) - {k};
  }

  /** Adding a favorite of `u` under a new key raises their number by one. */
  lemma AddOwnFavorite(favs: map<string, Favorite>, u: Uid, k: string, f: Favorite)
    requires k !in favs && f.uid == u
    ensures |FavoritesOf(favs[k := f], u)| == |FavoritesOf(favs, u)| + 1
  {
    assert FavoritesOf(favs[k := f], u) == FavoritesOf(favs, u) + {k};
  }

  /** A toggle by `u` on one of `u`'s own keys changes the number of `u`'s favorites by
      exactly ToggleDelta. Because uids have a fixed length, a present key cannot belong to
      another user, so the removal never takes someone else's favorite. */
  lemma {:induction false} ToggleCountOwner(favs: map<string, Favorite>, u: Uid, newsId: string, f: Favorite)
    requires WellKeyed(favs)
    requires |u| == UidLength && f.uid == u
    ensures var k := FavoriteKey(u, newsId);
      |FavoritesOf(Toggled(favs, k, f), u)| == |FavoritesOf(favs, u)| + ToggleDelta(favs, k)
  {
    var k := FavoriteKey(u, newsId);
    if k in favs {
      var g := favs[k];
      FavoriteKeyInjective(g.uid, g.newsId, u, newsId);
      RemoveOwnFavorite(favs, u, k);
    } else {
      AddOwnFavorite(favs, u, k, f);
    }
  }

  /** The same toggle leaves every other user's favorites as they were. */
  lemma {:induction false} ToggleCountOthers(favs: map<string, Favorite>, u: Uid, newsId: string, f: Favorite, v: Uid)
    requires WellKeyed(favs)
    requires |u| == UidLength && f.uid == u && v != u
    ensures FavoritesOf(Toggled(favs, FavoriteKey(u, newsId), f), v) == FavoritesOf(favs, v)
  {
    var k := FavoriteKey(u, newsId);
    if k in favs {
      var g := favs[k];
      FavoriteKeyInjective(g.uid, g.newsId, u, newsId);
    }
  }
}
