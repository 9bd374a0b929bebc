/** The favourites list (`useFavorites`): a list of quotes loaded once from
    the store, toggled by content, and written back in full after every
    toggle. */
module Favorites {
  import opened Results
  import opened Quotes
  import opened Storage

  /** Some entry of `favs` has this content (`favorites.some(...)`). */
  predicate HasContent(favs: seq<Quote>, content: string) {
    exists i :: 0 <= i < |favs| && favs[i].content == content
  }

  /** `favs.filter(fav => fav.content !== content)`: every entry with this
      content is dropped, every other entry is kept with its multiplicity. */
  function RemoveContent(favs: seq<Quote>, content: string): (r: seq<Quote>)
    ensures !HasContent(r, content)
    ensures HasContent(favs, content) ==> |r| < |favs|
    ensures |r| <= |favs|
  {
    if |favs| == 0 then []
    else
      var rest := RemoveContent(favs[1..], content);
      assert favs == [favs[0]] + favs[1..];
      assert HasContent(favs, content) && favs[0].content != content ==> HasContent(favs[1..], content);
      if favs[0].content == content then rest
      else
        assert forall i :: 1 <= i < |[favs[0]] + rest| ==> ([favs[0]] + rest)[i] == rest[i - 1];
        [favs[0]] + rest
  }

  /** `toggleFavorite`'s list: drop every entry with the quote's content if
      there is one, otherwise append the quote at the end. */
  function Toggle(favs: seq<Quote>, q: Quote): (r: seq<Quote>)
    ensures !HasContent(favs, q.content) ==> r == favs + [q] && |r| == |favs| + 1
    ensures HasContent(favs, q.content) ==> r == RemoveContent(favs, q.content)
    ensures HasContent(favs, q.content) ==> !HasContent(r, q.content) && |r| < |favs|
    ensures HasContent(favs, q.content) ==>
              forall x :: x in r <==> x in favs && x.content != q.content
  {
    if HasContent(favs, q.content) then
      RemoveContentCounts(favs, q.content);
      RemoveContent(favs, q.content)
    else favs + [q]
  }

  /** The filtered list holds each quote as often as `favs` does, except
      that quotes with the removed content do not occur at all. */
  lemma {:induction false} RemoveContentCounts(favs: seq<Quote>, content: string)
    ensures forall x :: multiset(RemoveContent(favs, content))[x] ==
                        if x.content == content then 0 else multiset(favs)[x]
    decreases |favs|
  {
    if |favs| > 0 {
      RemoveContentCounts(favs[1..], content);
      assert favs == [favs[0]] + favs[1..];
      assert multiset(favs) == multiset{favs[0]} + multiset(favs[1..]);
      if favs[0].content != content {
        var rest := RemoveContent(favs[1..], content);
        assert multiset([favs[0]] + rest) == multiset{favs[0]} + multiset(rest);
      }
    }
  }

  /** Filtering distributes over concatenation, so the kept entries stay in
      their original relative order. */
  lemma {:induction false} RemoveContentDistributes(a: seq<Quote>, b: seq<Quote>, content: string)
    ensures RemoveContent(a + b, content) == RemoveContent(a, content) + RemoveContent(b, content)
    decreases |a|
  {
    if |a| == 0 {
      assert a + b == b;
    } else {
      assert (a + b)[1..] == a[1..] + b;
      RemoveContentDistributes(a[1..], b, content);
    }
  }

  /** Of any two kept entries, the earlier one in `favs` is still earlier in
      the filtered list. */
  lemma RemoveContentKeepsOrder(favs: seq<Quote>, content: string, i: int, j: int)
    requires 0 <= i < j < |favs|
    requires favs[i].content != content && favs[j].content != content
    ensures exists i', j' :: 0 <= i' < j' < |RemoveContent(favs, content)|
                          && RemoveContent(favs, content)[i'] == favs[i]
                          && RemoveContent(favs, content)[j'] == favs[j]
  {
    var r := RemoveContent(favs, content);
    var pre, mid, post := favs[..i], favs[i + 1..j], favs[j + 1..];
    assert favs == pre + ([favs[i]] + (mid + ([favs[j]] + post)));
    RemoveContentDistributes(pre, [favs[i]] + (mid + ([favs[j]] + post)), content);
    RemoveContentDistributes([favs[i]], mid + ([favs[j]] + post), content);
    RemoveContentDistributes(mid, [favs[j]] + post, content);
    RemoveContentDistributes([favs[j]], post, content);
    KeptSingleton(favs[i], content);
    KeptSingleton(favs[j], content);
    var rp, rm, rq := RemoveContent(pre, content), RemoveContent(mid, content), RemoveContent(post, content);
    assert r == rp + ([favs[i]] + (rm + ([favs[j]] + rq)));
    assert r[|rp|] == favs[i];
    assert r[|rp| + 1 + |rm|] == favs[j];
  }

  lemma KeptSingleton(x: Quote, content: string)
    requires x.content != content
    ensures RemoveContent([x], content) == [x]
  {
  }

  /** Filtering out a content no entry has leaves the list as it is. */
  lemma {:induction false} RemoveAbsentContent(favs: seq<Quote>, content: string)
    requires !HasContent(favs, content)
    ensures RemoveContent(favs, content) == favs
    decreases |favs|
  {
    if |favs| > 0 {
      assert !HasContent(favs[1..], content) by {
        forall i | 0 <= i < |favs[1..]|
          ensures favs[1..][i].content != content
        {
          assert favs[1..][i] == favs[i + 1];
        }
      }
      RemoveAbsentContent(favs[1..], content);
    }
  }

  /** Toggling a quote that is not a favourite, then toggling it again,
      gives back the original list. */
  lemma ToggleTwiceRestores(favs: seq<Quote>, q: Quote)
    requires !HasContent(favs, q.content)
    ensures Toggle(Toggle(favs, q), q) == favs
  {
    var added := favs + [q];
    assert added[|favs|] == q;
    assert HasContent(added, q.content);
    RemoveContentDistributes(favs, [q], q.content);
    RemoveAbsentContent(favs, q.content);
    assert RemoveContent([q], q.content) == [];
  }

  /** Identity is by content alone: a stored quote with the same text and a
      different author is removed. */
  lemma ToggleMatchesByContentOnly()
    ensures Toggle([Quote("A", "X")], Quote("A", "Y")) == []
  {
    assert [Quote("A", "X")][0].content == "A";
  }

  /** The hook's state: the in-memory list and the store it persists to. */
  datatype State = State(favorites: seq<Quote>, store: Store)

  /** The mount-time read: an absent "favorites" entry is the empty list. */
  function Load(store: Store): (r: seq<Quote>)
    ensures StoredFavorites(store).None? ==> r == []
    ensures StoredFavorites(store).Some? ==> r == StoredFavorites(store).value
  {
    match StoredFavorites(store)
    case None => []
    case Some(favs) => favs
  }

  function Mount(store: Store): State {
    State(Load(store), store)
  }

  /** `toggleFavorite`: update the list, then persist the whole new list
      under "favorites"; nothing else in the store changes. */
  function ToggleFavorite(s: State, q: Quote): (r: State)
    ensures r.favorites == Toggle(s.favorites, q)
    ensures StoredFavorites(r.store) == Some(r.favorites)
    ensures r.store - {FavoritesKey} == s.store - {FavoritesKey}
  {
    var updated := Toggle(s.favorites, q);
    State(updated, s.store[FavoritesKey := QuoteListValue(updated)])
  }

  /** Mounting again after a toggle shows exactly the list the toggle left,
      and the saved "quote" entry is not disturbed. */
  lemma ReloadAfterToggle(s: State, q: Quote)
    ensures Mount(ToggleFavorite(s, q).store).favorites == ToggleFavorite(s, q).favorites
    ensures StoredQuote(ToggleFavorite(s, q).store) == StoredQuote(s.store)
  {
  }
}
