/**
 * Values of the account store (src/stores/beatleader/account.js): clans,
 * player ids, the commands published on the event bus, and the two
 * "filter by id" operations the store applies to its lists.
 */
module AccountModel {
  import opened Wrappers

  type PlayerId = string

  /**
   * A clan as the account store holds it. An `id` of 0 stands for a missing
   * (falsy) id; `pendingInvites` is None when the field is not an array.
   */
  datatype Clan = Clan(id: int, pendingInvites: Option<seq<PlayerId>>)

  /** The events published as 'player-add-cmd' and 'player-remove-cmd'. */
  datatype Command = PlayerAdd(playerId: PlayerId) | PlayerRemove(playerId: PlayerId)

  /** `s.filter(c => c?.id !== id)`: drop every clan with that id. */
  function WithoutClan(s: seq<Clan>, id: int): (r: seq<Clan>)
    ensures forall i :: 0 <= i < |r| ==> r[i].id != id
    ensures |r| <= |s|
  {
    if s == [] then []
    else
      var rest := WithoutClan(s[1..], id);
      if s[0].id == id then rest else [s[0]] + rest
  }

  /** Every clan with another id is kept, as often as it occurs. */
  lemma {:induction false} WithoutClanKeepsOthers(s: seq<Clan>, id: int, c: Clan)
    requires c.id != id
    ensures multiset(WithoutClan(s, id))[c] == multiset(s)[c]
  {
    if s != [] {
      assert s == [s[0]] + s[1..];
      WithoutClanKeepsOthers(s[1..], id, c);
    }
  }

  /** Filtering commutes with concatenation, so the clans that remain keep their order. */
  lemma {:induction false} WithoutClanKeepsOrder(a: seq<Clan>, b: seq<Clan>, id: int)
    ensures WithoutClan(a + b, id) == WithoutClan(a, id) + WithoutClan(b, id)
  {
    if a != [] {
      var ab := a + b;
      assert ab[0] == a[0] && ab[1..] == a[1..] + b;
      WithoutClanKeepsOrder(a[1..], b, id);
      var head := if a[0].id == id then [] else [a[0]];
      assert WithoutClan(ab, id) == head + WithoutClan(a[1..] + b, id);
      assert WithoutClan(a, id) == head + WithoutClan(a[1..], id);
    } else {
      assert a + b == b;
    }
  }

  /** A list with no clan of that id is left as it is. */
  lemma {:induction false} WithoutClanAbsent(s: seq<Clan>, id: int)
    requires forall i :: 0 <= i < |s| ==> s[i].id != id
    ensures WithoutClan(s, id) == s
  {
    if s != [] {
      WithoutClanAbsent(s[1..], id);
    }
  }

  /** `s.filter(p => p !== player)`: drop every occurrence of a player id. */
  function WithoutPlayer(s: seq<PlayerId>, player: PlayerId): (r: seq<PlayerId>)
    ensures player !in r
    ensures forall p :: p != player ==> multiset(r)[p] == multiset(s)[p]
    ensures player !in s ==> r == s
    ensures |r| <= |s|
  {
    if s == [] then []
    else
      var rest := WithoutPlayer(s[1..], player);
      assert s == [s[0]] + s[1..];
      if s[0] == player then rest else [s[0]] + rest
  }

  /** Filtering commutes with concatenation, so the ids that remain keep their order. */
  lemma {:induction false} WithoutPlayerKeepsOrder(a: seq<PlayerId>, b: seq<PlayerId>, player: PlayerId)
    ensures WithoutPlayer(a + b, player) == WithoutPlayer(a, player) + WithoutPlayer(b, player)
  {
    if a != [] {
      var ab := a + b;
      assert ab[0] == a[0] && ab[1..] == a[1..] + b;
      WithoutPlayerKeepsOrder(a[1..], b, player);
      var head := if a[0] == player then [] else [a[0]];
      assert WithoutPlayer(ab, player) == head + WithoutPlayer(a[1..] + b, player);
      assert WithoutPlayer(a, player) == head + WithoutPlayer(a[1..], player);
    } else {
      assert a + b == b;
    }
  }
}
