/**
 * Friend-list reconciliation in refreshAccount (src/stores/beatleader/account.js):
 * the server's friend list is compared with the locally followed players and
 * each difference becomes a 'player-add-cmd' or 'player-remove-cmd' event.
 */
module FriendSync {
  import opened AccountModel

  /** An entry of the server's friend list: a player record or a bare id. */
  datatype ServerFriend = FriendRecord(id: PlayerId) | FriendId(value: PlayerId)

  /** `f.id ?? f` */
  function FriendKey(f: ServerFriend): (id: PlayerId)
  {
    match f
    case FriendRecord(id) => id
    case FriendId(value) => value
  }

  /** `data.friends.map(f => f.id ?? f)` */
  function FriendIds(server: seq<ServerFriend>): (ids: seq<PlayerId>)
    ensures |ids| == |server|
    ensures forall i :: 0 <= i < |server| ==> ids[i] == FriendKey(server[i])
  {
    seq(|server|, i requires 0 <= i < |server| => FriendKey(server[i]))
  }

  predicate NoDuplicates(s: seq<PlayerId>)
  {
    forall i, j :: 0 <= i < j < |s| ==> s[i] != s[j]
  }

  /** The local friends that `seen` does not mention, in local order, with their repetitions. */
  function Unmatched(local: seq<PlayerId>, seen: seq<PlayerId>): (r: seq<PlayerId>)
    ensures forall p :: multiset(r)[p] == if p in seen then 0 else multiset(local)[p]
    ensures (forall i :: 0 <= i < |local| ==> local[i] !in seen) ==> r == local
  {
    if local == [] then []
    else
      var rest := Unmatched(local[1..], seen);
      assert local == [local[0]] + local[1..];
      if local[0] in seen then rest else [local[0]] + rest
  }

  /**
   * The add commands for the server ids `ids`, in server order: an id gets one
   * when it is not among the local friends still unmatched before it.
   */
  function Additions(local: seq<PlayerId>, ids: seq<PlayerId>): (r: seq<Command>)
    ensures forall i :: 0 <= i < |r| ==> r[i].PlayerAdd? && r[i].playerId in ids
    ensures forall p :: multiset(r)[PlayerRemove(p)] == 0
  {
    if ids == [] then []
    else
      var prefix, last := ids[..|ids| - 1], ids[|ids| - 1];
      Additions(local, prefix) + (if last in Unmatched(local, prefix) then [] else [PlayerAdd(last)])
  }

  /** One remove command per id, in order. */
  function Removals(xs: seq<PlayerId>): (r: seq<Command>)
    ensures forall p :: multiset(r)[PlayerRemove(p)] == multiset(xs)[p]
    ensures forall p :: multiset(r)[PlayerAdd(p)] == 0
  {
    if xs == [] then []
    else
      var prefix, last := xs[..|xs| - 1], xs[|xs| - 1];
      assert xs == prefix + [last];
      Removals(prefix) + [PlayerRemove(last)]
  }

  /** Everything the reconciliation publishes, in publication order. */
  function Reconciled(local: seq<PlayerId>, ids: seq<PlayerId>): (r: seq<Command>)
    ensures forall i :: 0 <= i < |r| && r[i].PlayerAdd? ==> r[i].playerId in ids
    ensures forall p :: multiset(r)[PlayerRemove(p)] == if p in ids then 0 else multiset(local)[p]
  {
    Additions(local, ids) + Removals(Unmatched(local, ids))
  }

  /** Filtering `toDelete` by one more server id keeps it equal to the unmatched local friends. */
  lemma {:induction false} UnmatchedExtend(local: seq<PlayerId>, seen: seq<PlayerId>, x: PlayerId)
    ensures Unmatched(local, seen + [x]) == WithoutPlayer(Unmatched(local, seen), x)
  {
    if local != [] {
      UnmatchedExtend(local[1..], seen, x);
      var head := if local[0] in seen then [] else [local[0]];
      assert Unmatched(local, seen) == head + Unmatched(local[1..], seen);
      WithoutPlayerKeepsOrder(head, Unmatched(local[1..], seen), x);
      var head' := if local[0] in seen + [x] then [] else [local[0]];
      assert WithoutPlayer(head, x) == head';
      assert Unmatched(local, seen + [x]) == head' + Unmatched(local[1..], seen + [x]);
    }
  }

  /** One turn of the reconciliation loop, on the server ids `ids[..i]` seen so far. */
  lemma ReconcileStep(local: seq<PlayerId>, ids: seq<PlayerId>, i: nat)
    requires i < |ids|
    ensures ids[i] in Unmatched(local, ids[..i]) ==>
              Unmatched(local, ids[..i + 1]) == WithoutPlayer(Unmatched(local, ids[..i]), ids[i]) &&
              Additions(local, ids[..i + 1]) == Additions(local, ids[..i])
    ensures ids[i] !in Unmatched(local, ids[..i]) ==>
              Unmatched(local, ids[..i + 1]) == Unmatched(local, ids[..i]) &&
              Additions(local, ids[..i + 1]) == Additions(local, ids[..i]) + [PlayerAdd(ids[i])]
  {
    var seen, x := ids[..i], ids[i];
    assert ids[..i + 1] == seen + [x];
    assert (seen + [x])[..|seen|] == seen;
    UnmatchedExtend(local, seen, x);
  }

  lemma RemovalsStep(xs: seq<PlayerId>, j: nat)
    requires j < |xs|
    ensures Removals(xs[..j + 1]) == Removals(xs[..j]) + [PlayerRemove(xs[j])]
  {
    assert xs[..j + 1][..j] == xs[..j];
  }

  /** With no repeated server id, each id missing locally is added exactly once and no other is added. */
  lemma {:induction false} AdditionsCount(local: seq<PlayerId>, ids: seq<PlayerId>, x: PlayerId)
    requires NoDuplicates(ids)
    ensures multiset(Additions(local, ids))[PlayerAdd(x)] == if x in ids && x !in local then 1 else 0
  {
    if ids != [] {
      var prefix, last := ids[..|ids| - 1], ids[|ids| - 1];
      assert ids == prefix + [last];
      assert NoDuplicates(prefix);
      forall k | 0 <= k < |prefix|
        ensures prefix[k] != last
      {
        assert ids[k] != ids[|ids| - 1];
      }
      AdditionsCount(local, prefix, x);
      assert multiset(Unmatched(local, prefix))[last] == multiset(local)[last];
      assert last in Unmatched(local, prefix) <==> last in local;
    }
  }

  /**
   * What the reconciliation publishes, when no server id is repeated: one add
   * for every server friend not followed locally, one remove for every local
   * friend (each occurrence) the server does not list, nothing for a friend on
   * both lists.
   */
  lemma ReconciledCommands(local: seq<PlayerId>, ids: seq<PlayerId>, x: PlayerId)
    requires NoDuplicates(ids)
    ensures multiset(Reconciled(local, ids))[PlayerAdd(x)] == if x in ids && x !in local then 1 else 0
    ensures multiset(Reconciled(local, ids))[PlayerRemove(x)] == if x in ids then 0 else multiset(local)[x]
    ensures x in ids && x in local ==> PlayerAdd(x) !in Reconciled(local, ids) && PlayerRemove(x) !in Reconciled(local, ids)
  {
    AdditionsCount(local, ids, x);
  }

  /** A server list naming a local friend twice re-adds that friend on the second mention. */
  lemma RepeatedServerEntryIsReAdded(x: PlayerId)
    ensures Reconciled([x], [x, x]) == [PlayerAdd(x)]
  {
    assert [x, x][..1] == [x];
    assert Unmatched([x], [x]) == [];
    assert Unmatched([x], []) == [x];
    assert Additions([x], [x]) == [];
    assert Unmatched([x], [x, x]) == [];
  }

  /**
   * The else-branch of refreshAccount's friend sync: walk the server list,
   * dropping matched ids from `toDelete` and publishing an add for the rest,
   * then publish a remove for every id left in `toDelete`. An empty server
   * list takes the other branch, which is not part of this model, and
   * publishes nothing here.
   */
  method ReconcileFriends(local: seq<PlayerId>, server: seq<ServerFriend>) returns (cmds: seq<Command>)
    ensures |server| == 0 ==> cmds == []
    ensures |server| > 0 ==> cmds == Reconciled(local, FriendIds(server))
  {
    cmds := [];
    if |server| == 0 {
      return;
    }
    var toDelete := local;
    var mapped := FriendIds(server);
    var i := 0;
    assert mapped[..0] == [];
    while i < |mapped|
      invariant 0 <= i <= |mapped|
      invariant toDelete == Unmatched(local, mapped[..i])
      invariant cmds == Additions(local, mapped[..i])
    {
      var friend := mapped[i];
      ReconcileStep(local, mapped, i);
      if friend in toDelete {
        toDelete := WithoutPlayer(toDelete, friend);
      } else {
        cmds := cmds + [PlayerAdd(friend)];
      }
      i := i + 1;
    }
    assert mapped[..i] == mapped;
    var removes := PublishRemovals(toDelete);
    cmds := cmds + removes;
  }

  /** `toDelete.forEach(friend => publish('player-remove-cmd', friend))` */
  method PublishRemovals(toDelete: seq<PlayerId>) returns (cmds: seq<Command>)
    ensures cmds == Removals(toDelete)
  {
    cmds := [];
    var j := 0;
    while j < |toDelete|
      invariant 0 <= j <= |toDelete|
      invariant cmds == Removals(toDelete[..j])
    {
      RemovalsStep(toDelete, j);
      cmds := cmds + [PlayerRemove(toDelete[j])];
      j := j + 1;
    }
    assert toDelete[..j] == toDelete;
  }
}
