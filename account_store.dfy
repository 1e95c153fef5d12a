/**
 * The client-side account state of src/stores/beatleader/account.js: the
 * clan bookkeeping operations that edit the shared `account` object in place,
 * the rule that turns a sign-in response into `account.error`, and the
 * module-level singleton with its subscriber count.
 */
module AccountStore {
  import opened Wrappers
  import opened AccountModel

  /**
   * The `account` object. A list field is None when it is not an array
   * (missing, null, or `account.player` itself missing for `playerClans`).
   */
  class Account {
    /** account.clanRequest */
    var clanRequest: Option<seq<Clan>>
    /** account.player.clans */
    var playerClans: Option<seq<Clan>>
    /** account.bannedClans */
    var bannedClans: Option<seq<Clan>>
    /** account.clan, whose pendingInvites field is edited in place */
    var clan: Option<Clan>
    /** account.error */
    var error: Option<string>

    /** `let account = {}` */
    constructor ()
      ensures clanRequest == None && playerClans == None && bannedClans == None
      ensures clan == None && error == None
    {
      clanRequest, playerClans, bannedClans := None, None, None;
      clan, error := None, None;
    }

    /** removeClanRequest: only with an array and a truthy clan id. */
    method RemoveClanRequest(c: Clan)
      modifies this`clanRequest
      ensures clanRequest == if old(clanRequest).Some? && c.id != 0
                             then Some(WithoutClan(old(clanRequest).value, c.id))
                             else old(clanRequest)
      ensures clanRequest.Some? && c.id != 0 ==> forall i :: 0 <= i < |clanRequest.value| ==> clanRequest.value[i].id != c.id
    {
      if clanRequest.Some? && c.id != 0 {
        clanRequest := Some(WithoutClan(clanRequest.value, c.id));
      }
    }

    /** addClan: join the clan and drop the matching request. */
    method AddClan(c: Clan)
      modifies this`playerClans, this`clanRequest
      ensures playerClans == if old(playerClans).Some? then Some(old(playerClans).value + [c]) else None
      ensures clanRequest == if old(clanRequest).Some? && c.id != 0
                             then Some(WithoutClan(old(clanRequest).value, c.id))
                             else old(clanRequest)
    {
      if playerClans.Some? {
        playerClans := Some(playerClans.value + [c]);
      }
      RemoveClanRequest(c);
    }

    /** removeClan: leave every clan with that id, keeping the others in order. */
    method RemoveClan(c: Clan)
      modifies this`playerClans
      ensures playerClans == if old(playerClans).Some? then Some(WithoutClan(old(playerClans).value, c.id)) else None
    {
      if playerClans.Some? {
        playerClans := Some(WithoutClan(playerClans.value, c.id));
      }
    }

    /** banClan */
    method BanClan(c: Clan)
      modifies this`bannedClans
      ensures bannedClans == if old(bannedClans).Some? then Some(old(bannedClans).value + [c]) else None
    {
      if bannedClans.Some? {
        bannedClans := Some(bannedClans.value + [c]);
      }
    }

    /** unbanClan */
    method UnbanClan(c: Clan)
      modifies this`bannedClans
      ensures bannedClans == if old(bannedClans).Some? then Some(WithoutClan(old(bannedClans).value, c.id)) else None
    {
      if bannedClans.Some? {
        bannedClans := Some(WithoutClan(bannedClans.value, c.id));
      }
    }

    /** addClanInvitation */
    method AddClanInvitation(player: PlayerId)
      modifies this`clan
      ensures old(clan).Some? && old(clan).value.pendingInvites.Some? ==>
                clan == Some(old(clan).value.(pendingInvites := Some(old(clan).value.pendingInvites.value + [player])))
      ensures !(old(clan).Some? && old(clan).value.pendingInvites.Some?) ==> clan == old(clan)
    {
      if clan.Some? && clan.value.pendingInvites.Some? {
        var invites := clan.value.pendingInvites.value;
        clan := Some(clan.value.(pendingInvites := Some(invites + [player])));
      }
    }

    /** removeClanInvitation */
    method RemoveClanInvitation(player: PlayerId)
      modifies this`clan
      ensures old(clan).Some? && old(clan).value.pendingInvites.Some? ==>
                clan == Some(old(clan).value.(pendingInvites := Some(WithoutPlayer(old(clan).value.pendingInvites.value, player))))
      ensures !(old(clan).Some? && old(clan).value.pendingInvites.Some?) ==> clan == old(clan)
      ensures old(clan).Some? && old(clan).value.pendingInvites.Some? ==> player !in clan.value.pendingInvites.value
    {
      if clan.Some? && clan.value.pendingInvites.Some? {
        var invites := clan.value.pendingInvites.value;
        clan := Some(clan.value.(pendingInvites := Some(WithoutPlayer(invites, player))));
      }
    }

    /** setPlayerClan */
    method SetPlayerClan(c: Option<Clan>)
      modifies this`clan
      ensures clan == c
    {
      clan := c;
    }

    /**
     * The response handler of logIn and migrate: a non-empty response text is
     * the error to show; an empty one clears the error and asks for a refresh.
     */
    method ApplySignInResponse(text: string) returns (refresh: bool)
      modifies this`error
      ensures refresh <==> text == ""
      ensures error == if text == "" then None else Some(text)
    {
      if |text| > 0 {
        error := Some(text);
        refresh := false;
      } else {
        error := None;
        refresh := true;
      }
    }
  }

  /** The module-level `store` and `storeSubCount` of account.js. */
  class StoreSingleton {
    var store: Account?
    var storeSubCount: int

    /** The store exists exactly while somebody holds it. */
    ghost predicate Valid()
      reads this
    {
      storeSubCount >= 0 && (store != null <==> storeSubCount > 0)
    }

    constructor ()
      ensures Valid() && store == null && storeSubCount == 0
    {
      store, storeSubCount := null, 0;
    }

    /** The factory: count the caller, and build the store only when there is none. */
    method Acquire() returns (s: Account)
      modifies this
      ensures storeSubCount == old(storeSubCount) + 1
      ensures store == s
      ensures old(store) != null ==> s == old(store)
      ensures old(store) == null ==> fresh(s) && s.clanRequest == None && s.error == None
      ensures old(Valid()) ==> Valid()
    {
      storeSubCount := storeSubCount + 1;
      if store != null {
        return store;
      }
      s := new Account();
      store := s;
    }

    /** The function `subscribe` returns: uncount, and drop the store when the count reaches zero. */
    method Unsubscribe()
      modifies this
      ensures storeSubCount == old(storeSubCount) - 1
      ensures store == if storeSubCount == 0 then null else old(store)
      ensures old(Valid()) && old(storeSubCount) > 0 ==> Valid()
    {
      storeSubCount := storeSubCount - 1;
      if storeSubCount == 0 {
        store := null;
      }
    }
  }

  /** Two holders share one store, which is dropped only when the second lets go. */
  method SharedStoreLifecycle() returns (first: Account, second: Account, afterOne: bool, afterBoth: bool)
    ensures first == second
    ensures afterOne && !afterBoth
  {
    var singleton := new StoreSingleton();
    first := singleton.Acquire();
    second := singleton.Acquire();
    singleton.Unsubscribe();
    afterOne := singleton.store != null;
    singleton.Unsubscribe();
    afterBoth := singleton.store != null;
  }
}
