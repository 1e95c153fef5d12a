/**
 * The beatmap lookup service of src/services/beatmaps.js as a class over the
 * durable state it reads and writes: the song repository (keyed by hash, with
 * an index on the short key) and the two cache entries 'bmSuspension' and
 * 'bm404'. The remote API call is an outcome value handed to the lookup;
 * each lookup reports whether it would have made that call.
 */
module BeatmapsService {
  import opened Wrappers
  import opened BeatmapsPolicy

  /** The message that marks a connectivity failure. */
  const NETWORK_ERROR_MESSAGE: string := "Network error"

  /** What the remote lookup yields: a record, nothing, or one of three kinds of failure. */
  datatype RemoteOutcome =
    | Found(song: SongInfo)
    | Nothing
    | NotFoundError
    | NetworkError(message: string)
    | OtherError

  /**
   * Every record sits under its own hash, the key index points at records with
   * that key, and every stored record's key is indexed.
   */
  ghost predicate RepositoryValid(songs: map<string, SongInfo>, keyIndex: map<string, string>)
  {
    && (forall h :: h in songs ==> songs[h].hash == h)
    && (forall k :: k in keyIndex ==> keyIndex[k] in songs && songs[keyIndex[k]].key == k)
    && (forall h :: h in songs ==> songs[h].key in keyIndex)
  }

  /** The repository's lookup through its key index. */
  function IndexedByKey(songs: map<string, SongInfo>, keyIndex: map<string, string>, key: string): (r: Option<SongInfo>)
    requires RepositoryValid(songs, keyIndex)
    ensures r.Some? <==> key in keyIndex
    ensures r.Some? ==> r.value.key == key && r.value.hash in songs && songs[r.value.hash] == r.value
    ensures r.None? ==> forall h :: h in songs ==> songs[h].key != key
  {
    if key in keyIndex then Some(songs[keyIndex[key]]) else None
  }

  /**
   * Storing record `s` leaves every other key-index entry where it was and
   * adds none: only the entry for `s.key` and entries that pointed at
   * `s.hash` may change, and `s.key` is the only key that may appear.
   */
  ghost predicate IndexKeeps(oldIndex: map<string, string>, newIndex: map<string, string>, s: SongInfo)
  {
    && (forall k :: k in oldIndex && k != s.key && oldIndex[k] != s.hash ==>
          k in newIndex && newIndex[k] == oldIndex[k])
    && (forall k :: k in newIndex ==> k in oldIndex || k == s.key)
  }

  /**
   * The write itself: after the entries that pointed at `s.hash` are dropped
   * and `s.key` is pointed at it, the index is sound, and the only stored key
   * it can miss is the one the replaced record carried.
   */
  lemma StoreStep(songs: map<string, SongInfo>, keyIndex: map<string, string>, s: SongInfo, index': map<string, string>)
    requires RepositoryValid(songs, keyIndex)
    requires index' == (map k | k in keyIndex && keyIndex[k] != s.hash :: keyIndex[k])[s.key := s.hash]
    ensures IndexKeeps(keyIndex, index', s)
    ensures forall k :: k in index' ==> index'[k] in songs[s.hash := s] && songs[s.hash := s][index'[k]].key == k
    ensures forall h :: h in songs[s.hash := s] && songs[s.hash := s][h].key !in index' ==>
              s.hash in songs && songs[h].key == songs[s.hash].key
  {
    var songs' := songs[s.hash := s];
    forall k | k in index'
      ensures index'[k] in songs' && songs'[index'[k]].key == k
    {
      if k != s.key {
        assert k in keyIndex && keyIndex[k] != s.hash;
      }
    }
    forall h | h in songs' && songs'[h].key !in index'
      ensures s.hash in songs && songs[h].key == songs[s.hash].key
    {
      var k := songs[h].key;
      assert k in keyIndex && keyIndex[k] == s.hash;
    }
  }

  /** Pointing an unindexed key at a record that carries it keeps the index sound. */
  lemma RepairStep(songs: map<string, SongInfo>, keyIndex: map<string, string>, orphan: string, h: string,
                   index': map<string, string>)
    requires forall k :: k in keyIndex ==> keyIndex[k] in songs && songs[keyIndex[k]].key == k
    requires h in songs && songs[h].key == orphan
    requires index' == keyIndex[orphan := h]
    ensures forall k :: k in index' ==> index'[k] in songs && songs[index'[k]].key == k
  {
  }

  /**
   * The key index after record `s` is written: entries that pointed at
   * `s.hash` are dropped and `s.key` points at it; when the replaced record's
   * key is left unindexed but another record still carries it, the key moves
   * to that record.
   */
  method IndexAfterStore(songs: map<string, SongInfo>, keyIndex: map<string, string>, s: SongInfo)
    returns (index': map<string, string>)
    requires RepositoryValid(songs, keyIndex)
    ensures RepositoryValid(songs[s.hash := s], index')
    ensures IndexedByKey(songs[s.hash := s], index', s.key) == Some(s)
    ensures IndexKeeps(keyIndex, index', s)
  {
    var songs' := songs[s.hash := s];
    index' := (map k | k in keyIndex && keyIndex[k] != s.hash :: keyIndex[k])[s.key := s.hash];
    StoreStep(songs, keyIndex, s, index');
    if s.hash in songs && songs[s.hash].key !in index' {
      var orphan := songs[s.hash].key;
      if h :| h in songs' && songs'[h].key == orphan {
        RepairStep(songs', index', orphan, h, index'[orphan := h]);
        index' := index'[orphan := h];
      } else {
        assert forall g :: g in songs' ==> songs'[g].key != orphan;
      }
    }
    assert forall g :: g in songs' ==> songs'[g].key in index';
  }

  /** The gate of fetchSong: suspended, or a hash was given and it is known to be missing. */
  predicate Gated(s: Option<Suspension>, reg: map<string, NotFoundEntry>, hash: string, now: int): (r: bool)
    ensures IsSuspended(s, now) ==> r
    ensures hash != "" && IsHashUnavailable(reg, hash) ==> r
    ensures hash == "" ==> (r <==> IsSuspended(s, now))
  {
    IsSuspended(s, now) || (hash != "" && IsHashUnavailable(reg, hash))
  }

  class Service {
    /** songs-beatmaps repository, primary key `hash` */
    var songs: map<string, SongInfo>
    /** its 'songs-beatmaps-key' index: key to hash */
    var keyIndex: map<string, string>
    /** cache entry 'bmSuspension' */
    var suspension: Option<Suspension>
    /** cache entry 'bm404' */
    var notFound: map<string, NotFoundEntry>

    ghost predicate Valid()
      reads this
    {
      && RepositoryValid(songs, keyIndex)
      && SuspensionWellFormed(suspension)
      && RegistryWellFormed(notFound)
    }

    constructor ()
      ensures Valid()
      ensures songs == map[] && keyIndex == map[] && suspension == None && notFound == map[]
    {
      songs, keyIndex := map[], map[];
      suspension, notFound := None, map[];
    }

    /**
     * The repository's `set`: the record replaces any record with the same
     * hash. When the replaced record's key is still carried by another stored
     * record, the index entry for that key moves to it.
     */
    method StoreSong(s: SongInfo)
      requires Valid()
      modifies this`songs, this`keyIndex
      ensures Valid()
      ensures songs == old(songs)[s.hash := s]
      ensures IndexedByKey(songs, keyIndex, s.key) == Some(s)
      ensures IndexKeeps(old(keyIndex), keyIndex, s)
      ensures forall h :: h in songs ==> IndexedByKey(songs, keyIndex, songs[h].key).Some?
    {
      keyIndex := IndexAfterStore(songs, keyIndex, s);
      songs := songs[s.hash := s];
    }

    /** cacheSongInfo: store the normalised record, or nothing when hash or key is missing. */
    method CacheSongInfo(info: SongInfo) returns (r: Option<SongInfo>)
      requires Valid()
      modifies this`songs, this`keyIndex
      ensures Valid()
      ensures r == Normalized(info)
      ensures r.None? ==> songs == old(songs) && keyIndex == old(keyIndex)
      ensures r.Some? ==> songs == old(songs)[r.value.hash := r.value]
      ensures r.Some? ==> IndexedByKey(songs, keyIndex, r.value.key) == r
      ensures r.Some? ==> IndexKeeps(old(keyIndex), keyIndex, r.value)
    {
      if info.hash == "" || info.key == "" {
        return None;
      }
      var song := info.(hash := Lower(info.hash), key := Lower(info.key));
      song := song.(description := None);
      StoreSong(song);
      r := Some(song);
    }

    /** prolongSuspension applied to the record this lookup read. */
    method ProlongSuspension(now: int)
      requires Valid()
      modifies this`suspension
      ensures Valid()
      ensures suspension == Some(Prolonged(old(suspension), now))
    {
      ProlongedIsEscalation(suspension, now);
      var base := if IsSuspended(suspension, now) then suspension.value else Suspension(now, now, 0);
      base := base.(activeTo := base.activeTo + Pow2(base.count) * HOUR);
      base := base.(count := base.count + 1);
      suspension := Some(base);
    }

    /** setHashNotFound */
    method SetHashNotFound(hash: string, now: int)
      requires Valid()
      modifies this`notFound
      ensures Valid()
      ensures notFound == RegisterNotFound(old(notFound), hash, now)
    {
      RegisterNotFoundWellFormed(notFound, hash, now);
      var item := if hash in notFound then notFound[hash] else NotFoundEntry(now, None, 0);
      if item.recentTry.None? || item.recentTry.value + HOURS_BETWEEN_COUNTS * HOUR < now {
        item := item.(recentTry := Some(now), count := item.count + 1);
        notFound := notFound[hash := item];
      }
    }

    /**
     * fetchSong. `cached` is the repository's record, `remote` what the remote
     * call would yield, `hash` the hash for the not-found registry ("" for none);
     * `called` tells whether the remote call was made. The gate reads the
     * clock at `now`; the not-found and suspension records written after the
     * remote answer are stamped with the clock at `answered`.
     */
    method FetchSong(cached: Option<SongInfo>, remote: RemoteOutcome, forceUpdate: bool, cacheOnly: bool,
                     hash: string, now: int, answered: int)
      returns (r: Option<SongInfo>, called: bool)
      requires Valid()
      modifies this
      ensures Valid()
      // a cache hit is returned as it is, without a remote call
      ensures !forceUpdate && cached.Some? ==> r == cached && !called && unchanged(this)
      // cache-only mode never reaches the remote API
      ensures (forceUpdate || cached.None?) && cacheOnly ==> r.None? && !called && unchanged(this)
      // otherwise the remote call is made exactly when the gate is open
      ensures called <==> (forceUpdate || cached.None?) && !cacheOnly &&
                          !Gated(old(suspension), old(notFound), hash, now)
      ensures !called && (forceUpdate || cached.None?) ==> r.None? && unchanged(this)
      // only a record found remotely is returned; every failure yields None
      ensures called ==> r == (if remote.Found? then Normalized(remote.song) else None)
      ensures called && remote.Found? ==>
                suspension == old(suspension) && notFound == old(notFound) &&
                (r.Some? ==> songs == old(songs)[r.value.hash := r.value]) &&
                (r.None? ==> songs == old(songs) && keyIndex == old(keyIndex))
      // the stored record is what a lookup by its key now finds
      ensures called && remote.Found? && r.Some? ==>
                IndexedByKey(songs, keyIndex, r.value.key) == r && IndexKeeps(old(keyIndex), keyIndex, r.value)
      // a not-found answer touches the registry only, and only when a hash was given
      ensures called && remote.NotFoundError? ==>
                songs == old(songs) && keyIndex == old(keyIndex) && suspension == old(suspension) &&
                notFound == (if hash != "" then RegisterNotFound(old(notFound), hash, answered) else old(notFound))
      // a connectivity failure touches the suspension record only
      ensures called && remote.NetworkError? ==>
                songs == old(songs) && keyIndex == old(keyIndex) && notFound == old(notFound) &&
                suspension == (if remote.message == NETWORK_ERROR_MESSAGE then Some(Prolonged(old(suspension), answered))
                               else old(suspension))
      // the gate has just seen no active suspension, so the window always restarts at one hour
      ensures called && remote.NetworkError? && remote.message == NETWORK_ERROR_MESSAGE && now <= answered ==>
                suspension == Some(Suspension(answered, answered + HOUR, 1))
      // an empty answer or any other failure changes nothing
      ensures called && (remote.Nothing? || remote.OtherError?) ==> unchanged(this)
    {
      if !forceUpdate && cached.Some? {
        return cached, false;
      }
      if cacheOnly {
        return None, false;
      }
      if IsSuspended(suspension, now) || (hash != "" && IsHashUnavailable(notFound, hash)) {
        return None, false;
      }
      called := true;
      match remote {
        case Found(song) =>
          r := CacheSongInfo(song);
        case Nothing =>
          r := None;
        case NotFoundError =>
          if hash != "" {
            SetHashNotFound(hash, answered);
          }
          r := None;
        case NetworkError(message) =>
          if message == NETWORK_ERROR_MESSAGE {
            if now <= answered {
              LapsedStaysLapsed(suspension, now, answered);
            }
            ProlongSuspension(answered);
          }
          r := None;
        case OtherError =>
          r := None;
      }
    }

    /** byHash: lowercase the hash, look it up, and fetch with the hash as the registry key. */
    method ByHash(hash: string, remote: RemoteOutcome, forceUpdate: bool, cacheOnly: bool, now: int, answered: int)
      returns (r: Option<SongInfo>, called: bool)
      requires Valid()
      modifies this
      ensures Valid()
      ensures !forceUpdate && Lower(hash) in old(songs) ==> r == Some(old(songs)[Lower(hash)]) && !called
      ensures called <==> (forceUpdate || Lower(hash) !in old(songs)) && !cacheOnly &&
                          !Gated(old(suspension), old(notFound), Lower(hash), now)
      ensures called ==> r == (if remote.Found? then Normalized(remote.song) else None)
      ensures !called && (forceUpdate || Lower(hash) !in old(songs)) ==> r.None?
      ensures !called ==> unchanged(this)
      ensures called && remote.Found? ==>
                suspension == old(suspension) && notFound == old(notFound) &&
                (r.Some? ==> songs == old(songs)[r.value.hash := r.value] &&
                             IndexedByKey(songs, keyIndex, r.value.key) == r &&
                             IndexKeeps(old(keyIndex), keyIndex, r.value)) &&
                (r.None? ==> songs == old(songs) && keyIndex == old(keyIndex))
      // a not-found answer touches the registry only, under the lowercased hash
      ensures called && remote.NotFoundError? ==>
                songs == old(songs) && keyIndex == old(keyIndex) && suspension == old(suspension) &&
                notFound == (if hash != "" then RegisterNotFound(old(notFound), Lower(hash), answered) else old(notFound))
      // a connectivity failure touches the suspension only, restarting it at one hour
      ensures called && remote.NetworkError? ==>
                songs == old(songs) && keyIndex == old(keyIndex) && notFound == old(notFound) &&
                suspension == (if remote.message == NETWORK_ERROR_MESSAGE then Some(Prolonged(old(suspension), answered))
                               else old(suspension))
      ensures called && remote.NetworkError? && remote.message == NETWORK_ERROR_MESSAGE && now <= answered ==>
                suspension == Some(Suspension(answered, answered + HOUR, 1))
      ensures called && (remote.Nothing? || remote.OtherError?) ==> unchanged(this)
    {
      var h := Lower(hash);
      var cached := if h in songs then Some(songs[h]) else None;
      r, called := FetchSong(cached, remote, forceUpdate, cacheOnly, h, now, answered);
    }

    /** byKey: lowercase the key, look it up in the key index, and fetch without a registry key. */
    method ByKey(key: string, remote: RemoteOutcome, forceUpdate: bool, cacheOnly: bool, now: int, answered: int)
      returns (r: Option<SongInfo>, called: bool)
      requires Valid()
      modifies this
      ensures Valid()
      ensures !forceUpdate && Lower(key) in old(keyIndex) ==>
                r == IndexedByKey(old(songs), old(keyIndex), Lower(key)) && !called
      // only the suspension gates a lookup by key: the registry is never consulted
      ensures called <==> (forceUpdate || Lower(key) !in old(keyIndex)) && !cacheOnly &&
                          !IsSuspended(old(suspension), now)
      // a cache-only miss or a suspended lookup yields nothing
      ensures !called && (forceUpdate || Lower(key) !in old(keyIndex)) ==> r.None?
      ensures called ==> r == (if remote.Found? then Normalized(remote.song) else None)
      ensures !called ==> unchanged(this)
      // ... nor ever written
      ensures notFound == old(notFound)
      ensures called && remote.Found? ==>
                suspension == old(suspension) &&
                (r.Some? ==> songs == old(songs)[r.value.hash := r.value] &&
                             IndexedByKey(songs, keyIndex, r.value.key) == r &&
                             IndexKeeps(old(keyIndex), keyIndex, r.value)) &&
                (r.None? ==> songs == old(songs) && keyIndex == old(keyIndex))
      ensures called && !remote.Found? ==> songs == old(songs) && keyIndex == old(keyIndex)
      // a connectivity failure touches the suspension only, restarting it at one hour
      ensures called && remote.NetworkError? ==>
                suspension == (if remote.message == NETWORK_ERROR_MESSAGE then Some(Prolonged(old(suspension), answered))
                               else old(suspension))
      ensures called && remote.NetworkError? && remote.message == NETWORK_ERROR_MESSAGE && now <= answered ==>
                suspension == Some(Suspension(answered, answered + HOUR, 1))
      ensures called && !remote.NetworkError? ==> suspension == old(suspension)
    {
      var k := Lower(key);
      var cached := IndexedByKey(songs, keyIndex, k);
      r, called := FetchSong(cached, remote, forceUpdate, cacheOnly, "", now, answered);
    }
  }

  /**
   * A record for "ABCD" fetched into an empty repository is stored and
   * returned with lowercase hash and key and without its description.
   */
  method FetchIntoEmptyRepository(now: int) returns (r: Option<SongInfo>, stored: Option<SongInfo>)
    ensures r == Some(SongInfo("abcd", "k1", None, map["notes" := "5"]))
    ensures stored == r
  {
    var service := new Service();
    var remote := SongInfo("ABCD", "K1", Some("a long text"), map["notes" := "5"]);
    var expected := SongInfo("abcd", "k1", None, map["notes" := "5"]);
    LowercaseExamples();
    assert Normalized(remote) == Some(expected);
    var called;
    r, called := service.ByHash("ABCD", Found(remote), false, false, now, now);
    assert called;
    stored := if "abcd" in service.songs then Some(service.songs["abcd"]) else None;
  }

  /**
   * A record fetched by hash is then found by its key, in any letter case,
   * without another remote call.
   */
  method FetchedSongIsFoundByKey(now: int, later: RemoteOutcome) returns (first: Option<SongInfo>, second: Option<SongInfo>, calledAgain: bool)
    ensures first == Some(SongInfo("abcd", "k1", None, map["notes" := "5"]))
    ensures second == first && !calledAgain
  {
    var service := new Service();
    var remote := SongInfo("ABCD", "K1", Some("a long text"), map["notes" := "5"]);
    LowercaseExamples();
    assert Normalized(remote) == Some(SongInfo("abcd", "k1", None, map["notes" := "5"]));
    var called;
    first, called := service.ByHash("ABCD", Found(remote), false, false, now, now);
    assert called;
    second, calledAgain := service.ByKey("K1", later, false, false, now, now);
  }

  /** Records "a" and "b" are stored under key "k", then "b" is stored again under key "k2". */
  method RekeyedRepository() returns (service: Service)
    ensures fresh(service) && service.Valid()
    ensures service.songs == map["a" := SongInfo("a", "k", None, map[]), "b" := SongInfo("b", "k2", None, map[])]
    ensures service.suspension == None
  {
    service := new Service();
    service.StoreSong(SongInfo("a", "k", None, map[]));
    service.StoreSong(SongInfo("b", "k", None, map[]));
    service.StoreSong(SongInfo("b", "k2", None, map[]));
  }

  /**
   * Two records share key "k"; when the one the index pointed at moves to key
   * "k2", a lookup by "k" still finds the other without a remote call.
   */
  method SharedKeySurvivesRekey(later: RemoteOutcome, now: int) returns (r: Option<SongInfo>, called: bool)
    ensures r == Some(SongInfo("a", "k", None, map[])) && !called
  {
    var service := RekeyedRepository();
    assert service.songs["a"].key == "k";
    var found := IndexedByKey(service.songs, service.keyIndex, "k");
    assert found.Some? && found.value.hash in service.songs;
    assert Lower("k") == "k" by { assert IsLowerCase("k"); }
    r, called := service.ByKey("k", later, false, false, now, now);
  }

  lemma LowercaseExamples()
    ensures Lower("ABCD") == "abcd" && Lower("K1") == "k1"
  {
    assert LowerChar('A') == 'a' && LowerChar('B') == 'b' && LowerChar('C') == 'c' && LowerChar('D') == 'd';
    assert LowerChar('K') == 'k' && LowerChar('1') == '1';
  }

  /**
   * Three not-found answers for "dead", more than an hour apart, and the
   * fourth lookup is answered without calling the remote API.
   */
  method MissingHashIsSuppressed(t: int, song: SongInfo) returns (r: Option<SongInfo>, called: bool)
    ensures r == None && !called
  {
    var service := new Service();
    assert IsLowerCase("dead");
    var _, _ := service.ByHash("dead", NotFoundError, false, false, t, t);
    assert service.suspension == None && service.songs == map[];
    assert service.notFound["dead"] == NotFoundEntry(t, Some(t), 1);
    var _, _ := service.ByHash("dead", NotFoundError, false, false, t + 2 * HOUR, t + 2 * HOUR);
    assert service.suspension == None && service.songs == map[];
    assert service.notFound["dead"] == NotFoundEntry(t, Some(t + 2 * HOUR), 2);
    var _, _ := service.ByHash("dead", NotFoundError, false, false, t + 4 * HOUR, t + 4 * HOUR);
    assert service.suspension == None && service.songs == map[];
    assert service.notFound["dead"].count == 3;
    r, called := service.ByHash("dead", Found(song), false, false, t + 5 * HOUR, t + 5 * HOUR);
  }
}
