/**
 * The pure part of the beatmap lookup resilience policy (src/services/beatmaps.js):
 * identifier canonicalisation, normalisation of a song record before it is stored,
 * the global suspension window with exponential backoff, and the per-hash
 * "not found" registry with its rate-limited counter.
 *
 * Time is an integer number of milliseconds since the epoch.
 */
module BeatmapsPolicy {
  import opened Wrappers

  const HOUR: int := 3_600_000
  const DAY: int := 24 * HOUR
  /** BM_NOT_FOUND_HOURS_BETWEEN_COUNTS */
  const HOURS_BETWEEN_COUNTS: int := 1
  /** A hash whose not-found count reaches this value is no longer looked up. */
  const UNAVAILABLE_COUNT: nat := 3

  // ---------------------------------------------------------------------------
  // Canonicalisation of identifiers (String.prototype.toLowerCase on ASCII)

  predicate IsUpper(c: char) { 'A' <= c <= 'Z' }

  predicate IsLowerCase(s: string) { forall i :: 0 <= i < |s| ==> !IsUpper(s[i]) }

  function LowerChar(c: char): (d: char)
    ensures !IsUpper(d)
    ensures IsUpper(c) ==> d as int == c as int + 32
    ensures !IsUpper(c) ==> d == c
  {
    if IsUpper(c) then (c as int + 32) as char else c
  }

  /** Two characters that are the same letter up to ASCII case. */
  predicate SameIgnoringCase(c: char, d: char) { LowerChar(c) == LowerChar(d) }

  function Lower(s: string): (r: string)
    ensures |r| == |s|
    ensures forall i :: 0 <= i < |s| ==> r[i] == LowerChar(s[i])
    ensures IsLowerCase(r)
    ensures IsLowerCase(s) ==> r == s
  {
    if s == [] then [] else [LowerChar(s[0])] + Lower(s[1..])
  }

  /** Lowercasing twice is lowercasing once. */
  lemma LowerIdempotent(s: string)
    ensures Lower(Lower(s)) == Lower(s)
  {
  }

  /** "ABC123" and "abc123" name the same repository and registry entry. */
  lemma LowerIgnoresCase(s: string, t: string)
    requires |s| == |t|
    requires forall i :: 0 <= i < |s| ==> SameIgnoringCase(s[i], t[i])
    ensures Lower(s) == Lower(t)
  {
  }

  // ---------------------------------------------------------------------------
  // Song records

  /**
   * A song record as the remote API returns it. An empty `hash` or `key` stands
   * for a missing or empty field (both are falsy in the source); `details`
   * stands for every other field of the record.
   */
  datatype SongInfo = SongInfo(hash: string, key: string, description: Option<string>, details: map<string, string>)

  /** The form in which a record is kept in the song repository. */
  predicate IsCanonical(s: SongInfo)
  {
    s.hash != "" && s.key != "" && IsLowerCase(s.hash) && IsLowerCase(s.key) && s.description.None?
  }

  /** What cacheSongInfo stores and returns for a record, or None when it stores nothing. */
  function Normalized(info: SongInfo): (r: Option<SongInfo>)
    ensures r.None? <==> info.hash == "" || info.key == ""
    ensures r.Some? ==> IsCanonical(r.value)
    ensures r.Some? ==> r.value.hash == Lower(info.hash) && r.value.key == Lower(info.key)
    ensures r.Some? ==> r.value.details == info.details
  {
    if info.hash == "" || info.key == "" then None
    else Some(info.(hash := Lower(info.hash), key := Lower(info.key), description := None))
  }

  /** Normalising a stored record again changes nothing. */
  lemma NormalizedIsStable(info: SongInfo)
    requires Normalized(info).Some?
    ensures Normalized(Normalized(info).value) == Normalized(info)
  {
    var s := Normalized(info).value;
    assert s.(hash := Lower(s.hash), key := Lower(s.key), description := None) == s;
  }

  // ---------------------------------------------------------------------------
  // Global suspension window

  datatype Suspension = Suspension(started: int, activeTo: int, count: nat)

  function Pow2(n: nat): (r: nat)
    ensures r >= 1
    ensures n > 0 ==> r >= 2
  {
    if n == 0 then 1 else 2 * Pow2(n - 1)
  }

  /** Lookups are suppressed while a record is present, has not run out, and began less than a day ago. */
  predicate IsSuspended(s: Option<Suspension>, now: int): (r: bool)
    ensures s.None? ==> !r
    ensures r ==> now < s.value.activeTo
    ensures r ==> now < s.value.started + DAY
  {
    s.Some? && s.value.activeTo > now && s.value.started > now - DAY
  }

  /** A record that began a day or more ago suppresses nothing, whatever its activeTo. */
  lemma SuspensionLapsesAfterADay(s: Suspension, now: int)
    requires now >= s.started + DAY
    ensures !IsSuspended(Some(s), now)
  {
  }

  /** Once a record has stopped suppressing lookups it never suppresses them again. */
  lemma LapsedStaysLapsed(s: Option<Suspension>, t1: int, t2: int)
    requires !IsSuspended(s, t1) && t1 <= t2
    ensures !IsSuspended(s, t2)
  {
  }

  /** The record prolongSuspension writes, given the record read from the cache. */
  function Prolonged(s: Option<Suspension>, now: int): (r: Suspension)
    ensures IsSuspended(Some(r), now)
    ensures r.activeTo >= now + HOUR
    ensures r.count >= 1
    ensures IsSuspended(s, now) ==>
              r.started == s.value.started &&
              r.activeTo == s.value.activeTo + Pow2(s.value.count) * HOUR &&
              r.count == s.value.count + 1
    ensures !IsSuspended(s, now) ==> r == Suspension(now, now + HOUR, 1)
  {
    var base := if IsSuspended(s, now) then s.value else Suspension(now, now, 0);
    base.(activeTo := base.activeTo + Pow2(base.count) * HOUR, count := base.count + 1)
  }

  /**
   * The shape of every record prolongSuspension can produce: after `count`
   * escalations the window ends 1 + 2 + ... + 2^(count-1) hours after it started.
   */
  predicate IsEscalation(s: Suspension)
  {
    s.count >= 1 && s.activeTo == s.started + (Pow2(s.count) - 1) * HOUR
  }

  predicate SuspensionWellFormed(s: Option<Suspension>)
  {
    s.Some? ==> IsEscalation(s.value)
  }

  /** prolongSuspension keeps the record in that shape, so activeTo >= started always. */
  lemma ProlongedIsEscalation(s: Option<Suspension>, now: int)
    requires SuspensionWellFormed(s)
    ensures IsEscalation(Prolonged(s, now))
    ensures Prolonged(s, now).activeTo > Prolonged(s, now).started
  {
    var r := Prolonged(s, now);
    if IsSuspended(s, now) {
      var c := s.value.count;
      assert Pow2(c + 1) == 2 * Pow2(c);
    }
  }

  /** `n` failures handled back to back, all at the instant `now`. */
  function ProlongedTimes(s: Option<Suspension>, now: int, n: nat): (r: Option<Suspension>)
    ensures n > 0 ==> r.Some? && IsSuspended(r, now)
  {
    if n == 0 then s else Some(Prolonged(ProlongedTimes(s, now, n - 1), now))
  }

  /** From no record, successive escalations end the window 1h, 3h, 7h, ... after `now`. */
  lemma {:induction false} EscalationFromScratch(now: int, n: nat)
    requires n >= 1
    ensures ProlongedTimes(None, now, n) == Some(Suspension(now, now + (Pow2(n) - 1) * HOUR, n))
  {
    if n > 1 {
      EscalationFromScratch(now, n - 1);
      var p := Pow2(n - 1);
      assert Pow2(n) == 2 * p;
      assert p >= 2;
      assert IsSuspended(ProlongedTimes(None, now, n - 1), now);
    }
  }

  // ---------------------------------------------------------------------------
  // Per-hash "not found" registry

  datatype NotFoundEntry = NotFoundEntry(firstTry: int, recentTry: Option<int>, count: nat)

  /** The counter may move: no recent try, or the recent one is more than an hour old. */
  predicate CountDue(e: NotFoundEntry, now: int): (r: bool)
    ensures e.recentTry.None? ==> r
    ensures e.recentTry.Some? ==> (r <==> now - e.recentTry.value > HOUR)
  {
    e.recentTry.None? || e.recentTry.value + HOURS_BETWEEN_COUNTS * HOUR < now
  }

  /** The registry setHashNotFound leaves behind. */
  function RegisterNotFound(reg: map<string, NotFoundEntry>, hash: string, now: int): (r: map<string, NotFoundEntry>)
    ensures hash in r
    ensures forall h :: h != hash ==> (h in r <==> h in reg)
    ensures forall h :: h in reg && h != hash ==> r[h] == reg[h]
    ensures hash !in reg ==> r[hash] == NotFoundEntry(now, Some(now), 1)
    ensures hash in reg && CountDue(reg[hash], now) ==>
              r[hash] == reg[hash].(recentTry := Some(now), count := reg[hash].count + 1)
    ensures hash in reg && !CountDue(reg[hash], now) ==> r == reg
  {
    var item := if hash in reg then reg[hash] else NotFoundEntry(now, None, 0);
    if CountDue(item, now) then reg[hash := item.(recentTry := Some(now), count := item.count + 1)]
    else reg
  }

  /** A hash is given up on once it has been counted as not found three times. */
  predicate IsHashUnavailable(reg: map<string, NotFoundEntry>, hash: string): (r: bool)
    ensures hash !in reg ==> !r
    ensures r ==> reg[hash].count >= 3
    ensures hash in reg && reg[hash].count >= 3 ==> r
  {
    hash in reg && reg[hash].count >= UNAVAILABLE_COUNT
  }

  /** An answer that counted blocks further counts for an hour: two answers within the hour count once. */
  lemma NotFoundWithinAnHourCountsOnce(reg: map<string, NotFoundEntry>, hash: string, t1: int, t2: int)
    requires hash !in reg || CountDue(reg[hash], t1)
    requires t2 <= t1 + HOUR
    ensures RegisterNotFound(RegisterNotFound(reg, hash, t1), hash, t2) == RegisterNotFound(reg, hash, t1)
  {
  }

  /** Answers more than an hour after one that counted count again. */
  lemma NotFoundAfterAnHourCountsAgain(reg: map<string, NotFoundEntry>, hash: string, t1: int, t2: int)
    requires hash !in reg || CountDue(reg[hash], t1)
    requires t2 > t1 + HOUR
    ensures RegisterNotFound(RegisterNotFound(reg, hash, t1), hash, t2)[hash].count
            == RegisterNotFound(reg, hash, t1)[hash].count + 1
  {
  }

  /** Three answers for an unseen hash, each more than an hour after the previous, suppress it. */
  lemma ThreeSpacedAnswersSuppress(reg: map<string, NotFoundEntry>, hash: string, t1: int, t2: int, t3: int)
    requires hash !in reg
    requires t2 > t1 + HOUR && t3 > t2 + HOUR
    ensures !IsHashUnavailable(RegisterNotFound(reg, hash, t1), hash)
    ensures !IsHashUnavailable(RegisterNotFound(RegisterNotFound(reg, hash, t1), hash, t2), hash)
    ensures IsHashUnavailable(RegisterNotFound(RegisterNotFound(RegisterNotFound(reg, hash, t1), hash, t2), hash, t3), hash)
  {
  }

  /** There is no way back: registering never makes a suppressed hash available again. */
  lemma UnavailableIsPermanent(reg: map<string, NotFoundEntry>, hash: string, other: string, now: int)
    requires IsHashUnavailable(reg, hash)
    ensures IsHashUnavailable(RegisterNotFound(reg, other, now), hash)
  {
  }

  /**
   * The shape of every entry setHashNotFound writes: it has been tried, and
   * each count after the first took more than an hour.
   */
  predicate EntryWellFormed(e: NotFoundEntry)
  {
    e.recentTry.Some? && e.count >= 1 && e.recentTry.value >= e.firstTry + (e.count - 1) * HOUR
  }

  predicate RegistryWellFormed(reg: map<string, NotFoundEntry>)
  {
    forall h :: h in reg ==> EntryWellFormed(reg[h])
  }

  lemma RegisterNotFoundWellFormed(reg: map<string, NotFoundEntry>, hash: string, now: int)
    requires RegistryWellFormed(reg)
    ensures RegistryWellFormed(RegisterNotFound(reg, hash, now))
  {
  }

  /** A burst cannot suppress a hash: reaching the threshold takes at least two hours of answers. */
  lemma SuppressionTakesTwoHours(reg: map<string, NotFoundEntry>, hash: string)
    requires RegistryWellFormed(reg)
    requires IsHashUnavailable(reg, hash)
    ensures reg[hash].recentTry.value - reg[hash].firstTry >= 2 * HOUR
  {
    assert EntryWellFormed(reg[hash]);
  }
}
