/**
  The in-memory storage adapter: a string map whose entries may expire, a millisecond clock,
  and the operations the OpenID Connect package uses.

  Expired entries stay in the map until something removes them: a read of that key, or the
  periodic clean-up, which may run at any time. A store that expires keys by itself behaves
  like this one with a clean-up before every call.
 */
module Storage {
  import opened Options
  import Glob

  /** A stored artifact: the fields the adapter reads, and everything else it only carries. */
  datatype Payload = Payload(
    grantId: Option<string>,
    accountId: Option<string>,
    uid: Option<string>,
    userCode: Option<string>,
    consumed: Option<int>,
    rest: string)

  /** A stored string, by what it parses to: an artifact, plain text, or a counter. */
  datatype Value = Json(payload: Payload) | Text(text: string) | Count(n: int)

  datatype Entry = Entry(value: Value, expiresAt: Option<int>)

  predicate Live(e: Entry, now: int) {
    e.expiresAt.Some? ==> now <= e.expiresAt.value
  }

  /** When a value stored now with this time to live expires. A zero or absent one means never. */
  function Expiry(now: int, ttlSeconds: Option<int>): Option<int> {
    if ttlSeconds.Some? && ttlSeconds.value != 0 then Some(now + ttlSeconds.value * 1000) else None
  }

  /** Whole seconds left: -1 for an entry that never expires, -2 for none or less than a second. */
  function Remaining(e: Entry, now: int): int {
    if e.expiresAt.None? then -1
    else
      var seconds := (e.expiresAt.value - now) / 1000;
      if seconds > 0 then seconds else -2
  }

  /** What a time-to-live query says of an entry's end. */
  lemma RemainingMeans(e: Entry, now: int, seconds: int)
    ensures Remaining(e, now) == seconds <==>
      match e.expiresAt
      case None => seconds == -1
      case Some(end) =>
        || (seconds == -2 && end < now + 1000)
        || (seconds > 0 && now + seconds * 1000 <= end < now + (seconds + 1) * 1000)
  {
  }

  /** A value stored with a lifetime is live for as many seconds, to the last millisecond; without one, for ever. */
  lemma LifetimeMeans(value: Value, now: int, ttlSeconds: Option<int>, later: int)
    ensures Live(Entry(value, Expiry(now, ttlSeconds)), later) <==>
      match ttlSeconds
      case None => true
      case Some(seconds) => seconds == 0 || later <= now + seconds * 1000
  {
  }

  function Read(entries: map<string, Entry>, now: int, key: string): Option<Value> {
    if key in entries && Live(entries[key], now) then Some(entries[key].value) else None
  }

  /** A read drops the entry it finds expired. */
  function AfterRead(entries: map<string, Entry>, now: int, key: string): map<string, Entry> {
    if key in entries && !Live(entries[key], now) then entries - {key} else entries
  }

  function Cleaned(entries: map<string, Entry>, now: int): map<string, Entry> {
    map key | key in entries && Live(entries[key], now) :: entries[key]
  }

  /** The counter an increment leaves: a fresh window when none is live, else the running one. */
  function Bumped(entries: map<string, Entry>, now: int, key: string, ttlSeconds: int): Entry
    requires key in entries ==> entries[key].value.Count?
  {
    if key in entries && Live(entries[key], now)
    then Entry(Count(entries[key].value.n + 1), entries[key].expiresAt)
    else Entry(Count(1), Some(now + ttlSeconds * 1000))
  }

  class MemoryStorage {
    var entries: map<string, Entry>
    var clock: int

    constructor (start: int)
      ensures entries == map[] && clock == start
    {
      entries := map[];
      clock := start;
    }

    method Get(key: string) returns (value: Option<Value>)
      modifies this`entries
      ensures value == Read(old(entries), clock, key)
      ensures entries == AfterRead(old(entries), clock, key)
    {
      if key !in entries {
        return None;
      }
      if !Live(entries[key], clock) {
        entries := entries - {key};
        return None;
      }
      return Some(entries[key].value);
    }

    method Set(key: string, value: Value, ttlSeconds: Option<int>)
      modifies this`entries
      ensures entries == old(entries)[key := Entry(value, Expiry(clock, ttlSeconds))]
    {
      entries := entries[key := Entry(value, Expiry(clock, ttlSeconds))];
    }

    method Del(key: string)
      modifies this`entries
      ensures entries == old(entries) - {key}
    {
      entries := entries - {key};
    }

    method Ttl(key: string) returns (seconds: int)
      ensures seconds == if key in entries then Remaining(entries[key], clock) else -2
    {
      if key !in entries {
        return -2;
      }
      return Remaining(entries[key], clock);
    }

    method Incr(key: string, ttlSeconds: int) returns (count: int)
      requires key in entries ==> entries[key].value.Count?
      modifies this`entries
      ensures entries == old(entries)[key := Bumped(old(entries), clock, key, ttlSeconds)]
      ensures count == entries[key].value.n
    {
      count := 0;
      var expiresAt := Some(clock + ttlSeconds * 1000);
      if key in entries {
        if Live(entries[key], clock) {
          count := entries[key].value.n;
          expiresAt := entries[key].expiresAt;
        }
      }
      count := count + 1;
      entries := entries[key := Entry(Count(count), expiresAt)];
    }

    /** Every stored key the pattern matches, each once, expired or not. */
    method Keys(pattern: string) returns (found: seq<string>)
      ensures forall key :: key in found <==> key in entries && Glob.Matches(pattern, key)
      ensures forall i, j :: 0 <= i < j < |found| ==> found[i] != found[j]
    {
      found := [];
      var rest := entries.Keys;
      while rest != {}
        invariant rest <= entries.Keys
        invariant forall key :: key in found <==> key in entries && key !in rest && Glob.Matches(pattern, key)
        invariant forall i, j :: 0 <= i < j < |found| ==> found[i] != found[j]
        decreases rest
      {
        var key :| key in rest;
        rest := rest - {key};
        if Glob.Matches(pattern, key) {
          found := found + [key];
        }
      }
    }

    method CleanupExpired()
      modifies this`entries
      ensures entries == Cleaned(old(entries), clock)
    {
      var rest := entries.Keys;
      while rest != {}
        invariant rest <= old(entries).Keys
        invariant entries == map key | key in old(entries) && (key in rest || Live(old(entries)[key], clock)) ::
          old(entries)[key]
        decreases rest
      {
        var key :| key in rest;
        rest := rest - {key};
        if !Live(entries[key], clock) {
          entries := entries - {key};
        }
      }
    }

    method Advance(ms: nat)
      modifies this`clock
      ensures clock == old(clock) + ms
    {
      clock := clock + ms;
    }
  }
}
