/** `InitRedis`: the expiring key-value store holding sessions. Each entry
    keeps the JSON value written and the instant it expires; the clock
    `now` is an explicit parameter. A store that is not `up` raises on
    every call, as the Redis client does when the server is unreachable. */
module SessionStore {
  import opened Wrappers
  import opened JsonValue

  /** Every write expires this many seconds later (`ex=60`). */
  const Ttl: int := 60

  /** What `get_session` returns for a missing or expired key. */
  const NotFound := "Does Not Exist!"

  datatype Entry = Entry(data: Json, expiry: int)

  datatype Store = Store(entries: map<string, Entry>, up: bool)

  /** Redis still serves `key` at `now`. */
  predicate Live(s: Store, now: int, key: string) {
    key in s.entries && now < s.entries[key].expiry
  }

  /** `set_session`: a full overwrite of `key` with a fresh 60 s expiry. */
  function SetSession(s: Store, now: int, key: string, data: Json): (r: Result<Store, string>)
    ensures r.Success? <==> s.up
    ensures r.Success? ==> r.value.up
    ensures r.Success? ==> key in r.value.entries && r.value.entries[key] == Entry(data, now + Ttl)
    ensures r.Success? ==> forall k :: k != key ==>
      (k in r.value.entries <==> k in s.entries) && (k in s.entries ==> r.value.entries[k] == s.entries[k])
  {
    if !s.up then Failure("redis unavailable")
    else Success(s.(entries := s.entries[key := Entry(data, now + Ttl)]))
  }

  /** `get_session`: the value last written while it is live, otherwise
      the string sentinel. Reading changes nothing. */
  function GetSession(s: Store, now: int, key: string): (r: Result<Json, string>)
    ensures r.Success? <==> s.up
    ensures r.Success? && Live(s, now, key) ==> r.value == s.entries[key].data
    ensures r.Success? && !Live(s, now, key) ==> r.value == JStr(NotFound)
  {
    if !s.up then Failure("redis unavailable")
    else if Live(s, now, key) then Success(s.entries[key].data)
    else Success(JStr(NotFound))
  }

  /** `delete_session`: removes `key` whether or not it existed, and
      reports True. */
  function DeleteSession(s: Store, key: string): (r: Result<(Store, bool), string>)
    ensures r.Success? <==> s.up
    ensures r.Success? ==> r.value.1 && r.value.0.up && key !in r.value.0.entries
    ensures r.Success? ==> forall k :: k != key ==>
      (k in r.value.0.entries <==> k in s.entries) && (k in s.entries ==> r.value.0.entries[k] == s.entries[k])
  {
    if !s.up then Failure("redis unavailable")
    else Success((s.(entries := s.entries - {key}), true))
  }

  /** Before it expires, a read returns exactly what was written. */
  lemma ReadYourWrite(s: Store, now: int, later: int, key: string, data: Json)
    requires s.up && now <= later < now + Ttl
    ensures GetSession(SetSession(s, now, key, data).value, later, key) == Success(data)
  {
  }

  /** From 60 s after the write on, a read yields the sentinel. */
  lemma ExpiresAfterTtl(s: Store, now: int, later: int, key: string, data: Json)
    requires s.up && later >= now + Ttl
    ensures GetSession(SetSession(s, now, key, data).value, later, key) == Success(JStr(NotFound))
  {
  }

  /** After a delete, the key reads as the sentinel at any time. */
  lemma ReadAfterDelete(s: Store, now: int, key: string)
    requires s.up
    ensures GetSession(DeleteSession(s, key).value.0, now, key) == Success(JStr(NotFound))
  {
  }

  /** Deleting twice is the same as deleting once, and deleting an absent
      key leaves the store as it was. */
  lemma DeleteIdempotent(s: Store, key: string)
    requires s.up
    ensures DeleteSession(DeleteSession(s, key).value.0, key) == DeleteSession(s, key)
    ensures key !in s.entries ==> DeleteSession(s, key) == Success((s, true))
  {
    assert s.entries - {key} - {key} == s.entries - {key};
    if key !in s.entries {
      assert s.entries - {key} == s.entries;
    }
  }

  /** Writing or deleting one key never changes what another key reads. */
  lemma OtherKeysUnaffected(s: Store, now: int, later: int, key: string, other: string, data: Json)
    requires s.up && other != key
    ensures GetSession(SetSession(s, now, key, data).value, later, other) == GetSession(s, later, other)
    ensures GetSession(DeleteSession(s, key).value.0, later, other) == GetSession(s, later, other)
  {
  }

  /** A stored object is never confused with the not-found sentinel. */
  lemma ObjectDistinctFromSentinel(s: Store, now: int, key: string)
    requires s.up && key in s.entries && s.entries[key].data.JObj?
    ensures GetSession(s, now, key).value.JObj? <==> Live(s, now, key)
    ensures !Live(s, now, key) <==> GetSession(s, now, key).value == JStr(NotFound)
  {
  }

  /** One call made against the store, at a clock reading. */
  datatype Op = Write(key: string, data: Json) | Read(key: string) | Remove(key: string)

  datatype Call = Call(at: int, op: Op)

  /** The entries after one call; reads leave them untouched. */
  function Apply(entries: map<string, Entry>, c: Call): map<string, Entry> {
    match c.op
    case Write(k, d) => entries[k := Entry(d, c.at + Ttl)]
    case Read(_) => entries
    case Remove(k) => entries - {k}
  }

  /** The entries after a log of calls, in order. */
  function Replay(entries: map<string, Entry>, log: seq<Call>): map<string, Entry>
    decreases |log|
  {
    if |log| == 0 then entries else Replay(Apply(entries, log[0]), log[1..])
  }

  /** A call that writes or removes `key`. */
  predicate Touches(c: Call, key: string) {
    (c.op.Write? || c.op.Remove?) && c.op.key == key
  }

  /** Reads never refresh an entry: the entry of `key` is the one its last
      write produced, expiring 60 s after that write, whatever reads of
      `key` came after it. */
  lemma {:induction false} ExpiryFollowsLastWrite(entries: map<string, Entry>, log: seq<Call>, i: nat, key: string)
    requires i < |log| && log[i].op.Write? && log[i].op.key == key
    requires forall j :: i < j < |log| ==> !Touches(log[j], key)
    ensures key in Replay(entries, log)
    ensures Replay(entries, log)[key] == Entry(log[i].op.data, log[i].at + Ttl)
    decreases |log|
  {
    if i == 0 {
      UntouchedKeyKept(Apply(entries, log[0]), log[1..], key);
    } else {
      ExpiryFollowsLastWrite(Apply(entries, log[0]), log[1..], i - 1, key);
    }
  }

  /** Calls that neither write nor remove `key` leave its entry alone. */
  lemma {:induction false} UntouchedKeyKept(entries: map<string, Entry>, log: seq<Call>, key: string)
    requires forall j :: 0 <= j < |log| ==> !Touches(log[j], key)
    ensures key in Replay(entries, log) <==> key in entries
    ensures key in entries ==> Replay(entries, log)[key] == entries[key]
    decreases |log|
  {
    if |log| > 0 {
      assert !Touches(log[0], key);
      UntouchedKeyKept(Apply(entries, log[0]), log[1..], key);
    }
  }

  /** On a store that answers, one logged call changes the entries exactly
      as the store operation it stands for. */
  lemma ApplyIsStoreOperation(s: Store, at: int, key: string, data: Json)
    requires s.up
    ensures Apply(s.entries, Call(at, Write(key, data))) == SetSession(s, at, key, data).value.entries
    ensures Apply(s.entries, Call(at, Remove(key))) == DeleteSession(s, key).value.0.entries
    ensures Apply(s.entries, Call(at, Read(key))) == s.entries
  {
  }

  /** The store after making each call of `log` in turn through
      `SetSession` and `DeleteSession`; a read returns a value and leaves
      the store as it is. */
  function Perform(s: Store, log: seq<Call>): (r: Store)
    requires s.up
    ensures r.up
    decreases |log|
  {
    if |log| == 0 then s
    else
      var next := match log[0].op
        case Write(k, d) => SetSession(s, log[0].at, k, d).value
        case Read(_) => s
        case Remove(k) => DeleteSession(s, k).value.0;
      Perform(next, log[1..])
  }

  /** The log model is the store operations: performing a log on a store
      that answers leaves exactly the entries `Replay` computes. */
  lemma {:induction false} PerformIsReplay(s: Store, log: seq<Call>)
    requires s.up
    ensures Perform(s, log).entries == Replay(s.entries, log)
    decreases |log|
  {
    if |log| > 0 {
      var c := log[0];
      ApplyIsStoreOperation(s, c.at, c.op.key, if c.op.Write? then c.op.data else JNull);
      var next := Store(Apply(s.entries, c), true);
      assert Perform(s, log) == Perform(next, log[1..]);
      PerformIsReplay(next, log[1..]);
    }
  }

  /** After any sequence of store calls, a read of `key` is decided by its
      last write alone: the data written while that write is under 60 s
      old, the sentinel from then on. */
  lemma LastWriteDecidesRead(s: Store, log: seq<Call>, i: nat, key: string, later: int)
    requires s.up
    requires i < |log| && log[i].op.Write? && log[i].op.key == key
    requires forall j :: i < j < |log| ==> !Touches(log[j], key)
    ensures GetSession(Perform(s, log), later, key)
      == Success(if later < log[i].at + Ttl then log[i].op.data else JStr(NotFound))
  {
    PerformIsReplay(s, log);
    ExpiryFollowsLastWrite(s.entries, log, i, key);
  }
}
