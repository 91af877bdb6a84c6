/**
 * The daily quota gate of the extension's background worker: a "checkLimit"
 * message counts one use against the key `limit_<fingerprint>_<day>` in the
 * extension's local key/value storage, unless that day's count has already
 * reached the limit.
 */
module QuotaGate {
  import opened Wrappers

  /** Uses allowed per fingerprint and calendar day. */
  const DailyLimit: int := 10

  /** The only message action the handler answers. */
  const CheckLimitAction: string := "checkLimit"

  /** The extension's local storage, restricted to the usage counters. */
  type Store = map<string, int>

  /** A runtime message: its action name and the caller's fingerprint (`traits`). */
  datatype Request = Request(action: string, traits: string)

  /** The reply sent back over the message port. */
  datatype LimitResponse = LimitResponse(blocked: bool, usage: int, dailyLimit: int)

  /** One message delivery, together with the day string the clock gave for it. */
  datatype Delivery = Delivery(request: Request, today: string)

  /** The storage key of one fingerprint's counter on one day. */
  function StorageKey(fingerprint: string, today: string): (key: string)
    ensures |key| == 7 + |fingerprint| + |today|
    ensures key[..6] == "limit_" && key[6 + |fingerprint|] == '_'
    ensures key[6..6 + |fingerprint|] == fingerprint && key[7 + |fingerprint|..] == today
  {
    "limit_" + fingerprint + "_" + today
  }

  /** `result[key]` of a storage read: present only when the key is stored. */
  function Lookup(store: Store, key: string): Option<int>
  {
    if key in store then Some(store[key]) else None
  }

  /**
   * JavaScript's `v || 0` on a number that may be `undefined`. A present `0` is
   * falsy and also yields `0`, so on integers only a missing value is replaced.
   */
  function OrZero(v: Option<int>): int
  {
    match v
    case Some(n) => n
    case None => 0
  }

  /** The usage the handler sees for `key`: an absent key counts as zero uses. */
  function Usage(store: Store, key: string): (u: int)
    ensures key !in store ==> u == 0
    ensures key in store ==> u == store[key]
  {
    OrZero(Lookup(store, key))
  }

  /** The block-or-increment rule on one key: the new store and the reply. */
  function Consume(store: Store, key: string): (r: (Store, LimitResponse))
    ensures r.1.blocked <==> Usage(store, key) >= DailyLimit
    ensures r.1.usage == Usage(r.0, key) && r.1.dailyLimit == DailyLimit
    ensures r.0.Keys <= store.Keys + {key}
  {
    var usage := Usage(store, key);
    if usage >= DailyLimit then
      (store, LimitResponse(true, usage, DailyLimit))
    else
      (store[key := usage + 1], LimitResponse(false, usage + 1, DailyLimit))
  }

  /** The whole message handler: other actions get no reply and touch nothing. */
  function Handle(store: Store, request: Request, today: string): (r: (Store, Option<LimitResponse>))
    ensures r.1.None? <==> request.action != CheckLimitAction
    ensures r.1.None? ==> r.0 == store
    ensures r.1.Some? ==> r.1.value.usage == Usage(r.0, StorageKey(request.traits, today))
  {
    if request.action != CheckLimitAction then
      (store, None)
    else
      var (store', response) := Consume(store, StorageKey(request.traits, today));
      (store', Some(response))
  }

  /** A run of deliveries, handled one after the other; the replies in order. */
  function Replay(store: Store, deliveries: seq<Delivery>): (Store, seq<Option<LimitResponse>>)
    decreases |deliveries|
  {
    if deliveries == [] then
      (store, [])
    else
      var (store', response) := Handle(store, deliveries[0].request, deliveries[0].today);
      var (final, responses) := Replay(store', deliveries[1..]);
      (final, [response] + responses)
  }

  /** `n` "checkLimit" messages from one fingerprint on one day. */
  function SameDayCalls(fingerprint: string, today: string, n: nat): (ds: seq<Delivery>)
    ensures |ds| == n
  {
    seq(n, _ => Delivery(Request(CheckLimitAction, fingerprint), today))
  }

  /** Two counters of the same day, or of the same fingerprint, never share a key... */
  lemma StorageKeyInjective(f1: string, t1: string, f2: string, t2: string)
    requires |t1| == |t2|
    requires StorageKey(f1, t1) == StorageKey(f2, t2)
    ensures f1 == f2 && t1 == t2
  {
  }

  /** ...but with days of different lengths a fingerprint may absorb part of the day. */
  lemma StorageKeyCollision()
    ensures StorageKey("a_b", "c") == StorageKey("a", "b_c")
  {
  }

  /** At or over the limit: the reply is blocked with the stored usage, and the store is unchanged. */
  lemma ConsumeBlocked(store: Store, key: string)
    requires Usage(store, key) >= DailyLimit
    ensures Consume(store, key) == (store, LimitResponse(true, Usage(store, key), DailyLimit))
  {
  }

  /** Under the limit: the counter goes up by exactly one and the reply reports the new count. */
  lemma ConsumeIncrements(store: Store, key: string)
    requires Usage(store, key) < DailyLimit
    ensures Consume(store, key).0 == store[key := Usage(store, key) + 1]
    ensures Consume(store, key).1 == LimitResponse(false, Usage(store, key) + 1, DailyLimit)
  {
  }

  /** A message that is not "checkLimit" gets no reply and leaves the store as it was. */
  lemma HandleIgnoresOtherActions(store: Store, request: Request, today: string)
    requires request.action != CheckLimitAction
    ensures Handle(store, request, today) == (store, None)
  {
  }

  /** Only the caller's key for today is read or written; every other entry is left alone. */
  lemma HandleFrame(store: Store, request: Request, today: string, other: string)
    requires other != StorageKey(request.traits, today)
    ensures other in Handle(store, request, today).0 <==> other in store
    ensures other in store ==> Handle(store, request, today).0[other] == store[other]
  {
  }

  /** A counter that starts at or under the limit stays at or under it, whatever messages arrive. */
  lemma {:induction false} ReplayStaysWithinLimit(store: Store, deliveries: seq<Delivery>, key: string)
    requires Usage(store, key) <= DailyLimit
    ensures Usage(Replay(store, deliveries).0, key) <= DailyLimit
    decreases |deliveries|
  {
    if deliveries != [] {
      var store' := Handle(store, deliveries[0].request, deliveries[0].today).0;
      assert Usage(store', key) <= DailyLimit;
      ReplayStaysWithinLimit(store', deliveries[1..], key);
    }
  }

  /**
   * `n` calls from one fingerprint on one day, starting from a count `u` at or under
   * the limit: call `i` is admitted with usage `u + i + 1` while `u + i` is under the
   * limit, and blocked with usage `DailyLimit` from then on; the count ends at
   * `min(u + n, DailyLimit)`.
   */
  lemma {:induction false} SameDayReplay(store: Store, fingerprint: string, today: string, n: nat)
    requires Usage(store, StorageKey(fingerprint, today)) <= DailyLimit
    ensures var u := Usage(store, StorageKey(fingerprint, today));
            var (final, responses) := Replay(store, SameDayCalls(fingerprint, today, n));
            && |responses| == n
            && (forall i :: 0 <= i < n ==>
                  responses[i] == Some(if u + i < DailyLimit
                                       then LimitResponse(false, u + i + 1, DailyLimit)
                                       else LimitResponse(true, DailyLimit, DailyLimit)))
            && Usage(final, StorageKey(fingerprint, today)) == if u + n < DailyLimit then u + n else DailyLimit
    decreases n
  {
    var key := StorageKey(fingerprint, today);
    var u := Usage(store, key);
    var calls := SameDayCalls(fingerprint, today, n);
    if n > 0 {
      var (store', first) := Handle(store, calls[0].request, calls[0].today);
      assert calls[1..] == SameDayCalls(fingerprint, today, n - 1);
      var u' := Usage(store', key);
      assert u' == if u < DailyLimit then u + 1 else DailyLimit;
      SameDayReplay(store', fingerprint, today, n - 1);
      var responses := Replay(store, calls).1;
      var rest := Replay(store', calls[1..]).1;
      assert responses == [first] + rest;
      forall i | 0 <= i < n
        ensures responses[i] == Some(if u + i < DailyLimit
                                     then LimitResponse(false, u + i + 1, DailyLimit)
                                     else LimitResponse(true, DailyLimit, DailyLimit))
      {
        if i > 0 {
          assert responses[i] == rest[i - 1];
        }
      }
    }
  }

  /**
   * From an empty store, ten calls of one fingerprint on one day are admitted with
   * usage 1 to 10, and the eleventh is blocked with usage 10.
   */
  lemma FreshDayScenario(fingerprint: string, today: string)
    ensures Replay(map[], SameDayCalls(fingerprint, today, 11)).1
            == seq(11, i => Some(if i < 10 then LimitResponse(false, i + 1, DailyLimit)
                                 else LimitResponse(true, DailyLimit, DailyLimit)))
  {
    SameDayReplay(map[], fingerprint, today, 11);
  }

  /** The background worker's storage of usage counters and its message handler. */
  class LimitStore {
    var entries: Store

    constructor (initial: Store)
      ensures entries == initial
    {
      entries := initial;
    }

    /** Answers one runtime message; `today` is the clock's `toDateString()` for this call. */
    method OnMessage(request: Request, today: string) returns (response: Option<LimitResponse>)
      modifies this
      ensures (entries, response) == Handle(old(entries), request, today)
    {
      if request.action != CheckLimitAction {
        return None;
      }
      var key := StorageKey(request.traits, today);
      var usage := OrZero(if key in entries then Some(entries[key]) else None);
      if usage >= DailyLimit {
        response := Some(LimitResponse(true, usage, DailyLimit));
      } else {
        entries := entries[key := usage + 1];
        response := Some(LimitResponse(false, usage + 1, DailyLimit));
      }
    }
  }
}
