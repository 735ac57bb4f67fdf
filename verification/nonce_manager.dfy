/**
 * The in-process nonce store of the gate: a table from nonce to its creation
 * time and a used flag. A nonce is valid for a fixed time after creation,
 * unknown nonces count as used (fail closed), and marking is idempotent.
 * Times are milliseconds since the epoch; the clock is a parameter.
 */
module NonceStore {

  /** The lifetime of a nonce in seconds. */
  const NonceExpiry: nat := 300

  /** The same lifetime in milliseconds, the unit of the timestamps. */
  const NonceTtlMs: nat := NonceExpiry * 1000

  datatype NonceData = NonceData(timestamp: int, used: bool)

  type Store = map<string, NonceData>

  /** `isUsed`: a missing nonce is reported as used. */
  predicate UsedIn(store: Store, nonce: string)
  {
    nonce !in store || store[nonce].used
  }

  /** `isValid`: the nonce exists and is strictly younger than the lifetime. */
  predicate ValidIn(store: Store, nonce: string, now: int)
  {
    nonce in store && now - store[nonce].timestamp < NonceTtlMs
  }

  /** The store after `generate` records `nonce` at time `now`. */
  function Generated(store: Store, nonce: string, now: int): Store
  {
    store[nonce := NonceData(now, false)]
  }

  /** The store after `markUsed(nonce)`. */
  function MarkedUsed(store: Store, nonce: string): (s: Store)
    ensures s.Keys == store.Keys
    ensures forall k :: k in s ==> s[k].timestamp == store[k].timestamp
    ensures forall k :: k in s ==> (s[k].used <==> k == nonce || store[k].used)
  {
    if nonce in store then store[nonce := store[nonce].(used := true)] else store
  }

  /** The entries `cleanup` evicts: strictly older than the lifetime. */
  predicate Stale(data: NonceData, now: int)
  {
    now - data.timestamp > NonceTtlMs
  }

  /** The store after `cleanup` at time `now`. */
  function CleanedUp(store: Store, now: int): (s: Store)
    ensures forall k :: k in s <==> k in store && !Stale(store[k], now)
    ensures forall k :: k in s ==> s[k] == store[k]
  {
    map k | k in store && !Stale(store[k], now) :: store[k]
  }

  class NonceManager {
    var inMemoryStore: Store

    constructor ()
      ensures inMemoryStore == map[]
    {
      inMemoryStore := map[];
    }

    /**
     * Records `nonce`, the freshly drawn random token, as created at `now`
     * and unused, and returns it. Like the source's map insertion, an
     * existing entry under the same key would be overwritten.
     */
    method Generate(nonce: string, now: int) returns (r: string)
      modifies this
      ensures r == nonce
      ensures inMemoryStore == Generated(old(inMemoryStore), nonce, now)
    {
      inMemoryStore := inMemoryStore[nonce := NonceData(now, false)];
      r := nonce;
    }

    method IsUsed(nonce: string) returns (r: bool)
      ensures r == UsedIn(inMemoryStore, nonce)
    {
      if nonce in inMemoryStore {
        r := inMemoryStore[nonce].used;
      } else {
        r := true;
      }
    }

    method IsValid(nonce: string, now: int) returns (r: bool)
      ensures r == ValidIn(inMemoryStore, nonce, now)
    {
      if nonce !in inMemoryStore {
        return false;
      }
      var age := now - inMemoryStore[nonce].timestamp;
      r := age < NonceExpiry * 1000;
    }

    method MarkUsed(nonce: string)
      modifies this
      ensures inMemoryStore == MarkedUsed(old(inMemoryStore), nonce)
    {
      if nonce in inMemoryStore {
        var data := inMemoryStore[nonce];
        inMemoryStore := inMemoryStore[nonce := data.(used := true)];
      }
    }

    /** Walks the entries once, deleting every stale one. */
    method Cleanup(now: int)
      modifies this
      ensures inMemoryStore == CleanedUp(old(inMemoryStore), now)
    {
      ghost var original := inMemoryStore;
      var pending := inMemoryStore.Keys;
      while pending != {}
        invariant pending <= original.Keys
        invariant forall k :: k in inMemoryStore <==> k in original && (k in pending || !Stale(original[k], now))
        invariant forall k :: k in inMemoryStore ==> inMemoryStore[k] == original[k]
        decreases pending
      {
        var nonce :| nonce in pending;
        if now - inMemoryStore[nonce].timestamp > NonceExpiry * 1000 {
          inMemoryStore := inMemoryStore - {nonce};
        }
        pending := pending - {nonce};
      }
    }
  }

  /** A nonce is valid from its creation until just before its lifetime has passed. */
  lemma ValidityWindow(store: Store, nonce: string, created: int, now: int)
    ensures ValidIn(Generated(store, nonce, created), nonce, now) <==> now < created + NonceTtlMs
    ensures ValidIn(Generated(store, nonce, created), nonce, created)
    ensures !UsedIn(Generated(store, nonce, created), nonce)
  {
  }

  /** Generating a fresh nonce adds exactly that entry. */
  lemma GenerateFresh(store: Store, nonce: string, now: int)
    requires nonce !in store
    ensures Generated(store, nonce, now).Keys == store.Keys + {nonce}
    ensures forall k :: k in store ==> Generated(store, nonce, now)[k] == store[k]
  {
  }

  /** After `markUsed`, `isUsed` holds, whether the nonce was present or not. */
  lemma UsedAfterMark(store: Store, nonce: string)
    ensures UsedIn(MarkedUsed(store, nonce), nonce)
  {
  }

  lemma MarkUsedIdempotent(store: Store, nonce: string)
    ensures MarkedUsed(MarkedUsed(store, nonce), nonce) == MarkedUsed(store, nonce)
  {
  }

  /**
   * An entry exactly one lifetime old is already invalid but still survives
   * `cleanup`: the two checks use `<` and `>` respectively.
   */
  lemma BoundaryAge(store: Store, nonce: string, now: int)
    requires nonce in store && now == store[nonce].timestamp + NonceTtlMs
    ensures !ValidIn(store, nonce, now)
    ensures nonce in CleanedUp(store, now)
  {
  }

  /** Cleanup never evicts a nonce that is still valid. */
  lemma CleanupKeepsValid(store: Store, nonce: string, now: int)
    ensures ValidIn(CleanedUp(store, now), nonce, now) <==> ValidIn(store, nonce, now)
    ensures UsedIn(store, nonce) ==> UsedIn(CleanedUp(store, now), nonce)
  {
  }

  /** The operations that change the store, as the gate and its owner issue them. */
  datatype StoreOp = GenerateOp(nonce: string, at: int) | MarkUsedOp(nonce: string) | CleanupOp(at: int)

  function Apply(store: Store, op: StoreOp): Store
  {
    match op
    case GenerateOp(n, t) => Generated(store, n, t)
    case MarkUsedOp(n) => MarkedUsed(store, n)
    case CleanupOp(t) => CleanedUp(store, t)
  }

  function ApplyAll(store: Store, ops: seq<StoreOp>): Store
    decreases |ops|
  {
    if ops == [] then store else ApplyAll(Apply(store, ops[0]), ops[1..])
  }

  /**
   * Every nonce generated by `ops` is new: not among the `issued` ones, nor
   * generated earlier in `ops`. This is what 256 random bits provide.
   */
  predicate FreshOps(ops: seq<StoreOp>, issued: set<string>)
    decreases |ops|
  {
    ops == [] ||
    match ops[0]
    case GenerateOp(n, _) => n !in issued && FreshOps(ops[1..], issued + {n})
    case _ => FreshOps(ops[1..], issued)
  }

  /**
   * Once a nonce has been issued and reads as used, it reads as used after
   * any later sequence of store operations with fresh nonces: no operation
   * resets the flag, and an evicted nonce fails closed.
   */
  lemma {:induction false} UsedStaysUsed(store: Store, ops: seq<StoreOp>, issued: set<string>, nonce: string)
    requires store.Keys <= issued && nonce in issued
    requires FreshOps(ops, issued)
    requires UsedIn(store, nonce)
    ensures UsedIn(ApplyAll(store, ops), nonce)
    decreases |ops|
  {
    if ops != [] {
      var next := Apply(store, ops[0]);
      match ops[0]
      case GenerateOp(n, t) =>
        UsedStaysUsed(next, ops[1..], issued + {n}, nonce);
      case MarkUsedOp(n) =>
        UsedStaysUsed(next, ops[1..], issued, nonce);
      case CleanupOp(t) =>
        UsedStaysUsed(next, ops[1..], issued, nonce);
    }
  }
}
