/**
 The resource registry: a leased LRU store bounded by an entry count and by
 encoded bytes (`publication.rs`, `RegistryState`).
 */
module Registry {
  import opened Wrappers
  import opened Collections
  import opened Machine

  type ResourceId = nat
  type Token = nat

  datatype SourceRevision = SourceRevision(path: string, stamp: nat)

  datatype Payload = Encoded(bytes: seq<bv8>) | File(path: string)

  datatype Entry = Entry(
    payload: Payload,
    memoryBytes: nat,
    uiUntil: nat,
    fileRevision: Option<SourceRevision>,
    artifactLease: Option<nat>,
    stagedOwner: Option<nat>)

  datatype Limits = Limits(maxEntries: nat, maxEncodedBytes: nat, publishGrace: nat, uiLease: nat)

  datatype RegistryError =
    | EntryBudget(current: nat, limit: nat, requested: nat)
    | MemoryBudget(current: nat, limit: nat, requested: nat)
    | ResourceExpired
    | SourceUnobservable

  function PayloadBytes(payload: Payload): nat {
    match payload
    case Encoded(bytes) => |bytes|
    case File(_) => 0
  }

  /** The byte counter of a sound registry counts what is encoded in memory, and nothing for a file. */
  lemma BytesAreWhatIsEncoded(limits: Limits, entries: map<ResourceId, Entry>, lru: seq<ResourceId>, bytes: nat,
                              peakBytes: nat, peakEntries: nat, sizes: map<ResourceId, nat>)
    requires Sound(limits, entries, lru, bytes, peakBytes, peakEntries) && sizes.Keys == entries.Keys
    requires forall id :: id in entries ==>
      sizes[id] == match entries[id].payload case Encoded(encoded) => |encoded| case File(_) => 0
    ensures bytes == SumMap(sizes)
  {
    assert Weights(entries) == sizes;
  }

  ghost function Weights(entries: map<ResourceId, Entry>): map<ResourceId, nat> {
    map id | id in entries :: entries[id].memoryBytes
  }

  ghost function TotalBytes(entries: map<ResourceId, Entry>): nat {
    SumMap(Weights(entries))
  }

  /** A protocol read is in progress, or the UI lease has not run out at `t`. */
  ghost predicate Protected(entries: map<ResourceId, Entry>, leases: map<Token, ResourceId>,
                            id: ResourceId, t: nat)
  {
    id in leases.Values || (id in entries && entries[id].uiUntil > t)
  }

  ghost function ProtectedIds(entries: map<ResourceId, Entry>, leases: map<Token, ResourceId>, t: nat): set<ResourceId> {
    set id | id in entries && Protected(entries, leases, id, t)
  }

  /** The byte counter is exact and the LRU list is a permutation of the ids. */
  ghost predicate Ledger(entries: map<ResourceId, Entry>, lru: seq<ResourceId>, bytes: nat) {
    && bytes == TotalBytes(entries)
    && Lists(lru, entries.Keys)
    && (forall id :: id in entries ==> entries[id].memoryBytes == PayloadBytes(entries[id].payload))
  }

  /** The ledger is exact, both budgets hold, and the peaks dominate the present within them. */
  ghost predicate Sound(limits: Limits, entries: map<ResourceId, Entry>, lru: seq<ResourceId>, bytes: nat,
                        peakBytes: nat, peakEntries: nat)
  {
    && limits.maxEntries <= USIZE_MAX && limits.maxEncodedBytes <= USIZE_MAX
    && Ledger(entries, lru, bytes)
    && |entries| <= peakEntries <= limits.maxEntries
    && bytes <= peakBytes <= limits.maxEncodedBytes
  }

  /** Ids and lease tokens come from counters that are ahead of every one in use. */
  ghost predicate Issued(entries: map<ResourceId, Entry>, leases: map<Token, ResourceId>,
                         nextResource: nat, nextLease: nat)
  {
    && (forall id :: id in entries ==> id < nextResource)
    && (forall token :: token in leases ==> token <= nextLease)
  }

  /** `after` is part of `before`, entry by entry. */
  ghost predicate PartOf(after: map<ResourceId, Entry>, before: map<ResourceId, Entry>) {
    forall id :: id in after ==> id in before && after[id] == before[id]
  }

  /** Room for `bytes` and `count` more beside these entries. */
  ghost predicate HasRoom(limits: Limits, entries: map<ResourceId, Entry>, bytes: nat, count: nat) {
    |entries| + count <= limits.maxEntries && TotalBytes(entries) + bytes <= limits.maxEncodedBytes
  }

  lemma RoomIsFitting(limits: Limits, entries: map<ResourceId, Entry>, lru: seq<ResourceId>, memory: nat,
                      peakBytes: nat, peakEntries: nat, bytes: nat, count: nat)
    requires Sound(limits, entries, lru, memory, peakBytes, peakEntries)
    ensures HasRoom(limits, entries, bytes, count) <==>
      !Exceeds(|entries|, count, limits.maxEntries) && !Exceeds(memory, bytes, limits.maxEncodedBytes)
  {
  }

  /** Fewer entries leave more room. */
  lemma {:induction false} FewerLeaveRoom(limits: Limits, fewer: map<ResourceId, Entry>, entries: map<ResourceId, Entry>,
                                          bytes: nat, count: nat)
    requires PartOf(fewer, entries) && HasRoom(limits, entries, bytes, count)
    ensures HasRoom(limits, fewer, bytes, count)
    decreases |entries|
  {
    if id :| id in entries && id !in fewer {
      TotalBytesRemove(entries, id);
      MapRemoveSize(entries, id);
      FewerLeaveRoom(limits, fewer, entries - {id}, bytes, count);
    } else {
      assert fewer == entries;
    }
  }

  /** Beyond the sweep that left `swept`, the last entry evicted had to go for the new item to fit. */
  ghost predicate NoneNeedlessly(limits: Limits, swept: map<ResourceId, Entry>, after: map<ResourceId, Entry>,
                                 bytes: nat, count: nat)
  {
    && PartOf(after, swept)
    && (after == swept ||
        exists id :: id in swept && id !in after && !HasRoom(limits, after[id := swept[id]], bytes, count))
  }

  /**
   What an eviction pass between clock readings `t0` and `t1` may have done:
   everything still protected at the end survived, everything that survived was
   protected at the start, and the LRU order is the old one, possibly turned.
   */
  ghost predicate Evicted(before: map<ResourceId, Entry>, lru0: seq<ResourceId>,
                          leases: map<Token, ResourceId>, t0: nat,
                          after: map<ResourceId, Entry>, lru1: seq<ResourceId>, t1: nat)
  {
    && t0 <= t1
    && PartOf(after, before)
    && ProtectedIds(before, leases, t1) <= after.Keys <= ProtectedIds(before, leases, t0)
    && Turned(Keep(lru0, after.Keys), lru1)
  }

  lemma TotalBytesRemove(entries: map<ResourceId, Entry>, id: ResourceId)
    requires id in entries
    ensures TotalBytes(entries) == entries[id].memoryBytes + TotalBytes(entries - {id})
  {
    SumMapRemove(Weights(entries), id);
    assert Weights(entries) - {id} == Weights(entries - {id});
  }

  lemma TotalBytesInsert(entries: map<ResourceId, Entry>, id: ResourceId, entry: Entry)
    requires id !in entries
    ensures TotalBytes(entries[id := entry]) == entry.memoryBytes + TotalBytes(entries)
  {
    SumMapAdd(Weights(entries), id, entry.memoryBytes);
    assert Weights(entries)[id := entry.memoryBytes] == Weights(entries[id := entry]);
  }

  lemma TotalBytesUpdate(entries: map<ResourceId, Entry>, id: ResourceId, entry: Entry)
    requires id in entries
    ensures TotalBytes(entries[id := entry]) + entries[id].memoryBytes
         == TotalBytes(entries) + entry.memoryBytes
  {
    SumMapUpdate(Weights(entries), id, entry.memoryBytes);
    assert Weights(entries)[id := entry.memoryBytes] == Weights(entries[id := entry]);
  }

  /** `remove_entry` keeps the ledger exact: the saturating subtraction never saturates. */
  lemma RemovalIsSound(limits: Limits, entries: map<ResourceId, Entry>, lru: seq<ResourceId>, bytes: nat,
                       peakBytes: nat, peakEntries: nat, id: ResourceId)
    requires Sound(limits, entries, lru, bytes, peakBytes, peakEntries)
    ensures id in entries ==> bytes >= entries[id].memoryBytes
    ensures Sound(limits, entries - {id}, Without(lru, id), BytesWithout(entries, bytes, id), peakBytes, peakEntries)
  {
    if id in entries {
      LedgerRemove(entries, lru, bytes, id);
      MapRemoveSize(entries, id);
    } else {
      assert entries - {id} == entries;
      ListsFacts(lru, entries.Keys);
      WithoutAbsent(lru, id);
    }
  }

  lemma KeepWithoutEntry(order: seq<ResourceId>, entries: map<ResourceId, Entry>, id: ResourceId)
    ensures Keep(order, (entries - {id}).Keys) == Without(Keep(order, entries.Keys), id)
  {
    KeepWithout(order, entries.Keys, id);
    assert (entries - {id}).Keys == entries.Keys - {id};
  }

  lemma LedgerRemove(entries: map<ResourceId, Entry>, lru: seq<ResourceId>, bytes: nat, id: ResourceId)
    requires Ledger(entries, lru, bytes) && id in entries
    ensures bytes >= entries[id].memoryBytes
    ensures Ledger(entries - {id}, Without(lru, id), bytes - entries[id].memoryBytes)
  {
    TotalBytesRemove(entries, id);
    ListsWithout(lru, entries.Keys, id);
    assert (entries - {id}).Keys == entries.Keys - {id};
  }

  function BytesWithout(entries: map<ResourceId, Entry>, bytes: nat, id: ResourceId): nat {
    if id in entries then SaturatingSub(bytes, entries[id].memoryBytes) else bytes
  }

  /** The part of the registry that removing an entry touches. */
  datatype Store = Store(entries: map<ResourceId, Entry>, lru: seq<ResourceId>, bytes: nat)

  ghost function Removed(store: Store, id: ResourceId): Store {
    Store(store.entries - {id}, Without(store.lru, id), BytesWithout(store.entries, store.bytes, id))
  }

  ghost function RemovedAll(store: Store, ids: seq<ResourceId>): Store {
    if ids == [] then store
    else Removed(RemovedAll(store, ids[..|ids| - 1]), ids[|ids| - 1])
  }

  lemma {:induction false} RemovedAllIsSound(limits: Limits, store: Store, ids: seq<ResourceId>,
                                             peakBytes: nat, peakEntries: nat)
    requires Sound(limits, store.entries, store.lru, store.bytes, peakBytes, peakEntries)
    ensures var r := RemovedAll(store, ids); Sound(limits, r.entries, r.lru, r.bytes, peakBytes, peakEntries)
  {
    if ids != [] {
      RemovedAllIsSound(limits, store, ids[..|ids| - 1], peakBytes, peakEntries);
      var r := RemovedAll(store, ids[..|ids| - 1]);
      RemovalIsSound(limits, r.entries, r.lru, r.bytes, peakBytes, peakEntries, ids[|ids| - 1]);
    }
  }

  lemma {:induction false} RemovedAllKeeps(store: Store, ids: seq<ResourceId>)
    requires forall id :: id in store.lru ==> id in store.entries
    ensures var r := RemovedAll(store, ids);
      && PartOf(r.entries, store.entries)
      && (forall id :: id in store.entries ==> (id in r.entries <==> id !in ids))
      && r.lru == Keep(store.lru, r.entries.Keys)
  {
    if ids == [] {
      KeepAll(store.lru, store.entries.Keys);
    } else {
      var init, id := ids[..|ids| - 1], ids[|ids| - 1];
      assert ids == init + [id];
      RemovedAllKeeps(store, init);
      KeepWithoutEntry(store.lru, RemovedAll(store, init).entries, id);
    }
  }

  /** A sweep at time `t` keeps exactly the protected entries. */
  ghost predicate Swept(before: map<ResourceId, Entry>, leases: map<Token, ResourceId>, t: nat,
                        after: map<ResourceId, Entry>)
  {
    && PartOf(after, before)
    && after.Keys == ProtectedIds(before, leases, t)
  }

  lemma SweepOutcome(limits: Limits, store: Store, leases: map<Token, ResourceId>, t: nat, expired: seq<ResourceId>,
                     peakBytes: nat, peakEntries: nat, nextResource: nat, nextLease: nat)
    requires Sound(limits, store.entries, store.lru, store.bytes, peakBytes, peakEntries)
    requires Issued(store.entries, leases, nextResource, nextLease)
    requires forall id :: id in expired <==> id in store.entries && !Protected(store.entries, leases, id, t)
    ensures var r := RemovedAll(store, expired);
      && Sound(limits, r.entries, r.lru, r.bytes, peakBytes, peakEntries)
      && Issued(r.entries, leases, nextResource, nextLease)
      && Swept(store.entries, leases, t, r.entries)
      && r.lru == Keep(store.lru, r.entries.Keys)
  {
    ListsFacts(store.lru, store.entries.Keys);
    RemovedAllKeeps(store, expired);
    RemovedAllIsSound(limits, store, expired, peakBytes, peakEntries);
  }

  // One iteration of the eviction loop either turns the list or drops its front.

  lemma SweptIsEvicted(before: map<ResourceId, Entry>, lru: seq<ResourceId>, leases: map<Token, ResourceId>,
                       t0: nat, t1: nat, after: map<ResourceId, Entry>)
    requires t0 <= t1 && Swept(before, leases, t1, after)
    ensures Evicted(before, lru, leases, t0, after, Keep(lru, after.Keys), t1)
  {
    assert Rotated(Keep(lru, after.Keys), 0) == Keep(lru, after.Keys);
  }

  lemma EvictedTurn(before: map<ResourceId, Entry>, lru0: seq<ResourceId>, leases: map<Token, ResourceId>,
                    t0: nat, after: map<ResourceId, Entry>, lru: seq<ResourceId>, t1: nat, t2: nat)
    requires Evicted(before, lru0, leases, t0, after, lru, t1) && t1 <= t2
    ensures Evicted(before, lru0, leases, t0, after, lru, t2)
    ensures lru != [] ==> Evicted(before, lru0, leases, t0, after, lru[1..] + [lru[0]], t2)
  {
    var kept := Keep(lru0, after.Keys);
    var k := TurnOf(kept, lru);
    if lru != [] {
      var next := RotatedStep(kept, k);
      assert lru[1..] + [lru[0]] == Rotated(kept, next);
    }
  }

  lemma EvictedFrom(before: map<ResourceId, Entry>, lru0: seq<ResourceId>, leases: map<Token, ResourceId>,
                    t0: nat, t1: nat, after: map<ResourceId, Entry>, lru: seq<ResourceId>, t2: nat)
    requires t0 <= t1 && Evicted(before, lru0, leases, t1, after, lru, t2)
    ensures Evicted(before, lru0, leases, t0, after, lru, t2)
  {
  }

  lemma EvictedDrop(before: map<ResourceId, Entry>, lru0: seq<ResourceId>, leases: map<Token, ResourceId>,
                    t0: nat, after: map<ResourceId, Entry>, lru: seq<ResourceId>, t1: nat)
    requires Lists(lru0, before.Keys) && Evicted(before, lru0, leases, t0, after, lru, t1)
    requires lru != [] && !Protected(after, leases, lru[0], t1) && lru[0] in after
    ensures Evicted(before, lru0, leases, t0, after - {lru[0]}, lru[1..], t1)
  {
    var kept := Keep(lru0, after.Keys);
    var k := TurnOf(kept, lru);
    ListsFacts(lru0, before.Keys);
    KeepNoDuplicates(lru0, after.Keys);
    KeepWithoutEntry(lru0, after, lru[0]);
    var next := RotatedDrop(kept, k);
    assert lru[1..] == Rotated(Keep(lru0, (after - {lru[0]}).Keys), next);
  }

  lemma TurnIsSound(limits: Limits, entries: map<ResourceId, Entry>, lru: seq<ResourceId>, bytes: nat,
                    peakBytes: nat, peakEntries: nat)
    requires Sound(limits, entries, lru, bytes, peakBytes, peakEntries) && lru != []
    ensures Sound(limits, entries, lru[1..] + [lru[0]], bytes, peakBytes, peakEntries)
  {
    ListsFront(lru, entries.Keys);
  }

  lemma NothingNeedlessly(limits: Limits, swept: map<ResourceId, Entry>, bytes: nat, count: nat)
    ensures NoneNeedlessly(limits, swept, swept, bytes, count)
  {
  }

  lemma StillNoneNeedlessly(limits: Limits, swept: map<ResourceId, Entry>, here: map<ResourceId, Entry>,
                            after: map<ResourceId, Entry>, bytes: nat, count: nat)
    requires NoneNeedlessly(limits, swept, here, bytes, count) && !HasRoom(limits, here, bytes, count)
    requires after == here || exists id :: id in here && after == here - {id}
    ensures NoneNeedlessly(limits, swept, after, bytes, count)
    ensures !HasRoom(limits, swept, bytes, count)
  {
    if after != here {
      var id :| id in here && after == here - {id};
      assert after[id := swept[id]] == here;
    }
    if HasRoom(limits, swept, bytes, count) {
      FewerLeaveRoom(limits, here, swept, bytes, count);
    }
  }

  // What the other operations do to the ledger.

  lemma InsertionIsSound(limits: Limits, entries: map<ResourceId, Entry>, lru: seq<ResourceId>, bytes: nat,
                         peakBytes: nat, peakEntries: nat, id: ResourceId, entry: Entry)
    requires Sound(limits, entries, lru, bytes, peakBytes, peakEntries)
    requires id !in entries && entry.memoryBytes == PayloadBytes(entry.payload)
    requires !Exceeds(|entries|, 1, limits.maxEntries)
    requires !Exceeds(bytes, entry.memoryBytes, limits.maxEncodedBytes)
    ensures SaturatingAdd(bytes, entry.memoryBytes) == bytes + entry.memoryBytes
    ensures |entries[id := entry]| == |entries| + 1 && entries[id := entry] - {id} == entries
    ensures Sound(limits, entries[id := entry], lru + [id], bytes + entry.memoryBytes,
                  Max(peakBytes, bytes + entry.memoryBytes), Max(peakEntries, |entries| + 1))
  {
    TotalBytesInsert(entries, id, entry);
    ListsMove(lru, entries.Keys, id);
    assert entries[id := entry].Keys == entries.Keys + {id};
    MapInsertSize(entries, id, entry);
  }

  lemma UpdateIsSound(limits: Limits, entries: map<ResourceId, Entry>, lru: seq<ResourceId>, bytes: nat,
                      peakBytes: nat, peakEntries: nat, id: ResourceId, entry: Entry)
    requires Sound(limits, entries, lru, bytes, peakBytes, peakEntries)
    requires id in entries && entry.memoryBytes == PayloadBytes(entry.payload) <= entries[id].memoryBytes
    ensures bytes >= entries[id].memoryBytes
    ensures Sound(limits, entries[id := entry], lru, bytes - entries[id].memoryBytes + entry.memoryBytes,
                  peakBytes, peakEntries)
  {
    TotalBytesRemove(entries, id);
    TotalBytesUpdate(entries, id, entry);
    assert entries[id := entry].Keys == entries.Keys;
    MapUpdateSize(entries, id, entry);
  }

  lemma MoveIsSound(limits: Limits, entries: map<ResourceId, Entry>, lru: seq<ResourceId>, bytes: nat,
                    peakBytes: nat, peakEntries: nat, id: ResourceId)
    requires Sound(limits, entries, lru, bytes, peakBytes, peakEntries) && id in entries
    ensures Sound(limits, entries, Without(lru, id) + [id], bytes, peakBytes, peakEntries)
    ensures Sound(limits, entries, [id] + Without(lru, id), bytes, peakBytes, peakEntries)
  {
    ListsMove(lru, entries.Keys, id);
    assert entries.Keys + {id} == entries.Keys;
  }

  /** With a clock that does not advance, an eviction pass is exactly one sweep, whatever the LRU order. */
  lemma StoppedClockEvictionIsTheSweep(before: map<ResourceId, Entry>, lru0: seq<ResourceId>,
                                       leases: map<Token, ResourceId>, t: nat,
                                       after: map<ResourceId, Entry>, lru1: seq<ResourceId>)
    requires Evicted(before, lru0, leases, t, after, lru1, t)
    ensures after == map id | id in before && Protected(before, leases, id, t) :: before[id]
  {
    assert after.Keys == ProtectedIds(before, leases, t);
  }

  /** What an eviction spares and what it does not, in terms of leases and deadlines. */
  lemma WhoSurvivesAnEviction(before: map<ResourceId, Entry>, lru0: seq<ResourceId>, leases: map<Token, ResourceId>,
                              t0: nat, after: map<ResourceId, Entry>, lru1: seq<ResourceId>, t1: nat, id: ResourceId)
    requires Evicted(before, lru0, leases, t0, after, lru1, t1) && id in before
    ensures (exists token :: token in leases && leases[token] == id) || before[id].uiUntil > t1 ==>
      id in after && after[id] == before[id]
    ensures id in after ==> (exists token :: token in leases && leases[token] == id) || before[id].uiUntil > t0
  {
    assert id in leases.Values ==> exists token :: token in leases && leases[token] == id;
    assert id in ProtectedIds(before, leases, t1) ==> id in after;
    assert id in after ==> id in ProtectedIds(before, leases, t0);
  }

  /** One call on the registry, with the answers of the file system it meets. */
  datatype Operation =
    | DoRegister(payload: Payload, revision: Option<SourceRevision>, artifactLease: Option<nat>, stagedOwner: Option<nat>)
    | DoResolve(id: ResourceId, observed: Option<SourceRevision>)
    | DoDropLease(token: Token)
    | DoRenew(id: ResourceId, leaseRenews: bool)
    | DoRelease(id: ResourceId)
    | DoRefresh(id: ResourceId)
    | DoTransition(id: ResourceId, observed: Option<SourceRevision>, artifactLease: Option<nat>)

  /** `peak` is the largest of `start` and the recorded values. */
  ghost predicate IsPeak(peak: nat, start: nat, seen: seq<nat>) {
    && start <= peak && (forall i :: 0 <= i < |seen| ==> seen[i] <= peak)
    && (peak == start || peak in seen)
  }

  class Registry {
    const limits: Limits
    const clock: Clock
    var entries: map<ResourceId, Entry>
    var lru: seq<ResourceId>
    var leases: map<Token, ResourceId>
    var nextLease: nat
    var nextResource: nat
    var memoryBytes: nat
    var peakMemoryBytes: nat
    var peakEntries: nat

    constructor (limits: Limits, clock: Clock)
      requires limits.maxEntries <= USIZE_MAX && limits.maxEncodedBytes <= USIZE_MAX
      ensures Valid() && fresh(this)
      ensures this.limits == limits && this.clock == clock
      ensures entries == map[] && leases == map[] && peakEntries == 0 && peakMemoryBytes == 0
    {
      this.limits := limits;
      this.clock := clock;
      entries, lru, leases := map[], [], map[];
      nextLease, nextResource := 0, 0;
      memoryBytes, peakMemoryBytes, peakEntries := 0, 0, 0;
    }

    /** Both budgets hold, the ledger is exact, and the peaks dominate the present. */
    ghost predicate Valid()
      reads this
    {
      Sound(limits, entries, lru, memoryBytes, peakMemoryBytes, peakEntries)
      && Issued(entries, leases, nextResource, nextLease)
    }

    predicate Fits(bytes: nat, count: nat)
      reads this
    {
      !Exceeds(|entries|, count, limits.maxEntries) && !Exceeds(memoryBytes, bytes, limits.maxEncodedBytes)
    }

    method RemoveEntry(id: ResourceId)
      modifies this`entries, this`lru, this`memoryBytes
      ensures entries == old(entries) - {id}
      ensures lru == Without(old(lru), id)
      ensures memoryBytes == BytesWithout(old(entries), old(memoryBytes), id)
    {
      if id in entries {
        memoryBytes := SaturatingSub(memoryBytes, entries[id].memoryBytes);
        entries := entries - {id};
      }
      assert entries == old(entries) - {id};
      lru := Without(lru, id);
    }

    /** `remove_entry` where the ledger is intact. */
    method Discard(id: ResourceId)
      requires Valid()
      modifies this`entries, this`lru, this`memoryBytes
      ensures Valid() && entries == old(entries) - {id} && lru == Without(old(lru), id)
    {
      RemovalIsSound(limits, entries, lru, memoryBytes, peakMemoryBytes, peakEntries, id);
      hide Sound;
      hide Without;
      RemoveEntry(id);
    }

    method RemoveExpired()
      requires Valid()
      modifies this`entries, this`lru, this`memoryBytes, clock
      ensures Valid() && old(clock.now) <= clock.now
      ensures Swept(old(entries), leases, clock.now, entries)
      ensures lru == Keep(old(lru), entries.Keys)
    {
      var now := clock.Read();
      var expired := ExpiredIds(now);
      ghost var start := Store(entries, lru, memoryBytes);
      RemoveEntries(expired);
      SweepOutcome(limits, start, leases, now, expired, peakMemoryBytes, peakEntries, nextResource, nextLease);
    }

    method RemoveEntries(ids: seq<ResourceId>)
      modifies this`entries, this`lru, this`memoryBytes
      ensures Store(entries, lru, memoryBytes) == RemovedAll(old(Store(entries, lru, memoryBytes)), ids)
    {
      for i := 0 to |ids|
        invariant Store(entries, lru, memoryBytes) == RemovedAll(old(Store(entries, lru, memoryBytes)), ids[..i])
      {
        assert ids[..i + 1][..i] == ids[..i];
        RemoveEntry(ids[i]);
      }
      assert ids[..|ids|] == ids;
    }

    method ExpiredIds(now: nat) returns (expired: seq<ResourceId>)
      requires Valid()
      ensures forall id :: id in expired <==> id in entries && !Protected(entries, leases, id, now)
    {
      ListsFacts(lru, entries.Keys);
      expired := [];
      for i := 0 to |lru|
        invariant forall id :: id in expired <==> id in lru[..i] && !Protected(entries, leases, id, now)
      {
        if lru[i] in entries && entries[lru[i]].uiUntil <= now && lru[i] !in leases.Values {
          expired := expired + [lru[i]];
        }
      }
      assert lru[..|lru|] == lru;
    }

    /** The closing scan of one rotation: is every id on the list protected? */
    method AllProtected() returns (all: bool, ghost free: nat)
      requires forall id :: id in lru ==> id in entries
      modifies clock
      ensures old(clock.now) <= clock.now
      ensures all ==> forall id :: id in lru ==> Protected(entries, leases, id, old(clock.now))
      ensures !all ==> free < |lru| && !Protected(entries, leases, lru[free], clock.now)
    {
      all, free := true, 0;
      var i := 0;
      while i < |lru|
        invariant i <= |lru| && old(clock.now) <= clock.now
        invariant forall j :: 0 <= j < i ==> Protected(entries, leases, lru[j], old(clock.now))
      {
        if lru[i] !in leases.Values {
          var now := clock.Read();
          if entries[lru[i]].uiUntil <= now {
            return false, i;
          }
        }
        i := i + 1;
      }
    }

    /** `registry_budget_error`: the entry budget is blamed first. */
    function BudgetError(bytes: nat, count: nat): (error: RegistryError)
      reads this
    {
      if Exceeds(|entries|, count, limits.maxEntries)
      then EntryBudget(|entries|, limits.maxEntries, count)
      else MemoryBudget(memoryBytes, limits.maxEncodedBytes, bytes)
    }

    /** A protected candidate goes to the back of the list, then the list is scanned. */
    method KeepFront() returns (all: bool, ghost free: nat)
      requires Valid() && lru != []
      modifies this`lru, clock
      ensures Valid() && old(clock.now) <= clock.now
      ensures lru == old(lru)[1..] + [old(lru)[0]]
      ensures all ==> ProtectedIds(entries, leases, old(clock.now)) == entries.Keys
      ensures !all ==> free < |lru| && !Protected(entries, leases, lru[free], clock.now)
    {
      TurnIsSound(limits, entries, lru, memoryBytes, peakMemoryBytes, peakEntries);
      lru := lru[1..] + [lru[0]];
      ListsFacts(lru, entries.Keys);
      all, free := AllProtected();
    }

    method EvictFront()
      requires Valid() && lru != []
      modifies this`lru, this`entries, this`memoryBytes
      ensures Valid()
      ensures entries == old(entries) - {old(lru)[0]} && lru == old(lru)[1..]
    {
      RemovalIsSound(limits, entries, lru, memoryBytes, peakMemoryBytes, peakEntries, lru[0]);
      ListsFront(lru, entries.Keys);
      var candidate := lru[0];
      lru := lru[1..];
      RemoveEntry(candidate);
    }

    /**
     One pass of the eviction loop over the front of the list. `spare` is the
     index of an id that a scan has seen unprotected, or the list's length when
     none is known yet; it is what makes the rotation end.
     */
    method EvictionPass(ghost before: map<ResourceId, Entry>, ghost order: seq<ResourceId>, ghost started: nat,
                        ghost spare: nat)
      returns (stuck: bool, ghost spare': nat)
      requires Valid() && lru != []
      requires Lists(order, before.Keys)
      requires Evicted(before, order, leases, started, entries, lru, clock.now)
      requires spare < |lru| ==> !Protected(entries, leases, lru[spare], clock.now)
      modifies this`entries, this`lru, this`memoryBytes, clock
      ensures Valid() && old(clock.now) <= clock.now
      ensures Evicted(before, order, leases, started, entries, lru, clock.now)
      ensures entries == old(entries) || (!stuck && lru == old(lru)[1..] && entries == old(entries) - {old(lru)[0]})
      ensures stuck ==> memoryBytes == old(memoryBytes)
      ensures stuck ==> exists t :: started <= t <= clock.now && ProtectedIds(entries, leases, t) == entries.Keys
      ensures !stuck ==> |lru| < |old(lru)| || (|lru| == |old(lru)| && spare' < |lru| && spare' < spare)
      ensures !stuck ==> spare' <= |lru|
      ensures !stuck && spare' < |lru| ==> !Protected(entries, leases, lru[spare'], clock.now)
    {
      ghost var checked := clock.now;
      var candidate := lru[0];
      var hasReadLease := candidate in leases.Values;
      var now := clock.Read();
      var hasUiLease := entries[candidate].uiUntil > now;
      EvictedTurn(before, order, leases, started, entries, lru, checked, now);
      if hasReadLease || hasUiLease {
        ghost var found: nat;
        stuck, found := KeepFront();
        EvictedTurn(before, order, leases, started, entries, lru, now, clock.now);
        spare' := if spare < |lru| then spare - 1 else found;
      } else {
        EvictedDrop(before, order, leases, started, entries, lru, now);
        EvictFront();
        stuck, spare' := false, |lru|;
      }
    }

    /**
     Sweeps, then evicts from the front of the list until there is room. `swept` is what the sweep left:
     an item that fits beside it costs nothing more.
     */
    method EvictFor(bytes: nat, count: nat)
      returns (r: Result<(), RegistryError>, ghost swept: map<ResourceId, Entry>, ghost sweptAt: nat)
      requires Valid()
      modifies this`entries, this`lru, this`memoryBytes, clock
      ensures Valid()
      ensures old(clock.now) <= sweptAt <= clock.now && Swept(old(entries), leases, sweptAt, swept)
      ensures NoneNeedlessly(limits, swept, entries, bytes, count)
      ensures HasRoom(limits, swept, bytes, count) ==> entries == swept && lru == Keep(old(lru), swept.Keys)
      ensures Evicted(old(entries), old(lru), leases, old(clock.now), entries, lru, clock.now)
      ensures r.Success? <==> HasRoom(limits, entries, bytes, count)
      ensures r.Success? <==> Fits(bytes, count)
      ensures r.Failure? ==>
        && r.error == BudgetError(bytes, count)
        && exists t :: old(clock.now) <= t <= clock.now && ProtectedIds(entries, leases, t) == entries.Keys
    {
      hide Turned;
      hide Keep;
      hide Evicted;
      hide NoneNeedlessly;
      hide HasRoom;
      ghost var before, order, started := entries, lru, clock.now;
      RemoveExpired();
      swept, sweptAt := entries, clock.now;
      NothingNeedlessly(limits, swept, bytes, count);
      SweptIsEvicted(before, order, leases, started, clock.now, entries);
      RoomIsFitting(limits, entries, lru, memoryBytes, peakMemoryBytes, peakEntries, bytes, count);
      ghost var spare: nat := |lru|;
      while !Fits(bytes, count)
        invariant Valid()
        invariant Evicted(before, order, leases, started, entries, lru, clock.now)
        invariant started <= sweptAt <= clock.now && NoneNeedlessly(limits, swept, entries, bytes, count)
        invariant HasRoom(limits, swept, bytes, count) ==> entries == swept && lru == Keep(order, swept.Keys)
        invariant Fits(bytes, count) <==> HasRoom(limits, entries, bytes, count)
        invariant spare <= |lru|
        invariant spare < |lru| ==> !Protected(entries, leases, lru[spare], clock.now)
        decreases |lru|, spare
      {
        if lru == [] {
          assert ProtectedIds(entries, leases, clock.now) == entries.Keys;
          return Failure(BudgetError(bytes, count)), swept, sweptAt;
        }
        ghost var here := entries;
        var stuck: bool;
        stuck, spare := EvictionPass(before, order, started, spare);
        StillNoneNeedlessly(limits, swept, here, entries, bytes, count);
        RoomIsFitting(limits, entries, lru, memoryBytes, peakMemoryBytes, peakEntries, bytes, count);
        if stuck {
          return Failure(BudgetError(bytes, count)), swept, sweptAt;
        }
      }
      return Success(()), swept, sweptAt;
    }

    // The published operations. Each runs in one critical section.

    method SetUiLease(id: ResourceId, until: nat)
      requires Valid() && id in entries
      modifies this`entries
      ensures Valid()
      ensures entries == old(entries)[id := old(entries)[id].(uiUntil := until)]
    {
      var entry := entries[id].(uiUntil := until);
      UpdateIsSound(limits, entries, lru, memoryBytes, peakMemoryBytes, peakEntries, id, entry);
      entries := entries[id := entry];
    }

    method MoveToBack(id: ResourceId)
      requires Valid() && id in entries
      modifies this`lru
      ensures Valid() && lru == Without(old(lru), id) + [id]
    {
      MoveIsSound(limits, entries, lru, memoryBytes, peakMemoryBytes, peakEntries, id);
      lru := Without(lru, id) + [id];
    }

    method AcquireLocked(id: ResourceId) returns (token: Token)
      requires Issued(entries, leases, nextResource, nextLease)
      modifies this`leases, this`nextLease
      ensures Issued(entries, leases, nextResource, nextLease)
      ensures token !in old(leases) && leases == old(leases)[token := id]
    {
      nextLease := nextLease + 1;
      token := nextLease;
      leases := leases[token := id];
    }

    /** A rejected payload still costs the evictions made on its behalf. */
    method Register(payload: Payload, revision: Option<SourceRevision>, artifactLease: Option<nat>,
                    stagedOwner: Option<nat>)
      returns (r: Result<(ResourceId, Token), RegistryError>)
      requires Valid()
      modifies this, clock
      ensures Valid() && old(clock.now) <= clock.now
      ensures peakMemoryBytes == Max(old(peakMemoryBytes), memoryBytes) && peakEntries == Max(old(peakEntries), |entries|)
      ensures HasRoom(limits, old(entries), PayloadBytes(payload), 1) ==> r.Success?
      ensures r.Failure? ==>
        && leases == old(leases)
        && Evicted(old(entries), old(lru), old(leases), old(clock.now), entries, lru, clock.now)
        && !Fits(PayloadBytes(payload), 1) && r.error == BudgetError(PayloadBytes(payload), 1)
      ensures r.Success? ==>
        var (id, token) := r.value;
        && id !in old(entries) && id in entries && lru != [] && lru[|lru| - 1] == id
        && Evicted(old(entries), old(lru), old(leases), old(clock.now),
                   entries - {id}, lru[..|lru| - 1], clock.now)
        && entries[id] == Entry(payload, PayloadBytes(payload), entries[id].uiUntil, revision, artifactLease, stagedOwner)
        && old(clock.now) + limits.publishGrace <= entries[id].uiUntil <= clock.now + limits.publishGrace
        && token !in old(leases) && leases == old(leases)[token := id]
    {
      ghost var before, order, started := entries, lru, clock.now;
      var bytes := PayloadBytes(payload);
      var id := nextResource;
      nextResource := nextResource + 1;
      var now := clock.Read();
      var entry := Entry(payload, bytes, now + limits.publishGrace, revision, artifactLease, stagedOwner);
      ghost var asked := clock.now;
      var room, swept, sweptAt := EvictFor(bytes, 1);
      EvictedFrom(before, order, leases, started, asked, entries, lru, clock.now);
      if HasRoom(limits, before, bytes, 1) {
        FewerLeaveRoom(limits, swept, before, bytes, 1);
      }
      if room.Failure? {
        return Failure(room.error);
      }
      var token := Admit(id, entry);
      return Success((id, token));
    }

    method Admit(id: ResourceId, entry: Entry) returns (token: Token)
      requires Valid() && Fits(entry.memoryBytes, 1)
      requires id !in entries && id < nextResource && entry.memoryBytes == PayloadBytes(entry.payload)
      modifies this`entries, this`lru, this`leases, this`nextLease, this`memoryBytes, this`peakMemoryBytes, this`peakEntries
      ensures Valid()
      ensures peakMemoryBytes == Max(old(peakMemoryBytes), memoryBytes) && peakEntries == Max(old(peakEntries), |entries|)
      ensures entries == old(entries)[id := entry] && entries - {id} == old(entries)
      ensures lru == old(lru) + [id] && lru[..|lru| - 1] == old(lru)
      ensures token !in old(leases) && leases == old(leases)[token := id]
    {
      InsertionIsSound(limits, entries, lru, memoryBytes, peakMemoryBytes, peakEntries, id, entry);
      memoryBytes := SaturatingAdd(memoryBytes, entry.memoryBytes);
      entries := entries[id := entry];
      peakMemoryBytes := Max(peakMemoryBytes, memoryBytes);
      peakEntries := Max(peakEntries, |entries|);
      lru := lru + [id];
      assert lru[..|lru| - 1] == old(lru);
      token := AcquireLocked(id);
    }

    /**
     Hands out a read lease, after checking the file behind the entry against
     `observed`, the revision found on disk (`None` when it cannot be observed).
     */
    method Resolve(id: ResourceId, observed: Option<SourceRevision>)
      returns (r: Option<(Payload, Option<SourceRevision>, Token)>)
      requires Valid()
      modifies this
      ensures Valid()
      ensures peakMemoryBytes == Max(old(peakMemoryBytes), memoryBytes) && peakEntries == Max(old(peakEntries), |entries|)
      ensures id !in old(entries) ==> r.None? && entries == old(entries) && lru == old(lru) && leases == old(leases)
      ensures id in old(entries) ==> var revision := old(entries)[id].fileRevision;
        if revision.None? || observed == revision then
          && r.Some? && r.value.0 == old(entries)[id].payload && r.value.1 == revision
          && entries == old(entries) && lru == Without(old(lru), id) + [id]
          && r.value.2 !in old(leases) && leases == old(leases)[r.value.2 := id]
        else
          r.None? && entries == old(entries) - {id} && lru == Without(old(lru), id) && leases == old(leases)
    {
      if id !in entries {
        return None;
      }
      var entry := entries[id];
      if entry.fileRevision.Some? && observed != entry.fileRevision {
        Discard(id);
        return None;
      }
      MoveToBack(id);
      var token := AcquireLocked(id);
      return Some((entry.payload, entry.fileRevision, token));
    }

    /** `ResourceLease::drop`. */
    method DropLease(token: Token)
      requires Valid()
      modifies this`leases
      ensures Valid() && leases == old(leases) - {token}
    {
      leases := leases - {token};
    }

    /** `renew`; `leaseRenews` is the answer of the entry's artifact lease. */
    method Renew(id: ResourceId, leaseRenews: bool) returns (renewed: bool, ghost until: nat)
      requires Valid()
      modifies this`entries, this`lru, this`memoryBytes, clock
      ensures Valid() && old(clock.now) <= clock.now
      ensures renewed == (id in old(entries) && (old(entries)[id].artifactLease.None? || leaseRenews))
      ensures id !in old(entries) ==> entries == old(entries) && lru == old(lru)
      ensures id in old(entries) && !renewed ==> entries == old(entries) - {id} && lru == Without(old(lru), id)
      ensures renewed ==>
        && old(clock.now) <= until <= clock.now
        && Swept(old(entries)[id := old(entries)[id].(uiUntil := until + limits.uiLease)], leases, clock.now, entries)
        && lru == Keep(Without(old(lru), id) + [id], entries.Keys)
    {
      if id !in entries {
        return false, 0;
      }
      var now := clock.Read();
      SetUiLease(id, now + limits.uiLease);
      if entries[id].artifactLease.Some? && !leaseRenews {
        Discard(id);
        assert entries == old(entries) - {id};
        return false, 0;
      }
      MoveToBack(id);
      RemoveExpired();
      return true, now;
    }

    /** Ends the UI lease and makes the entry the first eviction candidate. */
    method Release(id: ResourceId)
      requires Valid()
      modifies this`entries, this`lru, clock
      ensures Valid() && old(clock.now) <= clock.now
      ensures id !in old(entries) ==> entries == old(entries) && lru == old(lru)
      ensures id in old(entries) ==>
        && entries == old(entries)[id := old(entries)[id].(uiUntil := clock.now)]
        && lru == [id] + Without(old(lru), id)
        && (id !in leases.Values ==> !Protected(entries, leases, id, clock.now))
    {
      if id in entries {
        var now := clock.Read();
        SetUiLease(id, now);
        MoveIsSound(limits, entries, lru, memoryBytes, peakMemoryBytes, peakEntries, id);
        lru := [id] + Without(lru, id);
      }
    }

    /** Extends a short lease to cover a new hand-off; never shortens one. */
    method RefreshPublicationGrace(id: ResourceId) returns (live: bool)
      requires Valid()
      modifies this`entries, clock
      ensures Valid() && old(clock.now) <= clock.now && live == (id in old(entries))
      ensures !live ==> entries == old(entries)
      ensures live ==> entries == old(entries)[id := old(entries)[id].(
        uiUntil := Max(old(entries)[id].uiUntil, clock.now + limits.publishGrace))]
    {
      if id !in entries {
        return false;
      }
      var now := clock.Read();
      SetUiLease(id, Max(entries[id].uiUntil, now + limits.publishGrace));
      return true;
    }

    /**
     Replaces the payload by the managed file at `observed`, unless a reader
     holds the entry. Returns the artifact lease that was not handed over.
     */
    method TransitionToManagedFile(id: ResourceId, observed: Option<SourceRevision>, artifactLease: Option<nat>)
      returns (r: Result<bool, RegistryError>, leftover: Option<nat>)
      requires Valid()
      modifies this`entries, this`memoryBytes
      ensures Valid() && memoryBytes <= old(memoryBytes)
      ensures r == if observed.None? then Failure(SourceUnobservable)
                   else if id in leases.Values then Success(false)
                   else if id !in old(entries) then Failure(ResourceExpired)
                   else Success(true)
      ensures r != Success(true) ==> entries == old(entries) && leftover == artifactLease
      ensures r == Success(true) ==>
        && entries == old(entries)[id := old(entries)[id].(payload := File(observed.value.path), memoryBytes := 0,
             fileRevision := observed, artifactLease := artifactLease, stagedOwner := None)]
        && memoryBytes == old(memoryBytes) - old(entries)[id].memoryBytes && leftover == None
    {
      leftover := artifactLease;
      if observed.None? {
        return Failure(SourceUnobservable), leftover;
      }
      if id in leases.Values {
        return Success(false), leftover;
      }
      if id !in entries {
        return Failure(ResourceExpired), leftover;
      }
      var released := entries[id].memoryBytes;
      var entry := entries[id].(payload := File(observed.value.path), memoryBytes := 0, fileRevision := observed,
        artifactLease := artifactLease, stagedOwner := None);
      UpdateIsSound(limits, entries, lru, memoryBytes, peakMemoryBytes, peakEntries, id, entry);
      entries := entries[id := entry];
      memoryBytes := SaturatingSub(memoryBytes, released);
      return Success(true), None;
    }

    method Perform(op: Operation)
      requires Valid()
      modifies this, clock
      ensures Valid() && old(clock.now) <= clock.now
      ensures peakMemoryBytes == Max(old(peakMemoryBytes), memoryBytes) && peakEntries == Max(old(peakEntries), |entries|)
    {
      match op {
        case DoRegister(payload, revision, artifactLease, stagedOwner) =>
          var _ := Register(payload, revision, artifactLease, stagedOwner);
        case DoResolve(id, observed) =>
          var _ := Resolve(id, observed);
        case DoDropLease(token) =>
          DropLease(token);
        case DoRenew(id, leaseRenews) =>
          var _, _ := Renew(id, leaseRenews);
        case DoRelease(id) =>
          Release(id);
        case DoRefresh(id) =>
          var _ := RefreshPublicationGrace(id);
        case DoTransition(id, observed, artifactLease) =>
          var _, _ := TransitionToManagedFile(id, observed, artifactLease);
      }
    }

    /** Any run of calls keeps the registry valid, and its peaks are exact. */
    method Run(ops: seq<Operation>) returns (ghost bytesSeen: seq<nat>, ghost entriesSeen: seq<nat>)
      requires Valid()
      modifies this, clock
      ensures Valid() && old(clock.now) <= clock.now
      ensures |bytesSeen| == |entriesSeen| == |ops|
      ensures IsPeak(peakMemoryBytes, old(peakMemoryBytes), bytesSeen)
      ensures IsPeak(peakEntries, old(peakEntries), entriesSeen)
    {
      bytesSeen, entriesSeen := [], [];
      for i := 0 to |ops|
        invariant Valid() && old(clock.now) <= clock.now
        invariant |bytesSeen| == |entriesSeen| == i
        invariant IsPeak(peakMemoryBytes, old(peakMemoryBytes), bytesSeen)
        invariant IsPeak(peakEntries, old(peakEntries), entriesSeen)
      {
        Perform(ops[i]);
        bytesSeen, entriesSeen := bytesSeen + [memoryBytes], entriesSeen + [|entries|];
      }
    }
  }
}
