/**
 The sync coordinator, apps/backend/internal/sync/coordinator.go, run by one goroutine: `deliver` and the two
 drain loops over the write-ahead log. QueueRuns.dfy has the concurrent runs.
 */
module Coordinator {
  import opened Wire
  import opened Decimal
  import opened Bolt
  import opened Wal

  const MAX_RETRIES: nat := 10

  /** The log after one `deliver` of a (possibly stale) entry whose delivery function returns `ok`. */
  function DeliverOne(log: Log, entry: WALEntry, ok: bool, now: int): Log {
    if entry.retries >= MAX_RETRIES then
      (match Retry(log, entry.id, now) case None => log case Some(l) => l)
    else
      match SetStatus(log, entry.id, InFlight, now)
      case None => log
      case Some(begun) =>
        if ok then Delete(match SetStatus(begun, entry.id, Done, now) case None => begun case Some(l) => l, entry.id)
        else match Retry(begun, entry.id, now) case None => begun case Some(l) => l
  }

  /** The delivery function is called for an entry that is still stored and has retries left. */
  predicate Attempted(log: Log, entry: WALEntry) {
    entry.retries < MAX_RETRIES && Get(log, entry.id).Some?
  }

  function DrainAll(log: Log, es: seq<WALEntry>, oks: seq<bool>, now: int): Log
    requires |oks| >= |es|
    decreases |es|
  {
    if es == [] then log else DrainAll(DeliverOne(log, es[0], oks[0], now), es[1..], oks[1..], now)
  }

  function AttemptedOf(log: Log, es: seq<WALEntry>, oks: seq<bool>, now: int): seq<WALEntry>
    requires |oks| >= |es|
    decreases |es|
  {
    if es == [] then []
    else (if Attempted(log, es[0]) then [es[0]] else [])
         + AttemptedOf(DeliverOne(log, es[0], oks[0], now), es[1..], oks[1..], now)
  }

  // ---------------------------------------------------------------------------------------------
  // What a drain does
  // ---------------------------------------------------------------------------------------------

  /** One delivery: the entry is gone on success, pending with one more retry otherwise; others are untouched. */
  lemma DeliverOneSpec(log: Log, entry: WALEntry, ok: bool, now: int)
    requires WellKeyed(log)
    ensures var after := DeliverOne(log, entry, ok, now);
            && WellKeyed(after)
            && (forall k | k != entry.id :: Get(after, k) == Get(log, k))
            && (match Get(log, entry.id)
                case None => Get(after, entry.id) == None
                case Some(e) =>
                  Get(after, entry.id) ==
                    if entry.retries < 10 && ok then None
                    else Some(e.(status := Pending, retries := e.retries + 1, updatedAt := now)))
  {
    var id := entry.id;
    if Get(log, id).Some? {
      if entry.retries >= MAX_RETRIES {
        RetrySpec(log, id, now);
      } else {
        SetStatusSpec(log, id, InFlight, now);
        var begun := SetStatus(log, id, InFlight, now).value;
        if ok {
          SetStatusSpec(begun, id, Done, now);
          var done := SetStatus(begun, id, Done, now).value;
          DeleteSpec(done, id);
          DeleteWellKeyed(done, id);
        } else {
          RetrySpec(begun, id, now);
        }
      }
    }
  }

  /** Entries of a snapshot are still stored as they were read. */
  ghost predicate UpToDate(log: Log, es: seq<WALEntry>) {
    && Ascending(es)
    && forall i | 0 <= i < |es| :: Get(log, es[i].id) == Some(es[i])
  }

  lemma SnapshotUpToDate(log: Log, keep: WALEntry -> bool)
    requires WellKeyed(log)
    ensures UpToDate(log, Select(log, keep))
  {
    SelectSpec(log, keep);
    var es := Select(log, keep);
    forall i | 0 <= i < |es|
      ensures Get(log, es[i].id) == Some(es[i])
    {
      assert es[i] in es;
    }
  }

  lemma RestUpToDate(log: Log, es: seq<WALEntry>, ok: bool, now: int)
    requires WellKeyed(log) && UpToDate(log, es) && es != []
    ensures UpToDate(DeliverOne(log, es[0], ok, now), es[1..])
  {
    DeliverOneSpec(log, es[0], ok, now);
    forall i | 0 <= i < |es[1..]|
      ensures es[1..][i].id != es[0].id
    {
      LessTotal(es[0].id, es[i + 1].id);
    }
  }

  function WithRetriesLeft(es: seq<WALEntry>): seq<WALEntry> {
    if es == [] then []
    else (if es[0].retries < MAX_RETRIES then [es[0]] else []) + WithRetriesLeft(es[1..])
  }

  /** A drain leaves every entry outside its snapshot as it was. */
  lemma {:induction false} DrainKeepsOthers(log: Log, es: seq<WALEntry>, oks: seq<bool>, now: int, k: string)
    requires WellKeyed(log) && |oks| >= |es|
    requires forall i | 0 <= i < |es| :: es[i].id != k
    ensures WellKeyed(DrainAll(log, es, oks, now))
    ensures Get(DrainAll(log, es, oks, now), k) == Get(log, k)
    decreases |es|
  {
    if es != [] {
      DeliverOneSpec(log, es[0], oks[0], now);
      hide DeliverOne;
      DrainKeepsOthers(DeliverOne(log, es[0], oks[0], now), es[1..], oks[1..], now, k);
    }
  }

  /** Of its snapshot, what was delivered is gone and the rest is pending with one more retry. */
  lemma {:induction false} DrainDelivers(log: Log, es: seq<WALEntry>, oks: seq<bool>, now: int, i: nat)
    requires WellKeyed(log) && UpToDate(log, es) && |oks| >= |es| && i < |es|
    ensures Get(DrainAll(log, es, oks, now), es[i].id)
         == if es[i].retries < MAX_RETRIES && oks[i] then None
            else Some(es[i].(status := Pending, retries := es[i].retries + 1, updatedAt := now))
    decreases |es|
  {
    var begun := DeliverOne(log, es[0], oks[0], now);
    DeliverOneSpec(log, es[0], oks[0], now);
    RestUpToDate(log, es, oks[0], now);
    hide DeliverOne;
    if i == 0 {
      forall j | 0 <= j < |es[1..]|
        ensures es[1..][j].id != es[0].id
      {
        LessTotal(es[0].id, es[j + 1].id);
      }
      DrainKeepsOthers(begun, es[1..], oks[1..], now, es[0].id);
    } else {
      DrainDelivers(begun, es[1..], oks[1..], now, i - 1);
    }
  }

  /** A drain on a fresh snapshot hands over exactly the entries with retries left, in key order. */
  lemma {:induction false} DrainAttempts(log: Log, es: seq<WALEntry>, oks: seq<bool>, now: int)
    requires WellKeyed(log) && UpToDate(log, es) && |oks| >= |es|
    ensures AttemptedOf(log, es, oks, now) == WithRetriesLeft(es)
    decreases |es|
  {
    if es != [] {
      DeliverOneSpec(log, es[0], oks[0], now);
      RestUpToDate(log, es, oks[0], now);
      hide DeliverOne;
      DrainAttempts(DeliverOne(log, es[0], oks[0], now), es[1..], oks[1..], now);
    }
  }

  /** A drain in which every delivery succeeds removes its snapshot and nothing else. */
  lemma DrainRemovesSnapshot(log: Log, keep: WALEntry -> bool, oks: seq<bool>, now: int, k: string)
    requires WellKeyed(log) && |oks| >= |Select(log, keep)|
    requires forall x | 0 <= x < |Select(log, keep)| :: oks[x] && Select(log, keep)[x].retries < MAX_RETRIES
    ensures Get(DrainAll(log, Select(log, keep), oks, now), k)
         == if Get(log, k).Some? && keep(Get(log, k).value) then None else Get(log, k)
  {
    var es := Select(log, keep);
    SelectSpec(log, keep);
    SnapshotUpToDate(log, keep);
    if Get(log, k).Some? {
      GetIsKeyed(log, k);
    }
    hide Select, WellKeyed, UpToDate, DrainAll, Get;
    if Get(log, k).Some? && keep(Get(log, k).value) {
      assert Get(log, k).value in es;
      var x :| 0 <= x < |es| && es[x] == Get(log, k).value;
      DrainDelivers(log, es, oks, now, x);
    } else {
      forall x | 0 <= x < |es|
        ensures es[x].id != k
      {
        assert es[x] in es;
      }
      DrainKeepsOthers(log, es, oks, now, k);
    }
  }

  /**
   A drain for a peer in which every delivery succeeds hands over all pending entries of that peer, removes them and
   leaves all other entries as they were.
   */
  lemma DrainTakesAll(log: Log, peerID: string, oks: seq<bool>, now: int)
    requires WellKeyed(log)
    requires var es := PendingFor(log, peerID);
             |oks| >= |es| && forall x | 0 <= x < |es| :: oks[x] && es[x].retries < MAX_RETRIES
    ensures var es := PendingFor(log, peerID);
            var after := DrainAll(log, es, oks, now);
            && AttemptedOf(log, es, oks, now) == es
            && (forall k :: Get(after, k) ==
                  if Get(log, k).Some? && IsPendingFor(Get(log, k).value, peerID) then None else Get(log, k))
  {
    var keep := (e: WALEntry) => IsPendingFor(e, peerID);
    var es := PendingFor(log, peerID);
    SnapshotUpToDate(log, keep);
    DrainAttempts(log, es, oks, now);
    AllHaveRetriesLeft(es);
    hide Select, Get, DrainAll, AttemptedOf, WithRetriesLeft, UpToDate;
    forall k
      ensures Get(DrainAll(log, es, oks, now), k) ==
                if Get(log, k).Some? && IsPendingFor(Get(log, k).value, peerID) then None else Get(log, k)
    {
      DrainRemovesSnapshot(log, keep, oks, now, k);
    }
  }

  lemma {:induction false} AttemptedAreListed(log: Log, es: seq<WALEntry>, oks: seq<bool>, now: int)
    requires |oks| >= |es|
    ensures forall e | e in AttemptedOf(log, es, oks, now) :: e in es
    decreases |es|
  {
    hide DeliverOne, Attempted;
    if es != [] {
      AttemptedAreListed(DeliverOne(log, es[0], oks[0], now), es[1..], oks[1..], now);
      assert es == [es[0]] + es[1..];
    }
  }

  /**
   A drain for a peer, cancelled after `n` entries or not, hands over pending entries of that peer only and leaves
   every entry of another peer as it was.
   */
  lemma DrainStaysWithPeer(log: Log, peerID: string, oks: seq<bool>, now: int, n: nat)
    requires WellKeyed(log) && n <= |PendingFor(log, peerID)| <= |oks|
    ensures var es := PendingFor(log, peerID)[..n];
            && (forall e | e in AttemptedOf(log, es, oks, now) ::
                  e.peerID == peerID && e.status == Pending && Get(log, e.id) == Some(e))
            && (forall k | Get(log, k).Some? && Get(log, k).value.peerID != peerID ::
                  Get(DrainAll(log, es, oks, now), k) == Get(log, k))
  {
    var es := PendingFor(log, peerID)[..n];
    PendingForIff(log, peerID);
    hide Select, WellKeyed, Get;
    assert forall e | e in es :: e in PendingFor(log, peerID);
    AttemptedAreListed(log, es, oks, now);
    hide AttemptedOf, DrainAll;
    forall k | Get(log, k).Some? && Get(log, k).value.peerID != peerID
      ensures Get(DrainAll(log, es, oks, now), k) == Get(log, k)
    {
      forall i | 0 <= i < |es|
        ensures es[i].id != k
      {
        assert es[i] in es;
      }
      DrainKeepsOthers(log, es, oks, now, k);
    }
  }

  lemma {:induction false} OnlineOnlyIff(es: seq<WALEntry>, online: map<string, bool>)
    ensures forall e :: e in OnlineOnly(es, online) <==> e in es && e.peerID in online && online[e.peerID]
    decreases |es|
  {
    if es != [] {
      OnlineOnlyIff(es[1..], online);
      assert es == [es[0]] + es[1..];
    }
  }

  /** A poll hands over pending entries of online peers only and leaves every entry of another peer as it was. */
  lemma PollStaysOnline(log: Log, online: map<string, bool>, oks: seq<bool>, now: int)
    requires WellKeyed(log) && |oks| >= |OnlineOnly(AllPending(log), online)|
    ensures var es := OnlineOnly(AllPending(log), online);
            && (forall e | e in AttemptedOf(log, es, oks, now) ::
                  e.peerID in online && online[e.peerID] && e.status == Pending && Get(log, e.id) == Some(e))
            && (forall k | Get(log, k).Some? &&
                           !(Get(log, k).value.peerID in online && online[Get(log, k).value.peerID]) ::
                  Get(DrainAll(log, es, oks, now), k) == Get(log, k))
  {
    var es := OnlineOnly(AllPending(log), online);
    AllPendingIff(log);
    OnlineOnlyIff(AllPending(log), online);
    hide Select, WellKeyed, Get, OnlineOnly;
    AttemptedAreListed(log, es, oks, now);
    hide AttemptedOf, DrainAll;
    forall k | Get(log, k).Some? && !(Get(log, k).value.peerID in online && online[Get(log, k).value.peerID])
      ensures Get(DrainAll(log, es, oks, now), k) == Get(log, k)
    {
      forall i | 0 <= i < |es|
        ensures es[i].id != k
      {
        assert es[i] in es;
      }
      DrainKeepsOthers(log, es, oks, now, k);
    }
  }

  lemma {:induction false} SomeAscending(es: seq<WALEntry>)
    requires Wal.Ascending(es)
    ensures Wal.Ascending(WithRetriesLeft(es))
    ensures forall e | e in WithRetriesLeft(es) :: e in es
    decreases |es|
  {
    if es != [] {
      var rest := WithRetriesLeft(es[1..]);
      hide Less;
      SomeAscending(es[1..]);
      assert es == [es[0]] + es[1..];
      forall j | 0 <= j < |rest|
        ensures Less(es[0].id, rest[j].id)
      {
        assert rest[j] in es[1..];
        var x :| 0 <= x < |es[1..]| && es[1..][x] == rest[j];
        assert es[x + 1] == rest[j];
      }
    }
  }

  /**
   First in, first out: while sequence numbers are below 10^10, whichever deliveries succeed, a drain hands over a
   peer's entries in the order they were enqueued.
   */
  lemma DrainIsFifo(log: Log, peerID: string, oks: seq<bool>, now: int, m: nat, n: nat, i: nat, j: nat)
    requires WellKeyed(log) && |oks| >= |PendingFor(log, peerID)|
    requires var handed := AttemptedOf(log, PendingFor(log, peerID), oks, now);
             i < |handed| && j < |handed| && handed[i].id == Key(m) && handed[j].id == Key(n)
    requires m < 10_000_000_000 && n < 10_000_000_000
    ensures i < j <==> m < n
  {
    var es := PendingFor(log, peerID);
    SnapshotUpToDate(log, (e: WALEntry) => IsPendingFor(e, peerID));
    DrainAttempts(log, es, oks, now);
    SomeAscending(es);
    KeyOrder(m, n);
    KeyOrder(n, m);
    hide Less, Key, Select, Get, DrainAll, AttemptedOf, WithRetriesLeft;
  }

  lemma {:induction false} AllHaveRetriesLeft(es: seq<WALEntry>)
    requires forall i | 0 <= i < |es| :: es[i].retries < MAX_RETRIES
    ensures WithRetriesLeft(es) == es
    decreases |es|
  {
    if es != [] {
      AllHaveRetriesLeft(es[1..]);
    }
  }

  // ---------------------------------------------------------------------------------------------
  // The coordinator object
  // ---------------------------------------------------------------------------------------------

  class Coordinator {
    const store: BoltStore
    var online: map<string, bool>
    // The entries the delivery function was called with.
    var handedOver: seq<WALEntry>

    constructor (store: BoltStore)
      ensures this.store == store && online == map[] && handedOver == []
    {
      this.store := store;
      online, handedOver := map[], [];
    }

    method SetOnline(peerID: string, reachable: bool)
      modifies `online
      ensures online == old(online)[peerID := reachable]
    {
      online := online[peerID := reachable];
    }

    /** One delivery; `ok` is what the delivery function returns if it is called. */
    method Deliver(entry: WALEntry, ok: bool, now: int)
      modifies store`entries, `handedOver
      ensures store.entries == DeliverOne(old(store.entries), entry, ok, now)
      ensures handedOver == old(handedOver) + if Attempted(old(store.entries), entry) then [entry] else []
    {
      if entry.retries >= MAX_RETRIES {
        var _ := store.MarkFailed(entry.id, now);
        return;
      }
      var begun := store.MarkInFlight(entry.id, now);
      if !begun {
        return;
      }
      handedOver := handedOver + [entry];
      if !ok {
        var _ := store.MarkFailed(entry.id, now);
        return;
      }
      var _ := store.MarkDone(entry.id, now);
      store.DeleteEntry(entry.id);
    }

    /** Delivers every pending entry of one peer. `live` entries are reached before the context is cancelled. */
    method DrainPeer(peerID: string, oks: seq<bool>, live: nat, now: int) returns (cancelled: bool)
      requires |oks| >= |PendingFor(store.entries, peerID)|
      modifies store`entries, `handedOver
      ensures var es := PendingFor(old(store.entries), peerID);
              var n := if live < |es| then live else |es|;
              && (cancelled <==> live < |es|)
              && store.entries == DrainAll(old(store.entries), es[..n], oks, now)
              && handedOver == old(handedOver) + AttemptedOf(old(store.entries), es[..n], oks, now)
    {
      hide *;
      var es := store.GetPendingEntries(peerID);
      ghost var n := if live < |es| then live else |es|;
      ghost var log, handed, mine := store.entries, handedOver, es[..n];
      var i := 0;
      assert mine[0..] == mine && oks[0..] == oks;
      while i < |es|
        invariant 0 <= i <= n
        invariant DrainAll(log, mine, oks, now) == DrainAll(store.entries, mine[i..], oks[i..], now)
        invariant handed + AttemptedOf(log, mine, oks, now)
               == handedOver + AttemptedOf(store.entries, mine[i..], oks[i..], now)
      {
        if i >= live {
          EndOfDrain(store.entries, mine[i..], oks[i..], now, handedOver);
          return true;
        }
        DrainStep(store.entries, mine, oks, now, i, handedOver);
        Deliver(es[i], oks[i], now);
        i := i + 1;
      }
      EndOfDrain(store.entries, mine[i..], oks[i..], now, handedOver);
      return false;
    }

    /** The poll over all peers: entries of peers that are not online are passed over. */
    method PollAndDeliver(oks: seq<bool>, now: int)
      requires |oks| >= |AllPending(store.entries)|
      modifies store`entries, `handedOver
      ensures var es := OnlineOnly(AllPending(old(store.entries)), old(online));
              && |es| <= |oks|
              && store.entries == DrainAll(old(store.entries), es, oks, now)
              && handedOver == old(handedOver) + AttemptedOf(old(store.entries), es, oks, now)
    {
      hide *;
      var es := store.GetAllPendingEntries();
      ghost var log, handed, mine := store.entries, handedOver, OnlineOnly(es, online);
      OnlineOnlyShrinks(es, online);
      assert mine[0..] == mine && oks[0..] == oks;
      var i, calls := 0, 0;
      assert es[0..] == es;
      while i < |es|
        invariant 0 <= calls <= i <= |es| && online == old(online) && calls <= |mine| <= |oks|
        invariant mine[calls..] == OnlineOnly(es[i..], online)
        invariant DrainAll(log, mine, oks, now) == DrainAll(store.entries, mine[calls..], oks[calls..], now)
        invariant handed + AttemptedOf(log, mine, oks, now)
               == handedOver + AttemptedOf(store.entries, mine[calls..], oks[calls..], now)
      {
        OnlineOnlyStep(es[i..], online);
        assert es[i..][1..] == es[i + 1..];
        var isOnline := es[i].peerID in online && online[es[i].peerID];
        if isOnline {
          assert mine[calls..] == [es[i]] + OnlineOnly(es[i + 1..], online);
          assert mine[calls] == mine[calls..][0] == es[i];
          assert mine[calls + 1..] == mine[calls..][1..];
          DrainStep(store.entries, mine, oks, now, calls, handedOver);
          Deliver(es[i], oks[calls], now);
          calls := calls + 1;
        }
        i := i + 1;
      }
      assert OnlineOnly([], online) == [] by {
        OnlineOnlyShrinks([], online);
      }
      assert es[i..] == [];
      EndOfDrain(store.entries, mine[calls..], oks[calls..], now, handedOver);
    }
  }

  lemma EndOfDrain(log: Log, es: seq<WALEntry>, oks: seq<bool>, now: int, handed: seq<WALEntry>)
    requires es == [] && |oks| >= |es|
    ensures DrainAll(log, es, oks, now) == log
    ensures handed + AttemptedOf(log, es, oks, now) == handed
  {
  }

  lemma DrainStep(log: Log, es: seq<WALEntry>, oks: seq<bool>, now: int, i: nat, handed: seq<WALEntry>)
    requires i < |es| <= |oks|
    ensures var after := DeliverOne(log, es[i], oks[i], now);
            && DrainAll(log, es[i..], oks[i..], now) == DrainAll(after, es[i + 1..], oks[i + 1..], now)
            && handed + AttemptedOf(log, es[i..], oks[i..], now)
               == handed + (if Attempted(log, es[i]) then [es[i]] else [])
                  + AttemptedOf(after, es[i + 1..], oks[i + 1..], now)
  {
    hide DeliverOne, Attempted;
    assert es[i..][1..] == es[i + 1..] && oks[i..][1..] == oks[i + 1..];
  }

  lemma OnlineOnlyStep(es: seq<WALEntry>, online: map<string, bool>)
    requires es != []
    ensures OnlineOnly(es, online)
         == (if es[0].peerID in online && online[es[0].peerID] then [es[0]] else []) + OnlineOnly(es[1..], online)
  {
  }

  function OnlineOnly(es: seq<WALEntry>, online: map<string, bool>): seq<WALEntry> {
    if es == [] then []
    else (if es[0].peerID in online && online[es[0].peerID] then [es[0]] else []) + OnlineOnly(es[1..], online)
  }

  lemma {:induction false} OnlineOnlyShrinks(es: seq<WALEntry>, online: map<string, bool>)
    ensures |OnlineOnly(es, online)| <= |es|
    decreases |es|
  {
    if es != [] {
      OnlineOnlyShrinks(es[1..], online);
    }
  }
}
