/**
 The write-ahead log of queued operations, apps/backend/internal/store/wal.go: entries under increasing keys in
 one bucket, each transition a read-modify-write transaction.
 */
module Wal {
  import opened Hasher
  import opened Wire
  import opened Decimal
  import opened Bolt

  datatype Status = Pending | InFlight | Done | Failed

  datatype WALEntry = WALEntry(
    id: string, peerID: string, op: string, payload: Bytes,
    status: Status, retries: nat, createdAt: int, updatedAt: int)

  type Log = Pairs<WALEntry>

  // ---------------------------------------------------------------------------------------------
  // Transactions
  // ---------------------------------------------------------------------------------------------

  /** A status change; None when there is no such entry. */
  function SetStatus(log: Log, id: string, status: Status, now: int): Option<Log> {
    match Get(log, id)
    case None => None
    case Some(e) => Some(Put(log, id, e.(status := status, updatedAt := now)))
  }

  /** One more retry, and back to pending; None when there is no such entry. */
  function Retry(log: Log, id: string, now: int): Option<Log> {
    match Get(log, id)
    case None => None
    case Some(e) => Some(Put(log, id, e.(status := Pending, retries := e.retries + 1, updatedAt := now)))
  }

  /** The entries that satisfy `keep`, in key order. */
  function Select(log: Log, keep: WALEntry -> bool): seq<WALEntry> {
    if log == [] then []
    else (if keep(log[0].1) then [log[0].1] else []) + Select(log[1..], keep)
  }

  predicate IsPending(e: WALEntry) {
    e.status == Pending
  }

  predicate IsPendingFor(e: WALEntry, peerID: string) {
    e.peerID == peerID && IsPending(e)
  }

  function PendingFor(log: Log, peerID: string): seq<WALEntry> {
    Select(log, (e: WALEntry) => IsPendingFor(e, peerID))
  }

  function AllPending(log: Log): seq<WALEntry> {
    Select(log, (e: WALEntry) => IsPending(e))
  }

  // ---------------------------------------------------------------------------------------------
  // What they do
  // ---------------------------------------------------------------------------------------------

  /** Every entry is stored under its own id. */
  ghost predicate WellKeyed(log: Log) {
    Sorted(log) && forall i | 0 <= i < |log| :: log[i].1.id == log[i].0
  }

  ghost predicate Ascending(es: seq<WALEntry>) {
    forall i, j | 0 <= i < j < |es| :: Less(es[i].id, es[j].id)
  }

  /** A selection holds exactly the stored entries that qualify, in key order. */
  lemma {:induction false} SelectSpec(log: Log, keep: WALEntry -> bool)
    requires WellKeyed(log)
    ensures forall e :: e in Select(log, keep) <==> keep(e) && Get(log, e.id) == Some(e)
    ensures Ascending(Select(log, keep))
    decreases |log|
  {
    if log != [] {
      var rest := Select(log[1..], keep);
      SelectSpec(log[1..], keep);
      forall e: WALEntry | e in rest
        ensures Less(log[0].0, e.id)
      {
        GetFinds(log[1..], e.id);
        var i :| 0 <= i < |log[1..]| && log[1..][i].0 == e.id;
        assert log[i + 1].0 == e.id;
      }
      forall e: WALEntry
        ensures e in Select(log, keep) <==> keep(e) && Get(log, e.id) == Some(e)
      {
        if e in rest {
          LessTotal(log[0].0, e.id);
        }
      }
    }
  }

  /** The pending entries of a peer. */
  lemma PendingForIff(log: Log, peerID: string)
    requires WellKeyed(log)
    ensures forall e :: e in PendingFor(log, peerID) <==>
              e.peerID == peerID && e.status == Status.Pending && Get(log, e.id) == Some(e)
    ensures Ascending(PendingFor(log, peerID))
  {
    SelectSpec(log, (e: WALEntry) => IsPendingFor(e, peerID));
    hide Select, WellKeyed, Get;
  }

  /** The pending entries of all peers. */
  lemma AllPendingIff(log: Log)
    requires WellKeyed(log)
    ensures forall e :: e in AllPending(log) <==> e.status == Status.Pending && Get(log, e.id) == Some(e)
    ensures Ascending(AllPending(log))
  {
    SelectSpec(log, (e: WALEntry) => IsPending(e));
    hide Select, WellKeyed, Get;
  }

  lemma PutWellKeyed(log: Log, id: string, e: WALEntry)
    requires WellKeyed(log) && e.id == id
    ensures WellKeyed(Put(log, id, e))
  {
    PutSpec(log, id, e);
    forall i | 0 <= i < |Put(log, id, e)|
      ensures Put(log, id, e)[i].1.id == Put(log, id, e)[i].0
    {
      assert Put(log, id, e)[i] in Put(log, id, e);
    }
  }

  lemma DeleteWellKeyed(log: Log, id: string)
    requires WellKeyed(log)
    ensures WellKeyed(Delete(log, id))
  {
    DeleteSpec(log, id);
    forall i | 0 <= i < |Delete(log, id)|
      ensures Delete(log, id)[i].1.id == Delete(log, id)[i].0
    {
      assert Delete(log, id)[i] in Delete(log, id);
    }
  }

  lemma GetIsKeyed(log: Log, id: string)
    requires WellKeyed(log) && Get(log, id).Some?
    ensures Get(log, id).value.id == id
  {
    GetFinds(log, id);
  }

  /** A status change touches only the status and time of one entry. */
  lemma SetStatusSpec(log: Log, id: string, status: Status, now: int)
    requires WellKeyed(log) && SetStatus(log, id, status, now).Some?
    ensures var after := SetStatus(log, id, status, now).value;
            && WellKeyed(after)
            && (forall k :: Get(after, k).Some? <==> Get(log, k).Some?)
            && (forall k | k != id :: Get(after, k) == Get(log, k))
            && Get(after, id) == Some(Get(log, id).value.(status := status, updatedAt := now))
  {
    GetIsKeyed(log, id);
    PutSpec(log, id, Get(log, id).value.(status := status, updatedAt := now));
    PutWellKeyed(log, id, Get(log, id).value.(status := status, updatedAt := now));
  }

  /** A retry makes the entry pending again, counts, and touches no other entry. */
  lemma RetrySpec(log: Log, id: string, now: int)
    requires WellKeyed(log) && Retry(log, id, now).Some?
    ensures var after := Retry(log, id, now).value;
            && WellKeyed(after)
            && (forall k :: Get(after, k).Some? <==> Get(log, k).Some?)
            && (forall k | k != id :: Get(after, k) == Get(log, k))
            && Get(after, id) == Some(Get(log, id).value.(
                 status := Pending, retries := Get(log, id).value.retries + 1, updatedAt := now))
  {
    var e := Get(log, id).value;
    GetIsKeyed(log, id);
    PutSpec(log, id, e.(status := Pending, retries := e.retries + 1, updatedAt := now));
    PutWellKeyed(log, id, e.(status := Pending, retries := e.retries + 1, updatedAt := now));
  }

  /** What a log with a single entry yields. */
  lemma OnlyEntry(e: WALEntry, keep: WALEntry -> bool, status: Status, now: int)
    ensures keep(e) ==> Select([(e.id, e)], keep) == [e]
    ensures Get([(e.id, e)], e.id) == Some(e)
    ensures SetStatus([(e.id, e)], e.id, status, now) == Some([(e.id, e.(status := status, updatedAt := now))])
    ensures Retry([(e.id, e)], e.id, now) ==
            Some([(e.id, e.(status := Pending, retries := e.retries + 1, updatedAt := now))])
  {
    var changed := e.(status := status, updatedAt := now);
    var retried := e.(status := Pending, retries := e.retries + 1, updatedAt := now);
    assert [(e.id, e)][1..] == [] && Select([], keep) == [];
    assert Get([(e.id, e)], e.id) == Some(e);
    assert Put([(e.id, e)], e.id, changed) == [(e.id, changed)] + [(e.id, e)][1..];
    assert [(e.id, changed)] + [(e.id, e)][1..] == [(e.id, changed)];
    assert Put([(e.id, e)], e.id, retried) == [(e.id, retried)] + [(e.id, e)][1..];
    assert [(e.id, retried)] + [(e.id, e)][1..] == [(e.id, retried)];
  }

  // ---------------------------------------------------------------------------------------------
  // The store object
  // ---------------------------------------------------------------------------------------------

  class BoltStore {
    var sequence: nat
    var entries: Log

    constructor ()
      ensures sequence == 0 && entries == []
    {
      sequence, entries := 0, [];
    }

    method EnqueueEntry(peerID: string, op: string, payload: Bytes, now: int) returns (entry: WALEntry)
      modifies this
      ensures sequence == old(sequence) + 1
      ensures entry == WALEntry(Key(sequence), peerID, op, payload, Pending, 0, now, now)
      ensures entries == Put(old(entries), Key(sequence), entry)
    {
      sequence := sequence + 1;
      var id := Key(sequence);
      entry := WALEntry(id, peerID, op, payload, Pending, 0, now, now);
      entries := Put(entries, id, entry);
    }

    method GetPendingEntries(peerID: string) returns (es: seq<WALEntry>)
      ensures es == PendingFor(entries, peerID)
      ensures WellKeyed(entries) ==>
                forall e :: e in es <==>
                  e.peerID == peerID && e.status == Status.Pending && Get(entries, e.id) == Some(e)
    {
      hide WellKeyed, Get;
      ghost var keep := (e: WALEntry) => IsPendingFor(e, peerID);
      es := [];
      for i := 0 to |entries|
        invariant es + Select(entries[i..], keep) == Select(entries, keep)
      {
        var e := entries[i].1;
        if e.peerID == peerID && e.status == Pending {
          es := es + [e];
        }
        assert entries[i..][1..] == entries[i + 1..];
      }
      hide Select;
      if WellKeyed(entries) {
        PendingForIff(entries, peerID);
      }
    }

    method GetAllPendingEntries() returns (es: seq<WALEntry>)
      ensures es == AllPending(entries)
      ensures WellKeyed(entries) ==>
                forall e :: e in es <==> e.status == Status.Pending && Get(entries, e.id) == Some(e)
    {
      hide WellKeyed, Get;
      ghost var keep := (e: WALEntry) => IsPending(e);
      es := [];
      for i := 0 to |entries|
        invariant es + Select(entries[i..], keep) == Select(entries, keep)
      {
        var e := entries[i].1;
        if e.status == Pending {
          es := es + [e];
        }
        assert entries[i..][1..] == entries[i + 1..];
      }
      hide Select;
      if WellKeyed(entries) {
        AllPendingIff(entries);
      }
    }

    method UpdateStatus(id: string, status: Status, now: int) returns (ok: bool)
      modifies `entries
      ensures ok <==> SetStatus(old(entries), id, status, now).Some?
      ensures entries == if ok then SetStatus(old(entries), id, status, now).value else old(entries)
    {
      var data := Get(entries, id);
      if data.None? {
        return false;
      }
      entries := Put(entries, id, data.value.(status := status, updatedAt := now));
      return true;
    }

    method MarkInFlight(id: string, now: int) returns (ok: bool)
      modifies `entries
      ensures ok <==> Get(old(entries), id).Some?
      ensures entries == if ok then SetStatus(old(entries), id, InFlight, now).value else old(entries)
    {
      ok := UpdateStatus(id, InFlight, now);
    }

    method MarkDone(id: string, now: int) returns (ok: bool)
      modifies `entries
      ensures ok <==> Get(old(entries), id).Some?
      ensures entries == if ok then SetStatus(old(entries), id, Done, now).value else old(entries)
    {
      ok := UpdateStatus(id, Done, now);
    }

    method MarkFailed(id: string, now: int) returns (ok: bool)
      modifies `entries
      ensures ok <==> Get(old(entries), id).Some?
      ensures entries == if ok then Retry(old(entries), id, now).value else old(entries)
    {
      var data := Get(entries, id);
      if data.None? {
        return false;
      }
      var e := data.value;
      entries := Put(entries, id, e.(status := Pending, retries := e.retries + 1, updatedAt := now));
      return true;
    }

    method DeleteEntry(id: string)
      modifies `entries
      ensures entries == Delete(old(entries), id)
    {
      entries := Delete(entries, id);
    }
  }
}
