/**
 The store-and-forward relay, apps/backend/internal/relay/relay.go: one bucket per recipient, filled by Push,
 drained by Pull, thinned out by eviction. The lemmas show that it is a FIFO queue per recipient.
 */
module RelayInbox {
  import opened Hasher
  import opened Wire
  import opened Decimal
  import opened Bolt

  const MAX_PUSH_SIZE: nat := 8 * 1024 * 1024
  const KEY_LIMIT: nat := 10_000_000_000

  datatype RelayedChunk = RelayedChunk(chunkHash: string, data: Bytes, pushedAt: int)

  datatype Inbox = Inbox(sequence: nat, entries: Pairs<RelayedChunk>)

  type Inboxes = map<string, Inbox>

  // ---------------------------------------------------------------------------------------------
  // Operations on values
  // ---------------------------------------------------------------------------------------------

  function InboxOf(boxes: Inboxes, peer: string): Inbox {
    if peer in boxes then boxes[peer] else Inbox(0, [])
  }

  /** bbolt refuses a bucket without a name. */
  predicate Accepts(recipient: string, data: Bytes) {
    |data| <= MAX_PUSH_SIZE && recipient != ""
  }

  function Pushed(boxes: Inboxes, recipient: string, chunk: RelayedChunk): Inboxes {
    var box := InboxOf(boxes, recipient);
    boxes[recipient := Inbox(box.sequence + 1, Put(box.entries, Key(box.sequence + 1), chunk))]
  }

  function Values(ps: Pairs<RelayedChunk>): seq<RelayedChunk> {
    if ps == [] then [] else [ps[0].1] + Values(ps[1..])
  }

  /** What is buffered for a peer, in key order. */
  function Buffered(boxes: Inboxes, peer: string): seq<RelayedChunk> {
    Values(InboxOf(boxes, peer).entries)
  }

  function Fresh(ps: Pairs<RelayedChunk>, cutoff: int): Pairs<RelayedChunk> {
    if ps == [] then []
    else if ps[0].1.pushedAt < cutoff then Fresh(ps[1..], cutoff)
    else [ps[0]] + Fresh(ps[1..], cutoff)
  }

  /** Expired chunks are deleted, then buckets left empty. */
  function Evicted(boxes: Inboxes, cutoff: int): Inboxes {
    map p | p in boxes && Fresh(boxes[p].entries, cutoff) != [] ::
      Inbox(boxes[p].sequence, Fresh(boxes[p].entries, cutoff))
  }

  // ---------------------------------------------------------------------------------------------
  // Deleting the expired keys one by one
  // ---------------------------------------------------------------------------------------------

  function ExpiredKeys(ps: Pairs<RelayedChunk>, cutoff: int): seq<string> {
    if ps == [] then []
    else if ps[0].1.pushedAt < cutoff then [ps[0].0] + ExpiredKeys(ps[1..], cutoff)
    else ExpiredKeys(ps[1..], cutoff)
  }

  function DeleteAll(ps: Pairs<RelayedChunk>, keys: seq<string>): Pairs<RelayedChunk>
    decreases |keys|
  {
    if keys == [] then ps else DeleteAll(Delete(ps, keys[0]), keys[1..])
  }

  lemma {:induction false} DeleteAllAfter(head: (string, RelayedChunk), ps: Pairs<RelayedChunk>, keys: seq<string>)
    requires head.0 !in keys
    ensures DeleteAll([head] + ps, keys) == [head] + DeleteAll(ps, keys)
    decreases |keys|
  {
    if keys != [] {
      assert ([head] + ps)[1..] == ps;
      DeleteAllAfter(head, Delete(ps, keys[0]), keys[1..]);
    }
  }

  lemma {:induction false} ExpiredKeysStored(ps: Pairs<RelayedChunk>, cutoff: int)
    ensures forall k | k in ExpiredKeys(ps, cutoff) :: exists i :: 0 <= i < |ps| && ps[i].0 == k
    decreases |ps|
  {
    if ps != [] {
      ExpiredKeysStored(ps[1..], cutoff);
      forall k | k in ExpiredKeys(ps, cutoff)
        ensures exists i :: 0 <= i < |ps| && ps[i].0 == k
      {
        if k == ps[0].0 {
        } else {
          assert k in ExpiredKeys(ps[1..], cutoff);
          var i :| 0 <= i < |ps[1..]| && ps[1..][i].0 == k;
          assert ps[i + 1].0 == k;
        }
      }
    }
  }

  /** Deleting the expired keys leaves the chunks that are not expired. */
  lemma {:induction false} DeleteExpired(ps: Pairs<RelayedChunk>, cutoff: int)
    requires Sorted(ps)
    ensures DeleteAll(ps, ExpiredKeys(ps, cutoff)) == Fresh(ps, cutoff)
    decreases |ps|
  {
    if ps != [] {
      var keys := ExpiredKeys(ps[1..], cutoff);
      DeleteExpired(ps[1..], cutoff);
      if ps[0].1.pushedAt < cutoff {
        assert ExpiredKeys(ps, cutoff)[1..] == keys;
      } else {
        ExpiredKeysStored(ps[1..], cutoff);
        if ps[0].0 in keys {
          var i :| 0 <= i < |ps[1..]| && ps[1..][i].0 == ps[0].0;
          LessTotal(ps[0].0, ps[i + 1].0);
        }
        DeleteAllAfter(ps[0], ps[1..], keys);
        assert [ps[0]] + ps[1..] == ps;
      }
    }
  }

  // ---------------------------------------------------------------------------------------------
  // The server object
  // ---------------------------------------------------------------------------------------------

  class Server {
    const maxAge: nat
    var boxes: Inboxes

    ghost predicate Valid()
      reads this
    {
      forall p | p in boxes :: Sorted(boxes[p].entries)
    }

    constructor (maxAge: nat)
      ensures Valid() && boxes == map[] && this.maxAge == maxAge
    {
      this.maxAge := maxAge;
      boxes := map[];
    }

    method Push(recipient: string, chunkHash: string, data: Bytes, now: int) returns (ok: bool)
      requires Valid()
      modifies this
      ensures Valid()
      ensures ok <==> |data| <= 8388608 && recipient != ""
      ensures boxes == if ok then Pushed(old(boxes), recipient, RelayedChunk(chunkHash, data, now)) else old(boxes)
    {
      if |data| > MAX_PUSH_SIZE {
        return false;
      }
      if recipient == "" {
        return false;
      }
      var box := if recipient in boxes then boxes[recipient] else Inbox(0, []);
      var seqNo := box.sequence + 1;
      PutSpec(box.entries, Key(seqNo), RelayedChunk(chunkHash, data, now));
      boxes := boxes[recipient := Inbox(seqNo, Put(box.entries, Key(seqNo), RelayedChunk(chunkHash, data, now)))];
      return true;
    }

    method Pull(peer: string) returns (chunks: seq<RelayedChunk>)
      requires Valid()
      modifies this
      ensures Valid()
      ensures chunks == Buffered(old(boxes), peer)
      ensures boxes == old(boxes) - {peer}
    {
      chunks := [];
      if peer !in boxes {
        return;
      }
      var ps := boxes[peer].entries;
      for i := 0 to |ps|
        invariant boxes == old(boxes)
        invariant chunks + Values(ps[i..]) == Values(ps)
      {
        chunks := chunks + [ps[i].1];
        assert ps[i..][1..] == ps[i + 1..];
      }
      boxes := boxes - {peer};
    }

    method InboxSize(peer: string) returns (count: nat)
      ensures count == |Buffered(boxes, peer)|
    {
      ValuesLength(InboxOf(boxes, peer).entries);
      if peer !in boxes {
        return 0;
      }
      return |boxes[peer].entries|;
    }

    method Evict(now: int)
      requires Valid()
      modifies this
      ensures Valid()
      ensures boxes == Evicted(old(boxes), now - maxAge)
    {
      hide Fresh, Sorted;
      var cutoff := now - maxAge;
      ghost var before := boxes;
      var peers := boxes.Keys;
      while peers != {}
        invariant peers <= before.Keys && boxes.Keys <= before.Keys
        invariant forall p | p in peers :: p in boxes && boxes[p] == before[p]
        invariant forall p | p in before && p !in peers ::
                    && (p in boxes <==> Fresh(before[p].entries, cutoff) != [])
                    && (p in boxes ==> boxes[p] == Inbox(before[p].sequence, Fresh(before[p].entries, cutoff)))
        decreases |peers|
      {
        var peer :| peer in peers;
        peers := peers - {peer};
        var kept := RemoveExpired(boxes[peer].entries, cutoff);
        if kept == [] {
          boxes := boxes - {peer};
        } else {
          boxes := boxes[peer := boxes[peer].(entries := kept)];
        }
      }
      forall p | p in boxes
        ensures Sorted(boxes[p].entries)
      {
        FreshSorted(before[p].entries, cutoff);
      }
    }

    /** Finds the expired chunks of a bucket, then deletes them. */
    method RemoveExpired(ps: Pairs<RelayedChunk>, cutoff: int) returns (kept: Pairs<RelayedChunk>)
      requires Sorted(ps)
      ensures kept == Fresh(ps, cutoff)
    {
      DeleteExpired(ps, cutoff);
      hide Sorted, Fresh, Delete;
      var expired := [];
      for i := 0 to |ps|
        invariant expired + ExpiredKeys(ps[i..], cutoff) == ExpiredKeys(ps, cutoff)
      {
        if ps[i].1.pushedAt < cutoff {
          expired := expired + [ps[i].0];
        }
        assert ps[i..][1..] == ps[i + 1..];
      }
      assert expired == ExpiredKeys(ps, cutoff);
      hide ExpiredKeys;
      kept := ps;
      for i := 0 to |expired|
        invariant DeleteAll(kept, expired[i..]) == DeleteAll(ps, expired)
      {
        kept := Delete(kept, expired[i]);
        assert expired[i..][1..] == expired[i + 1..];
      }
    }
  }

  lemma {:induction false} ValuesLength(ps: Pairs<RelayedChunk>)
    ensures |Values(ps)| == |ps|
    decreases |ps|
  {
    if ps != [] {
      ValuesLength(ps[1..]);
    }
  }

  // ---------------------------------------------------------------------------------------------
  // Runs against a queue
  // ---------------------------------------------------------------------------------------------

  datatype Op =
    | Push(recipient: string, chunkHash: string, data: Bytes, now: int)
    | Pull(peer: string)
    | Evict(now: int)

  // Besides the inboxes: what was pushed for each peer since its last pull, the last clock reading, and the
  // latest cutoff of an eviction.
  datatype Relay = Relay(boxes: Inboxes, since: map<string, seq<RelayedChunk>>, clock: int, cutoff: Option<int>)

  function Since(r: Relay, peer: string): seq<RelayedChunk> {
    if peer in r.since then r.since[peer] else []
  }

  function Do(r: Relay, op: Op, maxAge: nat): Relay {
    match op
    case Push(recipient, chunkHash, data, now) =>
      if !Accepts(recipient, data) then r
      else
        var chunk := RelayedChunk(chunkHash, data, now);
        Relay(Pushed(r.boxes, recipient, chunk), r.since[recipient := Since(r, recipient) + [chunk]], now, r.cutoff)
    case Pull(peer) => r.(boxes := r.boxes - {peer}, since := r.since[peer := []])
    case Evict(now) => r.(boxes := Evicted(r.boxes, now - maxAge), clock := now, cutoff := Some(now - maxAge))
  }

  /** The clock never goes back. */
  predicate OnTime(r: Relay, op: Op) {
    match op
    case Push(_, _, _, now) => now >= r.clock
    case Pull(_) => true
    case Evict(now) => now >= r.clock
  }

  predicate Runs(r: Relay, ops: seq<Op>, maxAge: nat, r': Relay)
    decreases |ops|
  {
    if ops == [] then r == r' else OnTime(r, ops[0]) && Runs(Do(r, ops[0], maxAge), ops[1..], maxAge, r')
  }

  function Keep(cs: seq<RelayedChunk>, cutoff: Option<int>): seq<RelayedChunk> {
    if cs == [] then []
    else if cutoff.Some? && cs[0].pushedAt < cutoff.value then Keep(cs[1..], cutoff)
    else [cs[0]] + Keep(cs[1..], cutoff)
  }

  ghost predicate InTimeOrder(cs: seq<RelayedChunk>, last: int) {
    && (forall i | 0 <= i < |cs| :: cs[i].pushedAt <= last)
    && (forall i, j | 0 <= i < j < |cs| :: cs[i].pushedAt <= cs[j].pushedAt)
  }

  /** No key is above that of the last sequence number. */
  ghost predicate KeysBelow(box: Inbox) {
    && Sorted(box.entries)
    && forall i | 0 <= i < |box.entries| ::
         Less(box.entries[i].0, Key(box.sequence)) || box.entries[i].0 == Key(box.sequence)
  }

  ghost predicate Queue(r: Relay, maxAge: nat, peer: string) {
    && Buffered(r.boxes, peer) == Keep(Since(r, peer), r.cutoff)
    && InTimeOrder(Since(r, peer), r.clock)
    && KeysBelow(InboxOf(r.boxes, peer))
    && (r.cutoff.Some? ==> r.cutoff.value <= r.clock - maxAge)
  }

  lemma {:induction false} KeepAppend(cs: seq<RelayedChunk>, c: RelayedChunk, cutoff: Option<int>)
    requires cutoff.Some? ==> c.pushedAt >= cutoff.value
    ensures Keep(cs + [c], cutoff) == Keep(cs, cutoff) + [c]
    decreases |cs|
  {
    if cs == [] {
      assert cs + [c] == [c] && [c][1..] == [];
    } else {
      KeepAppend(cs[1..], c, cutoff);
      assert (cs + [c])[1..] == cs[1..] + [c];
    }
  }

  lemma {:induction false} ValuesAppend(ps: Pairs<RelayedChunk>, p: (string, RelayedChunk))
    ensures Values(ps + [p]) == Values(ps) + [p.1]
    decreases |ps|
  {
    if ps == [] {
      assert ps + [p] == [p] && [p][1..] == [];
    } else {
      ValuesAppend(ps[1..], p);
      assert (ps + [p])[1..] == ps[1..] + [p];
    }
  }

  lemma {:induction false} FreshValues(ps: Pairs<RelayedChunk>, cutoff: int)
    ensures Values(Fresh(ps, cutoff)) == Keep(Values(ps), Some(cutoff))
    ensures forall p | p in Fresh(ps, cutoff) :: p in ps
    decreases |ps|
  {
    if ps != [] {
      FreshValues(ps[1..], cutoff);
      var rest := Fresh(ps[1..], cutoff);
      assert ([ps[0]] + rest)[1..] == rest;
      assert Values(ps)[1..] == Values(ps[1..]);
    }
  }

  lemma {:induction false} FreshSorted(ps: Pairs<RelayedChunk>, cutoff: int)
    requires Sorted(ps)
    ensures Sorted(Fresh(ps, cutoff))
    decreases |ps|
  {
    if ps != [] {
      FreshSorted(ps[1..], cutoff);
      FreshValues(ps[1..], cutoff);
      var rest := Fresh(ps[1..], cutoff);
      forall j | 0 <= j < |rest|
        ensures Less(ps[0].0, rest[j].0)
      {
        assert rest[j] in rest;
      }
    }
  }

  /** A later cutoff removes what an earlier one would have. */
  lemma {:induction false} KeepTwice(cs: seq<RelayedChunk>, first: Option<int>, second: int)
    requires first.Some? ==> first.value <= second
    ensures Keep(Keep(cs, first), Some(second)) == Keep(cs, Some(second))
    decreases |cs|
  {
    if cs != [] {
      KeepTwice(cs[1..], first, second);
      var rest := Keep(cs[1..], first);
      assert ([cs[0]] + rest)[1..] == rest;
    }
  }

  lemma {:induction false} NothingExpired(cs: seq<RelayedChunk>, cutoff: Option<int>)
    requires cutoff.Some? ==> forall c | c in cs :: c.pushedAt >= cutoff.value
    ensures Keep(cs, cutoff) == cs
    decreases |cs|
  {
    if cs != [] {
      NothingExpired(cs[1..], cutoff);
      assert [cs[0]] + cs[1..] == cs;
    }
  }

  /** What is kept is what is not older than the cutoff. */
  lemma {:induction false} KeepIff(cs: seq<RelayedChunk>, cutoff: Option<int>)
    ensures forall c :: c in Keep(cs, cutoff) <==> c in cs && (cutoff.None? || c.pushedAt >= cutoff.value)
    decreases |cs|
  {
    if cs != [] {
      KeepIff(cs[1..], cutoff);
      assert cs == [cs[0]] + cs[1..];
    }
  }

  /** With times in order, what is kept is a suffix. */
  lemma {:induction false} KeepIsSuffix(cs: seq<RelayedChunk>, cutoff: Option<int>, last: int)
    requires InTimeOrder(cs, last)
    ensures exists k :: 0 <= k <= |cs| && Keep(cs, cutoff) == cs[k..]
    decreases |cs|
  {
    if cs == [] {
      assert Keep(cs, cutoff) == cs[0..];
    } else if cutoff.Some? && cs[0].pushedAt < cutoff.value {
      assert InTimeOrder(cs[1..], last);
      KeepIsSuffix(cs[1..], cutoff, last);
      var k :| 0 <= k <= |cs[1..]| && Keep(cs[1..], cutoff) == cs[1..][k..];
      assert cs[1..][k..] == cs[k + 1..];
    } else {
      forall c | c in cs
        ensures cutoff.Some? ==> c.pushedAt >= cutoff.value
      {
        var i :| 0 <= i < |cs| && cs[i] == c;
        assert cs[0].pushedAt <= cs[i].pushedAt;
      }
      NothingExpired(cs, cutoff);
      assert cs == cs[0..];
    }
  }

  /** Below the limit the next key is above all keys of a box, so its chunk comes last. */
  lemma NextKeyIsLast(box: Inbox, chunk: RelayedChunk)
    requires KeysBelow(box) && box.sequence + 1 < KEY_LIMIT
    ensures var after := Inbox(box.sequence + 1, Put(box.entries, Key(box.sequence + 1), chunk));
            && KeysBelow(after) && Values(after.entries) == Values(box.entries) + [chunk]
            && after.entries == box.entries + [(Key(after.sequence), chunk)]
  {
    hide Key, Put, Less, Values;
    var key := Key(box.sequence + 1);
    KeyOrder(box.sequence, box.sequence + 1);
    forall i | 0 <= i < |box.entries|
      ensures Less(box.entries[i].0, key)
    {
      if box.entries[i].0 != Key(box.sequence) {
        LessTransitive(box.entries[i].0, Key(box.sequence), key);
      }
    }
    PutAtEnd(box.entries, key, chunk);
    PutSpec(box.entries, key, chunk);
    ValuesAppend(box.entries, (key, chunk));
  }

  /** At the limit the next chunk comes before the last one. */
  lemma PastTheLimit(first: RelayedChunk, second: RelayedChunk)
    ensures var box := Inbox(KEY_LIMIT - 1, [(Key(KEY_LIMIT - 1), first)]);
            KeysBelow(box) && Values(Put(box.entries, Key(box.sequence + 1), second)) == [second, first]
  {
    LimitComesFirst();
    var last, next := Key(KEY_LIMIT - 1), Key(KEY_LIMIT);
    LessTotal(next, last);
    hide Key;
    var box := [(last, first)];
    assert Put(box, next, second) == [(next, second), (last, first)];
    assert Values(box) == [first] by {
      assert box[1..] == [];
    }
    assert [(next, second), (last, first)][1..] == box;
  }

  lemma PushKeepsQueue(r: Relay, op: Op, maxAge: nat, peer: string)
    requires Queue(r, maxAge, peer) && op.Push? && OnTime(r, op)
    requires InboxOf(Do(r, op, maxAge).boxes, peer).sequence < KEY_LIMIT
    ensures Queue(Do(r, op, maxAge), maxAge, peer)
  {
    hide KeysBelow, Keep, Values, Put, Key;
    if Accepts(op.recipient, op.data) && peer == op.recipient {
      var chunk := RelayedChunk(op.chunkHash, op.data, op.now);
      NextKeyIsLast(InboxOf(r.boxes, peer), chunk);
      KeepAppend(Since(r, peer), chunk, r.cutoff);
    }
  }

  /** Eviction keeps keys below the next one, and what it keeps is not older than the cutoff. */
  lemma FreshBox(box: Inbox, cutoff: int)
    ensures KeysBelow(box) ==> KeysBelow(Inbox(box.sequence, Fresh(box.entries, cutoff)))
    ensures KeysGiven(box) ==> KeysGiven(Inbox(box.sequence, Fresh(box.entries, cutoff)))
  {
    hide Key, Fresh, Less;
    FreshValues(box.entries, cutoff);
    if Sorted(box.entries) {
      FreshSorted(box.entries, cutoff);
    }
    var kept := Fresh(box.entries, cutoff);
    forall i | 0 <= i < |kept|
      ensures exists j :: 0 <= j < |box.entries| && box.entries[j] == kept[i]
    {
      assert kept[i] in kept;
    }
  }

  lemma EvictKeepsQueue(r: Relay, op: Op, maxAge: nat, peer: string)
    requires Queue(r, maxAge, peer) && op.Evict? && OnTime(r, op)
    ensures Queue(Do(r, op, maxAge), maxAge, peer)
  {
    var box, cutoff := InboxOf(r.boxes, peer), op.now - maxAge;
    EmptyBox();
    hide Keep, Fresh, Key, KeysBelow;
    FreshValues(box.entries, cutoff);
    FreshBox(box, cutoff);
    KeepTwice(Since(r, peer), r.cutoff, cutoff);
  }

  lemma EmptyBox()
    ensures KeysBelow(Inbox(0, [])) && KeysGiven(Inbox(0, [])) && Values([]) == []
  {
  }

  /**
   Along the run the sequence number of this peer's inbox stays below the limit. A pull or an eviction that
   empties the inbox starts it again.
   */
  predicate Fits(r: Relay, ops: seq<Op>, maxAge: nat, peer: string)
    decreases |ops|
  {
    InboxOf(r.boxes, peer).sequence < KEY_LIMIT
    && (ops != [] ==> Fits(Do(r, ops[0], maxAge), ops[1..], maxAge, peer))
  }

  lemma OpKeepsQueue(r: Relay, op: Op, maxAge: nat, peer: string)
    requires Queue(r, maxAge, peer) && OnTime(r, op)
    requires InboxOf(Do(r, op, maxAge).boxes, peer).sequence < KEY_LIMIT
    ensures Queue(Do(r, op, maxAge), maxAge, peer)
  {
    match op
    case Push(_, _, _, _) => PushKeepsQueue(r, op, maxAge, peer);
    case Pull(p) =>
      EmptyBox();
      hide Keep, Values, KeysBelow;
      if p == peer {
        assert InboxOf(Do(r, op, maxAge).boxes, peer) == Inbox(0, []);
        assert Keep([], r.cutoff) == [];
      }
    case Evict(_) => EvictKeepsQueue(r, op, maxAge, peer);
  }

  lemma {:induction false} RunKeepsQueue(r: Relay, ops: seq<Op>, maxAge: nat, r': Relay, peer: string)
    requires Queue(r, maxAge, peer) && Runs(r, ops, maxAge, r') && Fits(r, ops, maxAge, peer)
    ensures Queue(r', maxAge, peer)
    decreases |ops|
  {
    if ops != [] {
      assert Fits(Do(r, ops[0], maxAge), ops[1..], maxAge, peer);
      hide Queue, Do, OnTime;
      OpKeepsQueue(r, ops[0], maxAge, peer);
      RunKeepsQueue(Do(r, ops[0], maxAge), ops[1..], maxAge, r', peer);
    }
  }

  /** A relay before its first request. */
  function NewRelay(clock: int): Relay {
    Relay(map[], map[], clock, None)
  }

  /**
   The inbox is a FIFO queue: after any run of pushes, pulls and evictions with a clock that does not go back, the
   next pull of a peer returns exactly the chunks pushed for it since its last pull, in push order, without those
   older than the latest eviction's cutoff, and these are a suffix. Nothing is required of other peers' inboxes.
   */
  lemma PullIsFifo(ops: seq<Op>, maxAge: nat, clock: int, r: Relay, peer: string)
    requires Runs(NewRelay(clock), ops, maxAge, r) && Fits(NewRelay(clock), ops, maxAge, peer)
    ensures Buffered(r.boxes, peer) == Keep(Since(r, peer), r.cutoff)
    ensures exists k :: 0 <= k <= |Since(r, peer)| && Buffered(r.boxes, peer) == Since(r, peer)[k..]
  {
    assert Queue(NewRelay(clock), maxAge, peer);
    hide Runs, Fits;
    RunKeepsQueue(NewRelay(clock), ops, maxAge, r, peer);
    KeepIsSuffix(Since(r, peer), r.cutoff, r.clock);
  }

  // ---------------------------------------------------------------------------------------------
  // A run that reaches the limit
  // ---------------------------------------------------------------------------------------------

  lemma {:induction false} RunsOn(r: Relay, ops: seq<Op>, maxAge: nat, r': Relay, op: Op)
    requires Runs(r, ops, maxAge, r') && OnTime(r', op)
    ensures Runs(r, ops + [op], maxAge, Do(r', op, maxAge))
    decreases |ops|
  {
    hide Do, OnTime;
    if ops == [] {
      assert ops + [op] == [op] && [op][1..] == [];
    } else {
      RunsOn(Do(r, ops[0], maxAge), ops[1..], maxAge, r', op);
      assert (ops + [op])[1..] == ops[1..] + [op];
    }
  }

  predicate PushFor(op: Op, peer: string, now: int) {
    op.Push? && op.recipient == peer && Accepts(peer, op.data) && op.now == now
  }

  function ChunkOf(op: Op): RelayedChunk
    requires op.Push?
  {
    RelayedChunk(op.chunkHash, op.data, op.now)
  }

  /** The latest push is buffered under the latest key. */
  ghost predicate EndsIn(box: Inbox, chunk: RelayedChunk) {
    box.entries != [] && box.entries[|box.entries| - 1] == (Key(box.sequence), chunk)
  }

  lemma PushEnds(r: Relay, op: Op, maxAge: nat, peer: string)
    requires Queue(r, maxAge, peer) && PushFor(op, peer, r.clock)
    requires InboxOf(r.boxes, peer).sequence + 1 < KEY_LIMIT
    ensures var r' := Do(r, op, maxAge);
            && InboxOf(r'.boxes, peer).sequence == InboxOf(r.boxes, peer).sequence + 1
            && EndsIn(InboxOf(r'.boxes, peer), ChunkOf(op)) && r'.clock == r.clock && r'.cutoff == r.cutoff
            && OnTime(r, op) && Queue(r', maxAge, peer)
  {
    hide Key, Put, Keep, Values, KeysBelow, InTimeOrder;
    NextKeyIsLast(InboxOf(r.boxes, peer), ChunkOf(op));
    OpKeepsQueue(r, op, maxAge, peer);
  }

  /** A run of one peer's pushes that fits, from one relay to another. */
  ghost predicate Leads(r: Relay, ops: seq<Op>, maxAge: nat, peer: string, r': Relay) {
    && Runs(r, ops, maxAge, r') && Fits(r, ops, maxAge, peer) && r'.clock == r.clock && r'.cutoff == r.cutoff
    && InboxOf(r'.boxes, peer).sequence == InboxOf(r.boxes, peer).sequence + |ops|
  }

  lemma LeadsOn(r: Relay, op: Op, ops: seq<Op>, maxAge: nat, peer: string, r': Relay)
    requires OnTime(r, op) && Leads(Do(r, op, maxAge), ops, maxAge, peer, r')
    requires var next := Do(r, op, maxAge);
             && next.clock == r.clock && next.cutoff == r.cutoff
             && InboxOf(next.boxes, peer).sequence == InboxOf(r.boxes, peer).sequence + 1 < KEY_LIMIT
    ensures Leads(r, [op] + ops, maxAge, peer, r')
  {
    hide Do, OnTime;
    assert ([op] + ops)[1..] == ops;
  }

  lemma StaysPut(r: Relay, maxAge: nat, peer: string)
    requires InboxOf(r.boxes, peer).sequence < KEY_LIMIT
    ensures Leads(r, [], maxAge, peer, r)
  {
  }

  /** The same push, `n` times. */
  lemma {:induction false} PushMany(r: Relay, op: Op, n: nat, maxAge: nat, peer: string) returns (r': Relay)
    requires Queue(r, maxAge, peer) && PushFor(op, peer, r.clock)
    requires InboxOf(r.boxes, peer).sequence + n < KEY_LIMIT
    ensures Leads(r, seq(n, _ => op), maxAge, peer, r') && Queue(r', maxAge, peer)
    ensures n > 0 ==> EndsIn(InboxOf(r'.boxes, peer), ChunkOf(op))
    decreases n
  {
    hide *;
    r' := r;
    if n == 0 {
      StaysPut(r, maxAge, peer);
      assert seq(n, _ => op) == [];
    } else {
      PushEnds(r, op, maxAge, peer);
      r' := PushMany(Do(r, op, maxAge), op, n - 1, maxAge, peer);
      LeadsOn(r, op, seq(n - 1, _ => op), maxAge, peer, r');
      assert seq(n, _ => op) == [op] + seq(n - 1, _ => op);
      if n == 1 {
        OnlyPush(Do(r, op, maxAge), seq(n - 1, _ => op), maxAge, peer, r');
      }
    }
  }

  lemma OnlyPush(r: Relay, ops: seq<Op>, maxAge: nat, peer: string, r': Relay)
    requires Leads(r, ops, maxAge, peer, r') && ops == []
    ensures r' == r
  {
  }

  lemma {:induction false} PutBeforeLast(ps: Pairs<RelayedChunk>, key: string, chunk: RelayedChunk)
    requires ps != [] && Less(key, ps[|ps| - 1].0)
    ensures var after := Put(ps, key, chunk);
            after != [] && after[|after| - 1] == ps[|ps| - 1]
    decreases |ps|
  {
    LessTotal(key, ps[|ps| - 1].0);
    if ps[0].0 != key && !Less(key, ps[0].0) {
      PutBeforeLast(ps[1..], key, chunk);
    }
  }

  lemma LastValue(ps: Pairs<RelayedChunk>)
    requires ps != []
    ensures Values(ps) != [] && Values(ps)[|Values(ps)| - 1] == ps[|ps| - 1].1
  {
    ValuesAppend(ps[..|ps| - 1], ps[|ps| - 1]);
    assert ps == ps[..|ps| - 1] + [ps[|ps| - 1]];
  }

  lemma LimitComesFirst()
    ensures Less(Key(KEY_LIMIT), Key(KEY_LIMIT - 1))
  {
    FirstDigits();
    LessTotal(Key(KEY_LIMIT), Key(KEY_LIMIT - 1));
  }

  /** The push that reaches the limit does not come last. */
  lemma LimitBreaksOrder(r: Relay, maxAge: nat, peer: string, first: RelayedChunk, second: Op)
    requires Queue(r, maxAge, peer) && r.cutoff.None? && PushFor(second, peer, r.clock) && ChunkOf(second) != first
    requires EndsIn(InboxOf(r.boxes, peer), first) && InboxOf(r.boxes, peer).sequence == KEY_LIMIT - 1
    ensures var r' := Do(r, second, maxAge);
            Buffered(r'.boxes, peer) != Keep(Since(r', peer), r'.cutoff)
  {
    var r', entries := Do(r, second, maxAge), InboxOf(r.boxes, peer).entries;
    hide Queue, Keep, Values;
    LimitComesFirst();
    hide Key;
    NothingExpired(Since(r', peer), None);
    PutBeforeLast(entries, Key(KEY_LIMIT), ChunkOf(second));
    hide Put, Less;
    LastValue(Put(entries, Key(KEY_LIMIT), ChunkOf(second)));
    assert Since(r', peer)[|Since(r', peer)| - 1] == ChunkOf(second);
  }

  /** The limit is the least: a run on a fresh relay whose last push reaches it is not first in, first out. */
  lemma OrderBreaks(peer: string, first: Op, second: Op, maxAge: nat, clock: int) returns (r: Relay)
    requires PushFor(first, peer, clock) && PushFor(second, peer, clock) && ChunkOf(first) != ChunkOf(second)
    ensures var ops := seq(KEY_LIMIT - 1, _ => first);
            && Fits(NewRelay(clock), ops, maxAge, peer)
            && Runs(NewRelay(clock), ops + [second], maxAge, r)
            && InboxOf(r.boxes, peer).sequence == KEY_LIMIT
    ensures Buffered(r.boxes, peer) != Keep(Since(r, peer), r.cutoff)
  {
    assert Queue(NewRelay(clock), maxAge, peer) && InboxOf(NewRelay(clock).boxes, peer) == Inbox(0, []);
    hide Queue, Runs, Fits, EndsIn, Keep, Values;
    r := PushMany(NewRelay(clock), first, KEY_LIMIT - 1, maxAge, peer);
    LimitBreaksOrder(r, maxAge, peer, ChunkOf(first), second);
    RunsOn(NewRelay(clock), seq(KEY_LIMIT - 1, _ => first), maxAge, r, second);
    r := Do(r, second, maxAge);
  }

  // ---------------------------------------------------------------------------------------------
  // Whole runs, below the limit: nothing is returned out of order
  // ---------------------------------------------------------------------------------------------

  /** The chunks accepted for a peer, in push order. */
  function Accepted(ops: seq<Op>, peer: string): seq<RelayedChunk> {
    if ops == [] then []
    else
      (match ops[0]
       case Push(recipient, chunkHash, data, now) =>
         if recipient == peer && Accepts(recipient, data) then [RelayedChunk(chunkHash, data, now)] else []
       case _ => [])
      + Accepted(ops[1..], peer)
  }

  function ReturnedBy(r: Relay, op: Op, peer: string): seq<RelayedChunk> {
    if op == Pull(peer) then Buffered(r.boxes, peer) else []
  }

  /** The relay accepts what is at most 8 MiB and has a recipient. */
  lemma {:induction false} AcceptedIff(ops: seq<Op>, peer: string)
    ensures forall c :: c in Accepted(ops, peer) <==>
              Op.Push(peer, c.chunkHash, c.data, c.pushedAt) in ops && |c.data| <= 8388608 && peer != ""
    decreases |ops|
  {
    if ops != [] {
      AcceptedStep(ops, peer);
      AcceptedIff(ops[1..], peer);
      assert ops == [ops[0]] + ops[1..];
      hide Accepted;
    }
  }

  /** All that the pulls of a peer returned in a run, in order. */
  function Returned(r: Relay, ops: seq<Op>, maxAge: nat, peer: string): seq<RelayedChunk>
    decreases |ops|
  {
    if ops == [] then []
    else ReturnedBy(r, ops[0], peer)
         + Returned(Do(r, ops[0], maxAge), ops[1..], maxAge, peer)
  }

  /** `xs` is `ys` with some elements left out. */
  predicate Thinned(xs: seq<RelayedChunk>, ys: seq<RelayedChunk>)
    decreases |ys|
  {
    if xs == [] then true
    else if ys == [] then false
    else (xs[0] == ys[0] && Thinned(xs[1..], ys[1..])) || Thinned(xs, ys[1..])
  }

  lemma {:induction false} ThinnedConcat(xs: seq<RelayedChunk>, ys: seq<RelayedChunk>,
                                         us: seq<RelayedChunk>, vs: seq<RelayedChunk>)
    requires Thinned(xs, ys) && Thinned(us, vs)
    ensures Thinned(xs + us, ys + vs)
    decreases |ys|
  {
    if ys == [] {
      assert xs + us == us && ys + vs == vs;
    } else {
      assert (ys + vs)[1..] == ys[1..] + vs;
      if xs != [] && xs[0] == ys[0] && Thinned(xs[1..], ys[1..]) {
        ThinnedConcat(xs[1..], ys[1..], us, vs);
        assert (xs + us)[1..] == xs[1..] + us;
      } else {
        ThinnedConcat(xs, ys[1..], us, vs);
      }
    }
  }

  lemma {:induction false} KeepThins(cs: seq<RelayedChunk>, cutoff: Option<int>)
    ensures Thinned(Keep(cs, cutoff), cs)
    decreases |cs|
  {
    if cs != [] {
      KeepThins(cs[1..], cutoff);
    }
  }

  predicate Evicts(op: Op) {
    op.Evict?
  }

  ghost predicate SomeEvicts(ops: seq<Op>) {
    exists op :: op in ops && Evicts(op)
  }

  /** One operation: what it accepts for the peer joins what was pushed since the last pull, which a pull clears. */
  lemma SinceStep(r: Relay, op: Op, maxAge: nat, peer: string)
    ensures op == Pull(peer) ==> Since(Do(r, op, maxAge), peer) == [] && Accepted([op], peer) == []
    ensures op != Pull(peer) ==> Since(Do(r, op, maxAge), peer) == Since(r, peer) + Accepted([op], peer)
    ensures !Evicts(op) ==> Do(r, op, maxAge).cutoff == r.cutoff
  {
    assert [op][1..] == [] && Accepted([], peer) == [];
    assert Since(r, peer) + [] == Since(r, peer);
  }

  lemma AcceptedStep(ops: seq<Op>, peer: string)
    requires ops != []
    ensures Accepted(ops, peer) == Accepted([ops[0]], peer) + Accepted(ops[1..], peer)
    ensures Accepted([ops[0]], peer) ==
            if ops[0].Push? && ops[0].recipient == peer && Accepts(peer, ops[0].data)
            then [RelayedChunk(ops[0].chunkHash, ops[0].data, ops[0].now)] else []
  {
    assert [ops[0]][1..] == [] && Accepted([], peer) == [];
  }

  /** Some of `ys`, in the same order; all of it if `exact`. */
  ghost predicate PartOf(xs: seq<RelayedChunk>, ys: seq<RelayedChunk>, exact: bool) {
    Thinned(xs, ys) && (exact ==> xs == ys)
  }

  ghost predicate RunThinned(r: Relay, ops: seq<Op>, maxAge: nat, r': Relay, peer: string) {
    PartOf(Returned(r, ops, maxAge, peer) + Buffered(r'.boxes, peer), Since(r, peer) + Accepted(ops, peer),
           !SomeEvicts(ops) && r.cutoff.None?)
  }

  lemma QueueThins(r: Relay, maxAge: nat, peer: string)
    requires Queue(r, maxAge, peer)
    ensures PartOf(Buffered(r.boxes, peer), Since(r, peer), r.cutoff.None?)
    ensures RunThinned(r, [], maxAge, r, peer)
  {
    KeepThins(Since(r, peer), r.cutoff);
    NothingExpired(Since(r, peer), None);
    hide Thinned, Keep, InTimeOrder, KeysBelow, Values;
    assert Since(r, peer) + [] == Since(r, peer);
    assert [] + Buffered(r.boxes, peer) == Buffered(r.boxes, peer);
  }

  lemma ReturnedStep(r: Relay, ops: seq<Op>, maxAge: nat, peer: string)
    requires ops != []
    ensures Returned(r, ops, maxAge, peer)
         == ReturnedBy(r, ops[0], peer) + Returned(Do(r, ops[0], maxAge), ops[1..], maxAge, peer)
    ensures SomeEvicts(ops) <==> Evicts(ops[0]) || SomeEvicts(ops[1..])
  {
    hide Do, Buffered, Evicts;
    assert ops == [ops[0]] + ops[1..];
  }

  lemma ThinnedStep(r: Relay, ops: seq<Op>, maxAge: nat, r': Relay, peer: string)
    requires ops != [] && Queue(r, maxAge, peer)
    requires RunThinned(Do(r, ops[0], maxAge), ops[1..], maxAge, r', peer)
    ensures RunThinned(r, ops, maxAge, r', peer)
  {
    hide Queue, Returned, Accepted, Buffered, Since, PartOf, Evicts, SomeEvicts, Do;
    QueueThins(r, maxAge, peer);
    SinceStep(r, ops[0], maxAge, peer);
    AcceptedStep(ops, peer);
    ReturnedStep(r, ops, maxAge, peer);
    var next := Do(r, ops[0], maxAge);
    ThinsStep(ops[0] == Pull(peer), Buffered(r.boxes, peer), r.cutoff.None?, Since(r, peer),
              Accepted([ops[0]], peer), Since(next, peer), Accepted(ops[1..], peer),
              ReturnedBy(r, ops[0], peer), Returned(next, ops[1..], maxAge, peer), Buffered(r'.boxes, peer),
              !SomeEvicts(ops[1..]) && next.cutoff.None?, !SomeEvicts(ops) && r.cutoff.None?);
  }

  /** Returned and still buffered together are part of what was there and what was accepted, in the same order. */
  lemma {:induction false} RunThins(r: Relay, ops: seq<Op>, maxAge: nat, r': Relay, peer: string)
    requires Queue(r, maxAge, peer) && Runs(r, ops, maxAge, r') && Fits(r, ops, maxAge, peer)
    ensures RunThinned(r, ops, maxAge, r', peer)
    decreases |ops|
  {
    hide Queue, Do, OnTime, RunThinned;
    QueueThins(r, maxAge, peer);
    if ops != [] {
      assert Fits(Do(r, ops[0], maxAge), ops[1..], maxAge, peer);
      OpKeepsQueue(r, ops[0], maxAge, peer);
      RunThins(Do(r, ops[0], maxAge), ops[1..], maxAge, r', peer);
      ThinnedStep(r, ops, maxAge, r', peer);
    }
  }

  /** The step of that induction on plain sequences; `mine` is what the operation accepted. */
  lemma ThinsStep(pull: bool, buffered: seq<RelayedChunk>, whole: bool, since: seq<RelayedChunk>,
                  mine: seq<RelayedChunk>, since': seq<RelayedChunk>, rest: seq<RelayedChunk>,
                  returned: seq<RelayedChunk>, later: seq<RelayedChunk>, left: seq<RelayedChunk>, exact: bool,
                  all: bool)
    requires (all ==> whole && exact) && PartOf(buffered, since, whole) && PartOf(later + left, since' + rest, exact)
    requires if pull then mine == since' == [] && returned == buffered else returned == [] && since' == since + mine
    ensures PartOf((returned + later) + left, since + (mine + rest), all)
  {
    hide Thinned;
    if pull {
      assert since' + rest == rest && mine + rest == rest;
      ThinnedConcat(buffered, since, later + left, rest);
      assert buffered + (later + left) == buffered + later + left;
    } else {
      assert [] + later == later;
      assert since + mine + rest == since + (mine + rest);
    }
  }

  /**
   Over a whole run that fits: what the pulls of a peer returned, followed by what is still buffered, is what was
   accepted for it with some chunks left out and none moved; without evictions none is left out.
   */
  lemma NothingMoved(ops: seq<Op>, maxAge: nat, clock: int, r: Relay, peer: string)
    requires Runs(NewRelay(clock), ops, maxAge, r) && Fits(NewRelay(clock), ops, maxAge, peer)
    ensures var seen := Returned(NewRelay(clock), ops, maxAge, peer) + Buffered(r.boxes, peer);
            && Thinned(seen, Accepted(ops, peer))
            && (!SomeEvicts(ops) ==> seen == Accepted(ops, peer))
  {
    assert Queue(NewRelay(clock), maxAge, peer);
    hide Runs, Returned, Accepted, Thinned, Buffered, Fits, Queue, SomeEvicts;
    RunThins(NewRelay(clock), ops, maxAge, r, peer);
    assert [] + Accepted(ops, peer) == Accepted(ops, peer);
  }

  // ---------------------------------------------------------------------------------------------
  // Whole runs of any length: nothing is returned twice
  // ---------------------------------------------------------------------------------------------

  /** Every key was given out. */
  ghost predicate KeysGiven(box: Inbox) {
    forall i | 0 <= i < |box.entries| :: exists m: nat :: m <= box.sequence && box.entries[i].0 == Key(m)
  }

  /** A chunk put under a new key joins the others. */
  lemma {:induction false} PutCounts(ps: Pairs<RelayedChunk>, key: string, chunk: RelayedChunk)
    requires forall i | 0 <= i < |ps| :: ps[i].0 != key
    ensures multiset(Values(Put(ps, key, chunk))) == multiset(Values(ps)) + multiset{chunk}
    decreases |ps|
  {
    if ps == [] {
      assert [(key, chunk)][1..] == [];
    } else if Less(key, ps[0].0) {
      assert ([(key, chunk)] + ps)[1..] == ps;
    } else {
      var rest := Put(ps[1..], key, chunk);
      PutCounts(ps[1..], key, chunk);
      assert ([ps[0]] + rest)[1..] == rest;
    }
  }

  lemma {:induction false} PutKeys(ps: Pairs<RelayedChunk>, key: string, chunk: RelayedChunk)
    ensures forall p | p in Put(ps, key, chunk) :: p == (key, chunk) || p in ps
    decreases |ps|
  {
    if ps != [] {
      PutKeys(ps[1..], key, chunk);
      assert ps == [ps[0]] + ps[1..];
    }
  }

  lemma {:induction false} FreshCounts(ps: Pairs<RelayedChunk>, cutoff: int)
    ensures multiset(Values(Fresh(ps, cutoff))) <= multiset(Values(ps))
    decreases |ps|
  {
    if ps != [] {
      FreshCounts(ps[1..], cutoff);
      var rest := Fresh(ps[1..], cutoff);
      assert ([ps[0]] + rest)[1..] == rest;
    }
  }

  lemma NextKeyIsNew(box: Inbox, chunk: RelayedChunk)
    requires KeysGiven(box)
    ensures var after := Inbox(box.sequence + 1, Put(box.entries, Key(box.sequence + 1), chunk));
            && KeysGiven(after)
            && multiset(Values(after.entries)) == multiset(Values(box.entries)) + multiset{chunk}
  {
    hide Key, Put, Values;
    var key := Key(box.sequence + 1);
    var entries := Put(box.entries, key, chunk);
    forall i | 0 <= i < |box.entries|
      ensures box.entries[i].0 != key
    {
      var m: nat :| m <= box.sequence && box.entries[i].0 == Key(m);
      KeyInjective(m, box.sequence + 1);
    }
    PutCounts(box.entries, key, chunk);
    PutKeys(box.entries, key, chunk);
    forall i | 0 <= i < |entries|
      ensures exists m: nat :: m <= box.sequence + 1 && entries[i].0 == Key(m)
    {
      if entries[i] != (key, chunk) {
        assert entries[i] in box.entries;
        var j :| 0 <= j < |box.entries| && box.entries[j] == entries[i];
        var m: nat :| m <= box.sequence && box.entries[j].0 == Key(m);
      }
    }
  }

  /** What was there and what came in is handed out or left, each once; only evictions drop some of it. */
  ghost predicate Counts(before: seq<RelayedChunk>, accepted: seq<RelayedChunk>, returned: seq<RelayedChunk>,
                         after: seq<RelayedChunk>, evicts: bool)
  {
    && multiset(returned) + multiset(after) <= multiset(before) + multiset(accepted)
    && (!evicts ==> multiset(returned) + multiset(after) == multiset(before) + multiset(accepted))
  }

  lemma CountsChain(before: seq<RelayedChunk>, accepted: seq<RelayedChunk>, returned: seq<RelayedChunk>,
                    between: seq<RelayedChunk>, evicts: bool, accepted': seq<RelayedChunk>,
                    returned': seq<RelayedChunk>, after: seq<RelayedChunk>, evicts': bool)
    requires Counts(before, accepted, returned, between, evicts)
    requires Counts(between, accepted', returned', after, evicts')
    ensures Counts(before, accepted + accepted', returned + returned', after, evicts || evicts')
  {
    var have := multiset(before) + multiset(accepted + accepted');
    var seen := multiset(returned + returned') + multiset(after);
    forall c
      ensures seen[c] <= have[c] && (!evicts && !evicts' ==> seen[c] == have[c])
    {
      assert (multiset(returned) + multiset(between))[c] <= (multiset(before) + multiset(accepted))[c];
      assert (multiset(returned') + multiset(after))[c] <= (multiset(between) + multiset(accepted'))[c];
    }
  }

  lemma CountsOne(before: seq<RelayedChunk>, after: seq<RelayedChunk>)
    ensures Counts(before, [], [], before, false) && Counts(before, [], before, [], false)
    ensures multiset(after) <= multiset(before) ==> Counts(before, [], [], after, true)
    ensures forall c :: multiset(after) == multiset(before) + multiset{c} ==> Counts(before, [c], [], after, false)
  {
  }

  ghost predicate OpCounted(r: Relay, op: Op, maxAge: nat, peer: string) {
    var r' := Do(r, op, maxAge);
    && KeysGiven(InboxOf(r'.boxes, peer))
    && Counts(Buffered(r.boxes, peer), Accepted([op], peer), ReturnedBy(r, op, peer), Buffered(r'.boxes, peer),
              Evicts(op))
  }

  lemma PushCounts(r: Relay, op: Op, maxAge: nat, peer: string)
    requires KeysGiven(InboxOf(r.boxes, peer)) && op.Push?
    ensures OpCounted(r, op, maxAge, peer)
  {
    hide KeysGiven, Values, Put, Key, Counts, Accepted;
    var chunk := RelayedChunk(op.chunkHash, op.data, op.now);
    AcceptedStep([op], peer);
    NextKeyIsNew(InboxOf(r.boxes, peer), chunk);
    CountsOne(Buffered(r.boxes, peer), Buffered(Do(r, op, maxAge).boxes, peer));
  }

  lemma PullCounts(r: Relay, op: Op, maxAge: nat, peer: string)
    requires KeysGiven(InboxOf(r.boxes, peer)) && op.Pull?
    ensures OpCounted(r, op, maxAge, peer)
  {
    EmptyBox();
    hide KeysGiven, Values, Counts, Accepted;
    AcceptedStep([op], peer);
    CountsOne(Buffered(r.boxes, peer), []);
    if op.peer == peer {
      assert InboxOf(Do(r, op, maxAge).boxes, peer) == Inbox(0, []);
    } else {
      assert InboxOf(Do(r, op, maxAge).boxes, peer) == InboxOf(r.boxes, peer);
    }
  }

  lemma EvictedInbox(boxes: Inboxes, cutoff: int, peer: string)
    ensures var box, left := InboxOf(boxes, peer), InboxOf(Evicted(boxes, cutoff), peer);
            left.entries == Fresh(box.entries, cutoff) && (left == Inbox(0, []) || left.sequence == box.sequence)
  {
    assert Fresh([], cutoff) == [];
    hide Fresh;
  }

  /** An eviction leaves exactly the chunks that are not older than the maximum age. */
  lemma EvictKeepsYoung(r: Relay, now: int, maxAge: nat, peer: string)
    ensures forall c :: c in Buffered(Do(r, Evict(now), maxAge).boxes, peer) <==>
              c in Buffered(r.boxes, peer) && now - c.pushedAt <= maxAge
  {
    var box := InboxOf(r.boxes, peer);
    EvictedInbox(r.boxes, now - maxAge, peer);
    FreshValues(box.entries, now - maxAge);
    KeepIff(Values(box.entries), Some(now - maxAge));
    hide Fresh, Values, Keep, Evicted;
  }

  lemma EvictCounts(r: Relay, op: Op, maxAge: nat, peer: string)
    requires KeysGiven(InboxOf(r.boxes, peer)) && op.Evict?
    ensures OpCounted(r, op, maxAge, peer)
  {
    hide KeysGiven, Values, Fresh, Counts, Accepted, Evicted, InboxOf;
    var box, cutoff := InboxOf(r.boxes, peer), op.now - maxAge;
    EmptyBox();
    EvictedInbox(r.boxes, cutoff, peer);
    AcceptedStep([op], peer);
    FreshBox(box, cutoff);
    FreshCounts(box.entries, cutoff);
    CountsOne(Values(box.entries), Values(Fresh(box.entries, cutoff)));
  }

  ghost predicate RunCounted(r: Relay, ops: seq<Op>, maxAge: nat, r': Relay, peer: string) {
    Counts(Buffered(r.boxes, peer), Accepted(ops, peer), Returned(r, ops, maxAge, peer), Buffered(r'.boxes, peer),
           SomeEvicts(ops))
  }

  lemma CountedStep(r: Relay, ops: seq<Op>, maxAge: nat, r': Relay, peer: string)
    requires ops != [] && OpCounted(r, ops[0], maxAge, peer)
    requires RunCounted(Do(r, ops[0], maxAge), ops[1..], maxAge, r', peer)
    ensures RunCounted(r, ops, maxAge, r', peer)
  {
    hide Do, Accepted, Returned, Buffered, KeysGiven, Evicts, SomeEvicts, Counts;
    AcceptedStep(ops, peer);
    ReturnedStep(r, ops, maxAge, peer);
    var next := Do(r, ops[0], maxAge);
    CountsChain(Buffered(r.boxes, peer), Accepted([ops[0]], peer), ReturnedBy(r, ops[0], peer),
                Buffered(next.boxes, peer), Evicts(ops[0]), Accepted(ops[1..], peer),
                Returned(next, ops[1..], maxAge, peer), Buffered(r'.boxes, peer), SomeEvicts(ops[1..]));
  }

  lemma {:induction false} RunCounts(r: Relay, ops: seq<Op>, maxAge: nat, r': Relay, peer: string)
    requires KeysGiven(InboxOf(r.boxes, peer)) && Runs(r, ops, maxAge, r')
    ensures RunCounted(r, ops, maxAge, r', peer)
    decreases |ops|
  {
    hide Do, Buffered, KeysGiven, OnTime, Evicts;
    if ops != [] {
      match ops[0] {
        case Push(_, _, _, _) => PushCounts(r, ops[0], maxAge, peer);
        case Pull(_) => PullCounts(r, ops[0], maxAge, peer);
        case Evict(_) => EvictCounts(r, ops[0], maxAge, peer);
      }
      hide Counts, Accepted, Returned;
      RunCounts(Do(r, ops[0], maxAge), ops[1..], maxAge, r', peer);
      CountedStep(r, ops, maxAge, r', peer);
    }
  }

  /**
   Over any run of any length, for every peer: no chunk is returned twice or made up. What its pulls returned and
   what is still buffered are, counted with multiplicity, among the chunks accepted for it, and without evictions
   all of them.
   */
  lemma NothingTwice(ops: seq<Op>, maxAge: nat, clock: int, r: Relay, peer: string)
    requires Runs(NewRelay(clock), ops, maxAge, r)
    ensures var seen := Returned(NewRelay(clock), ops, maxAge, peer) + Buffered(r.boxes, peer);
            && multiset(seen) <= multiset(Accepted(ops, peer))
            && (!SomeEvicts(ops) ==> multiset(seen) == multiset(Accepted(ops, peer)))
  {
    EmptyBox();
    hide Runs, Returned, Accepted, KeysGiven, Values;
    RunCounts(NewRelay(clock), ops, maxAge, r, peer);
  }
}
