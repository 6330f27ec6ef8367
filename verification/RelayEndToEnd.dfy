/**
 Sender, relay and receiver together: what ReceiveFile writes after any run of the relay in which all pushes for
 the recipient come from honest senders, and the round trip of one file.
 */
module RelayEndToEnd {
  import opened Hasher
  import opened Chunker
  import opened Wire
  import opened Decimal
  import opened Bolt
  import opened RelayInbox
  import opened RelayTransfer
  import opened RelayReassembly

  // ---------------------------------------------------------------------------------------------
  // A run of the relay
  // ---------------------------------------------------------------------------------------------

  /** Every push for this peer is one of an honest sender. */
  ghost predicate HonestOps(e: Setup, ts: set<Transfer>, ops: seq<Op>, peer: string) {
    forall op | op in ops && op.Push? && op.recipient == peer ::
      Honest(e, ts, RelayedChunk(op.chunkHash, op.data, op.now))
  }

  lemma {:induction false} AcceptedIsHonest(e: Setup, ts: set<Transfer>, ops: seq<Op>, peer: string)
    requires HonestOps(e, ts, ops, peer)
    ensures AllHonest(e, ts, Accepted(ops, peer))
    decreases |ops|
  {
    if ops != [] {
      hide Honest;
      assert ops[0] in ops;
      AcceptedStep(ops, peer);
      AcceptedIsHonest(e, ts, ops[1..], peer);
    }
  }

  /** Honesty is about members only. */
  lemma FewerAreHonest(e: Setup, ts: set<Transfer>, bag: seq<RelayedChunk>, all: seq<RelayedChunk>)
    requires multiset(bag) <= multiset(all) && AllHonest(e, ts, all)
    ensures AllHonest(e, ts, bag)
  {
    hide Honest;
    forall rc | rc in bag
      ensures Honest(e, ts, rc)
    {
      assert rc in multiset(bag);
    }
  }

  /**
   Whatever else the relay did, in any order, however long, and whatever it evicted: a ReceiveFile of a peer for
   whom only honest senders pushed reassembles what is still buffered. If some transfer is buffered whole, it writes
   the original file of the one with the least id, exactly when it reads that one right.
   */
  lemma RelayedFileIsExact(e: Setup, ts: set<Transfer>, ops: seq<Op>, maxAge: nat, clock: int, r: Relay, peer: string)
    requires Runs(NewRelay(clock), ops, maxAge, r)
    requires Sound(e, ts) && HonestOps(e, ts, ops, peer)
    ensures Reassembled(e, ts, Buffered(r.boxes, peer), Outcome(e, Buffered(r.boxes, peer)))
  {
    hide Runs, Sound, HonestOps, Outcome, Reassembled, Returned, Accepted, Buffered, AllHonest;
    NothingTwice(ops, maxAge, clock, r, peer);
    AcceptedIsHonest(e, ts, ops, peer);
    FewerAreHonest(e, ts, Buffered(r.boxes, peer), Accepted(ops, peer));
    Reassembly(e, ts, Buffered(r.boxes, peer));
  }

  // ---------------------------------------------------------------------------------------------
  // Round trip
  // ---------------------------------------------------------------------------------------------

  /** Pushed one after the other, messages join what was buffered before, in whatever key order. */
  lemma {:induction false} PushAllJoins(boxes: Inboxes, peer: string, pushes: seq<RelayedChunk>)
    requires KeysGiven(InboxOf(boxes, peer))
    ensures var after := PushAll(boxes, peer, pushes);
            && KeysGiven(InboxOf(after, peer))
            && multiset(Buffered(after, peer)) == multiset(Buffered(boxes, peer)) + multiset(pushes)
    decreases |pushes|
  {
    hide KeysGiven, Values, Key, Put;
    if pushes != [] {
      var n := |pushes| - 1;
      PushAllJoins(boxes, peer, pushes[..n]);
      NextKeyIsNew(InboxOf(PushAll(boxes, peer, pushes[..n]), peer), pushes[n]);
      assert pushes == pushes[..n] + [pushes[n]];
    }
  }

  /** Delivery and honesty do not depend on the order of the bag. */
  lemma SameBag(e: Setup, t: Transfer, bag: seq<RelayedChunk>, pushes: seq<RelayedChunk>)
    requires multiset(bag) == multiset(pushes) && Delivered(e, t, pushes)
    ensures Delivered(e, t, bag)
  {
    hide ChunksOf, ManifestKey, PieceKey;
    forall key | HasKey(pushes, key)
      ensures HasKey(bag, key)
    {
      var rc :| rc in pushes && rc.chunkHash == key;
      assert rc in multiset(pushes);
      assert rc in bag;
    }
  }

  /** A file sent to an empty inbox is received byte for byte, under its own name, exactly when it is read right. */
  lemma SendReceiveRoundTrip(e: Setup, t: Transfer, nonces: nat -> Bytes, clock: nat -> int, boxes: Inboxes,
                             peer: string)
    requires e.cipher.Inverts() && e.codec.Inverts() && |e.key| in {0, SPACE_KEY_SIZE}
    requires IsHex(t.id) && |t.content| <= MAX_INT && peer !in boxes
    ensures var result := Outcome(e, Buffered(PushAll(boxes, peer, Pushes(e, t, nonces, clock)), peer));
            result == Written(Receiver.Base(t.path), t.content) <==> ReadsRight(e, t)
  {
    hide Pushes, Sound, Outcome, FirstDelivered, Delivered, AllHonest, ReadsRight, ReadsAs, Receiver.Base;
    hide KeysGiven, PushAll, IsHex, Values;
    var pushes := Pushes(e, t, nonces, clock);
    assert InboxOf(boxes, peer) == Inbox(0, []);
    EmptyBox();
    PushAllJoins(boxes, peer, pushes);
    var bag := Buffered(PushAll(boxes, peer, pushes), peer);
    SentIsHonest(e, t, nonces, clock);
    assert multiset(bag) == multiset(pushes);
    FewerAreHonest(e, {t}, bag, pushes);
    SameBag(e, t, bag, pushes);
    OneDelivered(e, t, bag);
    Reassembly(e, {t}, bag);
  }

  /**
   SendFile, then ReceiveFile of the recipient at the same relay, undisturbed: when sending succeeded, so that the
   relay took every piece and the manifest, the file is written byte for byte under its own name.
   */
  method SendAndReceive(sender: FileRelay, receiver: FileRelay, c: BufferedChunker, peer: string, t: Transfer,
                        nonces: nat -> Bytes, clock: nat -> int, cancelled: nat -> bool, x: Interruptions)
    returns (ok: bool, result: Result)
    requires sender.server == receiver.server && sender.e == receiver.e && sender.server.Valid()
    requires c.Valid() && {c, c.r, c.hasher, c.hasher.window} !! {sender.server}
    requires c.hash == sender.e.hash && c.offset == 0 && c.Rest() == t.content
    requires var e := sender.e; e.cipher.Inverts() && e.codec.Inverts()
    requires IsHex(t.id) && |t.content| <= MAX_INT && ReadsRight(sender.e, t)
    requires peer !in sender.server.boxes && Calm(x)
    modifies c, c.r, c.hasher, c.hasher.window, sender.server, receiver.files`files
    ensures ok ==> result == Written(Receiver.Base(t.path), t.content)
    ensures ok ==> receiver.files.files == old(receiver.files.files)[Receiver.Base(t.path) := t.content]
    ensures peer !in sender.server.boxes
  {
    hide Pushes, PushAll;
    ghost var pushes := Pushes(sender.e, t, nonces, clock);
    assert pushes[..|pushes|] == pushes;
    assert After(sender.e, t, nonces, clock, sender.server.boxes, peer, |pushes|)
        == PushAll(sender.server.boxes, peer, pushes);
    hide *;
    ghost var e, boxes := sender.e, sender.server.boxes;
    ghost var sent;
    ok, sent := sender.SendFile(c, peer, t, nonces, clock, cancelled);
    ghost var touched;
    result, touched := receiver.ReceiveFile(peer, x);
    if ok {
      SendReceiveRoundTrip(e, t, nonces, clock, boxes, peer);
    }
  }
}
