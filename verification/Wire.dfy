/**
 What crosses the wire: the packets of apps/backend/internal/network/transport.go, and the protection of
 chunk bytes (session.go). The cipher is a parameter; all that is used of it is that opening a sealed
 message under the same key gives the message back.
 */
module Wire {
  import opened Hasher
  import opened Chunker

  const SPACE_KEY_SIZE: nat := 32

  datatype Option<+T> = None | Some(value: T)

  /** An authenticated cipher: seal(key, nonce, plain) and open(key, sealed). */
  datatype Cipher = Cipher(seal: (Bytes, Bytes, Bytes) -> Bytes, unseal: (Bytes, Bytes) -> Option<Bytes>) {

    ghost predicate Inverts() {
      forall key, nonce, plain :: unseal(key, seal(key, nonce, plain)) == Some(plain)
    }

    /** The bytes sent for `plain`: sealed when there is a session key; a key of another length is an error. */
    function Protect(key: Bytes, nonce: Bytes, plain: Bytes): Option<Bytes> {
      if |key| == 0 then Some(plain)
      else if |key| != SPACE_KEY_SIZE then None
      else Some(seal(key, nonce, plain))
    }

    /** The plain bytes of what was received. */
    function Unprotect(key: Bytes, data: Bytes): Option<Bytes> {
      if |key| == 0 then Some(data)
      else if |key| != SPACE_KEY_SIZE then None
      else unseal(key, data)
    }
  }

  /** Every protected message is read back under its key; another key length, or what does not open, is an error. */
  lemma ProtectRoundTrip(c: Cipher, key: Bytes, nonce: Bytes, plain: Bytes)
    requires c.Inverts()
    ensures |key| in {0, 32} <==> c.Protect(key, nonce, plain).Some?
    ensures c.Protect(key, nonce, plain).Some? ==>
              c.Unprotect(key, c.Protect(key, nonce, plain).value) == Some(plain)
    ensures forall data :: c.Unprotect(key, data) ==
              if |key| == 0 then Some(data) else if |key| == 32 then c.unseal(key, data) else None
  {
  }

  datatype Packet =
    | Start(fileName: string, fileSize: int, fileMTime: int)
    | Resume(resumeIndex: int)
    | ChunkPacket(hash: string, data: Bytes, size: nat, index: int)
    | End
    | Unknown(kind: string)

  /** The packet is chunk number `i` of the list, protected under the session key. */
  ghost predicate Carries(cipher: Cipher, key: Bytes, chunks: seq<Chunk>, i: int, p: Packet) {
    && 0 <= i < |chunks|
    && p.ChunkPacket?
    && p.index == i && p.hash == chunks[i].hash && p.size == chunks[i].size
    && exists nonce :: cipher.Protect(key, nonce, chunks[i].data) == Some(p.data)
  }
}
