/**
 * The server's per-connection EncryptionHandler: a send counter stamped on
 * every outgoing packet, a replay window over incoming counters, statistics,
 * and key rotation.
 */
module ServerEncryption {
  import opened Common
  import opened Bytes
  import opened Exceptions
  import opened ReplayWindow
  import opened PacketCodec
  import Protocol

  /** get_statistics */
  datatype Statistics = Statistics(
    packetsEncrypted: nat, packetsDecrypted: nat, replayAttacksBlocked: nat,
    sendCounter: nat, recvCounter: nat, highestRecvCounter: nat)

  /** The ValueError a master key of the wrong length raises. */
  function KeySizeError(): Error {
    ValueError("Master key must be 32 bytes")
  }

  class EncryptionHandler {
    const aead: Aead
    const kdf: Kdf
    var masterKey: Key
    var sessionKey: Key
    var sendCounter: nat
    /** Reported by get_statistics; no operation changes it. */
    var recvCounter: nat
    var highestRecvCounter: nat
    var recvBitmap: nat
    var packetsEncrypted: nat
    var packetsDecrypted: nat
    var replayAttacksBlocked: nat

    ghost predicate Valid()
      reads this
    {
      |masterKey| == Protocol.KEY_SIZE && sessionKey == kdf(masterKey, SESSION_KEY_CONTEXT)
    }

    function RecvWindow(): Window
      reads this
    {
      Window(highestRecvCounter, recvBitmap)
    }

    constructor Init(aead: Aead, kdf: Kdf, masterKey: Key)
      requires |masterKey| == Protocol.KEY_SIZE
      ensures Valid()
      ensures this.aead == aead && this.kdf == kdf && this.masterKey == masterKey
      ensures sendCounter == 0 && recvCounter == 0 && RecvWindow() == INITIAL_WINDOW
      ensures packetsEncrypted == 0 && packetsDecrypted == 0 && replayAttacksBlocked == 0
    {
      this.aead := aead;
      this.kdf := kdf;
      this.masterKey := masterKey;
      this.sessionKey := kdf(masterKey, SESSION_KEY_CONTEXT);
      sendCounter := 0;
      recvCounter := 0;
      highestRecvCounter := 0;
      recvBitmap := 0;
      packetsEncrypted := 0;
      packetsDecrypted := 0;
      replayAttacksBlocked := 0;
    }

    /**
     * `EncryptionHandler(master_key)`: a given key must be 32 bytes; None
     * means a fresh random key, passed in here as `randomKey`.
     */
    static method Create(aead: Aead, kdf: Kdf, masterKey: Option<Key>, randomKey: Key)
      returns (r: Result<EncryptionHandler, Error>)
      requires |randomKey| == Protocol.KEY_SIZE
      ensures r.Failure? <==> masterKey.Some? && |masterKey.value| != Protocol.KEY_SIZE
      ensures r.Failure? ==> r.error == KeySizeError()
      ensures r.Success? ==> fresh(r.value) && r.value.Valid()
      ensures r.Success? ==> r.value.masterKey == (if masterKey.Some? then masterKey.value else randomKey)
      ensures r.Success? ==> r.value.aead == aead && r.value.sendCounter == 0 && r.value.RecvWindow() == INITIAL_WINDOW
      ensures r.Success? ==> r.value.packetsEncrypted == 0 && r.value.packetsDecrypted == 0 && r.value.replayAttacksBlocked == 0
    {
      if masterKey.None? {
        var h := new EncryptionHandler.Init(aead, kdf, randomKey);
        r := Success(h);
      } else if |masterKey.value| != Protocol.KEY_SIZE {
        r := Failure(KeySizeError());
      } else {
        var h := new EncryptionHandler.Init(aead, kdf, masterKey.value);
        r := Success(h);
      }
    }

    /**
     * encrypt(plaintext) at wall-clock second `now`: the packet carries the
     * current send counter, which then advances by exactly one. A failure
     * changes nothing.
     */
    method Encrypt(plaintext: seq<Byte>, now: int) returns (r: Result<seq<Byte>, Error>)
      requires Valid()
      modifies this
      ensures Valid()
      ensures r == SealPacket(aead, sessionKey, old(sendCounter), now, plaintext)
      ensures r.Success? ==> sendCounter == old(sendCounter) + 1 && packetsEncrypted == old(packetsEncrypted) + 1
      ensures r.Failure? ==> sendCounter == old(sendCounter) && packetsEncrypted == old(packetsEncrypted)
      ensures masterKey == old(masterKey) && sessionKey == old(sessionKey) && recvCounter == old(recvCounter)
      ensures RecvWindow() == old(RecvWindow())
      ensures packetsDecrypted == old(packetsDecrypted) && replayAttacksBlocked == old(replayAttacksBlocked)
    {
      r := SealPacket(aead, sessionKey, sendCounter, now, plaintext);
      if r.Success? {
        sendCounter := sendCounter + 1;
        packetsEncrypted := packetsEncrypted + 1;
      }
    }

    /**
     * decrypt(packet): refuse short packets, then replays (counting them),
     * then forgeries; only a packet whose tag verifies moves the window.
     */
    method Decrypt(packet: seq<Byte>) returns (r: Result<seq<Byte>, Error>)
      requires Valid()
      modifies this
      ensures Valid()
      ensures r == Receive(aead, sessionKey, old(RecvWindow()), packet).result
      ensures RecvWindow() == Receive(aead, sessionKey, old(RecvWindow()), packet).window
      ensures packetsDecrypted == old(packetsDecrypted) + (if r.Success? then 1 else 0)
      ensures replayAttacksBlocked == old(replayAttacksBlocked) +
        (if Receive(aead, sessionKey, old(RecvWindow()), packet).replayed then 1 else 0)
      ensures masterKey == old(masterKey) && sessionKey == old(sessionKey)
      ensures sendCounter == old(sendCounter) && recvCounter == old(recvCounter)
      ensures packetsEncrypted == old(packetsEncrypted)
    {
      var receipt := Receive(aead, sessionKey, RecvWindow(), packet);
      r := receipt.result;
      if receipt.replayed {
        replayAttacksBlocked := replayAttacksBlocked + 1;
      }
      if r.Success? {
        packetsDecrypted := packetsDecrypted + 1;
      }
      highestRecvCounter := receipt.window.highest;
      recvBitmap := receipt.window.bitmap;
    }

    /**
     * rekey(new_master_key): a key of the wrong length is refused and changes
     * nothing; otherwise the keys are replaced and the send counter restarts
     * at 0, while the receive window is kept so in-flight packets still drain.
     */
    method Rekey(newMasterKey: Key) returns (r: Option<Error>)
      requires Valid()
      modifies this
      ensures Valid()
      ensures r.Some? <==> |newMasterKey| != Protocol.KEY_SIZE
      ensures r.Some? ==> r.value == KeySizeError() && masterKey == old(masterKey) && sendCounter == old(sendCounter)
      ensures r.None? ==> masterKey == newMasterKey && sendCounter == 0
      ensures RecvWindow() == old(RecvWindow()) && recvCounter == old(recvCounter)
      ensures packetsEncrypted == old(packetsEncrypted) && packetsDecrypted == old(packetsDecrypted)
      ensures replayAttacksBlocked == old(replayAttacksBlocked)
    {
      if |newMasterKey| != Protocol.KEY_SIZE {
        return Some(KeySizeError());
      }
      masterKey := newMasterKey;
      sessionKey := kdf(masterKey, SESSION_KEY_CONTEXT);
      sendCounter := 0;
      r := None;
    }

    /** get_statistics */
    function GetStatistics(): (s: Statistics)
      reads this
      ensures s.sendCounter == sendCounter && s.highestRecvCounter == RecvWindow().highest
    {
      Statistics(packetsEncrypted, packetsDecrypted, replayAttacksBlocked,
        sendCounter, recvCounter, highestRecvCounter)
    }
  }

  /** encrypt_packet: a fresh handler over `key` seals one packet, with send counter 0. */
  function EncryptPacket(aead: Aead, kdf: Kdf, key: Key, now: int, plaintext: seq<Byte>): (r: Result<seq<Byte>, Error>)
    ensures |key| != Protocol.KEY_SIZE ==> r == Failure(KeySizeError())
    ensures |key| == Protocol.KEY_SIZE ==> r.Success?
    ensures r.Success? && TagIsFixedSize(aead) ==>
      ParsePacket(r.value).Some? && ParsePacket(r.value).value.counter == 0
  {
    if |key| != Protocol.KEY_SIZE then Failure(KeySizeError())
    else
      var sessionKey := kdf(key, SESSION_KEY_CONTEXT);
      assert TagIsFixedSize(aead) ==>
        ParsePacket(SealPacket(aead, sessionKey, 0, now, plaintext).value).Some? &&
        ParsePacket(SealPacket(aead, sessionKey, 0, now, plaintext).value).value.counter == 0 by {
        if TagIsFixedSize(aead) {
          SealedPacketCounter(aead, sessionKey, 0, now, plaintext);
        }
      }
      SealPacket(aead, sessionKey, 0, now, plaintext)
  }

  /** decrypt_packet: a fresh handler over `key`, whose window has seen nothing, opens one packet. */
  function DecryptPacket(aead: Aead, kdf: Kdf, key: Key, packet: seq<Byte>): (r: Result<seq<Byte>, Error>)
    ensures |key| != Protocol.KEY_SIZE ==> r == Failure(KeySizeError())
    ensures |key| == Protocol.KEY_SIZE && |packet| < 24 ==>
      r.Failure? && r.error.Vpn? && r.error.exc.cls == Decryption
    ensures r.Failure? && r.error.Vpn? ==> r.error.exc.cls != ReplayAttack
  {
    if |key| != Protocol.KEY_SIZE then Failure(KeySizeError())
    else
      var sessionKey := kdf(key, SESSION_KEY_CONTEXT);
      ReceiveCases(aead, sessionKey, INITIAL_WINDOW, packet);
      CheckSpec(INITIAL_WINDOW, ParsePacketCounter(packet));
      Receive(aead, sessionKey, INITIAL_WINDOW, packet).result
  }

  /** The counter decrypt would read from a packet (0 when too short to hold one). */
  function ParsePacketCounter(packet: seq<Byte>): nat {
    if ParsePacket(packet).Some? then ParsePacket(packet).value.counter else 0
  }

  /**
   * The one-shot helpers do not round-trip: under an AEAD that binds its
   * nonce, decrypt_packet refuses what encrypt_packet sealed with the same
   * key, unless the clock's low 32 bits happen to be zero.
   */
  lemma OneShotRoundTrip(aead: Aead, kdf: Kdf, key: Key, now: int, plaintext: seq<Byte>)
    requires IsAead(aead) && BindsNonce(aead) && |key| == Protocol.KEY_SIZE
    ensures var r := DecryptPacket(aead, kdf, key, EncryptPacket(aead, kdf, key, now, plaintext).value);
      (r == Success(plaintext) <==> Timestamp(now) == 0) &&
      (r.Failure? ==> r.error.Vpn? && r.error.exc.cls == Decryption)
  {
    var sessionKey := kdf(key, SESSION_KEY_CONTEXT);
    CheckSpec(INITIAL_WINDOW, 0);
    NoncesAgreeIffZeroTimestamp(0, now);
    if Timestamp(now) == 0 {
      assert SealPacket(aead, sessionKey, 0, now, plaintext) == SealPacketZeroTimestamp(aead, sessionKey, 0, plaintext);
      SealZeroTimestampOpens(aead, sessionKey, INITIAL_WINDOW, 0, plaintext);
    } else {
      SealedPacketRefused(aead, sessionKey, INITIAL_WINDOW, 0, now, plaintext);
    }
  }
}
