/**
 * The client's EncryptionHandler: the same packet codec and replay window as
 * the server's, without key rotation and with a smaller statistics record.
 */
module ClientEncryption {
  import opened Common
  import opened Bytes
  import opened Exceptions
  import opened ReplayWindow
  import opened PacketCodec
  import Protocol

  /** get_statistics */
  datatype Statistics = Statistics(
    packetsEncrypted: nat, packetsDecrypted: nat, replayAttacksBlocked: nat,
    sendCounter: nat, recvCounter: nat)

  /** The ValueError a master key of the wrong length raises. */
  function KeySizeError(): Error {
    ValueError("Master key must be 32 bytes")
  }

  class EncryptionHandler {
    const aead: Aead
    const kdf: Kdf
    var masterKey: Key
    var sessionKey: Key
    var sendCounter: nat
    /** Reported by get_statistics; no operation changes it. */
    var recvCounter: nat
    var highestRecvCounter: nat
    var recvBitmap: nat
    var packetsEncrypted: nat
    var packetsDecrypted: nat
    var replayAttacksBlocked: nat

    ghost predicate Valid()
      reads this
    {
      |masterKey| == Protocol.KEY_SIZE && sessionKey == kdf(masterKey, SESSION_KEY_CONTEXT)
    }

    function RecvWindow(): Window
      reads this
    {
      Window(highestRecvCounter, recvBitmap)
    }

    constructor Init(aead: Aead, kdf: Kdf, masterKey: Key)
      requires |masterKey| == Protocol.KEY_SIZE
      ensures Valid()
      ensures this.aead == aead && this.kdf == kdf && this.masterKey == masterKey
      ensures sendCounter == 0 && recvCounter == 0 && RecvWindow() == INITIAL_WINDOW
      ensures packetsEncrypted == 0 && packetsDecrypted == 0 && replayAttacksBlocked == 0
    {
      this.aead := aead;
      this.kdf := kdf;
      this.masterKey := masterKey;
      this.sessionKey := kdf(masterKey, SESSION_KEY_CONTEXT);
      sendCounter := 0;
      recvCounter := 0;
      highestRecvCounter := 0;
      recvBitmap := 0;
      packetsEncrypted := 0;
      packetsDecrypted := 0;
      replayAttacksBlocked := 0;
    }

    /**
     * `EncryptionHandler(master_key)`: a given key must be 32 bytes; None
     * means a fresh random key, passed in here as `randomKey`.
     */
    static method Create(aead: Aead, kdf: Kdf, masterKey: Option<Key>, randomKey: Key)
      returns (r: Result<EncryptionHandler, Error>)
      requires |randomKey| == Protocol.KEY_SIZE
      ensures r.Failure? <==> masterKey.Some? && |masterKey.value| != Protocol.KEY_SIZE
      ensures r.Failure? ==> r.error == KeySizeError()
      ensures r.Success? ==> fresh(r.value) && r.value.Valid()
      ensures r.Success? ==> r.value.masterKey == (if masterKey.Some? then masterKey.value else randomKey)
      ensures r.Success? ==> r.value.aead == aead && r.value.sendCounter == 0 && r.value.RecvWindow() == INITIAL_WINDOW
      ensures r.Success? ==> r.value.packetsEncrypted == 0 && r.value.packetsDecrypted == 0 && r.value.replayAttacksBlocked == 0
    {
      if masterKey.None? {
        var h := new EncryptionHandler.Init(aead, kdf, randomKey);
        r := Success(h);
      } else if |masterKey.value| != Protocol.KEY_SIZE {
        r := Failure(KeySizeError());
      } else {
        var h := new EncryptionHandler.Init(aead, kdf, masterKey.value);
        r := Success(h);
      }
    }

    /**
     * encrypt(plaintext) at wall-clock second `now`: the packet carries the
     * current send counter, which then advances by exactly one. A failure
     * changes nothing.
     */
    method Encrypt(plaintext: seq<Byte>, now: int) returns (r: Result<seq<Byte>, Error>)
      requires Valid()
      modifies this
      ensures Valid()
      ensures r == SealPacket(aead, sessionKey, old(sendCounter), now, plaintext)
      ensures r.Success? ==> sendCounter == old(sendCounter) + 1 && packetsEncrypted == old(packetsEncrypted) + 1
      ensures r.Failure? ==> sendCounter == old(sendCounter) && packetsEncrypted == old(packetsEncrypted)
      ensures masterKey == old(masterKey) && sessionKey == old(sessionKey) && recvCounter == old(recvCounter)
      ensures RecvWindow() == old(RecvWindow())
      ensures packetsDecrypted == old(packetsDecrypted) && replayAttacksBlocked == old(replayAttacksBlocked)
    {
      r := SealPacket(aead, sessionKey, sendCounter, now, plaintext);
      if r.Success? {
        sendCounter := sendCounter + 1;
        packetsEncrypted := packetsEncrypted + 1;
      }
    }

    /**
     * decrypt(packet): refuse short packets, then replays (counting them),
     * then forgeries; only a packet whose tag verifies moves the window.
     */
    method Decrypt(packet: seq<Byte>) returns (r: Result<seq<Byte>, Error>)
      requires Valid()
      modifies this
      ensures Valid()
      ensures r == Receive(aead, sessionKey, old(RecvWindow()), packet).result
      ensures RecvWindow() == Receive(aead, sessionKey, old(RecvWindow()), packet).window
      ensures packetsDecrypted == old(packetsDecrypted) + (if r.Success? then 1 else 0)
      ensures replayAttacksBlocked == old(replayAttacksBlocked) +
        (if Receive(aead, sessionKey, old(RecvWindow()), packet).replayed then 1 else 0)
      ensures masterKey == old(masterKey) && sessionKey == old(sessionKey)
      ensures sendCounter == old(sendCounter) && recvCounter == old(recvCounter)
      ensures packetsEncrypted == old(packetsEncrypted)
    {
      var receipt := Receive(aead, sessionKey, RecvWindow(), packet);
      r := receipt.result;
      if receipt.replayed {
        replayAttacksBlocked := replayAttacksBlocked + 1;
      }
      if r.Success? {
        packetsDecrypted := packetsDecrypted + 1;
      }
      highestRecvCounter := receipt.window.highest;
      recvBitmap := receipt.window.bitmap;
    }

    /** get_statistics */
    function GetStatistics(): (s: Statistics)
      reads this
      ensures s.sendCounter == sendCounter && s.packetsDecrypted == packetsDecrypted
    {
      Statistics(packetsEncrypted, packetsDecrypted, replayAttacksBlocked, sendCounter, recvCounter)
    }
  }
}
