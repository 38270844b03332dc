/**
 * The data-plane packet codec shared by the client and server encryption
 * handlers: how the 12-byte nonce is built, the wire layout
 * counter(8) ‖ ciphertext ‖ tag(16), and the decision a handler takes on
 * an incoming packet.
 *
 * ChaCha20-Poly1305 (section 2.8 of RFC 8439) and HKDF-SHA256 (RFC 5869)
 * are not modelled; they are function values given to the handlers, and the
 * facts the proofs need about them are the predicates below.
 */
module PacketCodec {
  import opened Common
  import opened Bytes
  import opened Text
  import opened Exceptions
  import opened ReplayWindow
  import Protocol

  type Key = seq<Byte>

  /** An AEAD: `seal(key, nonce, plaintext)` gives (ciphertext, tag); `open` checks and decrypts. */
  datatype Aead = Aead(
    seal: (Key, seq<Byte>, seq<Byte>) -> (seq<Byte>, seq<Byte>),
    open: (Key, seq<Byte>, seq<Byte>, seq<Byte>) -> Option<seq<Byte>>)

  /** HKDF-SHA256 with salt KDF_INFO and a 32-byte output: (master key, context) to key. */
  type Kdf = (Key, string) -> Key

  /** The Poly1305 tag is always 16 bytes. */
  ghost predicate TagIsFixedSize(aead: Aead) {
    forall k, n, p :: |aead.seal(k, n, p).1| == Protocol.TAG_SIZE
  }

  /** open(k, n, seal(k, n, p)) == p */
  ghost predicate OpensWhatItSeals(aead: Aead) {
    forall k, n, p :: aead.open(k, n, aead.seal(k, n, p).0, aead.seal(k, n, p).1) == Some(p)
  }

  /** A sealed message does not open under any other nonce (tag forgery is excluded). */
  ghost predicate BindsNonce(aead: Aead) {
    forall k, n, m, p :: n != m ==> aead.open(k, m, aead.seal(k, n, p).0, aead.seal(k, n, p).1).None?
  }

  ghost predicate IsAead(aead: Aead) {
    TagIsFixedSize(aead) && OpensWhatItSeals(aead)
  }

  /** The context under which the session key is derived from the master key. */
  const SESSION_KEY_CONTEXT: string := "session_key"

  /** The largest counter plus one that struct.pack('!Q') accepts. */
  const COUNTER_LIMIT: nat := 0x1_0000_0000_0000_0000

  /** The timestamp half of the nonce: `int(time.time()) & 0xFFFFFFFF`. */
  function Timestamp(now: int): (t: nat)
    ensures t < 0x1_0000_0000
  {
    now % 0x1_0000_0000
  }

  /** The nonce encrypt uses: counter(8) ‖ timestamp(4), both big-endian. */
  function EncryptNonce(counter: nat, now: int): (n: seq<Byte>)
    requires counter < COUNTER_LIMIT
    ensures |n| == Protocol.NONCE_SIZE
  {
    Pow256Values();
    ToBigEndian(counter, 8) + ToBigEndian(Timestamp(now), 4)
  }

  /** The nonce decrypt rebuilds: counter(8) ‖ 0(4). */
  function DecryptNonce(counter: nat): (n: seq<Byte>)
    requires counter < COUNTER_LIMIT
    ensures |n| == Protocol.NONCE_SIZE
  {
    Pow256Values();
    ToBigEndian(counter, 8) + ToBigEndian(0, 4)
  }

  /** The two nonces agree exactly when the timestamp is zero. */
  lemma NoncesAgreeIffZeroTimestamp(counter: nat, now: int)
    requires counter < COUNTER_LIMIT
    ensures EncryptNonce(counter, now) == DecryptNonce(counter) <==> Timestamp(now) == 0
  {
    Pow256Values();
    var n1, n2 := EncryptNonce(counter, now), DecryptNonce(counter);
    if n1 == n2 {
      assert n1[8..] == ToBigEndian(Timestamp(now), 4);
      assert n2[8..] == ToBigEndian(0, 4);
      FromToBigEndian(Timestamp(now), 4);
      FromToBigEndian(0, 4);
    }
  }

  /** The wire form of an encrypted packet. */
  function EncodePacket(counter: nat, ciphertext: seq<Byte>, tag: seq<Byte>): (packet: seq<Byte>)
    requires counter < COUNTER_LIMIT
    ensures |packet| == 8 + |ciphertext| + |tag|
  {
    Pow256Values();
    ToBigEndian(counter, 8) + ciphertext + tag
  }

  datatype PacketParts = PacketParts(counter: nat, ciphertext: seq<Byte>, tag: seq<Byte>)

  /** decrypt's slicing: counter = bytes 0..8, ciphertext = [8:-16], tag = last 16; None below 24 bytes. */
  function ParsePacket(packet: seq<Byte>): (r: Option<PacketParts>)
    ensures r.None? <==> |packet| < 24
    ensures r.Some? ==> r.value.counter < COUNTER_LIMIT && |r.value.tag| == Protocol.TAG_SIZE
  {
    if |packet| < 24 then None
    else
      Pow256Values();
      Some(PacketParts(FromBigEndian(packet[..8]), packet[8..|packet| - 16], packet[|packet| - 16..]))
  }

  /** Parsing an encoded packet recovers its counter, ciphertext and 16-byte tag. */
  lemma ParseEncodedPacket(counter: nat, ciphertext: seq<Byte>, tag: seq<Byte>)
    requires counter < COUNTER_LIMIT && |tag| == Protocol.TAG_SIZE
    ensures ParsePacket(EncodePacket(counter, ciphertext, tag)) == Some(PacketParts(counter, ciphertext, tag))
  {
    Pow256Values();
    var p := EncodePacket(counter, ciphertext, tag);
    assert p[..8] == ToBigEndian(counter, 8);
    FromToBigEndian(counter, 8);
    assert p[8..|p| - 16] == ciphertext;
    assert p[|p| - 16..] == tag;
  }

  /** Every packet of 24 bytes or more is the encoding of its parsed parts. */
  lemma EncodeParsedPacket(packet: seq<Byte>)
    requires |packet| >= 24
    ensures var parts := ParsePacket(packet).value;
      EncodePacket(parts.counter, parts.ciphertext, parts.tag) == packet
  {
    Pow256Values();
    ToFromBigEndian(packet[..8]);
    assert packet == packet[..8] + packet[8..|packet| - 16] + packet[|packet| - 16..];
  }

  /** The message EncryptionError carries when struct.pack('!Q') refuses the counter. */
  const COUNTER_OVERFLOW_MESSAGE: string := "Encryption failed: argument out of range"

  /**
   * encrypt as written: seal under counter ‖ timestamp and emit
   * counter ‖ ciphertext ‖ tag, or EncryptionError once the counter no longer
   * fits in 8 bytes.
   */
  function SealPacket(aead: Aead, key: Key, counter: nat, now: int, plaintext: seq<Byte>): (r: Result<seq<Byte>, Error>)
    ensures r.Failure? <==> counter >= COUNTER_LIMIT
    ensures r.Failure? ==> r.error == Vpn(Raise(Encryption, Some(COUNTER_OVERFLOW_MESSAGE)))
    ensures r.Success? ==> var sealed := aead.seal(key, EncryptNonce(counter, now), plaintext);
      r.value == EncodePacket(counter, sealed.0, sealed.1)
  {
    if counter >= COUNTER_LIMIT then Failure(Vpn(Raise(Encryption, Some(COUNTER_OVERFLOW_MESSAGE))))
    else
      var sealed := aead.seal(key, EncryptNonce(counter, now), plaintext);
      Success(EncodePacket(counter, sealed.0, sealed.1))
  }

  /** The counter a sealed packet carries is the sender's counter at the time of sealing. */
  lemma SealedPacketCounter(aead: Aead, key: Key, counter: nat, now: int, plaintext: seq<Byte>)
    requires TagIsFixedSize(aead)
    requires counter < COUNTER_LIMIT
    ensures SealPacket(aead, key, counter, now, plaintext).Success?
    ensures ParsePacket(SealPacket(aead, key, counter, now, plaintext).value).Some?
    ensures ParsePacket(SealPacket(aead, key, counter, now, plaintext).value).value.counter == counter
  {
    var sealed := aead.seal(key, EncryptNonce(counter, now), plaintext);
    ParseEncodedPacket(counter, sealed.0, sealed.1);
  }

  /** What a handler decides about an incoming packet, before any state changes. */
  datatype Verdict =
    | TooShort
    | Replayed(counter: nat)
    | Forged(counter: nat)
    | Accepted(counter: nat, plaintext: seq<Byte>)

  /**
   * decrypt's decision: too short, then the replay check, then the tag check
   * under the rebuilt nonce counter ‖ 0.
   */
  function Judge(aead: Aead, key: Key, w: Window, packet: seq<Byte>): (v: Verdict)
    ensures v.TooShort? <==> |packet| < 24
    ensures v.Replayed? ==> ParsePacket(packet).Some? && v.counter == ParsePacket(packet).value.counter && !Check(w, v.counter)
    ensures v.Forged? || v.Accepted? ==> ParsePacket(packet).Some? && v.counter == ParsePacket(packet).value.counter && Check(w, v.counter)
    ensures v.Accepted? ==> var parts := ParsePacket(packet).value;
      aead.open(key, DecryptNonce(parts.counter), parts.ciphertext, parts.tag) == Some(v.plaintext)
  {
    match ParsePacket(packet)
    case None => TooShort
    case Some(parts) =>
      if !Check(w, parts.counter) then Replayed(parts.counter)
      else
        match aead.open(key, DecryptNonce(parts.counter), parts.ciphertext, parts.tag)
        case None => Forged(parts.counter)
        case Some(plaintext) => Accepted(parts.counter, plaintext)
  }

  /** The window after a verdict: only an accepted packet moves it. */
  function NextWindow(w: Window, v: Verdict): (r: Window)
    ensures !v.Accepted? ==> r == w
  {
    if v.Accepted? then Update(w, v.counter) else w
  }

  /** The exception decrypt raises for each refused verdict. */
  function RefusalError(v: Verdict): (e: Error)
    requires !v.Accepted?
    ensures v.Replayed? <==> e.Vpn? && e.exc.cls == ReplayAttack
    ensures !v.Replayed? ==> e.Vpn? && e.exc.cls == Decryption
  {
    match v
    case TooShort =>
      // DecryptionError("Packet too short") is caught and wrapped in a second DecryptionError.
      Vpn(Raise(Decryption, Some("Decryption failed: " + Str(Raise(Decryption, Some("Packet too short"))))))
    case Replayed(c) => Vpn(Raise(ReplayAttack, Some("Replay detected: counter=" + NatToString(c))))
    case Forged(_) => Vpn(Raise(Decryption, Some("Decryption failed: MAC check failed")))
  }

  /** What decrypt returns or raises for a verdict. */
  function Outcome(v: Verdict): (r: Result<seq<Byte>, Error>)
    ensures r.Success? <==> v.Accepted?
    ensures v.Accepted? ==> r.value == v.plaintext
  {
    if v.Accepted? then Success(v.plaintext) else Failure(RefusalError(v))
  }

  /** One call of decrypt: the new window, the result, and whether a replay was counted. */
  datatype Receipt = Receipt(window: Window, result: Result<seq<Byte>, Error>, replayed: bool)

  function Receive(aead: Aead, key: Key, w: Window, packet: seq<Byte>): Receipt {
    var v := Judge(aead, key, w, packet);
    Receipt(NextWindow(w, v), Outcome(v), v.Replayed?)
  }

  /**
   * decrypt's effect case by case: a short packet or a forgery leaves the
   * window alone, a replay is counted and leaves it alone, and an accepted
   * packet is recorded so that its counter is refused from then on.
   */
  lemma ReceiveCases(aead: Aead, key: Key, w: Window, packet: seq<Byte>)
    ensures var rc := Receive(aead, key, w, packet);
      (|packet| < 24 ==> !rc.replayed && rc.result.Failure? && rc.result.error.Vpn? &&
                         rc.result.error.exc.cls == Decryption) &&
      (rc.result.Failure? ==> rc.window == w) &&
      (rc.replayed ==> rc.result.Failure? && rc.result.error.Vpn? && rc.result.error.exc.cls == ReplayAttack) &&
      (rc.result.Success? ==>
        var counter := ParsePacket(packet).value.counter;
        Check(w, counter) && rc.window == Update(w, counter) && !Check(rc.window, counter))
  {
    var v := Judge(aead, key, w, packet);
    if v.Accepted? {
      UpdateRejects(w, v.counter);
    }
  }

  /** Delivering the same packet twice: the second delivery is refused as a replay. */
  lemma AcceptedPacketReplayed(aead: Aead, key: Key, w: Window, packet: seq<Byte>)
    requires Judge(aead, key, w, packet).Accepted?
    ensures var v := Judge(aead, key, w, packet);
      Judge(aead, key, NextWindow(w, v), packet) == Replayed(v.counter)
  {
    var v := Judge(aead, key, w, packet);
    UpdateRejects(w, v.counter);
  }

  /**
   * encrypt and decrypt disagree on the nonce: under an AEAD that binds its
   * nonce, a packet sealed at any time whose low 32 bits are not zero is
   * refused as forged by a receiver that has not seen its counter.
   */
  lemma SealedPacketRefused(aead: Aead, key: Key, w: Window, counter: nat, now: int, plaintext: seq<Byte>)
    requires TagIsFixedSize(aead) && BindsNonce(aead)
    requires counter < COUNTER_LIMIT && Check(w, counter)
    requires Timestamp(now) != 0
    ensures Judge(aead, key, w, SealPacket(aead, key, counter, now, plaintext).value) == Forged(counter)
  {
    var sealed := aead.seal(key, EncryptNonce(counter, now), plaintext);
    ParseEncodedPacket(counter, sealed.0, sealed.1);
    NoncesAgreeIffZeroTimestamp(counter, now);
  }

  /** The nonce encrypt would need for decrypt to open its packets: counter ‖ 0. */
  function SealPacketZeroTimestamp(aead: Aead, key: Key, counter: nat, plaintext: seq<Byte>): (r: Result<seq<Byte>, Error>)
    ensures r.Failure? <==> counter >= COUNTER_LIMIT
    ensures r.Success? ==> var sealed := aead.seal(key, DecryptNonce(counter), plaintext);
      r.value == EncodePacket(counter, sealed.0, sealed.1)
  {
    if counter >= COUNTER_LIMIT then Failure(Vpn(Raise(Encryption, Some(COUNTER_OVERFLOW_MESSAGE))))
    else
      var sealed := aead.seal(key, DecryptNonce(counter), plaintext);
      Success(EncodePacket(counter, sealed.0, sealed.1))
  }

  /** With the nonces agreeing, what one side seals the other opens, once. */
  lemma SealZeroTimestampOpens(aead: Aead, key: Key, w: Window, counter: nat, plaintext: seq<Byte>)
    requires IsAead(aead)
    requires counter < COUNTER_LIMIT && Check(w, counter)
    ensures Judge(aead, key, w, SealPacketZeroTimestamp(aead, key, counter, plaintext).value) == Accepted(counter, plaintext)
  {
    var sealed := aead.seal(key, DecryptNonce(counter), plaintext);
    ParseEncodedPacket(counter, sealed.0, sealed.1);
  }
}
