# VPN tunnel core, modelled in Dafny

This project models the core of a small Python VPN:

- **Wire protocol.** Protocol constants, message and error code tables, version checking and the client address pool. The `MessageFormat` header codec, the length-prefixed `PacketFramer` and the receive-side `StreamBuffer`.
- **Errors.** The `VPNException` hierarchy and its error codes.
- **Tunnel encryption.** The per-connection ChaCha20-Poly1305 `EncryptionHandler`, on the server and on the client. It covers the 8-byte counter packet layout, the 64-packet replay window and key rotation.
- **IP packet processing.** The IP packet processors on both ends: validation, statistics, and IPv4/IPv6 header extraction.
- **Server state.**
  - The server's in-memory `SessionManager` and its `ClientSession` objects.
  - The database layer: the `User`, `Session` and `ConnectionLog` rows, `UserRepository` and `SessionRepository`.
  - The `AuthHandler`, which ties login, session creation, token validation, termination and the IP pool together.
- **Client state.** The client's `ConnectionManager` state machine and its `AutoReconnect` backoff loop.
- **Configuration.** The client and server configuration loaders: defaults, deep merge, dotted-path `get` and `set`.

The model takes the source's own form:

- **Objects whose methods update fields** are Dafny classes with `modifies` frames. This covers the handlers, processors, managers, repositories, loaders and the stream buffer.
- **The database** is one `Database` object holding the three tables as sequences of row values, plus the id counters. A query's `.first()` is the first matching row.
- **Pure helpers** are functions with lemmas. These are the codecs, the replay window arithmetic, the config trees and the ORM row methods.
- **Foreign primitives are parameters.** ChaCha20-Poly1305, HKDF, Argon2 and msgpack are function-valued parameters. Each comes with the property the proofs rely on: an AEAD opens what it seals, a hash verifies exactly its own password, msgpack decodes what it encoded.
- **Time and randomness are inputs.** Clocks are integer-second inputs. Random keys, salts and tokens are inputs too. The results of awaited network calls are inputs as well.

## Model

| member | source | states |
|---|---|---|
| Protocol.MessageTypeOf | shared/protocol.py:100-132 | `MessageType(code)` succeeds only with the member whose value is `code` |
| Protocol.MessageTypeCodes | shared/protocol.py:100-132 | every message type has a one-byte code and `MessageType(code)` gives it back |
| Protocol.PacketTypeOf | shared/protocol.py:135-140 | `PacketType(code)` succeeds only with the member whose value is `code` |
| Protocol.PacketTypeCodes | shared/protocol.py:135-140 | every packet type is recovered from its code |
| Protocol.ErrorCodeOf | shared/protocol.py:165-208 | `ErrorCode(code)` succeeds only with the member whose value is `code` |
| Protocol.ErrorCodeCodes | shared/protocol.py:165-208 | every error code is recovered from its value |
| Protocol.UnknownTextInjective | shared/protocol.py:238-263 | the `UNKNOWN(n)` texts of different codes differ |
| Protocol.UnknownTextEndsInParen | shared/protocol.py:238-263 | an `UNKNOWN(n)` text ends in `)` |
| Protocol.MessageNameNoParen | shared/protocol.py:100-132 | no message type name ends in `)`, so names and unknown texts never collide |
| Protocol.ErrorNameNoParen | shared/protocol.py:165-208 | no error code name ends in `)` |
| Protocol.MessageNamesDistinct | shared/protocol.py:100-132 | distinct message types have distinct names |
| Protocol.ErrorNamesDistinct | shared/protocol.py:165-208 | distinct error codes have distinct names |
| Protocol.PacketTypeToString | shared/protocol.py:238-243 | the text is a member name exactly when the code is a packet type, and an `UNKNOWN(n)` text ending in `)` otherwise |
| Protocol.MessageTypeToString | shared/protocol.py:246-251 | the text is a member name exactly when the code is a message type, and an `UNKNOWN(n)` text otherwise |
| Protocol.ErrorCodeToString | shared/protocol.py:254-259 | the text is a member name exactly when the code is an error code, and an `UNKNOWN_ERROR(n)` text otherwise |
| Protocol.MessageTypeToStringInjective | shared/protocol.py:246-251 | `message_type_to_string` maps different codes to different strings |
| Protocol.ErrorCodeToStringInjective | shared/protocol.py:254-263 | `error_code_to_string` maps different codes to different strings |
| Protocol.ExceptionCodesMatchErrorCodes | shared/exceptions.py:133-173 | the session, network and version-mismatch exception codes equal the `ErrorCode` values of the same name |
| Protocol.ExceptionCodeIsErrorCode | shared/exceptions.py:7-195 | every exception class's default code is a member of `ErrorCode` |
| Protocol.ExpectedVersionParts | shared/protocol.py:13 | `PROTOCOL_VERSION` "1.0.0" splits into major 1, minor 0 |
| Protocol.ValidateProtocolVersion | shared/protocol.py:211-235 | True only for three integer parts with the expected major and a minor no newer than ours; a part that is not an integer gives False |
| Protocol.VersionAcceptance | shared/protocol.py:211-235 | a version "M.m.p" is accepted iff M equals the expected major and m is at most the expected minor |
| Protocol.OwnVersionAccepted | shared/protocol.py:211-235 | the protocol's own version is accepted |
| Protocol.GetNextClientIp | shared/protocol.py:266-282 | raises ValueError exactly for indices outside 0..253, as written |
| Protocol.GetClientIp | shared/protocol.py:266-282 | the corrected allocator: refuses indices outside 0..252, and every address it gives maps back to its index |
| Protocol.IpToClientIndex | shared/protocol.py:285-307 | a successful result lies in 0..252, and every other input raises ValueError |
| Protocol.ClientAddressParts | shared/protocol.py:281 | a pool address splits into "10", "8", "0" and the octet |
| Protocol.ClientAddressIndex | shared/protocol.py:285-307 | "10.8.0.n" for n in 2..254 maps to index n-2 |
| Protocol.ClientIpRoundTrip | shared/protocol.py:266-307 | for indices 0..252 `ip_to_client_index(get_next_client_ip(i)) == i` |
| Protocol.ClientIpLastIndexRejected | shared/protocol.py:279-307 | index 253 is accepted and yields "10.8.0.255", which `ip_to_client_index` rejects |
| Protocol.ClientIndexRoundTrip | shared/protocol.py:266-307 | the index of every accepted client address is given an address by the corrected allocator, and that address maps back to the same index |
| Protocol.CanonicalAddressRebuilt | shared/protocol.py:266-307 | an accepted address is rebuilt exactly from its index iff it is written "10.8.0." plus the octet's decimal digits; "10.8.0.05" keeps only its index |
| Exceptions.Raise | shared/exceptions.py:28-195 | a raised exception keeps its class and the given message, or the class's default message |
| Exceptions.RaisedCodeInFamilyBlock | shared/exceptions.py:28-195 | every concrete class's code is non-zero and its high nibble names its family |
| Exceptions.RaiseWithCode | shared/exceptions.py:7-20 | the root and family bases keep the caller's message and code |
| Exceptions.VersionMismatch | shared/exceptions.py:168-173 | the version-mismatch error is a ProtocolError with code 0x02 and names both versions |
| Exceptions.Str | shared/exceptions.py:22-25 | `str(e)`, the message with a `[Code n] ` prefix for a non-zero code; no contract of its own, its properties are the two rows below |
| Exceptions.StrEndsWithMessage | shared/exceptions.py:22-25 | `str(e)` ends with the message, and equals it exactly when the code is 0 |
| Exceptions.StrCarriesCode | shared/exceptions.py:22-25 | a non-zero code can be parsed back from the `[Code n] ` prefix of `str(e)` |
| Exceptions.FamilyCodes | shared/exceptions.py:35-110 | the credential, token, decryption, key-exchange and replay errors raise 0x11..0x13 and 0x41..0x43 whatever the message |
| Exceptions.AuthenticationCodes | shared/exceptions.py:28-54 | every authentication error's code lies in 0x10..0x13 |
| Exceptions.EncryptionCodes | shared/exceptions.py:84-110 | every encryption error's code lies in 0x40..0x43 |
| MessageFormat.VersionedPayload | shared/message_format.py:42-48 | the packed payload is the caller's plus "version": PROTOCOL_VERSION, and nothing else |
| MessageFormat.Pack | shared/message_format.py:27-62 | fails exactly when the message would exceed 65535 bytes; otherwise magic, big-endian body length, type byte, then the body |
| MessageFormat.Unpack | shared/message_format.py:65-110 | a success had the magic, the full body and a known type byte, and its payload is the body's decoding; every failure is a ProtocolError |
| MessageFormat.UnpackBody | shared/message_format.py:93-110 | the body step reads exactly the declared length and fails only with ProtocolError |
| MessageFormat.UnpackTooShort | shared/message_format.py:78-80 | fewer than 7 bytes raise "Message too short" |
| MessageFormat.UnpackBadMagic | shared/message_format.py:82-85 | a wrong magic raises "Invalid magic bytes" with the hex of the bytes read |
| MessageFormat.UnpackUnknownType | shared/message_format.py:89-93 | an unknown type byte raises "Unknown message type" |
| MessageFormat.UnpackIncomplete | shared/message_format.py:96-101 | a body shorter than its length field raises "Incomplete message" naming both sizes |
| MessageFormat.UnpackUndecodable | shared/message_format.py:103-110 | an undecodable body raises "Failed to deserialize payload" |
| MessageFormat.PackUnpack | shared/message_format.py:27-110 | unpacking a packed message, even with trailing bytes, yields its type and versioned payload |
| MessageFormat.Frame | shared/message_format.py:189-205 | fails exactly above 65535 bytes; otherwise a 2-byte big-endian length followed by the data |
| MessageFormat.Unframe | shared/message_format.py:208-234 | returns nothing and keeps the stream while a frame is incomplete; otherwise the stream is the frame followed by the rest |
| MessageFormat.UnframeFrame | shared/message_format.py:189-234 | unframing a framed block followed by anything gives back the block and the rest |
| MessageFormat.MessageExtent | shared/message_format.py:254-270 | a complete message at the buffer's head spans at least the header and at most the buffer |
| MessageFormat.StreamBuffer.Append | shared/message_format.py:250-252 | the data are appended to the buffer |
| MessageFormat.StreamBuffer.ExtractMessage | shared/message_format.py:254-276 | with no complete message the buffer is unchanged; otherwise the message's bytes are consumed and unpacked |
| MessageFormat.StreamBuffer.ExtractFrame | shared/message_format.py:278-288 | consumes exactly one complete frame from the head, or nothing |
| MessageFormat.StreamBuffer.Clear | shared/message_format.py:290-292 | the buffer is emptied |
| MessageFormat.ReassembleTwoFrames | shared/message_format.py:241-288 | two frames arriving in arbitrary chunks are extracted intact and in order |
| Bytes.FromToBigEndian | shared/message_format.py:58 | reading back a big-endian encoding gives the number |
| Bytes.ToFromBigEndian | shared/message_format.py:87 | re-encoding a big-endian reading gives the bytes |
| Text.ParseIntToString | shared/exceptions.py:22-25 | `int(str(i)) == i` |
| Text.SplitJoin | shared/protocol.py:224 | splitting a joined list on a separator it does not contain gives the list back |
| ReplayWindow.CheckSpec | server/core/encryption.py:171-198 | a counter passes iff it is above the highest seen, or within 64 below it with its bit clear |
| ReplayWindow.Update | server/core/encryption.py:200-219 | the highest counter becomes the larger of the two, and a jump of 64 or more resets the bitmap to 1 |
| ReplayWindow.UpdateRejects | server/core/encryption.py:171-219 | once a counter is recorded it no longer passes |
| ReplayWindow.RejectedStaysRejected | server/core/encryption.py:171-219 | a counter that fails keeps failing after any further update |
| ReplayWindow.SlideKeepsMarks | server/core/encryption.py:207-211 | sliding the window forward keeps every earlier mark at its shifted distance |
| ReplayWindow.RunAcceptsAtMostOnce | server/core/encryption.py:121-219 | over any delivery sequence, each accepted counter is accepted once and then refused |
| ReplayWindow.RunKeepsRejected | server/core/encryption.py:121-219 | a refused counter is never accepted later in the sequence |
| ReplayWindow.IncreasingRunAllAccepted | server/core/encryption.py:121-219 | strictly increasing counters all above the window's highest are all accepted |
| ReplayWindow.FreshWindowAcceptsInOrder | server/core/encryption.py:56-219 | a fresh handler's window accepts every strictly increasing stream in full, counter 0 included |
| PacketCodec.NoncesAgreeIffZeroTimestamp | server/core/encryption.py:100-104 | encrypt's nonce (counter, time) equals decrypt's (counter, 0) iff the time's low 32 bits are 0 |
| PacketCodec.ParsePacket | server/core/encryption.py:137-144 | refuses exactly packets under 24 bytes; the counter is 64-bit and the tag 16 bytes |
| PacketCodec.ParseEncodedPacket | server/core/encryption.py:116-144 | parsing an encoded packet gives back its counter, ciphertext and tag |
| PacketCodec.EncodeParsedPacket | server/core/encryption.py:116-144 | re-encoding a parsed packet gives the packet |
| PacketCodec.SealPacket | server/core/encryption.py:86-119 | fails with EncryptionError exactly when the counter no longer fits 64 bits; otherwise counter, ciphertext, tag |
| PacketCodec.SealedPacketCounter | server/core/encryption.py:86-119 | a sealed packet carries the send counter it was sealed with |
| PacketCodec.Judge | server/core/encryption.py:121-169 | a decrypt verdict: too short, replayed (window refuses), forged (tag fails) or accepted (tag verifies under counter‖0) |
| PacketCodec.RefusalError | server/core/encryption.py:146-169 | a replay raises ReplayAttackError and every other refusal DecryptionError |
| PacketCodec.Outcome | server/core/encryption.py:121-169 | decrypt returns the plaintext exactly when the packet is accepted |
| PacketCodec.ReceiveCases | server/core/encryption.py:121-169 | failures leave the window alone; replays are counted; an accepted counter is recorded and refused from then on |
| PacketCodec.AcceptedPacketReplayed | server/core/encryption.py:121-169 | delivering an accepted packet again is refused as a replay |
| PacketCodec.SealedPacketRefused | server/core/encryption.py:100-104 | as written, a packet sealed at a time with non-zero low 32 bits is refused as forged |
| PacketCodec.SealPacketZeroTimestamp | server/core/encryption.py:100-104 | the corrected sealer uses decrypt's nonce (counter‖0) |
| PacketCodec.SealZeroTimestampOpens | server/core/encryption.py:86-169 | what the corrected sealer produces is accepted with its plaintext |
| ServerEncryption.EncryptionHandler.Init | server/core/encryption.py:34-63 | the session key is derived from the master key; counters, window and statistics start at 0 |
| ServerEncryption.EncryptionHandler.Create | server/core/encryption.py:34-46 | a master key of the wrong length raises ValueError; no key means a random one |
| ServerEncryption.EncryptionHandler.Encrypt | server/core/encryption.py:86-119 | the packet is sealed under the current send counter, which then advances by one |
| ServerEncryption.EncryptionHandler.Decrypt | server/core/encryption.py:121-169 | the result and the new window are the receive verdict's; the statistics count accepted packets and replays |
| ServerEncryption.EncryptionHandler.Rekey | server/core/encryption.py:221-239 | a wrong-length key raises and changes nothing; otherwise new keys, send counter 0, receive window kept |
| ServerEncryption.EncryptionHandler.GetStatistics | server/core/encryption.py:241-256 | reports the current send counter and the highest received counter |
| ServerEncryption.EncryptPacket | server/core/encryption.py:287-299 | a fresh handler seals one packet with counter 0, or raises on a bad key length |
| ServerEncryption.DecryptPacket | server/core/encryption.py:302-315 | a fresh handler refuses short packets with DecryptionError and never reports a replay |
| ServerEncryption.OneShotRoundTrip | server/core/encryption.py:287-315 | `decrypt_packet(encrypt_packet(p, k), k)` gives p back iff the time's low 32 bits are 0, else DecryptionError |
| ClientEncryption.EncryptionHandler.Init | client/core/encryption.py:26-46 | the session key is derived from the master key; counters, window and statistics start at 0 |
| ClientEncryption.EncryptionHandler.Create | client/core/encryption.py:26-33 | a master key of the wrong length raises ValueError; no key means a random one |
| ClientEncryption.EncryptionHandler.Encrypt | client/core/encryption.py:60-81 | the packet is sealed under the current send counter, which then advances by one |
| ClientEncryption.EncryptionHandler.Decrypt | client/core/encryption.py:83-141 | the result and the new window are the receive verdict's; the statistics count accepted packets and replays |
| ClientEncryption.EncryptionHandler.GetStatistics | client/core/encryption.py:143-152 | reports the current send counter and the number of packets decrypted |
| IpPacket.IsValidPacket | server/core/packet_processor.py:31-60 | valid iff 20 to 1500 bytes with IP version 4 or 6; no contract of its own, the processors' `ValidatePacket` rows state it |
| IpPacket.Version | server/core/packet_processor.py:54 | the version is the high nibble of the first byte |
| IpPacket.DottedParses | server/core/packet_processor.py:137-138 | a dotted IPv4 address splits back into its four byte values |
| IpPacket.Ipv6AddressGroups | server/core/packet_processor.py:159-160 | an IPv6 address is 8 colon-separated groups of 4 hex digits, one per byte pair |
| IpPacket.ParseIpv4 | server/core/packet_processor.py:125-147 | under 20 bytes nothing; otherwise header length, total length, protocol and both addresses read from their offsets |
| IpPacket.ParseIpv6 | server/core/packet_processor.py:149-168 | under 40 bytes nothing; otherwise payload length, next header and both addresses read from their offsets |
| IpPacket.IpInfoOf | server/core/packet_processor.py:103-123 | information is returned iff the packet is valid; version 4 yields IPv4 fields, version 6 IPv6 fields when long enough |
| ServerPacketProcessor.PacketProcessor.ValidatePacket | server/core/packet_processor.py:31-60 | valid iff 20..1500 bytes with version 4 or 6; each invalid packet is counted |
| ServerPacketProcessor.PacketProcessor.ProcessOutbound | server/core/packet_processor.py:62-83 | a valid packet passes unchanged and is counted with its bytes; an invalid one is dropped |
| ServerPacketProcessor.PacketProcessor.ProcessInbound | server/core/packet_processor.py:85-101 | a valid packet passes unchanged and is counted with its bytes; an invalid one is dropped |
| ServerPacketProcessor.PacketProcessor.Process | server/core/packet_processor.py:62-101 | the shared body of both directions |
| ServerPacketProcessor.PacketProcessor.ExtractIpInfo | server/core/packet_processor.py:103-123 | returns the packet's header fields iff it is valid, counting invalid packets |
| ServerPacketProcessor.PacketProcessor.GetStatistics | server/core/packet_processor.py:170-176 | reports the three counters |
| ServerPacketProcessor.PacketProcessor.ResetStatistics | server/core/packet_processor.py:178-183 | zeroes the three counters |
| ClientPacketProcessor.PacketProcessor.ValidatePacket | client/core/packet_processor.py:24-42 | valid iff 20..1500 bytes with version 4 or 6; each invalid packet is counted |
| ClientPacketProcessor.PacketProcessor.ProcessOutbound | client/core/packet_processor.py:44-52 | a valid packet passes unchanged and is counted; an invalid one is dropped |
| ClientPacketProcessor.PacketProcessor.ProcessInbound | client/core/packet_processor.py:54-62 | a valid packet passes unchanged and is counted; an invalid one is dropped |
| ClientPacketProcessor.PacketProcessor.Process | client/core/packet_processor.py:44-62 | the shared body of both directions |
| ClientPacketProcessor.PacketProcessor.GetStatistics | client/core/packet_processor.py:64-71 | reports the three counters |
| SessionManager.ClientSession.UpdateActivity | server/core/session_manager.py:78-80 | only the last-activity time changes |
| SessionManager.ClientSession.AddTraffic | server/core/session_manager.py:82-85 | the byte counters grow by the arguments |
| SessionManager.ClientSession.SendData | server/core/session_manager.py:87-97 | counts the bytes sent and marks activity |
| SessionManager.ClientSession.RecvData | server/core/session_manager.py:99-118 | non-empty data are returned and counted; an empty or failed read returns None and counts nothing |
| SessionManager.ClientSession.UptimeSeconds | server/core/session_manager.py:126-141 | uptime is now minus the connection time |
| SessionManager.ClientSession.Close | server/core/session_manager.py:120-124 | the session becomes inactive and its writer closed |
| SessionManager.Manager.AddSession | server/core/session_manager.py:159-172 | the session is indexed by token and by address, keeping the two indexes consistent when both are new |
| SessionManager.Manager.RemoveSession | server/core/session_manager.py:174-190 | an unknown token changes nothing; a known one is removed from both indexes and closed |
| SessionManager.Manager.GetSession | server/core/session_manager.py:192-194 | the session under the token, if any |
| SessionManager.Manager.GetSessionByIp | server/core/session_manager.py:196-198 | the session under the address, if any |
| SessionManager.Manager.GetSessionCount | server/core/session_manager.py:204-206 | the number of sessions |
| SessionManager.Manager.StaleTokens | server/core/session_manager.py:208-222 | the idle-too-long or inactive sessions are among the known tokens |
| SessionManager.Manager.CleanupInactiveSessions | server/core/session_manager.py:208-232 | exactly the stale sessions are removed and closed, their number is returned, and the indexes stay consistent |
| SessionManager.Manager.CollectStale | server/core/session_manager.py:213-222 | the first pass lists each stale token exactly once |
| SessionManager.Manager.RemoveAll | server/core/session_manager.py:224-230 | the second pass removes exactly the listed sessions, each closed |
| SessionManager.Manager.GetStatistics | server/core/session_manager.py:234-245 | the session count and the byte totals over all sessions |
| Models.NewUserDefaults | server/database/models.py:20-35 | a new user is active, not an admin, limited to 3 sessions, unmetered, without email or last login |
| Models.IsExpired | server/database/models.py:98-100 | expired iff now is past the expiry; no contract of its own, `ExtendedExpiry` states it |
| Models.ExtendExpiry | server/database/models.py:102-104 | only the expiry changes |
| Models.UpdateActivity | server/database/models.py:106-108 | the last activity becomes now and nothing else changes |
| Models.AddTraffic | server/database/models.py:110-115 | only the byte and packet counters change |
| Models.ExtendedExpiry | server/database/models.py:98-104 | after `extend_expiry(h)` the session is expired exactly after now + h hours, whatever its old expiry |
| Models.AddTrafficAccumulates | server/database/models.py:110-115 | k traffic updates add their byte sums and k packets each way, and change nothing else |
| Models.CalculateDuration | server/database/models.py:166-170 | only a closed log gets a duration, equal to disconnect minus connect time |
| UserRepo.Accepted | server/database/user_repo.py:89-122 | an accepted login names an active user with that username whose hash verifies the password |
| UserRepo.CreatedUserAuthenticates | server/database/user_repo.py:32-122 | a newly created user authenticates with its password and with no other |
| UserRepo.ChangedPasswordAuthenticates | server/database/user_repo.py:89-143 | after a password change only the new password authenticates |
| UserRepo.DisabledUserRefused | server/database/user_repo.py:89-155 | a disabled user is refused whatever the password |
| UserRepo.UserRepository.GetById | server/database/user_repo.py:81-83 | the user with that id, or none exists |
| UserRepo.UserRepository.GetByUsername | server/database/user_repo.py:85-87 | the user with that name, or none exists |
| UserRepo.UserRepository.CreateUser | server/database/user_repo.py:32-79 | a taken name raises ValueError and inserts nothing; otherwise an active user with the next id and the hashed password is appended |
| UserRepo.UserRepository.Authenticate | server/database/user_repo.py:89-122 | the accepted user gets last_login = now; any refusal changes nothing |
| UserRepo.UserRepository.UpdatePassword | server/database/user_repo.py:124-143 | true iff the user exists, whose hash alone is replaced |
| UserRepo.UserRepository.DisableUser | server/database/user_repo.py:145-155 | true iff the user exists, who alone becomes inactive |
| UserRepo.UserRepository.EnableUser | server/database/user_repo.py:157-167 | true iff the user exists, who alone becomes active |
| UserRepo.UserRepository.SetActive | server/database/user_repo.py:145-167 | the shared body of disable and enable |
| UserRepo.UserRepository.DeleteUser | server/database/user_repo.py:169-188 | true iff the user exists; the user, its sessions and its logs go, every other row stays |
| UserRepo.UserRepository.ListUsers | server/database/user_repo.py:190-203 | all users, or exactly the active ones |
| UserRepo.UserRepository.GetActiveSessionCount | server/database/user_repo.py:205-214 | zero iff the user has no active session |
| UserRepo.UserRepository.CanCreateSession | server/database/user_repo.py:216-231 | true iff the user exists, is active and is below its session limit |
| SessionRepo.ClosingLog | server/database/session_repo.py:226-238 | the log copies the session's user, addresses, times and traffic, with duration = now - created |
| SessionRepo.Validate | server/database/session_repo.py:130-159 | classifies a token as unknown, inactive, expired or valid against the matching row |
| SessionRepo.ExpiredStaysInactive | server/database/session_repo.py:130-159 | a token found expired is refused as inactive from then on |
| SessionRepo.ValidUntilExpiry | server/database/session_repo.py:130-159 | a valid token stays valid until its expiry |
| SessionRepo.StatisticsOf | server/database/session_repo.py:269-294 | an inactive session without a disconnect time raises TypeError; otherwise the traffic, total and duration |
| SessionRepo.TerminatedStatisticsMatchLog | server/database/session_repo.py:209-294 | a terminated session's statistics agree with its closing log |
| SessionRepo.ExpiringMeansExpired | server/database/session_repo.py:252-255 | cleanup selects exactly the active, expired sessions |
| SessionRepo.TerminateExpiring | server/database/session_repo.py:247-267 | closing the selected sessions closes exactly the expiring rows and leaves none expiring |
| SessionRepo.ExpireStep | server/database/session_repo.py:257-262 | each turn of cleanup closes the next selected session and appends its log |
| SessionRepo.SessionRepository.GetByToken | server/database/session_repo.py:93-97 | the session with that token, or none exists |
| SessionRepo.SessionRepository.GetById | server/database/session_repo.py:99-103 | the session with that id, or none exists |
| SessionRepo.SessionRepository.GetActiveSessions | server/database/session_repo.py:105-120 | exactly the active sessions, of the user when one is given |
| SessionRepo.SessionRepository.GetActiveSessionCount | server/database/session_repo.py:122-128 | zero iff the user has no active session |
| SessionRepo.SessionRepository.CreateSession | server/database/session_repo.py:34-91 | a user at its limit raises SessionLimitError and a duplicate token IntegrityError; otherwise a new active session expiring after the given hours |
| SessionRepo.SessionRepository.TerminateSession | server/database/session_repo.py:209-245 | true iff the id exists; the session is closed and a log with its traffic and duration is written |
| SessionRepo.SessionRepository.ValidateSession | server/database/session_repo.py:130-159 | returns a valid session with activity marked; an expired one is terminated with reason "Session expired" |
| SessionRepo.SessionRepository.ExtendSession | server/database/session_repo.py:161-180 | true iff the id exists; that session's expiry becomes now + hours |
| SessionRepo.SessionRepository.UpdateTraffic | server/database/session_repo.py:182-207 | true iff the id exists; that session's traffic grows and its activity is marked |
| SessionRepo.SessionRepository.CleanupExpiredSessions | server/database/session_repo.py:247-267 | every expiring session is closed with a log, others are untouched, and the count is returned |
| SessionRepo.SessionRepository.CloseNext | server/database/session_repo.py:257-262 | one turn of the cleanup loop |
| SessionRepo.SessionRepository.GetSessionStatistics | server/database/session_repo.py:269-294 | None for an unknown id; otherwise the session's statistics or its TypeError |
| AuthHandler.LowestFree | server/core/auth_handler.py:179-198 | the first pool index whose address is free, or none when all 253 are taken |
| AuthHandler.AssignedAddressInPool | server/core/auth_handler.py:179-198 | an assigned address maps back to its pool index |
| AuthHandler.ActiveIps | server/core/auth_handler.py:54-58 | exactly the addresses of active sessions |
| AuthHandler.ActiveFit | server/core/auth_handler.py:54-58 | with distinct addresses, there are no more active sessions than tracked addresses |
| AuthHandler.ReleaseAsWritten | server/core/auth_handler.py:169 | as written, the row's address is discarded and every other mark kept, whether or not the row is active |
| AuthHandler.ReleaseAsWrittenFreesHeldIp | server/core/auth_handler.py:164-172 | as written, terminating a closed session frees an address an active session still holds |
| AuthHandler.Release | server/core/auth_handler.py:164-172 | the corrected release frees the address only of an active session |
| AuthHandler.ReleaseKeepsCoverage | server/core/auth_handler.py:153-177 | terminating any session keeps every active address tracked |
| AuthHandler.LoginOf | server/core/auth_handler.py:60-122 | bad credentials, session limit reached, pool exhausted, duplicate token, or admitted |
| AuthHandler.TokenOutcome | server/core/auth_handler.py:124-151 | a token succeeds exactly when it validates |
| AuthHandler.ValidationOutcome | server/core/auth_handler.py:124-151 | validation keeps every active address tracked, and a refused token raises the matching error |
| AuthHandler.Handler.constructor | server/core/auth_handler.py:39-52 | the tracked addresses are those of the active sessions |
| AuthHandler.Handler.LoadAssignedIps | server/core/auth_handler.py:54-58 | the tracked addresses become those of the active sessions |
| AuthHandler.Handler.AssignIp | server/core/auth_handler.py:179-198 | takes the lowest free pool address, or raises RuntimeError when none is free |
| AuthHandler.Handler.ReleaseIp | server/core/auth_handler.py:200-203 | the address is no longer tracked |
| AuthHandler.Handler.AuthenticateUser | server/core/auth_handler.py:60-122 | the outcome follows `LoginOf`; the accepted user, and only that user, gets last_login set to now; the user and log id counters are unchanged; a refusal changes no session, no address and no session counter |
| AuthHandler.Handler.Admit | server/core/auth_handler.py:86-122 | a verified user gets an address and a session, or the address goes back on failure |
| AuthHandler.Handler.Create | server/core/auth_handler.py:98-122 | the session is created for the assigned address |
| AuthHandler.Handler.ValidateToken | server/core/auth_handler.py:124-151 | the result is `TokenOutcome` and the sessions become `AfterValidation` |
| AuthHandler.Handler.TerminateSession | server/core/auth_handler.py:153-177 | the corrected termination: true iff the token exists; the session is closed with a log, only an active session's address is released, and the handler stays consistent |
| AuthHandler.Handler.TerminateSessionAsWritten | server/core/auth_handler.py:153-177 | as written: true iff the token exists; the session is closed with a log and its address discarded; the handler stays consistent when the row was active |
| AuthHandler.Handler.GetSessionByIp | server/core/auth_handler.py:205-211 | the active session holding the address, or none does |
| AuthHandler.Handler.CleanupExpiredSessions | server/core/auth_handler.py:213-225 | row by row, each expiring session is terminated and every other row kept; one termination log per expired session is appended; the count is the number expired; users and the user and session id counters are unchanged; none remains expiring and the addresses are reloaded from the active rows |
| AuthHandler.Handler.GetActiveSessionCount | server/core/auth_handler.py:227-229 | never more than the tracked addresses |
| AuthHandler.Handler.GetStatistics | server/core/auth_handler.py:231-243 | the active count never exceeds the assigned-address count |
| AuthHandler.Handler.ActiveFitWhenValid | server/core/auth_handler.py:231-243 | in a consistent handler, active sessions fit in the tracked addresses |
| AutoReconnect.DelayAfterValues | client/core/auto_reconnect.py:166-171 | after n failures the delay is 2^n seconds, capped at 30 from the fifth on |
| AutoReconnect.BackoffBounds | client/core/auto_reconnect.py:166-171 | the delay stays within 1..30 and never decreases |
| AutoReconnect.AttemptsMade | client/core/auto_reconnect.py:110-160 | the loop stops after the first attempt that ends it |
| AutoReconnect.Sleeps | client/core/auto_reconnect.py:117-123 | every attempt but the first sleeps the delay after its failures |
| AutoReconnect.FirstSleep | client/core/auto_reconnect.py:117-123 | the second attempt waits 2 seconds |
| AutoReconnect.Reconnector.constructor | client/core/auto_reconnect.py:44-74 | idle, disabled, delay 1, no attempts, no times |
| AutoReconnect.Reconnector.ChangeState | client/core/auto_reconnect.py:173-185 | the state is set and a change is announced once |
| AutoReconnect.Reconnector.IncreaseBackoff | client/core/auto_reconnect.py:166-171 | the delay doubles, capped at 30 |
| AutoReconnect.Reconnector.Enable | client/core/auto_reconnect.py:76-79 | only the enabled flag changes |
| AutoReconnect.Reconnector.Disable | client/core/auto_reconnect.py:81-86 | disabled, and a pending task is cancelled |
| AutoReconnect.Reconnector.StartReconnect | client/core/auto_reconnect.py:88-103 | when enabled and idle, records the disconnect time and starts a task |
| AutoReconnect.Reconnector.RunAttempt | client/core/auto_reconnect.py:110-160 | WAITING, a sleep of the current delay from the second attempt on, CONNECTING, then the outcome: a success resets the backoff and counts a reconnect, a failure or exception backs off to FAILED, a cancel during the sleep or the connect leaves delay and state and ends the loop |
| AutoReconnect.Reconnector.ActOnResult | client/core/auto_reconnect.py:134-160 | what follows the awaited connect: CONNECTED with the backoff reset, FAILED with the delay doubled, or nothing on a cancel |
| AutoReconnect.Reconnector.Advance | client/core/auto_reconnect.py:110-160 | one turn of the loop keeps the loop's accounting of attempts, sleeps, reconnects, delay and state |
| AutoReconnect.Reconnector.Passes | client/core/auto_reconnect.py:109-160 | the while loop makes exactly the attempts `AttemptsMade` counts, keeps the loop's accounting, and announces each pass's states in order |
| AutoReconnect.Reconnector.ReconnectLoop | client/core/auto_reconnect.py:105-164 | the attempts made, the sleeps taken (none for an attempt cancelled while sleeping), the reconnect count, the delay and the final state follow from the attempts' outcomes; the state-change notifications are those of each pass in order (`LoopStates`), then IDLE once disabled |
| AutoReconnect.Reconnector.OnConnected | client/core/auto_reconnect.py:187-192 | connected, with the attempts and the delay reset |
| AutoReconnect.Reconnector.OnDisconnected | client/core/auto_reconnect.py:194-199 | records the time and starts a reconnect when enabled |
| AutoReconnect.Reconnector.Stop | client/core/auto_reconnect.py:219-228 | disabled, no task, idle |
| AutoReconnect.Reconnector.GetStatistics | client/core/auto_reconnect.py:201-217 | uptime is reported only when the last connect follows the last disconnect |
| ConnectionManager.UptimePartsMeaning | client/core/connection_manager.py:336-363 | the summary's hours and minutes are the floor of the uptime |
| ConnectionManager.Manager.constructor | client/core/connection_manager.py:39-73 | disconnected, no tunnel, no counts |
| ConnectionManager.Manager.SetState | client/core/connection_manager.py:75-104 | the state and error are set; the state callback hears the new state and the error callback hears a non-empty error |
| ConnectionManager.Manager.Connect | client/core/connection_manager.py:106-163 | refuses unless disconnected or in error, changing nothing; otherwise counts an attempt, builds the tunnel with the configured auto_reconnect, announces CONNECTING, AUTHENTICATING and then CONNECTED or ERROR, reports the error text (refusal, raised message, or missing address) to the error callback, reports the address to the IP callback, and sets the connect time and address iff the tunnel was established; succeeds iff it connects with an address |
| ConnectionManager.Manager.Attempt | client/core/connection_manager.py:116-163 | one attempt, counted, with the tunnel built from the config; without an established tunnel no address is kept; the error text and its notification follow the outcome |
| ConnectionManager.Manager.Conclude | client/core/connection_manager.py:128-163 | connected with the address, or an error state whose text (and error notification) names why |
| ConnectionManager.Manager.Disconnect | client/core/connection_manager.py:165-194 | no effect when already disconnected; otherwise the tunnel is dropped and the state ends disconnected, or ERROR with the failure reported to the error callback; the tunnel's auto_reconnect flag is kept |
| ConnectionManager.Manager.OnTunnelDisconnected | client/core/connection_manager.py:264-270 | a connected manager moves to reconnecting; otherwise nothing; no address is reported and the tunnel's auto_reconnect flag is kept |
| ConnectionManager.Manager.SendPacket | client/core/connection_manager.py:282-295 | sent iff connected with a tunnel that accepts it |
| ConnectionManager.Manager.IsConnected | client/core/connection_manager.py:301-303 | true iff connected |
| ConnectionManager.Manager.GetAssignedIp | client/core/connection_manager.py:305-309 | the tunnel's address, if there is a tunnel |
| ConnectionManager.Manager.GetStatistics | client/core/connection_manager.py:311-334 | uptime is reported only while connected |
| ConnectionManager.Manager.GetStatusSummary | client/core/connection_manager.py:336-363 | the summary text for the current state |
| ConfigTree.Lookup | client/utils/config_loader.py:86-106 | the empty path is the whole tree; a found value descends through dicts |
| ConfigTree.Merge | client/utils/config_loader.py:78-84 | a non-dict override replaces; two dicts merge key-wise over the union of keys |
| ConfigTree.MergeInto | server/utils/config_loader.py:87-93 | the merged dict has the keys of both |
| ConfigTree.MergeOverrideWins | client/utils/config_loader.py:78-84 | every leaf of the override is found at its path after the merge |
| ConfigTree.MergeKeepsAbsent | client/utils/config_loader.py:78-84 | a value the override does not touch survives the merge |
| ConfigTree.MergeIdempotent | client/utils/config_loader.py:78-84 | merging a tree into itself changes nothing |
| ConfigTree.SetPath | client/utils/config_loader.py:108-124 | setting a dotted path fails only with TypeError |
| ConfigTree.SetPathSucceeds | client/utils/config_loader.py:108-124 | `set` succeeds iff no prefix of the path holds a non-dict |
| ConfigTree.EmptySettable | client/utils/config_loader.py:108-124 | any path can be set in an empty config |
| ConfigTree.SetThenLookup | client/utils/config_loader.py:86-124 | after `set(p, v)`, `get(p)` is v |
| ConfigTree.SetLeavesOthers | client/utils/config_loader.py:86-124 | `set(p, v)` leaves every path that diverges from p unchanged |
| ConfigTree.EmptyLookup | client/utils/config_loader.py:86-106 | nothing is found in an empty config |
| ClientConfig.DefaultValues | client/utils/config_loader.py:33-62 | default port 8443, MTU 1400, maximum backoff 30, auto-reconnect on |
| ClientConfig.Loaded | client/utils/config_loader.py:64-76 | a parsed dict is merged over the config; anything else leaves it |
| ClientConfig.Config.constructor | client/utils/config_loader.py:16-31 | the file defaults to "client_config.yaml"; the config is the defaults with the file merged in |
| ClientConfig.Config.LoadDefaults | client/utils/config_loader.py:33-62 | the config becomes the defaults |
| ClientConfig.Config.LoadFromFile | client/utils/config_loader.py:64-76 | the file's dict is merged in |
| ClientConfig.Config.Get | client/utils/config_loader.py:86-106 | the value at the dotted path, or the default |
| ClientConfig.Config.Set | client/utils/config_loader.py:108-124 | succeeds iff settable; then `get` returns the value and other paths are kept; otherwise TypeError and no change |
| ClientConfig.Config.ToDict | client/utils/config_loader.py:149-151 | a copy with the same entries |
| ServerConfig.DefaultValues | server/utils/config_loader.py:19-47 | default port 8443, MTU 1420, keepalive 15, session timeout 24 hours |
| ServerConfig.Loaded | server/utils/config_loader.py:62-85 | a parsed dict is deep-merged over the config; anything else leaves it |
| ServerConfig.SharedAfter | server/utils/config_loader.py:57-93 | DEFAULT_CONFIG after a deep update through a shallow copy: only nested dicts still shared can change, and nothing changes without a parsed dict |
| ServerConfig.AliasedDefaults | server/utils/config_loader.py:57-93 | after a fresh loader's deep update, every default dict the file merges into holds the merge, and every other default is kept |
| ServerConfig.SharedDefaultsLeak | server/utils/config_loader.py:57 | as written, a first loader reading `tunnel.mtu: 1300` leaves a second loader without a file at MTU 1300 |
| ServerConfig.Defaults.constructor | server/utils/config_loader.py:19-47 | the class-wide defaults start as DEFAULT_CONFIG |
| ServerConfig.Loader.Config | server/utils/config_loader.py:57 | the loader's view: its own entries, and the shared defaults' dicts under the keys still aliased |
| ServerConfig.Loader.constructor | server/utils/config_loader.py:49-60 | as written: the config is the current class defaults, with the file merged in when a name is given, and that merge is written into the class defaults |
| ServerConfig.Loader.Isolated | server/utils/config_loader.py:49-60 | the corrected constructor: the same config from a private copy, and the class defaults are left unchanged |
| ServerConfig.Loader.Load | server/utils/config_loader.py:62-93 | the file's dict is deep-merged in; merges under keys still shared with the class defaults land there, and replaced keys become the loader's own |
| ServerConfig.Loader.Get | server/utils/config_loader.py:95-115 | the value at the dotted path, or the default |
| ServerConfig.Loader.GetItem | server/utils/config_loader.py:132-134 | `config[key]` is `get(key)` with default None |
| ServerConfig.Loader.ToDict | server/utils/config_loader.py:136-138 | a copy with the same entries |
| ServerConfig.TwoLoadersAsWritten | server/utils/config_loader.py:49-93 | as written, a second loader's config is its file merged over the defaults as the first loader's file left them |
| ServerConfig.TwoLoaders | server/utils/config_loader.py:49-93 | with corrected loaders, the second config is its file merged over pristine defaults whatever the first read, with MTU 1420 when it has no file |

## Left out

- **Sockets, tunnels and host networking:** not modelled. This covers asyncio sockets, the TAP/TUN device, routing, DNS and the firewall, including `ConnectionManager._setup_network`, `_cleanup_network`, `_on_tunnel_connected` and `_on_tunnel_data`. Their results are inputs to the state machines instead.
- **Cryptographic and serialisation libraries:** ChaCha20-Poly1305, HKDF-SHA256, Argon2 and msgpack are parameters, not implementations. For example, `_derive_key` is the `Kdf` parameter.
  - `UserRepo.Sound` idealises Argon2: a stored hash verifies exactly the password it was made from.
  - `EncryptionHandler.generate_master_key`, `derive_key_from_password` and the random default key are random or foreign, and are left out.
- **Clocks and randomness:** clocks are integer seconds supplied by the caller. Random tokens, salts and keys are arguments. Floating-point timestamps are not modelled. This includes the `create_ping`/`create_pong` timestamps and the float backoff multiplier, taken as the integer 2.
- **The `MessageFormat.create_*` helpers:** each is `pack` of a fixed payload, so `Pack`'s contract covers them.
- **`pack` mutating the caller's dict:** `pack` adds "version" to the caller's dict in place. The model returns the versioned copy instead.
- **ORM rows are values:** the ORM's identity map, lazy loading and commit/rollback are not modelled. A failed commit leaves the tables unchanged.
- **Database behaviour:**
  - Foreign keys are not enforced.
  - Row ids come from counters that are never reused.
  - Table order is insertion order.
  - Ordering clauses other than insertion order are not modelled.
- **Locks and task timing:**
  - The `asyncio.Lock` around `SessionManager` is not modelled: each method runs atomically.
  - `AutoReconnect` tasks are modelled only through the points where they can be cancelled: the awaited sleep and the awaited connect of each attempt, as its script says. A cancel arrives through `disable` or `stop`, which clear `is_enabled` first.
  - `AutoReconnect.Reconnector.ReconnectLoop`: a script that ends before the loop does stands for a task still running.
- **`ClientSession` fields with no behaviour:** the reader/writer objects and the fields that no modelled operation reads are left out. `SessionManager.get_all_sessions` is `sessions.Values` and has no member of its own.
- **Logging and callbacks:** logging is not modelled. Persian and English log text is not modelled either. Callbacks are recorded as sequences of notifications.
- **Python `int()` edge cases:** `ParseInt` accepts an optional `+` or `-` followed by decimal digits. Surrounding whitespace, underscores and non-ASCII digits, which `int()` also accepts, are not modelled.
- **Configuration values and files:**
  - Configuration values are `Value` trees with string keys; non-string keys are not modelled.
  - Reading and writing YAML/JSON files is a parsed-value input, and `save` is left out.
  - `to_dict`'s shallow copy shares nested dicts with the loader. Configuration values are immutable here, so that aliasing is not modelled.
- **SetPath, StatisticsOf:** the exact `TypeError` texts are not modelled, only that a `TypeError` is raised.
- **ConfigTree.SetPath:** the descent loop of `set` is modelled as recursion over immutable values.
- **ServerConfig.Loader.Load:** aliasing is tracked at the top level of the config only. That is exact for DEFAULT_CONFIG, whose nested dicts hold only scalars. A dict read from the file and shared with the caller is not modelled.
- **AuthHandler.DUPLICATE_TOKEN:** the text of the database driver's unique-constraint error is not modelled. The constant stands for it, so only the fact that a duplicate token is refused, and the message prefix the handler adds, are modelled.
- **AuthHandler.Handler.TerminateSession:** models the corrected release, which frees only an active session's address. The release as written is `AuthHandler.Handler.TerminateSessionAsWritten`; see Findings.

## Findings

| source | as written | input that shows it | evidently intended | confidence | as-written member | corrected member |
|---|---|---|---|---|---|---|
| shared/protocol.py:279-282 | `get_next_client_ip` accepts indices up to 253 | index 253 gives "10.8.0.255", the broadcast address, which `ip_to_client_index` rejects | indices 0..252, addresses .2 to .254 | not executed | Protocol.GetNextClientIp, Protocol.ClientIpLastIndexRejected | Protocol.GetClientIp, Protocol.ClientIpRoundTrip |
| server/core/encryption.py:100-104 | encrypt builds the nonce from the counter and `int(time.time()) & 0xFFFFFFFF`; decrypt (149-153) uses the counter and 0 | any packet sealed at a time whose low 32 bits are not 0 fails to open, e.g. `decrypt_packet(encrypt_packet(p, k), k)` | both sides use the same nonce | not executed | PacketCodec.SealedPacketRefused, ServerEncryption.OneShotRoundTrip | PacketCodec.SealPacketZeroTimestamp, PacketCodec.SealZeroTimestampOpens |
| server/utils/config_loader.py:57 | `self.DEFAULT_CONFIG.copy()` is shallow, so `_deep_update` writes into the class-wide nested defaults | a first loader reading `tunnel.mtu: 1300` makes a second loader without a file report MTU 1300 | each loader starts from pristine defaults | not executed | ServerConfig.Loader.constructor, ServerConfig.TwoLoadersAsWritten, ServerConfig.SharedDefaultsLeak | ServerConfig.Loader.Isolated, ServerConfig.TwoLoaders |
| server/core/auth_handler.py:164-172 | `terminate_session` discards the session's address without checking that the session is still active | terminate a session, let its address go to a new session, then terminate the old token again: the new session's address is freed and can be handed out twice | release the address only of an active session | not executed | AuthHandler.Handler.TerminateSessionAsWritten, AuthHandler.ReleaseAsWritten, AuthHandler.ReleaseAsWrittenFreesHeldIp | AuthHandler.Handler.TerminateSession, AuthHandler.Release, AuthHandler.ReleaseKeepsCoverage |
