# Verification of Shuzagram's stores, login, key exchange and wire protocol

Shuzagram is a messaging server written in C++: clients connect over one of several wire
transports, agree on an authorization key, open an encrypted session on it, log in with a
code sent to their phone (and a password, when the account has one), and manage the
authorizations of their devices. This project models the parts of it where several
functions, several transactions or both ends of a conversation have to agree, and proves
what that agreement is.

The project is checked with `dafny verify dfyconfig.toml` (Dafny 4.11).

## How the model is laid out

* **Identity locks.** `AuthTables` holds the tables and what each writing statement does to
  them. `AuthStores` gives the store's own methods in the order they send their statements.
  `IdentityLocks` turns the same transactions into a system of any number of concurrent
  transactions, one lock request or one commit a step; `IdentityInvariant` is what every run
  keeps, `IdentityDeadlock` the absence of deadlock, `IdentityProgress` that all transactions
  can always be run to their end, `IdentityResults` what a committed
  transaction leaves behind, `IdentityWithoutGates` the deadlock that the gates prevent. The hash that maps a key to its gate is arbitrary: colliding
  hashes are included.
* **Login.** `CodeStores` is the in-memory store of codes; `LoginRuns` breaks SendCode, SignIn
  and SignUp into their store calls, interleaved in any way with each other and with phones
  changing hands; `LoginInvariant` and `LoginResults` are what every run keeps, `LoginAccounts`
  which account a hash binds, `LoginCodes` what the code itself decides.
* **Passwords and keys.** `ModArith`, `Bignum`, `Srp`, `Passwords`, `DiffieHellman`.
* **Transports.** `Crc32`, `Codecs` (the four framings as functions), `CodecObjects` (as the
  codec classes), `Ctr` (counter-mode streams and the obfuscated2 keys), `Detection` (which
  codec a server should pick, and what the two ends exchange), `Transports` (how it reads the
  connection to find out).
* **Envelopes.** `Ige`, `RsaPadding`, `ExchangeAnswers`, `MessageCipher`, `BindEnvelope`.
* **Messages and connections.** `TlBuffers`, `Invoke`, `InvokeWrappers`, `Sessions`,
  `SessionRuns`, `Links`, `Handshakes`, `SessionLoops` (the session phase of a connection),
  `SessionReplies` (the same seen from the client), `Agreements` (what an agreed key has taken),
  `Connections`, `ConnectionEnds` (what a frame under some key leads to), `ServerCrypto` (what a server's
  exchange calculates), `HonestExchange` and `HonestConnection` (a client that keeps to the
  protocol, to its key and into its session), `GetUsers`.

Code that changes state in place is modelled by classes, arrays and loops, each method proved
against a function of the state before; the theorems are about those functions. SHA-1,
SHA-256, PBKDF2, the AES block permutation and raw RSA are parameters, with no law but
"decrypting undoes encrypting". Random sources, clocks and whatever other parties do are
inputs or free choices of a step.

## Where the code and its promises part

* **A code can log in an account it was not issued for.** `VerifyLoginCode` says a hash can
  never authorize whoever holds the phone after it changed hands
  (`src/auth/sign_in.cpp:68-73`), and compares the owner before and after the check; it then
  reads the owner a third time and binds whom it finds (lines 102-104).
  `LoginResults.LaterOwnerIsBound` is a run in which that is somebody else.
  `LoginAccounts.SignInBindsLastOwner` is the exact condition, for every bind of every run: the
  phone has the same owner at the third read as at the second.
* **Full can be taken for abridged.** A first Full frame whose length field starts with the
  byte 0xEF is read as abridged. `Detection.FullIsSeen` gives the condition, which 4-aligned
  payloads always meet.
* **An obfuscated2 init can be taken for another transport.** `Detection.ObfuscatedIsSeen`:
  exactly when it starts like a marker or a reserved prefix, when its bytes 4 to 7 are zero,
  or when its tag names no framing.
* **A frame that was written may not read back.** `Codecs.FrameTrip` says exactly when it
  does: not payloads of exactly four bytes, which read as protocol errors, not frames over the
  size limit, which only the reader checks for some codecs, and not Full frames numbered past 2^31.
* **Long byte strings are cut.** `TlBuffers.BytesTrip`: exactly from 2^24 bytes on. Vector
  lengths wrap exactly from 2^31 on (`TlBuffers.VectorHeaderTrip`).
* **A refused message still changes the session.** A replayed one sets the session id
  (`SessionRuns.Afterwards`, in the contract of `HandleEncrypted`).
* **Encrypted messages read back** exactly when their length is a multiple of four and, with
  the padding, fits 32 bits (`MessageCipher.MessageTrip`); **exchange answers** exactly when
  no longer candidate has the stored hash (`ExchangeAnswers.AnswerTrip`).
* **A peeled call keeps being peeled.** `InvokeWrappers.InnerCallIsLeft`: an inner call is
  left as it is exactly when it does not begin with a wrapper's id.

## Model

| member | source | states |
|---|---|---|
| IdentityDeadlock.DeadlockFree | src/store/postgres/auth_identity_lock.cpp:84-130 | In every reachable state, for any number of concurrent binds, revokes and key deletions, no sequence of transactions waits in a circle |
| IdentityDeadlock.NeverStuck | src/store/postgres/auth_identity_lock.cpp:84-130 | While some transaction is unfinished, some unfinished transaction waits for nobody |
| IdentityProgress.SomeoneSteps | src/store/postgres/auth_identity_lock.cpp:84-130 | While some transaction is unfinished, in any state of any run, some transaction has a next step it can take |
| IdentityProgress.EveryoneCanFinish | src/store/postgres/auth_identity_lock.cpp:66-130 | Every run can be continued until all transactions started in it are done, each within its three attempts |
| IdentityProgress.LoneBindCommits | src/store/postgres/authorization_store.cpp:76-163 | In any whole tables, a bind that the store's own method would accept has a run, gates and all, that ends with its commit, of what that method writes |
| IdentityDeadlock.WaitsClimb | src/store/postgres/auth_key_store.cpp:161-197 | A rank of what a transaction has locked rises along every wait for a transaction that is itself held up, although Delete takes temporary and permanent rows in both orders |
| IdentityDeadlock.PermanentRowHasGate | src/store/postgres/auth_identity_lock.cpp:96-130 | Whoever holds a permanent key's row and has settled what it locked also holds that key's advisory gate |
| IdentityDeadlock.NoCycle | src/store/postgres/auth_identity_lock.cpp:84-94 | The invariant alone rules a wait cycle out |
| IdentityInvariant.StepKeepsInv | src/store/postgres/authorization_store.cpp:76-347 | Every step (a lock, a re-read, a commit, a rollback, a Save, a password mark, the rest of the server) keeps the tables whole and every transaction's memory of them true |
| IdentityInvariant.RunKeepsInv | src/store/postgres/authorization_store.cpp:76-347 | The invariant holds in every state of every run |
| IdentityInvariant.CommitUntouched | src/store/postgres/authorization_store.cpp:264-283 | A commit leaves alone the key, authorization, cursor, watermark, floor and account rows another transaction has locked, every field of them, and the bindings its gates protect |
| IdentityResults.AuthorizationsAreWhole | src/store/postgres/authorization_store.cpp:88-158 | In every reachable state an authorization names an existing key with expiry 0 and exactly one update state, that of its own user |
| IdentityResults.BindingsAreWhole | src/store/postgres/auth_key_store.cpp:152-197 | In every reachable state a binding joins an existing temporary key to an existing permanent key |
| IdentityResults.RevokeRemovesWhatIsStillOwned | src/store/postgres/authorization_store.cpp:254-347 | The authorizations and update states a revoke deletes are exactly those of its candidates that, when it commits, still belong to the named user (and have the hash, or are not the kept key); every other row of every table stays as it was |
| IdentityResults.BindIsAtomic | src/store/postgres/authorization_store.cpp:81-163 | A bind that commits among others does exactly what the same call would do alone at that moment: every check still passes, and the layer and baseline it read under its locks are current |
| IdentityResults.BindLeavesBaseline | src/store/postgres/authorization_store.cpp:102-158 | Right after a bind commits: the account is live, the key is permanent and authorized for it with the key's layer, its one update state has retained floor <= observed <= pts == contiguous watermark and no field gone back, and no other key or account has changed |
| IdentityResults.DeleteRemovesKeyAndItsTemporaries | src/store/postgres/auth_key_store.cpp:152-197 | A committed deletion removes exactly the key and the temporary keys bound to it, with their bindings, authorizations and update states, leaves every other row as it was, and never breaks the restricting reference |
| IdentityResults.CommitsAreIsolated | src/store/postgres/authorization_store.cpp:264-283 | Over every run, no commit changes a row another running transaction has locked, nor any field of a remaining authorization whose key's gate it holds |
| IdentityResults.KeysKeepTheirKind | src/store/postgres/auth_key_store.cpp:48-58 | Over every run, a key that stays keeps its body, expiry and layer: nothing makes a temporary key permanent |
| IdentityWithoutGates.WithoutGatesTheyDeadlock | src/store/postgres/auth_identity_lock.cpp:96-130 | The gates are needed: the same transactions without them have, for any temporary and permanent key, a run from whole tables into a state where two deletions wait for each other and neither can take another step |
| AuthTables.BindBaseline | src/store/postgres/authorization_store.cpp:122-148 | The upsert and the deletion after it leave one cursor on the key, between the retained floor and the watermark |
| AuthTables.UpsertRaises | src/store/postgres/authorization_store.cpp:122-137 | A new update state starts at the watermark, the floor and the date; every field of an old one becomes the greater of its own and the baseline's |
| AuthTables.BindKeepsIntact | src/store/postgres/authorization_store.cpp:129-158 | The writes of a bind keep the tables whole |
| AuthTables.RevokeKeepsIntact | src/store/postgres/authorization_store.cpp:336-338 | The deletions of a revoke keep the tables whole |
| AuthTables.DeleteKeepsIntact | src/store/postgres/auth_key_store.cpp:177-195 | Deleting a key after its temporary keys keeps the tables whole and meets the restricting reference |
| AuthTables.SaveKeepsIntact | src/store/postgres/auth_key_store.cpp:48-58 | A save that the guard admits keeps the tables whole and changes nothing but the salt of any key that was there |
| AuthTables.SaveStores | src/store/postgres/auth_key_store.cpp:48-58 | After an admitted save the key's row has exactly that body, salt and expiry, so the key is temporary if and only if it expires; a new row has no layer, an old one keeps its own, and no other row of any table changes |
| AuthStores.WithAuthIdentityTx | src/store/postgres/auth_identity_lock.cpp:66-82 | The first attempt that commits ends it; which failures are retried, which are thrown and at which attempt, and that only a changed identity on the last attempt ends as unstable |
| AuthStores.AuthDatabase.Bind | src/store/postgres/authorization_store.cpp:76-163 | Ends with the first check that fails, told apart by the account, the key, its expiry and its layer, leaving every table as it was, or with exactly the tables the transaction system commits |
| AuthStores.AuthDatabase.MarkPasswordPassed | src/store/postgres/authorization_store.cpp:236-245 | Succeeds exactly for a pending authorization of the expected user, clears the mark and renews the creation time |
| AuthStores.AuthDatabase.RevokeByHash | src/store/postgres/authorization_store.cpp:254-286 | Removes one authorization of that user and hash with its cursors and returns it; returns nothing, in whole tables, exactly when there is none |
| AuthStores.AuthDatabase.RevokeCandidate | src/store/postgres/authorization_store.cpp:264-283 | A candidate, however old, is revoked exactly if its key exists and it still has that user and hash; otherwise nothing changes |
| AuthStores.AuthDatabase.RevokeByUserExcept | src/store/postgres/authorization_store.cpp:288-347 | Returns, in order of creation and then of key, and removes exactly the user's authorizations other than the kept key's |
| AuthStores.AuthDatabase.RevokeCandidates | src/store/postgres/authorization_store.cpp:315-346 | Of any candidates, those that are still the user's are removed and returned in that order, and the others left alone |
| AuthStores.AuthDatabase.Save | src/store/postgres/auth_key_store.cpp:48-58 | Succeeds exactly for a valid expiry and a new key or one with the same body and expiry; then the row has this body, salt and expiry and the layer it had, or none, and no other row changes; otherwise nothing changes |
| AuthStores.AuthDatabase.Delete | src/store/postgres/auth_key_store.cpp:161-197 | An unknown key is a silent success; a known one goes with its temporary keys, which are removed first |
| LoginResults.AtMostOneBindPerHash | src/auth/sign_in.cpp:59-208 | Over every interleaving, each phone_code_hash leads to at most one bind |
| LoginResults.BindsGoTheIssuedWay | src/auth/sign_in.cpp:68-103 | A hash binds through the erasing VerifyLogin, by the very call that erased it, if and only if it was issued for an owner; the others bind only through ConsumeSignUpVerified; either way the record is gone (LoginAccounts says which account it binds) |
| LoginResults.MismatchesAreBounded | src/store/memory/code_store.cpp:22-46 | A hash yields at most its limit of mismatches, and a live record counts exactly its own and has not reached the limit |
| LoginResults.SpentForGood | src/store/memory/code_store.cpp:22-56 | A record that was taken out never comes back and its taker never changes |
| LoginResults.OutcomesMatchBinds | src/auth/sign_in.cpp:150-208 | An authorized report means a bind without a pending password, a password request a bind with one, and any earlier failure no bind at all |
| LoginAccounts.SignInBindsLastOwner | src/auth/sign_in.cpp:67-173 | For every bind through VerifyLogin in every run there are the steps of its call at which it confirmed the owner, looked the owner up again and asked for a password: it binds the owner found last, who is the account the hash was issued for if and only if the phone has the same owner at both steps, and pending if and only if that account had a password when asked |
| LoginAccounts.StepsOnce | src/auth/sign_in.cpp:59-208 | A call takes each of these steps once at most, so the steps named above are the only ones |
| LoginAccounts.SteadyPhoneBindsItsOwner | src/auth/sign_in.cpp:67-173 | While its phone keeps its owner, a hash binds no other account than the one it was issued for |
| LoginAccounts.SignUpBindsWhomItCreated | src/auth/sign_in.cpp:175-208 | Every bind through ConsumeSignUpVerified is of the account its call created, for the phone the hash was issued for, when nobody owned it |
| LoginCodes.IssuedAsSent | src/auth/sign_in.cpp:112-148 | Every hash of every run was issued by a SendCode that drew it: its record has that call's phone and code and the owner the call had found, with nothing counted or marked |
| LoginCodes.VerifyDecides | src/auth/sign_in.cpp:86-87 | At its VerifyLogin a sign-in with the stored code is accepted, one with another code is refused and counted as a miss, and nothing else is |
| LoginCodes.AnswerFollowsCode | src/auth/sign_in.cpp:85-110 | In every run a sign-in whose owner has not changed expires if its record was gone, ends invalid with one more miss if its code is not the one the hash was issued with, and otherwise is asked to sign up or goes on to its account |
| LoginCodes.SignInHasTheCode | src/auth/sign_in.cpp:59-173 | Every bind through VerifyLogin is of a call that carries the code its hash was issued with |
| LoginCodes.SignUpIsAskedOfCode | src/auth/sign_in.cpp:75-110 | Only a call that carries that code is asked to sign up, whether it verified the code or found it verified |
| LoginCodes.MarkedByCode | src/store/memory/code_store.cpp:22-46 | A marked record was marked by a sign-in with its very code and phone, for a phone nobody owned then |
| LoginCodes.SignUpFollowsTheCode | src/auth/sign_in.cpp:175-208 | Every bind through ConsumeSignUpVerified was preceded by the step of a sign-in with the code and phone its hash was issued with |
| LoginCodes.DroppedForGood | src/auth/sign_in.cpp:67-97 | Once a call has dropped a hash, or undone its delivery, no later state of the run stores it |
| LoginCodes.UndeliveredIsUseless | src/auth/sign_in.cpp:126-147 | A hash whose delivery was reported as failed is not stored, then or later |
| LoginCodes.ChangedHands | src/auth/sign_in.cpp:67-97 | A call drops its code at each check exactly when the phone's owner is not the one it compares with; the last check of a sign-up refuses exactly then |
| LoginResults.LaterOwnerIsBound | src/auth/sign_in.cpp:66-103 | For any hash, phone, code and two accounts, a run in which the hash issued for one binds the other |
| LoginResults.OwnerIsBound | src/auth/sign_in.cpp:112-173 | The erasing way is open: for any hash, phone, code and owner, the right code logs the owner in when nothing interferes |
| LoginResults.NewcomerIsBound | src/auth/sign_in.cpp:112-208 | The consuming way is open: a code for an unowned phone asks for a sign-up, which creates the account and binds it |
| LoginInvariant.StepKeepsInv | src/auth/sign_in.cpp:59-208 | Every store call of every login call, and every change of owners and passwords, keeps the invariant |
| LoginInvariant.RunKeepsInv | src/auth/sign_in.cpp:59-208 | The login invariant holds in every state of every run |
| CodeStores.CodeStore.VerifyLogin | src/store/memory/code_store.cpp:22-46 | Accepts if and only if hash, phone and code are those stored, and is invalid if and only if only the code is wrong; a mismatch is counted and the last one erases; a match erases or marks; nothing else changes |
| CodeStores.CodeStore.ConsumeSignUpVerified | src/store/memory/code_store.cpp:48-56 | Takes a record out exactly when it is that phone's and marked, and otherwise changes nothing |
| CodeStores.CodeStore.Set | src/store/memory/code_store.cpp:5-8 | Stores under the hash and touches no other record |
| CodeStores.CodeStore.Del | src/store/memory/code_store.cpp:17-20 | Forgets the hash and nothing else |
| CodeStores.HexInjective | src/auth/sign_in.cpp:15-24 | Distinct random bytes give distinct hashes |
| CodeStores.RandomHex | src/auth/sign_in.cpp:15-24 | The loop writes the two hex digits of every byte in place |
| Srp.ServerExpectsClientProof | src/mtproto/crypto/srp.cpp:116-209 | For every password, salt, client exponent and server secret, the M1 the server computes is the client's, unless u is zero, and then it refuses; A and the verifier never fall out of range |
| Srp.ClientUnmasksB | src/mtproto/crypto/srp.cpp:116-133 | Subtracting k*v from B gives back the server's power of g, whichever way the sum wrapped and whatever the hash |
| Srp.SharedSecret | src/mtproto/crypto/srp.cpp:135-209 | (A * v^u)^b and (B - k*v)^(a + u*x) are the same number |
| Srp.PublicValueIsGood | src/mtproto/crypto/bignum_util.hpp:135-139 | A power of the generator always passes the range check, at any length of its bytes |
| Srp.ExpectedProof | src/mtproto/crypto/srp.cpp:135-166 | In numbers: which A, verifier and u the server refuses, and otherwise that it expects the proof of (A * v^u)^b modulo P, whatever reductions and paddings are in between |
| Srp.ProofByPosition | src/mtproto/crypto/srp.cpp:153-166 | The 640 hashed bytes are H(p) xor H(g), H(salt1), H(salt2), A, B and K, in this order |
| Srp.PasswordHash | src/mtproto/crypto/srp.cpp:67-90 | The exponent behind a password, as one formula of its two salts |
| Srp.SrpPadToHash | src/mtproto/crypto/srp.cpp:108-114 | Left-pads short input to 256 bytes and keeps the last 256 of longer input |
| Srp.Xor32 | src/mtproto/crypto/srp.cpp:48-52 | The bytewise exclusive or, of which PH1-masked salts are made |
| ModArith.PowersOfThree | src/mtproto/crypto/srp.cpp:92-102 | No power of 3 vanishes modulo the fixed prime P |
| ModArith.PowersCommute | src/mtproto/crypto/dh.cpp:58-74 | Raising to d then e or e then d agree, with reductions in between |
| Bignum.PaddedMinimal | src/mtproto/crypto/bignum_util.hpp:31-48 | Minimal bytes padded with zeros on the left are the fixed-length bytes of the same value |
| Bignum.FixedBytesFits | src/mtproto/crypto/bignum_util.hpp:39-48 | A fixed-length conversion succeeds exactly for values below 256^n, and then without loss |
| Passwords.RightPasswordIsAccepted | src/auth/check_password.cpp:31-103 | After any calls of GetPassword for any users, a proof of the right password made from the last challenge told to that user is accepted, unless u is zero |
| Passwords.FreshChallengeAccepts | src/auth/check_password.cpp:81-103 | The same right after one call |
| Passwords.AnyPasswordCanBeHeld | src/mtproto/crypto/srp.cpp:168-174 | For every password and salt there are settings that hold it, so the acceptance results speak of every password |
| Passwords.ChallengeIsLive | src/auth/check_password.cpp:81-98 | A rolled challenge has 256 bytes of B, the secret that was drawn, and the id the account had or else a draw that is never the unassigned one |
| Passwords.GetsKeepAccounts | src/auth/check_password.cpp:19-29 | Rolling challenges never changes anybody's password, verifier, algorithms or id once assigned |
| Passwords.LoadCompletes | src/auth/check_password.cpp:19-29 | Loaded settings lack nothing a client needs, and whatever was stored is kept |
| Passwords.GetPassword | src/auth/check_password.cpp:81-98 | Saves only a rolled challenge of that user, and only when there is a password; what it returns is what is then stored |
| Passwords.CheckPassword | src/auth/check_password.cpp:31-103 | An empty check passes exactly for accounts without a password; any other exactly if it names the live challenge and proves (A * v^u)^b for an A and a verifier strictly between 0 and P and a u that is not zero; a wrong id is reported before a missing challenge |
| DiffieHellman.GenerateGa | src/mtproto/server_exchange.cpp:87-113 | Returns the first drawn exponent whose power is in the safe range, and keeps drawing only while none is |
| DiffieHellman.SafeValuePasses | src/mtproto/crypto/dh.cpp:91-126 | A value strictly between 2^1984 = 256^248 and P - 2^1984 passes CheckDHParams, whose verdict is then only about the other party's |
| DiffieHellman.WhichGroupsPass | src/mtproto/crypto/dh.cpp:76-89 | Which generators pass for which remainders of p, and that no other generator is known |
| DiffieHellman.WhichParametersPass | src/mtproto/crypto/dh.cpp:91-126 | CheckDHParams passes if and only if g is no trivial value and both public values are safe |
| DiffieHellman.FixedPrimePasses | src/mtproto/crypto/dh.cpp:76-89 | The deployed prime and generator pass the subgroup check |
| DiffieHellman.KeysAgree | src/mtproto/server_exchange.cpp:300-306 | The server's 256-byte key g_b^a and the client's g_a^b are the same bytes, for every pair of exponents |
| Crc32.Table | src/mtproto/transport/crc32.hpp:13-24 | The nested loops fill entry i with eight bit steps of i |
| Crc32.Crc32Ieee | src/mtproto/transport/crc32.hpp:26-33 | The table-driven loop equals the bit-by-bit reflected CRC on every byte string |
| Crc32.CheckValues | src/mtproto/transport/crc32.hpp:13-33 | The CRCs of the empty string and of the letter a are the published ones |
| Crc32.TableStep | src/mtproto/transport/crc32.hpp:26-33 | Eight steps are the table entry of the low byte, mixed with the rest shifted down |
| Crc32.StepIsInjective | src/mtproto/transport/crc32.hpp:13-24 | One bit step never merges two registers |
| Crc32.OneByteChangesCrc | src/mtproto/transport/crc32.hpp:26-33 | Strings of one length that differ in one byte have different CRCs |
| Codecs.OneByteIsRejected | src/mtproto/transport/full_codec.cpp:38-65 | Every change of one byte after the length field of a Full frame makes it unreadable |
| Codecs.WrongNumberIsRejected | src/mtproto/transport/full_codec.cpp:38-65 | A Full frame with another number than the expected one is refused as that |
| Codecs.WhatIsSent | include/shuzagram/mtproto/transport/codec.hpp:93-125 | Exactly payloads of a positive length up to 2^24 bytes are sent, of whole words in all framings but Full |
| Codecs.AbridgedByPosition | include/shuzagram/mtproto/transport/abridged_codec.hpp:27-43 | Which byte of an abridged frame is what |
| Codecs.LengthByPosition | include/shuzagram/mtproto/transport/intermediate_codec.hpp:53-57 | Which byte of an intermediate or padded frame is what |
| Codecs.FullByPosition | src/mtproto/transport/full_codec.cpp:16-36 | Which byte of a Full frame is what: its own length, its number, the payload |
| Codecs.FourBytesAreACode | include/shuzagram/mtproto/transport/codec.hpp:93-125 | A frame of four bytes is an error code with its sign turned |
| Codecs.FrameTrip | include/shuzagram/mtproto/transport/codec.hpp:93-125 | For each of the four framings, a written frame reads back, leaving what follows it, if and only if its length and number are within stated limits |
| Codecs.ConversationTrip | include/shuzagram/mtproto/transport/codec.hpp:93-125 | Any sequence of payloads reads back as the same sequence and leaves nothing over |
| CodecObjects.AbridgedCodec.Write | include/shuzagram/mtproto/transport/abridged_codec.hpp:27-43 | Sends exactly the one frame the framing defines, or refuses and sends nothing |
| CodecObjects.AbridgedCodec.Read | include/shuzagram/mtproto/transport/abridged_codec.hpp:45-76 | Takes exactly one frame off the stream, one-byte or extended length, or fails as the framing says |
| CodecObjects.IntermediateCodec.Write | include/shuzagram/mtproto/transport/intermediate_codec.hpp:53-57 | Sends exactly the frame, or refuses and sends nothing |
| CodecObjects.IntermediateCodec.Read | include/shuzagram/mtproto/transport/intermediate_codec.hpp:59-63 | Takes exactly one frame off the stream, or fails as the framing says |
| CodecObjects.PaddedIntermediateCodec.Write | include/shuzagram/mtproto/transport/intermediate_codec.hpp:81-101 | Sends the payload with the random bytes its last byte asks for |
| CodecObjects.PaddedIntermediateCodec.Read | include/shuzagram/mtproto/transport/intermediate_codec.hpp:103-110 | Takes one frame and drops what is over a multiple of four |
| CodecObjects.FullCodec.Write | src/mtproto/transport/full_codec.cpp:16-36 | Sends the frame with its number and CRC and counts it; a refused payload is not counted |
| CodecObjects.FullCodec.Read | src/mtproto/transport/full_codec.cpp:38-65 | Accepts one frame of the right length, CRC and number; a whole frame is taken off the stream and counted even when it is then refused, and nothing is counted otherwise |
| Ctr.ChunksJoin | src/mtproto/crypto/aes_ctr.cpp:47-59 | Any chunking of the data gives the bytes of the whole: the keystream position lines up |
| Ctr.AppliedTwice | src/mtproto/crypto/aes_ctr.cpp:47-59 | The same stretch of keystream undoes itself |
| Ctr.StreamIsCounterMode | src/mtproto/crypto/aes_ctr.cpp:30-59 | Block n of the key stream is the cipher of the IV plus n as a 128-bit number that wraps; block 0 is that of the IV |
| Ctr.CounterValue | src/mtproto/crypto/aes_ctr.cpp:30-59 | Counting up byte by byte with carry is adding one modulo 2^128 |
| Ctr.CtrStream.XorKeyStream | src/mtproto/crypto/aes_ctr.cpp:47-59 | Applies the keystream in place from where the last call stopped and moves past it |
| Ctr.CreateObfuscated2Streams | src/mtproto/transport/obfuscated2.cpp:38-57 | Both streams of the initiating side, keyed from the init and from its reversed middle, mixed with the secret |
| Ctr.KeysByPosition | src/mtproto/transport/obfuscated2.cpp:38-57 | Which byte of the init is which byte of each key and IV, and where the secret enters |
| Ctr.AcceptObfuscated2 | src/mtproto/transport/obfuscated2.cpp:59-84 | The accepting side's streams are the initiating side's with roles swapped, one of them 64 bytes on |
| Ctr.ServerSeesTag | src/mtproto/transport/obfuscated2.cpp:59-84 | From the bytes on the wire the server derives the client's keys and reads its tag and data centre |
| ByteStrings.ReverseInPlace | src/mtproto/transport/obfuscated2.cpp:12-18 | Reverses an array in place |
| Detection.PlainStartsAreSeen | src/mtproto/transport/detect_transport.cpp:37-75 | After the one or four bytes with which an abridged, intermediate or padded client starts, that codec is picked and the rest of the stream is its input |
| Detection.FullIsSeen | src/mtproto/transport/detect_transport.cpp:37-109 | A Full client is recognized if and only if its first length field does not begin with 0xEF, which holds for 4-aligned payloads; the looked-at bytes are replayed |
| Detection.ObfuscatedIsSeen | src/mtproto/transport/detect_transport.cpp:37-109 | An obfuscated2 client is taken for one of its own framing if and only if its init avoids the markers, the reserved prefixes and a zero second word and its bytes 56 to 59 are that framing's (four EF, EE or DD); with other bytes there it is refused; both directions carry exactly the plain bytes |
| Detection.ReservedPrefixes | src/mtproto/transport/detect_transport.cpp:21-33 | The starts refused outright are those of the four HTTP methods and one prefix more |
| Detection.RecognizedClient | src/mtproto/transport/detect_transport.cpp:37-109 | Every client that keeps those conditions gets the codec of the framing it speaks and a transparent pair of streams |
| Detection.PayloadsArrive | src/mtproto/transport/detect_transport.cpp:37-109 | What such a client writes in whatever transport, the server reads: the same payloads in order, and nothing over |
| Transports.DetectTransport | src/mtproto/transport/detect_transport.cpp:37-109 | Reading the connection piece by piece, it picks the codec Detection names and hands over streams that carry its plain bytes |
| Transports.Transport.ReadExact | src/mtproto/transport/detect_transport.cpp:76-108 | The next n plain bytes, over the seam between replayed or decrypted bytes and the connection, however the reads are chunked |
| Transports.Transport.Write | src/mtproto/transport/detect_transport.cpp:76-108 | What goes on the wire is all that was ever sent, encrypted as one stretch |
| Ige.DecryptUndoesEncrypt | src/mtproto/crypto/aes_ige.cpp:66-115 | IGE decryption undoes encryption for any inverse pair of block functions |
| Ige.EncryptUndoesDecrypt | src/mtproto/crypto/aes_ige.cpp:66-115 | And encryption undoes decryption |
| Ige.PartsChain | src/mtproto/crypto/aes_ige.cpp:66-89 | A concatenation encrypts like its parts, the second with the last ciphertext and plaintext blocks of the first as its IV |
| Ige.IgeTrip | src/mtproto/crypto/aes_ige.cpp:59-115 | Both directions accept exactly an IV of 32 bytes, whole blocks and keys of 16, 24 or 32 bytes, and are inverse on all of them |
| Ige.IgeEncrypt | src/mtproto/crypto/aes_ige.cpp:66-89 | The block loop over its chaining buffers is the recursive definition, and refuses bad arguments |
| Ige.IgeDecrypt | src/mtproto/crypto/aes_ige.cpp:91-115 | The same for decryption |
| RsaPadding.GreaterOrEqual | src/mtproto/crypto/rsa_pad.cpp:43-49 | Comparing byte by byte is comparing big-endian numbers, and unequal lengths are refused |
| RsaPadding.RsaPad | src/mtproto/crypto/rsa_pad.cpp:58-98 | Refuses over 144 bytes; otherwise encrypts the first drawn attempt below the modulus, and goes on only while none is |
| RsaPadding.RsaUnpad | src/mtproto/crypto/rsa_pad.cpp:100-120 | The in-place steps give the unpadded bytes, or a hash mismatch |
| RsaPadding.AttemptUnpads | src/mtproto/crypto/rsa_pad.cpp:58-120 | Every attempt, for whichever temporary key, unpads to the padded data |
| RsaPadding.OnlyAttemptsUnpad | src/mtproto/crypto/rsa_pad.cpp:58-120 | 256 bytes unpad to something if and only if they are an attempt at padding it, with its hash intact |
| RsaPadding.RsaTrip | src/mtproto/crypto/rsa_pad.cpp:58-120 | Whatever the loop returns unpads to 192 bytes that begin with the data |
| ExchangeAnswers.DataWithHash | src/mtproto/crypto/dh.cpp:167-175 | Whole blocks, with at most 15 bytes of padding |
| ExchangeAnswers.GuessDataWithHash | src/mtproto/crypto/dh.cpp:177-189 | The loop returns the longest matching prefix |
| ExchangeAnswers.GuessSound | src/mtproto/crypto/dh.cpp:177-189 | A returned value has the stored hash, drops at most 15 bytes and is the longest such; failure means there is none |
| ExchangeAnswers.GuessTrip | src/mtproto/crypto/dh.cpp:167-189 | Padded data is guessed back if and only if no longer candidate has its hash |
| ExchangeAnswers.AnswerTrip | src/mtproto/crypto/dh.cpp:191-201 | A decrypted answer is the encrypted one under that same condition |
| MessageCipher.CountPadding | src/mtproto/crypto/message_cipher.cpp:86-91 | From 12 to 267 bytes that fill whole blocks: the least such count from 12 to 27, and as many further blocks as the random byte says |
| MessageCipher.PaddingAligns | src/mtproto/crypto/message_cipher.cpp:86-91 | Always from 12 to 267 bytes, to whole blocks, even where the length wraps 32 bits |
| MessageCipher.EncryptMessage | src/mtproto/crypto/message_cipher.cpp:108-136 | Writes header, data and padding into the buffer and seals whole blocks |
| MessageCipher.DecryptMessage | src/mtproto/crypto/message_cipher.cpp:138-171 | Consumes the opened plaintext field by field, with the error of the first check that fails |
| MessageCipher.MessageTrip | src/mtproto/crypto/message_cipher.cpp:108-171 | The opposite side recovers salt, session, message id, sequence number and data if and only if the data is 4-aligned and its length with padding fits 32 bits |
| MessageCipher.OnlySealedOpens | src/mtproto/crypto/message_cipher.cpp:108-171 | A message opens to some fields and data if and only if it is what the opposite side seals for them, with the right key id and message key, 4-aligned data and at most 1024 bytes of padding: nothing else is accepted |
| MessageCipher.KeysByPosition | src/mtproto/crypto/message_cipher.cpp:40-84 | Which bytes of the auth key and of which hashes make the message key, the cipher key and the IV of either direction, and the key id |
| MessageCipher.EnvelopeTrip | src/mtproto/crypto/message_cipher.cpp:93-106 | The wire form of an encrypted message decodes to it |
| MessageCipher.EnvelopeBack | src/mtproto/crypto/message_cipher.cpp:93-106 | And what decodes is re-encoded byte for byte |
| BindEnvelope.EncryptBindMessage | src/mtproto/crypto/bind.cpp:21-62 | The buffer steps build the sealed envelope; the zero key is refused |
| BindEnvelope.DecryptBindAuthKeyInner | src/mtproto/crypto/bind.cpp:64-113 | The buffer steps open the envelope, with the error of the first check that fails |
| BindEnvelope.BindTrip | src/mtproto/crypto/bind.cpp:21-113 | What was wrapped under a permanent key comes out under it, for any random bytes |
| BindEnvelope.OnlyEnvelopesCount | src/mtproto/crypto/bind.cpp:64-113 | An inner structure comes out if and only if the wire is an envelope of it under that key, with the message key of its header and body |
| BindEnvelope.OldKeysByPosition | src/mtproto/crypto/bind.cpp:21-62 | Which bytes of which hashes make the old schedule's key and IV |
| TlBuffers.BytesTrip | include/shuzagram/mtproto/tl_buffer.hpp:76-178 | An encoded string reads back and leaves what follows if and only if its length fits three bytes; its encoding is whole words |
| TlBuffers.ShortByPosition | include/shuzagram/mtproto/tl_buffer.hpp:76-95 | Which byte of a short encoded string is what |
| TlBuffers.LongByPosition | include/shuzagram/mtproto/tl_buffer.hpp:76-95 | Which byte of a longer encoded string is what |
| TlBuffers.VectorHeaderTrip | include/shuzagram/mtproto/tl_buffer.hpp:97-183 | A vector's header reads back as its length wrapped to 32 bits, which is the length if and only if it is below 2^31 |
| TlBuffers.BytesShrink | include/shuzagram/mtproto/tl_buffer.hpp:157-178 | A read of a string consumes four bytes at least |
| TlBuffers.TLBuffer.PutBytes | include/shuzagram/mtproto/tl_buffer.hpp:76-95 | Appends the encoding to the buffer in place |
| TlBuffers.TLBuffer.GetBytes | include/shuzagram/mtproto/tl_buffer.hpp:157-178 | Removes one string from the front, or fails and leaves the buffer as it was |
| Invoke.JsonSkipped | include/shuzagram/mtproto/messages/invoke.hpp:46-88 | Skipping consumes exactly the encoding of any JSON tree |
| Invoke.SkipDecodes | include/shuzagram/mtproto/messages/invoke.hpp:46-88 | On every input, skipping is decoding the tree and dropping it: the same bytes are left, or the same error |
| Invoke.SkipJsonValue | include/shuzagram/mtproto/messages/invoke.hpp:46-88 | The recursion over the shared buffer terminates on every input and leaves what the definition says |
| InvokeWrappers.WrappersVanish | include/shuzagram/mtproto/messages/invoke.hpp:101-148 | Any nesting of the four wrappers, with or without proxy and parameters, changes nothing of what is left |
| InvokeWrappers.InnerCallIsLeft | include/shuzagram/mtproto/messages/invoke.hpp:101-148 | The inner call's bytes are left exactly, if and only if they do not begin with a wrapper's id |
| InvokeWrappers.UnwrapShrinks | include/shuzagram/mtproto/messages/invoke.hpp:101-148 | What unwrapping leaves is the end of the buffer it was given |
| Invoke.SkipLeavesSuffix | include/shuzagram/mtproto/messages/invoke.hpp:46-88 | Skipping a value, well-formed or not, only ever takes from the front of the buffer |
| InvokeWrappers.UnwrapInvokeWrappers | include/shuzagram/mtproto/messages/invoke.hpp:101-148 | The loop terminates on every buffer and leaves what the definition says |
| Sessions.DispatchAnswers | src/mtproto/session.cpp:52-185 | Exactly the acknowledgements go unanswered. Every other message gets what it is owed: both pings a pong with the ping's own id, a call its handler's result byte for byte, a 400 that names the call when there is none, a 500 when the wrappers cannot be taken off; and it fails exactly when a ping ends early or a handler throws |
| Sessions.AnswersCarryId | src/mtproto/session.cpp:52-185 | Every answer begins with the id of a pong or a result and then its own message's id |
| Sessions.ErrorNamesId | src/mtproto/session.cpp:165-176 | The eight hexadecimal digits of a METHOD_NOT_FOUND stand for the call's id |
| SessionRuns.MtprotoSession.DispatchOne | src/mtproto/session.cpp:52-185 | Unwraps and answers by the id then in front, with what the message is owed; the dispatch loop runs it on each inner message |
| SessionRuns.MtprotoSession.NextSeqNo | src/mtproto/session.cpp:34-44 | Odd and counted for content, even and uncounted otherwise |
| SessionRuns.MtprotoSession.HandleEncrypted | src/mtproto/session.cpp:187-227 | An accepted message advances the session as the run lemmas assume; one that cannot be decrypted changes nothing; and what a replayed, malformed or failing one leaves of the session |
| SessionRuns.IdsIncrease | src/mtproto/session.cpp:187-227 | Over any run, accepted message ids strictly increase |
| SessionRuns.SeqNosAreOdd | src/mtproto/session.cpp:34-50 | Over any run, across calls and containers, outgoing sequence numbers are 1, 3, 5, ..., as 32-bit integers |
| SessionRuns.RepliesMatch | src/mtproto/session.cpp:187-227 | In every call of every run the replies are, one to one and in order, what the inner messages that are not acknowledgements are owed, under the call's session id and the session's salt |
| SessionRuns.ContainerTrip | src/mtproto/session.cpp:204-219 | The messages a client puts in a container are those the session finds, in order and whatever their sequence numbers; any other message is found as it is |
| Handshakes.NextIgnoresAcks | src/mtproto/server_exchange.cpp:54-72 | The reader skips acknowledgements and nothing else, and accounts for every frame it takes |
| Handshakes.AwaitParamsIgnoresAcks | src/mtproto/server_exchange.cpp:144-322 | Through any number of repeated req_pq, acknowledgements in the input change nothing |
| Handshakes.RunIgnoresAcks | src/mtproto/server_exchange.cpp:144-322 | Neither the result nor the written frames of an exchange depend on acknowledgements, and the frames it takes, also when it fails, are the front of the others, once and in order |
| Agreements.KindsByPosition | src/mtproto/server_exchange.cpp:33-72 | What a frame is taken for, by its bytes: encrypted unless it begins with eight zeros; a message only with a client's message id and a length that is there; an acknowledgement by its id |
| Agreements.WhenItExpires | src/mtproto/server_exchange.cpp:222-249 | A permanent key expires at 0, a temporary one at now plus its lifetime, and it is refused exactly when that lifetime is not positive or the sum leaves 31 bits |
| Agreements.AgreementIsEarned | src/mtproto/server_exchange.cpp:144-322 | An exchange that ends in a key has read only req_pqs, a request whose RSA part unpads to a p_q_inner_data, and an answer that gives the key; it has written one resPQ for each of the first, the parameters and dh_gen_ok; and key, salt and expiry follow from what was read |
| Agreements.AgreedKeysCanBeSaved | src/mtproto/server_exchange.cpp:222-249 | The key store takes the expiry of every agreed key, which is a temporary key's exactly when one was asked for |
| Connections.AcksChangeNothing | src/mtproto/tcp_handshake_server.cpp:146-228 | From any point of a connection, removing the acknowledgements changes neither the keys agreed nor anything written, by handshakes, by a refusal or by the session, nor the frames used |
| Connections.InsertedAcksChangeNothing | src/mtproto/tcp_handshake_server.cpp:146-228 | Two inputs that differ in acknowledgements only, wherever they are, have one trace, every written frame included |
| Connections.FramesGoInOrder | src/mtproto/tcp_handshake_server.cpp:146-228 | However a connection ends, its handshakes took the front of the frames that are no acknowledgements, once and in order; the next went to the session, if there is one, as the pending first frame, and those after it to the session, up to the frame it fails on, if there is one |
| ConnectionEnds.HandshakesEnd | src/mtproto/tcp_handshake_server.cpp:146-202 | Every connection with a registry either has an exchange that fails, or comes to a frame under some key: then the session runs under the key agreed last if it is that one's, else under the key and salt the resolver knows, and a key nobody knows is answered by the four bytes of -404, no session and nothing else |
| ConnectionEnds.ReconnectingClient | src/mtproto/tcp_handshake_server.cpp:169-193 | A client whose first frame is under a key the resolver knows gets its session from that frame on, and nothing else is written; under an unknown key all that is written is -404 |
| ConnectionEnds.NoRegistryNoSession | src/mtproto/tcp_handshake_server.cpp:166-196 | Without a registry a connection is one exchange at most: nothing else is written, not even -404, and there is no session |
| ConnectionEnds.WhatIsPassedOver | src/mtproto/tcp_handshake_server.cpp:33-60 | A session passes over exactly the plain frames that carry an acknowledgement's id, and never a frame under a key |
| Connections.ReadNextRealHandshakeMessage | src/mtproto/server_exchange.cpp:54-72 | The reading loop returns what the definition says and leaves the rest unread |
| Connections.AwaitParameters | src/mtproto/server_exchange.cpp:144-240 | The resPQ loop, with its nonce replaced at each repetition, is the recursive exchange |
| Connections.RunExchange | src/mtproto/server_exchange.cpp:144-322 | Reads and writes exactly the frames the exchange is defined to |
| Connections.Serve | src/mtproto/tcp_handshake_server.cpp:146-228 | The connection's loops, reading from the link and writing to it, have the trace the lemmas are about, and what they write is exactly what the trace says, the -404 refusal and the session's replies included |
| SessionLoops.ServeSession | src/mtproto/tcp_handshake_server.cpp:204-228 | The session's loop handles and writes, over the link, what the recursive session is defined to |
| SessionLoops.HandleFrame | src/mtproto/tcp_handshake_server.cpp:206-218 | All replies to a frame are written encrypted, in order, or, when it cannot be handled, none |
| SessionLoops.ServiceIgnoresAcks | src/mtproto/tcp_handshake_server.cpp:222-228 | Acknowledgements between its frames change neither what a session handles nor what it writes |
| SessionLoops.HandledInOrder | src/mtproto/tcp_handshake_server.cpp:220-228 | A session is given its first frame and then, in order, all that are no acknowledgements, up to one it fails on |
| SessionReplies.SessionIsOneRun | src/mtproto/tcp_handshake_server.cpp:204-228 | The session phase is one run of the session object, with one call for every frame handled, of what that frame opens to, and writes exactly the replies of that run, in order |
| SessionReplies.ClientReadsReplies | src/mtproto/session.cpp:46-50 | The client opens the i-th frame a session writes to the i-th reply of that run, numbered 2i + 1 in 32 bits, if and only if its body is whole words and fits 32 bits with its padding |
| HonestExchange.HonestClientAgrees | src/mtproto/server_exchange.cpp:144-322 | For every honest client and every draw of either side, the client reads in each server message what the server put there, and the exchange ends with the client's key, the client's salt and the expiry it asked for, proved to it by dh_gen_ok, having taken its three frames; given that RSA inverts below the modulus and no longer candidate prefix collides with a stored hash |
| HonestExchange.AcknowledgingClientAgrees | src/mtproto/server_exchange.cpp:54-72 | And so it does with acknowledgements sent in between, anywhere |
| HonestExchange.RequestUnpads | src/mtproto/server_exchange.cpp:205-220 | The server gets out of RSA_PAD exactly the padded p_q_inner_data the client put in |
| HonestExchange.InnerRead | include/shuzagram/mtproto/messages/handshake.hpp:87-126 | All three variants of p_q_inner_data are read back, whatever padding follows: the new nonce, whether the key is temporary, and for how long |
| HonestExchange.OneKey | src/mtproto/server_exchange.cpp:289-306 | From the client's sealed g_b the server calculates the client's key |
| HonestConnection.HonestClientIsServed | src/mtproto/tcp_handshake_server.cpp:146-228 | An honest client's connection agrees on its key, turns to a session with the first frame under that key, and serves the frames from there on under that key and the client's salt |
| ServerCrypto.PlainReads | include/shuzagram/mtproto/unencrypted_message.hpp:86-108 | A plain frame decodes to its message id and data |
| ServerCrypto.ServerSalt | src/mtproto/crypto/dh.cpp:144-152 | The loop over the eight bytes gives the little-endian exclusive or of the nonces' fronts |
| ServerCrypto.TempAesKeys | src/mtproto/crypto/dh.cpp:128-142 | The buffers end as the key and the IV both sides use |
| ServerCrypto.TempKeysByPosition | src/mtproto/crypto/dh.cpp:128-142 | Which bytes of which hashes make the temporary key and IV |
| ServerCrypto.NonceHashByPosition | src/mtproto/crypto/dh.cpp:154-165 | Which bytes of which hash prove the key |
| GetUsers.ResolveGetUsers | src/users/get_users.cpp:10-70 | The batched lookup answers, in input order, as if each input were resolved alone |
| GetUsers.KeptSuffices | src/users/get_users.cpp:10-70 | What the first pass drops would have resolved to nothing |
| GetUsers.ExactlyTheNamed | src/users/get_users.cpp:10-70 | The answer has, in input order, one entry for each input that names a stored user and may see it, by hash 0 or the user's own, or as the caller, and that user in it; inputs without an entry name nobody |
| GetUsers.BatchesSplit | src/users/get_users.cpp:10-70 | A request in two parts is the two answers in order |
| GetUsers.OnlyOwnIsSelf | src/users/get_users.cpp:10-70 | Nobody unauthorized gets an entry, and only one's own is shown as self |
| GetUsers.ResolveCurrentUser | src/auth/current_user.cpp:5-10 | A key is authorized exactly if it has an authorization without a pending password, and speaks for that row's user, or for nobody |

## Left out

* Creating a binding: `telesrv_bind_temp_auth_key` is a database function that is not part of this model, so bindings are there at the start of a run and only disappear.
* `LoadBindingKeys`, `Get`, `Revalidate`, `UpdateClientInfo`, `DeleteByHash` and `DeleteByUserExcept` take no gates and are not steps; an authorization key's row changes only by Save and Delete.
* The cascade from keys to bindings and authorizations and the restricting reference from bindings are the schema's, not the code's, and are assumed.
* Locks on update states are one per key rather than one per row; the row locks of a revoke's re-read and deletions are taken one at a time in any order, rather than in the order of the rows; serialization failures other than a changed identity do not occur in the transaction system, only in the retry loop.
* The hash derived from a key when none is given is not modelled, and device metadata is one field.
- LoginResults.AtMostOneBindPerHash: hashes are drawn fresh by assumption; two calls drawing the same eight random bytes are not modelled.
* Normalizing and validating phone numbers and names, delivery requests, generated codes and the lifetime of codes: the caller's phone string is already normal, and delivery either works or fails.
* The authorization template's other fields in SignIn and SignUp; a sign-up binds without a pending password.
* SHA-1, SHA-256, PBKDF2, AES and raw RSA themselves, random generators and big-number code: parameters, or mathematics on naturals. Two password fields that no modelled function reads (hint and recovery).
- DiffieHellman.GenerateGa: the draws are a finite sequence; a loop that has used them all is reported as still drawing.
- RsaPadding.RsaPad: the draws are a finite sequence; a loop that has used them all is reported as still drawing.
- Detection.ObfuscatedIsSeen: secrets of 1 to 15 bytes, of which the code would read past the end, are excluded.
- Ctr.CreateObfuscated2Streams: the same secrets are excluded.
- Ctr.AcceptObfuscated2: the same secrets are excluded.
- CodecObjects.FullCodec.Read: what is left of a stream that ends within a frame is not stated, and the counters do not wrap at 64 bits.
- TlBuffers.TLBuffer.GetBytes: running out of memory on huge declared lengths is not modelled.
- SessionRuns.MtprotoSession.HandleEncrypted: handlers are functions of the call and its position, and replies are encrypted where they are written, with the message id (a clock) and the random bytes of each as inputs.
- Connections.Serve: what an exchange calculates is a parameter (ServerCrypto gives the server's own), sockets are lists of frames, writing a frame does not fail, and a connection ends where its input does.
- GetUsers.ResolveGetUsers: the store does not change during the call.
* Threads, sockets, listeners, HTTP, logging and debugging output, configuration.
* Response layouts, error strings, user profiles: many cases, none of them hard.
* That nobody without the key can make a message that opens, or a proof that passes: a matter of the hashes and the cipher, not of this code.
