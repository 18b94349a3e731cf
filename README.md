# WAKE, modelled in Dafny

WAKE extends Burmester–Desmedt group key exchange. Every message a party
sends is signed with a zero-knowledge proof that the party's wallet holds at
least a minimum balance. There are four variants:

- compiler Bulletproofs WAKE: Pedersen commitments to the balances, signed with Bulletproofs range proofs;
- compiler GM17 WAKE: MiMC images of the balances, signed with a GM17 SNARK;
- optimized GM17 WAKE: a discrete-log proof of the round-1 secret bound to a GM17 proof;
- optimized Bulletproofs WAKE: the same pairing with a range proof (its signature only).

This project models four things:

- the plain Burmester–Desmedt exchange;
- the three complete protocols (setup, rounds, receivers' checks, key computation);
- the four signature schemes with their message renderings;
- the proof systems they are built on (a Schnorr-style discrete-log proof, a range proof wrapper, the GM17 darkpool circuit) and the shared utilities (hex rendering, `upperbound_log`, cyclic neighbours, MiMC, `fr_to_bits`).

## Representation

Each group has a concrete stand-in:

- A Ristretto point is its discrete logarithm with respect to the basepoint B: an integer mod the group order L, with B = 1. `Compress` writes the logarithm as 32 little-endian bytes.
- `PedersenGens` carries the (unknown) logarithm of `B_blinding` as a parameter.
- A BLS12-377 field element is an integer mod its prime P.

With these, the Burmester–Desmedt equal-key property becomes a ring identity: every party's key is B·Σ_j r_j·r_{j+1}.

The hash and the proof libraries are modelled as follows:

- **SHA-256** is a function parameter `Sha256`.
- **Bulletproofs, Merlin and ark_gm17** are ideal functionalities. A proof records what it was made about: a commitment, a transcript, a key, public inputs, whether the witness satisfied the circuit. `verify` compares those records with the verifier's.
- **Randomness** (`OsRng`, `Scalar::random`, `rng.gen()`) is passed in as parameters.
- **A u64 panic** (underflow, `unwrap` of an error) that the source can reach becomes a precondition. The exception is the setup commitment of the Bulletproofs protocol, which is a finding (below).

The GM17 circuit's witness arithmetic is modelled step by step. `GenerateConstraints` runs the bit loop and the MiMC loop on field elements and returns the public inputs and whether every enforced constraint holds.

Every `Run` method is proved against its contract:

- an input the setup rejects gives the setup's error;
- otherwise every receiver's scan passes, and every party gets the same group key.

For the Bulletproofs protocol the scans always pass. For the GM17 protocols the scans pass when each party's proving key was generated for the protocol's darkpool circuit (its round constants and bit count) and matches its verifying key, and the circuit's bit size covers the upper bound (`KeysFit`). A GM17 proof records the circuit it was synthesised for, so keys from another darkpool reject it. Those keys come from outside the protocol, so without `KeysFit` the only possible failure is "Verification of signature failed".

## Model

| member | source | states |
|---|---|---|
| Text.ToHex | src/utility.rs:88-92 | the rendering has two lower-case hex characters per byte |
| Text.HexRoundTrip | src/utility.rs:88-99 | decoding the hex rendering of any byte string gives the byte string back |
| Text.HexInjective | src/utility.rs:88-99 | distinct byte strings have distinct hex renderings |
| Text.LeRoundTrip | src/utility.rs:95-99 | a value below 256^k is recovered from its k little-endian bytes (`to_bytes` of a scalar) |
| Text.LeBytesOfValue | src/utility.rs:95-99 | every byte string is the little-endian encoding of the value it denotes |
| Text.Decimal | src/protocols/compiler_bp_wake/compiler_bp_wake_signature.rs:27-29 | `usize::to_string` is a non-empty string of decimal digits |
| Text.DecimalRoundTrip | src/protocols/compiler_bp_wake/compiler_bp_wake_signature.rs:27-29 | parsing the decimal rendering of an index gives the index back |
| Text.DecimalInjective | src/protocols/compiler_bp_wake/compiler_bp_wake_signature.rs:27-29 | distinct indices render differently |
| Text.SplitJoin | src/protocols/compiler_bp_wake/compiler_bp_wake_signature.rs:27-29 | fields without '#' joined with "##" split back into exactly those fields, so a "##"-joined message is uniquely decodable |
| Utility.UpperboundLog | src/utility.rs:51-70 | a failure carries the message "Upperbound should be either 2^8, 2^16, 2^32 or 2^64" |
| Utility.UpperboundLogExact | src/utility.rs:51-70 | `upperbound_log` returns n exactly when n is 8, 16, 32 or 64 and upperbound = 2^n - 1 (both directions) |
| Utility.UpperboundLogFails | src/utility.rs:51-70 | every other upper bound gives the error |
| Utility.FindPrevIdx | src/utility.rs:73-78 | for idx < len the result is (idx + len - 1) mod len |
| Utility.CyclicIndexFacts | src/utility.rs:73-78 | the cyclic predecessor of 0 is len - 1 and of idx > 0 is idx - 1; the successor of len - 1 is 0 |
| Utility.AdjacentInBoundsIff | src/utility.rs:102-113 | every subtraction and index of the three branches is in range exactly when len >= 2 and idx < len, so one element panics |
| Utility.GetAdjacentElements | src/utility.rs:102-113 | returns the cyclic predecessor and successor, z[(idx-1) mod len] and z[(idx+1) mod len] |
| Utility.AdjacentOfTwo | src/utility.rs:105-110 | with two elements both neighbours are the other element |
| Utility.DecompressCompress | src/proof_systems/discrete_log_knowledege_proof.rs:69 | decompressing a compressed point gives the point back, so the verifier's unwraps succeed on honest statements |
| Utility.CompressInjective | src/utility.rs:81-85 | distinct points compress differently |
| Utility.CompressedToString | src/utility.rs:88-92 | 64 lower-case hex characters that decode back to the 32 bytes |
| Utility.PointToString | src/utility.rs:81-85 | a point renders as 64 lower-case hex characters |
| Utility.PointToStringInjective | src/utility.rs:81-85 | distinct points render differently |
| Utility.ScalarToString | src/utility.rs:95-99 | 64 lower-case hex characters that decode to the scalar's 32 little-endian bytes |
| Utility.ScalarFromString | src/utility.rs:95-99 | the scalar is recovered from its rendering |
| Utility.ScalarToStringInjective | src/utility.rs:95-99 | distinct scalars render differently |
| Utility.MimcStateAppend | src/utility.rs:162-177 | running the rounds of a then of b equals running those of a + b: MiMC is one round function per constant, and no constants leave (v, r) unchanged |
| Utility.Mimc | src/utility.rs:162-177 | the loop computes MiMC, one round (v + c)^3 + r per constant with (v, r) shifting |
| Utility.PadLeft | src/utility.rs:150 | length only: padding reaches at least the requested width and never shortens (the contents are stated by PadLeftFromRight) |
| Utility.PadLeftFromRight | src/utility.rs:150 | read from the right, the padded string is the input and then '0's: every character is the input's or a padding '0' |
| Utility.Bits | src/utility.rs:147-160 | at least 64 entries, each 0 or 1 |
| Utility.FrToBits | src/utility.rs:152-158 | the loop builds the padded digit vector, one field element per character |
| Utility.BitsDigit | src/utility.rs:149-159 | entry j from the right is bit j of the value: the vector is the binary expansion, most significant first, zero-padded |
| Utility.BitsRecompose | src/utility.rs:149-159 | the entries recompose to the value |
| Utility.Reverse | src/proof_systems/proof_system_gm17.rs:113-117 | entry i of the reversal is entry len - 1 - i, so index 0 is least significant |
| BurmesterDesmedt.AccumulateKey | src/protocols/burmester_desmedt/key_exchange.rs:39-52 | the key loop computes n·r·z_{i-1} + Σ_{k<n-1} (n-1-k)·x_{(i+k) mod n} |
| BurmesterDesmedt.KeyAgreement | src/protocols/burmester_desmedt/key_exchange.rs:39-52 | with honest round outputs every party's key equals B·Σ_j r_j·r_{(j+1) mod n} |
| BurmesterDesmedt.Zs | src/protocols/burmester_desmedt/key_exchange.rs:72-75 | one round-1 point per party |
| BurmesterDesmedt.Xs | src/protocols/burmester_desmedt/key_exchange.rs:78-81 | one round-2 payload per party |
| BurmesterDesmedt.Party.constructor | src/protocols/burmester_desmedt/key_exchange.rs:62-69 | a party starts with its index and alpha and no r or z |
| BurmesterDesmedt.Party.Round1 | src/protocols/burmester_desmedt/key_exchange.rs:23-28 | r and z go from None to Some(r) and Some(alpha·r); z is returned |
| BurmesterDesmedt.Party.Round2 | src/protocols/burmester_desmedt/key_exchange.rs:31-36 | returns (z_{i+1} - z_{i-1})·r over the cyclic neighbours |
| BurmesterDesmedt.Party.ComputeKey | src/protocols/burmester_desmedt/key_exchange.rs:39-52 | the Burmester–Desmedt key formula for this party |
| BurmesterDesmedt.KeyExchange | src/protocols/burmester_desmedt/key_exchange.rs:56-89 | returns exactly n keys, all equal to B·Σ_j r_j·r_{j+1}; none for n = 0 |
| DlProof.ProofToString | src/proof_systems/discrete_log_knowledege_proof.rs:20-22 | exactly 192 lower-case hex characters |
| DlProof.ProofStringRoundTrip | src/proof_systems/discrete_log_knowledege_proof.rs:20-22 | the rendering splits back uniquely into statement, challenge and response |
| DlProof.ProofToStringInjective | src/proof_systems/discrete_log_knowledege_proof.rs:20-22 | distinct proofs render differently |
| DlProof.StructFor | src/proof_systems/discrete_log_knowledege_proof.rs:37-39 | the struct for g·w holds a statement that decompresses to g·w |
| DlProof.Prove | src/proof_systems/discrete_log_knowledege_proof.rs:45-56 | the challenge is H(hex(g) ++ hex(X) ++ aux), depending only on X and aux; the statement decompresses to g·r |
| DlProof.ProveVerify | src/proof_systems/discrete_log_knowledege_proof.rs:62-72 | an honest proof verifies exactly when the verifier's aux string hashes to the prover's challenge: completeness, and rejection of other aux strings |
| DlProof.WrongSecretFails | src/proof_systems/discrete_log_knowledege_proof.rs:53 | proving with w + 1 is rejected whenever the challenge is nonzero |
| DlProof.TamperedStatementFails | src/proof_systems/discrete_log_knowledege_proof.rs:69 | a replaced statement verifies only if it equals the honest one |
| DlProof.TamperedChallengeFails | src/proof_systems/discrete_log_knowledege_proof.rs:65-67 | a replaced challenge (0 among them) verifies only if it equals the hash |
| DlProof.TamperedResponseFails | src/proof_systems/discrete_log_knowledege_proof.rs:69 | a replaced response verifies only if it equals the honest one |
| RangeProofSystem.New | src/proof_systems/range_proof.rs:19-26 | min_bal and the upper bound are stored as given, without validation |
| RangeProofSystem.ProveSingle | src/proof_systems/range_proof.rs:40-47 | succeeds exactly for a valid bit size n and v < 2^n, and returns the compressed commitment v·B + r·B_blinding |
| RangeProofSystem.ProvenValueInRange | src/proof_systems/range_proof.rs:33-47 | for min_bal <= b <= upperbound + min_bal the proven value is at most the upper bound and below 2^n, so the `expect` is never reached; b = min_bal proves the upper bound itself |
| RangeProofSystem.Prove | src/proof_systems/range_proof.rs:28-50 | fails with "minimum balance requirement was not met" exactly when b < min_bal; otherwise commits to upperbound - (b - min_bal), seeds the transcript with the aux hash, and uses n with upperbound = 2^n - 1 |
| RangeProofSystem.ProveVerify | src/proof_systems/range_proof.rs:52-61 | an honest proof verifies exactly against the commitment to the proven value and an aux string with the prover's digest |
| Gm17.New | src/proof_systems/proof_system_gm17.rs:20-35 | fails exactly when `upperbound_log` fails, with its message; stores the exponent n and the 322 constants |
| Gm17.GenerateConstraints | src/proof_systems/proof_system_gm17.rs:103-229 | the public inputs are [aux, MiMC of the recomposed low n bits with r]; the constraints hold exactly when every low bit is 0 or 1 |
| Gm17.BitStep | src/proof_systems/proof_system_gm17.rs:142-160 | one loop step keeps curr_exp = 2^i and curr_sum = 1 + Σ_{j<i} 2^j·b_j |
| Gm17.BitCheckStep | src/proof_systems/proof_system_gm17.rs:119-166 | one loop step adds exactly the constraint b_i·(1 - b_i) = 0; the sum constraint always holds |
| Gm17.SumMinusOne | src/proof_systems/proof_system_gm17.rs:168-173 | v_value = curr_sum - 1 is the recomposed value |
| Gm17.ZeroOneSatisfies | src/proof_systems/proof_system_gm17.rs:125-138 | a 0 or 1 bit satisfies the bit constraint |
| Gm17.CircuitOfBits | src/proof_systems/proof_system_gm17.rs:63-79 | the bits of `fr_to_bits(v)` satisfy every bit constraint, and the circuit's image is MiMC of v mod 2^n |
| Gm17.ImageInRange | src/proof_systems/proof_system_gm17.rs:175-226 | below 2^n the circuit's image is `utility::mimc` of v itself |
| Gm17.Setup | src/proof_systems/proof_system_gm17.rs:37-61 | the keys are those of the n-bit circuit drawn from the seed; the proving key is for the darkpool's circuit and matches the verifying key |
| Gm17.Prove | src/proof_systems/proof_system_gm17.rs:63-79 | the proof records the key, the darkpool circuit it was synthesised for, and the public inputs [hash(aux), image] of a satisfied circuit |
| Gm17.ProveVerify | src/proof_systems/proof_system_gm17.rs:81-88 | an honest proof verifies exactly with the verifying key of the same setup, the prover's image and an aux string hashing alike |
| Gm17.ProveVerifyKeys | src/proof_systems/proof_system_gm17.rs:63-88 | with any keys, an honest proof verifies exactly when the keys match, the proving key was generated for the prover's circuit, and the image and aux hash are the prover's |
| Gm17.OtherCircuitKeysFail | src/proof_systems/proof_system_gm17.rs:81-88 | keys set up for another darkpool circuit (other constants or bit count) reject every proof made over this one |
| WakeCommon.ValidUpperboundIff | src/protocols/compiler_gm17_wake/compiler_gm17_wake_protocol.rs:215-217 | the setup accepts exactly the upper bounds `upperbound_log` accepts |
| WakeCommon.SetupError | src/protocols/compiler_gm17_wake/compiler_gm17_wake_protocol.rs:208-230 | no error exactly when length, upper bound and balances pass; otherwise the length error, then the "upperbound was not among the valid values:" error, then the balance error, in that order |
| WakeCommon.SignedValue | src/protocols/compiler_gm17_wake/compiler_gm17_wake_signature.rs:47 | the proven value is upperbound - (balance - min_bal), the upper bound itself for balance = min_bal |
| WakeCommon.Images | src/protocols/compiler_gm17_wake/compiler_gm17_wake_protocol.rs:237-239 | one image per balance |
| WakeCommon.FirstError | src/protocols/compiler_gm17_wake/compiler_gm17_wake_protocol.rs:156-183 | Ok exactly when every check passes; otherwise the message of the first failing check in index order |
| WakeCommon.FirstErrorAt | src/protocols/compiler_gm17_wake/compiler_gm17_wake_protocol.rs:156-183 | when checks before i pass and check i fails, check i's message is reported |
| WakeCommon.OnlySignatureFails | src/protocols/compiler_gm17_wake/compiler_gm17_wake_protocol.rs:174-182 | a scan whose checks can only fail on signatures reports Ok or the signature error |
| CompilerMessages.Unzip | src/protocols/compiler_bp_wake/compiler_bp_wake_protocol.rs:93-99 | the indices and nonces are kept in order and paired |
| CompilerMessages.Round1Outputs | src/protocols/compiler_bp_wake/compiler_bp_wake_protocol.rs:250-254 | one round-1 output per party |
| CompilerMessages.NoncesToString | src/protocols/compiler_bp_wake/compiler_bp_wake_protocol.rs:36-44 | the loop appends decimal(idx) ++ hex64(nonce) per entry |
| CompilerMessages.NoncesPrefixNoHash | src/protocols/compiler_bp_wake/compiler_bp_wake_protocol.rs:36-44 | the nonce rendering contains no '#' |
| CompilerMessages.NoncesPrefixInjective | src/protocols/compiler_bp_wake/compiler_bp_wake_protocol.rs:36-44 | with equal indices, equal renderings of the first k entries mean equal nonces |
| CompilerMessages.NonceEntryInjective | src/protocols/compiler_bp_wake/compiler_bp_wake_protocol.rs:36-44 | one entry determines its nonce |
| CompilerMessages.NoncesStringInjective | src/protocols/compiler_bp_wake/compiler_bp_wake_protocol.rs:36-44 | with equal indices, the nonce comparison of `round_recieve` compares the records |
| CompilerMessages.CompMessageSplit | src/protocols/compiler_bp_wake/compiler_bp_wake_signature.rs:27-29 | the rendering splits on "##" into exactly its four fields |
| CompilerMessages.CompMessageStringInjective | src/protocols/compiler_gm17_wake/compiler_gm17_wake_signature.rs:28-30 | equal renderings come from equal sender, round, payload and nonce rendering |
| CompilerBpSignature.Sign | src/protocols/compiler_bp_wake/compiler_bp_wake_signature.rs:44-54 | the range proof commits to upperbound - (balance - min_bal) and has the message string as its aux |
| CompilerBpSignature.SignVerify | src/protocols/compiler_bp_wake/compiler_bp_wake_signature.rs:58-61 | a signature verifies exactly against the commitment to the signer's value and a message hashing alike |
| CompilerGm17Signature.Sign | src/protocols/compiler_gm17_wake/compiler_gm17_wake_signature.rs:45-51 | the GM17 proof of upperbound - (balance - min_bal) with the message string as aux |
| CompilerGm17Signature.SignVerify | src/protocols/compiler_gm17_wake/compiler_gm17_wake_signature.rs:55-59 | when the circuit covers the upper bound, a signature verifies exactly with matching keys generated for the signer's circuit, the signer's MiMC image and a message hashing alike |
| OptimizedGm17Signature.VkOf | src/protocols/optimized_gm17_wake/optimized_gm17_wake_protocol.rs:103-107 | the VK keeps the round-1 indices and points in order, paired |
| OptimizedGm17Signature.VkToString | src/protocols/optimized_gm17_wake/optimized_gm17_wake_protocol.rs:34-42 | the loop appends decimal(idx) ++ hex64(point) per entry |
| OptimizedGm17Signature.VkPrefixNoHash | src/protocols/optimized_gm17_wake/optimized_gm17_wake_protocol.rs:34-42 | the VK rendering contains no '#' |
| OptimizedGm17Signature.VkPrefixInjective | src/protocols/optimized_gm17_wake/optimized_gm17_wake_protocol.rs:34-42 | with equal indices, equal renderings of the first k entries mean equal points |
| OptimizedGm17Signature.VkEntryInjective | src/protocols/optimized_gm17_wake/optimized_gm17_wake_protocol.rs:34-42 | one entry determines its point |
| OptimizedGm17Signature.VkStringInjective | src/protocols/optimized_gm17_wake/optimized_gm17_wake_protocol.rs:34-42 | with equal indices, the VK comparison of `verify_all_round_2_outputs` compares the records |
| OptimizedGm17Signature.OptimizedMessageSplit | src/protocols/optimized_gm17_wake/optimized_gm17_wake_signature_and_session_authentication.rs:31-33 | the rendering splits on "##" into exactly its three fields |
| OptimizedGm17Signature.OptimizedMessageStringInjective | src/protocols/optimized_gm17_wake/optimized_gm17_wake_signature_and_session_authentication.rs:31-33 | equal renderings come from equal sender, payload and VK rendering |
| OptimizedGm17Signature.Sign | src/protocols/optimized_gm17_wake/optimized_gm17_wake_signature_and_session_authentication.rs:49-62 | DL aux is message ++ image rendering, GM17 aux is message ++ DL proof rendering, and GM17 proves upperbound - (balance - min_bal) |
| OptimizedGm17Signature.SignVerify | src/protocols/optimized_gm17_wake/optimized_gm17_wake_signature_and_session_authentication.rs:66-72 | verifies exactly when both rebuilt aux strings check out: DL challenges agree, keys match and were generated for the signer's circuit, the image is the signer's, and the GM17 aux strings hash alike |
| OptimizedBpSignature.OptimizedMessageSplit | src/protocols/optimized_bp_wake/optimized_bp_wake_signature_and_session_authentication.rs:28-30 | with a '#'-free VK rendering the message splits into exactly its three fields |
| OptimizedBpSignature.OptimizedMessageStringInjective | src/protocols/optimized_bp_wake/optimized_bp_wake_signature_and_session_authentication.rs:28-30 | such messages are equal exactly when their renderings are |
| OptimizedBpSignature.Sign | src/protocols/optimized_bp_wake/optimized_bp_wake_signature_and_session_authentication.rs:46-59 | DL aux is message ++ hex64(commitment), range aux is message ++ DL proof rendering, and the range proof commits to the proven value |
| OptimizedBpSignature.SignVerify | src/protocols/optimized_bp_wake/optimized_bp_wake_signature_and_session_authentication.rs:63-68 | verifies exactly when the DL challenges agree, the commitment is the signer's, and the range aux strings hash alike |
| OptimizedBpSignature.SignVerifyHonest | src/protocols/optimized_bp_wake/optimized_bp_wake_signature_and_session_authentication.rs:46-68 | completeness: a signature checked against the signer's own message and commitment verifies |
| CompilerBpProtocol.SetupCommitmentOpens | src/protocols/compiler_bp_wake/compiler_bp_wake_protocol.rs:228 | shifted by B·min_bal (line 166), the corrected setup commitment opens to the value the signer proves, for every admissible balance |
| CompilerBpProtocol.AsWrittenValue | src/protocols/compiler_bp_wake/compiler_bp_wake_protocol.rs:228 | with upperbound 255, min_bal 100 and balance 300, the u64 commitment as written, once shifted, commits to 2^64 + 55 |
| CompilerBpProtocol.AsWrittenRejectsHonestParty | src/protocols/compiler_bp_wake/compiler_bp_wake_protocol.rs:228 | for that admissible balance the proven value is 55, but the signature is rejected against the as-written commitment |
| CompilerBpProtocol.ReceiveChecks | src/protocols/compiler_bp_wake/compiler_bp_wake_protocol.rs:146-171 | one check per message of the previous round |
| CompilerBpProtocol.ReceiveAccepts | src/protocols/compiler_bp_wake/compiler_bp_wake_protocol.rs:140-173 | an accepting receiver has, from every other party, a message of the right round with its own nonces and a signature valid against that party's shifted commitment |
| CompilerBpProtocol.Commitments | src/protocols/compiler_bp_wake/compiler_bp_wake_protocol.rs:217-230 | one commitment per balance; for each balance at most the upper bound it is the commitment the source computes with u64 subtraction |
| CompilerBpProtocol.SetupCommitmentAgrees | src/protocols/compiler_bp_wake/compiler_bp_wake_protocol.rs:228 | for a balance at most the upper bound the u64 difference does not wrap and the corrected commitment equals the one as written |
| CompilerBpProtocol.SetupCommitmentsAgree | src/protocols/compiler_bp_wake/compiler_bp_wake_protocol.rs:217-230 | the same agreement for every party whose balance is at most the upper bound |
| CompilerBpProtocol.HonestRound | src/protocols/compiler_bp_wake/compiler_bp_wake_protocol.rs:102-137 | one signed message per party |
| CompilerBpProtocol.HonestRoundAccepted | src/protocols/compiler_bp_wake/compiler_bp_wake_protocol.rs:140-173 | completeness: every party accepts a round of honest messages built from the shared nonces |
| CompilerBpProtocol.Party.constructor | src/protocols/compiler_bp_wake/compiler_bp_wake_protocol.rs:73-83 | a party holds its index, the commitments, min_bal, its balance and blinding, and no nonces or secret |
| CompilerBpProtocol.Party.Round1 | src/protocols/compiler_bp_wake/compiler_bp_wake_protocol.rs:86-90 | publishes its index with the nonce |
| CompilerBpProtocol.Party.Round1Receive | src/protocols/compiler_bp_wake/compiler_bp_wake_protocol.rs:93-99 | stores the round-1 indices and nonces in order |
| CompilerBpProtocol.Party.Round2 | src/protocols/compiler_bp_wake/compiler_bp_wake_protocol.rs:102-119 | sets bd to r and sends z = g·r with round index 2 and its nonce record, signed |
| CompilerBpProtocol.Party.Round3 | src/protocols/compiler_bp_wake/compiler_bp_wake_protocol.rs:122-137 | sends (z_{i+1} - z_{i-1})·r with round index 3 and its nonce record, signed |
| CompilerBpProtocol.Party.RoundReceive | src/protocols/compiler_bp_wake/compiler_bp_wake_protocol.rs:140-173 | the length error, or the first failure among round, nonces and signature of the other parties in index order |
| CompilerBpProtocol.Party.ComputeKey | src/protocols/compiler_bp_wake/compiler_bp_wake_protocol.rs:176-189 | the Burmester–Desmedt key formula |
| CompilerBpProtocol.SetupParties | src/protocols/compiler_bp_wake/compiler_bp_wake_protocol.rs:196-239 | the setup errors in order, otherwise n fresh distinct parties, party j with index j and everybody's commitments |
| CompilerBpProtocol.Round1All | src/protocols/compiler_bp_wake/compiler_bp_wake_protocol.rs:250-254 | the round-1 outputs (j, nonce j) in index order |
| CompilerBpProtocol.Round1ReceiveAll | src/protocols/compiler_bp_wake/compiler_bp_wake_protocol.rs:257-259 | every party holds the unzipped round-1 outputs |
| CompilerBpProtocol.Round2Of | src/protocols/compiler_bp_wake/compiler_bp_wake_protocol.rs:262-274 | party i's message extends the honest round-2 messages of the parties before it |
| CompilerBpProtocol.Round2All | src/protocols/compiler_bp_wake/compiler_bp_wake_protocol.rs:262-274 | the round-2 outputs are the honest round with payloads g·r_j |
| CompilerBpProtocol.Round3Of | src/protocols/compiler_bp_wake/compiler_bp_wake_protocol.rs:277-290 | party i's message extends the honest round-3 messages of the parties before it |
| CompilerBpProtocol.Round3All | src/protocols/compiler_bp_wake/compiler_bp_wake_protocol.rs:277-290 | the round-3 outputs are the honest round with the Burmester–Desmedt payloads |
| CompilerBpProtocol.ReceiveAll | src/protocols/compiler_bp_wake/compiler_bp_wake_protocol.rs:262-290 | every party accepts an honest round |
| CompilerBpProtocol.ComputeKeys | src/protocols/compiler_bp_wake/compiler_bp_wake_protocol.rs:293-299 | n keys, all the group key |
| CompilerBpProtocol.RunRounds | src/protocols/compiler_bp_wake/compiler_bp_wake_protocol.rs:250-299 | after setup, the rounds give n equal group keys |
| CompilerBpProtocol.Run | src/protocols/compiler_bp_wake/compiler_bp_wake_protocol.rs:242-300 | the setup's error when it rejects, otherwise exactly n keys, all B·Σ_j r_j·r_{j+1} |
| CompilerGm17Protocol.ReceiveChecks | src/protocols/compiler_gm17_wake/compiler_gm17_wake_protocol.rs:156-183 | one check per message of the previous round |
| CompilerGm17Protocol.ReceiveAccepts | src/protocols/compiler_gm17_wake/compiler_gm17_wake_protocol.rs:149-185 | an accepting receiver has, from every other party i, a message of the right round with its own nonces and a signature valid under pvk_list[i] and images[i] |
| CompilerGm17Protocol.HonestRound | src/protocols/compiler_gm17_wake/compiler_gm17_wake_protocol.rs:105-146 | one signed message per party |
| CompilerGm17Protocol.HonestMessageCheck | src/protocols/compiler_gm17_wake/compiler_gm17_wake_protocol.rs:164-182 | an honest message passes the round and nonce checks; it can fail only the signature check, and passes it when every key is for the darkpool's circuit and matches (KeysFit) |
| CompilerGm17Protocol.ChecksOutcome | src/protocols/compiler_gm17_wake/compiler_gm17_wake_protocol.rs:156-183 | if each check passes or fails on the signature, the scan gives Ok or the signature error |
| CompilerGm17Protocol.HonestRoundOutcome | src/protocols/compiler_gm17_wake/compiler_gm17_wake_protocol.rs:149-185 | an honest round is rejected only for a signature, and accepted when every key is for the darkpool's circuit and matches (KeysFit) |
| CompilerGm17Protocol.Party.constructor | src/protocols/compiler_gm17_wake/compiler_gm17_wake_protocol.rs:73-86 | a party holds its setup values and no nonces or secret |
| CompilerGm17Protocol.Party.Round1 | src/protocols/compiler_gm17_wake/compiler_gm17_wake_protocol.rs:89-93 | publishes its index with the nonce |
| CompilerGm17Protocol.Party.Round1Receive | src/protocols/compiler_gm17_wake/compiler_gm17_wake_protocol.rs:96-102 | stores the round-1 indices and nonces in order |
| CompilerGm17Protocol.Party.Round2 | src/protocols/compiler_gm17_wake/compiler_gm17_wake_protocol.rs:105-125 | sets bd to r and sends z = g·r with round index 2, signed |
| CompilerGm17Protocol.Party.Round3 | src/protocols/compiler_gm17_wake/compiler_gm17_wake_protocol.rs:128-146 | sends (z_{i+1} - z_{i-1})·r with round index 3, signed |
| CompilerGm17Protocol.Party.RoundReceive | src/protocols/compiler_gm17_wake/compiler_gm17_wake_protocol.rs:149-185 | the length error, or the first failure among round, nonces and signature of the other parties in index order |
| CompilerGm17Protocol.Party.ComputeKey | src/protocols/compiler_gm17_wake/compiler_gm17_wake_protocol.rs:188-201 | the Burmester–Desmedt key formula |
| CompilerGm17Protocol.SetupParties | src/protocols/compiler_gm17_wake/compiler_gm17_wake_protocol.rs:208-249 | the setup errors in order, otherwise n fresh parties holding the MiMC images of the signed values |
| CompilerGm17Protocol.Round1All | src/protocols/compiler_gm17_wake/compiler_gm17_wake_protocol.rs:260-264 | the round-1 outputs (j, nonce j) in index order |
| CompilerGm17Protocol.Round1ReceiveAll | src/protocols/compiler_gm17_wake/compiler_gm17_wake_protocol.rs:267-269 | every party holds the unzipped round-1 outputs |
| CompilerGm17Protocol.Round2Of | src/protocols/compiler_gm17_wake/compiler_gm17_wake_protocol.rs:272-284 | party i's message extends the honest round-2 messages of the parties before it |
| CompilerGm17Protocol.Round2All | src/protocols/compiler_gm17_wake/compiler_gm17_wake_protocol.rs:272-284 | the round-2 outputs are the honest round with payloads g·r_j |
| CompilerGm17Protocol.Round3Of | src/protocols/compiler_gm17_wake/compiler_gm17_wake_protocol.rs:287-299 | party i's message extends the honest round-3 messages of the parties before it |
| CompilerGm17Protocol.Round3All | src/protocols/compiler_gm17_wake/compiler_gm17_wake_protocol.rs:287-299 | the round-3 outputs are the honest round with the Burmester–Desmedt payloads |
| CompilerGm17Protocol.ReceiveAll | src/protocols/compiler_gm17_wake/compiler_gm17_wake_protocol.rs:272-299 | an honest round gives Ok or the signature error, and Ok when every key is for the darkpool's circuit and matches (KeysFit) |
| CompilerGm17Protocol.ComputeKeys | src/protocols/compiler_gm17_wake/compiler_gm17_wake_protocol.rs:302-308 | n keys, all the group key |
| CompilerGm17Protocol.RunRounds | src/protocols/compiler_gm17_wake/compiler_gm17_wake_protocol.rs:260-308 | n equal group keys or the signature error, the keys when every key is for the darkpool's circuit and matches (KeysFit) |
| CompilerGm17Protocol.Run | src/protocols/compiler_gm17_wake/compiler_gm17_wake_protocol.rs:252-309 | the setup's error when it rejects; otherwise n keys all B·Σ_j r_j·r_{j+1}, or the signature error, with the keys whenever every key is for the darkpool's circuit and matches (KeysFit) |
| OptimizedGm17Protocol.VerifyChecks | src/protocols/optimized_gm17_wake/optimized_gm17_wake_protocol.rs:135-157 | one check per round-1 output |
| OptimizedGm17Protocol.VerifyAllAccepts | src/protocols/optimized_gm17_wake/optimized_gm17_wake_protocol.rs:135-157 | an accepting party has, from every other party, its own VK and a signature valid for that party's round-1 point, image and key |
| OptimizedGm17Protocol.Round1Outputs | src/protocols/optimized_gm17_wake/optimized_gm17_wake_protocol.rs:229-235 | one output per party, whose VK points are the round-1 points g·x_j |
| OptimizedGm17Protocol.HonestRound2 | src/protocols/optimized_gm17_wake/optimized_gm17_wake_protocol.rs:101-132 | one signed message per party |
| OptimizedGm17Protocol.HonestStatement | src/protocols/optimized_gm17_wake/optimized_gm17_wake_protocol.rs:118-129 | the statement of an honest discrete-log proof is a point, so the verifier's unwrap succeeds |
| OptimizedGm17Protocol.HonestMessageCheck | src/protocols/optimized_gm17_wake/optimized_gm17_wake_protocol.rs:144-154 | an honest message passes the VK check and can fail only the signature check, which it passes when every key is for the darkpool's circuit and matches (KeysFit) |
| OptimizedGm17Protocol.ChecksOutcome | src/protocols/optimized_gm17_wake/optimized_gm17_wake_protocol.rs:135-157 | if each check passes or fails on the signature, the scan gives Ok or the signature error |
| OptimizedGm17Protocol.HonestRound2Outcome | src/protocols/optimized_gm17_wake/optimized_gm17_wake_protocol.rs:135-157 | an honest round 2 is rejected only for a signature, and accepted when every key is for the darkpool's circuit and matches (KeysFit) |
| OptimizedGm17Protocol.Party.constructor | src/protocols/optimized_gm17_wake/optimized_gm17_wake_protocol.rs:74-87 | a party holds its setup values and no VK or secret |
| OptimizedGm17Protocol.Party.Round1 | src/protocols/optimized_gm17_wake/optimized_gm17_wake_protocol.rs:90-98 | sets bd to (z = g·x, x) and returns (idx, z) |
| OptimizedGm17Protocol.Party.Round2 | src/protocols/optimized_gm17_wake/optimized_gm17_wake_protocol.rs:101-132 | stores the VK of the round-1 outputs and sends (z_{i+1} - z_{i-1})·x with it, signed |
| OptimizedGm17Protocol.Party.VerifyAllRound2Outputs | src/protocols/optimized_gm17_wake/optimized_gm17_wake_protocol.rs:135-157 | the first failure among VK mismatch and signature of the other parties in index order, with no length check |
| OptimizedGm17Protocol.Party.ComputeKey | src/protocols/optimized_gm17_wake/optimized_gm17_wake_protocol.rs:160-173 | the Burmester–Desmedt key formula |
| OptimizedGm17Protocol.SetupParties | src/protocols/optimized_gm17_wake/optimized_gm17_wake_protocol.rs:179-216 | the setup errors in order, otherwise n fresh parties holding the MiMC images |
| OptimizedGm17Protocol.Round1All | src/protocols/optimized_gm17_wake/optimized_gm17_wake_protocol.rs:229-235 | the round-1 outputs (j, g·x_j) and points in index order |
| OptimizedGm17Protocol.Round2Of | src/protocols/optimized_gm17_wake/optimized_gm17_wake_protocol.rs:238-244 | party i's message extends the honest round-2 messages of the parties before it |
| OptimizedGm17Protocol.Round2All | src/protocols/optimized_gm17_wake/optimized_gm17_wake_protocol.rs:238-244 | the round-2 outputs are the honest round, and the payloads are the Burmester–Desmedt ones |
| OptimizedGm17Protocol.VerifyAll | src/protocols/optimized_gm17_wake/optimized_gm17_wake_protocol.rs:247-252 | an honest round 2 gives Ok or the signature error, and Ok when every key is for the darkpool's circuit and matches (KeysFit) |
| OptimizedGm17Protocol.ComputeKeys | src/protocols/optimized_gm17_wake/optimized_gm17_wake_protocol.rs:255-261 | n keys, all the group key |
| OptimizedGm17Protocol.RunRounds | src/protocols/optimized_gm17_wake/optimized_gm17_wake_protocol.rs:229-261 | n equal group keys or the signature error, the keys when every key is for the darkpool's circuit and matches (KeysFit) |
| OptimizedGm17Protocol.Run | src/protocols/optimized_gm17_wake/optimized_gm17_wake_protocol.rs:221-263 | the setup's error when it rejects; otherwise n keys all B·Σ_j x_j·x_{j+1}, or the signature error, with the keys whenever every key is for the darkpool's circuit and matches (KeysFit) |

## Left out

- The benchmarks (src/benchmarks, including the Python plotting and regression scripts) and src/main.rs: timing, sampling and file output.
- The cryptographic libraries are ideal functionalities rather than the real ones. This covers Ristretto arithmetic (discrete logs mod L), BLS12-377 (integers mod P), SHA-256 (a parameter), and Bulletproofs, Merlin and ark_gm17 proof generation and verification (proofs record what they are about). Soundness, zero knowledge and unforgeability are therefore not stated.
- `setup_gm17` and `setup_gm17_single_party`: loops over library key generation. The protocols take the key lists as inputs, and `Gm17.Setup` models one key generation.
- `hash_string_to_fr` is modelled as the big-endian digest mod P. The BigInt and `Fr::from_str` round trip it goes through is not modelled.
- `fr_to_bits` is modelled from the field element's integer value on. The slicing of the arkworks `Display` string at line 148 is not modelled.
- optimized_bp_wake_protocol.rs is not part of this model. Its `VK` appears in `OptimizedBpSignature` only as the rendering string the message carries.
- OptimizedBpSignature.OptimizedMessageSplit: requires that the session rendering contains no '#', because the `VK` type that would guarantee it is not part of this model.
- Randomness (`OsRng`, `Scalar::random`, `rng.gen()`) is passed in as parameters of the methods that draw it.
- BurmesterDesmedt.KeyExchange: requires partyAmount != 1, because one party panics in `get_adjacent_elements`. That panic is not modelled.
- CompilerBpProtocol.Commitments: builds the corrected commitment B·(upperbound - balance) + B_blinding·r with the difference taken among scalars. It agrees with the source only for balances at most the upper bound (SetupCommitmentAgrees). For a larger balance the source's u64 subtraction panics in a debug build and wraps in a release build, and the model does not reproduce either.
- CompilerBpProtocol.SetupParties: hands every party the corrected commitments of Commitments. For a balance above the upper bound the source panics during setup (debug) or stores the wrapped commitment (release); the model does neither.
- CompilerBpProtocol.Run: runs on the corrected commitments. With upperbound 255, min_bal 100 and balances [300, 300] the source panics (debug) or fails with "Verification of signature failed" (release, AsWrittenRejectsHonestParty), while the model returns the keys. Run also requires every balance to be at most upperbound + min_bal and partyAmount != 1 whenever the setup accepts. Signing a larger balance underflows a u64, and one party panics in round 3. The same holds for RunRounds, ReceiveAll and the round methods.
- CompilerGm17Protocol.Run: requires the setup's u64 subtractions to stay in range (`SetupSubtractionsFit`), one party to be excluded, and key lists at least as long as the parties. Each of these panics in the source. The same holds for SetupParties and RunRounds.
- OptimizedGm17Protocol.Run: the same panic preconditions as CompilerGm17Protocol.Run, and likewise for SetupParties and RunRounds.
- CompilerGm17Protocol.ReceiveAll: success is promised only when every proving key was generated for the darkpool's circuit and matches its verifying key, and the circuit covers the upper bound (`KeysFit`). Otherwise only "Verification of signature failed" can occur. The same applies to CompilerGm17Protocol.HonestRoundOutcome, OptimizedGm17Protocol.VerifyAll and OptimizedGm17Protocol.HonestRound2Outcome.
- CompilerBpProtocol.ReceiveAll: the generator g is fixed to the basepoint, as every caller in the source passes it. The same applies to CompilerBpProtocol.HonestRoundAccepted.
- CompilerGm17Protocol.Party.RoundReceive: requires images no longer than the verifying-key list, because indexing past it panics.
- OptimizedGm17Protocol.Party.VerifyAllRound2Outputs: requires the discrete-log statements to decompress and the lists to be long enough, because the `unwrap`s and indexing panic otherwise.
- DlProof.Verify: the two `decompress().unwrap()` calls are preconditions rather than panics.
- Gm17.Prove: requires a darkpool that `new` produced (`Valid`), because the circuit's assertion on the constant count panics otherwise. The same applies to the GM17 signing members.
- The parties of a run exchange their messages through in-memory lists, as in the source; there is no network, reordering or loss.

## Findings

| source | as written | input that shows it | evidently intended | confidence | as-written member | corrected member |
|---|---|---|---|---|---|---|
| src/protocols/compiler_bp_wake/compiler_bp_wake_protocol.rs:228 | the setup commits to B·(upperbound - balance) with the difference taken in u64. It underflows (a debug-build panic, a release-build wrap) for every balance in (upperbound, upperbound + min_bal], although the range prover accepts those balances (src/proof_systems/range_proof.rs:33) | upperbound 255, min_bal 100, balance 300: the proven value is 55, but the shifted commitment is to 2^64 + 55, so the party's signature is rejected | the commitment to upperbound - balance as a scalar (upperbound - balance + min_bal ≥ 0 once shifted), which opens to the proven value for every balance the prover accepts | medium, not executed | CompilerBpProtocol.AsWrittenRejectsHonestParty | CompilerBpProtocol.SetupCommitmentOpens |
