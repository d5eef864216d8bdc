# dcr402: a verified model of the payment gate and the paying agent

dcr402 prices HTTP handlers and tools in DCR. A seller's *gate* issues payment challenges, checks proofs over two
rails (Lightning preimages and on-chain deposits), hands out L402 credentials and keeps a prepaid credit ledger. A
buyer's *agent* pays such challenges under a spending policy, with an owner who approves large payments over chat or
a dashboard. This project models both sides in Dafny and proves what they promise over every input and every run.

`dafny verify dfyconfig.toml` checks everything.

## What is modelled

| file | subject |
|---|---|
| `Base`, `Text`, `Numbers`, `Encodings`, `Ordering`, `Registry` | octet strings and the Go library operations the code relies on |
| `Macaroons`, `Caveats`, `Headers` | the L402 credential: wire format, HMAC chain, caveat logic, HTTP header grammar |
| `Credentials` | what a gate mints, delivers and accepts |
| `Seller`, `SellerRules`, `GateServer` | challenges, verification rules, settlement, and the handlers over a store and a ledger |
| `Settlement` | whole runs of the gate: any interleaving of presentations, stops at any point |
| `Ledger` | one credit log, refined by a map ledger and by SQL tables with rollback |
| `Policy`, `Budgets` | the rule pipeline, usage derived from the payment log, and day, week and hour limits |
| `Approvals`, `BisonRelay` | owner approvals raced by resolvers, sweeps and restarts; the chat channel with cumulative acks |
| `Buyer`, `Agent`, `PayClient` | whole runs of the agent; its service under one lock; the paid-HTTP client against any server |
| `Exchange` | the client and a gate put together, from the bare request to the cached credential |
| `Base58`, `Amounts`, `JsonValue`, `Discovery` | base58btc, exact decimal parsing, semantic JSON equality, sorted paging |

Code that changes state step by step is modelled by classes, methods and loops, each proved against a function or a
step of a state machine; the theorems over runs are about those functions and machines.

## Conventions and assumptions

- A Go string and a byte slice are both `Bytes`, a sequence of characters below 256. Times are nanoseconds since the
  Unix epoch, as integers.
- SHA-256 and HMAC are arbitrary functions. Only `Macaroons.OriginalSignature` uses injectivity of HMAC in its key
  (`Caveats.AttenuationNarrows` takes that or the original signature's validity), and only
  `Settlement.DeliveredCredentialOpens` assumes that no two payments *of the run* share a settlement key.
- JSON encoding and decoding, invoice decoding, the node's invoice lookup, the deposit lookup, the clock, random
  numbers and the answers of HTTP servers are parameters; every theorem holds for all of them. Only the results about
  honest payers ask that the entry they echo renders to text that parses back.
- Runs of the gate have a fixed configuration; payment hashes, deposit addresses and root-key slots are fresh when
  issued; the deposit backend finds a transaction only under its lower-case id (lib/dcrlnd/client.go:161); nobody but
  the gate grants credit under a reference that starts with `ln:` or `onchain:`.
- Relay messages are numbered in the order they arrive, and a new stream delivers them from the ack on. The agent has a
  kill switch.
- Runs of the agent have a fixed policy and a clock that never goes back. Amounts in budgets and in the ledger are
  mathematical integers. Writes to the audit store succeed, so the daemon does not stop between a rail payment and its
  record. A recorded payment is annotated with the time policy last looked at it and with whether it is an
  owner-approved direct payment; `Budgets` sets the latter aside because the service executes them without a new
  evaluation.

## Where the code falls short of its own words

- The caveat grammar cannot carry every service name. `Credentials.ExpiryExactlyWhen` gives the exact condition; with
  an equals sign in the name time plays no part, and `Credentials.EternalCredential` gives the names, such as `a=b`,
  whose credentials are accepted for ever.
- A holder can add a capability or service caveat that the issuer never set. `Caveats.NarrowsExactlyWhenBound` gives
  the exact condition under which attenuation only narrows, and `Credentials.HolderAddsCapability` the credentials that
  a holder can widen.
- `lib/ledger/ledger.go` joins account and idempotency key with a NUL octet, so accounts that contain NUL can share
  keys; `Ledger.AgreeExactlyWhen` says exactly when the two ledgers answer alike.
- The amount rule multiplies in 64 bits; `Seller.ThousandfoldExactly` says exactly when it is the true thousandfold.
- `agent/approve/bisonrelay/bisonrelay.go:204-207` calls replay idempotent. For approvals that holds for replies that
  name one of them; `BisonRelay.ReplayExactly` gives the exact condition and `BisonRelay.TwoNamesReplay` replies that
  decide a second approval when they are delivered again. For the kill switch `BisonRelay.SwitchReplaysExactly` gives
  the exact condition: a replayed `freeze` can halt spending again (`BisonRelay.FreezeReplayed`), and a replayed
  `unfreeze` can lift a freeze that was set in between (`BisonRelay.UnfreezeReplayed`).
- The decimal parsers accept signs inside an amount. `Amounts.GuardedExactly` says which texts and what they denote,
  `Amounts.AmountAgreesExactly` and `Amounts.DcrAgreesExactly` exactly when the parsers agree, and
  `Amounts.SignedTextDisagrees` gives a text on which they do not.
- Over legacy L402 the agent shows policy the invoice amount rounded down to whole atoms; `PayClient.ExactPrice` says
  exactly when that is the full amount and `PayClient.HalfAtomUnseen` gives an invoice for which it is not.

## Model

| member | source | states |
|---|---|---|
| `Macaroons.IdentifierRoundTrip` | lib/l402/l402.go:43-64 | Decoding an encoded identifier gives it back exactly when its version is the supported one; every identifier that decodes re-encodes to the same octets. |
| `Macaroons.IdentifierLayout` | lib/l402/l402.go:30-64 | Two octets of version, high one first, then payment hash and token id; the current version is zero. |
| `Macaroons.ComputeChain` | lib/l402/l402.go:87-99 | The loop over caveats yields the HMAC chain over the identifier and all caveats in order. |
| `Macaroons.Mint` | lib/l402/l402.go:102-109 | A minted macaroon carries a signature that is valid for its root key. |
| `Macaroons.Macaroon.Attenuate` | lib/l402/l402.go:113-118 | Appends one caveat, and the new signature is the HMAC of the caveat under the old one; identifier and location are untouched. |
| `Macaroons.Macaroon.VerifySignature` | lib/l402/l402.go:122-125 | True exactly when the recomputed chain equals the stored signature. |
| `Macaroons.AttenuationKeepsSignature` | lib/l402/l402.go:113-125 | Appending any caveats, without the root key, leaves the signature valid for that root key. |
| `Macaroons.AttenuatedAppend` | lib/l402/l402.go:113-118 | Attenuating in two goes equals attenuating once with both lists. |
| `Macaroons.OriginalSignature` | lib/l402/l402.go:87-125 | If the attenuated signature is valid and HMAC is injective in its key, the original signature was valid. |
| `Macaroons.ChainLinks` | lib/l402/l402.go:87-99 | The chain signs the identifier under the root key and then each caveat under the HMAC before it. |
| `Macaroons.SignatureBinds` | lib/l402/l402.go:87-125 | Two macaroons valid under one root key, with one signature and equally many caveats, have the same identifier and caveats, or the lemma returns a link at which two different pairs of key and text have one HMAC. |
| `Macaroons.UvarintRoundTrip` | lib/l402/l402.go:137-141 | Reading a written varint gives its value and length, whatever follows, for every 64-bit number. |
| `Macaroons.UvarintFits` | lib/l402/l402.go:127-142 | Whatever number is read fits 64 bits and took at most ten octets. |
| `Macaroons.ParsePacket` | lib/l402/l402.go:173-193 | A parsed packet and the rest are strictly shorter than the input and never reach past its end. |
| `Macaroons.PacketRoundTrip` | lib/l402/l402.go:143-193 | Parsing a written packet gives back its type, its data and exactly the following octets. |
| `Macaroons.ReadSection` | lib/l402/l402.go:195-211 | The packet loop equals the recursive section grammar, terminates on every input and returns its error. |
| `Macaroons.MarshalHeader` | lib/l402/l402.go:152-157 | The first octets written are the version and the header section, with the location packet only when there is one. |
| `Macaroons.MarshalBinary` | lib/l402/l402.go:152-166 | The loop writes exactly the wire form: header, each caveat section, an empty section, the signature. |
| `Macaroons.ReadCaveats` | lib/l402/l402.go:234-254 | The caveat loop equals the recursive grammar of caveat sections. |
| `Macaroons.UnmarshalBinary` | lib/l402/l402.go:215-268 | The imperative parser equals the grammar of whole macaroons, including every error. |
| `Macaroons.WireRoundTrip` | lib/l402/l402.go:152-268 | Parsing a marshalled macaroon gives it back, for any location, identifier and caveats, empty ones included. |
| `Macaroons.WireLayout` | lib/l402/l402.go:127-168 | The wire form of a short macaroon octet by octet. |
| `Macaroons.WireInjective` | lib/l402/l402.go:152-166 | Two macaroons with the same wire form are equal. |
| `Macaroons.AcceptsOnlyWholeInput` | lib/l402/l402.go:215-268 | If some octets parse, no longer input that starts with them parses: all input is consumed. |
| `Caveats.ParseList` | lib/l402/l402.go:387-398 | The loop builds the map of names to tiers, skipping blank items, a later entry replacing an earlier one. |
| `Caveats.CaveatTexts` | lib/l402/l402.go:281-294 | The three caveats a gate mints, as text. |
| `Caveats.NarrowLists` | lib/l402/l402.go:400-434 | The shared chain loop: the names left when each list restricts the one before, or refusal. |
| `Caveats.NarrowIsShrinking` | lib/l402/l402.go:400-434 | A chain of lists is accepted exactly when each is contained in the one before it; the last one is then in force. |
| `Caveats.VerifyValidUntilChain` | lib/l402/l402.go:436-452 | The loop reports the first unparsable or loosened expiry, or whether the last expiry has passed. |
| `Caveats.ExpiryExactly` | lib/l402/l402.go:436-452 | A chain of expiries holds exactly when each parses, none is later than the one before, and the last has not passed. |
| `Caveats.VerifyGroup` | lib/l402/l402.go:351-371 | One condition's values give exactly that condition's verdict, by kind of condition. |
| `Caveats.ServicesExactly` | lib/l402/l402.go:400-415 | The services lists hold exactly when they narrow to one that names the service. |
| `Caveats.CapabilitiesExactly` | lib/l402/l402.go:417-434 | The capabilities lists hold exactly when they narrow, and, when a capability is asked of this service, to one that names it. |
| `Caveats.NarrowAllExactly` | lib/l402/l402.go:400-409 | Lists narrow exactly when each set is contained in the one before, and the last one is left. |
| `Caveats.GroupCaveats` | lib/l402/l402.go:334-345 | The grouping loop yields every condition's values in order, or the first caveat without an equals sign. |
| `Caveats.VerifyGroups` | lib/l402/l402.go:346-372 | The evaluation loop returns the first failing condition in sorted order and which required conditions it saw. |
| `Caveats.VerifyCaveats` | lib/l402/l402.go:329-385 | The method equals the verdict function, error for error. |
| `Caveats.AcceptedExactlyWhen` | lib/l402/l402.go:329-385 | Acceptance without loops or order: well-formed, every condition's group holds, and required conditions are present. |
| `Caveats.CaveatsNarrow` | lib/l402/l402.go:329-452 | Dropping appended caveats, and going back in time, keeps a bound caveat list accepted. |
| `Caveats.NarrowsExactlyWhenBound` | lib/l402/l402.go:377-384 | Appending caveats can only narrow exactly when the token already carries the caveats the request looks for, or no extension of it can be accepted at all: a caveat is malformed, a condition fails, or the requested names cannot be spelled; otherwise a holder can add the missing caveats. |
| `Caveats.AcceptedSpellable` | lib/l402/l402.go:374-434 | Whatever is accepted was asked for by names that the list grammar spells, with no equals sign in the service when a capability is asked for. |
| `Caveats.TokenAccepted` | lib/l402/l402.go:310-327 | A token is accepted exactly when its signature, its preimage and its caveats are. |
| `Caveats.AttenuationNarrows` | lib/l402/l402.go:310-385 | If any attenuation of a bound token is accepted at some time, the original was accepted at that time and every earlier one. |
| `Encodings.HexDecodesExactly` | lib/l402/l402.go:318-321 | Exactly the texts of an even number of hexadecimal digits, of either case, decode. |
| `Encodings.HexLowers` | lib/l402/l402.go:318-321 | Encoding what was decoded gives the text back in lower case. |
| `Encodings.B64DecodesExactly` | lib/l402/l402.go:576-583 | Exactly complete quantums of the standard alphabet decode, padded at most in the last. |
| `Headers.ParseAuthorization` | lib/l402/l402.go:562-591 | The method equals the header grammar: not an L402 credential, a malformed one with its error, or the macaroons and preimage. |
| `Headers.AuthorizationRoundTrip` | lib/l402/l402.go:474-591 | Parsing a rendered Authorization value gives back macaroon and preimage exactly when the preimage is non-empty hexadecimal. |
| `Headers.AuthorizationText` | lib/l402/l402.go:474-477 | The credential header, as text. |
| `Headers.ParseChallenge` | lib/l402/l402.go:496-533 | The method equals the challenge grammar: last parameter of a name wins, unknown ones are ignored, keys are case-insensitive. |
| `Headers.FindChallenge` | lib/l402/l402.go:538-554 | The first well-formed challenge, else the first error, else nothing. |
| `Headers.ScanReports` | lib/l402/l402.go:535-556 | With no well-formed challenge the first malformed one is reported, and nothing when there is none. |
| `Headers.ChallengeRoundTrip` | lib/l402/l402.go:466-533 | Parsing a written challenge gives back macaroon and invoice exactly when the invoice is non-empty, has no comma and no quote at either end. |
| `Headers.ChallengeTexts` | lib/l402/l402.go:466-470 | The two challenge headers, as text. |
| `Headers.FindsWritten` | lib/l402/l402.go:466-554 | The client finds the LSAT challenge behind any headers that are no well-formed L402 challenge. |
| `Base58.BufferSuffices` | lib/offerreceipt.go:26-27 | 256^n is below 58^(138n/100+1) for every n. |
| `Base58.AddOctet` | lib/offerreceipt.go:29-38 | The inner loop multiplies the buffer by 256 and adds the octet, with no index outside the buffer and the carry at most 255. |
| `Base58.FillBuffer` | lib/offerreceipt.go:26-39 | After the outer loop the buffer holds the base-58 digits of the input's value. |
| `Base58.Render` | lib/offerreceipt.go:44-50 | One symbol per leading zero octet, then one per significant digit. |
| `Base58.Encode` | lib/offerreceipt.go:21-51 | The whole in-place encoder equals conversion of the number with leading zeros kept. |
| `Base58.ConvertBack` | lib/offerreceipt.go:21-51 | Conversion keeps the value and the number of leading zeros, and converting back gives the same digits. |
| `Base58.DecodesEncoded` | lib/offerreceipt.go:21-51 | A decoder undoes the encoder on every octet string. |
| `Base58.EncodesDecoded` | lib/offerreceipt.go:18-51 | Exactly the texts over the alphabet decode, and each is the encoding of what it decodes to. |
| `Base58.Alphabet` | lib/offerreceipt.go:18 | The alphabet leaves out 0, I, O and l. |
| `Base58.EncodingInjective` | lib/offerreceipt.go:21-51 | No two octet strings have the same encoding. |
| `Ledger.RunKeeps` | lib/ledger/ledger.go:84-120 | After every operation sequence each external reference and each keyed charge took effect at most once, and no balance was ever negative. |
| `Ledger.GrantFollows` | lib/ledger/ledger.go:84-99 | A grant is refused for a non-positive amount or a missing reference; otherwise it replays or tells the balance it leaves. |
| `Ledger.ChargeFollows` | lib/ledger/ledger.go:101-120 | A charge replays, fails for want of credit, or tells the balance it leaves. |
| `Ledger.Memory.Grant` | lib/ledger/ledger.go:84-99 | The map ledger answers and changes as the log does, and stays its refinement. |
| `Ledger.Memory.Charge` | lib/ledger/ledger.go:101-120 | The same for a charge: replayed key, insufficient balance, debit. |
| `Ledger.Memory.Balance` | lib/ledger/ledger.go:122-126 | The balance is grants minus charges of the log. |
| `Ledger.SQLite.Grant` | lib/ledger/sqlite.go:89-143 | The table transaction, insert first and then credit or look up the owner, answers and changes as the log does. |
| `Ledger.SQLite.Charge` | lib/ledger/sqlite.go:145-227 | Row first, conditional debit second; a failed debit rolls both back; answers and tables refine the log. |
| `Ledger.SQLite.Balance` | lib/ledger/sqlite.go:229-237 | The balance is grants minus charges of the log, zero for an unknown account. |
| `Ledger.ConflictIsCharged` | lib/ledger/sqlite.go:34-51 | The unique index on account and key conflicts exactly when the log holds a charge under that key. |
| `Ledger.AgreeExactlyWhen` | lib/ledger/ledger.go:101-120 | Both ledgers answer every operation sequence over a set of accounts alike exactly when no account is another one continued after a NUL octet. |
| `Ledger.NulFreeSeparable` | lib/ledger/ledger.go:106-115 | Account ids without NUL meet that condition. |
| `Ledger.CreditedOnce` | lib/ledger/ledger.go:84-99 | All that is ever credited under a reference is the one grant made under it. |
| `Ledger.GrantsLast` | lib/ledger/ledger.go:92-94 | The first grant under a reference stays the only one in every continuation. |
| `JsonValue.DeepEqualIsEquality` | lib/x402/x402.go:218-246 | The one-sided recursive comparison is true exactly when both JSON trees are equal as values. |
| `JsonValue.EqualSemanticExactly` | lib/x402/x402.go:198-216 | Two entries are equal exactly when both decode and mean the same, whatever their key order. |
| `JsonValue.EqualSemanticEquivalence` | lib/x402/x402.go:198-216 | Symmetric and transitive always; reflexive exactly on entries whose extra is absent or decodes. |
| `Discovery.Index.PutResource` | bazaar/store.go:71-76 | Stores the resource under its URL and tool name and changes no other entry. |
| `Discovery.Index.Resources` | bazaar/store.go:79-87 | Returns each stored resource exactly once, in an order nothing is assumed about. |
| `Discovery.FilterResources` | bazaar/discovery.go:226-253 | The loop and the sort return the matching resources in key order. |
| `Discovery.MatchesExactly` | bazaar/discovery.go:218-340 | Criteria narrow independently and ignore case, an empty one accepts everything, and the query is a substring of a name, description, URL, tool or tag. |
| `Discovery.ContainsExactly` | bazaar/discovery.go:307-322 | Containment is being a stretch of the text. |
| `Discovery.ClampPageSize` | bazaar/discovery.go:29-34 | The page size is between 1 and 100 and is the requested one whenever that is. |
| `Discovery.PageExactly` | bazaar/discovery.go:255-267 | For every offset and limit the page is the stretch from the offset on, cut to a positive limit. |
| `Discovery.FilteredIsListing` | bazaar/discovery.go:226-253 | Every enumeration order of the index gives the one strictly sorted listing of the matching resources. |
| `Discovery.FilteredListed` | bazaar/discovery.go:226-253 | The result is that listing: exactly the matching resources, strictly ordered, each once. |
| `Discovery.PagesConcatenate` | bazaar/discovery.go:142-170 | Pages at successive offsets concatenate to the whole listing, even when the store enumerates differently for each page. |
| `Amounts.Pad` | bazaar/onchain.go:122-124 | The loop pads the fraction with zeros to eight digits. |
| `Amounts.DcrToAtoms` | bazaar/onchain.go:113-139 | The method equals the unguarded parser: too many decimals, malformed parts, or the signed 64-bit sum. |
| `Amounts.AtomsAreExact` | gateway/config.go:121-152 | The atoms of a decimal are the number it denotes times ten to the eighth, with nothing rounded. |
| `Amounts.ParsersAgree` | gateway/config.go:121-152 | On every unsigned decimal up to the range guard all three parsers give the exact atoms within 64 bits; only the gateway parser refuses zero. |
| `Amounts.UnitSuffix` | agent/policy/policy.go:135-139 | A trailing DCR unit does not change any accepted policy amount. |
| `Amounts.GuardedExactly` | agent/policy/policy.go:135-163 | Signs included, the guarded parsers accept exactly these texts and read them as an unsigned decimal: an optional sign before the digits of the whole part and before the fraction, where it takes up one place, and a minus only before zeros. |
| `Amounts.ParsersRead` | gateway/config.go:121-152 | On every accepted text, signs included, all three parsers read that decimal; the gateway parser refuses zero and the on-chain one lets a leading minus negate it. |
| `Amounts.GuardedParsersAgree` | agent/policy/policy.go:135-163 | The gateway parser accepts an amount exactly when the policy parser reads the same positive amount with no unit written. |
| `Amounts.AmountAgreesExactly` | bazaar/onchain.go:110-139 | On every text the policy parser accepts, the on-chain parser gives the same amount exactly when there is no outer white space or unit and a leading minus is followed by zeros only. |
| `Amounts.DcrAgreesExactly` | gateway/config.go:121-152 | On every text the gateway parser accepts, the on-chain parser gives the same amount exactly when there is no outer white space and no leading minus. |
| `Amounts.SignedTextDisagrees` | gateway/config.go:126-133 | The text -0.5 is half a DCR to the gateway and policy parsers and minus half a DCR to the on-chain one. |
| `Amounts.SignInFraction` | gateway/config.go:134-143 | Every parser reads 1.+5 as 1.05 DCR. |
| `Amounts.ParsersUndoPrinting` | bazaar/onchain.go:110-139 | Every parser undoes an eight-decimal printer on every positive amount up to the guard. |
| `Credentials.ExpiryExactlyWhen` | lib/challenge.go:51-56 | A minted credential is accepted exactly before its expiry if and only if the service name has no comma, colon or equals sign and does not start with white space. |
| `Caveats.UnlistableRejected` | lib/l402/l402.go:387-415 | A service name that the list grammar cannot spell is refused whatever the caveats say. |
| `Credentials.NeverExpires` | lib/l402/l402.go:286-288 | With an equals sign in the service name time plays no part: a credential is always accepted or never. |
| `Credentials.EternalCredential` | lib/challenge.go:51-56 | Every listable name whose part before its first equals sign is no known condition gives credentials that are accepted at every time, whenever they were issued. |
| `Credentials.EternalName` | lib/l402/l402.go:286-288 | The service name a=b is one: whenever issued, its credential is accepted at every time. |
| `Credentials.CredentialFor` | lib/verify.go:481-500 | The method equals the delivered text and the last expiry among the caveats. |
| `Credentials.UntilOfLast` | lib/verify.go:481-500 | The reported expiry is that of the last caveat that has one. |
| `Credentials.NoUntil` | lib/verify.go:481-500 | Without such a caveat it is zero. |
| `Credentials.DeliveryParses` | lib/verify.go:463-500 | The delivered text parses back to the minted token, reports its expiry, and the macaroon names the token id as account. |
| `Credentials.MintedAuthorizes` | lib/gate.go:320-340 | While its root key is stored, a minted token is authorized exactly before its expiry, for its own account. |
| `Credentials.AuthorizedExactly` | lib/gate.go:320-340 | For every stack, preimage text and time, authorization succeeds exactly when the first macaroon's identifier decodes, its storage key is stored, the stored key signed it, the preimage is 32 octets in hexadecimal hashing to its payment hash, and its caveats hold; the account is its token id. |
| `Credentials.HolderAddsCapability` | lib/l402/l402.go:374-384 | Every live credential of a service without capabilities is refused when one is asked for, and accepted once its holder has appended a caveat that names it. |
| `GateServer.Store.Settle` | lib/store/store.go:159-168 | The first response recorded under a key is kept and returned to every later call, with the already flag. |
| `GateServer.Store.PutChallenge` | lib/store/store.go:142-147 | Only the challenge map changes, at the payment hash. |
| `GateServer.Store.PutOnchainChallenge` | lib/store/store.go:125-130 | Only the on-chain map changes, at the address. |
| `GateServer.Store.PutRootKey` | lib/store/store.go:177-182 | Only the root-key map changes. |
| `GateServer.Store.DeleteRootKey` | lib/store/store.go:194-199 | Removes one root key and nothing else. |
| `GateServer.BuildCaveats` | lib/challenge.go:51-56 | Services, then capabilities if any, then the expiry. |
| `GateServer.Mint` | lib/challenge.go:41-61 | Mints over the hash and token id and stores the root key under the hash of the identifier. |
| `GateServer.BuildChallenge` | lib/challenge.go:68-120 | Refuses a non-positive amount and changes nothing; otherwise stores exactly the credential and the challenge it offers. |
| `GateServer.BuildTopupChallenge` | lib/topup.go:191-314 | Stores one or two challenges over one token id, and offers exactly the stored entries. |
| `GateServer.SettleFull` | lib/verify.go:326-449 | A verification failure returns its reason and changes nothing; a success records once and returns the recorded response. |
| `GateServer.Serve` | lib/gate.go:176-308 | For every Authorization text a credential of a paid customer, and nothing else, opens the gate and consumes nothing; a proof runs the handler only on first settlement; a missing, undecodable or failing proof is refused with its reason and, except for a shallow deposit, stores and offers one fresh challenge at the price. |
| `GateServer.Refuse` | lib/gate.go:264-308 | A refusal stores exactly the challenge it offers; a shallow deposit, a zero price or a silent node gets none. |
| `GateServer.ServeTopup` | lib/topup.go:109-159 | Settles and then grants under the settlement's reference; a failure touches neither store nor ledger. |
| `GateServer.CredentialAccount` | lib/topup.go:328-345 | An Authorization text has an account exactly when it is a credential of a paid customer, and it is that of its identifier. |
| `GateServer.ChargeCredential` | lib/topup.go:328-365 | Charges the account of the token id exactly when the Authorization text is a credential of a paid customer. |
| `GateServer.PresentsExactly` | lib/gate.go:320-340 | The gate's own check of the header accepts exactly the credentials of paid customers, for the account of their identifier. |
| `GateServer.Server.Handle` | lib/gate.go:176-308 | One gated request is no step of the settlement machine, one issued challenge, or a verification and its commit; store and ledger stay what the run says. |
| `GateServer.Server.OfferTopup` | lib/topup.go:191-314 | One top-up challenge is one or two issue steps. |
| `GateServer.Server.HandleTopup` | lib/topup.go:109-159 | One top-up proof is no step, or verification, commit and grant. |
| `GateServer.Server.HandleCharge` | lib/topup.go:328-365 | One charge is no step, exactly when the gate refuses the credential, or the charge of the account that the credential names, answered as the ledger does. |
| `GateServer.Server.Revoke` | lib/store/store.go:194-199 | Revoking a root key is the revocation step. |
| `GateServer.ServerKeeps` | lib/topup.go:109-159 | Whatever requests a gate has answered, each payment is credited nothing or exactly its amount, and each key ran once if it is settled and never otherwise. |
| `Seller.ThousandfoldExactly` | lib/verify.go:131-141 | The 64-bit amount rule accepts exactly the true thousandfold whenever that is below 2^64 milli-atoms, and only then. |
| `Seller.WireNames` | lib/x402/x402.go:66-125 | The extra objects and proofs by their wire names. |
| `Seller.RecordsExactly` | lib/challenge.go:93-116 | What both kinds of record and the entry they offer carry: amount, payee, resource, lifetime, scheme, asset and network. |
| `Seller.FieldsExactly` | lib/x402/x402.go:66-125 | A field that is missing or null decodes as empty, a text as itself, and anything else is an error. |
| `Seller.OnchainExtraExactly` | lib/x402/x402.go:79-83 | An on-chain extra decodes exactly when method and credential are texts and confirmations is an integer. |
| `Seller.RefTexts` | lib/verify.go:352-380 | References and settlement keys, as text. |
| `SellerRules.ThousandfoldWraps` | lib/verify.go:131-141 | Beyond that a zero invoice passes the rule. |
| `SellerRules.LightningSound` | lib/verify.go:71-221 | For every JSON encoder, a lightning success matches an issued, live, node-settled challenge whose preimage is known and whose entry is echoed, and the echoed invoice pays the seller the amount; it is the issued invoice whenever the encoder renders the entry faithfully. |
| `SellerRules.LightningReasons` | lib/verify.go:161-221 | Each refusal before the proof is looked at has its one cause, an expired challenge tells whether it was settled, and without the node's settlement nothing verifies. |
| `SellerRules.InvoiceClock` | lib/verify.go:144-153 | Given a clock, the invoice must be live by its own expiry, its last instant included. |
| `SellerRules.OnchainSound` | lib/verify.go:227-311 | An on-chain success matches an issued, echoed entry and a deposit of exactly the amount at the required depth. |
| `SellerRules.DepositReasons` | lib/verify.go:268-311 | Each refusal stands for one finding of the backend; only a missing or shallow deposit is to be presented again. |
| `SellerRules.PreparedSound` | lib/verify.go:326-411 | Every verified presentation satisfies all rules of its rail and the resource's price. |
| `SellerRules.HonestPayerSettles` | lib/verify.go:161-389 | Whoever pays a live invoice, echoes the entry (which renders faithfully) and presents the preimage is settled with that challenge's account and amount. |
| `SellerRules.HonestDepositSettles` | lib/verify.go:227-411 | Whoever deposits the exact amount to the required depth is settled, however long it took. |
| `SellerRules.LightningIssues` | lib/challenge.go:93-116 | Issuing over a fresh hash keeps the store equal to what was issued. |
| `SellerRules.OnchainIssues` | lib/topup.go:245-298 | The same for a fresh deposit address. |
| `Settlement.RunKeeps` | lib/verify.go:326-449 | Every step of issue, verify, commit, grant, charge and revoke keeps the settlement and credit invariant, in every interleaving. |
| `Settlement.SettledOnce` | lib/gate.go:244-259 | In every run the paid operation of a key runs at most once, exactly once if it was ever settled. |
| `Settlement.SameResponse` | lib/verify.go:440-448 | In every run all successes of a key carry one response. |
| `Settlement.SettledWasPaid` | lib/verify.go:326-449 | In every run each settlement was verified by every rule against a challenge this gate issued. |
| `Settlement.FirstCommitSettles` | lib/store/store.go:159-168 | After any steps a key is settled exactly when one of them committed it, with the response of the first that did. |
| `Settlement.CreditedNothingOrAmount` | lib/topup.go:109-159 | In every run, stops between settlement and grant included, a payment is credited nothing or exactly its challenge's amount, only to its challenge's account. |
| `Settlement.CompletedIsCredited` | lib/topup.go:134-158 | In every run a presentation that reached its grant leaves its payment credited exactly once, to the account it reported. |
| `Settlement.PresentationCompletes` | lib/topup.go:109-159 | From every reachable state a presentation that verifies on either rail can be recorded and granted, which credits its full amount under its own reference. |
| `Settlement.HonestTopupCompletes` | lib/topup.go:109-159 | From an empty gate there is a run in which an honest payer's lightning top-up is issued, presented, recorded and credited in full. |
| `Settlement.HonestDepositCompletes` | lib/topup.go:109-159 | The same for a deposit of the exact amount at the required depth. |
| `Settlement.DeliveredCredentialOpens` | lib/verify.go:365-449 | In every run the credential of any settlement, first or repeated, on either rail, parses back and is accepted exactly before its reported expiry while its root key is stored, for the reported account. |
| `Policy.DayStartIs` | agent/store/store.go:98-101 | The day start is the only midnight at most a day before the time. |
| `Policy.WeekStartIs` | agent/store/store.go:104-111 | The week start is a Monday midnight at most seven days before the time. |
| `Policy.ClockUnits` | agent/store/store.go:233-251 | The hour is sixty minutes and the day twenty-four hours, in nanoseconds. |
| `Policy.ComputeUsage` | agent/store/store.go:233-251 | The loop yields the atoms since midnight and since Monday and the payments of the last hour. |
| `Policy.MatchAny` | agent/policy/policy.go:233-248 | Returns the first pattern that matches, and none exactly when none does. |
| `Policy.MatchesExactly` | agent/policy/policy.go:233-239 | A wildcard pattern matches its domain and every host below it, in any case; any other pattern only itself. |
| `Policy.CheckDestination` | agent/policy/policy.go:276-313 | The destination rule of each kind passes exactly when deny and allow lists permit it. |
| `Policy.Evaluate` | agent/policy/policy.go:254-367 | Denies exactly when the memo, the destination, the cap, the hourly count, the day or the week budget fails; an amount of at least the threshold is never allowed without the owner and a smaller one never escalated; only the last rule of a trace can have failed; the remaining budgets are reported. |
| `Budgets.PeriodBudget` | agent/service.go:136-186 | No calendar period of a ledger checked one payment at a time exceeds its budget, even when check and record straddle a boundary. |
| `Budgets.HourlyLimit` | agent/policy/policy.go:324-330 | No window of one hour holds more payments than the limit. |
| `Budgets.LimitsHold` | agent/service.go:136-186 | Every UTC day, every Monday-start week and every hour of such a ledger is within its limit. |
| `Budgets.UsageExactly` | agent/store/store.go:233-251 | On a ledger with nothing set aside the usage policy sees is what the current day and week hold and what the last sixty minutes saw. |
| `Budgets.WindowIsCount` | agent/store/store.go:233-251 | A window holds as many payments as there are in it. |
| `Approvals.StepKeeps` | agent/approve/approve.go:101-224 | Every step of escalation, resolution, sweep and restart keeps the approval invariant. |
| `Approvals.OneVerdictOneRun` | agent/approve/approve.go:101-224 | In every run an approval leaves pending at most once, its continuation starts at most once, and with approval only after some resolver won that verdict no later than the expiry. |
| `Approvals.RestartFailsClosed` | agent/approve/approve.go:60-89 | No continuation of an approval that existed before a restart ever starts after it. |
| `Approvals.Registry.ResolveApproval` | agent/store/store.go:304-316 | Flips exactly a pending, unexpired approval and reports whether it did. |
| `Approvals.Registry.Escalate` | agent/approve/approve.go:101-143 | Parks the approval; when no asked channel is reachable it is denied and its continuation dropped. |
| `Approvals.Registry.Resolve` | agent/approve/approve.go:150-167 | Wins exactly on a pending, unexpired approval and then hands out the continuation this process holds. |
| `Approvals.Registry.ExpireApprovals` | agent/store/store.go:331-344 | Marks exactly the overdue approvals expired and returns each once. |
| `Approvals.Registry.ExpireNow` | agent/approve/approve.go:210-224 | One sweep expires exactly the overdue approvals, drops exactly their continuations, and hands out each dropped continuation once. |
| `Approvals.Notify` | agent/approve/approve.go:125-134 | Counts a notification exactly when some asked channel is reachable. |
| `Buyer.RunKeeps` | agent/service.go:269-396 | Every step keeps the ledger within limits, matched with the rail, and backed by attempts, in every interleaving. |
| `Buyer.BudgetsHold` | agent/service.go:136-301 | In every run each UTC day, Monday-start week and one-hour window is within its limit once owner-approved direct payments are set aside. |
| `Buyer.LedgerMatchesRail` | agent/service.go:303-396 | In every run the ledger lists the successful rail payments in order, whatever services answered afterwards; only the payment in progress may be missing. |
| `Buyer.RefusedAreListed` | agent/service.go:379-396 | In every run a service that took the money and then failed is in the ledger exactly once, or not yet when its record is the next step. |
| `Buyer.PaymentsAreBacked` | agent/service.go:136-396 | In every run each ledger entry names an earlier attempt for exactly its amount that policy allowed, or that it escalated and for which an approval, won from an owner in time for at least that amount, was spent. |
| `Buyer.ApprovalBacksOne` | agent/service.go:147-160 | In every run an approval backs at most one ledger entry. |
| `Buyer.LargeAreApproved` | agent/policy/policy.go:315-361 | In every run no ledger entry exceeds a set cap, and each of at least a set threshold has an approval spent on it that an owner gave in time for at least its amount. |
| `Buyer.NoAttemptPaidTwice` | agent/service.go:269-396 | In every run no attempt is paid twice. |
| `Buyer.RestartFailsClosed` | agent/approve/approve.go:60-89 | Nothing that waited for an owner before a restart is ever resumed after it. |
| `Agent.Service.EvaluateAndRecord` | agent/service.go:214-225 | Evaluates against usage derived from the ledger and records the attempt before anything is paid. |
| `Agent.Service.Exec` | agent/service.go:303-343 | A successful rail payment is recorded with its attempt and amount; a failed one records nothing. |
| `Agent.Service.ExecuteOrEscalate` | agent/service.go:228-301 | A direct payment takes exactly the machine's steps: executed, denied, parked, or, when no channel is reachable, denied and dropped with that error. |
| `Agent.Service.RunApproved` | agent/service.go:285-295 | An approved direct payment executes without a new evaluation. |
| `Agent.Service.GateHook` | agent/service.go:136-164 | A fetch is admitted exactly when policy allows it, or escalates it within the amount the owner approved; it is parked exactly when it escalates without an approval, and its approval is then pending. |
| `Agent.Service.RecordPaid` | agent/service.go:379-391 | What the rail paid becomes one ledger entry after the service's answer, whatever that was. |
| `Agent.Service.PayAndRecord` | agent/payclient/payclient.go:226-276 | An admitted fetch adds one entry exactly when the rail paid, for every answer to the retry, and reports the payment. |
| `Agent.Service.RunFetch` | agent/service.go:352-396 | For every server and rail the fetch takes the machine's steps, and the ledger grows by one entry exactly when there was a challenge, policy admitted it and the rail paid; the retry plays no part. |
| `Agent.Service.FetchPaid` | agent/service.go:352-396 | The same for a fetch as the caller asks for it, from taking the lock to releasing it. |
| `Agent.Service.ResumeFetch` | agent/service.go:360-369 | The same for the continuation of an approved fetch, with the approved amount as ceiling. |
| `Agent.ServiceKeeps` | agent/service.go:136-396 | Whatever the service did, its ledger is within the day, week and hour limits and, between payments, lists exactly the rail payments. |
| `PayClient.ParseX402` | agent/payclient/payclient.go:346-399 | The search loop decides by the first lightning entry, with every cross-check against the decoded invoice. |
| `PayClient.FirstLightningExactly` | agent/payclient/payclient.go:346-357 | The entry that decides is the first that pays over lightning, and there is none exactly when no entry does. |
| `PayClient.EntryExactly` | agent/payclient/payclient.go:357-384 | An entry is accepted exactly when it agrees with its own invoice on network, payee, payment hash and amount. |
| `PayClient.ParseChallenge` | agent/payclient/payclient.go:315-344 | x402 unless absent or the caller insists on the legacy envelope. |
| `PayClient.ChallengePriced` | agent/payclient/payclient.go:315-399 | The amount shown to policy is the invoice's: by 64-bit thousandfold over x402, rounded down to whole atoms over legacy L402. |
| `PayClient.ExactPrice` | agent/payclient/payclient.go:315-399 | It is exact precisely below 2^64 milli-atoms over x402, and precisely for invoices of whole atoms over legacy L402. |
| `PayClient.HalfAtomUnseen` | agent/rails/ln/ln.go:101-126 | Behind written legacy headers an invoice of 1500 milli-atoms is shown to policy as one atom. |
| `PayClient.Client.Probe` | agent/payclient/payclient.go:164-195 | Goes on to pay exactly when the decisive reply is a 402, and is free exactly when it is a success; of the cache only a refused credential is dropped. |
| `PayClient.Client.Redeem` | agent/payclient/payclient.go:243-309 | Reports whether the paid retry was served, and the cache is what that retry leaves. |
| `PayClient.Client.Quote` | agent/payclient/payclient.go:153-208 | Up to the policy gate the client yields exactly the challenge of a decisive 402 within the caller's guard, priced by its invoice, and nothing is paid. |
| `PayClient.QuotedExactly` | agent/payclient/payclient.go:153-208 | A challenge is paid exactly when the decisive reply is a 402 that carries it, within the caller's guard. |
| `PayClient.KeptExactly` | agent/payclient/payclient.go:164-191 | A credential is dropped exactly when it was fit to send and answered with 401 or 402. |
| `PayClient.Client.Settle` | agent/payclient/payclient.go:226-309 | After a payment the result reports it whatever the retry answers, and the cache is what the retry leaves; without one nothing changes. |
| `PayClient.Client.FetchPaid` | agent/payclient/payclient.go:153-310 | For every server behaviour, pays at most once, exactly when policy admitted this host and amount, for an invoice that takes that amount, reports the payment even when the service then fails, and leaves in the cache exactly what the retry delivered, less a refused credential. |
| `PayClient.CachedExactly` | agent/payclient/payclient.go:277-309 | Only a served retry changes the cache, only for its host: over x402 to the delivered credential with its expiry, over legacy L402 to the macaroon and preimage as text. |
| `PayClient.FetchTwice` | agent/payclient/payclient.go:153-183 | After a served purchase a second fetch of the host, before the reported expiry and served for the cached credential, pays nothing and asks nothing. |
| `Exchange.OfferIsQuoted` | agent/payclient/payclient.go:346-399 | The client reads the gate's offer as the issued invoice at the issued amount. |
| `Exchange.OfferIsQuotedLegacy` | agent/payclient/payclient.go:315-344 | The same over the legacy headers, while a thousand times the amount fits 63 bits. |
| `Exchange.RetryVerifies` | agent/payclient/payclient.go:247-263 | In every state a gate can reach, the client's retry for a live, paid offer verifies at its price. |
| `Exchange.DeliveredAccepted` | lib/verify.go:463-500 | The delivered credential reports its expiry and the gate accepts it exactly before then while its root key is stored. |
| `Exchange.UsableWhileAccepted` | agent/payclient/payclient.go:164-172 | The client presents a cached credential exactly before its reported expiry, and always when that is zero. |
| `Exchange.Purchase` | agent/payclient/payclient.go:153-310 | A bare request is refused with an offer, the client reads the issued invoice and price, its paid retry runs the handler, and the gate then accepts the cached credential exactly before its reported expiry. |
| `BisonRelay.Approver.ResolveIDs` | agent/approve/bisonrelay/bisonrelay.go:297-311 | The loop resolves the first winnable name; a failing store write changes no approval. |
| `BisonRelay.IdsExactly` | agent/approve/bisonrelay/bisonrelay.go:297-311 | Exactly the words that are neither empty nor halting count as ids. |
| `BisonRelay.IdsAppend` | agent/approve/bisonrelay/bisonrelay.go:297-311 | They are taken in the order of the reply. |
| `BisonRelay.Approver.HandleReply` | agent/approve/bisonrelay/bisonrelay.go:241-282 | A handled reply resolves its first winnable name and leaves the kill switch halted, resumed or unchanged as it says; a failed one changes no approval and sets the switch, if at all, only as the reply says. |
| `BisonRelay.VerdictDecides` | agent/approve/bisonrelay/bisonrelay.go:259-323 | Each word for yes with the id of a live approval approves it, each word for no denies it, and nothing else changes. |
| `BisonRelay.HaltOverrides` | agent/approve/bisonrelay/bisonrelay.go:259-282 | A freeze or block, first or after a verdict, halts all spending and leaves nothing approved that was not. |
| `BisonRelay.OtherFirstWords` | agent/approve/bisonrelay/bisonrelay.go:241-264 | A resuming word lifts the freeze and decides nothing; any other word that is no verdict or halt does nothing. |
| `BisonRelay.PlainVerdict` | agent/approve/bisonrelay/bisonrelay.go:259-282 | A verdict with no halting word leaves the switch alone, and with no word after it does nothing. |
| `BisonRelay.Approver.Process` | agent/approve/bisonrelay/bisonrelay.go:198-219 | One message moves the ack only after its handling finished without error. |
| `BisonRelay.Approver.Consume` | agent/approve/bisonrelay/bisonrelay.go:187-220 | Over a stream with any failures both acks stay below every message not handled to the end; without failures they reach the last one. |
| `BisonRelay.Approver.LoadAck` | agent/approve/bisonrelay/bisonrelay.go:177-185 | A restart resumes from the persisted ack, which is still safe. |
| `BisonRelay.NewMessage` | agent/approve/bisonrelay/bisonrelay.go:187-220 | Messages that arrive later keep every ack safe. |
| `BisonRelay.ReplayExactly` | agent/approve/bisonrelay/bisonrelay.go:202-208 | Delivering a handled reply again, at any later point, changes no approval exactly when no name is live that came after its winner or that named no approval the first time. |
| `BisonRelay.SingleNameReplays` | agent/approve/bisonrelay/bisonrelay.go:202-208 | A reply text that names one approval, among any words that never name one, changes no approval when delivered again, whatever happened in between. |
| `BisonRelay.TwoNamesReplay` | agent/approve/bisonrelay/bisonrelay.go:202-311 | For any two approval ids, from a reachable state, a yes to both approves the second one too when it is delivered again. |
| `BisonRelay.SwitchReplaysExactly` | agent/approve/bisonrelay/bisonrelay.go:202-282 | Delivering a handled reply again, after any freezes and unfreezes in between, leaves the kill switch alone exactly when none of them was last to undo what the reply did. |
| `BisonRelay.ReplayIdempotentExactly` | agent/approve/bisonrelay/bisonrelay.go:202-282 | A replayed reply changes neither approvals nor the switch exactly when both conditions hold. |
| `BisonRelay.FreezeReplayed` | agent/approve/bisonrelay/bisonrelay.go:248-252 | A freeze that was handled and then lifted halts spending again when it is delivered again. |
| `BisonRelay.UnfreezeReplayed` | agent/approve/bisonrelay/bisonrelay.go:253-257 | An unfreeze that was handled resumes spending when it is delivered again after a freeze from the dashboard. |

## Left out

- White space and case beyond ASCII: Go's Unicode rules for trimming, fields and folding.
- The text of JSON, YAML and URLs, Go's case-insensitive matching of JSON keys, and the spelling of JSON numbers.
- SQL, HTTP, gRPC and WebSocket drivers and their failures, except where a failure is a branch of the modelled code.
- 64-bit overflow of balances and budget sums; it would need more atoms than exist.
- The stored JSON of requirements and responses is kept as the value it decodes to.
- The payment-identifier extension and the signed offers of a challenge; a signed receipt is an opaque part of a response.
- The freeze switch at the start of a payment; refusing more starts only removes runs from the agent's model.
- Expiry of credentials in the token cache by last use, routing fees, and receipts' contents.
- The SQLite audit store, which keeps whole seconds; the model follows the in-memory store.
- Facilitator verification in bazaar/verify.go, which has the shape of the gate's settlement but no challenge store.
- Policy file loading, web dashboard, tool adapters, status pages, commands and daemon wiring.
