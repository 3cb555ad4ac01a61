# TrustList: verified models of the event pipeline and the authentication library

TrustList moves tier-one signals from collectors over an at-least-once event bus into a
canonical evidence store, and claims that a fixture run is reproducible to the byte. Beside
it sits an authentication library with an identity provider, roles, an audit trail and signed
verification tokens. This project models the parts whose correctness spans several functions
and proves what they promise, for all inputs and over all runs.

`dafny verify dfyconfig.toml` checks everything.

## The modules

| module | models |
|---|---|
| `Wrappers`, `Uuids` | optional values; the uuid column type: reading, printing and its many spellings |
| `Sorting` | text order, ORDER BY over several columns, uniqueness of a sorted arrangement |
| `Lru` | the deduplication window, both implementations |
| `EvidenceStore` | the domain, provenance and evidence tables and the transactional evidence writer |
| `Delivery` | the consume contract as a state machine over log, committed offset, session and store |
| `Consumers` | the Python and TypeScript consumer objects, proved to take the steps of `Delivery` |
| `Snapshot`, `SnapshotLaws`, `Reproducibility` | the canonical-store snapshot, what it shows of any store, and the reproducibility claim |
| `EvidenceCurrent`, `ViewRuns` | the DISTINCT ON view over the append-only evidence table, and over the stores that runs reach |
| `Decimal`, `Doubles` | decimal text; integers as JavaScript numbers: rounding and shortest digits |
| `CanonicalJson` | the TypeScript canonical printer, a decoder for it, and what the text identifies |
| `CanonicalParity` | the Python form over code points, and its agreement with the TypeScript one |
| `IdempotencyKey`, `HashedText` | key derivation in both SDKs, up to the hash, and the literal text that is hashed |
| `Base64`, `Tokens` | unpadded base64url (sections 3.2 and 5 of RFC 4648) and the verification tokens |
| `TokenSignatures` | what a token's signature covers, over the bytes of its segments |
| `WireFormats` | escapes, base64url, printed uuids and rounding ties, character by character |
| `Rbac`, `IdentityProvider`, `RoleStore`, `AuditTrail`, `AuthService` | the authentication library |
| `ProviderLaws`, `RoleLaws`, `ServiceLaws` | what each authentication operation means to the next caller: who logs in, what is held, what is recorded |
| `AuthSafety`, `AuthRuns` | runs of the authentication library across commits, rollbacks and failed statements |

## How the models are built

*Delivery.* A world is a log, a committed offset, a store and possibly a consumer session
(fetch position and window). A step produces a message, polls, crashes, or starts a session at
the committed offset with an empty window. A poll meets any fault the code can meet: a broker
error, a body that does not decode, a schema-invalid event, a database connection lost before
any statement of the write transaction, a database commit that succeeds without being
acknowledged, an offset commit lost or unacknowledged. An exception ends a Python session
(`run` lets it escape) and makes the kafkajs runner feed the same message again. Schemas are an
arbitrary predicate on events; generated ids and clocks are inputs. `Firsts(log)`, the first
event with each key, is the independent description of what the store should hold.

*The database.* An event carries its domain id as text; a uuid column reads many texts as one
uuid, and prints one of them. The tables hold uuids. A write fails, as the database makes it
fail, when a value does not cast to its column, when the CHECK on `domain.normalised_url`
refuses the URL built from the text, or when a key collides. `AllStorable` says of a list of
events that the database takes each of them where it comes.

*Snapshot.* `ExpectedStable` is a function of the domain's events alone; a capture of any
store the writer can build equals it when no two events tie.

*Canonical JSON.* Values have UTF-16 strings, `undefined`, bigints, and numbers with negative
zero, fractions and non-finite values. An integral number is a double and prints the shortest
decimal that reads back as it, the nearest such, padded with zeros; a bigint prints all its
digits. `SameData`
says when two values are the same data; a decoder for the canonical grammar (strings per
section 7 of RFC 8259) supplies the inverse of the printer. Python strings are code points, lone
surrogates included; dictionary keys with the same code units become one property of the
JavaScript object, which is written in the order of the dictionary. Integers of a Python document
reach the TypeScript side exactly, the unsafe ones as bigints, or through `JSON.parse`, which
rounds them to numbers; parity is stated for both.

*Authentication.* Provider state survives a rollback; table rows do not. A step of a run is
any service operation, any direct provider call, a `user_account` insert, a commit or a
rollback, with every statement able to fail and a failed statement aborting the transaction.
Time never runs backwards and random UUIDs do not repeat. The provider compares ids as texts,
the tables compare uuids. Live rows are counted independently
of the audit rows that account for them.

*Tokens.* The HMAC is an arbitrary function. Texts that no signer issues (characters outside
the base64 alphabet, non-canonical numbers or JSON) are read by arbitrary functions, so every
result holds whatever the libraries make of them. Instants are whole microseconds.

*Laws.* A method is proved against a function, and what the function means is proved beside it in
other terms: who logs in, which rows and columns change, what is answered afterwards, which bytes
are hashed and signed, each over its whole input and with its errors.

## Where the code and its promises part

Each of these has a concrete input or an exact condition in the project.

* Snapshot ordering falls back to generated ids on ties, and the domain row shows the spelling of
  the event that came first. So all drained runs over the same events, in every order, show one
  stable snapshot of a domain if and only if no two of its events agree on observed_at,
  signal_class and source_url, and those that may come first spell its id in one way
  (`Reproducibility.ReproducibleIffNoTies`). Two spellings of one uuid can tie
  (`Reproducibility.TwoSpellingsCanTie`), and without any tie the one that comes first shows
  (`Reproducibility.TwoSpellingsShow`).
* The view of current evidence is documented to break ties deterministically; it does so by
  recording times and generated ids. So all drained runs over the same events show one view, ids
  and clocks aside, if and only if for every natural key all events of the latest observation time
  show the same (`ViewRuns.ViewReproducibleIffOneLatest`, `ViewRuns.TiedObservationsDiffer`).
* A schema-valid event can be one that the database never takes: a domain id in upper case, whose
  domain is not yet known, is refused by the CHECK on every delivery and holds its partition for
  ever (`Delivery.UpperCaseHoldsThePartition`). A log drains if and only if it has no invalid and
  no such message (`Delivery.DrainsIffStorable`).
* A failed message is documented to be redelivered. A caller that catches the exception and polls
  the same Python consumer again gets the next message. The failed one is fetched again by a
  restart if and only if none of the further polls has committed; as soon as one has, no later
  run fetches it (`Consumers.PollingAgainSkips`, `Consumers.PollingAgainLosesAnEvent`).
* The two SDKs sort object keys differently when, at the first difference, one key has a
  supplementary character and the other one in U+E000 to U+FFFF
  (`CanonicalParity.ParityCounterexample`), and lone surrogates can do the same or make two keys one (`CanonicalParity.SurrogateKeysDiffer`);
  and an unsafe integer that was read by `JSON.parse` may print other digits than in Python, as
  2^60 does (`CanonicalParity.ParsedIntegerCounterexample`). They agree if and only if neither
  occurs (`CanonicalParity.ParityIffAgrees`).
* The two SDKs refuse the same derivations if and only if no absent field has the code units of a
  payload key (`IdempotencyKey.BothRefuseAlike`, `IdempotencyKey.HiddenFieldIsFound`).
* 2^60 as a number and as a bigint are equal but print differently
  (`CanonicalJson.TwoToThe60HasTwoTexts`); a number and a bigint share a text if and only if the
  bigint is the number's shortest decimal (`CanonicalJson.NumberSharesBigIntText`).
* Revoking a role is meant to end the user's sessions. The row is found by uuid, the sessions by
  text: it ends a session if and only if the caller spells the id as the provider does
  (`AuthRuns.RevokeEndsSessionIff`); by another spelling the role_revoke row is committed and the
  session still answers (`AuthRuns.OtherSpellingLeavesASession`).
* A token is documented to be invalid when malformed. With three segments and a character
  outside ASCII, verification instead raises an encoding error or a TypeError, and only then
  (`Tokens.UndocumentedErrorIffNotAscii`, `Tokens.NonAsciiTokenRaises`).
* Expiry is truncated toward zero, so before the epoch a token can outlive now + ttl by less
  than a second, exactly when that instant is not a whole second (`Tokens.TokenLifetime`,
  `Tokens.PreEpochTokenOutlivesItsExpiry`).
* A claim whose strings hold a high surrogate directly followed by a low one comes back joined
  (`Tokens.ClaimSurvives`, `Tokens.SplitPairIsJoined`).
* The audit row of a failed login belongs to the transaction that the error usually rolls back;
  its mirror does not. The row is kept if and only if the caller commits and no statement of the
  unit of work fails (`AuthRuns.FailedLoginNeedsCommit`). A sink is documented to receive what
  was persisted; it receives in excess exactly the rows that were discarded or are pending
  (`AuthRuns.MirrorAccounts`).

## Model

| member | source | states |
|---|---|---|
| Lru.PythonDedupStore.Seen | event-bus-sdk/trustlist_event_bus/consumer.py:102-107 | a hit is membership; a hit moves the key to the young end, a miss changes nothing |
| Lru.PythonDedupStore.Record | event-bus-sdk/trustlist_event_bus/consumer.py:109-114 | the window becomes the youngest `capacity` keys after touching the key |
| Lru.TypeScriptDedupStore.Seen | event-bus-sdk/typescript/src/dedup-store.ts:71-78 | delete-and-reinsert is the same step as the Python store's |
| Lru.TypeScriptDedupStore.Record | event-bus-sdk/typescript/src/dedup-store.ts:81-92 | delete, reinsert and evict is the same step as the Python store's, with a fractional capacity cut to its floor and no eviction for NaN and Infinity |
| Lru.NewPythonStore | event-bus-sdk/trustlist_event_bus/consumer.py:95-100 | construction fails exactly below capacity one |
| Lru.NewTypeScriptStore | event-bus-sdk/typescript/src/dedup-store.ts:63-68 | of all JavaScript numbers construction refuses exactly those below one, and takes NaN |
| Lru.WindowExactness | event-bus-sdk/trustlist_event_bus/consumer.py:84-114 | after any operations a key is in the window iff it was touched and fewer than `capacity` distinct other keys were touched since |
| Lru.WindowInclusion | event-bus-sdk/trustlist_event_bus/consumer.py:95-114 | on shared operations the smaller window is the age-ordered subsequence of the larger, of size min(capacity, larger size) |
| Lru.LargerWindowMissesNoDuplicate | event-bus-sdk/trustlist_event_bus/consumer.py:83-93 | a larger window catches every duplicate a smaller one catches |
| Lru.LargeCapacitiesAgree | event-bus-sdk/typescript/src/dedup-store.ts:81-92 | all capacities that a run cannot fill, and so NaN and Infinity, give one window |
| Uuids.ReadUuidText | data-model/trustlist_data_model/models.py:186-192 | a uuid column reads back what it prints |
| Uuids.UpperReadsTheSame | data-model/trustlist_data_model/models.py:186-192 | the upper-case spelling of any id is the same uuid |
| Uuids.TwoSpellings | data-model/trustlist_data_model/models.py:186-192 | some uuid has two spellings, its own and one in upper case |
| Uuids.PlainSpelling | data-model/trustlist_data_model/models.py:186-192 | every uuid has a second lower-case spelling, its digits without hyphens |
| WireFormats.UuidTextIs | data-model/trustlist_data_model/models.py:186-192 | a uuid prints as 32 lower-case digits with hyphens after the 8th, 12th, 16th and 20th |
| EvidenceStore.LookupIsExact | tests/smoke/evidence_writer.py:133-158 | the duplicate lookup finds a key iff an event with it was written, returns that event's own rows, and never sees two |
| EvidenceStore.NormalisedIffLowerCase | data-model/trustlist_data_model/models.py:245-257 | of the domain ids a uuid column reads, the CHECK refuses exactly those with an upper-case digit |
| EvidenceStore.WriteKeepsHolds | tests/smoke/evidence_writer.py:161-261 | a known key changes nothing and reports the existing rows; a new key fails iff a value does not cast, the CHECK refuses its domain or a generated id collides, and otherwise adds exactly its rows |
| EvidenceStore.HoldsIsReferential | tests/smoke/evidence_writer.py:167-170 | no orphan provenance, and every evidence row has its provenance and its domain |
| EvidenceStore.CanonicalStore.EnsureDomain | tests/smoke/evidence_writer.py:103-130 | fails iff the id is unreadable, or its domain is absent and the URL is refused by the CHECK or taken; otherwise the domain is there, inserted iff it was absent |
| EvidenceStore.CanonicalStore.WriteEvidence | tests/smoke/evidence_writer.py:195-261 | one atomic transaction under any fault: rows and result are those of the specified attempt |
| EvidenceStore.WriteReportsItsRows | tests/smoke/evidence_writer.py:195-261 | whatever write succeeds, one row pair has the event's anchor and exactly the two ids reported, in their own fields; the domain reported reads as that pair's; new clock columns are this transaction's; a redelivery reports the same pair as not created |
| EvidenceStore.AnchorsAndNames | tests/smoke/evidence_writer.py:70-193 | literally: the anchor's prefix, the URL's suffix and the four source names |
| EvidenceStore.EvidenceWriter.Handle | tests/smoke/evidence_writer.py:297-314 | writes, and appends the result to the results exactly on success |
| Delivery.RunKeepsInv | event-bus-sdk/trustlist_event_bus/consumer.py:173-258 | every run keeps: the store holds the first occurrences of a valid prefix of the log ending at the committed offset or one beyond, and the window only knows handled keys |
| Delivery.ExactlyOnceEffect | tests/smoke/evidence_writer.py:142-151 | in every reachable state each key has at most one row pair, exactly one if it lies below the committed offset, and the lookup never sees two rows |
| Delivery.StoreRefinesLog | tests/smoke/evidence_writer.py:161-247 | every reachable store is the image of the log's first occurrences, in order, and referentially intact |
| Delivery.CommitSafety | event-bus-sdk/trustlist_event_bus/consumer.py:213-231 | everything below the committed offset is valid and stored, and the offset never passes an undecodable, schema-invalid or unstorable message |
| Delivery.StorableIffNoneUnstorable | tests/smoke/evidence_writer.py:195-247 | the first occurrences of a log are storable in order iff none of its messages is refused where it comes |
| Delivery.UpperCaseHoldsThePartition | data-model/trustlist_data_model/models.py:245-257 | a valid event with its domain id in upper case is never committed, in any run of a log of it alone |
| Delivery.StepsOnlyGrow | event-bus-sdk/typescript/src/consumer.ts:215-265 | no step in any reachable state takes back a commit, a message or a row |
| Delivery.WindowIsOnlyAnOptimisation | event-bus-sdk/trustlist_event_bus/consumer.py:219-231 | every run with one window capacity is followed step by step by a run with any other, none included, with the same log, offsets and store |
| Delivery.PollDoes | event-bus-sdk/trustlist_event_bus/consumer.py:173-231 | a poll is idle iff nothing is fetched, done iff the event was handled or known and its commit acknowledged; it commits the next offset and changes the store by the handler alone |
| Delivery.DonePollRemembers | event-bus-sdk/trustlist_event_bus/consumer.py:219-231 | a poll that returns an event leaves its key at the young end of the window |
| Delivery.WindowIsLru | event-bus-sdk/trustlist_event_bus/consumer.py:99-114 | in every run the session's window is a fresh store after the session's own seen and record calls |
| Delivery.HitIsFree | event-bus-sdk/typescript/src/consumer.ts:215-237 | a message whose key is in the window leaves the store alone, whatever the writer's fault or ids |
| Delivery.RedeliverySkippedIff | event-bus-sdk/trustlist_event_bus/consumer.py:83-114 | in every run a message is skipped iff the session has touched its key and fewer than `capacity` others since |
| Delivery.DrainingTerminates | event-bus-sdk/trustlist_event_bus/consumer.py:202-258 | with a drainable log, as many fault-free polls as messages are left drain it, whatever faults, crashes and restarts come between; then the store holds the whole log |
| Delivery.DrainsIffStorable | event-bus-sdk/trustlist_event_bus/consumer.py:202-258 | some drive drains the log iff every message is valid and every first occurrence is one the database takes where it comes |
| Consumers.PythonConsumer.PollOnce | event-bus-sdk/trustlist_event_bus/consumer.py:173-231 | takes exactly the specified step on broker, store, window and fetch position; the position moves past the message even when an exception is raised |
| Consumers.SurvivingThenEnded | event-bus-sdk/trustlist_event_bus/consumer.py:252-258 | ending the session on an exception is the same step without its session |
| Consumers.PollingAgainSkips | event-bus-sdk/trustlist_event_bus/consumer.py:185-188 | after an exception, over every sequence of further polls of the same object: the position stays beyond the failed message; the committed offset passes it iff some poll commits, and then no later run, restarts included, fetches it; otherwise a restart does |
| Consumers.PollingAgainLosesAnEvent | event-bus-sdk/trustlist_event_bus/consumer.py:185-188 | two messages, a lost connection under the first, a second poll: fully committed with the first event not stored |
| Consumers.PythonConsumer.Run | event-bus-sdk/trustlist_event_bus/consumer.py:233-258 | polls until closed, limited or raised, as specified by `RunLoop` |
| Consumers.RunLoopCounts | event-bus-sdk/trustlist_event_bus/consumer.py:248-258 | an unlimited run is one step per poll until an exception, and its count is the number of offsets committed, except one unacknowledged |
| Consumers.RunLoopLimit | event-bus-sdk/trustlist_event_bus/consumer.py:233-258 | a limited run is the unlimited one on a prefix of the polls, which ends where the limit is reached; it never processes more |
| Consumers.TypeScriptConsumer.ProcessMessage | event-bus-sdk/typescript/src/consumer.ts:203-237 | takes exactly the specified step under re-feeding, committing offset + 1 |
| Snapshot.ResolveReference | tests/reproducibility/snapshot.py:207-235 | the index of the first captured row with the id, or the error if there is none |
| Snapshot.SplitDomains | tests/reproducibility/snapshot.py:288-311 | splits each domain row into its stable and volatile columns, in order |
| Snapshot.SplitProvenance | tests/reproducibility/snapshot.py:288-311 | splits each provenance row into its stable and volatile columns, in order |
| Snapshot.SplitEvidence | tests/reproducibility/snapshot.py:294-309 | splits evidence rows with both foreign keys rewritten; fails iff a reference dangles |
| Snapshot.CaptureSnapshot | tests/reproducibility/snapshot.py:238-313 | captures the specified snapshot from the live store, or fails on an unreadable id |
| Snapshot.CaptureShape | tests/reproducibility/snapshot.py:238-313 | capturing a written store never fails, and only the arrangement of rows can depend on anything but the events |
| Snapshot.CaptureIsExpected | tests/reproducibility/snapshot.py:75-87 | without ties the stable part is a function of the domain's events alone, in their order: ids and clocks are gone |
| SnapshotLaws.HalvesRejoin | tests/reproducibility/snapshot.py:81-132 | the split loses nothing: stable and volatile row i are together row i as read, ids and clocks included |
| SnapshotLaws.ReferencesPointHome | tests/reproducibility/snapshot.py:207-235 | each stable reference points at the first captured row whose id is the foreign key of the volatile half |
| SnapshotLaws.ReadsOwnRows | tests/reproducibility/snapshot.py:253-276 | of any store, exactly the domain's row, its evidence and the provenance that evidence rests on are read, ordered by the named columns |
| SnapshotLaws.CaptureFailsIff | tests/reproducibility/snapshot.py:230-235 | of any store, a capture fails iff some evidence row of the domain refers to a domain or provenance row that is not there |
| Reproducibility.RunsAreReproducible | tests/reproducibility/snapshot.py:161-184 | two drained runs, with any faults, orders, duplicates, ids and clocks, show equal stable snapshots if their logs carry the same events, equal keys carry equal content, no events tie and the domain is spelled in one way |
| Reproducibility.ReproducibleIffNoTies | tests/reproducibility/snapshot.py:253-313 | over every order, duplication, fault, id and clock the claim holds iff no two events of the domain tie and those that may come first spell it in one way |
| Reproducibility.OppositeIdsDiffer | tests/reproducibility/snapshot.py:264-264 | tied events whose ids are ordered oppositely in two stores give different snapshots |
| Reproducibility.TwoSpellingsCanTie | tests/reproducibility/snapshot.py:261-276 | two events under two spellings of one domain that tie, and runs over them that differ |
| Reproducibility.TwoSpellingsShow | tests/reproducibility/snapshot.py:253-260 | two events that do not tie, the domain spelled with and without hyphens, and runs over them that differ |
| Reproducibility.EqualSnapshotsAreRenamings | tests/reproducibility/snapshot.py:81-132 | equal stable parts of two written stores imply a one-to-one renaming of ids carrying one's captured rows onto the other's, clocks aside |
| EvidenceCurrent.CurrentHasOneLatestRowPerKey | data-model/migrations/versions/0001_create_canonical_data_model.py:639-661 | the view holds a row iff it is the latest observation of its natural key, and exactly one row per natural key |
| EvidenceCurrent.CurrentMeans | data-model/migrations/versions/0001_create_canonical_data_model.py:642-656 | column by column: a row shows iff no row of its domain, class and URL was observed later, or then recorded later, or then has a higher id |
| EvidenceCurrent.RefreshIgnoresRowOrder | data-model/migrations/versions/0001_create_canonical_data_model.py:642-656 | a refresh does not see the physical row order |
| EvidenceCurrent.RefreshOnlyMovesForward | data-model/migrations/versions/0001_create_canonical_data_model.py:633-669 | after appends a refresh drops no natural key and moves none to an earlier observation |
| ViewRuns.RunsShowOneView | data-model/migrations/versions/0001_create_canonical_data_model.py:639-661 | two drained runs, with any faults, orders, duplicates, ids and clocks, show one view, ids and clocks aside, if their logs carry the same events, equal keys carry equal content and the latest events of each natural key show the same |
| ViewRuns.ViewReproducibleIffOneLatest | data-model/migrations/versions/0001_create_canonical_data_model.py:627-661 | over every order, duplication, fault, id and clock all drained runs show one view iff for every natural key the events of the latest observation time show the same |
| ViewRuns.TiedObservationsDiffer | data-model/migrations/versions/0001_create_canonical_data_model.py:627-632 | two observations of one key at one instant on which runs show different views |
| Decimal.ParseIntText | event-bus-sdk/typescript/src/idempotency.ts:109-111 | reading a bigint's digits undoes printing them, before any non-digit |
| Doubles.NoDoubleIsNearer | event-bus-sdk/typescript/src/idempotency.ts:192-195 | rounding an integer gives a double to which none is nearer |
| WireFormats.TieIsEven | event-bus-sdk/typescript/src/idempotency.ts:192-195 | of two doubles equally near, rounding takes the one that is a multiple of twice their distance |
| Doubles.ShortestReadsBack | event-bus-sdk/typescript/src/idempotency.ts:192-195 | the digits an integral number prints read back as it |
| Doubles.ShortestInjective | event-bus-sdk/typescript/src/idempotency.ts:192-195 | numbers that print the same digits are equal |
| Doubles.ShortestFromIsShortest | event-bus-sdk/typescript/src/idempotency.ts:192-195 | no decimal that reads back as the number ends in more zeros than the printed one |
| Doubles.ShortestFromIsNearest | event-bus-sdk/typescript/src/idempotency.ts:192-195 | of the decimals with as many zeros that read back as the number none is nearer to it than the printed one, which has an even last digit if another is as near |
| Doubles.SafeIntegers | event-bus-sdk/typescript/src/idempotency.ts:192-195 | every safe integer is a double and prints as itself |
| Doubles.TwoToThe60 | event-bus-sdk/typescript/src/idempotency.ts:192-195 | 2^60 prints as 1152921504606847000 |
| CanonicalJson.EncodeString | event-bus-sdk/typescript/src/idempotency.ts:136-175 | the loop builds the quoted, escaped form of the whole string |
| WireFormats.EscapesAre | event-bus-sdk/typescript/src/idempotency.ts:127-171 | seven short escapes, every other printable ASCII character as itself, and the rest as four lower-case hexadecimal digits of the code unit |
| WireFormats.WordsAre | event-bus-sdk/typescript/src/idempotency.ts:94-124 | the words null, true and false, and the punctuation of arrays |
| CanonicalJson.EncodePrintsCanon | event-bus-sdk/typescript/src/idempotency.ts:95-196 | encoding throws iff a non-finite or fractional number is inside, and otherwise prints the canonical tree |
| CanonicalJson.DecodePrint | event-bus-sdk/typescript/src/idempotency.ts:91-134 | decoding undoes printing for every tree: nested arrays, objects, escapes and integers |
| CanonicalJson.CanonIffSameData | event-bus-sdk/typescript/src/idempotency.ts:34-49 | canonical trees are equal iff the values are the same data |
| CanonicalJson.CanonicalTextIdentifiesData | event-bus-sdk/typescript/src/idempotency.ts:86-134 | two encodable values have one text iff they are equal up to key order, undefined as null, -0 as 0, and a bigint as the number whose shortest decimal it is |
| CanonicalJson.NumberSharesBigIntText | event-bus-sdk/typescript/src/idempotency.ts:109-115 | a number and a bigint share a text iff the bigint is the number's shortest decimal; safe integers do with their equals |
| CanonicalJson.TwoToThe60HasTwoTexts | event-bus-sdk/typescript/src/idempotency.ts:109-115 | the number 2^60 and the bigint 2^60 print differently |
| CanonicalParity.PyTextPrintsTree | event-bus-sdk/trustlist_event_bus/idempotency.py:37-49 | the Python text over code points prints a tree over code units, surrogate pairs included |
| CanonicalParity.Utf16RoundTrip | event-bus-sdk/typescript/src/idempotency.ts:128-134 | encoding a string to UTF-16 and decoding it is lossless iff it has no split surrogate pair |
| CanonicalParity.KeyOrders | event-bus-sdk/typescript/src/idempotency.ts:36-40 | code-point and code-unit order agree on two keys, lone surrogates included, iff they do not clash |
| CanonicalParity.WellFormedClash | event-bus-sdk/typescript/src/idempotency.ts:36-40 | keys without surrogates clash iff at the first difference one has a supplementary character and the other one in U+E000 to U+FFFF |
| CanonicalParity.ParityIffAgrees | event-bus-sdk/typescript/src/idempotency.ts:20-49 | for every document whose parsed integers are below 1e21, the SDKs give one text iff no dictionary has clashing keys and every parsed integer is the shortest decimal of its number |
| CanonicalParity.ParityIffClashFree | event-bus-sdk/typescript/src/idempotency.ts:20-49 | for every document, unsafe integers passed as bigints, the SDKs give one text iff no dictionary in it has clashing keys |
| CanonicalParity.BmpKeysAreClashFree | event-bus-sdk/typescript/src/idempotency.ts:36-40 | keys within the basic multilingual plane never clash |
| CanonicalParity.ParityCounterexample | event-bus-sdk/typescript/src/idempotency.ts:36-40 | the keys U+E000 and U+10000 make the two texts differ |
| CanonicalParity.SurrogateKeysDiffer | event-bus-sdk/typescript/src/idempotency.ts:36-40 | U+DC00 against U+10000, and the two surrogates of U+10000 against it, make the two texts differ; the last two are one JavaScript key |
| CanonicalParity.ParsedIntegerCounterexample | event-bus-sdk/typescript/src/envelope.ts:245-250 | 2^60 read by JSON.parse makes the two texts differ |
| IdempotencyKey.DeriveIdempotencyKey | event-bus-sdk/typescript/src/idempotency.ts:241-269 | the loop selects the fields of the specified document, with the two refusals in order |
| HashedText.DerivesHashOf | event-bus-sdk/typescript/src/idempotency.ts:241-269 | every derived key is the hash of the literal text around the quoted event type and the canonical text of the selected fields |
| HashedText.PyDerivesHashOf | event-bus-sdk/trustlist_event_bus/idempotency.py:52-92 | the same of the Python SDK |
| HashedText.RefusesIff | event-bus-sdk/typescript/src/idempotency.ts:241-264 | refuses iff there are no fields, or some are absent (naming exactly those), or a named value has no canonical text |
| HashedText.SampleText | event-bus-sdk/typescript/src/idempotency.ts:241-269 | one whole hashed text, with sorted fields and an escaped character |
| IdempotencyKey.SelectFacts | event-bus-sdk/typescript/src/idempotency.ts:260-263 | the selection has exactly the named fields, each once, with the payload's values |
| IdempotencyKey.TextIdentifiesTheEvent | event-bus-sdk/typescript/src/idempotency.ts:224-239 | two derivations hash one text iff event type, set of field names and data under each agree, whatever the order or repetition of names |
| IdempotencyKey.KeysIdentifyEvents | event-bus-sdk/typescript/src/idempotency.ts:224-269 | unless the hash collides on the two documents, keys are equal iff the logical events are |
| IdempotencyKey.BothRefuseAlike | event-bus-sdk/trustlist_event_bus/idempotency.py:52-92 | for every payload and field list both SDKs refuse alike, with the same field names, and otherwise each hashes its own text, iff no absent field has the code units of a payload key |
| IdempotencyKey.HiddenFieldIsFound | event-bus-sdk/typescript/src/idempotency.ts:251-253 | a payload keyed by two surrogates lacks U+10000 in Python and has it in TypeScript |
| IdempotencyKey.DerivationParity | event-bus-sdk/typescript/src/idempotency.ts:18-49 | where neither refuses and no two payload keys have the same code units, the two SDKs hash one text for an event iff its document agrees |
| IdempotencyKey.DerivedKeysAgree | event-bus-sdk/trustlist_event_bus/idempotency.py:37-92 | with payload keys of different code units, and unless the hash collides on the two texts, the SDKs derive one key iff the document agrees |
| Base64.DecodeEncode | auth/trustlist_auth/tokens.py:73-81 | decoding undoes unpadded encoding for all byte strings |
| Base64.EncodeDecode | auth/trustlist_auth/tokens.py:78-81 | of the texts the decoder reads, exactly the URL-safe ones with clear unused bits are somebody's encoding |
| Base64.EncodeAlphabet | auth/trustlist_auth/tokens.py:73-75 | an encoding is ASCII text of the alphabet without dots |
| WireFormats.EncodesNumbers | auth/trustlist_auth/tokens.py:73-75 | the text is digits of the URL-safe alphabet, as many as the bits need; each three bytes and their four digits are one number |
| Tokens.ThreeSegments | auth/trustlist_auth/tokens.py:152-155 | a token splits into three given segments iff it joins them with two dots and none has a dot |
| Tokens.PrintIsAscii | auth/trustlist_auth/tokens.py:121-125 | canonical JSON is ASCII, so encoding a payload never fails |
| Tokens.IssuedTokenSplits | auth/trustlist_auth/tokens.py:121-130 | an issued token is ASCII and splits into exactly its three segments |
| Tokens.Issue | auth/trustlist_auth/tokens.py:103-130 | issues iff now + ttl is a representable instant, and what it issues verifies to the claim until the whole second of now + ttl, then expires |
| Tokens.TokenRoundTrip | auth/trustlist_auth/tokens.py:118-179 | verifying an issued token gives its claim up to the whole second of expiry and TokenExpired after it |
| Tokens.ClaimSurvives | auth/trustlist_auth/tokens.py:121-125 | the claim read back is the claim issued iff no string in it has a split surrogate pair |
| Tokens.TokenLifetime | auth/trustlist_auth/tokens.py:118-126 | accepted until one second before now + ttl at the least; never after it iff that instant is not before the epoch or is a whole second |
| Tokens.SignedPortionBindsClaim | auth/trustlist_auth/tokens.py:53-70 | two tokens sign one portion iff they carry the same user, address and expiry second |
| Tokens.OnlySignedTokensPass | auth/trustlist_auth/tokens.py:152-179 | what is accepted or found expired is a signed portion with its own signature, judged by the claim and expiry in it |
| TokenSignatures.SignatureCoversBothSegments | auth/trustlist_auth/tokens.py:157-179 | over the bytes of both segments: another third segment than their encoded HMAC is TokenInvalid, and with it the verdict is that of the two segments |
| TokenSignatures.PassesWithItsMac | auth/trustlist_auth/tokens.py:152-179 | what is accepted or found expired carries the HMAC of its first two segments |
| TokenSignatures.IssuedTokenText | auth/trustlist_auth/tokens.py:121-130 | an issued token is its two segments and the encoded HMAC of them |
| TokenSignatures.MovedSignatureFails | auth/trustlist_auth/tokens.py:157-184 | an issued signature over another payload, another expiry or by another signer is TokenInvalid unless the two HMACs are equal |
| TokenSignatures.SegmentTexts | auth/trustlist_auth/tokens.py:118-126 | the segments decode to the literal claim object and to the digits of the whole second |
| TokenSignatures.RepresentableYears | auth/trustlist_auth/tokens.py:118-120 | the instants that can be issued are those of the years 1 to 9999 |
| Tokens.AlteredSignatureFails | auth/trustlist_auth/tokens.py:157-159 | any other text over an issued token's signed portion is refused |
| Tokens.UndocumentedErrorIffNotAscii | auth/trustlist_auth/tokens.py:157-159 | an error outside the documented two escapes iff there are three segments and a character outside ASCII |
| Tokens.NonAsciiTokenRaises | auth/trustlist_auth/tokens.py:157-159 | one non-ASCII character and two dots raise an undocumented error |
| Tokens.PreEpochTokenOutlivesItsExpiry | auth/trustlist_auth/tokens.py:119-126 | a token expiring half a second before the epoch is accepted at the epoch |
| Tokens.SplitPairIsJoined | auth/trustlist_auth/tokens.py:121-125 | a user id of two surrogates comes back as one character |
| Rbac.NewCatalogue | auth/trustlist_auth/rbac.py:143-155 | construction succeeds iff every role is keyed by its identifier and pinned to the archetype |
| Rbac.ResolvePermissions | auth/trustlist_auth/rbac.py:181-195 | unknown identifier anywhere raises; otherwise the union over unflagged roles, in whatever order the set is visited |
| RoleStore.CheckCustomerScope | auth/trustlist_auth/role_store.py:234-251 | a scope error iff a brand-customer grant has no customer or another grant has one |
| RoleStore.GrantRole | auth/trustlist_auth/role_store.py:85-138 | unknown role, scope error, unreadable id or constraint failure, or one appended live row, in that order |
| RoleStore.RevokeRole | auth/trustlist_auth/role_store.py:140-172 | stamps the live row with that primary key, however the user id is spelled, and reports whether it was exactly one |
| RoleStore.AtMostOneHit | auth/trustlist_auth/role_store.py:149-157 | the primary key lets a revocation hit one row at most, and it hits one iff a live grant matches |
| RoleStore.LiveRoleIdentifiers | auth/trustlist_auth/role_store.py:174-232 | the specified live roles, or a database error |
| RoleStore.LiveRolesAreRows | auth/trustlist_auth/role_store.py:219-232 | the identifiers read are exactly the roles of the user's live rows in scope |
| RoleStore.PermissionMeansAGrant | auth/trustlist_auth/service.py:414-445 | for the user's own archetype, however the id is spelled, no UnknownRole, and true iff a live, in-scope, unflagged grant confers the permission |
| RoleStore.UnknownRoleIffForeignName | auth/trustlist_auth/rbac.py:197-206 | for any archetype UnknownRole is raised iff the user holds, in scope, a role its catalogue does not name |
| RoleLaws.GrantsIff | auth/trustlist_auth/role_store.py:85-138 | unknown role, then scope error, then database error; granted iff none applies: ids read, the user of that archetype, the granter known, no grant at that instant; returned as spelled |
| RoleLaws.GrantAddsARow | auth/trustlist_auth/role_store.py:107-138 | one live row with the ids its texts spell and nothing else; its user holds the role, everywhere and under its customer |
| RoleLaws.RevokesIff | auth/trustlist_auth/role_store.py:140-172 | true iff a live grant has that user, role and instant; that row alone is stamped, and with the moment alone |
| RoleLaws.RevokedRoleIsLost | auth/trustlist_auth/role_store.py:140-197 | afterwards the user holds the role iff another live grant in scope gives it, and every other role as before |
| RoleLaws.ChecksIff | auth/trustlist_auth/service.py:414-445 | an unknown permission raises before anything is read; a database error iff the transaction is aborted or an id unreadable |
| RoleLaws.GrantIsUsable | auth/trustlist_auth/service.py:414-445 | after a grant the user has each permission of the unflagged role, under every spelling of the id |
| RoleStore.GrantElsewhereChangesNoAnswer | auth/trustlist_auth/role_store.py:183-197 | a grant under another customer or to another user changes no answer |
| RoleStore.RevokeElsewhereChangesNoAnswer | auth/trustlist_auth/role_store.py:183-197 | a revocation that hits no grant of this user under this customer changes no answer |
| RoleStore.Connection.Commit | auth/trustlist_auth/service.py:34-40 | keeps the transaction's rows, or discards them if a statement failed |
| RoleStore.Connection.Rollback | auth/trustlist_auth/service.py:34-40 | discards the transaction's rows |
| IdentityProvider.InMemoryIdentityProvider.Register | auth/trustlist_auth/fake_provider.py:147-163 | refuses a taken archetype and folded email, else adds the account and its index entry |
| IdentityProvider.InMemoryIdentityProvider.FindUserByEmail | auth/trustlist_auth/fake_provider.py:169-176 | the indexed account's view |
| IdentityProvider.InMemoryIdentityProvider.Authenticate | auth/trustlist_auth/fake_provider.py:180-204 | one error for unknown email and wrong password, then disabled, then success with the hash upgraded if stale |
| IdentityProvider.InMemoryIdentityProvider.MarkEmailVerified | auth/trustlist_auth/fake_provider.py:206-210 | sets the flag and nothing else |
| IdentityProvider.InMemoryIdentityProvider.ChangePassword | auth/trustlist_auth/fake_provider.py:212-215 | replaces the hash and nothing else |
| IdentityProvider.InMemoryIdentityProvider.IssueSession | auth/trustlist_auth/fake_provider.py:219-236 | a live session of an enabled account, expiring after the ttl |
| IdentityProvider.InMemoryIdentityProvider.GetSession | auth/trustlist_auth/fake_provider.py:238-247 | answers iff the session exists, is not revoked and has not expired |
| IdentityProvider.InMemoryIdentityProvider.RevokeSession | auth/trustlist_auth/fake_provider.py:249-253 | revokes that session if it exists |
| IdentityProvider.InMemoryIdentityProvider.RevokeAllSessions | auth/trustlist_auth/fake_provider.py:255-259 | revokes exactly the user's sessions |
| IdentityProvider.InMemoryIdentityProvider.EnrolTotp | auth/trustlist_auth/fake_provider.py:263-274 | sets an unconfirmed secret unless one is confirmed |
| IdentityProvider.InMemoryIdentityProvider.VerifyTotp | auth/trustlist_auth/fake_provider.py:276-288 | confirms on the first good code |
| IdentityProvider.InMemoryIdentityProvider.DisableAccount | auth/trustlist_auth/fake_provider.py:292-296 | disables the account and revokes all its sessions |
| IdentityProvider.CallKeepsInv | auth/trustlist_auth/fake_provider.py:131-296 | every call keeps the index exact, confirmed secrets set and disabled accounts without live sessions, and undoes nothing settled |
| IdentityProvider.IndexIsLinearScan | auth/trustlist_auth/fake_provider.py:147-176 | the index gives the same hit and miss as a scan of the accounts, no two of which share archetype and folded email |
| IdentityProvider.AllSessionsEndedAreDead | auth/trustlist_auth/fake_provider.py:238-259 | after revoking all of a user's sessions none of them answers, at any instant |
| IdentityProvider.RevokedStaysDead | auth/trustlist_auth/fake_provider.py:238-259 | a revoked session never answers again |
| ProviderLaws.AuthenticatesIff | auth/trustlist_auth/fake_provider.py:180-204 | succeeds iff some account of the archetype and folded email verifies the password and is not disabled, and shows that account; AccountDisabled iff its owner is disabled, AuthenticationFailed otherwise |
| ProviderLaws.RegisteredLogsIn | auth/trustlist_auth/fake_provider.py:147-163 | registers iff the address is nobody's; then exactly the passwords its hash verifies log in |
| ProviderLaws.NewPasswordLogsIn | auth/trustlist_auth/fake_provider.py:212-215 | afterwards exactly the passwords of the new hash log in; other accounts and all sessions are as before |
| ProviderLaws.VerifiedShows | auth/trustlist_auth/fake_provider.py:206-210 | the flag shows in the account's view and nowhere else |
| ProviderLaws.IssuedSessionAnswers | auth/trustlist_auth/fake_provider.py:219-247 | issued iff the account exists and is enabled; it answers, as what it is, exactly until its lifetime is over; others are as before |
| ProviderLaws.EndedSessionIsRevoked | auth/trustlist_auth/fake_provider.py:249-253 | the named session answers SessionRevoked, every other as before |
| ProviderLaws.AllEndedAreRevoked | auth/trustlist_auth/fake_provider.py:255-259 | exactly the user's sessions answer SessionRevoked |
| ProviderLaws.DisabledIsShutOut | auth/trustlist_auth/fake_provider.py:292-296 | the right password gives AccountDisabled, no session answers, none is issued; everyone else is as before |
| ProviderLaws.CodeAcceptedIff | auth/trustlist_auth/fake_provider.py:276-288 | true iff the stored secret accepts the code, which confirms the enrolment; anything else changes nothing |
| ProviderLaws.EnrolledSecretDecides | auth/trustlist_auth/fake_provider.py:263-288 | refused iff confirmed; otherwise the returned secret decides the codes from then on |
| AuditTrail.Trail.Record | auth/trustlist_auth/audit.py:206-278 | refuses credential keys, else inserts the row with its uuid in the caller's transaction and mirrors the event iff it was inserted |
| ServiceLaws.GuardIff | auth/trustlist_auth/audit.py:123-242 | the guard refuses exactly the details with a key that spells one of the nine words in any mixture of upper and lower case |
| ServiceLaws.RecordsIff | auth/trustlist_auth/audit.py:206-278 | refused for credentials untouched, refused by the database with the transaction aborted, or one row with the event's own columns, mirrored |
| AuthService.Service.Authenticate | auth/trustlist_auth/service.py:118-165 | provider first, then the success or failure row |
| AuthService.Service.ChangePassword | auth/trustlist_auth/service.py:167-190 | new hash, all sessions revoked, then the row |
| AuthService.Service.RevokeSession | auth/trustlist_auth/service.py:221-237 | session revoked, then the row |
| AuthService.Service.EnrolTotp | auth/trustlist_auth/service.py:241-258 | enrolment begun, then the row |
| AuthService.Service.VerifyTotp | auth/trustlist_auth/service.py:260-287 | code checked, then the success or failure row |
| AuthService.Service.DisableAccount | auth/trustlist_auth/service.py:310-324 | account disabled, then the row |
| AuthService.Service.AssignRole | auth/trustlist_auth/service.py:328-367 | grant inserted, then the row |
| AuthService.Service.RevokeRole | auth/trustlist_auth/service.py:369-396 | grant stamped, and only then sessions revoked and the row written |
| AuthService.Service.HasPermission | auth/trustlist_auth/service.py:414-445 | unknown permission, database error or the catalogue's answer for the live roles |
| ServiceLaws.LogInRecordsSuccess | auth/trustlist_auth/service.py:118-165 | the right password of an enabled account: its view, its login_success row, the rehash; a database error if the row is refused |
| ServiceLaws.LogInRecordsFailure | auth/trustlist_auth/service.py:140-155 | anything else: a login_failure row of the address and of no user, and the error named |
| ServiceLaws.ReachableLogIn | auth/trustlist_auth/service.py:118-165 | after every run whoever opens an enabled account gets in if the row can be written, and nobody else does |
| ServiceLaws.PasswordChangeRecords | auth/trustlist_auth/service.py:167-190 | whatever becomes of the row, exactly the new passwords log in and all the user's sessions are over |
| ServiceLaws.LogOutRecords | auth/trustlist_auth/service.py:221-237 | ends the one session and records session_revoke with its id |
| ServiceLaws.DisableRecords | auth/trustlist_auth/service.py:310-324 | whatever becomes of the row, the account is shut out and its sessions are over |
| ServiceLaws.EnrolmentRecords | auth/trustlist_auth/service.py:241-258 | the secret, which decides the codes from then on, and a row that does not hold it |
| ServiceLaws.CodeRecords | auth/trustlist_auth/service.py:260-287 | whether the stored secret accepts the code, and a success or failure row accordingly |
| ServiceLaws.GrantRecords | auth/trustlist_auth/service.py:328-367 | a grant that is made is recorded with all it was asked for, a refused one is not; sessions stay |
| ServiceLaws.RevocationRecords | auth/trustlist_auth/service.py:369-396 | a hit ends the sessions named by the caller's own text and is recorded; no hit does neither |
| AuthSafety.StepKeepsInv | auth/trustlist_auth/service.py:34-40 | every step keeps the provider and table invariants, the truth of every mirrored event and the mirror relation |
| AuthSafety.EventStaysTrue | auth/trustlist_auth/service.py:37-40 | what a row says was done stays done |
| AuthRuns.EventSafety | auth/trustlist_auth/service.py:385-395 | after every run, for each mirrored password change, disable or role revocation by the provider's own text, no session issued to the user before it ever answers |
| AuthRuns.SessionSafety | auth/trustlist_auth/service.py:182-190 | the same for every committed row of that user: unconditional for password changes and disables, for role revocations if their events name the provider's own text |
| AuthRuns.RevokeEndsSessionIff | auth/trustlist_auth/service.py:385-395 | a role revocation ends a live session of its user iff the caller spelled the id as the provider does |
| AuthRuns.RevokeByOtherSpelling | auth/trustlist_auth/fake_provider.py:255-259 | in any reachable state, revoking a live grant by another spelling commits a role_revoke row and leaves the session answering |
| AuthRuns.OtherSpellingLeavesASession | auth/trustlist_auth/fake_provider.py:255-259 | a run from the empty system that ends so |
| AuthRuns.DisabledMeansNoSession | auth/trustlist_auth/fake_provider.py:292-296 | after every run a session that answers belongs to an account that is not disabled |
| AuthRuns.EndedSessionsNeverReturn | auth/trustlist_auth/service.py:385-395 | whatever becomes of the transaction, the sessions ended by an operation never answer again |
| AuthRuns.AuditConservation | auth/trustlist_auth/service.py:349-396 | after every run, for each user and role, committed role_grant rows minus role_revoke rows is the number of live grants |
| AuthRuns.MirrorAccounts | auth/trustlist_auth/audit.py:255-278 | committed rows are the rows of mirrored events, in order; the excess is exactly the discarded and pending rows; the two are equal iff there are none |
| AuthRuns.FailedLoginNeedsCommit | auth/trustlist_auth/service.py:140-155 | a failed login anywhere in a unit of work is mirrored at once if its row is inserted, and the row is kept iff the caller commits in the end and no statement of the unit of work failed |
| AuthRuns.ReachablePermission | auth/trustlist_auth/service.py:437-445 | the meaning of a permission check, in every reachable role table |
| AuthRuns.ReachableProvider | auth/trustlist_auth/fake_provider.py:147-288 | in every reachable state the index is a scan, and a confirmed TOTP secret is set and never changes again |

## Left out

- Kafka, the schema registry, SQLAlchemy, Alembic and OpenTelemetry: only the log, the offsets, the tables and the order of effects they stand for.
- Several partitions, rebalancing and overlapping writer transactions: the code gives no guarantee there (`provenance.method` has no unique constraint), so writer steps are serial and one consumer holds one partition.
- SHA-256, the HMAC, Argon2id and one-time passwords: arbitrary functions; nothing is claimed about collisions or forgery.
- Envelope serialisation and the parsing of payload fields: an event arrives decoded, with every field the writer reads; a missing field is not part of the model.
- The handler is the evidence writer; other handlers, and a deduplication store that survives restarts, are not part of the model.
- Columns the writer never sets (scores, contributor_id, contributor_identity of evidence), CHECK constraints on them, and the rendering of the stable part as text.
- Which texts the timestamp, JSON and text columns refuse: an event says whether its values are among them (`typed`); the uuid, the enum and the URL CHECK are modelled.
- Database collations and timestamp parsing: text is ordered by character code, instants are integers.
- DerivationParity: not for payloads with two keys of the same code units, of which one JavaScript object keeps a single property.
- DerivedKeysAgree: the same restriction.
- Floats, integers of 1e21 and more as JavaScript numbers, the `__proto__` key, and non-JSON inputs such as dates and functions.
- The TypeScript branch for a topic without a handler, and the connected and running flags: plumbing around `processMessage`.
- The double that `datetime.timestamp()` returns: after the year 2242 its rounding can move an instant by up to a microsecond across a whole second; the model keeps instants exact.
- Lone surrogates in a token string, which no segment can contain.
- Audit detail keys outside ASCII: Python's lower-casing makes none of them one of the nine words.
- Client address and user agent of audit events, and primary-key collisions of random UUIDs.
- A provider restart: the in-memory provider loses all its state, and with it every session.
- The contents of the three role catalogues and the append-only privileges: finite facts.
- Observability, producer back-pressure, configuration, topic administration and code generation.
