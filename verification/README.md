# Verification of the plugin SDK's core algorithms

This project models the parts of the Omniview plugin SDK whose correctness cannot be seen from one
function body, and proves what the SDK's comments, documentation and tests promise about them.
`dafny verify dfyconfig.toml` checks all of it.

## What is modelled

- **ConnectionCopy.dfy**: the memoised copier of configuration containers. Memory is a map from
  references (type, pointer, length) to containers; structs, arrays and interfaces are inline values. The
  copier is a class with the source's `seen` map. On every finite memory, cyclic or shared, the copy shows
  the same thing along every access path, shares exactly where the input shares, and reaches nothing the
  input could reach. Concrete types survive but for one case, stated below.
- **Settings.dfy, SettingsProtocol.dfy**, with **Splitting.dfy**: the settings provider, first as a class whose methods run to
  completion, then as any number of callers whose steps interleave under the cancellable gate and the
  read-write lock. Every schedule is serial in the order of the gate, loses no update, shows no reader half a commit, and keeps
  published values equal to persisted ones. **SettingsOutcomes.dfy** adds how callers end: what stands in
  nobody's way can succeed, and every error has its cause.
- **SettingNormalization.dfy**: the conversion of JSON and typed values to a setting's own shape.
- **Connections.dfy**: plugin manifests, resource patterns and grants. The syntactic containment test
  decides inclusion of infinite sets, and of unions of them.
- **ValueCodec.dfy**, with **Decimal.dfy** and **KeyOrder.dfy**: the value encoder and the bounded decoder
  with its sticky error, node budget and error precedence.
- **CatalogAdmission.dfy**: catalog observations in a context chain and the binary frame for them.
- **Base64.dfy, CatalogRevision.dfy**: catalog revision tokens bound to a client's epoch.
- **ConnectionMetadata.dfy**: the JSON size of metadata, computed without serialising it.
- **ActionCatalog.dfy**: the merge of action descriptors over registrations.
- **Wrappers.dfy**: the option and byte types they share.

Clocks, randomness, hashing, UTF-8 validity, float printing and rounding, and callbacks are parameters of
the members that depend on them. Go strings that are read byte by byte are sequences of bytes, or strings
with one byte in each character.

Where the code departs from its description, the model follows the code:

- The copier allocates a pointer's target as a plain pointer, so a non-nil pointer of a defined pointer type
  under an interface comes back with the plain type, although concrete types are said to be preserved; a
  typed slot converts it back (`ConnectionCopy.DefinedPointerLosesItsName`). Concrete types survive exactly
  when no interface on the way holds such a pointer (`ConnectionCopy.ConcreteTypesSurvive`).
- A setting without a default takes its held value as the schema. With a default normalisation is
  idempotent; without one, exactly an untyped setting is not, on untyped arrays and on numbers that are not
  finite (`SettingNormalization.NilDefaultIsIdempotentUnless`).
- An integer setting refuses JSON literals that denote an integer in range when their exponent does not fit
  64 bits, or exceeds a million in size after the fraction is counted and the digits are not all zero
  (`SettingNormalization.Readable`, `SettingNormalization.HugeExponentIsRefused`).
- The size computed for a metadata patch is that of empty containers where the patch has nil ones, whose
  JSON is `null`; it equals the length of the text exactly when neither container is nil
  (`ConnectionMetadata.ValidateUpdate`, `ConnectionMetadata.NilTexts`).
- The base64 decoder skips line breaks even in strict mode; the tokens have one spelling only because they
  are compared with their re-encoding (`Base64.LineBreaksAreInvisible`, `Base64.CanonicalIsEncoding`).

## Model

| member | source | states |
|---|---|---|
| ConnectionCopy.MetadataCopy.Remember | pkg/resource/v2/connection_copy.go:71-82 | One copy for each (type, pointer, length), of the key's type without a pointer type's name; the memo entry exists before the container is filled, and a fresh container is nobody else's. |
| ConnectionCopy.MetadataCopy.CopyValue | pkg/resource/v2/connection_copy.go:87-123 | On every finite memory the copier terminates; the result is the value with each reference redirected through the memo, pointers returned or held by interfaces as plain ones and converted in typed slots; earlier copies stay valid, nothing that existed is changed. |
| ConnectionCopy.MetadataCopy.ArrayValue | pkg/resource/v2/connection_copy.go:100-103 | An array is copied slot by slot, whatever it holds. |
| ConnectionCopy.MetadataCopy.PointerValue | pkg/resource/v2/connection_copy.go:104-112 | A pointer's target is copied once, also when it leads back to the pointer; the copy is a plain pointer to it. |
| ConnectionCopy.MetadataCopy.MapValue | pkg/resource/v2/connection_copy.go:125-137 | A map's copy is registered, then filled, then closed: after the call its contents are a copy of the source map's. |
| ConnectionCopy.MetadataCopy.CopyEntries | pkg/resource/v2/connection_copy.go:131-134 | In any iteration order every entry is copied under the very key of the source; keys are not copied. |
| ConnectionCopy.MetadataCopy.SliceValue | pkg/resource/v2/connection_copy.go:139-154 | Slices are memoised with their length; byte slices are copied wholesale, others element by element. |
| ConnectionCopy.MetadataCopy.CopyElements | pkg/resource/v2/connection_copy.go:156-160 | Filling a container under construction touches only that container. |
| ConnectionCopy.MetadataCopy.StructValue | pkg/resource/v2/connection_copy.go:162-173 | Exported fields are copied, unexported ones kept as they are. |
| ConnectionCopy.FollowLinked | pkg/resource/v2/connection_copy.go:84-86 | The same access path exists from a value and from its copy, and leads to a value and its copy, a returned one where the path ends in an interface. |
| ConnectionCopy.FinishedCopyIsIsomorphic | pkg/resource/v2/connection_copy.go:84-86 | Once the copier is done: the same view along every path but for the names of pointer types, two paths share a container in the copy exactly when they reach the same type, pointer and length in the input, nothing reached lies in the input's memory, and the input is unchanged. |
| ConnectionCopy.ConcreteTypesSurvive | pkg/resource/v2/connection_copy.go:84-123 | The copy shows the same concrete types along every path exactly when no interface on a path holds a non-nil pointer of a defined pointer type. |
| ConnectionCopy.DefinedPointerLosesItsName | pkg/resource/v2/connection_copy.go:104-112 | A map entry holding a pointer of type P, defined as *int, has dynamic type *int in every copy. |
| ConnectionCopy.CopyMetadata | pkg/resource/v2/connection_copy.go:54-60 | The type assertion panics exactly when the value copied is itself a non-nil pointer of a defined pointer type. |
| ConnectionCopy.CloneConnection | pkg/resource/v2/connection_copy.go:37-52 | The clone's Data, Labels, SensitiveData, Lifecycle and container Client have the original's form, share across these fields exactly as the original does, and are detached from it, always; they show its concrete types exactly when no interface holds a pointer of a defined pointer type. No assertion panics; an opaque Client stays the same handle. |
| ConnectionCopy.CloneThenUseClient | pkg/resource/v2/connection_copy.go:43-50 | A client that is an array, a non-nil map or a non-nil slice is handed out with its form, nothing of it in the caller's memory, sharing with the other fields as in the original; any other client is handed out as it is. |
| Splitting.SplitThenJoin | settings/provider.go:646 | Splitting an ID at dots loses nothing and leaves no dot in a piece. |
| Settings.PayloadKeyOfID | settings/provider.go:640-655 | The persisted key is the requested ID, prefixed with the plugin category in plugin mode. |
| Settings.IDsAreInjective | settings/provider.go:640-655 | Distinct requested IDs never share a persisted key, in either mode. |
| Settings.IDsAreAccepted | settings/provider.go:640-655 | Outside plugin mode an ID is accepted exactly when it is two nonempty dot-free parts around one dot; in plugin mode always. |
| Settings.SettingsAreFound | settings/provider.go:356-366 | A lookup returns the record the store holds under the parsed ID, or says that the ID is malformed or unknown, exactly then. |
| Settings.PublishSetsOneValue | settings/provider.go:445-449 | Overwriting a whole record read earlier changes one value only, as long as the store is the one it was read from apart from values published since. |
| Settings.RequestIsMet | settings/provider.go:427-434 | The prepared entries, in whatever order, publish for each requested ID its normalised value and persist exactly one key for it with that value. |
| Settings.EntriesAreRecorded | settings/provider.go:427-450 | No entry's value is overwritten by another's, in the store or in the payload. |
| Settings.PayloadSize | settings/provider.go:427-434 | The payload has as many keys as there are requested IDs. |
| Settings.RegisterKeepsValues | settings/provider.go:532-545 | Registering again keeps the value of a setting whose type has not changed. |
| Settings.LastDefinitionWins | settings/provider.go:532-545 | The last definition of an ID wins in all but the value; a new setting or one of another type takes its default, any other keeps the value held. |
| Settings.NewSettingTakesDefault | settings/provider.go:503-513 | A setting registered anew, or with another type, starts at its default. |
| Settings.RegistrationIsLocal | settings/provider.go:525-546 | Registering touches one category, which it creates if need be, and there only the IDs registered. |
| Settings.ResetTakesDefault | settings/provider.go:466-473 | The reset setting has its default and nothing else in the store changes. |
| Settings.ValuesAreSet | settings/provider.go:445-449 | Committing replaces the named values and changes nothing else in any record or category. |
| Settings.Provider.CommitSettings | settings/provider.go:387-452 | Succeeds only if both context checks pass, every ID is known, normalises and validates, and persist agrees; then the store is the old one with exactly the requested values replaced. Any error leaves the store unchanged and names an actual fault, cancellation or refusal. |
| Settings.Provider.Prepare | settings/provider.go:411-426 | Each requested ID gets exactly one entry holding its current record, or an ID that has none is reported. |
| Settings.Provider.Normalize | settings/provider.go:427-434 | All entries are normalised and validated and the payload collected, or some ID's own fault is reported. |
| Settings.Provider.PublishAll | settings/provider.go:443-450 | Record-by-record publication changes the requested values and nothing else, and reports the categories touched. |
| Settings.Provider.ResetSetting | settings/provider.go:456-474 | The named setting takes its default, all else stays; an unknown or malformed ID changes nothing. |
| Settings.Provider.RegisterSettings | settings/provider.go:517-547 | Definitions are replaced one after the other, later ones winning, and values of unchanged types are kept. |
| SettingsProtocol.StepOk | settings/provider.go:387-547 | Every step of every caller keeps the invariant: who holds which lock, what each caller knows about the store, what the store is, what has completed and what was persisted. |
| SettingsProtocol.ScheduleOk | settings/provider.go:211-236 | The invariant holds after every schedule of any number of callers. |
| SettingsProtocol.MutualExclusion | settings/provider.go:211-236 | At most one caller is inside the gate; only it writes, with no reader beside it; a finished caller, cancelled or not, holds nothing. |
| SettingsProtocol.StoreIsSerial | settings/provider.go:387-547 | When nobody is writing, the store is the initial one with the completed mutations applied one after another; exactly the successful callers are among them, each once, in the order in which they took the gate, each with what it asked for measured on the store before it. |
| SettingsProtocol.StepInGateOrder | settings/provider.go:213-236 | Every step keeps this: nobody takes the gate twice, its holder took it last, and mutations complete in its order. |
| SettingsProtocol.FailureChangesNothing | settings/provider.go:387-442 | A caller that got an error has no completed mutation and no accepted payload. |
| SettingsProtocol.CommitPublishesOverWhatItRead | settings/provider.go:401-452 | The store a commit publishes over is the store it prepared from, although no store lock was held in between. |
| SettingsProtocol.ReadersSeeNoHalfCommit | settings/provider.go:321-376 | All a reader sees under one read lock is one store, made by completed mutations only. |
| SettingsProtocol.OffererGoesOn | settings/provider.go:435-452 | A caller whose payload was accepted is publishing it or has succeeded, whether or not it was cancelled meanwhile. |
| SettingsProtocol.OneKeyPerID | settings/provider.go:100-104 | Every accepted payload has exactly one key for each requested ID and no other. |
| SettingsProtocol.OfferMatchesChange | settings/provider.go:427-450 | A setting changes exactly when its key was in the payload, to the value in the payload. |
| SettingsProtocol.PublishedIsPersisted | settings/provider.go:402-452 | When the gate is free, a setting whose value only commits with a persist callback have changed has the value last accepted by persist, or its initial value. |
| SettingsProtocol.HarmlessSteps | settings/provider.go:456-547 | Commits of other IDs, resets of other settings and re-registrations without a type change keep a setting's value. |
| SettingsOutcomes.CommitCanSucceed | settings/provider.go:387-452 | After any schedule that leaves nobody inside, a waiting commit whose IDs are known and whose values have their settings' types can run to success unless it is cancelled, a validator refuses or persist fails; then what it asked for is published, logged and, if durable, persisted. |
| SettingsOutcomes.ResetRuns | settings/provider.go:456-479 | From there a reset succeeds when its setting exists and otherwise fails with the lookup's error, leaving the store alone. |
| SettingsOutcomes.RegistrationRuns | settings/provider.go:517-547 | From there a registration succeeds. |
| SettingsOutcomes.ReaderIsNotHeldUp | settings/provider.go:401-450 | Unless somebody is publishing, a reader gets its look at the store, validators and persistence running or not. |
| SettingsOutcomes.FailureHasCause | settings/provider.go:387-442 | Every error arises in a state that explains it: a cancelled context, a durable request whose persist refused, a refusing validator, or an ID or value at fault on the store of the mutations completed by then. |
| SettingsOutcomes.CancelledByCancel | settings/provider.go:218-233 | A context is cancelled exactly by its caller's cancellation. |
| SettingsOutcomes.RefusalIsFinal | settings/provider.go:427-442 | A validator's refusal, a failed persist and a cancellation the commit looks at decide how it ends. |
| SettingsOutcomes.CancelledCommitFails | settings/provider.go:435-437 | A commit cancelled before its second look at the context completes nothing, persists nothing and, if it ends, ends in an error, whatever anybody does. |
| SettingsOutcomes.CancelledCommitLeaves | settings/provider.go:435-437 | Cancelled after validation it can leave with the cancellation error, the store, the log and the payloads unchanged. |
| SettingNormalization.ExactIntegerDenotes | settings/setting.go:382-386 | The rational read from a JSON literal is an integer exactly when the literal denotes that integer and its exponent is one that is read. |
| SettingNormalization.IntegerAcceptsExactly | settings/setting.go:309-401 | An integer setting accepts a numeric input exactly when the rational it denotes is an integer of the platform's range and, for a JSON literal, its exponent is one that is read, and returns that integer; int, narrow, unsigned, float and JSON paths agree. |
| SettingNormalization.HugeExponentIsRefused | settings/setting.go:382-385 | 0e99999999999999999999 denotes zero and is refused. |
| SettingNormalization.FloatAcceptsExactly | settings/setting.go:309-401 | A float setting accepts exactly the inputs that stand for a finite number and stores it: the number itself, a 64-bit integer rounded, a JSON literal parsed. |
| SettingNormalization.OthersAcceptTheirType | settings/setting.go:293-306 | Toggles accept exactly booleans and every other kind exactly strings, unchanged. |
| SettingNormalization.ElementsInOrder | settings/setting.go:246-256 | The elements converted are those of the slice, in its order. |
| SettingNormalization.ArrayIsElementwise | settings/setting.go:222-291 | An array is accepted exactly when each element is; the result is a slice of the element type, as long, holding each element's own normalisation. |
| SettingNormalization.NormalizationMeetsType | settings/setting.go:153-220 | Which setting takes scalars, slices or anything, and of which of the four types: the schema's, the declaration's or the first element's. |
| SettingNormalization.NormalizeElements | settings/setting.go:277-291 | Fills a typed slice with the normalised elements, and fails exactly when one of them cannot be normalised. |
| SettingNormalization.ArrayIsIdempotent | settings/setting.go:222-275 | An accepted array is returned unchanged when normalised again. |
| SettingNormalization.NormalizationIsIdempotent | settings/setting.go:153-202 | For a setting with a default, an accepted value is a fixed point, whatever the setting holds by then. |
| SettingNormalization.NilDefaultIsIdempotentUnless | settings/setting.go:153-171 | Without a default, an accepted value, once held, is a fixed point unless the setting was untyped and the value is an untyped array or has a number that is not finite. |
| SettingNormalization.NilDefaultIsNotIdempotent | settings/setting.go:156-159 | Without a default there is a value that is accepted and, once held, refused. |
| Connections.WildcardShape | pkg/config/connections.go:31-40 | A valid pattern with a star is a nonempty prefix, a slash and one final star. |
| Connections.ValidPatternIsPattern | pkg/config/connections.go:31-40 | The patterns admitted are exactly the nonempty literals and the nonempty literals followed by a slash and a star. |
| Connections.CoverageDecidesInclusion | pkg/config/connections.go:98-111 | The syntactic test on two valid patterns holds exactly when one denotes a subset of the other. |
| Connections.CoverageIsPartialOrder | pkg/config/connections.go:98-111 | Coverage is reflexive, transitive and antisymmetric on valid patterns. |
| Connections.CoverageDecidesUnion | pkg/config/connections.go:153-164 | The literals of a pattern lie in the union of several patterns exactly when one of them alone covers it. |
| Connections.EscapeIsCoveredWhole | pkg/config/connections.go:98-111 | A pattern denoting a long slash-free literal below a wildcard covers the whole wildcard. |
| Connections.ValidateConnectionLists | pkg/config/connections.go:42-68 | Accepts exactly nonempty lists of distinct known operations and distinct valid patterns, and reports the first offence in reading order. |
| Connections.Validate | pkg/config/connections.go:70-96 | Accepts exactly the valid manifests and reports the first offence of any other. |
| Connections.GrantConnections | pkg/config/connections.go:119-166 | Grants exactly when both manifests are valid and the owner offers every operation and every literal the consumer requires; the grant is the requirement; a refusal is an empty grant with its reason. |
| Connections.Allows | pkg/config/connections.go:168-186 | Permits exactly the operations and literals the grant denotes. |
| Connections.GrantThenAllow | pkg/config/connections.go:113-186 | An access is allowed exactly when the whole requirement is offered and the access lies in it; a partly covered requirement allows nothing. |
| ValueCodec.ToValue | pkg/resource/v2/adapters.go:20-59 | Encodes every value, its maps sorted by key. |
| ValueCodec.StampsAreYears | pkg/resource/v2/adapter_admission.go:181 | The timestamps in range are those of the years 1 to 9999, to the nanosecond. |
| ValueCodec.EncodingIsUnique | pkg/resource/v2/adapters.go:46-56 | A value has one encoding, so map iteration order cannot be seen in it. |
| ValueCodec.AdapterDecoder.ValueAt | pkg/resource/v2/adapter_admission.go:111-186 | From any state without an error it accepts exactly the well-formed trees within the remaining depth and node budget and returns the value they denote; the error is the one the specification gives precedence; after an error nothing happens; allocated slots stay within the budgets also on rejection. |
| ValueCodec.AdapterDecoder.ListAt | pkg/resource/v2/adapter_admission.go:188-206 | The early capacity check never changes acceptance; past it the first failing element's error is reported. |
| ValueCodec.AdapterDecoder.MapAt | pkg/resource/v2/adapter_admission.go:208-232 | Past the capacity check, the first nil or repeated entry is the reported error whatever its siblings' values hold, and else the first failing value's; acceptance is exactly that of the specification. |
| ValueCodec.EncodingDenotes | pkg/resource/v2/adapters.go:20-59 | The encoding of a canonical value within the depth is accepted and denotes that value. |
| ValueCodec.DenotedIsCanonical | pkg/resource/v2/adapter_admission.go:111-232 | What an accepted tree denotes is canonical and no deeper than the tree. |
| ValueCodec.ReencodingKeepsNodes | pkg/resource/v2/adapters.go:20-59 | Re-encoding what an accepted tree denotes yields a tree with as many nodes. |
| ValueCodec.Decode | pkg/resource/v2/adapter_admission.go:101-232 | Accepts exactly the well-formed trees within both limits and rejects any other with the error of highest precedence; allocates one slot less than there are nodes on success, and at most (depth limit + 2) times the node limit on any input. |
| ValueCodec.RoundTrip | pkg/resource/v2/adapters.go:20-59 | Decoding the encoding of a canonical value within the limits returns it. |
| ValueCodec.DecodeAgain | pkg/resource/v2/adapter_admission.go:111-232 | Decoding, encoding and decoding again equals decoding, for every accepted tree. |
| Decimal.ParseFormat | pkg/resource/v2/adapters.go:29-34 | Parsing a formatted 64-bit integer returns it. |
| Decimal.ParsesNearest | pkg/resource/v2/adapters.go:29-31 | With its error ignored, parsing yields the nearest 64-bit number, or zero for what is no literal. |
| Decimal.CanonicalIsFormatted | pkg/resource/v2/validation.go:539-571 | The texts accepted as canonical integers are exactly the formatted 64-bit ones. |
| KeyOrder.SortedKeys | pkg/resource/v2/adapters.go:47-51 | Lists the keys of a map in ascending order, each once. |
| KeyOrder.LeIsLexicographic | pkg/resource/v2/adapters.go:51 | The order is the byte order of the keys: the first difference decides, a prefix comes first. |
| KeyOrder.SortedIsUnique | pkg/resource/v2/adapters.go:51 | A set of keys has one ascending listing. |
| CatalogAdmission.Append | internal/catalogadmission/context.go:41-48 | The new context shows one more observation, in fresh storage; every earlier and sibling context shows what it showed. |
| CatalogAdmission.Clear | internal/catalogadmission/context.go:56-59 | Inherited observations are masked. |
| CatalogAdmission.Qualified | internal/catalogadmission/context.go:61-74 | Absent, the sole revision, or present but empty, by how often the pair occurs. |
| CatalogAdmission.Replay | internal/catalogadmission/context.go:41-74 | After any branching history of appends, clears and other context values, the answer is the one the appends since the last clear call for. |
| CatalogAdmission.ViolationCodes | internal/catalogadmission/context.go:11-15 | Exactly the violations that are no exceeded limit call for a new observation. |
| CatalogAdmission.EncodedSize | internal/catalogadmission/context.go:84-121 | Succeeds exactly when the observations are admissible or there are none, with the exact frame length; otherwise reports the first violation in admission order. |
| CatalogAdmission.Marshal | internal/catalogadmission/frame.go:16-48 | Writes exactly the frame of the observations into fresh storage, within bounds, exactly when they are admissible. |
| CatalogAdmission.WriteFields | internal/catalogadmission/frame.go:36-45 | Advances through the buffer writing length and bytes of each field, keeping what was written. |
| CatalogAdmission.DecodeField | internal/catalogadmission/frame.go:99-111 | Reads one admissible field if the frame spells one at the offset, and only then. |
| CatalogAdmission.DecodeObservation | internal/catalogadmission/frame.go:96-113 | Reads three admissible fields if the frame spells them at the offset, and only then. |
| CatalogAdmission.DecodeEntries | internal/catalogadmission/frame.go:71-85 | Decodes the announced number of distinct entries if the frame spells them, and only then. |
| CatalogAdmission.Unmarshal | internal/catalogadmission/frame.go:50-90 | Accepts exactly the complete frames of admissible observations and delivers those, without inheriting earlier ones; the reported error is oversize, then too many, then malformed. |
| CatalogAdmission.Send | internal/catalogadmission/frame.go:16-90 | Marshalling and unmarshalling delivers the observations in order, exactly when they are admissible. |
| CatalogAdmission.Resend | internal/catalogadmission/frame.go:16-90 | Marshalling what an accepted frame delivered rebuilds the identical bytes. |
| CatalogAdmission.FrameIsInjective | internal/catalogadmission/frame.go:30-46 | No two admissible observation lists share a frame. |
| CatalogAdmission.RepeatedPairNeverMarshals | internal/catalogadmission/context.go:96-103 | Once a pair has been appended twice, no context reached by further appends marshals. |
| Base64.DecodeInvertsEncode | pkg/resource/v2/catalog_revision.go:86-87 | A text decodes to given bytes exactly when it is their encoding with line breaks put in. |
| Base64.SymbolsAreAlphabet | pkg/resource/v2/catalog_revision.go:86-87 | The symbols are the URL and filename safe alphabet of RFC 4648, section 5, in its order. |
| Base64.LineBreaksAreInvisible | pkg/resource/v2/catalog_revision.go:86 | The strict decoder does not see line breaks, wherever they stand. |
| Base64.CanonicalIsEncoding | pkg/resource/v2/catalog_revision.go:86-89 | Decoding, length check and comparison with the re-encoding accept exactly the encodings of 32 bytes. |
| Splitting.SplitInvertsJoin | pkg/resource/v2/catalog_revision.go:82 | Splitting finds the only dot-free pieces a text can be joined from. |
| CatalogRevision.PreimageIsInjective | pkg/resource/v2/catalog_revision.go:95-102 | What is hashed determines both the nonce and the native revision. |
| CatalogRevision.PreimageLayout | pkg/resource/v2/catalog_revision.go:95-102 | The preimage is the domain, the nonce, eight bytes spelling the revision's length most significant first, and the revision. |
| CatalogRevision.BoundCatalogRevision | pkg/resource/v2/catalog_revision.go:95-108 | Feeding the hash piece by piece hashes the framed preimage, and the token carries the nonce and that hash. |
| CatalogRevision.NewCatalogBindingEpoch | pkg/resource/v2/catalog_revision.go:61-71 | An issued epoch is one that binding accepts. |
| CatalogRevision.BindCatalogRevision | pkg/resource/v2/catalog_revision.go:73-93 | Accepts exactly the tagged encodings of 32 bytes together with a nonempty valid native revision; each refusal says which check failed first. |
| CatalogRevision.CatalogBindingEpoch | pkg/resource/v2/catalog_revision.go:110-128 | Answers the epoch of exactly the texts that have the form of a token. |
| CatalogRevision.BindThenEpoch | pkg/resource/v2/catalog_revision.go:73-128 | Every accepted binding answers its own epoch again, whatever the native revision. |
| CatalogRevision.TokensSeparateBindings | pkg/resource/v2/catalog_revision.go:95-112 | Two tokens are equal exactly when epoch and native revision are, or the hash collides on different inputs. |
| CatalogRevision.TokensAreRevisions | pkg/resource/v2/catalog_revision.go:35-41 | Epochs and tokens pass the revision check themselves. |
| ConnectionMetadata.QuotedJSONSize | pkg/resource/v2/value_json.go:757-779 | One pass over the bytes counts the length of the quoted and escaped text. |
| ConnectionMetadata.MetadataValueBudget.Visit | pkg/resource/v2/connection_metadata.go:344-471 | Accepts exactly the values whose JSON text exists within depth and budget and then has added its length; on any value, cyclic or not, it makes at most one visit more than the budget has bytes, interfaces not counted. |
| ConnectionMetadata.MetadataValueBudget.VisitMembers | pkg/resource/v2/connection_metadata.go:421-446 | Object members in any order add up to the length of their text in sorted order. |
| ConnectionMetadata.MetadataValueBudget.VisitElements | pkg/resource/v2/connection_metadata.go:454-467 | Array elements and commas add up to the length of the array's text. |
| ConnectionMetadata.MetadataValueBudget.FloatSize | pkg/resource/v2/connection_metadata.go:406-413 | The printed float without the leading zero of its negative exponent. |
| ConnectionMetadata.ErrorSize | pkg/resource/v2/connection_metadata.go:245-259 | The length of an admissible error's text. |
| ConnectionMetadata.TimeSize | pkg/resource/v2/connection_metadata.go:261-273 | The length of an admissible time's text. |
| ConnectionMetadata.EntrySize | pkg/resource/v2/connection_metadata.go:275-316 | Accepts exactly the admissible entries and returns the length of the JSON text their marshaller emits. |
| ConnectionMetadata.ObservationSize | pkg/resource/v2/connection_metadata.go:318-332 | The same for observations, although they are measured as entries of another state. |
| ConnectionMetadata.ValidateUpdate | pkg/resource/v2/connection_metadata.go:107-148 | Admits exactly the bounded, duplicate-free, non-overlapping patches; the size is that of the text exactly when neither container is nil. |
| ConnectionMetadata.NilTexts | pkg/resource/v2/connection_metadata.go:113 | Each nil container makes the text two bytes longer than what is measured. |
| ConnectionMetadata.SetSize | pkg/resource/v2/connection_metadata.go:114-126 | The set's members, in any order, are measured at the length of their text. |
| ConnectionMetadata.RemoveSize | pkg/resource/v2/connection_metadata.go:127-143 | Accepts exactly distinct valid keys that are not set, and measures their list. |
| ConnectionMetadata.IdentitySize | pkg/resource/v2/connection_metadata.go:162-199 | Accepts exactly the admissible identity fields and measures their text. |
| ConnectionMetadata.ValidateSnapshot | pkg/resource/v2/connection_metadata.go:161-226 | Admits exactly the snapshots whose text fits the limit, although it gives up on partial sums; the size is the text's length. |
| ActionCatalog.ConflictIsDisagreement | pkg/resource/v2/action_schema.go:133-142 | Comparing each declaration with the first one of its ID is comparing all with all. |
| ActionCatalog.ListedIsCatalogue | pkg/resource/v2/action_schema.go:120-122 | The listing names each agreed ID exactly once and no other. |
| ActionCatalog.WithoutConflictsIsListed | pkg/resource/v2/action_schema.go:144-149 | Dropping the conflicting IDs from the first declarations leaves the first declaration of each agreed ID, in order. |
| ActionCatalog.FilterInPlace | pkg/resource/v2/action_schema.go:144-149 | Compaction in the list's own storage computes the filtered list: no unread slot is overwritten. |
| ActionCatalog.MergeScopedActionDescriptors | pkg/resource/v2/action_schema.go:122-151 | Lists an ID exactly when all its declarations have one JSON text, in first-declaration order; nil exactly when every registration's list is nil; fails exactly when one of them is invalid. |

## Left out

- ConnectionCopy: overlapping slices of one array, one address seen through several map or slice types, spare slice capacity, zero-size allocations (which may share an address), NaN map keys and what unexported fields refer to are not modelled; the copier treats the first by key and the last as opaque, as the source does.
- `SameConnectionClientConfig` in pkg/resource/v2/connection_copy.go compares with reflection's deep equality, which is not part of this model.
- SettingsProtocol: change handlers run after the gate is released and are not modelled; registration and reset write the store in one step while holding the write lock; validators' own reads, callback panics, fairness and liveness are left out.
- Settings: merging plugin settings into a stored state at construction, nil as opposed to empty Settings maps, and the aliasing that CloneValue prevents are left out; labels, options and flags that no mutation inspects are one field.
- SettingNormalization: rounding of 64-bit integers to float64 and decimal parsing of floats are parameters; the exponents `big.Rat` reads are those Go's standard library implements; JSON texts that are valid but no number count as no number.
- Connections: strings are character sequences; error texts are represented by their kinds.
- ValueCodec: error texts, payload fields a value's kind does not use, and the clock's printing and parsing, which are assumed to be inverse on times in range; `Empty` encodes to an unset selection, as in the source.
- `protoAdmissionBudget`, field-by-field adapters and generated protobuf code would only add easy members.
- CatalogAdmission: Marshal's repeated width guards cannot fire after EncodedSize and are omitted; lengths are unbounded integers.
- CatalogRevision: checking a revision against a catalog is an equality test after the revision check and would only add an easy member; the collision resistance of the hash is not assumed.
- Base64: the decoder belongs to Go's standard library and is modelled by its documented behaviour, a strict unpadded decoder that skips line breaks.
- ConnectionMetadata: errors are one outcome, not classified; UTF-8 validity, exactness of JSON numbers, time validity and float printing are parameters; parsing metadata back from JSON is left out.
- ActionCatalog: descriptor validation and JSON encoding are given verdicts, the final clone keeps contents and nilness and is omitted.
- RPC, process, filesystem and telemetry plumbing, the controller's lease protocol, logging and settings test helpers are not part of this model.
