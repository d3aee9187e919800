# FRED server: verified models

FRED is a domain registry server. Most of its code drives a library that holds the registry; the parts modelled here are
those where the server itself decides something that spans several steps. Each component is modelled after its own
source, with the branches, the order of checks and the constants of the code, and calls into the registry library appear
as the effect they stand for.

| files | component |
|---|---|
| `MojeIdRequests`, `MojeIdContact`, `MojeIdInvariants`, `MojeIdEffects`, `RegistryContact`, `MojeIdWorld`, `MojeIdRuns`, `MojeIdOrigins`, `MojeIdAddress`, `MojeIdUpdater`, `MojeIdServer` | the life of a mojeID contact: state flags, public requests, two-phase commit, and what the rest of the registry does to it |
| `Subprocess`, `SubprocessTimeout` | running a command under a supervisor process, as a transition system of three processes |
| `CsvGrammar`, `CsvParser`, `CsvRoundTrip` | the CSV parser, an index machine on wrapping unsigned numbers |
| `XmlEscaping`, `XmlGenerator`, `XmlReader`, `XmlRoundTrip` | the XML generator, with a reader for the subset of XML it writes |
| `SqlLike`, `Decimals`, `CopyHandles`, `CopyRoom`, `AdminRegistry`, `AdminBlock`, `AdminUnblock`, `AdminBlocking`, `AdminEffects`, `AdminService` | administrative blocking of domains and their owners |
| `DiscloseQuery`, `DiscloseUpdater` | the disclose flags updater: its query and its concurrent workers |
| `DnsKeys`, `KeysetPrefix`, `KeysetManagement`, `KeysetConditions`, `KeysetListings`, `KeysetManager` | automatic keyset management after section 4 of RFC 8078 |
| `Utf8Prefix` | cutting UTF-8 text by characters, in the 1 to 6 octet form of section 2 of RFC 2279 |
| `Strings`, `Options` | shared vocabulary |

`dafny verify dfyconfig.toml` checks everything.

## How the components are modelled

- **mojeID.** A contact carries its states, the states requested for it, its public requests, the time of its last change,
  its organization, whether its address is disclosed, its sponsor and whether an identity is attached. What each operation
  does to its contact is a function in `MojeIdContact`; `MojeIdWorld` lets operations run one after another, each with a
  later clock. A prepared transaction holds the lock of its contact until its commit or rollback, so an operation on that
  contact waits, which is a step that does nothing. Comparisons of old and new contact data, data checks, passwords, letter
  limits and the look into the history of states are inputs, so every theorem holds for all their outcomes. Between them
  the rest of the registry takes its own steps (`RegistryContact`): registrars create, update, transfer and delete contacts
  through EPP, contact verification opens and answers its two request types and sets the states it is for, owners block
  and unblock their contacts, and the registry sets the states it keeps for itself. A step on a used transaction
  identifier writes the map before the database refuses it, as the code does. `MojeIdServer` holds the server object with
  the map it shares between calls; its methods are proved to take exactly the steps of `MojeIdWorld`.
- **Effects.** What an operation needs to succeed, what it leaves behind and what each of its errors stands for is stated a
  second time in `MojeIdEffects`, the second half of `RegistryContact`, `KeysetConditions` and `AdminEffects`, state by
  state and field by field and without mentioning the operation, which is proved to meet it; the classes carry these
  statements as their contracts.
- **Subprocess.** Every read, write, close, signal, exit and fork is an event, so a theorem about all sequences of events
  is one about all interleavings. Whether SIGCHLD is blocked before the fork is a
  parameter, so that the model can say what the block is good for. The command inherits the status pipe and keeps it open; it is taken not to write to this
  descriptor, which it does not know.
- **CSV.** `CsvGrammar` is the specification: a recursive parser of the same dialect. `CsvParser` is the code's machine.
- **XML.** `XmlReader` is an independent reader of elements, character data, CDATA sections and the predefined entities
  (sections 2.4, 2.7, 3.1 and 4.6 of XML 1.0).
- **Administrative blocking.** Blocking and restoring of an object are the library's effects: a blocked object has the
  given states and remembers its own. Names are compared by their bytes. Loops over sets take their elements in any order.
- **Disclose flags updater.** The WHERE clause is the sequence of its tokens, read with the precedence of SQL and evaluated
  in three-valued logic. Each worker writes in its own transaction; a schedule is any sequence of turns and failures.
- **Keysets.** Validity of keys, the random part of a handle and whether the library accepts the handle are inputs.

Where code and documentation disagree the model follows the code: `src/util/csv_parser.hh:44` says that empty lines are
ignored, but the parser keeps each as a row with one empty field (`EmptyLineIsRow`).

Promises the code does not keep everywhere are stated with the exact condition:

- Cancelling an account keeps the rule for hidden addresses exactly when it did not rest on the validation
  (`CancelKeepsAddressExactlyWhen`); `CancelLeavesUnverifiedHidden` is a run that breaks it.
- An EPP update keeps a contact consistent exactly when it does not take the conditional identification from a mojeID
  contact, and only a system registrar can do that (`EppUpdateKeepsExactlyWhen`, `SystemUpdateBreaksIdentification`).
- The two tests for managed keysets agree exactly on upper-case prefixes without wildcards
  (`TestsAgreeExactlyWhenPlain`).
- The next copy handle is above the highest one exactly when the tail of that one is not a number, is a number of five or
  more digits not all nine, or is one of fewer digits and all zeros (`NextAgainstLast`, `NextIsAboveAll`). In all other
  cases the generator is stuck after one more copy (`StuckBehind`): with FOO-ABC_7 registered (`ShortIndexIsStuck`), or
  after 100001 copies (`StuckAfterSixDigits`). This is for indices that can be counted up in 64 bits, which up to
  nineteen digits always can (`NineteenDigitsFit`); `WrappedFallsBehind` says what wrapping does to longer ones.
- A timeout is taken for none exactly when it ends at the origin of the clock, which for a clock and a timeout that are
  not negative means that both are zero (`LimitedFrom`, `ZeroAtOriginIsIgnored`).

## Model

| member | source | states |
|---|---|---|
| MojeIdRequests.CreateKeeps | src/backend/mojeid/mojeid_public_request.cc:231-468 | creating a request leaves at most one opened request per type, opens the new one, and touches only opened requests |
| MojeIdRequests.SetStatusKeeps | src/backend/mojeid/mojeid_public_request.cc:239-262 | closing an opened request and cancelling by the update table keep one opened request per type and touch only opened ones |
| MojeIdEffects.CreateOpens | src/backend/mojeid/mojeid_public_request.cc:231-480 | a new request invalidates exactly the opened requests of its own type and those it makes pointless, pair by pair, and touches no other |
| MojeIdEffects.AnswerCloses | src/backend/mojeid/mojeid_public_request.cc:239-420 | answering a request resolves it and invalidates exactly the opened requests it makes pointless |
| MojeIdInvariants.NewIsGood | src/backend/mojeid/mojeid.cc:978-1022 | a created contact satisfies the contact invariant |
| MojeIdInvariants.TransferOpensOne | src/backend/mojeid/mojeid.cc:1124-1159 | on every good contact the three branches are exhaustive: success opens exactly one request, of a type registration knows, and is remembered |
| MojeIdInvariants.TransferKeeps | src/backend/mojeid/mojeid.cc:1088-1163 | a prepared transfer keeps the contact invariant |
| MojeIdInvariants.UpdateKeeps | src/backend/mojeid/mojeid.cc:1299-1470 | an update keeps it once its state requests are performed, and is remembered if it leaves any |
| MojeIdInvariants.UpdateLeavesProtected | src/backend/mojeid/mojeid.cc:1334-1440 | whatever an update drops, mojeID, the conditional identification and the prohibitions stay (which states go: `MojeIdEffects.UpdateEffect`) |
| MojeIdInvariants.UpdateValidatedKeeps | src/backend/mojeid/mojeid.cc:1508-1572 | an update of validated data keeps it |
| MojeIdInvariants.UpdateTransferKeeps | src/backend/mojeid/mojeid.cc:1605-1795 | an update with transfer keeps it, in particular that a prevalidated transfer request finds a conditionally identified contact |
| MojeIdInvariants.RegistrationIdentifies | src/backend/mojeid/mojeid.cc:2052-2126 | whichever request type is answered, the contact ends up conditionally identified with consistent state flags |
| MojeIdInvariants.RegisterKeeps | src/backend/mojeid/mojeid.cc:2019-2191 | registration keeps the contact invariant, also when it only invalidates an outdated request |
| MojeIdInvariants.RegisterProtects | src/backend/mojeid/mojeid.cc:2052-2126 | a successful registration leaves a conditionally identified mojeID contact with all three prohibitions |
| MojeIdInvariants.IdentifyKeeps | src/backend/mojeid/mojeid.cc:2276-2365 | identification keeps it and reaches neither "missing state" nor "not protected" |
| MojeIdInvariants.RequestValidationKeeps | src/backend/mojeid/mojeid.cc:2635-2676 | asking for validation keeps it |
| MojeIdInvariants.ValidateKeeps | src/backend/mojeid/mojeid.cc:2724-2773 | validation keeps it |
| MojeIdInvariants.ValidateCloses | src/backend/mojeid/mojeid.cc:2745-2773 | a success leaves the contact validated and no validation request opened |
| MojeIdInvariants.CancelAccountKeeps | src/backend/mojeid/mojeid.cc:3027-3104 | cancelling an account keeps it and never reaches "bad mojeID contact" |
| MojeIdInvariants.CancelAccountDrops | src/backend/mojeid/mojeid.cc:3059-3091 | what is left requested are exactly the states mojeID did not set for itself |
| MojeIdInvariants.SendPin3Keeps | src/backend/mojeid/mojeid.cc:3132-3216 | a new PIN3 keeps it |
| MojeIdInvariants.SendPin3LeavesOne | src/backend/mojeid/mojeid.cc:3152-3216 | exactly one identification request of either kind is opened afterwards, a reidentification iff one was opened before |
| MojeIdInvariants.SetDiscloseFlagsKeeps | src/backend/domain_browser/domain_browser.cc:993-1023 | setting disclose flags keeps the contact invariant |
| MojeIdEffects.NewEffect | src/backend/mojeid/mojeid.cc:978-1022 | a new contact has no states and one request, which registers it exactly with its password and acceptable data |
| MojeIdEffects.TransferEffect | src/backend/mojeid/mojeid.cc:1088-1163 | succeeds iff no identity is attached, nothing blocks or prohibits and the data are acceptable; opens the request that fits how far the contact is verified; each error has its reason |
| MojeIdEffects.UpdateEffect | src/backend/mojeid/mojeid.cc:1299-1470 | succeeds iff stated; each state goes iff the data it vouches for changed, is remembered iff one goes, and reidentification is asked for iff the contact is or was identified |
| MojeIdEffects.UpdateValidatedEffect | src/backend/mojeid/mojeid.cc:1508-1572 | exactly the manual verification states go |
| MojeIdEffects.UpdateTransferEffect | src/backend/mojeid/mojeid.cc:1605-1795 | which states go by which data, which of the two requests is opened, and when the address is disclosed |
| MojeIdEffects.RegisterEffect | src/backend/mojeid/mojeid.cc:2019-2191 | succeeds iff no identity is attached, the request is opened, of one of the five types and not older than the contact, and password and data are ok; the states gained by request type; the request is resolved; an outdated one is invalidated |
| MojeIdEffects.IdentifyEffect | src/backend/mojeid/mojeid.cc:2276-2365 | succeeds iff the contact is an unidentified, unblocked mojeID contact with an opened request and the password is right; exactly that request is resolved and the address of a person hidden |
| MojeIdEffects.RequestValidationEffect | src/backend/mojeid/mojeid.cc:2635-2676 | succeeds iff mojeID, not validated, none opened and acceptable data; opens exactly one request |
| MojeIdEffects.ValidateEffect | src/backend/mojeid/mojeid.cc:2724-2773 | succeeds iff mojeID, not validated and acceptable data; sets exactly that state, hides the address of a person and closes validation requests |
| MojeIdEffects.CancelAccountEffect | src/backend/mojeid/mojeid.cc:3027-3104 | deletes an unlinked contact, and of a linked one drops exactly mojeID, validation and prohibitions |
| MojeIdEffects.SendPin3Effect | src/backend/mojeid/mojeid.cc:3132-3216 | succeeds iff mojeID, not identified and letters are left; which requests are invalidated and which is opened |
| MojeIdEffects.SetDiscloseFlagsEffect | src/backend/domain_browser/domain_browser.cc:993-1023 | only a verified, unblocked mojeID contact sets flags, and an organization cannot hide its address |
| RegistryContact.EppUpdateKeepsExactlyWhen | src/backend/epp/contact/update_contact.cc:243-252 | an EPP update keeps the contact invariant iff it does not drop the conditional identification of a mojeID contact, which a registrar without system rights never does |
| RegistryContact.EppUpdateEffect | src/backend/epp/contact/update_contact.cc:243-252 | succeeds iff not prohibited, data acceptable and a hidden address asked for only for a verified person whose data stay; exactly the two identification states go, if data differ |
| RegistryContact.SystemUpdateBreaksIdentification | src/backend/epp/contact/update_contact_post_hooks.cc:91-112 | after such an update by a system registrar an opened identification ends in the throw for a missing state |
| RegistryContact.UpdateOutdatesRequests | src/backend/epp/contact/update_contact_post_hooks.cc:54-113 | no request opened before an EPP update can register the contact any more |
| RegistryContact.MojeIdIsProtected | src/backend/epp/contact/update_contact.cc:245-252 | registrars without system rights can neither update, transfer nor delete a mojeID contact |
| RegistryContact.EppTransferKeeps | src/backend/epp/contact/transfer_contact.cc:94-118 | an EPP transfer keeps the contact invariant |
| RegistryContact.EppTransferAndDeleteEffect | src/backend/epp/contact/delete_contact.cc:94-108 | a transfer or deletion passes iff nothing prohibits it or a system registrar asks; a linked contact is never deleted |
| RegistryContact.StartVerificationKeeps | src/deprecated/libfred/contact_verification/contact_conditional_identification_impl.cc:57-72 | opening a verification request keeps it |
| RegistryContact.AnswerConditionalKeeps | src/backend/contact_verification/public_request_contact_verification_impl.cc:77-105 | the first answer of contact verification, which sets a state and opens the second request, keeps it |
| RegistryContact.AnswerConditionalEffect | src/deprecated/libfred/contact_verification/contact_conditional_identification_impl.cc:74-99 | the first answer succeeds iff its request is opened, the contact unverified and unchanged since, password and data ok; sets one state and opens the second request |
| RegistryContact.AnswerIdentificationKeeps | src/backend/contact_verification/contact_verification_impl.cc:387-476 | the second answer keeps it, also when it only invalidates a request whose contact lost the first state |
| RegistryContact.AnswerIdentificationEffect | src/deprecated/libfred/contact_verification/contact_identification_impl.cc:71-91 | the second answer succeeds iff its request is opened, the first state is there, the second is not, password and data ok |
| RegistryContact.ChangeLockKeeps | src/backend/public_request/process/block_unblock.cc:68-183 | blocking and unblocking on request keep it |
| RegistryContact.ChangeLockEffect | src/backend/public_request/process/block_unblock.cc:68-183 | which of the four requests passes in which state, and exactly what is prohibited afterwards |
| MojeIdRuns.CommitInstalls | src/backend/mojeid/mojeid.cc:2397-2424 | a commit puts the prepared contact in place with its state requests performed, touches no other contact and forgets the transaction |
| MojeIdRuns.StepKeeps | src/backend/mojeid/mojeid.cc:978-3216 | every operation, commit, rollback and step of the rest of the registry keeps the invariant of contacts, prepared transactions, locks and the transaction map |
| MojeIdRuns.RunKeeps | src/backend/mojeid/mojeid.cc:978-3216 | every run keeps it |
| MojeIdRuns.ReachableContacts | src/backend/mojeid/mojeid.cc:2062-2126 | in every reachable state, EPP updates, contact verification and blocking included, mojeID implies conditionally identified and all three prohibitions, identified implies conditionally identified, validated implies mojeID, a transfer request not older than the last change finds the contact conditionally identified, and each request type is opened at most once |
| MojeIdRuns.DefensiveThrowsUnreachable | src/backend/mojeid/mojeid.cc:2323-2340 | in no reachable state does any operation end in "missing state", "not protected" or "bad mojeID contact" |
| MojeIdRuns.TransferAlwaysOpensOne | src/backend/mojeid/mojeid.cc:1124-1159 | in every reachable state a successful transfer_contact_prepare opens exactly one request |
| MojeIdOrigins.StatesAreEarned | src/backend/mojeid/mojeid.cc:2019-2365 | over every run whoever is mojeID, conditionally identified, identified or validated got that from an operation that met its conditions: the password of a request that counted, or validation by mojeID |
| MojeIdOrigins.PreparingGivesNothing | src/backend/mojeid/mojeid.cc:1088-1795 | a first phase never gives a contact a state |
| MojeIdRuns.PrepareTakesHold | src/backend/mojeid/mojeid.cc:1019-1020 | a first phase under an unused identifier holds the contact with exactly what it will be and remembers it iff asked; a failure or a used identifier prepares nothing |
| MojeIdRuns.TransactionMapIsOutstanding | src/backend/mojeid/mojeid.cc:2416-2421 | the keys of the transaction map are always outstanding transactions, also when an identifier is used twice, so none outstanding means it is empty |
| MojeIdRuns.PreparedStays | src/backend/mojeid/mojeid.cc:2397-2503 | until its own commit or rollback no operation, one with the same identifier included, changes a prepared transaction or an entry the map holds for it |
| MojeIdRuns.TwoPhaseCommit | src/backend/mojeid/mojeid.cc:2397-2503 | over every interleaving: preparing leaves the registry alone, rollback leaves the contact as before the prepare, commit installs the change with its state requests performed once |
| MojeIdRuns.GoneStays | src/backend/mojeid/mojeid.cc:3052-3057 | a contact deleted by mojeID or a registrar never comes back |
| MojeIdRuns.RequestsEvolve | src/backend/mojeid/mojeid.cc:2031-2060 | over every run each committed change of a request's status starts from opened |
| MojeIdAddress.CancelKeepsAddressExactlyWhen | src/backend/mojeid/mojeid.cc:3059-3091 | cancelling keeps "hidden implies verified and no organization" iff the address was disclosed or the contact identified |
| MojeIdAddress.CancelLeavesUnverifiedHidden | src/backend/mojeid/mojeid.cc:3073-3091 | a run from the empty registry (create, register, validate, link, cancel, commit) that leaves a hidden address nothing verifies |
| MojeIdAddress.OutcomeKeepsAddress | src/backend/mojeid/mojeid.cc:1446-1453 | every other operation keeps the rule on its contact |
| MojeIdAddress.EppUpdateKeepsAddress | src/backend/epp/contact/impl/cznic/update_contact_data_filter.cc:265-304 | an EPP update, by whatever registrar, hides or leaves hidden only addresses of verified contacts without an organization |
| MojeIdAddress.HiddenAddressesAreVerified | src/backend/mojeid/mojeid.cc:1446-2770 | over every run, cancelling apart where it matters, a hidden address is that of an identified or validated contact with a blank organization |
| MojeIdUpdater.UpdaterKeepsRule | tools/disclose_flags_updater/contact_search_query.cc:61-98 | what the updater with hide-verified makes of a contact's row is what mojeID's runs take it to do, and it establishes the rule for hidden addresses |
| MojeIdServer.InvalidateOpened | src/backend/mojeid/mojeid.cc:3152-3202 | the loop ends, invalidates exactly the opened requests of the kind and says whether there were any |
| MojeIdServer.Pin3Outcome | src/backend/mojeid/mojeid.cc:3132-3216 | the two invalidation loops and the new request give exactly the outcome the invariants are proved for |
| MojeIdServer.Server.CreateContactPrepare | src/backend/mojeid/mojeid.cc:978-1022 | takes the create step: an unused identifier holds the new contact and remembers it, the registry stays as it is |
| MojeIdServer.Server.TransferContactPrepare | src/backend/mojeid/mojeid.cc:1088-1163 | takes the transfer step with exactly the success, request and errors of `Transfers`, and holds the contact |
| MojeIdServer.Server.UpdateContactPrepare | src/backend/mojeid/mojeid.cc:1299-1470 | takes the update step with exactly the success, dropped states, request and errors of `Updates`, and holds the contact |
| MojeIdServer.Server.UpdateTransferContactPrepare | src/backend/mojeid/mojeid.cc:1605-1795 | takes the update with transfer step with exactly the success, dropped states, request and errors of `UpdatesAndTransfers` |
| MojeIdServer.Server.CancelAccountPrepare | src/backend/mojeid/mojeid.cc:3027-3104 | takes the cancel step; drops exactly what mojeID set, or deletes an unlinked contact |
| MojeIdServer.Server.ProcessRegistrationRequest | src/backend/mojeid/mojeid.cc:2019-2191 | takes the registration step; succeeds iff `CanRegister`, password included, and leaves exactly the states and requests of `Registering` |
| MojeIdServer.Server.ProcessIdentificationRequest | src/backend/mojeid/mojeid.cc:2276-2365 | takes the identification step; succeeds iff the password of an opened request is right and the contact may be identified |
| MojeIdServer.Server.ValidateContact | src/backend/mojeid/mojeid.cc:2724-2773 | takes the validation step with exactly the success and effect of `Validates` |
| MojeIdServer.Server.SendNewPin3 | src/backend/mojeid/mojeid.cc:3132-3216 | takes the PIN3 step with exactly the success and requests of `SendsNewPin3` |
| MojeIdServer.Server.CommitPreparedTransaction | src/backend/mojeid/mojeid.cc:2397-2424 | takes the commit step; fails iff the transaction is unknown, and it is unknown to the map as well afterwards |
| MojeIdServer.Server.InstallAndPerform | src/backend/mojeid/mojeid.cc:2397-2421 | commit, perform and release in the order of the code put exactly the prepared contact in place with its state requests performed |
| MojeIdServer.Server.RollbackPreparedTransaction | src/backend/mojeid/mojeid.cc:2478-2503 | takes the rollback step and leaves the contacts alone |
| Subprocess.StepKeeps | src/util/subprocess.cc:780-1061 | every step of parent, supervisor and command keeps the protocol invariant |
| Subprocess.ReturnsWhatHappened | src/util/subprocess.cc:964-1061 | over every interleaving a normal return carries the ended command's reaped status and everything ever written to stdout and stderr |
| Subprocess.NothingIsWrittenAfterwards | src/util/subprocess.cc:964-1021 | nothing can be written to either output after a normal return |
| Subprocess.TimedOutNeverReturns | src/util/subprocess.cc:865-873 | a run that timed out never returns normally, and only a run with a timeout times out |
| Subprocess.TimeoutKills | src/util/subprocess.cc:865-873 | a command running when time is up ends with the status of the kill, an ended one keeps its own |
| Subprocess.TimedOutIsEnded | src/util/subprocess.cc:865-873 | over every run and continuation a command that ran out of time has ended and stays ended |
| Subprocess.ExpiredExactlyWhenTimedOut | src/util/subprocess.cc:1036-1058 | over every run "command runtime expired" is thrown iff time was up, "child process failure" iff the supervisor failed, and "status receiving failure" never, the parent's own select failure aside |
| Subprocess.OutlivesOnlyFailure | src/util/subprocess.cc:847-873 | the command outlives its supervisor only if that failed |
| Subprocess.InputIsConserved | src/util/subprocess.cc:827-886 | bytes read by the command, bytes in the pipe and bytes left are always the stdin content, in order |
| Subprocess.InputEnds | src/util/subprocess.cc:822-886 | the command's input is open exactly as long as content is left to be sent by a living supervisor |
| Subprocess.ExitIsNeverLost | src/util/subprocess.cc:835-863 | with SIGCHLD blocked before the fork, a supervisor in its loop whose command has ended can always be woken by it and then reports the command's status |
| Subprocess.LostWithoutTheBlock | src/util/subprocess.cc:473-501 | without the block a run of three events loses the end of the command: over every continuation SIGCHLD never wakes the supervisor, and unless something else does, it loops for good and nothing is returned |
| Subprocess.EndedCommandCanReturn | src/util/subprocess.cc:835-1061 | progress: from every reachable state with the command ended and the supervisor neither failed nor timed out, the run can go on to a normal return with the status and all that was written |
| Subprocess.NormalReturnIsPossible | src/util/subprocess.cc:903-1061 | for every input, output, error output and status there is a run that consumes the input and returns them |
| SubprocessTimeout.AddToNow | src/util/subprocess.cc:710-722 | the limit is now plus the timeout, normalized |
| SubprocessTimeout.PselectTimeout.TimeToLimit | src/util/subprocess.cc:664-693 | the time left, never negative, normalized; none iff the limit is the reserved value |
| SubprocessTimeout.LimitedFrom | src/util/subprocess.cc:658-693 | built from a clock and a timeout, the object reports no limit iff the timeout is none or ends at the origin of the clock, for non-negative ones iff both are zero; otherwise it reports what is left of the timeout |
| SubprocessTimeout.ZeroAtOriginIsIgnored | src/util/subprocess.cc:664-669 | a zero timeout taken at the origin of the clock does not limit the command |
| CsvParser.Unquote | src/util/csv_parser.cc:80-83 | replacing doubled quotes is collapsing them from the left |
| CsvParser.OddQuote | src/util/csv_parser.cc:60-88 | an odd quotation mark closes the field, unless another one and more input follow |
| CsvParser.ScanQuoted | src/util/csv_parser.cc:50-100 | the loop over a quoted field stays in bounds, ends, finds the closing quote of the grammar and never throws "missing quotation mark" |
| CsvParser.ScanUnquoted | src/util/csv_parser.cc:101-125 | the loop over an unquoted field stops at the first delimiter, newline or the end, with wrapping end index |
| CsvParser.NextStart | src/util/csv_parser.cc:127-150 | where the next field starts and whether it starts a row |
| CsvParser.Round | src/util/csv_parser.cc:48-151 | one round of the outer loop agrees with the grammar and shortens the unread rest |
| CsvParser.Parse | src/util/csv_parser.cc:38-156 | for every input the index machine returns what the grammar parser returns, and never "missing quotation mark" |
| CsvRoundTrip.RoundTrip | src/util/csv_parser.cc:50-155 | parsing rows whose fields are rendered quoted or, where they can be, bare, with any newline styles and an optional final newline, gives back the rows; the conditions exclude only what the dialect cannot tell apart |
| CsvRoundTrip.QuotedRoundTrip | src/util/csv_parser.cc:50-155 | with every field quoted there is no condition |
| CsvRoundTrip.UnclosedFails | src/util/csv_parser.cc:60-100 | a quoted field that nothing closes is an error |
| CsvRoundTrip.EmptyLineIsRow | src/util/csv_parser.cc:101-149 | an empty line is a row with one empty field |
| CsvRoundTrip.TrailingDelimiterIsLost | src/util/csv_parser.cc:127-155 | an unquoted empty field at the end of input is dropped |
| XmlEscaping.XmlEscapeTag | src/util/xmlgen.cc:45-51 | the three passes are one simultaneous substitution |
| XmlEscaping.XmlEscapeAttr | src/util/xmlgen.cc:53-58 | the two passes are one simultaneous substitution |
| XmlEscaping.AttributeAfterTag | src/util/xmlgen.cc:45-58 | escaping for tags and then for attributes is one simultaneous substitution |
| XmlRoundTrip.XmlEscapeCdata | src/util/xmlgen.cc:30-34 | whatever follows, the cut text read inside a section gives the characters of the text and ends where the section does |
| XmlRoundTrip.XmlUnparsedCData | src/util/xmlgen.cc:37-43 | the wrapped data read as one section of that data, and as the text it was cut from |
| XmlGenerator.Print | src/util/xmlgen.hh:167-190 | printing only appends, and appends the whole element |
| XmlRoundTrip.SectionReads | src/util/xmlgen.cc:30-43 | each CDATA section of the cut text closes where intended, also after "]" and "]]" |
| XmlRoundTrip.CdataReads | src/util/xmlgen.cc:30-43 | reading the sections gives the text |
| XmlRoundTrip.EscapedReads | src/util/xmlgen.cc:45-51 | reading escaped character data gives the text |
| XmlRoundTrip.AttributeDecodes | src/util/xmlgen.cc:45-58 | decoding entities inverts both escapings together |
| XmlRoundTrip.AttributeIsQuotable | src/util/xmlgen.cc:45-58 | an escaped attribute value has no quotes and no angle brackets |
| XmlRoundTrip.AttributesRead | src/util/xmlgen.hh:167-175 | the attributes written into a start tag read back as they were, and the tag ends where intended |
| XmlRoundTrip.TreeReads | src/util/xmlgen.hh:132-191 | reading a printed tree gives its meaning and leaves the rest |
| XmlRoundTrip.RoundTrip | src/util/xmlgen.hh:132-191 | for every tree with legal and distinct names, attributes included, reading what was printed gives the tree back, an empty child list counting as empty text |
| CopyHandles.GetCopyOwnerHandle | src/backend/admin_block/administrativeblocking.cc:149-191 | the next handle, with the index accumulated in a wrapping 64-bit number |
| CopyHandles.CandidateStartsWithStem | src/backend/admin_block/administrativeblocking.cc:155-174 | among registered handles the query's wildcard lets nothing through but handles starting with the stem |
| CopyHandles.NextIsAboveAll | src/backend/admin_block/administrativeblocking.cc:149-191 | the new handle is unused if there is no candidate, and otherwise above every candidate, and so unused, iff the tail of the highest grows |
| CopyHandles.NextAgainstLast | src/backend/admin_block/administrativeblocking.cc:175-190 | it is above the highest candidate iff the tail is no number, five or more digits not all nine, or fewer digits all zeros; otherwise it is below |
| CopyHandles.StuckBehind | src/backend/admin_block/administrativeblocking.cc:155-190 | where the tail does not grow, the same highest candidate is found again after one more copy, and the next handle is taken |
| CopyHandles.ShortIndexIsStuck | src/backend/admin_block/administrativeblocking.cc:155-190 | with FOO-ABC_7 registered the second copy of FOO gets the handle of the first |
| CopyHandles.WrappedFallsBehind | src/backend/admin_block/administrativeblocking.cc:175-190 | an index that wraps to a small number falls behind |
| CopyRoom.AvailableStays | src/backend/admin_block/administrativeblocking.cc:149-191 | if an owner can be copied before another owner is, it can be copied after |
| CopyRoom.ApartIsIndependent | src/backend/admin_block/administrativeblocking.cc:149-191 | for owners whose handles are unrelated, copying one does not change whether the other can be copied |
| CopyHandles.NinesFallBehind | src/backend/admin_block/administrativeblocking.cc:175-190 | with a tail of nines the new handle is below the current highest |
| CopyHandles.NumberedIncrease | src/backend/admin_block/administrativeblocking.cc:186-190 | up to five digits byte order is numeric order |
| CopyHandles.CopiesAreNumbered | src/backend/admin_block/administrativeblocking.cc:149-191 | over every run from a registry without copies the handles are numbered from zero, each unused when given, up to number 100000 |
| CopyHandles.StuckAfterSixDigits | src/backend/admin_block/administrativeblocking.cc:155-190 | after that the generator only repeats the handle numbered 100000 |
| AdminRegistry.CopyDomainOwners | src/backend/admin_block/administrativeblocking.cc:193-239 | every distinct owner gets exactly one copy under an unused handle and nothing else changes; it succeeds if the next handle of every owner is free, and for unrelated handles only then |
| AdminRegistry.CopyAllLeads | src/backend/admin_block/administrativeblocking.cc:230-239 | over any order of the owners, room for all of them is enough for the loop to succeed, and for unrelated handles necessary |
| AdminBlock.BlockEach | src/backend/admin_block/administrativeblocking.cc:730-803 | blocks exactly the listed domains that are free and collects exactly the others and the unknown statuses |
| AdminBlock.BlockWithOwners | src/backend/admin_block/administrativeblocking.cc:741-772 | fails iff some domain, owner or status is in the way, else blocks exactly the domains and their owners, each owner once |
| AdminBlocking.BlockBoth | src/backend/admin_block/administrativeblocking.cc:716-772 | succeeds iff owners have no other domains, are not mojeID contacts, and nothing is in the way |
| AdminBlocking.BlockWithCopies | src/backend/admin_block/administrativeblocking.cc:712-880 | success blocks the domains, hands them to blocked copies and reports each change once; it succeeds if the domains are free, the statuses known and the next handles free, and for unrelated owners only then |
| AdminBlocking.CopiesKeepSharing | src/backend/admin_block/administrativeblocking.cc:773-797 | listed domains share a new owner iff they shared the old one; unlisted domains are unchanged |
| AdminBlocking.OneCopyEach | src/backend/admin_block/administrativeblocking.cc:230-238 | there are as many copies as owners |
| AdminEffects.OwnerIsBlockedToo | src/backend/admin_block/administrativeblocking.cc:741-772 | listed domains and their owners are blocked and remember their states; nothing else changes |
| AdminEffects.CopiesBlock | src/backend/admin_block/administrativeblocking.cc:773-803 | listed domains go to blocked copies with the owners' data under handles that extend theirs; owners and other domains stay |
| AdminEffects.BatchUnblocks | src/backend/admin_block/administrativeblocking.cc:517-652 | what becomes of every domain and contact: states, owner, expiration and administrative contacts of listed domains, who is free again, who is copied |
| AdminEffects.UnblockUndoesBlock | src/backend/admin_block/administrativeblocking.cc:497-803 | blocking domains, alone or with their owners, and unblocking them with states restored gives back all domains and contacts |
| AdminService.Blocking.BlockDomainsId | src/backend/admin_block/administrativeblocking.cc:677-880 | any error leaves the registry untouched and names what was found; success changes exactly what the mode is for, domain by domain and contact by contact, and happens iff the stated conditions hold, with copies as far as their handles are unrelated |
| AdminUnblock.UnblockContact | src/backend/admin_block/administrativeblocking.cc:417-495 | the contact is restored, restored after handing its blocked domains to one blocked copy, or left blocked; it fails iff a copy is needed and its handle is taken |
| AdminUnblock.UnblockEach | src/backend/admin_block/administrativeblocking.cc:517-633 | unblocks exactly the listed blocked domains and collects their owners |
| AdminUnblock.OneOwnerMore | src/backend/admin_block/administrativeblocking.cc:639-651 | settling one more owner does not disturb those settled before |
| AdminUnblock.SettleOwners | src/backend/admin_block/administrativeblocking.cc:639-651 | after the loop all owners are settled and no one else is touched; it succeeds if every owner to be copied can be, and for unrelated handles only then |
| AdminUnblock.OwnerEnds | src/backend/admin_block/administrativeblocking.cc:425-494 | the three ways a formerly blocked owner can end, each with its condition |
| AdminUnblock.NoOwnerLeftBehind | src/backend/admin_block/administrativeblocking.cc:517-651 | after a batch no formerly blocked owner is unblocked while owning a blocked domain |
| AdminUnblock.BlockedOnesMoveTogether | src/backend/admin_block/administrativeblocking.cc:436-485 | an unlisted domain changes at most its owner, and then to the one blocked copy of that owner |
| AdminService.Blocking.UnblockDomains | src/backend/admin_block/administrativeblocking.cc:497-652 | any error leaves the registry untouched and names what was found; success changes exactly the stated fields of listed domains, their owners and copies, and happens under the stated conditions |
| DiscloseQuery.MakeClause | tools/disclose_flags_updater/contact_search_query.cc:61-98 | the clause is the OR of its terms, in order |
| DiscloseQuery.JoinedParses | tools/disclose_flags_updater/contact_search_query.cc:41-51 | by the precedence of SQL the text reads as the disjunction of its terms |
| DiscloseQuery.ClauseSelects | tools/disclose_flags_updater/contact_search_query.cc:73-96 | it is SQL unless empty, never NULL, and selects iff some term holds |
| DiscloseQuery.QuerySelectsWhatUpdateChanges | tools/disclose_flags_updater/contact_search_query.cc:61-98 | for every setting and contact, with flags true, false or NULL, the query selects iff the update would change the contact (what it changes: `DiscloseUpdater.TargetIsAsSet`) |
| DiscloseUpdater.TargetIsAsSet | tools/disclose_flags_updater/contact_search_query.cc:61-98 | flag by flag what the update leaves, and whose address hide-verified hides |
| DiscloseUpdater.SplitTasks | tools/disclose_flags_updater/fred_disclose_flags_updater.cc:178-192 | for every number of contacts and threads the chunks are non-empty, consecutive and cover everything, all but the last of one size |
| DiscloseUpdater.WorkerStepKeeps | tools/disclose_flags_updater/worker.cc:105-135 | a worker's done counter and its open transaction always agree |
| DiscloseUpdater.RunKeeps | tools/disclose_flags_updater/worker.cc:105-135 | so they do under every schedule |
| DiscloseUpdater.CommitAll | tools/disclose_flags_updater/fred_disclose_flags_updater.cc:282-288 | the commits write exactly what the workers that did not abort have done |
| DiscloseUpdater.FinishedIsPointwise | tools/disclose_flags_updater/fred_disclose_flags_updater.cc:263-288 | if all workers finish, the result is the update of every contact |
| DiscloseUpdater.NothingLeft | tools/disclose_flags_updater/contact_search_query.cc:61-98 | after that the query is empty |
| DiscloseUpdater.Update | tools/disclose_flags_updater/fred_disclose_flags_updater.cc:160-293 | for every schedule: a dry run changes nothing; all finished means every flag is as the settings ask, the address hidden by hide-verified iff the contact is identified or validated and its organization NULL or blank; otherwise each contact is so or untouched |
| DnsKeys.StrictTotalOrder | src/backend/automatic_keyset_management/dns_key.cc:30-50 | the order is strict and total, by key, algorithm, protocol and flags, and the equality derived from it is equality of all fields |
| DnsKeys.TurnOffIsDeleteKey | src/backend/automatic_keyset_management/automatic_keyset_management.cc:188-210 | turning off is asked for exactly by the single delete key of section 4 of RFC 8078 |
| KeysetPrefix.PlainPrefixAgrees | src/backend/automatic_keyset_management/automatic_keyset_management.cc:612-614 | for a plain prefix the LIKE test of the listings is the prefix test of the operations |
| KeysetPrefix.TestsAgreeExactlyWhenPlain | src/backend/automatic_keyset_management/automatic_keyset_management.cc:150-159 | the two tests agree on all upper-case handles iff the prefix is upper case and free of wildcards |
| KeysetManagement.StepKeeps | src/backend/automatic_keyset_management/automatic_keyset_management.cc:721-1340 | every operation keeps references intact and managed keysets unshared |
| KeysetManagement.SharedThrowUnreachable | src/backend/automatic_keyset_management/automatic_keyset_management.cc:388-391 | over every run from an unshared start no managed keyset serves two domains, and "referenced by multiple domains" is never thrown |
| KeysetManagement.SuccessMovesOneDomain | src/backend/automatic_keyset_management/automatic_keyset_management.cc:721-1290 | in every reachable state a success starts from the class its operation is for, gives that domain exactly the keys asked for, none if turning off, and changes no other domain's keys or class |
| KeysetConditions.SucceedsExactlyWhen | src/backend/automatic_keyset_management/automatic_keyset_management.cc:721-1290 | in every reachable state each operation succeeds iff zone, class, nameservers, key count and validity, states, registrar, contact, prefix length and handle are as stated; what it does to the keysets; what each error stands for |
| KeysetListings.Collect | src/backend/automatic_keyset_management/automatic_keyset_management.cc:564-574 | the loop groups exactly the rows by nameserver |
| KeysetListings.ExactlyOneListing | src/backend/automatic_keyset_management/automatic_keyset_management.cc:543-693 | a domain with a nameserver in a managed zone and not outzone is in exactly one listing, any other in none |
| KeysetListings.ListingHolds | src/backend/automatic_keyset_management/automatic_keyset_management.cc:543-693 | with a plain prefix a listing holds exactly the nameservers of domains in managed zones, not outzone, of its class |
| KeysetListings.ListedWhereExpected | src/backend/automatic_keyset_management/automatic_keyset_management.cc:603-693 | with a plain prefix it is listed where the operations expect it |
| KeysetListings.ListedDomainsAreAccepted | src/backend/automatic_keyset_management/automatic_keyset_management.cc:736-755 | an operation on a listed domain never fails for the domain being of the wrong class |
| KeysetManager.IsKeysetShared | src/backend/automatic_keyset_management/automatic_keyset_management.cc:336-359 | counting up to two references decides sharing |
| KeysetManager.ReplaceKeys | src/backend/automatic_keyset_management/automatic_keyset_management.cc:393-406 | removing all current keys and adding the new ones leaves exactly the new ones |
| KeysetManager.Manager.TurnOnInsecure | src/backend/automatic_keyset_management/automatic_keyset_management.cc:721-860 | takes the step and keeps managed keysets unshared; succeeds iff the conditions hold, the domain's own nameservers among them, then moves that one domain to the keys asked for, and otherwise leaves the registry alone |
| KeysetManager.Manager.TurnOnSecure | src/backend/automatic_keyset_management/automatic_keyset_management.cc:914-1075 | the same for a secure domain, turning off included |
| KeysetManager.Manager.UpdateManaged | src/backend/automatic_keyset_management/automatic_keyset_management.cc:1129-1290 | the same for a managed domain, and never the error about sharing |
| Utf8Prefix.NextUtf8Character | tools/contact_migration/mojeid_contact_address_import.cc:330-371 | the end of the first character or the exception, never reading past the end |
| Utf8Prefix.Utf8Substr | tools/contact_migration/mojeid_contact_address_import.cc:317-328 | the loop computes the prefix of that many characters or throws |
| Utf8Prefix.PrefixIsCut | tools/contact_migration/mojeid_contact_address_import.cc:317-371 | the prefix holds exactly min(n, number of characters) whole characters |
| Utf8Prefix.SubstrThrowsExactlyOnMalformed | tools/contact_migration/mojeid_contact_address_import.cc:317-371 | it throws iff one of the first n characters is malformed |
| Utf8Prefix.Composes | tools/contact_migration/mojeid_contact_address_import.cc:317-328 | cutting twice is cutting once at the smaller length |
| Utf8Prefix.WellFormedPrefix | tools/contact_migration/mojeid_contact_address_import.cc:330-371 | the prefix of an encoded text is the encoding of the first n characters |

## Left out

- The comparisons of contact data (src/backend/mojeid/mojeid.cc:360-532, 869-899) and the data checkers: they decide inputs of the mojeID operations, and the theorems hold for every outcome.
- Failures of the database between the two phases of commit_prepared_transaction, and races inside one operation: a step is atomic.
- The library's refusal of overlapping state requests: requesting and cancelling states are set union and difference.
- MojeIdServer: the to_cancel and to_set collections that the operations build up on the way are set expressions of `MojeIdContact`; only the invalidation loops, the two phases and the transaction map are modelled as updates in place.
- RegistryContact: EPP updates in the runs are those of registrars without system rights; what the others do to a mojeID contact is stated for one update. Which registrar sponsors the contact, and the check of authinfo, are inputs. How far the cancellation in the hook gets when only one of its two states is set is decided by the library and an input as well.
- PDF, letter, SMS and e-mail generation, notifications, poll messages, password generation and authinfo: no effect on the modelled state.
- Subprocess: capacities of pipes, the order of signals other than SIGCHLD, and whether every fair run ends; descriptors are closed in any order by the command's descendants.
- SetMySigchldHandler (src/util/subprocess.cc:539-614): saving and restoring the handler would only add an easy member.
- XmlIndentingTagPair: the round trip is for the printer without indentation. Attributes are written in single quotes with escaped values, as src/backend/record_statement/impl/templates_impl.hh:84-98 writes its plain ones.
- Line-end normalisation of section 2.11 of XML 1.0: the reader keeps carriage returns, which a conforming processor would turn into line feeds.
- CopyHandles.NextIsAboveAll: the if-and-only-if is for indices that can be counted up in 64 bits; for longer numbers, which need twenty digits, `WrappedFallsBehind` covers one direction only.
- AdminRegistry.CopyDomainOwners: when one owner's handle extends the stem of another's, copying can succeed although a handle was taken at first; which owner is copied first then matters, and the condition is sufficient only.
- AdminBlocking: time limits of blocks, reasons, logging, poll messages, updateBlockDomainsId, unblockDomainsId with blacklisting and the query functions, which add no further rule about owners.
- DiscloseUpdater: contacts changed by others between the query and the commits, and the progress display.
- KeysetManagement: a registrar linking a managed keyset to a second domain through EPP; the runs start unshared and registrars link only other keysets. Validity of single DNS keys (src/backend/epp/keyset) is an input.
- get_column and get_row of the address import, accounting, the data checks of contact verification, EPP result classes, CORBA, configuration and daemon plumbing.
