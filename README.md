# SCA decoder model

This project models the `sca_decoder` helper of the Wazuh engine. The helper
decodes the Security Configuration Assessment (SCA) messages that agents
send. Each message is an object inside the event. Its `type` member says
which of four kinds it is:

- `check`: one check result;
- `summary`: the scan-info summary of a policy;
- `policies`: the policies the agent still scans;
- `dump_end`: the end of a results dump.

Each kind has a handler. A handler validates the fields it needs. It then
keeps the agent's SCA tables in the Wazuh database (`wdb`) in step, using
`agent <id> sca <verb> <args>` queries. Some handlers ask the agent for a
fresh dump through the forwarder socket, with a
`<agent>:sca-dump:<policy>:<1|0>` message. They also normalise the event
under `/sca`. The helper records whether the message was handled in its
target field.

## Design

The decoder is imperative. It changes the event, the store's log and the
socket in place, step by step. Each entity becomes a class, and each
handler a method:

- `BaseEvent.Event` holds the event, a flat map from JSON path to value.
- `WazuhDb.WazuhDB` holds the store connection. A fixed `answer` function
  of the queries asked so far stands for the database server.
- `SocketInterface.UnixDatagram` holds the forwarder socket. The fixed
  functions `connects` and `sendStatus` stand for the other end.

Each handler method has a pure partner over the value
`DecodeContext.World`. A world is the event, the query log, the connected
flag and the socket's operation log. Every `...In` method ensures that its
result and new state are exactly its partner function applied to the old
state. The handlers' properties are then proved as lemmas about those
functions.

Clock, logging and the database and socket servers are not modelled
beyond these oracles. The JSON serialiser used for an insert's payload
(`str()`) is an oracle given to the event.

## Model

| member | source | states |
|---|---|---|
| ScaFields.RelativePathInjective | src/engine/source/builder/builders/opBuilderSCAdecoder.cpp:67-118 | no two fields share a relative path, so no two table entries collide |
| ScaFields.PathTableInjective | src/engine/source/builder/builders/opBuilderSCAdecoder.cpp:1157-1161 | a table built by prefixing each field's relative path maps distinct fields to distinct paths |
| ScaDecoder.BuildFieldMaps | src/engine/source/builder/builders/opBuilderSCAdecoder.cpp:1157-1161 | the loop gives every field a source path under the incoming object and a destination path under `/sca`; the root field is the incoming object itself |
| ScaDecoder.TablesValid | src/engine/source/builder/builders/opBuilderSCAdecoder.cpp:1157-1161 | a context over the builder's two tables is well formed and rooted at the incoming path |
| ScaFields.ConditionCases | src/engine/source/builder/builders/opBuilderSCAdecoder.cpp:180-201 | a present field passes exactly when it has the declared kind; an absent one fails exactly when it is mandatory |
| DecodeContext.IsValidEvent | src/engine/source/builder/builders/opBuilderSCAdecoder.cpp:180-216 | the loop returns true exactly when every condition of the list holds, and stops at the first that fails |
| DecodeContext.CopyIfExist | src/engine/source/builder/builders/opBuilderSCAdecoder.cpp:126-133 | the destination path gets the source value when the source exists; otherwise the event is unchanged |
| DecodeContext.CsvStr2ArrayIfExist | src/engine/source/builder/builders/opBuilderSCAdecoder.cpp:143-158 | when the source holds a string, the destination becomes the array of its comma-separated items, in order; otherwise the event is unchanged |
| ScaFields.ApplyStepsEffect | src/engine/source/builder/builders/opBuilderSCAdecoder.cpp:126-158 | after a run of copies to distinct destinations, each destination holds what its step wrote, and every other path is untouched |
| ScaFields.ApplyStepsFrame | src/engine/source/builder/builders/opBuilderSCAdecoder.cpp:126-158 | a path that no step targets keeps its value |
| CheckEvent.RuleTypeNameLetters | src/engine/source/builder/builders/opBuilderSCAdecoder.cpp:226-238 | exactly the letters f, d, r, c, p and n name a rule kind, and each kind's name starts with its letter |
| CheckEvent.RuleType | src/engine/source/builder/builders/opBuilderSCAdecoder.cpp:226-238 | a rule has a kind exactly when it is non-empty and starts with one of f, d, r, c, p, n, and that kind starts with the rule's own first letter |
| WazuhDb.ParseReply | src/engine/source/builder/builders/opBuilderSCAdecoder.cpp:253-293 | found exactly for an ok reply starting with "found" (and long enough when parsing), whose payload is then the text after "found "; not found exactly for an ok reply starting with "not found"; error otherwise; the payload is empty unless found and parsing |
| WazuhDb.FoundRoundTrip | src/engine/source/builder/builders/opBuilderSCAdecoder.cpp:253-293 | parsing the reply "found " + p gives found and p back |
| WazuhDb.NotFoundReply | src/engine/source/builder/builders/opBuilderSCAdecoder.cpp:253-293 | the reply "not found" parses to not found with an empty payload |
| WazuhDb.FailedReplyIsError | src/engine/source/builder/builders/opBuilderSCAdecoder.cpp:253-293 | a failed query, or one without a payload, is an error |
| WazuhDb.SearchAndParse | src/engine/source/builder/builders/opBuilderSCAdecoder.cpp:253-293 | asks the query once and returns the parse of the store's reply |
| DecodeContext.Search | src/engine/source/builder/builders/opBuilderSCAdecoder.cpp:253-293 | a search logs exactly its query and returns the parse of the reply to it |
| CheckEvent.CheckEventFields | src/engine/source/builder/builders/opBuilderSCAdecoder.cpp:299-346 | a valid check event has integer ids, string title, policy id and policy, a check object, correctly typed optional fields, and a result or a status, and a status only with a reason |
| CheckEvent.CheckOutcomeRule | src/engine/source/builder/builders/opBuilderSCAdecoder.cpp:330-344 | once the typed conditions hold, the event is valid exactly when it has a result or a status, and a status comes with a reason |
| CheckEvent.CheckEventRejects | src/engine/source/builder/builders/opBuilderSCAdecoder.cpp:299-347 | failing any one listed condition makes a check event invalid |
| CheckEvent.IsValidCheckEvent | src/engine/source/builder/builders/opBuilderSCAdecoder.cpp:299-347 | the validation returns exactly the validity predicate |
| CheckFill.FillCheckWrites | src/engine/source/builder/builders/opBuilderSCAdecoder.cpp:349-390 | the check fill sets the type "check", sets the previous result only when there is one, copies each listed field, turns the csv lists into arrays, and changes no path outside the `/sca` fields it fills |
| CheckFill.FillCheckOutcome | src/engine/source/builder/builders/opBuilderSCAdecoder.cpp:380-389 | when the incoming SCA object lies apart from `/sca`: a check with a result has that result copied and status and reason left alone; one without has status and reason copied and the result left alone |
| CheckFill.FillCheckEvent | src/engine/source/builder/builders/opBuilderSCAdecoder.cpp:349-390 | the method leaves the event as the check fill function says |
| CheckEvent.ComplianceQueriesExact | src/engine/source/builder/builders/opBuilderSCAdecoder.cpp:392-425 | a compliance insert is issued exactly for each compliance item whose value is a string |
| CheckEvent.ComplianceQueriesAll | src/engine/source/builder/builders/opBuilderSCAdecoder.cpp:392-425 | when every item's value is a string, there is one insert per item |
| CheckEvent.InsertComplianceIn | src/engine/source/builder/builders/opBuilderSCAdecoder.cpp:392-425 | the loop issues the compliance inserts of the event, in order, and changes nothing else |
| CheckEvent.RuleQueriesExact | src/engine/source/builder/builders/opBuilderSCAdecoder.cpp:427-469 | a rule insert is issued exactly for each string rule whose first letter names a kind, with that kind |
| CheckEvent.RuleQueriesStep | src/engine/source/builder/builders/opBuilderSCAdecoder.cpp:427-469 | the rule inserts of the first i + 1 rules are those of the first i followed by rule i's insert, if any |
| CheckEvent.ComplianceQueriesStep | src/engine/source/builder/builders/opBuilderSCAdecoder.cpp:392-425 | the compliance inserts of the first i + 1 items are those of the first i followed by item i's insert, if any |
| CheckEvent.InsertRulesIn | src/engine/source/builder/builders/opBuilderSCAdecoder.cpp:427-469 | the loop issues the rule inserts of the event, in order, and changes nothing else |
| CheckEvent.UpdateArgsFields | src/engine/source/builder/builders/opBuilderSCAdecoder.cpp:499-507 | the update arguments split back into check id, result, status, reason and id when those texts hold no `|` |
| CheckEvent.CheckNormalizeMeans | src/engine/source/builder/builders/opBuilderSCAdecoder.cpp:542-550 | the event is normalised exactly when the check reports an outcome (its result, else its status) and that outcome differs from the stored one |
| CheckEvent.HandleCheckRejectsInvalid | src/engine/source/builder/builders/opBuilderSCAdecoder.cpp:474-480 | an invalid check event fails with "Invalid check event," and nothing changes |
| CheckEvent.HandleCheckLookupFails | src/engine/source/builder/builders/opBuilderSCAdecoder.cpp:488-527 | when the previous-result lookup fails, only that lookup is asked and the handler fails with its message |
| CheckEvent.HandleCheckUpdatesKnown | src/engine/source/builder/builders/opBuilderSCAdecoder.cpp:494-533 | a known check succeeds after the lookup and one update, and nothing else is inserted |
| CheckEvent.HandleCheckInsertsNew | src/engine/source/builder/builders/opBuilderSCAdecoder.cpp:494-540 | a new check succeeds after the lookup, one insert of the whole object, then its compliance and rule inserts |
| CheckEvent.SaveCheckQueryShape | src/engine/source/builder/builders/opBuilderSCAdecoder.cpp:493-527 | the save is an update with check id, result, status, reason and id for a known check, and an insert of the object's text otherwise |
| CheckEvent.HandleCheckEvent | src/engine/source/builder/builders/opBuilderSCAdecoder.cpp:471-553 | the event is filled exactly when the check is valid, the lookup did not fail and the reported outcome is new; otherwise it is unchanged |
| CheckEvent.HandleCheckKeepsSocket | src/engine/source/builder/builders/opBuilderSCAdecoder.cpp:471-553 | a check event never uses the forwarder socket |
| CheckEvent.HandleCheckEventIn | src/engine/source/builder/builders/opBuilderSCAdecoder.cpp:471-553 | the handler's error and new state are those of the check handler function |
| ScanInfo.ScanInfoFields | src/engine/source/builder/builders/opBuilderSCAdecoder.cpp:560-590 | a valid summary has its ids, hashes, file, name, times and counters with the declared kinds, and correctly typed optional description and references |
| ScanInfo.IsValidScanInfoEvent | src/engine/source/builder/builders/opBuilderSCAdecoder.cpp:560-590 | the validation returns exactly the validity predicate |
| DumpRequest.DumpMessageFields | src/engine/source/builder/builders/opBuilderSCAdecoder.cpp:608-609 | the dump request splits back into agent, "sca-dump", policy and the first-scan flag when agent and policy hold no `:` |
| DumpRequest.DumpMessageInjective | src/engine/source/builder/builders/opBuilderSCAdecoder.cpp:608-609 | the first-scan flag can be read back from the message |
| DumpRequest.PushDumpSends | src/engine/source/builder/builders/opBuilderSCAdecoder.cpp:592-632 | the request is sent once when the socket is or gets connected and never otherwise; a failed connect is logged and leaves it disconnected; the socket ends disconnected exactly when the send hit a socket error |
| DumpRequest.PushDumpRequest | src/engine/source/builder/builders/opBuilderSCAdecoder.cpp:592-632 | the method's new state is that of the dump-request function, which never touches the event or the store |
| ScanInfo.SaveScanQueryFields | src/engine/source/builder/builders/opBuilderSCAdecoder.cpp:651-681 | the insert's ten values and the update's (policy id first) split back into themselves; the policy id and hash are in place |
| ScanInfo.SaveScanInfoIn | src/engine/source/builder/builders/opBuilderSCAdecoder.cpp:634-692 | one save query, update or insert, and success exactly when the store answers ok |
| ScanInfo.InsertPolicyQueryNulls | src/engine/source/builder/builders/opBuilderSCAdecoder.cpp:694-714 | a policy without description or references is inserted with NULL in those places |
| ScanInfo.InsertPolicyInfo | src/engine/source/builder/builders/opBuilderSCAdecoder.cpp:694-714 | inserting a policy issues exactly one query and changes nothing else |
| ScanInfo.UpdatePolicyInfoEffect | src/engine/source/builder/builders/opBuilderSCAdecoder.cpp:716-751 | the stored hash file is looked up; only when it is found and differs is the policy deleted, and only when that works is a first-scan dump requested; the event never changes |
| ScanInfo.CheckResultsAndDumpEffect | src/engine/source/builder/builders/opBuilderSCAdecoder.cpp:753-796 | the results hash is looked up once; a dump is requested exactly when it is not found or differs from the event's hash |
| PolicyStore.DeletePolicyAndCheckOutcome | src/engine/source/builder/builders/opBuilderSCAdecoder.cpp:798-827 | the policy delete is issued; its checks are deleted exactly when it worked, and that is the result |
| PolicyStore.DeletePolicyAndCheckIn | src/engine/source/builder/builders/opBuilderSCAdecoder.cpp:798-827 | the method returns and does what the delete function says |
| PolicyStore.FindCheckResultsIn | src/engine/source/builder/builders/opBuilderSCAdecoder.cpp:829-836 | one results lookup, parsed |
| SummaryFill.FillScanInfoWrites | src/engine/source/builder/builders/opBuilderSCAdecoder.cpp:838-856 | the summary fill sets the type "summary", the policy to the name, copies each listed field, and changes no path outside those `/sca` fields |
| SummaryFill.FillScanInfoKeepsHashFile | src/engine/source/builder/builders/opBuilderSCAdecoder.cpp:838-856 | the summary fill never changes the incoming hash file, which the policy update reads afterwards |
| SummaryFill.FillScanInfoIn | src/engine/source/builder/builders/opBuilderSCAdecoder.cpp:838-856 | the method leaves the event as the summary fill function says |
| ScanInfo.StoredHash | src/engine/source/builder/builders/opBuilderSCAdecoder.cpp:884 | the stored hash is the longest prefix of the scan info without a space |
| ScanInfo.StoredHashAgrees | src/engine/source/builder/builders/opBuilderSCAdecoder.cpp:883-885 | wherever the first split piece exists, it equals the stored hash; it is missing exactly for an empty scan info |
| ScanInfo.ScanNormalizeMeans | src/engine/source/builder/builders/opBuilderSCAdecoder.cpp:872-906 | a found summary is normalised when alerts are forced, or when the stored hash differs and this is not a first scan; a new one always; after a lookup error never |
| ScanInfo.RecordScanEffect | src/engine/source/builder/builders/opBuilderSCAdecoder.cpp:866-920 | the summary is looked up and, unless that fails, saved; the event is filled exactly when the save works and it is to be normalised; the first dump is requested only for a saved first scan of a new summary |
| ScanInfo.StoreScanEffect | src/engine/source/builder/builders/opBuilderSCAdecoder.cpp:908-919 | after a lookup that worked, exactly one save query is issued; the event is filled exactly when the save is answered ok and it is to be normalised; the socket is used only for a saved first scan of a new summary, and then sends exactly the first-scan dump request when it is or gets connected |
| ScanInfo.RecordScanKeepsHashFile | src/engine/source/builder/builders/opBuilderSCAdecoder.cpp:908-920 | recording the scan keeps the incoming hash file |
| ScanInfo.SyncPolicyKeepsEvent | src/engine/source/builder/builders/opBuilderSCAdecoder.cpp:922-945 | synchronising the policy never changes the event |
| ScanInfo.SyncPolicyQueries | src/engine/source/builder/builders/opBuilderSCAdecoder.cpp:922-945 | synchronising the policy starts with the policy lookup; a found policy is then updated as the policy update says, a missing one is inserted with one insert query, and a lookup error adds nothing more |
| ScanInfo.HandleScanRejectsInvalid | src/engine/source/builder/builders/opBuilderSCAdecoder.cpp:860-864 | an invalid summary fails with its message and nothing changes |
| ScanInfo.HandleScanEffect | src/engine/source/builder/builders/opBuilderSCAdecoder.cpp:858-951 | a valid summary succeeds; the event is as recording the scan left it; the summary lookup comes first and the policy lookup follows the scan's queries; after the policy is synchronised the results hash is looked up as the last query, and a dump is sent exactly when that hash is stale and the socket is or gets connected, nothing else touching the socket when it is not stale |
| ScanInfo.HandleScanInfoIn | src/engine/source/builder/builders/opBuilderSCAdecoder.cpp:858-951 | the handler's error and new state are those of the summary handler function |
| PoliciesEvent.PoliciesCondition | src/engine/source/builder/builders/opBuilderSCAdecoder.cpp:961-965 | the one condition holds exactly when the event has a policies array |
| PoliciesEvent.StaleIdsExact | src/engine/source/builder/builders/opBuilderSCAdecoder.cpp:987-1005 | a stored id is deleted exactly when the event does not list it |
| PoliciesEvent.StaleIdsNoneListed | src/engine/source/builder/builders/opBuilderSCAdecoder.cpp:987-1005 | against a list holding no string every stored id is stale |
| PoliciesEvent.DeletesOne | src/engine/source/builder/builders/opBuilderSCAdecoder.cpp:798-827 | the queries for deleting one id are its policy delete and, exactly when the store answers that with ok, its check delete |
| PoliciesEvent.DeleteEachEffect | src/engine/source/builder/builders/opBuilderSCAdecoder.cpp:987-1005 | deleting the ids issues exactly each id's policy delete, followed by its check delete exactly when the store answers the policy delete with ok, in order, and touches nothing but the store |
| PoliciesEvent.HandlePoliciesRejects | src/engine/source/builder/builders/opBuilderSCAdecoder.cpp:961-965 | an event without a policies array fails with its message and nothing changes |
| PoliciesEvent.HandlePoliciesEffect | src/engine/source/builder/builders/opBuilderSCAdecoder.cpp:957-1010 | with a policies array the handler succeeds and changes only the store: an empty array asks nothing; otherwise the stored ids are looked up and, unless that fails, exactly the unlisted ones are deleted, each check delete issued exactly when its policy delete is answered ok |
| PoliciesEvent.NotFoundDeletesNothing | src/engine/source/builder/builders/opBuilderSCAdecoder.cpp:977-1005 | when the store has no policies, only the lookup is asked |
| PoliciesEvent.IsListed | src/engine/source/builder/builders/opBuilderSCAdecoder.cpp:993-1000 | the search returns exactly whether the event lists the id as a string |
| PoliciesEvent.DeleteStaleIn | src/engine/source/builder/builders/opBuilderSCAdecoder.cpp:987-1005 | the loop deletes the stale ids in the store's order |
| PoliciesEvent.HandlePoliciesInfoIn | src/engine/source/builder/builders/opBuilderSCAdecoder.cpp:957-1010 | the handler's error and new state are those of the policies handler function |
| DumpEnd.DumpInfo | src/engine/source/builder/builders/opBuilderSCAdecoder.cpp:1017-1037 | no error exactly when the event has an integer count, a string policy id and an integer scan id, and then it returns those ids; otherwise "Malformed JSON", an empty id and scan -1 |
| DumpEnd.DumpFields | src/engine/source/builder/builders/opBuilderSCAdecoder.cpp:1017-1037 | a dump end passes its three conditions exactly when it has an integer count, a string policy id and an integer scan id |
| DumpEnd.DeleteDistinctArgs | src/engine/source/builder/builders/opBuilderSCAdecoder.cpp:1039-1056 | the delete's arguments split back into policy id and scan id |
| DumpEnd.DeletePolicyCheckDistinct | src/engine/source/builder/builders/opBuilderSCAdecoder.cpp:1039-1056 | one delete of the older checks, whatever the reply |
| DumpEnd.HandleDumpRejects | src/engine/source/builder/builders/opBuilderSCAdecoder.cpp:1063-1069 | a malformed dump end fails with "Malformed JSON" and nothing changes |
| DumpEnd.HandleDumpEffect | src/engine/source/builder/builders/opBuilderSCAdecoder.cpp:1060-1113 | a valid dump end succeeds without changing the event: older checks deleted, results then summary looked up, and a non-first-scan dump sent only when both are found with different hashes |
| DumpEnd.HandleDumpEventIn | src/engine/source/builder/builders/opBuilderSCAdecoder.cpp:1060-1113 | the handler's error and new state are those of the dump-end handler function |
| ScaDecoder.DecodeOutcome | src/engine/source/builder/builders/opBuilderSCAdecoder.cpp:1174-1233 | the target field always ends holding whether the event succeeded; without the object, a string agent id or a string type, the event fails with the not-found trace and only the target field changes |
| ScaDecoder.DecodeUnknownType | src/engine/source/builder/builders/opBuilderSCAdecoder.cpp:1186-1226 | an unknown type fails with the unknown-type trace and only the target field changes |
| ScaDecoder.DecodeDispatches | src/engine/source/builder/builders/opBuilderSCAdecoder.cpp:1187-1231 | a dispatched event succeeds exactly when its handler reports no error, fails with the handler's message otherwise, and the world is the handler's plus the target field |
| ScaDecoder.DecodeInvalidCheck | src/engine/source/builder/builders/opBuilderSCAdecoder.cpp:1186-1231 | the type is read at the source path of the type field; an invalid check fails with the check handler's message |
| ScaDecoder.DecodeEvent | src/engine/source/builder/builders/opBuilderSCAdecoder.cpp:1164-1233 | the operation's outcome and new state are those of the decode function |

## Left out

- Logging (`WAZUH_LOG_*`) is not modelled; no decision depends on it.
- The exception of `operator++` past the last field and the default branch of `getRealtivePath` cannot happen here: fields are a bounded type and the path table is total.
- A socket connect that throws is modelled as a failed connect, which is logged and leaves the socket disconnected, as the catch does.
- The builder's parameter checks (`checkParametersSize`, `checkParameterType`, `formatHelperFilterName`) are left out: the helper's name, the target field and the two paths are parameters of the decode function.
- `failureTrace2` is built by the builder but never used, so it is not modelled.
- `opBuilderSCAdecoder.hpp` (the context, the field enum, the search result) is not part of this model; its shapes are inferred from this file.
- `utils::string::split` is not part of this model; `Util.Split` cuts at every delimiter and drops one trailing empty piece, so an empty text splits into no pieces.
- `wdb.hpp` and `socketInterface` are not part of this model. The store and the socket are oracles: a reply depends on the queries asked so far, and a connect or send status depends on the operations so far.
- The event is a flat map from path to value: writing a path does not change the values of the paths under or above it.
- The text of an object (`str()`) is an oracle of the event.
- Integers are unbounded. The source holds the check id (lines 392, 427 and 483), the scan id (lines 1034 and 1041) and the dump-end values (line 1017) in a C++ `int`, which the JSON reader fills from the event; the model accepts and renders any JSON integer, including one outside that range. These values are ids and epoch times (about 1.8e9, near the 2^31-1 bound), not small counters. How the JSON library narrows a value too wide for `int` is not part of this model (`json.hpp` is not part of this model).
- CheckFill.FillCheckWrites: assumes the incoming SCA object lies apart from `/sca`, so that a copy never overwrites a source path still to be read.
- CheckFill.FillCheckOutcome: assumes the incoming SCA object lies apart from `/sca`, as CheckFill.FillCheckWrites does; with overlapping paths an earlier copy could change whether the result path is set.
- SummaryFill.FillScanInfoWrites: assumes the incoming SCA object lies apart from `/sca`, for the same reason.
- A check status that is missing or not a string counts as the empty status.
- `handleDumpEvent` compares the whole stored scan-info payload with the results hash, while `handleScanInfo` compares only its first piece; both are modelled as written.
- `fillCheckEvent` and `FillScanInfo` are each split into helper methods (tag, copies, lists, outcome) with a spec function per part.
- ScanInfo.HandleScanEffect: states the queries as prefixes of the log and the event through ScanInfo.RecordScan; the queries of recording the scan and of synchronising the policy are stated by ScanInfo.RecordScanEffect, ScanInfo.SyncPolicyQueries and ScanInfo.UpdatePolicyInfoEffect.
- CheckEvent.HandleCheckUpdatesKnown: states the queries and the result, not the event; the event is stated by CheckEvent.HandleCheckEvent.

## Findings

| source | as written | input that shows it | evidently intended | confidence | as-written member | corrected member |
|---|---|---|---|---|---|---|
| src/engine/source/builder/builders/opBuilderSCAdecoder.cpp:884 | the stored hash is the first piece of the scan info split at spaces, taken with `.at(0)` | the store answers "found " to the summary lookup: the scan info is empty, it has no pieces, and `.at(0)` throws | the stored hash is the scan info up to its first space, empty when the scan info is empty | medium, not executed | ScanInfo.StoredHashAsWritten (shown by ScanInfo.StoredHashAsWrittenFails) | ScanInfo.StoredHash (related by ScanInfo.StoredHashAgrees) |
