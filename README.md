# WeilChain applet marketplace: a Dafny model of its core

This project models the logic core of a decentralised applet marketplace. Its
parts are:

- **Two on-chain contracts, written in Rust.**
  - The applet registry keeps a vector of applets and a `next_id` counter. It
    registers applets, toggles their active flag, and answers list, lookup and
    count queries.
  - The execution logger has the same shape for records of pipeline runs.
- **The client-side mock store.** When no contract is deployed, the pages read
  and update an applet catalogue and an execution history held in the browser.
- **The pipeline builder.** It holds an ordered list of chosen applets, its
  exact total price in wei, and the arguments of its execute button.
- **Three pages.**
  - The pipeline page dispatches a run by applet id, summarises text with a
    two-sentence heuristic, logs the run and tracks the run's status.
  - The marketplace page chooses its data source, maps and searches the
    listing, looks up the selected applet, numbers the cards and handles the
    registration form.
  - The history page shows the executions as a stable newest-first sort of a
    copy.

The model has one Dafny module per source file:

| module | source file | form |
|---|---|---|
| `Registry` | `applets/registry/src/lib.rs` | class `AppletRegistryState` with its queries as functions |
| `Logger` | `applets/logger/src/lib.rs` | class `ExecutionLoggerState` with its queries as functions |
| `MockData` | `src/context/MockDataContext.tsx` | class `Store` with two sequence fields |
| `PipelineBuilder` | `src/components/PipelineBuilder.tsx` | class `Builder`, with the price sum as a function |
| `PipelinePage` | `src/app/pipeline/page.tsx` | class `Page`, with the summariser as functions |
| `Marketplace` | `src/app/marketplace/page.tsx` | class `RegisterForm` and pure listing functions |
| `History` | `src/app/history/page.tsx` | pure functions |

Three helper modules support these:

- `Base` holds `Option`, `u32` and `u64`.
- `Seqs` holds an order-preserving filter and a first-match search, with their
  lemmas.
- `Strings` holds ASCII lowercasing, substring search, JavaScript `slice` and
  `join`.

Modelling choices:

- Prices are integers. On-chain they are `u64`. In the builder they are exact
  wei amounts, as with JavaScript `bigint`.
- The clock (`Date.now()`) and the text of `Math.random().toString(16)` are
  parameters.
- So are the wei/ether converters `parseEther` and `formatEther`, and the
  sentiment analyser.
- Rust's `as u32` cast keeps the low 32 bits. It is written out as a remainder.

Removing from the pipeline calls `splice(index, 1)` on a copy, and
`PipelineBuilder.Spliced` models every case of it:

- at an index from 0 to the length minus one, that element is removed;
- at an index at or past the end, nothing is removed;
- at a negative index, it counts from the end;
- below minus the length, the first element is removed.

## Model

| member | source | states |
|---|---|---|
| Registry.AppletRegistryState.constructor | applets/registry/src/lib.rs:50-53 | a new registry has no applets and `next_id == 1`, and satisfies the numbering invariant |
| Registry.AppletRegistryState.RegisterApplet | applets/registry/src/lib.rs:88-102 | returns the old `next_id` and raises it by exactly one; appends exactly one active applet carrying that id, the given fields and owner "caller"; keeps the invariant |
| Registry.Numbered | applets/registry/src/lib.rs:88-101 | the registry invariant: the applet at position i has id i+1 and owner "caller", and `next_id` is the length plus one |
| Registry.NumberedIdsUnique | applets/registry/src/lib.rs:99-101 | under the invariant, ids strictly increase along the vector and lie in 1 .. `next_id`-1, so they are unique |
| Registry.GetApplets | applets/registry/src/lib.rs:58-64 | an applet is in the result exactly when it is stored and active |
| Registry.GetAppletsOrder | applets/registry/src/lib.rs:58-64 | the active list keeps registration order (a subsequence) and every copy of each active applet, and none of an inactive one |
| Registry.GetAppletById | applets/registry/src/lib.rs:68-70 | `None` exactly when no stored applet has the id; otherwise the first stored applet with that id |
| Registry.GetAppletByIdNumbered | applets/registry/src/lib.rs:68-70 | in a numbered registry, id k finds the applet at position k-1 when 1 <= k < `next_id`, and nothing otherwise |
| Registry.GetAppletCount | applets/registry/src/lib.rs:74-76 | the count is the vector length whenever that fits in 32 bits |
| Registry.CountIsNextIdMinusOne | applets/registry/src/lib.rs:74-76 | the count includes inactive applets and equals `next_id - 1` |
| Registry.Toggled | applets/registry/src/lib.rs:107-111 | same length; every field except `is_active` unchanged; the flag flips exactly at the first applet carrying the id |
| Registry.ToggleUnknown | applets/registry/src/lib.rs:108 | toggling an id that no applet carries changes nothing |
| Registry.ToggleTwice | applets/registry/src/lib.rs:107-111 | toggling the same id twice restores the vector |
| Registry.ToggledNumbered | applets/registry/src/lib.rs:107-111 | toggling keeps the numbering invariant |
| Registry.AppletRegistryState.ToggleAppletStatus | applets/registry/src/lib.rs:107-111 | the new vector is `Toggled` of the old one; `next_id` is unchanged; the invariant is kept |
| Registry.RegisterThenQuery | applets/registry/src/lib.rs:58-70 | after a registration the new id finds the new applet, and the active list grows by exactly that applet at its end |
| Logger.ExecutionLoggerState.constructor | applets/logger/src/lib.rs:45-48 | a new log is empty with `next_id == 1` and satisfies the numbering invariant |
| Logger.ExecutionLoggerState.LogExecution | applets/logger/src/lib.rs:81-93 | returns the old `next_id` and raises it by one; appends exactly one entry with that id, the applet ids verbatim, the given price and hash, user "caller" and timestamp 0 |
| Logger.Numbered | applets/logger/src/lib.rs:81-92 | the logger invariant: the entry at position i has id i+1, user "caller" and timestamp 0, and `next_id` is the length plus one |
| Logger.NumberedIdsUnique | applets/logger/src/lib.rs:90-92 | under the invariant, ids strictly increase along the vector and stay below `next_id` |
| Logger.GetExecutionsByUser | applets/logger/src/lib.rs:53-59 | an entry is in the result exactly when it is stored and recorded for the user |
| Logger.GetExecutionsByUserOrder | applets/logger/src/lib.rs:53-59 | the result keeps logging order and every copy of each matching entry |
| Logger.ByUserOfNumbered | applets/logger/src/lib.rs:53-59 | since every entry records "caller", that user gets the whole log and every other user gets nothing |
| Logger.GetExecutionById | applets/logger/src/lib.rs:63-65 | `None` exactly when no entry carries the id; otherwise the first stored entry with that id |
| Logger.GetExecutionByIdNumbered | applets/logger/src/lib.rs:63-65 | in a numbered log, id k finds position k-1 when 1 <= k < `next_id`, and nothing otherwise |
| Logger.GetExecutionCount | applets/logger/src/lib.rs:69-71 | the count is the vector length whenever that fits in 32 bits |
| Logger.CountIsNextIdMinusOne | applets/logger/src/lib.rs:69-71 | the count equals `next_id - 1` |
| Logger.LogThenQuery | applets/logger/src/lib.rs:53-65 | a logged entry is found by its id at once, and the caller's list grows by exactly that entry at its end |
| MockData.InitialApplets | src/context/MockDataContext.tsx:37-43 | five applets, numbered 1..5 by position |
| MockData.InitialExecutions | src/context/MockDataContext.tsx:45-48 | two entries, ids 101 and 102, newest first, satisfying the history id invariant |
| MockData.Seconds | src/context/MockDataContext.tsx:91 | the result is the whole number of seconds in the milliseconds, rounded down |
| MockData.PipelineId | src/context/MockDataContext.tsx:88 | "0x", then the random text's characters 2 to 9 (as many of them as exist), in place, then "..."; its length is 5 plus that count |
| MockData.NewApplet | src/context/MockDataContext.tsx:73-81 | the new applet's id is the stored count plus one, so the appended applet keeps "the applet at position i has id i+1"; it carries the given name, description and price, "Unknown" schemas and owner "0xUser..." |
| MockData.NewExecution | src/context/MockDataContext.tsx:86-94 | the new entry's id is the stored count plus 101 and its pipeline id is built from the random hex string; that id exceeds every stored id (under the history invariant); applet ids and price are stored as given, status Success, the timestamp is the clock's whole seconds |
| MockData.LogKeepsIdsFresh | src/context/MockDataContext.tsx:85-96 | the new entry's id exceeds every stored id, and prepending it keeps ids unique and at most length + 100 |
| MockData.Store.constructor | src/context/MockDataContext.tsx:37-52 | the store starts with the initial applets and executions and satisfies both invariants |
| MockData.Store.RegisterApplet | src/context/MockDataContext.tsx:72-83 | appends one applet with id length + 1, the given name, description and price, "Unknown" schemas and owner "0xUser..."; history untouched; invariant kept |
| MockData.Store.LogExecution | src/context/MockDataContext.tsx:85-96 | prepends one entry with id length + 101, status Success, ids and price as given, the floored timestamp; catalogue untouched; invariant kept |
| PipelineBuilder.TotalPrice | src/components/PipelineBuilder.tsx:34 | the empty pipeline costs 0 (the `0n` seed of the sum) |
| PipelineBuilder.TotalPriceNonNegative | src/components/PipelineBuilder.tsx:34 | a pipeline of non-negative prices has a non-negative total |
| PipelineBuilder.TotalPriceConcat | src/components/PipelineBuilder.tsx:34 | the total of a concatenation is the sum of the two totals |
| PipelineBuilder.TotalPriceAppend | src/components/PipelineBuilder.tsx:24-26 | appending an applet raises the total by exactly its price |
| PipelineBuilder.TotalPriceRemove | src/components/PipelineBuilder.tsx:28-34 | removing element i lowers the total by exactly that element's price |
| PipelineBuilder.TotalPricePermutation | src/components/PipelineBuilder.tsx:34 | any rearrangement of the same applets has the same total |
| PipelineBuilder.Spliced | src/components/PipelineBuilder.tsx:28-32 | for 0 <= i < length exactly element i is removed and the others keep their order; at or past the end nothing changes; a negative index counts from the end; below minus the length the first element goes; an empty pipeline stays empty |
| PipelineBuilder.AppletIds | src/components/PipelineBuilder.tsx:114 | the ids in pipeline order, duplicates kept |
| PipelineBuilder.Builder.constructor | src/components/PipelineBuilder.tsx:21-22 | the pipeline starts empty, with total 0 and empty input |
| PipelineBuilder.Builder.AddToPipeline | src/components/PipelineBuilder.tsx:24-26 | the applet is appended, even if already present, and the total rises by its price |
| PipelineBuilder.Builder.RemoveFromPipeline | src/components/PipelineBuilder.tsx:28-32 | the pipeline becomes the spliced copy; for an index in range the total drops by that element's price |
| PipelineBuilder.Builder.SetInputData | src/components/PipelineBuilder.tsx:66 | the input text is replaced and the pipeline is kept |
| PipelineBuilder.Builder.Execute | src/components/PipelineBuilder.tsx:113-115 | a call is made exactly when the pipeline is non-empty and a wallet is connected; it carries the ids in order, the exact total and the input text |
| PipelinePage.RunLength | src/app/pipeline/page.tsx:44 | the length of the longest leading run of terminators, or of non-terminators |
| PipelinePage.Sentences | src/app/pipeline/page.tsx:44 | every match is a maximal run of non-terminators followed by a run of terminators |
| PipelinePage.SentencesEmptyIff | src/app/pipeline/page.tsx:44 | nothing matches exactly when no non-terminator is followed later by a terminator |
| PipelinePage.SentencesCons | src/app/pipeline/page.tsx:44 | a whole sentence at the front is matched alone and matching resumes after it |
| PipelinePage.LeadingTerminatorsDropped | src/app/pipeline/page.tsx:44 | terminators in front of the text never start a match |
| PipelinePage.TrailingTextDropped | src/app/pipeline/page.tsx:44 | text after the last terminator is dropped |
| PipelinePage.JoinedSummary | src/app/pipeline/page.tsx:44-45 | the first at most two matches joined by one space: with no match, the whole input; with one, that match; with two or more, the first, a space, then the second |
| PipelinePage.Summarize | src/app/pipeline/page.tsx:44-46 | the summary is never empty, and for empty input it is the fallback text |
| PipelinePage.FirstTwo | src/app/pipeline/page.tsx:45 | at most the first two segments, in order |
| PipelinePage.JoinStartsWithFirst | src/app/pipeline/page.tsx:45 | a join of at least one part starts with the first part |
| PipelinePage.SentenceStart | src/app/pipeline/page.tsx:44 | every match has at least two characters and starts with a non-terminator |
| PipelinePage.StartsWithSentence | src/app/pipeline/page.tsx:44 | text that starts with a match starts with a non-terminator |
| PipelinePage.SentencesOfThree | src/app/pipeline/page.tsx:44 | three whole sentences in a row are matched one by one |
| PipelinePage.SummarizeFallback | src/app/pipeline/page.tsx:44-46 | the fallback text is produced exactly for empty input; any other input gives its non-empty joined text |
| PipelinePage.SummarizeThreeSentences | src/app/pipeline/page.tsx:44-46 | three whole sentences summarise to the first two joined by one space |
| PipelinePage.SummarizeExample | src/app/pipeline/page.tsx:44-46 | "A. B. C." summarises to "A.  B.", keeping each sentence's leading space |
| PipelinePage.SentimentFragment | src/app/pipeline/page.tsx:35-39 | the analyser's result is present exactly when id 1 occurs |
| PipelinePage.SummaryFragment | src/app/pipeline/page.tsx:42-47 | the summary is present exactly when id 5 occurs, and is then the heuristic's result |
| PipelinePage.DispatchByMembership | src/app/pipeline/page.tsx:35-47 | two id lists that agree on containing 1 and 5 give the same results, whatever their order, duplicates or other ids |
| PipelinePage.Page.constructor | src/app/pipeline/page.tsx:16-18 | no status and no results yet |
| PipelinePage.Page.HandleExecute | src/app/pipeline/page.tsx:26-53 | status goes to "processing" then to "success"; results are cleared and set per dispatch; exactly one entry is prepended to the store, with the ids unchanged and the formatted price |
| Marketplace.UseRealContracts | src/app/marketplace/page.tsx:13-14 | true exactly when an address is configured that is neither empty nor the zero address |
| Marketplace.FromContract | src/app/marketplace/page.tsx:75-85 | one listed applet per contract applet, fields kept, both schemas "JSON" |
| Marketplace.FromMock | src/app/marketplace/page.tsx:86-90 | one listed applet per mock applet, price converted to wei, every one active |
| Marketplace.FilteredApplets | src/app/marketplace/page.tsx:93-96 | an applet is kept exactly when it is listed and its lowercased name or description contains the lowercased query |
| Marketplace.FilteredOrder | src/app/marketplace/page.tsx:93-96 | the filter keeps listing order (a subsequence) and every copy of each matching applet |
| Marketplace.EmptyQueryKeepsAll | src/app/marketplace/page.tsx:93-96 | an empty query keeps the whole listing |
| Marketplace.QueryCaseIgnored | src/app/marketplace/page.tsx:94-95 | a lowercased query shows the same applets as the query itself |
| Marketplace.SelectedApplet | src/app/marketplace/page.tsx:98 | nothing exactly when no id is selected or no listed applet has it; otherwise the first listed applet with that id |
| Marketplace.CardId | src/app/marketplace/page.tsx:272 | the applet's id, or `idx + 1` when the id is 0; never 0 |
| Marketplace.MockCardsShowOwnIds | src/app/marketplace/page.tsx:268-272 | with the mock catalogue numbered by position, every card shows its applet's own id, for any query |
| Marketplace.RegisterForm.constructor | src/app/marketplace/page.tsx:36-49 | the form starts closed, with empty fields and schemas "Text" and "JSON" |
| Marketplace.RegisterForm.ResetForm | src/app/marketplace/page.tsx:51-57 | the fields return to "", "", "", "Text", "JSON" |
| Marketplace.RegisterForm.HandleRegister | src/app/marketplace/page.tsx:59-72 | an empty name or price changes nothing; contract mode requests registration with all five fields; mock mode registers once in the store, then closes and resets the form |
| Marketplace.RegisterForm.OnRegisterConfirmed | src/app/marketplace/page.tsx:28-34 | after a confirmed registration the form is closed and reset |
| History.Insert | src/app/history/page.tsx:20 | one step of the stable sort adds exactly one entry |
| History.SortNewestFirst | src/app/history/page.tsx:20 | the sorted copy has as many entries as the stored list |
| History.InsertPermutes | src/app/history/page.tsx:20 | one insertion step adds exactly the inserted entry to the multiset |
| History.InsertNewestFirst | src/app/history/page.tsx:20 | inserting into a newest-first list keeps it newest first |
| History.InsertStable | src/app/history/page.tsx:20 | the inserted entry lands after every entry with the same timestamp |
| History.InsertFrontStable | src/app/history/page.tsx:20 | the same, where the entry is strictly newer than the whole list |
| History.SortNewestFirstCorrect | src/app/history/page.tsx:20 | the display order is a permutation of the stored list, newest first, and entries with equal timestamps keep their stored order |
| History.ShortPipelineId | src/app/history/page.tsx:56 | the first `keep` characters of the id (all of it if shorter), then "..."; its length is that count plus 3 |
| History.GeneratedIdLabels | src/app/history/page.tsx:56 | an id made by the mock store is shown unchanged with 10 kept characters (desktop) and as its first 12 characters plus "..." with 12 (mobile) |
| History.RowOf | src/app/history/page.tsx:20-23 | a row keeps the execution's id, timestamp and applet ids; its label is the pipeline id shortened to the given length, its price is the parsed ether amount, and its badge is "Success" whatever the stored status |
| History.Rows | src/app/history/page.tsx:20-23 | one row per execution, in the same order |
| History.RowsDropOne | src/app/history/page.tsx:20-23 | dropping one execution drops exactly one copy of its row |
| History.RowsPermutation | src/app/history/page.tsx:20-23 | rearranging the executions rearranges their rows the same way |
| History.DisplayHistory | src/app/history/page.tsx:20-23 | row i is the row of the i-th entry of the stable newest-first sort; the rows are the stored executions' rows rearranged; timestamps are non-increasing; every badge is "Success" |

## Left out

- Browser persistence is not modelled. This covers the localStorage load and save and `JSON.parse` (src/context/MockDataContext.tsx:56-70). These are I/O, and the store starts from the initial data.
- The 1.5-second `setTimeout` before a run is not modelled; it is timing only.
- The sentiment library's scoring is an opaque parameter `analyze`. The model states only when it runs and that its result is shown.
- `parseEther` and `formatEther` are opaque parameters. Decimal-string conversion of ether amounts is not modelled.
- PipelinePage.Page.HandleExecute: the `result` object passed to `logExecution` is not recorded. The page builds it from state captured at render time, not from this run's outputs.
- keccak256 hashing of schemas, the contract hooks, the wallet connection and the React rendering are not modelled. They are foreign calls or display only.
- Strings.Lower: lowercasing covers ASCII only. JavaScript `toLowerCase` applies full Unicode case mapping.
- Marketplace.CardId: ids are integers here, so the `NaN` fallback of `Number(applet.id)` is not modelled.
- Registry.AppletRegistryState.RegisterApplet: requires `next_id < u32::MAX`. In Rust, `next_id += 1` overflows at the maximum, and that case is not modelled.
- Logger.ExecutionLoggerState.LogExecution: requires `next_id < u32::MAX` for the same reason.
- The weil macros, serde derivations and the async runtime of the contracts are not modelled. Only the state structs and the method bodies are.
- The caller of a contract and the block time are not read by the contracts. The model records the fixed placeholders "caller" and timestamp 0 that the code stores.
- History: the stored list cannot be reordered by the display. `DisplayHistory` is a function of the stored sequence, which mirrors the sort of a spread copy.
- History: `ClientDate`'s locale formatting of the timestamp is not modelled.
