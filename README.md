# Fiscal invoice reverser: the five batch stages

The repository reverses and reissues fiscal invoices on networked tax-register
devices in five batch stages. Each stage is run on its own:

1. `fetchInvoiceItems` reads the relevant numbers from column B of the
   spreadsheet. For each number not yet in `processedNumbers.json` it verifies
   the device PIN, fetches the original transaction into
   `ItemResponses/${n}.json` and checkpoints the number, whatever the outcome.
2. `buildCreditNoteRequests` turns every successful item response into a
   credit-note request `CreditNoteRequests/${n}.json`. The request has the same
   items and one cash payment of their total.
3. `processCreditNotes` submits each request to the device the spreadsheet
   assigns to it. It writes `CreditNoteResponses/${n}.json` or `${n}_error.json`.
   Only a response that has its own `mtn` is checkpointed in
   `processedCreditnotes.json`.
4. `createCorrectInvoices` takes every checkpointed credit note and builds a
   correct invoice for the buyer the spreadsheet names:
   `CorrectInvoices/${n}.json`.
5. `processCorrectInvoices` submits the correct invoices through the same
   per-record protocol as stage 3 and checkpoints them in
   `processedCorrectInvoices.json`.

The model replaces the outside world with plain values:

- A directory is a map from file name to parsed JSON or `Malformed`.
- A checkpoint file is `Absent`, `Unreadable` or `Saved(keys)`.
- The spreadsheet is a sequence of rows of optional cell texts.
- `config.devices` is a map.
- The PIN environment variable is an optional string.
- The devices are a function `Network` from (relevant number, request) to an
  answer or a thrown message.

Each stage is a method with a `for` loop that threads its state (the output
directory and the checkpoint file) through the records. It is proved against
specification functions:

- `Process`/`Decide` give the verdict of one record.
- `Writes` gives the artifact writes of a run.
- `Checkpoints` gives the keys a run records.
- `Traffic` gives the requests sent to the devices.

Lemmas then state the stage's promises about those functions.

Modules:

- `Json`, `Text`, `JsNumber`: JavaScript's JSON values, truthiness, string
  operations and `Number()`.
- `Store`: directories, last-write-wins writes and the checkpoint files.
- `Sheet`, `Lookup`: spreadsheet rows and the last-row-wins lookup tables.
- `Device`: requests, answers and the PIN test.
- `FetchItems`: stage 1.
- `CreditNoteRequests`: stage 2.
- `SubmitRecords`: the submit state machine shared by stages 3 and 5.
- `ProcessCreditNotes`: stage 3.
- `CorrectInvoices`: stage 4.
- `ProcessCorrectInvoices`: stage 5.

Some behaviour of the code is easy to miss, and the model keeps it as written:

- **Success and error artifacts.** Stages 3 and 5 never delete an older
  `${n}_error.json` when they later write `${n}.json`, so both files can exist
  for one record. Stage 1 writes success and failure to the same `${n}.json`.
- **What gets checkpointed.** Stage 1 checkpoints every number it attempts:
  also those whose device was missing, whose PIN failed or whose fetch threw
  (`FetchItems.CheckpointsAreAttempted`). Stages 3 and 5 checkpoint only
  accepted records (`SubmitRecords.CheckpointedIffDeviceAccepts`).
- **Device lookup.** Stage 1 looks `config.devices` up by the invoice number
  itself. Stages 3 and 5 look it up by the device number from the spreadsheet,
  and use the key `"undefined"` when a relevant number has no device number
  (`SubmitRecords.DeviceKey`).
- **Bad records.** Stage 2 throws out of its loop when `messages` is truthy but
  not a string, and when `items` holds a `null`. Stage 4 throws when the
  checkpoint file or a request file does not parse, and when the request's
  `items` is not an array or holds a `null`. The model records this as
  `Ending.ThrewAt(i)` or `Ending.CheckpointFileThrew`, and the records after
  that point are not processed.
- **Trimming in stage 3.** Stage 3 builds its device map under the trimmed
  relevant number of each file name. It looks the map up under the untrimmed
  one, so a file name with surrounding white space finds no device.

## Model

| member | source | states |
|---|---|---|
| `Store.ReadProcessed` | step1_fetchInvoiceItems.js:20-27 | a missing or unparseable checkpoint file reads as the empty list, never as an error |
| `Store.WriteProcessed` | step1_fetchInvoiceItems.js:30-36 | after recording a key the file is a saved list holding it; the old list is a prefix of the new one, which has at most one more entry; a key already present leaves the file unchanged; no duplicates are introduced; an unparseable file becomes the one-key list |
| `Store.RecordAllAppends` | step3_processCreditNotes.js:12-18 | recording keys one by one keeps the list append-only; it then holds exactly the old keys and the recorded ones; every appended entry was absent before; a duplicate-free list stays duplicate-free |
| `Store.RecordAllStable` | step5_processCorrectInvoices.js:28-34 | recording keys that are all present leaves the file as it was |
| `Store.RecordAllIdempotent` | step5_processCorrectInvoices.js:28-34 | recording the same keys a second time changes nothing |
| `Store.WriteAllIdempotent` | step2_buildCreditNoteRequests.js:51-54 | repeating the same file writes leaves the directory as the first writes left it |
| `Store.WriteAllOverlay` | step2_buildCreditNoteRequests.js:51-54 | the writes overlay the directory: the result is the old directory overridden by what the writes alone produce |
| `Store.WriteAllLast` | step3_processCreditNotes.js:128-131 | a file name holds the document of the last write to it |
| `Store.CollectValue` | step4_createCorrectInvoices.js:91-94 | a name that every writing record writes with the same document holds that document after the loop |
| `Store.CollectLast` | step2_buildCreditNoteRequests.js:51-54 | a name written by a record and by no later record holds that record's document after the loop |
| `Store.CollectFrame` | step4_createCorrectInvoices.js:78-96 | a name that no record's artifact uses keeps its old content |
| `Sheet.NonEmptyCells` | step1_fetchInvoiceItems.js:63-70 | the collected texts are exactly the present, truthy cells of the column, at most one per row; when every row has the cell, they are the rows' cells one for one, in row order |
| `Sheet.NonEmptyCellsConcat` | step1_fetchInvoiceItems.js:63-70 | collecting keeps the row order: the texts of two blocks of rows are those of the first block followed by those of the second |
| `FetchItems.RelevantNumbers` | step1_fetchInvoiceItems.js:63-70 | the row loop collects the truthy column-B texts in row order |
| `Device.PinFromEnv` | step1_fetchInvoiceItems.js:6 | the PIN is the environment value when it is non-empty, and "0000" otherwise |
| `Device.Resolve` | step1_fetchInvoiceItems.js:86-87 | a device address is found exactly when the table has a non-empty address under the name |
| `FetchItems.Process` | step1_fetchInvoiceItems.js:80-139 | a number in the snapshot is skipped with no request; a missing device sends nothing, exactly when the number is new and the table has no address for it; a request for the transaction is sent only in the fetch verdicts |
| `FetchItems.ProcessFollowsDevice` | step1_fetchInvoiceItems.js:96-139 | the first request is the PIN request to the number's device; the PIN verdict is a throw exactly when that call threw, with its message, and a refusal carries the reply, which is not "0100"; the transaction is requested exactly when the PIN call answered "0100"; the fetch verdict is the device's answer to that request, or its thrown message |
| `FetchItems.FetchedIffDeviceAnswers` | step1_fetchInvoiceItems.js:96-131 | a number is fetched exactly when it is new, its device has an address, the PIN call answered "0100" and the transaction call answered; its file then holds that answer |
| `FetchItems.Artifact` | step1_fetchInvoiceItems.js:87-138 | every attempted number writes `${n}.json`: the raw transaction on success; on failure `{error}` with "Device IP not found for this invoice number", "PIN verification failed: " and the message, "Invalid pin verification", or the fetch's message |
| `FetchItems.FetchOne` | step1_fetchInvoiceItems.js:80-140 | one iteration writes the record's artifact and checkpoints every number not in the snapshot |
| `FetchItems.FetchInvoiceItems` | step1_fetchInvoiceItems.js:52-143 | the stage's verdicts, writes, checkpoint file and device traffic are those of its numbers; no sheet or no numbers changes nothing |
| `FetchItems.FetchAll` | step1_fetchInvoiceItems.js:80-141 | the loop's verdicts, writes, checkpoint file and device traffic are those of its numbers, in order |
| `FetchItems.CheckpointsAreAttempted` | step1_fetchInvoiceItems.js:93-140 | a number is checkpointed by a run exactly when it is one of the run's numbers and was not in the snapshot, whatever the outcome |
| `FetchItems.RunCoverage` | step1_fetchInvoiceItems.js:79-140 | after a run the checkpoint list holds exactly the old keys and the run's numbers, and each attempted number has its `${n}.json` |
| `FetchItems.AllCheckpointed` | step1_fetchInvoiceItems.js:79-84 | numbers that are all in the snapshot cause no write, no checkpoint and no request |
| `FetchItems.SecondRunIsQuiet` | step1_fetchInvoiceItems.js:79-84 | a second run over the same sheet writes, checkpoints and sends nothing, and skips every number |
| `Seqs.Filter` | step2_buildCreditNoteRequests.js:38 | the filtered list holds exactly the elements that pass the test, and is no longer than the input |
| `Seqs.FilterConcat` | step2_buildCreditNoteRequests.js:38 | filtering keeps the order: the filter of two lists joined is the two filters joined |
| `Seqs.FilterMultiplicity` | step2_buildCreditNoteRequests.js:38 | an element that passes is kept as many times as it occurs, and an element that fails is dropped |
| `Text.IndexOf` | step2_buildCreditNoteRequests.js:49 | the result is the first occurrence at or after the start, or none if there is no occurrence |
| `Text.RemoveFirst` | step2_buildCreditNoteRequests.js:49 | `replace('.json', '')` removes only the first occurrence: a name without one is unchanged; otherwise the result is the text before the first occurrence followed by the text after it |
| `Text.RemoveJsonExt` | step2_buildCreditNoteRequests.js:49 | removing ".json" from `n + ".json"` gives `n` back when `n` holds no ".json" |
| `Text.Lower` | step2_buildCreditNoteRequests.js:48 | `toLowerCase` on ASCII: every character is mapped, A-Z to a-z and all others unchanged, keeping the length |
| `CreditNoteRequests.CreditNoteItem` | step2_buildCreditNoteRequests.js:13-20 | a request item carries the item's `name` and `totalAmount`, `hsCode` exactly when it is truthy, and nothing else |
| `JsNumber.Add` | step2_buildCreditNoteRequests.js:21 | a sum is finite exactly when both operands are |
| `JsNumber.DecimalTextIsItsValue` | step2_buildCreditNoteRequests.js:21 | `Number()` of a decimal digit text, with white space around it, is its value |
| `JsNumber.DigitTextToNumber` | step2_buildCreditNoteRequests.js:21 | `Number()` of a trimmed digit string without a radix prefix is the digits' decimal value |
| `CreditNoteRequests.TotalIsSum` | step2_buildCreditNoteRequests.js:21 | the reduce gives a finite total exactly when every amount converts to a finite number, and that total is then the sum of the amounts |
| `CreditNoteRequests.TotalFinite` | step2_buildCreditNoteRequests.js:21 | the reduce's total is finite exactly when every amount converts to a finite number |
| `CreditNoteRequests.TotalValue` | step2_buildCreditNoteRequests.js:21 | when every amount is finite, the total is the ordinary sum of the converted amounts |
| `CreditNoteRequests.BuildCreditNoteRequest` | step2_buildCreditNoteRequests.js:12-35 | the fixed header (`invoiceType` 0, `transactionType` 1, cashier ADMIN, the given relevant number); the items one for one and in order; one cash payment of the items' total; absent items give no items and amount 0 |
| `CreditNoteRequests.PaymentIsSumOfItems` | step2_buildCreditNoteRequests.js:21-33 | the payment amount is the sum of the source items' `totalAmount`s, or null when one of them is not a finite number |
| `CreditNoteRequests.Decide` | step2_buildCreditNoteRequests.js:42-58 | an unparseable file is skipped; a request is built exactly for a successful response with a non-empty items array; a non-string truthy `messages` or a null item throws |
| `CreditNoteRequests.RequestOf` | step2_buildCreditNoteRequests.js:49-54 | a file writes exactly when its request is built, under its relevant number plus ".json" |
| `CreditNoteRequests.Stop` | step2_buildCreditNoteRequests.js:39-59 | the loop gets through every file before the first that throws |
| `CreditNoteRequests.BuildCreditNoteRequests` | step2_buildCreditNoteRequests.js:37-61 | the stage writes the requests of the considered files up to the first that throws, and reports where it stopped |
| `CreditNoteRequests.BuildRequests` | step2_buildCreditNoteRequests.js:39-59 | the loop writes exactly the requests of the files before the first that throws |
| `CreditNoteRequests.BuildOne` | step2_buildCreditNoteRequests.js:40-58 | one file ends the loop exactly when its decision is to throw; otherwise it writes its request exactly when one is built |
| `CreditNoteRequests.RequestsWritten` | step2_buildCreditNoteRequests.js:48-54 | every successful file the loop reached has its request; the request holds the document built from that file unless a later reached file writes the same name; every new name is the request of such a file; every name no reached file writes is unchanged |
| `CreditNoteRequests.RerunSameRequests` | step2_buildCreditNoteRequests.js:51-54 | running the stage again over the same responses leaves the request directory as it is |
| `CreditNoteRequests.SameName` | step2_buildCreditNoteRequests.js:49-52 | a response file named after a relevant number writes its request under the same file name |
| `Text.Trim` | step3_processCreditNotes.js:51-52 | the trimmed text neither starts nor ends with white space; it is an infix of the input, and every character cut off before or after it is white space |
| `Text.TrimIdempotent` | step3_processCreditNotes.js:59-61 | trimming twice is trimming once |
| `Lookup.AssignLastWins` | step3_processCreditNotes.js:47-55 | filling a table row by row keeps exactly the assigned keys, each with the value of the last row assigning it |
| `Lookup.LastWinsUnique` | step3_processCreditNotes.js:47-55 | "last row wins" determines the table |
| `Lookup.DeviceColumns` | step3_processCreditNotes.js:47-55 | the row loop maps trim(B) to trim(C) for every row with both truthy, a later row overwriting |
| `Lookup.DeviceTable` | step3_processCreditNotes.js:47-55 | the spreadsheet device table is "last row wins" over the rows' entries |
| `Lookup.DeviceNumbersTrimmed` | step3_processCreditNotes.js:52-61 | the device numbers in the table are already trimmed |
| `Lookup.LastRowWins` | step3_processCreditNotes.js:47-55 | a key's device number is the entry of the last row with that relevant number |
| `ProcessCreditNotes.RequestDevicesKeys` | step3_processCreditNotes.js:57-63 | the device map holds exactly the spreadsheet entries with a non-empty device number that some request file names, each trimmed |
| `ProcessCreditNotes.RequestColumns` | step3_processCreditNotes.js:57-64 | the file loop builds the request-filtered device table of the `.json` files' trimmed names |
| `ProcessCreditNotes.BuildRelevantNumberToDeviceMapFromRequests` | step3_processCreditNotes.js:38-66 | the map the function builds is the request-filtered spreadsheet table, or empty without a spreadsheet |
| `ProcessCreditNotes.DeviceMapKeys` | step3_processCreditNotes.js:47-63 | a key of the device map is named by a `.json` request file and has a non-empty device number, that of the last spreadsheet row with that relevant number |
| `SubmitRecords.Process` | step3_processCreditNotes.js:82-160 | a checkpointed key or an unparseable file is skipped without a request; an unresolved device sends nothing, exactly when the file is new, parses and has no address; a request goes out exactly when the file reaches a device; the document goes out only in the submit verdicts; accepted answers have their own `mtn`, rejected ones do not |
| `SubmitRecords.ProcessFollowsDevice` | step3_processCreditNotes.js:99-160 | the first request is the PIN request to the record's device; the PIN verdict is a throw exactly when that call threw, with its message, and a refusal carries the reply, which is not "0100"; the document is submitted exactly when the PIN call answered "0100"; the submit verdict is the device's answer to the document, or its thrown message |
| `SubmitRecords.AcceptedIffDeviceAccepts` | step3_processCreditNotes.js:109-146 | a file is accepted exactly when it reaches a device that answers "0100" to the PIN and answers the submitted document with an object that has its own `mtn` |
| `SubmitRecords.Artifact` | step3_processCreditNotes.js:99-159 | a skipped record writes nothing; every other record writes one file: `${n}.json` on acceptance, `${n}_error.json` otherwise; the raw body of an answer is kept; the error documents are "Device IP not found for this device number", "PIN verification failed: " and the message, "Invalid pin verification", or the thrown submit's message |
| `SubmitRecords.SubmitOne` | step3_processCreditNotes.js:82-160 | one iteration writes the record's artifact, and checkpoints the key exactly when the record was accepted |
| `SubmitRecords.SubmitAll` | step3_processCreditNotes.js:81-161 | the loop's verdicts, writes, checkpoint file and device traffic are those of its files, in order |
| `SubmitRecords.CheckpointsAreAccepted` | step3_processCreditNotes.js:139-146 | a key is checkpointed by a run exactly when some file with that key was accepted |
| `SubmitRecords.CheckpointedIffDeviceAccepts` | step3_processCreditNotes.js:109-146 | a run checkpoints a key exactly when the device accepted some file with that key: PIN "0100", then an answer with its own `mtn` |
| `SubmitRecords.RunWritesArtifacts` | step3_processCreditNotes.js:99-160 | after a run every non-skipped file's artifact exists |
| `SubmitRecords.RunFrame` | step3_processCreditNotes.js:99-160 | a name no file's artifact uses is left as it was |
| `SubmitRecords.CheckpointedHaveArtifact` | step3_processCreditNotes.js:139-146 | every key a run adds to the checkpoint file has its success artifact `${n}.json` |
| `SubmitRecords.AcceptedArtifact` | step3_processCreditNotes.js:140-146 | an accepted file's key is checkpointed, and its `${n}.json` holds the device's response unless a later file writes the same name |
| `SubmitRecords.SecondRun` | step3_processCreditNotes.js:84-89 | a rerun skips every file the first run accepted or skipped, and only appends keys that are new |
| `ProcessCreditNotes.ProcessCreditNotes` | step3_processCreditNotes.js:80-163 | the stage runs the submit loop over the `.json` request files, with the request-filtered device map and the snapshot read before the loop |
| `CorrectInvoices.TrimmedOrEmpty` | step4_createCorrectInvoices.js:31-33 | a missing or falsy cell gives '', and the text is trimmed |
| `CorrectInvoices.BuyerEntry` | step4_createCorrectInvoices.js:28-35 | a row contributes exactly when column B is truthy, under trim(B); its A, F and G texts are trimmed, '' when missing |
| `CorrectInvoices.BuildRelevantNumberToBuyerMap` | step4_createCorrectInvoices.js:16-38 | the row loop builds the buyer table of the data rows, or an empty one without a spreadsheet |
| `CorrectInvoices.BuyerColumns` | step4_createCorrectInvoices.js:23-36 | the row loop gives every row with a truthy column B its buyer block, in row order, a later row overwriting |
| `CorrectInvoices.BuyerMapKeys` | step4_createCorrectInvoices.js:23-35 | the buyer table has a key exactly when some data row's truthy column B trims to it |
| `CorrectInvoices.BuyerMapLastRow` | step4_createCorrectInvoices.js:23-35 | a key's buyer block is the one of the last row with that relevant number |
| `CorrectInvoices.CorrectItem` | step4_createCorrectInvoices.js:45-53 | an invoice item has the item's name, its quantity or 1 when falsy, `totalAmount` or else `unitPrice` as unit price, `hsCode` only when truthy, nothing else; its quantity is always truthy |
| `CorrectInvoices.BuildCorrectInvoice` | step4_createCorrectInvoices.js:40-69 | the fixed header (`invoiceType` 0, `transactionType` 0, cashier ADMIN) and exactly one bold thank-you line; the items one for one and in order; the credit note's payment unchanged; the buyer block and trader invoice number from the buyer info |
| `CorrectInvoices.ReissueOfCreditNote` | step4_createCorrectInvoices.js:45-66 | a credit note built by stage 2 never makes the builder throw; each invoice item has quantity 1 and the original `totalAmount` as unit price; the payment is the credit note's cash line |
| `CorrectInvoices.CreditNoteIsBuildable` | step4_createCorrectInvoices.js:45 | a request built by stage 2 has an items array without nulls, one item per source item, each copying its source item |
| `CorrectInvoices.ReissuedItem` | step4_createCorrectInvoices.js:46-51 | an invoice item made from a stage-2 request item has the source's name, quantity 1, the source's truthy `totalAmount` as unit price (else none) and `hsCode` exactly when the source's is truthy |
| `CorrectInvoices.Decide` | step4_createCorrectInvoices.js:79-90 | a missing request file is skipped; a request that does not parse throws even without a buyer; missing buyer info, PIN or name skips; otherwise the invoice is built from the request and the buyer |
| `CorrectInvoices.InvoiceOf` | step4_createCorrectInvoices.js:90-94 | a key writes exactly when its invoice is built, to `${n}.json` |
| `CorrectInvoices.Stop` | step4_createCorrectInvoices.js:78-96 | the loop gets through every key before the first that throws |
| `CorrectInvoices.CreateCorrectInvoices` | step4_createCorrectInvoices.js:71-98 | without a checkpoint file nothing is written; an unparseable one throws before any write; otherwise the invoices of the checkpointed keys are written in list order up to the first key that throws |
| `CorrectInvoices.CreateInvoices` | step4_createCorrectInvoices.js:78-96 | the loop writes exactly the invoices of the keys before the first that throws |
| `CorrectInvoices.CreateOne` | step4_createCorrectInvoices.js:79-95 | one key ends the loop exactly when its decision is to throw; otherwise it writes its invoice exactly when one is built |
| `CorrectInvoices.InvoicesWritten` | step4_createCorrectInvoices.js:78-96 | every reached key whose invoice was built holds that invoice in `${n}.json`; every other name is unchanged |
| `ProcessCorrectInvoices.BuildRelevantNumberToDeviceMap` | step5_processCorrectInvoices.js:37-54 | the device map is the spreadsheet table of all rows, whatever files exist, or empty without a spreadsheet |
| `ProcessCorrectInvoices.DeviceMapRows` | step5_processCorrectInvoices.js:44-52 | a relevant number is in the device map exactly when a row with truthy B and C trims B to it; its device number comes from the last such row |
| `ProcessCorrectInvoices.ProcessCorrectInvoices` | step5_processCorrectInvoices.js:68-150 | the stage runs the submit loop over the `.json` invoice files, with the unfiltered device map and the snapshot read before the loop |
| `ProcessCorrectInvoices.RerunAddsNoCheckpoints` | step5_processCorrectInvoices.js:71-77 | a second run with the same inputs and devices skips every invoice the first run accepted, sends nothing for it, and checkpoints no key already in the file |

## Left out

- Module-load code and wiring are not modelled: directory creation,
  `require.main` dispatch, `module.exports`, and the Express trigger routes in
  `main.js`. Stage 1's duplicate `config` declaration and its undefined
  `axiosInstance`/`agent` are left out too, and the model describes the
  function bodies as written.
- Stage 1's module-level `deviceIP` (the first configured device) is never used
  by the loop, so it is not modelled.
- Logging (`console.*`) is not modelled.
- Spreadsheet parsing is not modelled: `decode_range`, `encode_cell` and the
  choice of the first sheet. A sheet is its rows, header first. A cell is its
  `v.toString()` text, or none when it is missing or its value is falsy. A
  spreadsheet file that exists but fails to read is left out.
- File system effects are not modelled: `readdirSync` order is an input list,
  `existsSync` is map membership, and JSON text and its formatting are not
  modelled. A parse failure is the `Malformed` content.
- A checkpoint file that parses to something other than an array of strings
  is not modelled.
- Lower: `toLowerCase` is modelled on ASCII letters only. JavaScript also
  lowercases other letters, and a few of them change the length (U+0130 becomes
  two code units). No such letter lowercases to a letter of "success", so the
  success test of stage 2 is not affected.
- CheckpointedHaveArtifact: a checkpointed key's `${n}.json` need not hold the
  device's response. A key `X_error` has the success artifact `X_error.json`,
  which is also the error artifact of a later file `X.json`, so a later failure
  of `X.json` overwrites it. `SubmitRecords.AcceptedArtifact` states the content
  for the case where no later file writes that name.
- JsNumber.Add: amounts are reals. IEEE-754 rounding of the sum and the
  conversion of very long digit strings are not modelled.
  `JsNumber.StringToNumber` covers decimal, exponent, `Infinity` and
  `0x`/`0o`/`0b` texts.
- The HTTP layer is not modelled: axios, timeouts, headers and the
  `keepAlive` agent. Each call is an answer of the `Network` input. A timeout,
  a transport error or a non-2xx status is a thrown message.
- Members of a JSON object are unordered in the model, so the key order of the
  written documents is not captured.
- Property reads along an object's prototype chain are not modelled. For
  example, a relevant number such as `constructor` would find an inherited
  member of the buyer table. The model reads own members only.
- Runs are strictly sequential, and two stage invocations at the same time are
  not modelled.
