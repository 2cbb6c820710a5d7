# Verified model of the simulation service

This project models the parts of the simulation service in which a mistake is silent: the codec of a
run's per-timestep series, the delivery protocol between the API, the broker and the workers, the
allocation cascade, and the pre-flight and pivot of metering readings. `dafny verify dfyconfig.toml`
verifies all of it.

Code that works by changing things step by step is modelled by methods and classes, each proved against a
function or relation that says what it must compute; the laws are lemmas about those functions. The
delivery protocol is a state machine over single calls, because what matters there is every interleaving;
the handler is also written as the worker runs it, and proved to be a run of that machine.

## The four parts

**Series codec.** `Splitter` is the string splitter of the reader: a decomposition of a byte document into
whole string tokens and the runs between them is shown to exist and to be unique, so what the streaming
splitter hands out, its adjacent runs merged, can depend on the bytes alone and not on the chunks.
`PassThrough` shows that the streaming response is that document with every `NaN`, `Infinity` and
`-Infinity` outside a string replaced, and `ResponseText` that of a written result this is one JSON value with
null in their places. `JsonText` and `Printer` show that the writer's pieces are the
recursive print of one value, and `IterationReader` and `RoundTrip` that reading any written result, in
any chunks, gives back each iteration's number and its own series, sampled, whatever the consumers are
called. `JsonParser` is a reader of whole JSON texts (RFC 8259), and `Documents` says what it finds in a written
result and in the response: every series of iterations and consumers under its name. Strings follow section 7.

**Delivery protocol.** `Protocol` has the row, its lock, the input and result objects, the broker, the
requests that start and delete a simulation, and every delivery at its own point of `_handle_message`.
`Outcomes`, `Redelivery`, `StuckRows` and `Crashes` are theorems about every run, from the first upload on:
overlapping deliveries, rollbacks, lost acks and workers that die between any two calls included. `Histories` and
`Records` tie every state to the calls made on the way to it: no outcome, reason, event or object without its cause.
`Worker` is the handler in the worker's own form, with arbitrary interference at every await.
`Settle` is about the calls one handler and its heartbeat make on the message.

**Allocation cascade.** `Cascade` is `run_simulation` over exact reals. `Ledgers` accounts for all supply and
demand, `Prorata` shows what keys of PRORATA consumers only achieve and that no other key with the same
fractions achieves more, `Rates` bounds the rates and compares whole keys, `SharingRate` says when the
key-level sharing rate is at most 1 on given data, `Handouts` and `RateBound` what its least bound over all
data is, `Equivariance` is about the order participants are listed in, `ProblemSize` about what the size limit
limits.

**Metering data.** `Metering` is the meaning of the period summary, `Preflight` the verdict made from it,
`Pivot` the wide frame and `Verdict` the conversion and what the verdict is worth. `UploadShape` is the count
made of a CSV upload.

## Where the code does not do what one would expect

- A FAILED row can have a result tree: `_mark_failed_to_queue` writes FAILED without testing the status, so when
  the publish call fails although the message arrived, a stored and announced success is overwritten
  (`Outcomes.SuccessOverwritten`). That happens exactly when the row is SUCCESS at that call
  (`Outcomes.MarkOverwrites`), and in no other step (`Outcomes.OnlyMarkOverwrites`).
- A row can stay PENDING for good, short of its deletion. That is so exactly when its request has returned and
  either its message was not published, or it was delivered eleven times to handlers that have ended or can only
  ask for another delivery (`StuckRows.StaysPendingExactly`, with a run for each: `StuckRows.UnpublishedPending`,
  `StuckRows.StuckPending`). Workers are done with it earlier when its message was not published: the request may
  still mark it FAILED (`StuckRows.AbandonedExactly`, `StuckRows.UnhandledStaysPending`). Once all eleven deliveries
  have ended none was acked, and the last two, if their counts could be read, ended without recording the failure;
  with counts that cannot be read they may also have asked for another delivery (`StuckRows.PendingAtEnd`,
  `StuckRows.StuckUncounted`).
- The sharing rate of a key divides by what its first iteration had, and nothing limits FIXED percentages or their
  sum, so it can exceed 1 (`Rates.SharingRateAboveOne`). Take fractions and FIXED percentages of at least 0, and
  iterations behind the first that hand out at most all they have. The rate is then at most 1 whatever the
  nonnegative data exactly when the first fraction is 0, or for every consumer the fractions, each times what its
  iteration hands out when that consumer has all the demand, add up to no more than the first
  (`RateBound.NeverAboveOneExactly`). The greatest of these sums over the first fraction is the least bound of the
  rate (`RateBound.BoundIsExact`), for one FIXED iteration the sum of its percentages
  (`RateBound.SingleIterationBound`, `RateBound.BoundIsReached`). On given nonnegative data, the rate of a PRORATA
  key is at most 1 exactly when the first iteration has no energy or at least the energy served
  (`SharingRate.ProrataSharingRate`). For any key whose multipliers are nonnegative and sum to at most 1, it is at
  most 1 when the fractions give out no more than the first one (`SharingRate.SharingRateGuard`).
- The pre-flight accepts a key without participants, one that names a meter twice, and one that uses the
  reserved column's name; none of these can be solved, and every other accepted one can
  (`Verdict.RepeatedNameAccepted`, `Verdict.VerdictIsSound`).
- The comment in `start_simulation` says the row count of an upload errs high. It does for readers that end
  records at line feeds (`UploadShape.CountIsEnough`). For readers that end them at a carriage return too, as the
  worker's does, it can miss rows (`UploadShape.ReturnsAreMissed`); it is high enough exactly when no more records
  end at a carriage return than there are line feeds that end none (`UploadShape.CountIsEnoughExactly`), so always
  when each carriage return outside quotes has its line feed (`UploadShape.PairedIsEnough`). Quotes open a field at
  its start only, elsewhere they are text.

## Model

| member | source | states |
|---|---|---|
| Splitter.SplitExists | api/simulation/timeseries_reader.py:49-87 | Every byte document is a sequence of complete string tokens and quote-free runs, followed by an opened string or nothing |
| Splitter.SplitIsUnique | api/simulation/timeseries_reader.py:49-87 | That decomposition is the only one, so it depends on the bytes alone |
| Splitter.ReadOutside | api/simulation/timeseries_reader.py:61-69 | Outside a string, one turn of the loop takes the bytes up to the next quote as a run, and makes progress |
| Splitter.ReadToStop | api/simulation/timeseries_reader.py:75-85 | Inside a string, one turn takes the bytes up to the next quote or backslash, and makes progress |
| Splitter.ReadChunk | api/simulation/timeseries_reader.py:58-85 | One chunk extends the pieces, the open string and its pending escape as if the document had come whole |
| Splitter.Pieces | api/simulation/timeseries_reader.py:49-87 | For every chunking: nothing is lost, every string piece is one whole token, no other piece holds a quote, merged pieces are the document's decomposition, and it raises exactly when the document ends inside a string |
| PassThrough.NullsIsOnePass | api/simulation/timeseries_reader.py:90-93 | The three replacements in turn do what one left-to-right pass over the three tokens does |
| PassThrough.NullsOfSplits | api/simulation/timeseries_reader.py:111-118 | Cutting a run behind a byte that occurs in no token cuts no token, so the parts can be replaced separately |
| PassThrough.NullsOfLeavesNone | api/simulation/timeseries_reader.py:90-93 | No NaN, Infinity or -Infinity is left anywhere in a replaced run |
| PassThrough.NulledDocumentSplit | api/simulation/timeseries_reader.py:96-124 | The replaced document has the original's strings unchanged and in order, and no non-finite token between them |
| PassThrough.NulledDocumentUnchanged | api/simulation/timeseries_reader.py:96-124 | A document without such tokens outside its strings passes byte for byte |
| PassThrough.CutRun | api/simulation/timeseries_reader.py:114-116 | The loop keeps back exactly the letters of non-finite tokens that the run ends with |
| PassThrough.AddToResponse | api/simulation/timeseries_reader.py:104-118 | One piece keeps the invariant of what has been sent and what is held back |
| PassThrough.AsApiResponse | api/simulation/timeseries_reader.py:96-124 | For every chunking the joined output is prefix, document with its non-finite tokens replaced, suffix; every chunk but the last reaches the flush size; a document cut inside a string yields only a prefix of that |
| JsonText.StringRoundTrip | worker/timeseries.py:88-90 | Decoding what a name is written as gives the name back, escapes and surrogate pairs included |
| JsonText.EncodedIsToken | worker/timeseries.py:88-90 | Whatever a name holds, its text is a single string token of the splitter |
| JsonText.SplitOfPrinted | worker/timeseries.py:59-90 | In the text of any value the splitter finds exactly the strings that were printed, whole and in order |
| Printer.WriteMember | worker/timeseries.py:84-85 | Writes one member as the printer of whole objects would, after its comma |
| Printer.WriteIteration | worker/timeseries.py:69-80 | The bytes written for an iteration are the print of its object, consumers included |
| Printer.WriteJson | worker/timeseries.py:59-81 | The bytes written piece by piece are the recursive print of the whole payload |
| IterationReader.ReadMerged | api/simulation/timeseries_reader.py:145-169 | Runs cut by a chunk boundary leave the reader in the state the merged run would |
| IterationReader.IterationCollector.EndMember | api/simulation/timeseries_reader.py:179-193 | The member being read ends as the reference reader says, or raises where it does |
| IterationReader.IterationCollector.String | api/simulation/timeseries_reader.py:145-151 | A string token is a key only at depth two, and starts one of the iteration's own members or none |
| IterationReader.IterationCollector.CountBraces | api/simulation/timeseries_reader.py:156-169 | Searching for the next brace of either kind counts every brace, one by one, and opens an iteration at depth two |
| IterationReader.IterationCollector.Run | api/simulation/timeseries_reader.py:153-169 | A run is appended to the value being read and its braces are counted |
| IterationReader.IterationCollector.Finish | api/simulation/timeseries_reader.py:171-177 | The iterations read, validated, and the stride or 1 |
| IterationReader.ReadIterations | api/simulation/timeseries_reader.py:196-211 | For every chunking, what is read is a function of the document's bytes alone, failures included |
| RoundTrip.ReadDeep | api/simulation/timeseries_reader.py:127-169 | Below an iteration no value leaves a trace in the reader, whatever its strings hold |
| RoundTrip.ReadWritten | api/simulation/timeseries_reader.py:127-211 | Reading what was written gives each iteration's number and own series at 0, stride, 2 stride, ... and nothing else: None exactly for a value that is not finite, else the text written for it; the stride is the least that leaves at most the number of points asked for of the first series |
| RoundTrip.SampledPoints | api/simulation/timeseries_reader.py:189-193 | Sampling one series keeps exactly the timesteps that are multiples of the stride, in order, each as written or None when not finite; the stride is the least that leaves at most the number of points asked for |
| RoundTrip.ReadIsBounded | api/simulation/timeseries_reader.py:196-211 | Reading a written result whose series have one length: the stride is the least for this length, and every series returned holds its own values at the multiples of it, as written or None, at most the number of points asked for |
| RoundTrip.CeilIsLeast | api/simulation/timeseries_reader.py:192-192 | The stride's quotient is the least number of steps that covers the series |
| RoundTrip.WriteThenRead | api/simulation/timeseries_reader.py:196-211 | Any chunking of a written result reads back as that result, sampled so |
| ResponseText.NulledPrint | api/simulation/timeseries_reader.py:90-124 | Replacing the tokens in the text of any value gives the text of the value with null for each number JSON does not have |
| ResponseText.WriteThenRespond | api/simulation/timeseries_reader.py:96-124 | For any chunking of a written result the response is the text of one object: `data` the result with such nulls, `error_code` 0 |
| JsonParser.ParsePrinted | worker/timeseries.py:88-90 | A reader of whole JSON texts gets any value back from its text |
| Documents.DocumentSays | worker/timeseries.py:59-81 | In a written result that reader finds every iteration's number and series, and every consumer's name and series, under their names and in order |
| Documents.ResponseSays | api/simulation/timeseries_reader.py:96-124 | In the response too, under `data`, with null exactly for the values that are not finite, and `error_code` 0 |
| Documents.PrintIsAscii | worker/timeseries.py:88-90 | Whatever names hold, what is written is printable ASCII |
| Outcomes.RunKept | worker/persistence.py:100-227 | The invariant of row, lock, objects, broker and every handler's point holds after every run |
| Outcomes.ChangedOnce | worker/persistence.py:100-177 | In every run workers change the row's status at most once, and announce at most that one status, after its commit |
| Outcomes.WrittenAreChanges | worker/persistence.py:118-135 | The history of worker commits in the state is the list of status changes made by worker steps along the run |
| Outcomes.StatusPromises | worker/persistence.py:110-151 | SUCCESS has exactly one result tree and a stored result; PENDING has no tree; FAILED has one if and only if the commit history is a worker's success |
| Outcomes.MarkOverwrites | api/simulation/service.py:377-388 | `_mark_failed_to_queue` leaves a FAILED row with a tree if and only if the row is SUCCESS when it runs |
| Outcomes.OnlyMarkOverwrites | api/simulation/service.py:377-388 | No other step makes a FAILED row with a tree |
| Outcomes.SuccessOverwritten | api/simulation/service.py:377-388 | A run in which a stored, announced success ends as a FAILED row with its tree |
| Outcomes.FinalStays | worker/persistence.py:118-135 | A status that is not PENDING is changed by nothing but `_mark_failed_to_queue` and deletion |
| Outcomes.AckedIsFinal | worker/dispatcher.py:301-323 | A message is acked only when its row is gone or no longer PENDING, and then that stays so |
| Outcomes.InputNeverMissing | worker/dispatcher.py:606-622 | A PENDING row read from a file always has its input, and no row ever records that it was missing |
| Histories.RunTells | worker/dispatcher.py:426-574 | In every run, the point each handler is at has its cause in its own calls: it solves only what it saw PENDING, with key, input and size accepted; it saves only what it solved; it records a reason only for what it met; it asks again only after a transient failure, a crash below the limit, or a failed save; acked, it deletes the input unless that was missing, the row gone or the failure unknown |
| Records.OutcomeHasCause | worker/persistence.py:100-227 | In every run, a status a worker made SUCCESS was committed by a handler whose solve succeeded, and the reason of a FAILED row has its own cause in the calls of the handler that committed it, or in the marking of a row that could not be queued |
| Records.BrokerHistory | worker/dispatcher.py:276-323 | In every run, published, acked, committed and announced are exactly what the calls made say, and deliveries and solves are counted as made |
| Records.NoDeliveryAfterAck | worker/dispatcher.py:301-323 | In every run no delivery follows an ack that has arrived |
| Records.ObjectsHistory | api/simulation/service.py:303-388 | In every run, the row is there from its creation to its deletion, the input from its upload to the first deletion of it, the result object once stored until a deletion that read its key deletes it |
| Redelivery.NoWorkPastLimit | worker/dispatcher.py:447-465 | A delivery numbered 10 or more never reads, loads, solves, stores or asks for another delivery |
| Redelivery.BoundedRedelivery | worker/dispatcher.py:125-140 | At most 11 deliveries, at most one solve each, at most 9 solves when the delivery counts can be read |
| Redelivery.LeftPending | worker/dispatcher.py:447-465 | An ended delivery past the limit whose row is still PENDING could not record the failure |
| StuckRows.NoDeliveryExactly | worker/dispatcher.py:136-140 | A PENDING row is in no worker's hands if and only if its message is not published or all eleven deliveries have ended |
| StuckRows.AbandonedExactly | api/simulation/service.py:362-375 | No worker will ever handle it again if and only if its message is not published and the request is past the publish call, or all eleven deliveries have ended |
| StuckRows.PendingAtEnd | worker/dispatcher.py:447-465 | When a PENDING row is in no worker's hands, none of its deliveries was acked, and the last two, where their counts can be read, ended unsettled |
| StuckRows.StaysPendingExactly | api/simulation/service.py:341-388 | A PENDING row stays PENDING on every continuation without its deletion if and only if the request has returned and its message is not published, or was delivered eleven times to handlers that have ended or can only ask for another delivery |
| StuckRows.UnhandledStaysPending | api/simulation/service.py:362-388 | A PENDING row no worker has in hand stays PENDING if and only if its request has returned |
| StuckRows.StuckPending | worker/dispatcher.py:136-140 | A run after which a published row stays PENDING and no delivery ever comes again |
| StuckRows.UnpublishedPending | api/simulation/service.py:341-375 | A run in which the request ends between commit and publish, and the row stays PENDING |
| StuckRows.StuckUncounted | worker/dispatcher.py:360-365 | A run in which all eleven deliveries, their counts unreadable, ask for another one, and the row stays PENDING |
| Redelivery.RunsEnd | worker/dispatcher.py:276-323 | By a rank that every step lowers, no run of requests, deliveries and retries has more than 241 steps |
| Crashes.CrashesThrice | worker/dispatcher.py:548-574 | A solve that crashes every time runs at most three times if deliveries do not overlap and its failure gets recorded |
| Crashes.ThreeCrashes | worker/dispatcher.py:548-574 | A run in which it does run three times: two crashes are retried, the third is not |
| Worker.Delivery.SaveSuccess | worker/persistence.py:100-177 | Claim, result, commit, audit entry and event as steps of the protocol: it returns with the success committed or on a row that was final, and the row tells so; an exception leaves the handler to ask for another delivery |
| Worker.Delivery.SaveFailure | worker/persistence.py:180-227 | Claim, commit, audit entry and event: it returns with the failure and its reason committed or on a row that was final, and the row tells so; an exception leads to the catch-all's write, or leaves the delivery unsettled when it was that |
| Worker.Delivery.Prepare | worker/dispatcher.py:434-513 | Snapshot, limit, key, input and size: the handler goes on to the solve, or stands where what it returns or raises says |
| Worker.Delivery.Process | worker/dispatcher.py:426-545 | Each way `_process` can return or raise leaves the handler where the caller expects it; it has committed a success only after a solve that came back with one, a failure only with a reason that was met |
| Worker.Delivery.HandleMessage | worker/dispatcher.py:276-323 | With any interference at every await and any failures, the handler's execution goes on with the run of the protocol before it and ends; it is acked only on a final row that tells what it has committed and why, commits a success only after a solve that came back with one and a failure only with a reason it met, solves at most once, and stays unsettled only if a call threw or the worker died |
| Settle.SettledOnce | worker/dispatcher.py:326-357 | In every interleaving the calls on a message are in-progress acks, then at most one ack or nak |
| Settle.NothingAfter | worker/dispatcher.py:337-344 | No call follows the ack or nak, not even from a heartbeat that was sending |
| Settle.HeartbeatEnds | worker/dispatcher.py:337-344 | Once the block is left the heartbeat cannot send again |
| Settle.SettledAsLeft | worker/dispatcher.py:301-323 | In every run a message is nak'd if and only if the block was left with a transient failure and the handler went on, and acked if and only if it was dropped, the block finished and the handler went on, or its unhandled failure was recorded |
| Settle.CancelledInside | worker/dispatcher.py:326-344 | A handler that never left the block otherwise, and dropped nothing, makes no ack and no nak, however it was cancelled |
| Settle.SettledAsDecoded | worker/dispatcher.py:276-323 | In every run only a message that could not be read is dropped and only one that could is processed; its input is deleted only after the block finished |
| Settle.HeartbeatBeats | worker/dispatcher.py:337-344 | While the block runs, the heartbeat can always go on |
| Cascade.SafeDivide | simulation/compute.py:45-51 | The quotient where the denominator is not zero and zero elsewhere, filled in place |
| Cascade.LastEntryCounts | simulation/compute.py:96-98 | Of several entries of one name in an iteration the last one counts |
| Cascade.RunIteration | simulation/compute.py:95-190 | One turn of the loop computes the reference iteration and hands on its residuals |
| Cascade.FindMissing | simulation/compute.py:96-102 | The first consumer an iteration does not know, if any |
| Cascade.RunSimulation | simulation/compute.py:54-219 | Succeeds exactly when there are iterations and names, the matrices fit and every iteration knows every name; then its iterations are the cascade of the key and it carries the key's name and description; each failure is named |
| Ledgers.IterationIsFlow | simulation/compute.py:113-131 | An iteration's cells, series and totals are those of a flow with its multipliers |
| Ledgers.CascadeIsChain | simulation/compute.py:104-111 | Each iteration starts from the residuals and the surplus of the one before |
| Ledgers.SupplyLedger | simulation/compute.py:104-127 | At every timestep, production times the sum of the fractions equals the energy consumed, the last surplus, and what multipliers that do not sum to one drop |
| Ledgers.NothingLost | simulation/compute.py:104-127 | At a timestep where every iteration's multipliers sum to one, the production times the sum of the fractions is consumed or left over |
| Ledgers.DemandLedger | simulation/compute.py:119-131 | Per consumer and timestep, and in the key's totals, the consumption is the energy consumed over all iterations plus the last residual |
| Ledgers.TotalsLedger | simulation/compute.py:149-186 | Every total of an iteration is the sum of its consumers' totals |
| Ledgers.RunIsLabelled | simulation/compute.py:149-186 | Every iteration carries its own number and fraction, its consumers, in the order of the names, their names and percentages |
| Rates.KeySupply | simulation/compute.py:192-219 | The key's totals: the sum of the fractions times the whole production is the energy consumed, the last surplus, and what was dropped |
| ProblemSize.TooLargeIsOfCells | shared/problem_size.py:31-40 | A run is too large exactly when each series of its consumers has, over all iterations, more cells than the limit |
| Prorata.WeightsSum | simulation/compute.py:87-89 | The PRORATA weights of a timestep sum to 1, or to 0 when nothing is consumed |
| Prorata.ProrataCollapse | simulation/compute.py:87-127 | On data without negative energy or fractions, a PRORATA key of any number of iterations consumes, at each timestep, the lesser of the demand and the production times the sum of its fractions |
| Prorata.ProrataResiduals | simulation/compute.py:115-119 | On such data, every residual after each of its iterations is the same share of the original consumption |
| Prorata.ProrataIsOptimal | simulation/compute.py:113-121 | On such data, no key with the same fractions and nonnegative multipliers summing to at most 1 consumes more at any timestep |
| Rates.IterationRates | simulation/compute.py:133-147 | Without negative energy, fractions or multipliers, the self-sufficiency rates of an iteration lie in [0, 1] and the total rate times its total energy is the weighted sum of its series, zero branches included; so it is of the sharing rates when the multipliers also sum to at most 1 |
| Rates.KeyRates | simulation/compute.py:196-206 | Without negative energy, fractions or multipliers, the key's self-sufficiency rate lies in [0, 1]; when the multipliers also sum to at most 1, its sharing rate is at most the sum of the fractions over the first |
| Rates.SharingRateAboveOne | simulation/compute.py:204-206 | A run whose key-level sharing rate is 2 |
| SharingRate.ProrataSharingRate | simulation/compute.py:196-206 | On data without negative energy or fractions, the sharing rate of a PRORATA key is at most 1 if and only if its first iteration has no energy, where it is 0, or at least the sum over time of the lesser of demand and production times the fractions |
| SharingRate.SharingRateGuard | simulation/compute.py:196-206 | On such data, a key whose multipliers, known from the key and the consumption, are nonnegative and sum to at most 1 has a sharing rate of at most 1 when its fractions give out no more than the first, or the first is 0 |
| SharingRate.GuardIsExact | simulation/compute.py:196-206 | For all other fractions there are a key with these and data with a sharing rate above 1, equal to the bound of the sum of the fractions over the first |
| RateBound.KeyGives | simulation/compute.py:113-117 | The multipliers of a key with FIXED percentages of at least 0 are nonnegative on all nonnegative data |
| RateBound.KeyShares | simulation/compute.py:113-117 | They sum to at most 1 on all nonnegative data when in each iteration the FIXED percentages sum to at most 1, and to 0 where a consumer is PRORATA |
| RateBound.BoundIsNeeded | simulation/compute.py:113-206 | A bound of the sharing rate over all nonnegative data is, times the first fraction, at least the sum over the iterations of fraction times FIXED percentages, and once more the fraction where it is PRORATA, for each consumer; or the first fraction is 0 |
| RateBound.BoundIsExact | simulation/compute.py:113-206 | And when iterations behind the first hand out at most all they have, exactly these are bounds |
| RateBound.NeverAboveOneExactly | simulation/compute.py:196-206 | So the sharing rate of such a key is at most 1 on all nonnegative data if and only if that sum is at most the first fraction for each consumer, or the first fraction is 0 |
| RateBound.SingleIterationBound | simulation/compute.py:113-206 | For a single iteration the least bound is the sum of the FIXED percentages, plus 1 if a consumer is PRORATA |
| RateBound.BoundIsReached | simulation/compute.py:113-206 | With FIXED consumers only there are data whose sharing rate is that bound, for any number of iterations |
| Rates.ProrataKeyIsOptimal | simulation/compute.py:192-206 | No key with the same fractions and sharing multipliers consumes more in total than the PRORATA key |
| Rates.CascadeExists | simulation/compute.py:95-190 | Every key that knows its consumers has a run, whatever the data |
| Equivariance.CascadeIsUnique | simulation/compute.py:95-190 | A key, its names and its data have one cascade |
| Equivariance.ReorderedKeyRuns | simulation/compute.py:96-102 | Keys that list the same distinct-named consumers in different orders have the same results |
| Equivariance.ReorderedNamesRuns | simulation/compute.py:96-165 | A run on permuted names and rows has the same results with each iteration's consumers permuted, every series and total as it was |
| Metering.SummaryExists | shared/crm_meter_repository.py:169-240 | Every set of readings has a summary |
| Metering.DuplicatesShow | shared/crm_meter_repository.py:63-71 | Row count equals distinct timestamps for every meter if and only if no reading repeats |
| Metering.SummaryAddsUp | shared/crm_meter_repository.py:94-104 | The counts of a summary add up to the number of readings, and its injection to theirs |
| Metering.DuplicatesAre | shared/crm_meter_repository.py:63-71 | The meters named as duplicated are those with more rows than instants, in the summary's order |
| Metering.FetchRows | shared/crm_meter_repository.py:284-298 | Reading in partitions with shared names and instants gives the readings unchanged and in order |
| Preflight.NormalizeOnce | shared/crm_preflight.py:36-44 | A normalised name has no blank at either end and normalises to itself |
| Preflight.NormalizeDrops | shared/crm_preflight.py:36-44 | Normalising removes blanks at the ends and nothing else |
| Preflight.AmongInOrder | shared/crm_preflight.py:88-101 | The matched names, and the unmatched, are those listed or not, in order and as often as they are given |
| Preflight.Evaluate | shared/crm_preflight.py:71-188 | The blockers are exactly the reasons that hold, each once and in order; there are none if and only if the period is acceptable; the warnings are of the matched meters that lack instants, each once and in order, with the instants it has, lacks and should have |
| Verdict.EvaluatePeriod | shared/crm_preflight.py:71-188 | Of a summary of readings without duplicates: a meter is warned of if and only if it is matched and has gaps, once, with its readings, the grid's size and its gaps; without blockers the readings are usable exactly as the verdict's soundness says |
| Pivot.GridIsChronological | shared/crm_timeseries.py:87-89 | The grid has every instant of the readings once, strictly increasing |
| Pivot.FailureIsDue | shared/crm_timeseries.py:39-79 | Each error of the pivot has its cause in the readings or the names asked for; without one the frame has a column for each name, and the injection |
| Pivot.UnreadInOrder | shared/crm_timeseries.py:68-75 | The names without readings are reported in the order they were asked for |
| Pivot.ColumnCells | shared/crm_timeseries.py:61-83 | Cell by cell, a participant's column holds each reading of its meter at the reading's instant, and zero where there is none |
| Pivot.InjectionCells | shared/crm_timeseries.py:84-89 | Cell by cell, the injection column holds the sum of what all meters injected at that instant |
| Pivot.ColumnKeepsConsumption | shared/crm_timeseries.py:61-83 | A participant's column sums to the consumption summarised for its meter |
| Pivot.ColumnKeepsInjection | shared/crm_timeseries.py:84-86 | The injection column sums to what all meters injected |
| Pivot.MissingAreGaps | shared/crm_preflight.py:163-179 | What a meter's summary lacks of the grid is the number of cells filled with zero in its column |
| Pivot.RowOrder | shared/crm_timeseries.py:61-89 | The frame, or the error, does not depend on the order of the readings |
| Verdict.RequireFinite | shared/data_loading.py:109-119 | Nothing is refused if and only if all cells are finite; otherwise the first invalid column is reported with its count and first row |
| Verdict.SelectsOneEach | shared/data_loading.py:97-98 | Selecting the participants from their pivot gives one column each, in order, if and only if no name repeats |
| Verdict.ConversionFailureIsDue | shared/data_loading.py:75-107 | Each conversion error has its cause in the frame or the names; without one, all names and the injection are columns |
| Verdict.VerdictIsSound | shared/crm_preflight.py:106-161 | Readings the pre-flight accepts give a participants by grid matrix if and only if there are participants, distinct once trimmed, none with the reserved name; the size check the worker makes on the shape of that matrix accepts it |
| Verdict.RefusalIsDue | shared/crm_preflight.py:131-151 | Readings refused as duplicated or for an unmatched participant could not have been pivoted |
| Verdict.CellsAreReadings | shared/data_loading.py:94-107 | Each row of a usable matrix holds its participant's readings at their instants and zero in its gaps, the production what all meters injected then |
| Verdict.EnergiesAreKept | shared/crm_timeseries.py:61-89 | Each row of an accepted matrix sums to its meter's summarised consumption, the production to the summarised injection |
| Verdict.RepeatedNameAccepted | shared/crm_preflight.py:88-101 | Readings and a key naming a meter twice that are accepted and cannot be used |
| UploadShape.CountIsEnough | api/simulation/upload_shape.py:55-63 | The count of a CSV upload is at least the data rows of a reader that ends records at line feeds outside quotes and skips blank ones |
| UploadShape.CountIsEnoughExactly | api/simulation/upload_shape.py:55-63 | For any reader, the count is at least the data rows if and only if the records it ends at a carriage return, and one left open, are no more than the line feeds that end none, and a document's end that is no line feed |
| UploadShape.CountIsRightExactly | api/simulation/upload_shape.py:55-63 | With a record at all, it is the number of data rows if and only if both are the same |
| UploadShape.PlainCountIsRight | api/simulation/upload_shape.py:55-63 | It is, for any reader, for a document without quotes, carriage returns and blank lines |
| UploadShape.PairedIsEnough | api/simulation/upload_shape.py:55-63 | That holds of every upload whose carriage returns outside quotes are each followed by a line feed |
| UploadShape.AcceptedUploadFits | api/simulation/service.py:303-312 | An upload accepted by its count is within the size limit by its parsed rows, for any reader; for one that ends records at carriage returns, under the condition above |
| UploadShape.UnpaidUploadSlips | shared/problem_size.py:31-40 | Without that condition, an upload that is not very long is accepted by its count and too large by its rows for some key |
| UploadShape.ReturnsAreMissed | api/simulation/upload_shape.py:62-63 | An upload with carriage returns alone whose rows are not counted |

## Left out

Series codec:

- Strings are sequences of characters without unpaired surrogates, and what a document's own keys hold beyond ASCII is not decoded as UTF-8; the writer emits ASCII only (`Documents.PrintIsAscii`).
- A number is a token made of the bytes numbers are written with; the text of a float and its value are not related, and neither is the codec's number to the cascade's real.
- `raw_decode` of values other than numbers and lists of numbers is not modelled; the writer puts none there.
- IterationReader.IterationCollector.Finish: validation takes an iteration's number when it is an integer text, which is what the writer writes; the laxer conversions of the validation library are not modelled.
- The splitter's pieces are collected before they are used instead of being yielded one at a time.
- `to_temp_file`, `remove` and `without_series`: they would only add easy members.

Delivery protocol:

- Commits and object writes are atomic: a commit whose outcome the client does not learn, and an upload that lands after its claim was rolled back, are not modelled.
- One request deletes the simulation; a second concurrent one is not modelled, and neither is the object a deletion can leave behind.
- Messages that do not decode are in `Settle` only.
- Rows whose source columns are incomplete cannot be created through the API and are not modelled.
- Time: ack_wait running out is a delivery that can happen at any moment, and a blocked UPDATE is one that raises.
- Worker.Delivery.HandleMessage: the heartbeat is not part of it but of `Settle`.
- The process pool, memory limits and the solver's own run are a solve that finishes, fails or dies.
- The building of the scalar result tree, metrics, logging and the audit entries' contents are plumbing.

Allocation cascade:

- Numbers are exact reals: rounding, infinities and NaN in the solver are not modelled.
- RateBound.BoundIsExact: when an iteration behind the first can hand out more than it has, surplus carried into it is multiplied; for such keys only the lower half is proved (RateBound.BoundIsNeeded), and FIXED percentages below 0 are outside all of it.
- Matrices have two dimensions; the two dimension checks of `run_simulation` reduce to their shape checks.

Metering data:

- The database is a list of readings in which missing energies are zero; the community and operation filters, period bounds and time zones are not modelled, and summary and readings are taken at one moment.
- Summaries list meters in some order; the order of the names inside a blocker's text is not modelled.
- Verdict.SelectsOneEach: the frame of an upload and its parsing are not modelled, only the frame the pivot makes.
- A frame in which the injection column repeats cannot come from the pivot and is not modelled.
- Readers of uploads are modelled by their record ends, separators, quotes and blank lines only; a document that ends inside quotes, which the worker's reader refuses, counts as one more record; spreadsheet uploads and the column count are not modelled.
