# A verified model of the ClickHouse ODBC driver

The driver turns ODBC calls into HTTP requests to a ClickHouse server. This project models the parts of it
whose guarantees span many calls or all inputs, and proves those guarantees:

- **The response body** (`exception_trailer.dfy`, `body_stream.dfy`, `compressed_body.dfy`,
  `http_client.dfy`). The body arrives in chunks of any size; a reader sees a window of it; 32 KiB are held
  back while the transfer runs, so that the text of a server exception at the end of a failed transfer is
  reported instead of being delivered as data. `BodyStream` is the specification as functions on values,
  `HttpClient.HttpResponse` the object with its buffers, which is proved to follow the specification call by
  call.
- **The query on its way to the server** (`query_parameters.dfy`, `lexer.dfy`, `token_errors.dfy`,
  `escape_translation.dfy`, `escape_sequences.dfy`, `escape_properties.dfy`, `escape_items.dfy`,
  `escape_results.dfy`, `escape_failures.dfy`, `escape_semantics.dfy`, `escape_names.dfy`,
  `escape_replacement.dfy`, `quoted_braces.dfy`, `query_translation.dfy`, `parameter_types.dfy`,
  `request_query.dfy`, `http_request.dfy`). Markers become unique placeholders and then `{name:type}`; ODBC
  escape sequences are translated by a lexer and mutually recursive procedures. `EscapeItems` gives escape
  sequences as trees with a text and a meaning, and the translation of the text is proved to be the meaning;
  `EscapeFailures` says which texts are not translated, and which keep the translation from ending.
  `EscapeSemantics` evaluates the texts that come out, by the semantics of ClickHouse's functions, and
  compares the values with those that ODBC asks for.
- **Parameter sets** (`parameter_sets.dfy`): `SQLExecute` and `SQLMoreResults` over an array of sets.
- **The worker pool** (`thread_pool.dfy`, `pool_threads.dfy`, `pool_fairness.dfy`, `runnable_queue.dfy`): a
  protocol of threads, one mutex and a queue. One action of the model is what a thread does between taking and
  releasing the mutex; a sleeping thread may wake at any time, so signals, timeouts and spurious wake-ups are
  one and the same action. `PoolFairness` is about infinite runs.
- **Parsers and printers** (`type_parser.dfy`, `connection_string.dfy`, `connection_forms.dfy`, the literals in
  `lexer.dfy`).
- **Numbers** (`decimal.dfy`, `uleb128.dfy`): decimal text, 64-bit decimals, `SQL_NUMERIC_STRUCT`, ULEB128.
- **Data for the application** (`partial_reads.dfy`, `utf8_length.dfy`, `row_delivery.dfy`,
  `failing_transfer.dfy`, `failing_response.dfy`): strings in parts, character counts, rows from the wire
  to the row sets, also when the transfer fails.

`text.dfy` holds the bytes, powers, characters, decimal numerals and string searches that the others use.

Where the obvious claim is false of the code, the model keeps the code's behaviour, a lemma gives an input for which it
fails, and another says when it holds:

- a message that ends in a digit (`DigitHidesMessage`; `TrailerGivesMessage`);
- an operator without a space behind it, which takes the delimiters up to the next space for itself (`OperatorFails`,
  `CommaFails`; `OperatorHidesDelimiter`, `OperatorHidesBrace`, `CallFails`, and `CallTranslated` when it ends before);
- a vertical tab in the lexer and in an escape sequence (`NeverTranslated`; `TokenAdvances`, `Returns`, `CallEndless`,
  `EndlessExactly`);
- braces in quotes (`QuotedBracesVanish`, `QuotedBraceKeepsQuery`; `QuotesDoNotMatterExactly`, `CutFollowsQuotes`);
- the other kind of quote in a quoted text, and a backslash outside quotes (`ForeignQuoteHidesMarker`,
  `BackslashHidesMarker`; `ScanFollowsSql`);
- parameters that are named like the position of another one (`NamesCollide`; `PositionalNamesDistinct`,
  `PrepareHttpRequest`);
- white space that is no blank in front of the argument of LTRIM (`LtrimExactly`), negative numbers in CONVERT
  (`ConvertLosesSign`), units of time without their prefix (`UnitsNeedPrefix`);
- parameters named like escape sequences (`ReservedNameBlocks`; `ParameterTranslation`);
- unmatched parentheses in a type (`UnmatchedParenthesis`; `UnderflowExactly`);
- a buffer without room for a terminator (`EmptyProbeLosesData`; `InStepExactly`);
- rows that an exception leaves in the queue (`BrokenRowsPileUp`; `BrokenRowsExactly`);
- a pool without capacity (`ForgottenJob`; `QueuedJobsAreServed`), and jobs that others overtake for ever
  (`OvertakenJobNeverRuns`; `JobFinishes`);
- an eleventh byte in ULEB128 (`ElevenBytes`; `UndefinedExactly`).

## Model

| member | source | states |
|---|---|---|
| ExceptionTrailer.FindMessage | driver/http_client.cpp:61-92 | the message returned is one that the buffer carries, and None means that it carries none, with a tag and without |
| ExceptionTrailer.FindSizedMessage | driver/http_client.cpp:62-82 | the backward scan over the digits finds the sized message in front of the closing marker whenever there is one |
| ExceptionTrailer.FindMarkedMessage | driver/http_client.cpp:84-91 | without a tag, the message is what follows the last marker |
| ExceptionTrailer.CarriesOne | driver/http_client.cpp:61-92 | a buffer carries at most one message |
| ExceptionTrailer.TrailerGivesMessage | driver/http_client.cpp:62-82 | behind any data, a tagged trailer gives its message back if and only if the message does not end in a digit |
| ExceptionTrailer.MarkerGivesMessage | driver/http_client.cpp:84-91 | behind any data, an untagged trailer gives its message back if and only if the message does not contain the marker |
| ExceptionTrailer.DigitHidesMessage | driver/http_client.cpp:70-79 | a message that ends in a digit, for which nothing is found |
| ExceptionTrailer.ParseExceptionCode | driver/http_client.cpp:95-105 | the code is the run of digits behind the first "Code: ", or empty |
| ExceptionTrailer.CodeExactly | driver/http_client.cpp:95-105 | the code is the text from the first "Code: " up to the first character that is no digit |
| BodyStream.DecodeRest | driver/http_client.cpp:586-604 | what is decoded behind a failure continues what was given out, in order, and nothing else |
| BodyStream.FillFrom | driver/http_client.cpp:502-568 | the loop keeps every byte accounted for; More means a window with data, End that everything was received, consumed and given out, Threw that the failure is stored |
| BodyStream.Fill | driver/http_client.cpp:502-568 | the same for the whole of fill, which throws a stored failure again |
| BodyStream.Read | driver/http_client.h:93-102 | a read gives exactly the bytes that were asked for or fails with fewer, and what is given is what is removed from the body |
| BodyStream.Run | driver/http_client.h:81-105 | after any calls the body is consistent, nothing of it is lost, and the data of the answers is what was delivered |
| BodyStream.FailureStays | driver/http_client.cpp:502-507 | once a failure is stored, each call that needs data fails in the same way, yields nothing and changes nothing |
| BodyStream.EndStays | driver/http_client.cpp:502-568 | once the body is exhausted, each call that needs data reports the end and changes nothing |
| BodyStream.RunIsSafe | driver/http_client.h:135-139 | in every run a failure and a clean end are final, and a clean end means that the transfer succeeded, all was consumed and any compressed frame was complete |
| BodyStream.PrefixOnly | driver/http_client.cpp:24-27 | of a failing transfer only a prefix of the data in front of the last 32 KiB is ever visible, and the failed tail holds all the rest |
| BodyStream.ExceptionRecovered | driver/http_client.cpp:502-584 | for every chunking and every sequence of calls: the bytes delivered are a prefix of the data, no clean end is reported, and a failure carries exactly the server's message if and only if the message does not end in a digit |
| BodyStream.MarkedExceptionRecovered | driver/http_client.cpp:84-91 | the same for every chunking and every sequence of calls of a server that sends no tag, if and only if the message does not contain the marker |
| BodyStream.DrainEndsInFailure | driver/http_client.cpp:570-584 | draining such a body byte by byte ends in a failure |
| BodyStream.ReadAllGivesRest | driver/http_client.cpp:378-393 | of a plain body, readAll gives exactly the rest, up to its limit, however the transfer ends |
| BodyStream.ReadAllContinues | driver/http_client.cpp:378-393 | for a compressed body as for a plain one, readAll goes on behind what was delivered, in order; below its limit it ends at a clean end with nothing left out, or at the failure with the whole undelivered tail |
| BodyStream.ReadAllDecodes | driver/http_client.cpp:378-393 | what readAll returns of a compressed body continues the delivered part of what the body decodes to, and completes it at a clean end |
| CompressedBody.DecodeRestIsRest | driver/http_client.cpp:586-604 | of a decoder that takes its input or gives something out, and has given out all when it has taken all and has room left: what is decoded behind a failure is exactly what was not given out before |
| CompressedBody.CompressedExceptionRecovered | driver/http_client.cpp:502-604 | with such a decoder, for every chunking and every sequence of calls, when the trailer lies in the last 32 KiB of what was sent: a prefix of the data, never a clean end, and the server's message if and only if it is clear |
| CompressedBody.CompressedReadAll | driver/http_client.cpp:378-393 | and readAll gives the rest of the content, the trailer included, up to its limit |
| CompressedBody.StoredIsFluent | driver/http_client.cpp:586-604 | there is such a decoder: one of stored bytes |
| HttpClient.HttpResponse.Pump | driver/http_client.cpp:430-487 | received bytes are appended to the raw buffer and nothing else of the body changes |
| HttpClient.HttpResponse.DecodeRemaining | driver/http_client.cpp:586-604 | the loop gives the undelivered tail that the specification says, and gives up after 100 calls without output |
| HttpClient.HttpResponse.FillDecoded | driver/http_client.cpp:502-568 | one call of the decoder moves its input out of the raw buffer and its output into the window |
| HttpClient.HttpResponse.Finish | driver/http_client.cpp:570-584 | a failed or truncated transfer stores the failure that the specification says, with the tail that was not delivered |
| HttpClient.HttpResponse.Fill | driver/http_client.cpp:502-568 | the object follows BodyStream.Fill, and its buffers are moved only while the window is empty |
| HttpClient.HttpResponse.Eof | driver/http_client.h:81-83 | the object follows BodyStream.Eof |
| HttpClient.HttpResponse.Get | driver/http_client.h:86-90 | the object follows BodyStream.Get |
| HttpClient.HttpResponse.Read | driver/http_client.h:93-102 | the object follows BodyStream.Read |
| HttpClient.HttpResponse.ReadSlow | driver/http_client.cpp:489-500 | the loop over windows delivers what BodyStream.Read says |
| HttpClient.HttpResponse.ReadAll | driver/http_client.cpp:378-393 | the object follows BodyStream.ReadAll, and the failed tail is part of what it returns |
| ThreadPool.Best | contrib/poco/Foundation/src/ActiveThreadPool.cpp:80-119 | the job taken from the queue has the highest priority, and it is the oldest one with that priority |
| ThreadPool.InvStep | contrib/poco/Foundation/src/ActiveThreadPool.cpp:219-462 | every step of every thread keeps the invariant of the lists, the counter, the jobs and the joiners; PoolThreads.StartUsesThread says how many threads a submission uses |
| ThreadPool.PoolIsSound | contrib/poco/Foundation/src/ActiveThreadPool.cpp:219-462 | in every reachable state the counter counts the busy threads, waiting and expired threads are disjoint parts of the pool, there are at most max(1, capacity) threads, and each submitted job is queued, held by exactly one thread, or finished |
| ThreadPool.JoinAllMeansFinished | contrib/poco/Foundation/src/ActiveThreadPool.cpp:382-421 | when joinAll returns, every job submitted so far has begun exactly once and has finished |
| ThreadPool.WorkGoesOn | contrib/poco/Foundation/src/ActiveThreadPool.cpp:382-392 | as long as joinAll has a reason to wait, some thread can move on |
| ThreadPool.QueuedJobsAreServed | contrib/poco/Foundation/src/ActiveThreadPool.cpp:315-357 | in every run a queued job has a thread that will look at the queue, if and only if the capacity is at least 1 |
| ThreadPool.ForgottenJob | contrib/poco/Foundation/src/ActiveThreadPool.cpp:315-357 | without capacity, a run whose second job is never taken |
| PoolThreads.StartUsesThread | contrib/poco/Foundation/src/ActiveThreadPool.cpp:315-357 | a submission brings one more thread into use, unless the pool is full and no thread waits: the one that has waited longest, or else an expired one, or else a new one; a job that goes to a waiting thread below the capacity is queued with priority 0 |
| PoolThreads.ThreadsAreUsed | contrib/poco/Foundation/src/ActiveThreadPool.cpp:219-462 | in every reachable state the jobs in the queue are no more than the signalled threads on their way, or the pool is full |
| PoolThreads.JoinAllLeavesNoThread | contrib/poco/Foundation/src/ActiveThreadPool.cpp:382-421 | when joinAll returns, every thread that was started and is not in the pool has returned from run(), or another caller waits for it |
| PoolFairness.JobFinishes | contrib/poco/Foundation/src/ActiveThreadPool.cpp:219-357 | with a capacity of at least 1, in every infinite run that passes over no thread for ever, a submitted job is finished, if from then on no job is queued with a higher priority, however many others are submitted |
| PoolFairness.WorkEnds | contrib/poco/Foundation/src/ActiveThreadPool.cpp:219-421 | when nothing more is submitted, such a run finishes all jobs, and every caller of joinAll that still waits has been notified |
| PoolFairness.OvertakenJobNeverRuns | contrib/poco/Foundation/src/ActiveThreadPool.cpp:80-119 | a fair run of a pool with one thread in which a job waits for ever behind others of a higher priority |
| RunnableQueue.RunnablePriorityQueue.Push | contrib/poco/Foundation/src/ActiveThreadPool.cpp:84-97 | the lists by priority stand for the jobs in the order of submission with the new one at its end |
| RunnableQueue.RunnablePriorityQueue.Pop | contrib/poco/Foundation/src/ActiveThreadPool.cpp:99-109 | the job taken from the front list is the one that ThreadPool.Best picks from the order of submission, and the others keep their order |
| RunnableQueue.OfWithout | contrib/poco/Foundation/src/ActiveThreadPool.cpp:52-57 | taking out the first job of a priority takes the head off the list of that priority and leaves the other lists |
| RunnableQueue.FrontIsBest | contrib/poco/Foundation/src/ActiveThreadPool.cpp:70-78 | the front list has the priority of the best job |
| QueryParameters.Scan | driver/statement.cpp:274-374 | one scan from left to right cuts a query at its markers, and the pieces woven together are the query |
| QueryParameters.Statement.GeneratePlaceholder | driver/statement.cpp:289-297 | a placeholder that is returned does not occur in the query; none is returned only when all candidates do |
| QueryParameters.Statement.ExtractParameters | driver/statement.cpp:274-374 | editing the query in place with a moving index gives the texts of the one scan with fresh placeholders between them; a bare '@' is an error exactly where the scan says so |
| QueryParameters.OnlyThere | driver/statement.cpp:399-406 | in a text woven from pieces, placeholders and final forms, a placeholder occurs only where it was put or where the texts contain it |
| QueryParameters.FoundAtItsPlace | driver/statement.cpp:400-402 | find() meets a placeholder first at its own place, whatever was put in for the earlier ones |
| QueryParameters.Statement.BuildFinalQuery | driver/statement.cpp:376-410 | for names and types without '@', the final query is the original one with its k-th marker replaced by the k-th {name:type} and nothing else changed |
| QueryParameters.ScanFollowsSql | driver/statement.cpp:311-326 | the scan takes the same steps as SQL, read character by character, if and only if no quoted text holds the other kind of quote and outside quotes no backslash stands in front of a quote or a marker; then it finds exactly the markers that SQL leaves |
| QueryParameters.ForeignQuoteHidesMarker | driver/statement.cpp:311-326 | a query whose marker the scan does not find |
| QueryParameters.BackslashHidesMarker | driver/statement.cpp:306-309 | a query whose marker the scan skips with a backslash |
| QueryParameters.MarkExactly | driver/statement.cpp:328-367 | outside quotes a marker is '?', or '@' with the longest name behind it |
| Lexing.Lexer.NextToken | driver/escaping/lexer.cpp:122-263 | the scanning loops read the token that Lex gives and leave the text behind it |
| Lexing.Lexer.NameLength | driver/escaping/lexer.cpp:176-223 | the loop over a dotted name ends where Name says and classifies it as Name does |
| Lexing.Lexer.LookAhead | driver/escaping/lexer.cpp:82-88 | tokens are queued until there are enough, and none is skipped |
| Lexing.Lexer.Consume | driver/escaping/lexer.cpp:58-66 | queued tokens come first, in their order |
| Lexing.Lexer.ConsumeExpected | driver/escaping/lexer.cpp:68-80 | another token than the expected one is not consumed |
| Lexing.Lexer.Match | driver/escaping/lexer.cpp:90-101 | the next token is consumed if and only if it has the type |
| Lexing.TokenAdvances | driver/escaping/lexer.cpp:122-263 | a token is empty if and only if the text ends, or a vertical tab stands, behind the skipped blanks; only the end of the text gives EOS |
| Lexing.Tokens | driver/escaping/lexer.cpp:122-263 | with blanks emitted, the literals of the tokens of a text without vertical tabs concatenate to the text |
| Lexing.EscapeForSQL | driver/utils/sql_encoding.h:9-25 | the loop puts a backslash in front of each quote and backslash |
| Lexing.LiteralIsOneToken | driver/utils/sql_encoding.h:30-33 | whatever the value and whatever follows, its SQL literal is read as exactly one STRING token, and its text unescapes to the value |
| EscapeTranslation.Parentheses | driver/escaping/escape_sequences.cpp:72-104 | the recursion ends on unread text and queued tokens, and only a vertical tab can keep the procedure from returning |
| EscapeTranslation.Argument | driver/escaping/escape_sequences.cpp:146-180 | the same for function arguments |
| EscapeTranslation.SequenceBody | driver/escaping/escape_sequences.cpp:455-519 | the same for the parts of a sequence |
| EscapeTranslation.Function | driver/escaping/escape_sequences.cpp:182-409 | the same for functions, and a function consumes at least its name |
| EscapeSequences.ProcessParentheses | driver/escaping/escape_sequences.cpp:72-104 | the procedure on the shared lexer returns the text, and leaves the lexer, as EscapeTranslation.Parentheses says |
| EscapeSequences.ProcessFunctionArgument | driver/escaping/escape_sequences.cpp:146-180 | the same for EscapeTranslation.Argument; EscapeResults.ArgumentTranslated says what an argument comes to |
| EscapeSequences.ProcessFunction | driver/escaping/escape_sequences.cpp:182-409 | the same for EscapeTranslation.Function; EscapeResults.FnTranslated says what each function comes to |
| EscapeSequences.ProcessConvert | driver/escaping/escape_sequences.cpp:185-209 | the result and the lexer are as EscapeTranslation.Convert says; EscapeResults.ConvertTranslated says what that means: a CAST of the translated argument to the type of the table |
| EscapeSequences.ProcessCurrentTime | driver/escaping/escape_sequences.cpp:280-289 | the result and the lexer are as EscapeTranslation.CurrentTime says; EscapeResults.CurrentTimeTranslated and NowTranslated say what that means |
| EscapeSequences.ProcessTimestampAdd | driver/escaping/escape_sequences.cpp:308-332 | the result and the lexer are as EscapeTranslation.TimestampAdd says; EscapeResults.TimestampAddTranslated says what that means: the unit's function with the date in front of the amount |
| EscapeSequences.ProcessLocate | driver/escaping/escape_sequences.cpp:333-356 | the result and the lexer are as EscapeTranslation.Locate says; EscapeResults.LocateTranslated says what that means |
| EscapeSequences.ProcessRenamed | driver/escaping/escape_sequences.cpp:373-406 | the result and the lexer are as EscapeTranslation.Renamed says; EscapeResults.RenamedTranslated says what that means: the new name and a copy of the arguments, with time units as string literals |
| EscapeSequences.ProcessQuoted | driver/escaping/escape_sequences.cpp:411-436 | a string literal and nothing else is converted |
| EscapeSequences.ProcessClickHouseQueryParameter | driver/escaping/escape_sequences.cpp:438-453 | everything up to the closing brace is copied, and the mode for blanks is restored |
| EscapeSequences.ProcessEscapeSequencesImpl | driver/escaping/escape_sequences.cpp:455-519 | the loop over the parts of a sequence follows EscapeTranslation.Sequence |
| EscapeSequences.ProcessEscapeSequences | driver/escaping/escape_sequences.cpp:521-524 | the result is the translation of the segment, and the procedure returns for every segment without a vertical tab |
| EscapeProperties.ArgumentCopies | driver/escaping/escape_sequences.cpp:146-180 | an argument without braces is copied character by character: its text and what is left unread make up what was unread before |
| EscapeProperties.ParenthesesCopy | driver/escaping/escape_sequences.cpp:72-104 | the same for nested parentheses |
| EscapeProperties.ParameterCopies | driver/escaping/escape_sequences.cpp:438-453 | every type name the driver can write is copied up to its closing brace |
| EscapeProperties.ParameterUnchanged | driver/escaping/escape_sequences.cpp:438-519 | a {name:type} of the driver is translated to itself |
| EscapeItems.TokenRead | driver/escaping/lexer.cpp:122-263 | a name with its dots and its parts in backticks, a number, a string in quotes, a blank, an operator or a sign is read as one token, in front of anything that cannot be part of it |
| TokenErrors.OpenQuote | driver/escaping/lexer.cpp:154-172 | a quote without another one makes the rest of the text invalid |
| TokenErrors.OpenBacktick | driver/escaping/lexer.cpp:184-201 | so does a backtick |
| TokenErrors.BrokenNumber | driver/escaping/lexer.cpp:225-249 | a number with a second point or a second minus is invalid |
| TokenErrors.BrokenName | driver/escaping/lexer.cpp:176-223 | so is a name with a point that no part follows |
| TokenErrors.UnitsNeedPrefix | driver/escaping/lexer.cpp:39-45 | a unit of time with its prefix is a unit; without it only FRAC_SECOND and DAY are, the others are taken for functions |
| EscapeResults.ItemCopied | driver/escaping/escape_sequences.cpp:72-180 | the loops for arguments and for parentheses turn an item, whatever is nested in it, into its meaning and go on behind it |
| EscapeResults.ArgumentTranslated | driver/escaping/escape_sequences.cpp:146-180 | an argument made of names, numbers, strings, operators, signs, lists in parentheses and nested escape sequences is read up to its comma or closing parenthesis, and its text is its meaning |
| EscapeResults.ArgumentsExactly | driver/escaping/escape_sequences.cpp:210-307 | the arguments of a function are read if and only if there are as many as it takes; otherwise the function fails |
| EscapeResults.FunctionRewritten | driver/escaping/escape_sequences.cpp:210-372 | a function that is rewritten becomes its target with the meanings of its arguments in their places, which EscapeSemantics.RewriteMeans fixes, and fails if there are more or fewer of them than it takes |
| EscapeResults.ConvertTranslated | driver/escaping/escape_sequences.cpp:185-209 | CONVERT becomes a CAST of its first argument to the ClickHouse type of its second one |
| EscapeResults.CurrentTimeTranslated | driver/escaping/escape_sequences.cpp:280-289 | CURRENT_TIME and CURRENT_TIMESTAMP with a precision become now64 with that precision |
| EscapeResults.TimestampAddTranslated | driver/escaping/escape_sequences.cpp:308-332 | TIMESTAMPADD becomes the function of its unit, with the date in front of the amount |
| EscapeResults.LocateTranslated | driver/escaping/escape_sequences.cpp:333-356 | LOCATE with two or three arguments becomes position() with the first two exchanged, and the offset is 1 when it is missing |
| EscapeResults.RenamedTranslated | driver/escaping/escape_sequences.cpp:373-406 | a function with another name in ClickHouse gets that name, and everything up to the closing brace is copied, with time units as string literals up to the first EXTRACT |
| EscapeResults.FnTranslated | driver/escaping/escape_sequences.cpp:182-409 | every well-formed function with its arguments becomes what its name says of them, and the lexer is left at the closing brace |
| EscapeResults.NowTranslated | driver/escaping/escape_sequences.cpp:280-289 | CURRENT_TIME and CURRENT_TIMESTAMP without parentheses become now64() |
| EscapeResults.DateTranslated | driver/escaping/escape_sequences.cpp:411-436 | {d}, {t} and {ts} with any string in quotes become conversions of that string |
| EscapeResults.CallTranslated | driver/escaping/escape_sequences.cpp:455-519 | an escape sequence of one function, date, time or parameter, with blanks wherever the code skips them, and nested to any depth, is translated to its meaning, and what stands behind it is left |
| EscapeResults.TranslatesToMeaning | driver/escaping/escape_sequences.cpp:521-524 | processing the text of such a tree gives its meaning |
| EscapeSemantics.RewriteMeans | driver/escaping/escape_sequences.cpp:210-372 | BIT_LENGTH, DIFFERENCE, INSERT, SPACE, COT, DAYNAME, MONTHNAME, LTRIM and DAYOFWEEK become the text of a ClickHouse expression whose value, by the semantics of ClickHouse's functions, is the one that ODBC asks for, for all arguments that ODBC defines them for |
| EscapeSemantics.LtrimExactly | driver/escaping/escape_sequences.cpp:357-363 | LTRIM does what ODBC asks for if and only if no other white space stands behind the leading blanks |
| EscapeSemantics.CallComputes | driver/escaping/escape_sequences.cpp:455-524 | so the translation of the escape sequence of such a function computes its value |
| EscapeSemantics.LocateComputes | driver/escaping/escape_sequences.cpp:333-356 | the translation of LOCATE computes the first position of the first text in the second one, from the given position on or from 1 |
| EscapeSemantics.TimestampAddComputes | driver/escaping/escape_sequences.cpp:308-332 | the translation of TIMESTAMPADD computes the moment that is so many units later |
| EscapeSemantics.UnitWords | driver/escaping/escape_sequences.cpp:48-70 | the string literals and the functions for units of time are named by the word for the span of the unit |
| EscapeNames.TargetsMean | driver/escaping/function_declare.h:1-93 | a function is renamed to ClickHouse's function for the same operation, but for LENGTH, which counts the blanks at the end, and CURTIME, which has a date |
| EscapeNames.FunctionsExactly | driver/escaping/function_declare.h:1-93 | every function of the lexer is renamed, rewritten or handled by itself, and there are no others |
| EscapeNames.ConvertTypeHolds | driver/escaping/escape_sequences.cpp:22-37 | CONVERT casts to the ClickHouse type whose name spells what the SQL type holds |
| EscapeNames.ConvertLosesSign | driver/escaping/escape_sequences.cpp:22-37 | it has the sign of the SQL type if and only if that is SQL_INTEGER or SQL_BIGINT: negative numbers of SQL_TINYINT and SQL_SMALLINT are lost |
| EscapeNames.DatesMean | driver/escaping/escape_sequences.cpp:411-436 | {d} and {ts} give values of the types that bound dates and timestamps have, {t} of the type of CONVERT to SQL_TIME |
| EscapeFailures.FnFails | driver/escaping/escape_sequences.cpp:182-356 | a function fails when a delimiter behind its arguments, as the lexer reads them, is not the one that it waits for: too many or too few arguments, or a comma that an operator has taken |
| EscapeFailures.CallFails | driver/escaping/escape_sequences.cpp:455-519 | so its escape sequence fails, whatever stands behind it |
| EscapeFailures.CutHalts | driver/escaping/escape_sequences.cpp:72-519 | a sequence that is cut off inside any argument, list, type or nested sequence: at a vertical tab its translation does not end, and at the end of the text or an unknown token it fails |
| EscapeFailures.CallEndless | driver/escaping/escape_sequences.cpp:146-180 | a vertical tab outside quotes, at any depth and in any argument, keeps the translation from ending |
| EscapeFailures.CutQuery | driver/escaping/escape_sequences.cpp:528-572 | for a whole query: with such a segment behind segments that are translated, the translation of the query does not end, or the query is returned as it is |
| EscapeFailures.OperatorHidesDelimiter | driver/escaping/lexer.cpp:251-257 | a function that waits for a comma or a parenthesis fails when an operator in front of it runs to the end of the sequence |
| EscapeFailures.OperatorHidesBrace | driver/escaping/lexer.cpp:251-257 | the same for a function that is copied up to its closing brace |
| EscapeFailures.OperatorFails | driver/escaping/lexer.cpp:251-257 | {fn ABS(a+b)} and {fn SPACE(a+b)} are not translated |
| EscapeFailures.CommaFails | driver/escaping/lexer.cpp:251-257 | {fn DIFFERENCE(a+b, c)} is not translated: the operator takes the comma for itself |
| EscapeFailures.NeverTranslated | driver/escaping/escape_sequences.cpp:146-180 | a renamed function, a rewritten one and a parameter for which the translation does not end |
| EscapeReplacement.OneCut | driver/escaping/escape_sequences.cpp:528-572 | a query can be cut into brace-free text and balanced segments in one way only |
| EscapeReplacement.CutOf | driver/escaping/escape_sequences.cpp:528-572 | every query has such a cut, with a tail that begins with the brace that has no partner |
| EscapeReplacement.ReplaceEscapeSequences | driver/escaping/escape_sequences.cpp:528-572 | the loop over the braces gives the text outside the segments with the translations of the segments between it, or the whole query when a translation fails or a closing brace has no partner; it returns for every query without a vertical tab |
| EscapeReplacement.AnyCutDecides | driver/escaping/escape_sequences.cpp:528-572 | any cut of the query into brace-free text and balanced segments determines the output |
| EscapeReplacement.Returns | driver/escaping/escape_sequences.cpp:528-572 | without a vertical tab the translation of a query always comes to an end |
| EscapeReplacement.EndlessExactly | driver/escaping/escape_sequences.cpp:528-572 | the translation of a query does not end if and only if the first segment that is not translated is one whose translation does not end |
| EscapeReplacement.FailureKeepsQuery | driver/escaping/escape_sequences.cpp:554-560 | when the first segment that is not translated fails, the query is returned as it is |
| EscapeReplacement.StrayMeansNegative | driver/escaping/escape_sequences.cpp:546-552 | a closing brace has no partner if and only if some prefix has more closing than opening braces, quoted ones included |
| EscapeReplacement.StrayBraceKeepsQuery | driver/escaping/escape_sequences.cpp:547-551 | such a query is returned as it is, with all its escape sequences |
| EscapeReplacement.QuotedBraceKeepsQuery | driver/escaping/escape_sequences.cpp:547-551 | a closing brace in a literal keeps every escape sequence behind it from being translated |
| EscapeReplacement.QuotedBracesVanish | driver/escaping/escape_sequences.cpp:535-565 | an empty pair of braces in a literal disappears |
| QuotedBraces.QuotesDoNotMatterExactly | driver/escaping/escape_sequences.cpp:535-565 | counting braces without regard to quotes gives the depth of the unquoted braces at every position if and only if no brace is quoted |
| QuotedBraces.CutFollowsQuotes | driver/escaping/escape_sequences.cpp:528-572 | if no brace is quoted, the query is cut where its unquoted braces ask for it, and that is the only such cut |
| QuotedBraces.QuotedTextInside | driver/escaping/escape_sequences.cpp:535-565 | if no brace is quoted, every quoted text lies inside one plain text or one segment of the cut |
| QuotedBraces.PlainStays | driver/escaping/escape_sequences.cpp:542-545 | what stands in a plain text of a query stands in the output |
| QuotedBraces.LiteralStays | driver/escaping/escape_sequences.cpp:528-572 | the SQL literal of any value, in a query without quoted braces, is copied to the output or lies inside one escape sequence |
| QueryTranslation.QueryTranslated | driver/escaping/escape_sequences.cpp:528-572 | in a query of plain text and escape sequences as in CallTranslated, without braces in strings, names in backticks and operators, each sequence becomes its meaning and the text around it is copied |
| ParameterTypes.ParameterTypesAreNames | driver/utils/type_info.cpp:331-563 | every type that a binding can get, from its SQL type or else from its C type, is a word and perhaps a list in parentheses, without braces, quotes or '@' |
| ParameterTypes.ParameterTypeHolds | driver/utils/type_info.cpp:331-563 | the type of a parameter is the one whose name spells what the SQL type holds, or else the C type: width and sign, precision, length; it is nullable if and only if the binding is, and only NULL without a binding |
| RequestQuery.ParameterTranslation | driver/escaping/escape_sequences.cpp:455-519 | a {name:type} is translated to itself if and only if no escape sequence begins with its name, and fails otherwise |
| RequestQuery.ReservedNameBlocks | driver/escaping/escape_sequences.cpp:554-560 | a parameter with such a name keeps every escape sequence of its query from being translated |
| RequestQuery.OnlyParametersUnchanged | driver/statement.cpp:136-141 | a query whose only braces are those of its parameters is not changed by the translation |
| RequestQuery.MarksAreNames | driver/statement.cpp:328-367 | every marker that the scan finds is '?' or an identifier behind '@' |
| RequestQuery.FinalNameIsIdentifier | driver/statement.cpp:484-496 | the final name of a parameter is an identifier, unless a name that is not one was set in the IPD |
| HttpRequest.WrittenName | driver/statement.cpp:484-496 | it is the name that was set, or else the one behind the marker's '@' |
| HttpRequest.PositionalNamesDistinct | driver/statement.cpp:495 | markers without names get different names |
| HttpRequest.NamesCollide | driver/statement.cpp:484-496 | a marker whose name is that of another one's position |
| HttpRequest.PrepareHttpRequest | driver/statement.cpp:107-142 | under the name in the k-th {name:type} the server receives the value of the k-th binding, NULL for one that is NULL or not bound, when the names are different; of two parameters with one name the first one gives the value; a direction that is not supported makes it fail |
| RequestQuery.FinalQuery | driver/statement.cpp:107-142 | for any names from the IPD without '@', the query that is sent is the prepared one with its k-th marker replaced by the k-th {name:type} and then, unless scanning is off, with its escape sequences translated: each becomes its meaning, with parameters inside or outside it; and when the text around the markers has no braces, nothing else is changed |
| RequestQuery.EscapeParameterString | driver/statement.cpp:623-640 | the loop puts a backslash in front of each backslash, tab and line feed |
| RequestQuery.ParameterReadBack | driver/statement.cpp:623-640 | an escaped value unescapes to the value |
| RequestQuery.ParameterIsEscaped | driver/statement.cpp:623-640 | no raw tab, line feed or backslash is left in the text of a value, and nothing else is escaped |
| RequestQuery.NoValueIsNull | driver/statement.cpp:119-130 | no escaped value is the text that stands for NULL |
| ParameterSets.RunKeeps | driver/statement.cpp:58-105 | after one execution and any number of SQLMoreResults calls: sets are attempted in index order, statuses below the next index are SUCCESS, at it UNUSED or ERROR, above it UNUSED, and the processed count is the next index, or one more after a failure |
| ParameterSets.ExecutionEnds | driver/statement.cpp:86-104 | a normal execution ends with a result set or with every set sent; one that throws ends at a failed set and leaves the statement as executed as it was |
| ParameterSets.ExecutionExactly | driver/statement.cpp:58-105 | an execution sends the sets from the first one on, each with its own answer, up to the first one that has a result set or fails; it throws if and only if that one fails, and the reader is that of the last one |
| ParameterSets.MoreResultsExactly | driver/statement.cpp:444-461 | SQLMoreResults sends exactly one more set, says whether it has a result set, and throws when it fails; without one it says no and sends nothing |
| ParameterSets.OnceAndInOrder | driver/statement.cpp:144-174 | no set is skipped, none is sent again after success, and a failed set is the next one to be attempted |
| ParameterSets.FailedSetIsRetried | driver/statement.cpp:444-461 | SQLMoreResults sends a failed set again if the statement has been executed, and finds no data otherwise |
| ParameterSets.NothingLeft | driver/statement.cpp:444-461 | when every set has been sent, SQLMoreResults finds no data and changes no status |
| ParameterSets.ForwardedOnce | driver/statement.cpp:417-426 | an execution that was forwarded is not done again by the SQLExecute behind it |
| ParameterSets.ClosedStartsOver | driver/statement.cpp:463-474 | behind a closed cursor SQLMoreResults finds no data, and the next execution sends the sets again from the first one |
| ParameterSets.Statement.RequestNextPack | driver/statement.cpp:144-174 | one attempt writes the processed count before it and the status behind it |
| ParameterSets.Statement.ExecuteQuery | driver/statement.cpp:58-105 | the method with its loops follows Execute |
| ParameterSets.Statement.SendOthers | driver/statement.cpp:91-102 | the loop sends sets up to one with a result set |
| ParameterSets.Statement.ForwardExecuteQuery | driver/statement.cpp:417-426 | the method follows ForwardExecute |
| ParameterSets.Statement.AdvanceToNextResultSet | driver/statement.cpp:444-461 | the method follows MoreResults, whose answer MoreResultsExactly gives |
| ParameterSets.Statement.CloseCursor | driver/statement.cpp:463-474 | the method follows Closed |
| TypeParsing.TypeParser.NextToken | driver/utils/type_parser.cpp:75-133 | the scanning loops give the tokens of the text one by one |
| TypeParsing.TypeParser.Parse | driver/utils/type_parser.cpp:35-73 | the loop over the tokens, with the stack and the tree that grows in place, follows ParseType |
| TypeParsing.StackIsPath | driver/utils/type_parser.cpp:35-73 | from a state whose stack is the path of its node, every state that a parse reaches is such a state |
| TypeParsing.ParseKeepsPath | driver/utils/type_parser.cpp:35-73 | in every state of the parse of every text the stack holds the pointers to the ancestors of the node that is being read |
| TypeParsing.UnderflowExactly | driver/utils/type_parser.cpp:56-66 | an empty stack is popped if and only if a ')' or ',' stands where more parentheses are closed than opened |
| TypeParsing.ParsedExactly | driver/utils/type_parser.cpp:35-133 | a text is a type if and only if all its tokens are known, its numbers fit an int, and no ')' or ',' stands outside all parentheses |
| TypeParsing.MetaExactly | driver/utils/type_parser.cpp:5-33 | the category of a type goes by its name |
| TypeParsing.UnmatchedParenthesis | driver/utils/type_parser.cpp:56-66 | a text whose second closing parenthesis pops the empty stack |
| TypeParsing.PrintedTokens | driver/utils/type_parser.cpp:75-133 | the text of a type, with any blanks behind its commas, has the tokens of the type |
| TypeParsing.RunTree | driver/utils/type_parser.cpp:35-73 | the tokens of a type turn a fresh node into that type and leave the stack as it was |
| TypeParsing.RoundTrip | driver/utils/type_parser.cpp:35-133 | parsing the printed form of a well-formed type rebuilds that type |
| Decimals.ReadText | driver/utils/type_info.h:1183-1266 | parsing succeeds if and only if the text is a sign, digits and at most one point, all optional, and the digits make at most 2^64-1; value, sign, precision and scale are those of the text |
| Decimals.PrintText | driver/utils/type_info.h:1821-1852 | the loop that pushes digits from the last one gives the printed form, and fails if and only if the scale is negative |
| Decimals.SpelledReads | driver/utils/type_info.h:1821-1852 | the printed digits are those of the value, with as many behind the point as the scale says |
| Decimals.RoundTrip | driver/utils/type_info.h:1821-1852 | reading a printed decimal gives back its value, its scale and its sign, with zero positive |
| Decimals.Rescale | driver/utils/type_info.h:1882-1893 | the scale loops give floor(value * 10^(to - from)), or fail if and only if that is more than 64 bits hold |
| Decimals.StoreBytes | driver/utils/type_info.h:1897-1903 | the little-endian bytes make the value; the loop fails if and only if the value needs more bytes than one more than the precision |
| Decimals.ToNumeric | driver/utils/type_info.h:1854-1905 | the outcome follows from the rescaled value alone, and into zeroed bytes the digits to the base 256 are exactly that value |
| Decimals.FitsPrecision | driver/utils/type_info.h:1897-1903 | a rescaled value below 10^precision is never refused |
| Decimals.FromNumeric | driver/utils/type_info.h:1645-1673 | reading gives the integer that the 16 bytes make, and fails if and only if it is at least 2^64 |
| Decimals.Numeric.constructor | driver/utils/type_info.h:513-518 | a cleared struct has zeroed bytes |
| Decimals.ThereAndBack | driver/utils/type_info.h:1854-1905 | what is converted into a cleared struct is read back as the same integer |
| ConnectionStrings.ExtractKeyName | driver/config/config.cpp:53-92 | the loop reads a key up to its '=', with '==' for '=' inside it |
| ConnectionStrings.ExtractKeyValue | driver/config/config.cpp:94-152 | the loops read a value in braces or up to a semicolon, and ask for a semicolon behind it |
| ConnectionStrings.ReadConnectionString | driver/config/config.cpp:30-177 | the loop collects the fields that ReadFields gives, with the same four errors |
| ConnectionStrings.AppendValue | driver/api/odbc.cpp:459-467 | the value is put in braces with its closing braces doubled |
| ConnectionStrings.PairRead | driver/config/config.cpp:53-152 | a printed pair is read back, and what follows it is left |
| ConnectionStrings.RoundTrip | driver/config/config.cpp:30-177 | for keys without semicolons and outer spaces, distinct under the comparison, and without the rivals of DSN, reading a printed string gives exactly its pairs, whatever the values are |
| ConnectionStrings.FirstRivalWins | driver/config/config.cpp:163-171 | a pair whose key is there already, or whose rival is, changes nothing |
| ConnectionStrings.ConnectString | driver/api/odbc.cpp:456-481 | SQLConnect's string is the printed form of what was given |
| ConnectionStrings.ConnectRoundTrip | driver/api/odbc.cpp:456-481 | every data source, user and password given to SQLConnect is read back exactly |
| ConnectionForms.FormsRead | driver/config/config.cpp:30-177 | the pairs are read however they are written: values in braces as they are, values without braces up to the semicolon and without the blanks around them, with blanks around keys and signs and any number of semicolons |
| ConnectionForms.RivalsExactly | driver/config/config.cpp:163-171 | a key counts once, DSN excludes FILEDSN and DRIVER and the other way round, FILEDSN and DRIVER do not exclude each other, and the first one wins |
| ConnectionForms.EqualsMissingRead | driver/config/config.cpp:53-92 | a key without '=' is an error |
| ConnectionForms.KeyMissingRead | driver/config/config.cpp:53-92 | a '=' without a key is an error |
| ConnectionForms.BracesRead | driver/config/config.cpp:94-152 | braces that are not closed, and anything but a semicolon behind closed ones, are errors |
| PartialReads.FillBuffer | driver/utils/type_info.h:311-331 | as much of the source is copied as there is room for, and nothing behind it is touched |
| PartialReads.FillOutputString | driver/utils/type_info.h:362-432 | the data behind the offset is copied, a terminator follows it, nothing is written behind the buffer, and truncation, the end of the data and bad lengths are reported as they are |
| PartialReads.CapacityFits | driver/utils/type_info.h:362-432 | a buffer has room for as many whole symbols as its size says, in bytes or in symbols |
| PartialReads.OneCall | driver/api/impl/impl.cpp:1574-1606 | one SQLGetData call delivers the next symbols; it says truncated if and only if some are left, and then the offset is in step with what was delivered |
| PartialReads.PartsReassemble | driver/api/impl/impl.cpp:1574-1606 | successive calls with buffers of one symbol or more deliver the string in order and without gaps, truncation on every part but the last, no data behind the last; with two symbols or more the end is reached |
| PartialReads.InStepExactly | driver/api/impl/impl.cpp:1585-1594 | behind a truncated call the offset is in step if and only if the buffer was not empty |
| PartialReads.EmptyProbeLosesData | driver/api/impl/impl.cpp:1585-1594 | behind a first call with an empty buffer the next call reports no data |
| PartialReads.Column.ReadPart | driver/api/impl/impl.cpp:1547-1612 | the call with its buffer and its offset follows GetData |
| RowDelivery.ValueRead | driver/format/ODBCDriver2.cpp:80-109 | a value and NULL are read back from their encoding, and what follows is left |
| RowDelivery.LittleEndian | driver/format/ODBCDriver2.cpp:79-81 | four bytes are a number in two's complement, the lowest byte first |
| RowDelivery.TableRead | driver/format/ODBCDriver2.cpp:68-78 | the rows of an encoded table are read back in order |
| RowDelivery.HeaderRead | driver/format/ODBCDriver2.cpp:10-66 | the names and types of an encoded header are read back, and what follows is left |
| RowDelivery.PrefetchKeeps | driver/result_set.cpp:217-255 | prefetching moves rows from the wire to the queue and changes nothing else until it fails; then the row that was being read stays in the queue |
| RowDelivery.FetchKeeps | driver/result_set.cpp:156-185 | a fetch delivers the next rows or throws, and it throws only for a broken response |
| RowDelivery.ThrowsExactly | driver/result_set.cpp:156-185 | a fetch throws if and only if the queue is too short for it, the response is broken, and fewer rows are left than are read ahead, which is as many as it asks for and at least 100 |
| RowDelivery.FetchesDeliver | driver/result_set.cpp:156-185 | any fetches of any sizes up to the first exception deliver the rows of the response in order and once each, with the right position and row count, whatever was prefetched |
| RowDelivery.TableDelivered | driver/result_set.cpp:156-185 | for the response to a table nothing is thrown, and every fetch gives min(size, remaining) rows |
| RowDelivery.FetchBehind | driver/result_set.cpp:156-185 | behind an exception a fetch throws if and only if the transfer has failed and the queue does not suffice; then it queues one more broken row |
| RowDelivery.BrokenRowsExactly | driver/result_set.cpp:217-255 | for all fetches in front of the first exception and all those behind it: which of them throw, which rows each of the others delivers, and that a row set holds a broken row if and only if the fetches that succeeded reach behind the whole rows |
| RowDelivery.BrokenRowsPileUp | driver/result_set.cpp:217-224 | a cut response whose fetch throws three times and then delivers three broken rows |
| RowDelivery.ResultSet.ReadHeader | driver/format/ODBCDriver2.cpp:10-66 | the loop over the header rows follows HeaderAt |
| RowDelivery.ResultSet.ReadNextRow | driver/format/ODBCDriver2.cpp:68-78 | the loop over the fields follows NextRow, and leaves the stream as it says, also behind an exception |
| RowDelivery.ResultSet.TryPrefetchRows | driver/result_set.cpp:217-255 | the loop follows Prefetch, also when it throws |
| RowDelivery.ResultSet.FetchRowSet | driver/result_set.cpp:156-185 | the loops over the queues follow Fetch, also when it throws |
| RowDelivery.ResultSet.CurrentRowPosition | driver/result_set.cpp:199-204 | behind a fetch the current row is the first one of the row set, or none |
| FailingTransfer.ShownExactly | driver/http_client.cpp:502-568 | once a read has failed, what was read is exactly the body in front of the last chunk without the last 32 KiB of that, for every chunking and all calls |
| FailingResponse.RowsSeen | driver/format/ODBCDriver2.cpp:68-78 | of the first bytes of a table exactly the rows are read that lie wholly in them |
| FailingResponse.FailingTableDelivers | driver/http_client.cpp:24-27 | when the transfer of a table fails, with a tagged trailer or an untagged one, for every chunking and all calls of the body reader, the row sets hold exactly the rows that lie wholly in the bytes read, in order from the first one, and the failure carries the message if and only if the message is clear: it does not end in a digit, or, without a tag, does not contain the marker |
| FailingResponse.RowsBeforeException | driver/http_client.cpp:502-584 | once the exception is reported, these are the rows that lie wholly in front of the last chunk and the 32 KiB that were held back |
| FailingResponse.CompressedTableDelivers | driver/http_client.cpp:502-604 | the same as FailingTableDelivers for a compressed response |
| Uleb128.OrIsSum | driver/format/RowBinaryWithNamesAndTypes.cpp:67 | the or of the bits read so far and a shifted chunk is their sum |
| Uleb128.OneByte | driver/format/RowBinaryWithNamesAndTypes.cpp:57-67 | shifting back tells exactly whether the sum still fits 64 bits |
| Uleb128.ReadSize | driver/format/RowBinaryWithNamesAndTypes.cpp:47-76 | the loop follows Decode |
| Uleb128.DecodesExactly | driver/format/RowBinaryWithNamesAndTypes.cpp:47-76 | an encoding of at most ten bytes gives its mathematical value, or is refused if and only if that is at least 2^64 |
| Uleb128.RoundTrip | driver/format/RowBinaryWithNamesAndTypes.cpp:47-76 | every 64-bit integer is decoded from its encoding |
| Uleb128.UndefinedExactly | driver/format/RowBinaryWithNamesAndTypes.cpp:57-72 | the shift runs over the width of the type if and only if ten bytes ask for an eleventh and the tenth holds at most one bit |
| Uleb128.ElevenBytes | driver/format/RowBinaryWithNamesAndTypes.cpp:57-72 | an encoding of zero in eleven bytes for which the shift has no meaning |
| Utf8Length.StringLength | driver/utils/conversion_icu.h:252-293 | the skipping loop follows Count |
| Utf8Length.SignatureIsMark | driver/utils/unicode_converter.h:20-32 | a string begins with the signature if and only if its first character is U+FEFF |
| Utf8Length.LengthOfValid | driver/utils/conversion_icu.h:252-293 | for valid UTF-8 the length is the number of characters behind one leading signature, and no subtraction is cut off |

## Left out

- The network: curl, TLS, certificates, redirects and the inactivity timeout. A transfer is a finite list of chunks and a final code; the response headers are the exception tag, the encoding and what makes an encoding unsupported.
- The zstd library: an abstract decoder with the laws stated in `BodyStream.Decoder`, which says that a call with input and room makes progress; the guard against calls without progress in fill() is not modelled. End-to-end recovery of exceptions from compressed bodies is stated for decoders that are `CompressedBody.Fluent`; a stream with empty frames inside it, for which a call may stop without output, is not.
- HttpClient.HttpResponse.Fill: buffers are sequences, and their fields are grouped in one record; addresses are not modelled, a counter tells when the buffer is moved.
- ThreadPool.PoolIsSound: reference counts, failures to create a thread and exceptions of a runnable (which run() catches) are not modelled; a thread that is started runs.
- PoolFairness.JobFinishes: fairness is that of a scheduler for threads; that joinAll itself returns is stated only as far as its notification.
- RunnableQueue.RunnablePriorityQueue.Push: of the heap order only the place of the maximum is modelled, as a stand-in for std::push_heap and std::pop_heap.
- QueryParameters.ScanFollowsSql: comments and backticks are not quotes for the scan, nor for the lemma; a '?' in them is a marker.
- QueryParameters.Statement.GeneratePlaceholder: candidates for placeholders come from a finite list, and running out of it is an outcome of its own; random UUIDs are not modelled, and neither is the end of the retry loop.
- EscapeSemantics.RewriteMeans: the semantics of ClickHouse's functions and the definitions of ODBC are those of their documentation, for arguments that ODBC defines; UTF-8, SOUNDEX, cosine and sine, the names of days and months and the calendar are arbitrary functions, and numbers do not overflow.
- HttpRequest.PrepareHttpRequest: values are given as their text; reading them out of bound buffers (offsets, strides, indicators) is not modelled.
- RequestQuery.FinalQuery: what is sent when a name from the IPD contains an '@' and may be taken for a placeholder.
- EscapeTranslation.Function: where the source loops for ever at a vertical tab, the model returns the outcome Endless; a text without vertical tabs never reaches it.
- EscapeSequences.ProcessFunction: the branches that differ only in the number of arguments and in the text they build share one branch that reads a table.
- EscapeItems.FineCall: the trees are of sequences with one function, date, time or parameter. Several of them between one pair of braces, which the loop over the parts also accepts, names and types that end in a dot, and text behind an argument of CONVERT that is not a type name are covered by SequenceBody, ArgumentCopies and ParenthesesCopy only.
- Descriptors, diagnostics, mutators and SQL_DIAG_ROW_COUNT in the execution of parameter sets; the size of the array does not change between the calls.
- TypeParsing.RoundTrip: names that contain both kinds of quotes cannot be written. Pointers into the tree are paths from its root.
- Decimals.PrintText: printing starts from an empty string, and running out of memory is an exception at the largest size of a string.
- ConnectionStrings.RoundTrip: the case-insensitive comparison of UTF-8 text is an arbitrary function on keys; the results of the theorem do not depend on it.
- PartialReads.FillOutputString: the conversion of encodings (ICU) is not modelled; the string is given in the application's symbols, and offsets are whole symbols.
- RowDelivery.TableRead: fields are their bytes; the conversion of values, column display sizes, row mutators and object pools are not modelled. Numbers on the wire are little-endian.
- Utf8Length.StringLength: what it returns for invalid UTF-8.
- The constructor of RowBinary result sets and its typed values, except for the size of strings.
- processIdentifierOrFunction, which nothing calls; dates, times and floating-point values, which rest on the C library; DSN files, logging, attributes, catalog functions and setup dialogs.
- Bytes are characters, and letters, digits and spaces are those of the C locale.
