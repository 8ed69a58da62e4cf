# Verification of the hrs server libraries

A Dafny 4.11 model of six components of the C++ request server: its SHA-256 implementation, its SQL
template binder, its asynchronous request processors, its connection pool, its two dataset formats
and its sessions with the client's keep-alive loop. `dafny verify dfyconfig.toml` checks all of it.

Code that changes state in place is a class or a loop with the same fields, branches and order of
writes; each of its methods is proved against a function on values. The theorems are about those
functions, for every input or every run. Where the code departs from what it evidently wants to do,
the code's behaviour is what is modelled, together with the exact condition under which both agree.

## Components

- **SHA-256** (`Fips180.dfy`, `Fips180Theorems.dfy`, `Fips180Constants.dfy`, `Sha256.dfy`,
  `Sha256Correctness.dfy`). `Fips180` is a recursive, one-shot definition of the hash function written
  from FIPS 180-4 (sections 4.1.2, 4.2.2, 5.1.1, 5.2.1, 5.3.3 and 6.2.2); it knows nothing about buffers
  or chunks. Its functions are characterised apart from their formulas, bit by bit and as rotations, and
  its constants as the roots of the first primes, which are proved to be these. `Sha256.Hasher` is the streaming
  hasher with its own macros and table: a 128-byte buffer, eight 32-bit registers, 32-bit counters, all
  updated in place. Any split
  of a message into chunks gives the reference digest if the message is shorter than 2^29 bytes. The
  bound is exact as far as the padding goes: the length field has 32 bits only, so the hashed stream
  is the one of the standard if and only if the message is shorter than that.
- **SQL binder** (`Text.dfy`, `SqlLexer.dfy`, `BinderParser.dfy`, `BinderTheorems.dfy`,
  `SqlLexerTheorems.dfy`, `BinderSplice.dfy`, `Binder.dfy`). `SqlLexer` is a lexer for SQL templates as one would write it:
  maximal names, `''` in strings, line comments up to the line feed, block comments that do not nest.
  `SqlLexerTheorems` writes down the texts that are one token each, for all contents.
  `BinderParser.Parse` is the scanner of the repository with its flags and one character of
  look-ahead. The scanner differs from the lexer: it swallows the character that ends a variable, so
  that a `::`, a comment or another variable directly behind one is misread; a line comment also ends
  at an asterisk-slash pair; a lone colon aborts it. `ScanIsLexIff` says exactly on which templates
  the two give the same tokens, and the lemmas behind it give templates on which they do not. `Binder`
  adds the bound values and the cached statement. These things there are as in the code.
  `isVariableParsed` answers the opposite of its name. `unbind` leaves the cached statement alone; its
  contract says exactly when the cache is stale afterwards, `StatementAfterUnbind` gives inputs.
  `bind` brings a name to lower case and does not trim it, `isBinded` and `unbind` trim it and do not
  bring it to lower case: `BoundIsFoundIff` says exactly when a name that was bound is found,
  `UpperCaseNotFound` and `UntrimmedNotFound` give inputs on which it is not. A name bound again keeps
  its value exactly if it is given with its colon or the value is the same (`RebindKeepsIff`, inputs in
  `BindTwice`). `bindOne` for a character array always formats its value, and so quotes truth values as
  well; `BindOneText` says exactly when that shows.
- **Request protocol** (`RequestProtocol.dfy`, `RequestProtocolSafety.dfy`,
  `RequestProtocolAccounting.dfy`, `RequestProtocolStartup.dfy`, `RequestServer.dfy`). Processors move
  from CREATE over PROCESS to FINISH and delete themselves; their addresses are the tags of one completion queue that all workers
  share. A state machine interleaves any number of workers, with the write of a status and the posting
  of the operation as separate steps, and addresses that may be used again after a deletion. The only
  assumption on the queue is that a posted operation is delivered once, to any worker, in any order. A
  posted Finish carries its code, so that it is known what each client is told.
  A stream arms a new processor at every event in PROCESS, not only at the first: the accounting
  theorem counts these, and `ArmedWithoutBound` gives runs in which one started processor leads to any
  number of armed ones. `RequestServer` has the code of `run` and of the worker in place. Between any
  two of its actions other workers take arbitrary steps; the state of a server stays that of a run of
  the protocol, so that all theorems about runs hold of the code at any time.
- **Connection pool** (`ConnectionPool.dfy`, `ConnectionPoolTheorems.dfy`). A map from key to FIFO
  queue; each critical section is one event, and the theorems are about all sequences of events.
  `clear` leaves empty queues in the map, and `getConnection` then looks at the front of one. Over all
  runs, `FrontOfEmptyIff` says exactly when: a clear found the key in the map, and no connection has been
  added to its queue since. `FrontAfterClearIff` has it in terms of what users of the pool do; a pool of
  capacity 0 never recovers.
- **Datasets** (`Datasets.dfy`, `DatasetTheorems.dfy`). A sparse and a dense form of a grid behind one
  wrapper, the container with its cached writers, and the handler that fills a reply from a query.
- **Sessions and keep-alive** (`Sessions.dfy`, `KeepAlive.dfy`). Clock readings are parameters. The
  map from login to session is never filled, removing a session by id leaves its stamp in place, and
  a pass of `clearExpired` refreshes the sessions that are still valid: a session is accepted exactly
  if no gap between two touches, such passes included, was longer than the expiry (`RemovedIsAccepted`
  and `SweptIsAccepted` give inputs). The client's loop is proved against this with an exact bound on
  what a cycle may take, and other requests in between do no harm.

## Model

| member | source | states |
|---|---|---|
| Fips180.BytesOf | utils/sl_sha256.cpp:47-53 | the four bytes of a word, most significant first: packing them gives the word back |
| Fips180.ZeroBits | utils/sl_sha256.cpp:162-166 | FIPS 180-4 section 5.1.1: the number of zero bits is the smallest that makes length + 1 + zeros congruent 448 modulo 512 |
| Fips180.ZeroBytesFillTheBlock | utils/sl_sha256.cpp:162-166 | for whole bytes the zero bits end on a byte boundary and the length field ends on a block boundary |
| Fips180.HashValueAppend | utils/sl_sha256.cpp:90-116 | hashing j + i blocks is hashing j blocks and then, from that value, i more |
| Fips180.HashValuePrefix | utils/sl_sha256.cpp:90-116 | the hash value after n blocks depends on these blocks only |
| Fips180Theorems.ChChooses | utils/sl_sha256.cpp:41 | where x has a 1 the result has y's bit, elsewhere z's |
| Fips180Theorems.MajIsMajority | utils/sl_sha256.cpp:42 | every bit is as in two of the three |
| Fips180Theorems.RotRRotates | utils/sl_sha256.cpp:39-46 | the shifts are the rotation of words, for each amount in use |
| Fips180Theorems.BigSigma0Rotates | utils/sl_sha256.cpp:43 | rotations by 2, 13 and 22 |
| Fips180Theorems.BigSigma1Rotates | utils/sl_sha256.cpp:44 | rotations by 6, 11 and 25 |
| Fips180Theorems.SmallSigma0Rotates | utils/sl_sha256.cpp:45 | rotations by 7 and 18 and a shift by 3 |
| Fips180Theorems.SmallSigma1Rotates | utils/sl_sha256.cpp:46 | rotations by 17 and 19 and a shift by 10 |
| Fips180Theorems.PlusAdds | utils/sl_sha256.cpp:95-115 | addition modulo 2^32 is the addition of 32-bit words |
| Fips180Theorems.Xor3Adds | utils/sl_sha256.cpp:43-46 | the three rotations or shifts are added bit by bit |
| Fips180Theorems.WordOfIsBigEndian | utils/sl_sha256.cpp:54-60 | the first byte is the most significant one |
| Fips180Theorems.FirstScheduleWords | utils/sl_sha256.cpp:92-94 | the first 16 words are the bytes of the block, four at a time, in big-endian order |
| Fips180Theorems.ScheduleSpelledOut | utils/sl_sha256.cpp:95-97 | each later word from those 2, 7, 15 and 16 places before it |
| Fips180Theorems.RoundSpelledOut | utils/sl_sha256.cpp:101-112 | all eight variables after a round |
| Fips180Constants.PrimesInOrder | utils/sl_sha256.cpp:63-79 | the table of primes is the first 64 primes, in order and without gaps |
| Fips180Constants.KIsFromPrimes | utils/sl_sha256.cpp:63-79 | FIPS 180-4 section 4.2.2: each constant is the first 32 bits of the fraction of the cube root of its prime |
| Fips180Constants.H0IsFromPrimes | utils/sl_sha256.cpp:121-128 | FIPS 180-4 section 5.3.3: likewise with the square roots of the first eight primes |
| Sha256.ChooseIsCh | utils/sl_sha256.cpp:41 | the hasher's macro is the standard's function |
| Sha256.MajorityIsMaj | utils/sl_sha256.cpp:42 | the hasher's macro is the standard's function |
| Sha256.F1IsBigSigma0 | utils/sl_sha256.cpp:43 | the hasher's macro is the standard's function |
| Sha256.F2IsBigSigma1 | utils/sl_sha256.cpp:44 | the hasher's macro is the standard's function |
| Sha256.F3IsSmallSigma0 | utils/sl_sha256.cpp:45 | the hasher's macro is the standard's function |
| Sha256.F4IsSmallSigma1 | utils/sl_sha256.cpp:46 | the hasher's macro is the standard's function |
| Sha256.Pack32IsWordOf | utils/sl_sha256.cpp:54-60 | packing four bytes, last byte first, gives the big-endian word |
| Sha256.TableIsStandard | utils/sl_sha256.cpp:63-79 | the hasher's table has the standard's constants at all 64 places |
| Sha256.Hasher.constructor | utils/sl_sha256.cpp:179-180 | a new hasher stands at the initial hash value with nothing buffered |
| Sha256.Hasher.Init | utils/sl_sha256.cpp:119-131 | the registers hold the initial hash value of section 5.3.3, counters are zero |
| Sha256.Hasher.Transform | utils/sl_sha256.cpp:82-117 | in place on the registers, n blocks are n reference compressions |
| Sha256.Hasher.TransformBlock | utils/sl_sha256.cpp:91-115 | one pass of the outer loop is one reference compression |
| Sha256.Hasher.Schedule | utils/sl_sha256.cpp:92-97 | the two loops fill w with the recursively defined message schedule |
| Sha256.Hasher.RunRounds | utils/sl_sha256.cpp:101-112 | the 64 in-place rounds are the 64 reference rounds |
| Sha256.Hasher.RoundInPlace | utils/sl_sha256.cpp:102-111 | the rotation of wv, last register first, is the simultaneous assignment of a..h |
| Sha256.Hasher.AddRegisters | utils/sl_sha256.cpp:113-115 | every register gets its working variable added, modulo 2^32 |
| Sha256.Hasher.CopyIn | utils/sl_sha256.cpp:140-151 | the buffer up to the copied bytes is its old front and then these bytes |
| Sha256.Hasher.Update | utils/sl_sha256.cpp:133-154 | update takes the abstract state to the one where every whole block of buffered + message is hashed and the rest is buffered |
| Sha256.Hasher.HashBlocks | utils/sl_sha256.cpp:145-153 | the branch in which the buffer is full, proved against the same function |
| Sha256.Hasher.Final | utils/sl_sha256.cpp:156-172 | the digest is that of the buffered bytes, 0x80, zeros and the bit length, and all writes stay in the buffer |
| Sha256.Hasher.WriteDigest | utils/sl_sha256.cpp:169-171 | the loop writes the registers in order, each in big-endian bytes |
| Sha256.Hasher.PadInPlace | utils/sl_sha256.cpp:162-167 | the padding written in place is the final blocks, one of them iff at most 55 bytes are buffered |
| Sha256.Hasher.Unpack32 | utils/sl_sha256.cpp:47-53 | writes the big-endian bytes of a word and nothing in front of them |
| Sha256.AbsorbAppend | utils/sl_sha256.cpp:133-154 | two updates leave the state of one update with the concatenation, from any state |
| Sha256.ChunkingIrrelevant | utils/sl_sha256.cpp:133-154 | so do any number of updates: hash, buffered bytes and counter do not depend on the chunks |
| Sha256.AbsorbWithBlocks | utils/sl_sha256.cpp:145-153 | completing the buffer and hashing the remaining whole blocks is hashing the whole blocks of the concatenation |
| Sha256Correctness.FinishHashesStream | utils/sl_sha256.cpp:174-189 | init, update, final is one fold of the compression over the message followed by its padding |
| Sha256Correctness.StreamShape | utils/sl_sha256.cpp:156-168 | what is hashed: the message, 0x80, the zeros, the 32-bit length; 0x80 never meets the length field |
| Sha256Correctness.LengthWraps | utils/sl_sha256.cpp:153-163 | counting hashed bytes modulo 2^32 does not change the length field |
| Sha256Correctness.PaddingIsStandardIff | utils/sl_sha256.cpp:162-167 | the hashed stream is the standard's padded message if and only if the message is shorter than 2^29 bytes |
| Sha256Correctness.StreamingIsSha256 | utils/sl_sha256.cpp:119-172 | for every list of chunks totalling less than 2^29 bytes the result is the SHA-256 digest of FIPS 180-4 |
| Sha256Correctness.StreamIsShortest | utils/sl_sha256.cpp:162-164 | no smaller number of blocks has room for the message, 0x80 and eight length bytes |
| Sha256Correctness.UnpadHashedStream | utils/sl_sha256.cpp:156-168 | every message, of any length, can be read back from its padded stream |
| Sha256Correctness.HashedStreamInjective | utils/sl_sha256.cpp:156-168 | distinct messages have distinct padded streams |
| Sha256Correctness.Sha256Hex | utils/sl_sha256.cpp:174-189 | 64 hexadecimal digits of the digest of the hashed stream, which is the standard digest below 2^29 bytes |
| Sha256Correctness.UnhexHex | utils/sl_sha256.cpp:186-187 | the hexadecimal text determines the digest |
| Text.ToLower | utils/sl_utils.cpp:15-21 | same length, character by character |
| Text.LTrim | utils/sl_utils.cpp:28-31 | the longest white-space prefix, and nothing else, is gone |
| Text.RTrim | utils/sl_utils.cpp:33-36 | the longest white-space suffix, and nothing else, is gone |
| BinderParser.Parse | sql_lib/sl_binder.cpp:102-200 | the flag-driven loop accepts exactly the templates without a stray colon and returns exactly the variables of the scanner's lexemes |
| BinderParser.EndVariable | sql_lib/sl_binder.cpp:149-169 | the branch that ends a variable stores it and goes on behind the swallowed character, or its assertion fails and the template is not accepted |
| BinderParser.TokensAfterVariable | sql_lib/sl_binder.cpp:149-169 | scanning on directly behind a variable finds what scanning from behind the swallowed character, or the string it opens, finds |
| BinderParser.StopAtStray | sql_lib/sl_binder.cpp:166 | a lone colon makes the assertion on the name fail |
| BinderParser.FinishScan | sql_lib/sl_binder.cpp:111-200 | at the end of the input the variables found are all of them, a colon as the last character included |
| SqlLexerTheorems.NameCharacters | utils/sl_utils.cpp:23-26 | exactly the digits, letters and the underscore, by their codes |
| SqlLexerTheorems.SpaceCharacters | utils/sl_utils.cpp:28-36 | exactly the six white-space characters, by their codes |
| SqlLexerTheorems.SameKeyInAnyCase | utils/sl_utils.cpp:15-21 | two names have the same lower case iff they differ in the case of letters only |
| SqlLexerTheorems.StringEndsAt | sql_lib/sl_binder.cpp:130-142 | a string with any content, its quotes doubled, ends behind the next single quote |
| SqlLexerTheorems.StringDoesNotEnd | sql_lib/sl_binder.cpp:130-142 | without that quote it does not end |
| SqlLexerTheorems.QuotedToken | sql_lib/sl_binder.cpp:130-147 | such a string is one token, wherever it stands |
| SqlLexerTheorems.LineCommentToken | sql_lib/sl_binder.cpp:193-198 | two hyphens and all up to the line feed are one token |
| SqlLexerTheorems.BlockCommentToken | sql_lib/sl_binder.cpp:185-191 | a block comment ends at its first closing pair |
| SqlLexerTheorems.CommentEndIsFirst | sql_lib/sl_binder.cpp:114-128 | the scanner leaves a comment at the first line feed (in a line comment), closing pair, or asterisk at the end of the template |
| SqlLexerTheorems.CastToken | sql_lib/sl_binder.cpp:171-175 | two colons are one token |
| SqlLexerTheorems.VariableToken | sql_lib/sl_binder.cpp:149-183 | a colon and all name characters behind it are one token |
| SqlLexerTheorems.NameIsOneVariable | sql_lib/sl_binder.cpp:102-200 | a template that is a colon and any name is accepted and parsed as that one variable |
| SqlLexerTheorems.VariableBehindString | sql_lib/sl_binder.cpp:134-137 | a variable behind a string with a doubled quote is found |
| BinderTheorems.ScanIsLexIff | sql_lib/sl_binder.cpp:102-200 | the scanner reads exactly the reference tokens if and only if no variable is directly followed by a cast, comment or variable, no line comment contains an asterisk-slash pair, and a lone colon is last or behind a variable |
| BinderTheorems.StepIsLexIff | sql_lib/sl_binder.cpp:111-198 | the same for one lexeme |
| BinderTheorems.LineEndsAgreeIff | sql_lib/sl_binder.cpp:114-128 | a line comment ends where it should if and only if it contains no asterisk-slash pair |
| BinderTheorems.BlockEndsAgree | sql_lib/sl_binder.cpp:114-128 | a block comment always ends where it should |
| BinderTheorems.ParsesSqlVariables | sql_lib/sl_binder.cpp:102-200 | on the templates of ScanIsLexIff parse succeeds and returns exactly the variables of the reference lexer |
| BinderTheorems.CastBehindVariable | sql_lib/sl_binder.cpp:149-169 | `:a::b` is parsed as two variables for all names a, b, though it is one variable and a cast |
| BinderTheorems.VariableBehindVariable | sql_lib/sl_binder.cpp:149-169 | in `:a:b` the second variable is not seen |
| BinderTheorems.CommentBehindVariable | sql_lib/sl_binder.cpp:149-169 | in `:a--:b` the comment is not seen and its content becomes a variable |
| BinderTheorems.LineCommentClosedEarly | sql_lib/sl_binder.cpp:120-125 | a variable behind an asterisk-slash pair in a line comment is taken for real |
| BinderTheorems.LoneColonAborts | sql_lib/sl_binder.cpp:166 | a colon before a space is no variable and aborts the scanner |
| BinderTheorems.ParsingComposes | sql_lib/sl_binder.cpp:111-198 | if t1 ends in white space outside of strings and comments, parsing t1 + t2 is parsing t1, then t2 with positions shifted, and it is accepted iff both parts are |
| BinderTheorems.ScanShift | sql_lib/sl_binder.cpp:111-198 | a lexeme of the second part does not depend on the first part |
| BinderTheorems.ScanExtends | sql_lib/sl_binder.cpp:111-198 | a closed lexeme of the first part is not changed by what follows, in spite of the special cases at the end of input |
| BinderSplice.ParsedSpans | sql_lib/sl_binder.cpp:155-165 | the stored variables are strictly ordered, disjoint, in range, and named by their lower-cased text |
| BinderSplice.Calculate | sql_lib/sl_binder.cpp:57-79 | the loop with its shift computes the text with each span replaced by its value, and an unbound one by nothing |
| BinderSplice.SpliceIsRender | sql_lib/sl_binder.cpp:57-79 | splicing by position is one-pass substitution over the tokens: other text is kept and values are never scanned again |
| BinderSplice.RenderedAsSql | sql_lib/sl_binder.cpp:57-200 | on the templates of ScanIsLexIff exactly the variables of the reference lexer are substituted |
| BinderSplice.RenderedLength | sql_lib/sl_binder.cpp:57-79 | result length = template length - lengths of the names + lengths of the values |
| BinderSplice.LowerVariablesIsTemplateIff | sql_lib/sl_binder.cpp:155-160 | lower-casing the variables changes nothing iff they are in lower case |
| BinderSplice.BindingRoundTrip | sql_lib/sl_binder.cpp:57-79 | binding each variable to its own name gives the template with lower-cased variables, and the template itself iff they are in lower case already |
| BinderSplice.RenderedChangesIff | sql_lib/sl_binder.cpp:57-79 | another value for one name changes the statement iff the name occurs and the values differ |
| BinderSplice.RenderedWithoutIff | sql_lib/sl_binder.cpp:313-324 | removing a value changes the statement iff the variable occurs and its value is not empty |
| Binder.Binder.constructor | sql_lib/sl_binder.cpp:206-209 | a trimmed template, no values, nothing cached |
| Binder.FormattedSpelledOut | sql_lib/sl_binder.cpp:294-303 | a formatted value is NULL if it is empty, and else quoted; an unformatted one is inserted as it is; trimming comes first |
| Binder.Binder.Prepare | sql_lib/sl_binder.cpp:238-243 | everything is reset, the new template is trimmed |
| Binder.Binder.Bind | sql_lib/sl_binder.cpp:280-306 | the name, in lower case and with a colon, is bound; it keeps an earlier value iff it was given with its colon, and else has the text, trimmed, quoted or NULL on request; no other value changes |
| Binder.Binder.Sql | sql_lib/sl_binder.cpp:326-338 | the cached statement if there is one, else the one-pass substitution of the current values |
| Binder.Binder.ParsedData | sql_lib/sl_binder.cpp:418-423 | parses on demand, at most once per template |
| Binder.Binder.ClearBinds | sql_lib/sl_binder.cpp:340-344 | no values and no cached statement are left |
| Binder.Binder.Unbind | sql_lib/sl_binder.cpp:313-324 | the value is gone; a cached statement stays right iff the variable does not occur or its value was empty; the name is not found any more |
| Binder.Binder.IsVariableParsed | sql_lib/sl_binder.cpp:96-100 | true exactly if the variable does not occur in the template |
| Binder.RebindKeepsIff | sql_lib/sl_binder.cpp:284-305 | binding a bound name again keeps its value iff the name carries its colon or the value is the same; other values stay |
| Binder.FirstBindStores | sql_lib/sl_binder.cpp:284-305 | the first bind of a name stores its value, with or without the colon |
| Binder.StatementAfterUnbind | sql_lib/sl_binder.cpp:313-338 | inputs on which the statement after an unbind is stale |
| Binder.BindTwice | sql_lib/sl_binder.cpp:280-306 | inputs for both outcomes of a second bind |
| Binder.SameKeyIff | sql_lib/sl_binder.cpp:216-338 | bind and the lookup of isBinded and unbind mean the same key iff the name is trimmed and in lower case |
| Binder.BoundIsFoundIff | sql_lib/sl_binder.cpp:216-338 | after a bind, the same name passes the assertion of unbind iff it is trimmed and in lower case, or the lookup found it before |
| Binder.UpperCaseNotFound | sql_lib/sl_binder.cpp:284-321 | a bound upper-case name does not pass that assertion |
| Binder.UntrimmedNotFound | sql_lib/sl_binder.cpp:284-321 | a name bound with a blank behind it does not pass it either |
| Binder.BindOne | sql_lib/sl_binder.cpp:395-401 | the statement with this one value |
| Binder.BindOneText | sql_lib/sl_binder.cpp:403-407 | the value is always formatted; the result is that of BindOne iff formatting was asked for or the variable does not occur |
| Binder.BindOneBool | sql_lib/sl_binder.cpp:360-363 | a truth value is substituted as a quoted word |
| RequestProtocolSafety.StepInv | server_lib/sl_request_processor.h:100-217 | every step of every worker keeps the invariant: references, statuses and histories fit together |
| RequestProtocolSafety.RunInv | server_lib/sl_request_worker.cpp:57-85 | hence it holds in every interleaving of any number of workers |
| RequestProtocolSafety.MakeInv | server_lib/sl_request_worker.cpp:45 | creating a processor keeps the invariant, at a new address or at that of a deleted processor |
| RequestProtocolSafety.DequeueInv | server_lib/sl_request_worker.cpp:63-68 | taking a completion moves its tag from the queue to one worker |
| RequestProtocolSafety.RunFinishInv | server_lib/sl_request_processor.h:117-120 | deletion keeps the invariant |
| RequestProtocolSafety.RearmSendInv | server_lib/sl_request_processor.h:102-109 | posting the request of a successor hands it to the queue with its status already written |
| RequestProtocolSafety.SendFinishInv | server_lib/sl_request_processor.h:205-207 | posting Finish hands the processor to the queue, in FINISH and for the last time |
| RequestProtocolSafety.SendWriteInv | server_lib/sl_request_processor.h:209-211 | posting a write hands the processor of a stream to the queue, in PROCESS |
| RequestProtocolSafety.OnePlace | server_lib/sl_server.cpp:134-149 | in every run each live processor is the tag of exactly one outstanding operation or is held by exactly one worker, never both |
| RequestProtocolSafety.DequeuedIsLive | server_lib/sl_request_worker.cpp:67-82 | every tag in the queue is live with the status its operation needs: FINISH for a Finish, else PROCESS |
| RequestProtocolSafety.DeletedIsForgotten | server_lib/sl_request_processor.h:117-120 | after `delete this` no operation and no worker refers to the address |
| RequestProtocolSafety.NoWorkerStuck | server_lib/sl_request_worker.cpp:57-85 | a worker that has not stopped can always act, the assertions in run included, or idles over the queue and can take any operation in it |
| RequestProtocolSafety.RetiredCallsComplete | server_lib/sl_request_processor.h:100-217 | every deleted call posted one request, then writes, then one Finish with the code of its last event; its handler ran once per OK event; the client of a unary call was told OK iff its handler ran, which it did at most once |
| RequestProtocolSafety.CallsWellFormed | server_lib/sl_request_processor.h:100-217 | every processor of every run, live ones included, has posted nothing, a request and then writes, or that and one Finish; its handler has run once per OK event but for at most one that is on its way; a unary call is handled at most once |
| RequestProtocolAccounting.StepConserves | server_lib/sl_request_processor.h:107-109 | every step keeps the balance of armed processors |
| RequestProtocolAccounting.RunConserves | server_lib/sl_request_processor.h:100-217 | for each method, armed processors plus workers on the way to re-arming are the processors started plus one per completed write; unary methods write nothing |
| RequestProtocolAccounting.ArmedEffect | server_lib/sl_request_processor.h:102-109 | armed processors grow by posted requests and shrink by their completions only |
| RequestProtocolAccounting.DequeueEffect | server_lib/sl_request_worker.cpp:63-68 | a dequeued request or write makes its worker re-arm, a dequeued Finish does not |
| RequestProtocolStartup.StepBalance | server_lib/sl_request_worker.cpp:42-50 | every step keeps the sum of started processors and those still to be started by all workers |
| RequestProtocolStartup.RunBalance | server_lib/sl_request_worker.cpp:42-50 | in every interleaving, what was started and what is still to be started by all workers is one per worker, service and method |
| RequestProtocolStartup.AllStarted | server_lib/sl_request_worker.cpp:42-50 | once all workers are past their start, one processor per worker, service and method was started, and the armed ones plus the workers on the way to re-arming are these and one per completed write |
| RequestProtocolStartup.ArmedWithoutBound | server_lib/sl_request_processor.h:196-199 | for every n there is a run in which one started processor of a stream leads to n + 1 armed ones |
| RequestServer.Server.constructor | server_lib/sl_server.cpp:134-149 | no processor and no operation, every worker about to start: the first state of a run |
| RequestServer.Server.Others | server_lib/sl_request_worker.cpp:57-85 | whatever other workers do, the state stays that of a run, and what this worker holds stays as it was |
| RequestServer.Server.CreateRequestProcessor | server_lib/sl_request_processor.h:107 | a successor for the same method, at an address that was free |
| RequestServer.Server.RunSuccessor | server_lib/sl_request_processor.h:102-104 | status first, then the posted request, whatever happens in between |
| RequestServer.Server.HandleRequest | server_lib/sl_request_processor.h:201-203 | the handler runs if and only if the code is OK |
| RequestServer.Server.FinishCall | server_lib/sl_request_processor.h:205-207 | FINISH is written, then Finish is posted, whatever happens in between |
| RequestServer.Server.Answer | server_lib/sl_request_processor.h:205-211 | the call is finished, or a write is posted |
| RequestServer.Server.RunInProcess | server_lib/sl_request_processor.h:106-115 | with other workers acting between all actions: a successor is armed, the handler runs iff the code is OK, and one Finish or Write is posted |
| RequestServer.AnswerSpelledOut | server_lib/sl_request_worker.cpp:72-82 | the answer is a write iff the session is in order and the handler goes on; else Finish with OK, with INVALID_ARGUMENT iff no session was found, with UNAUTHENTICATED iff it is not valid |
| RequestServer.Server.Delete | server_lib/sl_request_processor.h:117-120 | the processor is gone and nothing refers to its address |
| RequestServer.Server.MakeProcessor | server_lib/sl_request_worker.cpp:45 | one more processor of a service |
| RequestServer.Server.CreateRequestProcessors | server_lib/sl_request_worker.cpp:45 | one new processor per method of the service, in order |
| RequestServer.Server.RunCreated | server_lib/sl_request_processor.h:102-104 | the first run of a processor: status, then the posted request |
| RequestServer.Server.RunProcessors | server_lib/sl_request_worker.cpp:46-48 | all processors of the service are started |
| RequestServer.Server.RunRequestProcessorsPool | server_lib/sl_request_worker.cpp:42-50 | under any interference, this worker starts exactly one processor per method of every service |
| RequestServer.Server.RunEvent | server_lib/sl_request_worker.cpp:63-85 | dequeue and run with the given code, under any interference |
| RequestServer.Server.ProcessEvent | server_lib/sl_request_worker.cpp:66-83 | for any outstanding operation in any reachable state and under any interference: which code the processor is run with, whether the handler runs, how often it has run then, which operation is posted and which code it sends to the client, each from what was found out about the session; after a Finish the processor is forgotten |
| RequestServer.HandlerRunsIff | server_lib/sl_request_worker.cpp:72-82 | the same about the part of the run, with the steps of all workers interleaved |
| RequestServer.Server.AlwaysHolds | server_lib/sl_request_processor.h:100-217 | of the code at any time: one reference per live processor, live tags in the right status, calls in order, and the balance of armed processors |
| RequestServer.Server.ArmedOnceStarted | server_lib/sl_request_worker.cpp:42-50 | once started, for each method: armed plus re-arming = workers x processors per worker + completed writes |
| ConnectionPool.Pool.constructor | sql_lib/sl_connection_pool.cpp:19-23 | an empty map |
| ConnectionPool.Pool.GetConnection | sql_lib/sl_connection_pool.cpp:30-78 | the front of the key's queue, else the opened connection, else failure; undefined exactly on an empty queue |
| ConnectionPool.Pool.ReleaseConnection | sql_lib/sl_connection_pool.cpp:70-150 | deleted iff it is closed, the pool shuts down, or its queue exists and has reached the capacity; else the last of its queue |
| ConnectionPool.Pool.ClearAll | sql_lib/sl_connection_pool.cpp:80-94 | all pooled connections are deleted, the result is exactly their number, the keys stay with empty queues |
| ConnectionPool.Pool.DrainQueue | sql_lib/sl_connection_pool.cpp:86-90 | one queue is emptied and its length returned |
| ConnectionPoolTheorems.RunKeeps | sql_lib/sl_connection_pool.cpp:30-150 | over every run each connection is in one position of one queue, lent, or deleted; queues hold their own key only, at most max(1, capacity) |
| ConnectionPoolTheorems.EventKeeps | sql_lib/sl_connection_pool.cpp:30-150 | the same for one critical section |
| ConnectionPoolTheorems.GivenBackIsDeletedIff | sql_lib/sl_connection_pool.cpp:126-149 | the same about the events: deleted under exactly this condition, else at the end of its queue |
| ConnectionPoolTheorems.ConnectionsConserved | sql_lib/sl_connection_pool.cpp:30-150 | created = pooled + lent + deleted in every interleaving |
| ConnectionPoolTheorems.RunIsFifo | sql_lib/sl_connection_pool.cpp:43-44 | over any run what left a queue, then what is in it, is what was in it, then what was added, in the same order |
| ConnectionPoolTheorems.NoEmptyQueueIff | sql_lib/sl_connection_pool.cpp:46-47 | queues stay non-empty under every event but a clear of a non-empty map |
| ConnectionPoolTheorems.FrontOfEmptyIff | sql_lib/sl_connection_pool.cpp:40-47 | over every run, a request meets an empty queue iff its key is starved: a clear found the key in the map and nothing was added to its queue since |
| ConnectionPoolTheorems.StarvedUntilAdded | sql_lib/sl_connection_pool.cpp:137-149 | without a clear, a starved key stays so exactly until a connection is added to its queue |
| ConnectionPoolTheorems.NothingAddedIff | sql_lib/sl_connection_pool.cpp:126-149 | an empty queue in the map gets nothing until the next clear iff its capacity is 0 or nobody gives an open connection back outside of a shutdown |
| ConnectionPoolTheorems.FrontAfterClearIff | sql_lib/sl_connection_pool.cpp:85-91 | however long after a clear, a request meets an empty queue iff its key was in the map when it was cleared and since then its queue got nothing, that is, the capacity is 0 or nobody gave an open connection back |
| ConnectionPoolTheorems.FrontAlwaysThere | sql_lib/sl_connection_pool.cpp:40-47 | a key that no clear finds in the map never gets an empty queue |
| ConnectionPoolTheorems.SameOptionsTwice | sql_lib/sl_connection_pool.cpp:96-114 | the same connection options set twice: the second call meets the empty queue |
| Datasets.Put | hrs_server/api/src/hrs_converter.cpp:251-282 | storing keeps rows rectangular, and a packet without empty rows, unset cells or cells out of its counts |
| Datasets.Cleared | hrs_server/api/src/hrs_converter.cpp:197-210 | so does clearing |
| Datasets.DatasetWrapper.Grow | hrs_server/api/src/hrs_converter.cpp:79-93 | each count of a packet becomes the larger of the old and the given one; a flat dataset is not changed, and its assertion is the precondition |
| Datasets.DatasetWrapper.CreateCell | hrs_server/api/src/hrs_converter.cpp:251-282 | row and cell exist afterwards, existing cells are kept |
| Datasets.DatasetWrapper.SetValue | hrs_server/api/src/hrs_converter.cpp:152-195 | grow, find or make the row and cell, store: in one step, the cell is set |
| Datasets.DatasetWrapper.ClearValue | hrs_server/api/src/hrs_converter.cpp:197-210 | the cell is removed, and its row with it if it was the last |
| Datasets.MakeFlat | hrs_server/api/src/hrs_converter.cpp:799-805 | the loops build the rectangle of unset cells |
| Datasets.Container.WriterHelper | hrs_server/api/src/hrs_converter.cpp:765-819 | the cached wrapper is the one on the container's dataset; a missing dataset is made and its wrapper cached, others are untouched |
| Datasets.Container.InitDataset | hrs_server/api/src/hrs_converter.cpp:715-728 | a new dataset has the given size, an existing packet grows, an existing flat one keeps its size |
| Datasets.HandleRequest | hrs_server/server/services/sql/exec_sql.cpp:10-45 | a select of any size is answered with a container that reads back the same counts and the same text in every cell; an error with its code and text; a command with neither; the result type is 1 for an error, 2 for a select, 3 for a command; there is no reply iff no query could be made |
| Datasets.TypesOfCells | hrs_server/api/src/hrs_converter.cpp:467-501 | which type stands for which kind of value; empty iff there is no value |
| DatasetTheorems.PutChangesOneCell | hrs_server/api/src/hrs_converter.cpp:152-195 | a setter changes its cell and no other, in both forms |
| DatasetTheorems.PutGrowsToFit | hrs_server/api/src/hrs_converter.cpp:259 | counts grow just enough |
| DatasetTheorems.FlatHoldsLastWrites | hrs_server/api/src/hrs_converter.cpp:278-281 | after any setter calls a flat cell holds the last value written, or is unset |
| DatasetTheorems.PacketHoldsLastWrites | hrs_server/api/src/hrs_converter.cpp:253-276 | after any setter calls a packet cell holds the last value written, or is absent |
| DatasetTheorems.FormsAgree | hrs_server/api/src/hrs_converter.cpp:222-282 | the same setter calls give both forms equal counts, equal type in every cell and equal value in every written cell |
| DatasetTheorems.HasValueDiffersIff | hrs_server/api/src/hrs_converter.cpp:95-98 | hasValue tells the forms apart on exactly the cells never written |
| DatasetTheorems.ClearChangesOneCell | hrs_server/api/src/hrs_converter.cpp:197-210 | clearing empties one cell and keeps all others and the counts |
| DatasetTheorems.RowInMemoryIff | hrs_server/api/src/hrs_converter.cpp:74-77 | a packet has a row iff the row holds a value |
| DatasetTheorems.ClearUndoesPut | hrs_server/api/src/hrs_converter.cpp:197-210 | clearing undoes the setting of an empty cell, rows included |
| Sessions.SessionManager.constructor | server_lib/sl_session_manager.cpp:7-10 | no sessions, 120 seconds |
| Sessions.SessionManager.SetExpire | server_lib/sl_session_manager.cpp:12-15 | the new expiry; sessions and logins stay |
| Sessions.SessionManager.CreateNewSession | server_lib/sl_session_manager.cpp:22-30 | the id is stamped, a session stored for the login is dropped, no login is stored |
| Sessions.SessionManager.CheckSession | server_lib/sl_session_manager.cpp:93-108 | true iff the id is known and its age in whole seconds is within the expiry; only then it is stamped anew |
| Sessions.SessionManager.RemoveSessionById | server_lib/sl_session_manager.cpp:65-80 | removes one login of the session, if there is one; the session stays |
| Sessions.SessionManager.RemoveSessionByLogin | server_lib/sl_session_manager.cpp:82-91 | removes the session of a stored login, and nothing otherwise |
| Sessions.SessionManager.ClearExpired | server_lib/sl_session_manager.cpp:50-63 | every valid session is stamped anew, every expired one keeps its old stamp |
| Sessions.StampTellsHistory | server_lib/sl_session_manager.cpp:93-108 | over any run a stamp is that of the last touch iff no gap was too long, and too old otherwise |
| Sessions.CheckTellsHistory | server_lib/sl_session_manager.cpp:32-36 | a check succeeds iff the id was created and every gap between consecutive touches, the last up to now, is within the expiry in whole seconds |
| Sessions.ExpiredForever | server_lib/sl_session_manager.cpp:99-103 | once a check failed, no later check of that id succeeds, whatever happens in between |
| Sessions.ExpiredIff | server_lib/sl_session_manager.cpp:99-100 | expired means that one second more than the expiry has passed |
| Sessions.CheckedIsAccepted | server_lib/sl_session_manager.cpp:93-108 | a successful check starts the expiry anew, a failed one does not, at inputs |
| Sessions.RemovalChangesNothing | server_lib/sl_session_manager.cpp:38-48 | a removal, by id or by login, changes no acceptance of any session at any time |
| Sessions.RemovedIsAccepted | server_lib/sl_session_manager.cpp:65-80 | a session removed at once is accepted 120 s later, with an expiry of 120 s |
| Sessions.SweptIsAccepted | server_lib/sl_session_manager.cpp:50-63 | a session unused for 200 s is accepted if clearExpired ran in between, and is not otherwise |
| KeepAlive.CheckPassesIff | hrs_server/client_lib/hrs_channel.cpp:56-58 | a keep-alive is accepted iff its cycle exceeds interval + 1 s by less than min(half the expiry rounded up, 20 s) |
| KeepAlive.IntervalSpelledOut | hrs_server/client_lib/hrs_channel.cpp:56-58 | for an expiry of 40 s or more the interval is 20 s less, below that half of it, rounded down |
| KeepAlive.FiringsWait | hrs_server/client_lib/hrs_keep_alive.cpp:42 | no keep-alive is sent before the interval and one more second have passed since the timer was set |
| KeepAlive.NothingSentIff | hrs_server/client_lib/hrs_keep_alive.cpp:42 | nothing is sent iff no poll comes that late |
| KeepAlive.FirstLatePollSends | hrs_server/client_lib/hrs_keep_alive.cpp:42-43 | the first poll that late sends, and the timer starts again there |
| KeepAlive.SendKeepAlive | hrs_server/client_lib/hrs_channel.cpp:97-120 | an error iff the request or the reply is lost, or the session is unknown or has expired; the server stamps the session unless the request is lost or it has expired |
| KeepAlive.Process | hrs_server/client_lib/hrs_keep_alive.cpp:36-48 | the polling loop against the server: it stops by itself iff some cycle is out of the slack or a message is lost, and the session carries the stamp of the last check the server made in time; for an unknown session it stops at the first poll that fires; if no poll comes late enough nothing is sent and no stamp changes |
| KeepAlive.PromptPollingSurvives | hrs_server/client_lib/hrs_keep_alive.cpp:36-48 | if polling delay plus growth of the latency stays within the slack, the session survives any number of cycles |
| KeepAlive.SlackIsExact | hrs_server/client_lib/hrs_channel.cpp:56-58 | a cycle that takes the whole slack is refused, one millisecond less is accepted |
| KeepAlive.MoreTouchesHelp | server_lib/sl_session_manager.cpp:93-108 | touches between keep-alives that keep up leave all gaps within the expiry |
| KeepAlive.EveryCheckSucceeds | hrs_server/client_lib/hrs_keep_alive.cpp:36-48 | in any run whose keep-alives are within the slack, with any other checks, sweeps and removals in between, each keep-alive and every other check is accepted |

## Left out

- Sha256.Hasher.Update: a call of 2^31 + 128 - m_len bytes or more is excluded, because there the signed index of the last block, times 64, leaves the range of int; any number of calls may follow each other.
- Sha256Correctness.Sha256Hex: 2^31 + 128 bytes or more, for the same reason.
- SHA-256: `createSalt` and `generateId` (utils/sl_sha256.cpp:191-207), which read the clock; collision resistance.
- BinderTheorems.ParsesSqlVariables: one direction only; the exact condition is the one on tokens in ScanIsLexIff, since different tokens can happen to hold the same variables.
- Binder.Binder.Sql: a template on which the scanner's assertion fails is excluded, because the program aborts there; the flag `halt_if_not_used` is accepted by the code and never used.
- Binder: the overloads of `bind` and `bindOne` for numbers, and of `bind` for truth values and character arrays, only convert their argument; templates of 2^31 characters or more; locales other than "C".
- Requests: threads, mutexes, time-outs of `AsyncNext` and the `ok` flag, which the code does not look at; the metadata of a request, so that what is extracted from it and the validity of its session are parameters; the content of requests and replies.
- Requests: shutting the server down while operations are outstanding; their processors are not deleted by the code.
- RequestServer.Server.RunRequestProcessorsPool: the services and their methods are parameters; the tables of services (hrs_server/server/services/hrs_request_worker.cpp:16-37) are not part of this model.
- ConnectionPool.Pool.GetConnection: the opening of a connection is a parameter, a failed one leaves the pool as it was; keys are an arbitrary function of the connection parameters, so nothing is said about two parameters sharing a key.
- ConnectionPool.Pool.ClearAll: needs that no connection is pooled twice, which RunKeeps shows of every run.
- Pool: `getQuery` and the stored options only forward.
- Datasets: text conversion of cells, the field part of a container, the cache of readers, allocation in arenas, and the ranges of 32-bit counts and indices.
- Datasets.HandleRequest: the connection to the database and the execution of the statement are a parameter; the transport.
- Sessions: uniqueness of generated ids; an id created again starts a new history. Changes of the expiry during a run.
- KeepAlive.Process: a stop from outside is the end of the given polls; other requests between the polls are left to EveryCheckSucceeds.
- `psql_impl.cpp`, TLS, certificates, the client application and generated protobuf code: input, output and foreign libraries.
