# Verified models of nvme-cli

This project models the parts of nvme-cli whose correctness is hardest to see from the code, and
proves what they are for. Each model follows the code branch by branch. `dafny verify
dfyconfig.toml` checks everything.

- **The worker pool** of the daemons (`WorkPool*.dfy`, `Resolve.dfy`): one event-loop thread and any
  number of detached workers around a mutex, a condition variable, an eventfd, two lists and a
  reference count. `WorkPool.dfy` is a transition system whose steps are the critical sections and the
  actions of the event loop between them; a step that would touch freed memory is a `Fault`.
  `WorkPoolInvariant.dfy` has the inductive invariant, `WorkPoolRuns.dfy` what follows for every run,
  `WorkPoolProgress.dfy` what happens when the pool is left to itself, `WorkPoolCode.dfy` the functions of
  work.c, cut at their critical sections and callbacks, as imperative code that takes exactly the steps of the
  system, `WorkPoolLoop.dfy` on_done() and destroy() as whole functions with others at work in between, and
  `Resolve.dfy` the name resolver as a client: who writes an answer and who reads it.
- **SHA-256, HMAC and CRC-32** (`Sha256Spec.dfy`, `Sha256Constants.dfy`, `Sha256Example.dfy`, `Sha256.dfy`,
  `Crc32.dfy`): the buffered hash with its aligned and unaligned paths against the definition of FIPS 180-2
  (sections 5.1.1 and 6.2.2), its constants as roots of primes (sections 4.2.2 and 5.3.2), HMAC against
  FIPS 198, and the table-driven CRC against the bit-serial one of section 8 of RFC 1952.
- **Command line and configuration** (`Options.dfy`, `ArgParse.dfy`, `GlobalConfig.dfy`, `Ini.dfy`): the
  parser against a grammar of argument segments, the config file of the global options against the rule
  that its values are only defaults, and the INI parser that cuts up its text in place (on the C strings of
  `CStrings.dfy`).
- **The sandbox** (`SandboxFilter.dfy`, `SandboxPipe.dfy`): the emitted BPF program against a policy table,
  and the marker, length and payload protocol between parent and child for every place where the child may
  stop and every pattern of short reads and writes.
- **Codecs and exact arithmetic** (`Base64.dfy`, `SiSuffix.dfy`, `Uint128.dfy`, `TimeSpan.dfy`, with
  `Arith.dfy` and `Strings.dfy`): base64 of RFC 4648 (sections 3.5 and 4), sizes with SI suffixes, 128-bit
  numbers in decimal, and time spans.
- **Unused includes** (`IncludeGraph.dfy`, `IncludeSweep.dfy`): reachability in a graph with cycles, and the
  greedy removal that relies on it.

Machine integers are written out where their width matters: `% TWO32`, `% TWO64`, explicit limits, bit-vectors
for SHA-256 and CRC-32. Time, scheduling, signals, short reads and writes, results of the compiler, of
`pthread_create()`, of `strtoull()` and of `getaddrinfo()` are parameters, so that the theorems hold for all of
them.

Some properties one might expect do not hold of the code; each has an input that shows it, and the exact
condition under which it does hold.

- An exact value name can lose against two earlier names that it abbreviates (`Options.ExactNameLost`);
  `Options.ExactFound` and `Options.MatchIff` say exactly when a name is found.
- The done callback of a work that times out while a worker runs it may see its data freed
  (`WorkPoolRuns.FreedDuringCallback`, `Resolve.QueryFreedUnderCallback`); `WorkPoolRuns.FinishDataSafe`
  says exactly when a callback is safe: when no worker runs the work as finish() detaches it.
- Reading the config file after the options is not always the same as reading it first: a count can pass
  INT_MAX (`GlobalConfig.VerboseSaturates`), or start above zero (`GlobalConfig.VerboseTwice`);
  `GlobalConfig.OrderIrrelevant` says exactly when the orders agree.
- Digits of a size are lost for the suffixes from Z on (`SiSuffix.ZettaLoses`); `SiSuffix.CutDecides` says
  exactly when the result differs.
- The range test of a time span refuses a number that would fit (`TimeSpan.LastMultipleRefused`);
  `TimeSpan.TimeIsSum` states the test as it is.
- A dry run of the include sweep rewrites a file that has carriage returns (`IncludeSweep.DryRunRewrites`, and
  `IncludeSweep.RewriteChanges` for every such text); `IncludeSweep.RewriteIff` and `IncludeSweep.Sweeper.DryRun` say
  exactly when it leaves the file alone.

## Model

| member | source | states |
|---|---|---|
| WorkPoolInvariant.StepInv | daemon-util/work.c:72-262 | every step of every thread keeps the invariant over lists, counters, owners, phases and wakeups, and touches no freed memory |
| WorkPoolInvariant.LockInv | daemon-util/work.c:102-115 | a worker that takes the lock to wait, take a work or leave keeps the invariant |
| WorkPoolInvariant.FnReturnsInv | daemon-util/work.c:117-131 | a worker that comes back from its work, dropped or not, keeps the invariant |
| WorkPoolInvariant.FreeDroppedInv | daemon-util/work.c:120-125 | a worker frees a dropped work that nobody else owns |
| WorkPoolInvariant.PoolFreeInv | daemon-util/work.c:324-334 | freeing the pool, deferred or not, keeps the invariant |
| WorkPoolRuns.RunInv | daemon-util/work.c:96-403 | the invariant holds after every run from a state that has it |
| WorkPoolRuns.NoFault | daemon-util/work.c:72-135 | in no interleaving is a freed work, pool or shared block touched, or a node unlinked that is on no list |
| WorkPoolRuns.SoleOwner | daemon-util/work.c:164-188 | a work in memory has exactly one owner that frees it; a freed work was freed once and has none |
| WorkPoolRuns.CallbackOwnsData | daemon-util/work.c:208-216 | the callback of a finished work, or of a timed-out one that no worker runs, has the data to itself |
| WorkPoolRuns.CallbackDataSafe | daemon-util/work.c:208-216 | the data stays in memory for the whole callback, whatever happens meanwhile, exactly when the event loop is to free it |
| WorkPoolRuns.FinishDataSafe | daemon-util/work.c:169-216 | the same before the call: exactly when the work is not RUNNING as finish() detaches it |
| WorkPoolRuns.FreedDuringCallback | daemon-util/work.c:208-216 | a run in which a worker frees a timed-out work while its done callback runs |
| WorkPoolRuns.NoLostWakeup | daemon-util/work.c:102-115 | while a worker sleeps unsignalled, the queue is no longer than the awake workers without a work; queued work never depends on sleepers only |
| WorkPoolRuns.QueueMoves | daemon-util/work.c:102-131 | while work is queued, some worker that is neither asleep nor gone can take its next step |
| WorkPoolRuns.EnoughWorkers | daemon-util/work.c:367-383 | unless creating a thread failed, all workers exist or the queue is covered by idle and new ones |
| WorkPoolRuns.CountersAgree | daemon-util/work.c:37-49 | nr_queued, nr_idle, nr_workers and refs count what they stand for in every reachable state, and the shared block lives exactly while refs is positive |
| WorkPoolRuns.ReportedOnce | daemon-util/work.c:208-216 | a work that left the active list was reported once or cancelled, never both |
| WorkPoolRuns.NoCallbackAfterCancel | daemon-util/work.c:397-403 | no continuation of a run calls the callback of a cancelled work |
| WorkPoolRuns.NoCallbackAfterFree | daemon-util/work.c:324-334 | after a pool free, also from inside a callback, no callback is called any more |
| WorkPoolRuns.NotStranded | daemon-util/work.c:218-243 | a finished work is being dispatched, or the eventfd is readable, or the pool is being freed |
| WorkPoolRuns.TimerOnDone | daemon-util/work.c:245-262 | a timer that fires on a finished work leaves it to on_done(), which is due |
| WorkPoolRuns.ShutdownStep | daemon-util/work.c:190-206 | after the pool is gone, every step of a worker brings the end nearer |
| WorkPoolRuns.ShutdownEnds | daemon-util/work.c:96-135 | every run after the pool is gone is bounded and goes on until all workers have left |
| WorkPoolProgress.QuietStep | daemon-util/work.c:96-262 | every step of workers, timers and event loop brings the pool nearer to rest |
| WorkPoolProgress.NotAtRest | daemon-util/work.c:96-262 | while a work is queued or waits for its callback, such a step is enabled |
| WorkPoolProgress.AtRest | daemon-util/work.c:72-262 | when none is left, every accepted work was freed once, and reported once unless it was cancelled |
| WorkPoolProgress.QuietEnds | daemon-util/work.c:96-262 | without calls of the user and spurious wakeups every run is bounded, and it ends with nothing queued, finished or in memory |
| WorkPoolRuns.EverythingFreed | daemon-util/work.c:81-94 | in the end every accepted work was freed exactly once, and so was the shared block |
| WorkPoolRuns.OneWorkRuns | daemon-util/work.c:96-243 | a run exists that takes a work from its submit through its callback to its end |
| WorkPoolCode.NewPool | daemon-util/work.c:277-322 | a new pool is the initial state of the transition system; what is refused, for any of four reasons, leaves nothing behind |
| WorkPoolCode.Pool.FreeWork | daemon-util/work.c:72-79 | freeing a work takes the step of the system |
| WorkPoolCode.Pool.Unref | daemon-util/work.c:81-94 | dropping a reference takes the step of the system, the last one frees |
| WorkPoolCode.Pool.Detach | daemon-util/work.c:169-188 | detaching a work takes the step of the system and tells whether the caller frees it |
| WorkPoolCode.Pool.Lock | daemon-util/work.c:101-106 | a worker that takes the lock, back from the wait or not, takes the step of the system |
| WorkPoolCode.Pool.LoopTop | daemon-util/work.c:102-115 | the top of the worker's loop takes the step of the system |
| WorkPoolCode.Pool.FnReturns | daemon-util/work.c:119-131 | the end of a work takes the step of the system |
| WorkPoolCode.Pool.FreeDropped | daemon-util/work.c:120-125 | a worker that frees its dropped work takes the step of the system |
| WorkPoolCode.Pool.Submit | daemon-util/work.c:336-390 | a submit, accepted, refused for its arguments, memory or timer, or taken back, takes the step of the system or none, and returns the work or the error |
| WorkPoolCode.Pool.Cancel | daemon-util/work.c:397-403 | a cancel takes the step of the system |
| WorkPoolCode.Pool.PoolFree | daemon-util/work.c:324-334 | freeing the pool, deferred or not, takes the step of the system |
| WorkPoolCode.Pool.TimerFires | daemon-util/work.c:245-258 | on_timeout() up to finish() takes the step of the system |
| WorkPoolCode.Pool.EventReady | daemon-util/work.c:218-227 | on_done() up to its loop takes the step of the system |
| WorkPoolCode.Pool.DispatchNext | daemon-util/work.c:228-240 | a round of the loop of on_done(), or its end, takes the step of the system |
| WorkPoolCode.Pool.FinishWork | daemon-util/work.c:208-214 | finish() up to the callback takes the step of the system |
| WorkPoolCode.Pool.CallbackReturns | daemon-util/work.c:214-216 | finish() behind the callback takes the step of the system |
| WorkPoolCode.Pool.DestroyNext | daemon-util/work.c:190-199 | a round of the loop of destroy(), or the free of the pool, takes the step of the system |
| WorkPoolCode.Pool.Close | daemon-util/work.c:201-205 | the last critical section of destroy() takes the step of the system |
| WorkPoolLoop.WorkerStep | daemon-util/work.c:96-135 | a step of a worker, if it can be made, keeps the invariant and leaves the event loop's fields alone |
| WorkPoolLoop.Destroy | daemon-util/work.c:190-206 | the whole function, workers in between: a run of its own steps and theirs that keeps the invariant, cancels every active work, and leaves nothing on the lists of a pool that is gone |
| WorkPoolLoop.ReportOne | daemon-util/work.c:208-216 | one finished work, the first, is detached, reported once and freed, in a run of the event loop, of workers and of calls that the user makes in its callback |
| WorkPoolLoop.OnDone | daemon-util/work.c:218-243 | the whole function is a run of its own steps, of workers and of the calls made in callbacks; it ends with no active work finished, or the pool destroyed if a callback freed it, and every work that was finished has been reported or cancelled |
| WorkPoolLoop.StepProgress | daemon-util/work.c:72-262 | no step of any thread puts a work back on the active list or takes a finished one off its list while it is active |
| Resolve.StepKeeps | daemon-util/work.c:96-135 | only a worker that comes back makes a work DONE; a work at rest stays at rest |
| Resolve.StepTruthful | daemon-util/resolve.c:53-74 | every step keeps: a DONE query has its answer, and what a user was told is that answer |
| Resolve.UsersGetTheirAnswer | daemon-util/resolve.c:22-74 | in every run exactly the users whose callback was called are told something: the timeout exactly when a timer called it, and else the answer of the worker as it still stands |
| Resolve.StepTells | daemon-util/resolve.c:62-74 | a callback that begins tells its user, for the first time, the timeout if a timer called it and the answer in the query if not; no other step tells anything |
| Resolve.AnswerArrives | daemon-util/resolve.c:53-74 | a run in which the user is told exactly what the worker wrote |
| Resolve.QuerySafe | daemon-util/resolve.c:62-74 | lookup_done() has its query in memory, whatever the workers do, exactly when the event loop is to free it |
| Resolve.QuerySafeAtTimeout | daemon-util/resolve.c:53-74 | the same at the timeout, before the call: exactly when the lookup is not running |
| Resolve.QueryFreedUnderCallback | daemon-util/resolve.c:62-74 | a run in which lookup_done() of a timed-out lookup has lost its query |
| Sha256Spec.AbsorbConcat | shared/sha256-util.c:71-171 | hashing blocks in two parts is hashing them at once |
| Sha256Constants.FirstPrimes | shared/sha256-util.c:37-55 | the list of 64 numbers behind the constants is the first 64 primes: all prime, rising, none left out |
| Sha256Constants.RoundConstants | shared/sha256-util.c:37-55 | every word of the table is the first 32 bits behind the point of the cube root of its prime, as section 4.2.2 of FIPS 180-2 says |
| Sha256Constants.InitialWords | shared/sha256-util.c:177-184 | the words the hash starts from are those of the square roots of the first eight primes (section 5.3.2) |
| Sha256Constants.RootsUnique | shared/sha256-util.c:37-55 | such a word is the only one for its prime |
| Sha256Example.DigestOfAbc | shared/tests/test-sha256-util.c:50-53 | the digest of "abc", computed from the definition |
| Sha256.Rotates | shared/sha256-util.c:108-115 | the shifted and combined words of the code are the rotations of FIPS 180-2 |
| Sha256.LengthWords | shared/sha256-util.c:263-274 | the two words appended are the length in bits as a big-endian 64-bit number, modulo 2^64 |
| Sha256.MakeSchedule | shared/sha256-util.c:117-124 | the array of message words is the schedule of section 6.2.2 of FIPS 180-2 |
| Sha256.CompressBlock | shared/sha256-util.c:71-171 | one block is compressed as the standard says |
| Sha256.Context.Update | shared/sha256-util.c:190-252 | the bytes fed grow by the data on every path, at most 64 bytes wait, and the hash covers the rest |
| Sha256.Context.TakeBlocks | shared/sha256-util.c:223-237 | the aligned and the unaligned path take whole blocks from the front of the data |
| Sha256.Context.Final | shared/sha256-util.c:254-285 | the result is the digest of everything fed |
| Sha256.Padded | shared/sha256-util.c:263-274 | what is appended makes the padded message of section 5.1.1 of FIPS 180-2 |
| Sha256.HashPieces | shared/sha256-util.c:173-285 | any split into updates at any addresses gives the one-shot digest of the whole message |
| Sha256.Hash | shared/sha256-util.c:287-296 | one call gives the digest |
| Sha256.HmacRaw | shared/sha256-util.c:302-342 | HMAC as FIPS 198 defines it for every key length, longer than a block included |
| Crc32.TableEntry | shared/crc32-util.c:50-94 | every entry of the table is its index shifted through the register eight times |
| Crc32.TableStepIsByte | shared/crc32-util.c:103-112 | one step with the table is eight steps with single bits |
| Crc32.Crc32 | shared/crc32-util.c:103-112 | the table-driven CRC is the bit-serial reflected CRC with polynomial 0xedb88320, for every buffer and seed |
| Crc32.Complemented | shared/crc32-util.c:108-111 | the register starts from the complement of the seed and its complement is the result; seed 0xffffffff starts from zero |
| Crc32.CheckValue | shared/crc32-util.c:103-112 | the CRC of "123456789" is 0xcbf43926 |
| Crc32.LeadingZero | shared/crc32-util.c:103-112 | a zero byte in front of any message changes its CRC |
| Crc32.Chains | shared/crc32-util.c:103-112 | the CRC of one buffer as the seed of the next is the CRC of both |
| Crc32.BurstDetected | shared/crc32-util.c:50-112 | any corruption within 32 consecutive bits changes the CRC |
| Options.FindLong | src/argconfig.c:628-652 | the first option of the table, its includes in their places, that has the long or the old name; none if no option has it |
| Options.FindShort | src/argconfig.c:654-673 | the same for short names |
| Options.GivenIn | src/argconfig.c:1023-1036 | true exactly when an option that stores to the variable was seen, aliases and includes counted |
| Options.MatchIff | src/argconfig.c:495-519 | a value name is found exactly when one entry answers: the first exact name with at most one abbreviation in front, or the only abbreviation |
| Options.ExactFound | src/argconfig.c:495-519 | the first exact name is found exactly when it abbreviates fewer than two names before it |
| Options.ExactNameLost | src/argconfig.c:495-519 | an exact name behind two names that it abbreviates is not found |
| Options.OverwriteForgets | src/argconfig.c:363-450 | what is stored by any kind but a count and a list does not depend on the old value, and validity never does |
| Options.ParsedGives | src/argconfig.c:330-450 | for each kind, exactly which arguments are accepted and what is stored: true for a flag, one more for a count, the text, the number within its width and range, the named value, or the old bits and those of the names listed |
| Options.UseStores | src/argconfig.c:777-803 | one use stores that value in its variable, changes no other, marks the option as seen, and is refused exactly when there is no such value |
| Options.WordOfNumber | src/argconfig.c:341-346 | the value of a listed name counts as a 32-bit word |
| Options.SameLetter | src/argconfig.c:506-506 | names are compared without regard to the case of letters, and only that |
| ArgParse.EveryTokenOnce | src/argconfig.c:973-1014 | the segments of a well-formed command are its arguments in order, each one once |
| ArgParse.GlobalsFirst | src/argconfig.c:675-700 | an option is the first of its name with the global table in front of that of the command |
| ArgParse.ParseStores | src/argconfig.c:777-1014 | after a parse that succeeds every variable holds the value that its last use has for it, or what it held; seen, help and version flags are those of the uses |
| ArgParse.StopsIff | src/argconfig.c:777-1014 | a parse stops exactly at the first option that is malformed or has no valid value, with its code |
| ArgParse.GlobalPrefix | src/argconfig.c:1102-1135 | the global options are a prefix that ends at the first operand, behind "--", or at the end |
| ArgParse.ReadIndependent | src/argconfig.c:848-968 | an option that did not take the next argument does not depend on it |
| ArgParse.Reordered | src/argconfig.c:968-1014 | the options first, then "--", then the operands: the same values, seen flags and operands |
| ArgParse.Parser.constructor | src/argconfig.c:1050-1071 | the array of operands has room for every argument |
| ArgParse.Parser.NextArg | src/argconfig.c:847-854 | the next argument, or none at the end or at a NULL, and the index in either case |
| ArgParse.Parser.ParseLong | src/argconfig.c:856-916 | does what the grammar says of a long option, the next argument taken only if it is the value |
| ArgParse.Parser.ParseShort | src/argconfig.c:918-966 | does what the grammar says of a group of short options, in order, up to the first error |
| ArgParse.Parser.ParseArgs | src/argconfig.c:968-1014 | the whole command line: variables, seen flags, result code, operands in order within the array, and the index where it stopped |
| ArgParse.ParseCommand | src/argconfig.c:1050-1100 | operands come out of a parse that succeeded and of no other, and then every variable holds the value of its last use, kind by kind; without memory nothing is parsed |
| GlobalConfig.GlobalTableOk | src/global-options.c:43-66 | the table of global options meets the conditions of the precedence theorems |
| GlobalConfig.QuietIsTrue | src/global-options.c:43-66 | --quiet with the table of global options sets its flag to true and no other variable |
| GlobalConfig.BoolWords | shared/parse-util.c:27-51 | the six words for true and the six for false, in any case, and no others |
| GlobalConfig.FileValueIs | src/global-config.c:121-160 | for each kind, exactly which texts of a file are taken and what is stored |
| GlobalConfig.StepResult | src/global-config.c:181-227 | one key sets its variable, leaves a given one alone, or adds to the given count, and changes nothing else |
| GlobalConfig.FileAllResult | src/global-config.c:87-227 | after a whole file every variable has the last valid value, its given value, or the given count plus the last valid value |
| GlobalConfig.UsesResult | src/argconfig.c:777-803 | the same uses on two sets of variables: same result, counts go up by the uses, other used variables end equal |
| GlobalConfig.OneVariable | src/global-config.c:201-226 | both orders for one variable, with the exact values of a count that both set |
| GlobalConfig.OrderIrrelevant | src/global-config.c:9-16 | options then file equals file then options exactly when every count that both set comes out the same, start and saturation included |
| GlobalConfig.OrderFromZero | src/global-config.c:9-16 | with counts that start at zero, exactly when no count passes INT_MAX |
| GlobalConfig.VerboseTwice | src/global-config.c:201-226 | what -v and verbose in the file make of a count in either order, for every start and value |
| GlobalConfig.VerboseSaturates | src/global-config.c:223-225 | verbose = 2147483647 and -v: the orders differ, the code stops at INT_MAX |
| GlobalConfig.FilesAreDefaults | src/global-config.c:9-16 | global options, file, and command line of the command end as if the file had come first |
| GlobalConfig.Loader.LookUp | src/global-config.c:106-119 | the first option of that name that is not deprecated |
| GlobalConfig.Loader.Given | src/global-config.c:86-104 | the recorded count, or what the variable holds now, recorded |
| GlobalConfig.Loader.ApplyKv | src/global-config.c:121-227 | one key does what the specification of a step says, the saturating sum included |
| GlobalConfig.Loader.Load | src/global-config.c:229-273 | a file is its keys in the section [Global], in order |
| GlobalConfig.Loader.LoadText | src/global-config.c:257-273 | a text is parsed in place and put in front of the texts kept, and its keys in [Global] are applied in order; without memory nothing changes |
| Ini.RoundTrip | shared/ini-util.c:35-95 | printing well-formed sections and pairs and parsing the text reports exactly what was printed |
| CStrings.TrimAt | shared/string-util.h:86-130 | one terminator is written behind the last character that is no space, and the trimmed string is at the pointer |
| Ini.Parser.IniLine | shared/ini-util.c:35-74 | a line gives the event and section that its text says, and nothing outside the line is written |
| Ini.Parser.OneLine | shared/ini-util.c:83-93 | one round of the loop stays within its line and leaves the rest of the text as it was |
| Ini.Parser.ParseLines | shared/ini-util.c:76-104 | at the end all strings handed to callbacks are still what the text says; the parse stops exactly at the event whose callback fails |
| SandboxFilter.ArgLowIsLow | shared/sandbox-util.c:172-178 | the word loaded for an argument is its low half on both byte orders |
| SandboxFilter.RunSuffix | shared/sandbox-util.c:159-170 | relative jumps make a program run the same behind any other instructions |
| SandboxFilter.AllowAllDecides | shared/sandbox-util.c:166-170 | a list of allow entries allows exactly its members and falls through otherwise |
| SandboxFilter.FilterIsPolicy | shared/sandbox-util.c:190-255 | on every architecture, call and arguments the program returns and decides as the policy table |
| SandboxFilter.Filter.Emit | shared/sandbox-util.c:141-146 | an instruction is appended, or only counted once the array is full |
| SandboxFilter.Enter | shared/sandbox-util.c:190-272 | a program that does not fit is never installed, and an installed one decides as the policy |
| SandboxPipe.ReadEnd.ReadFull | shared/io-util.h:40-59 | short and interrupted reads deliver the bytes in order, up to the length or the end; it fails exactly when a read fails |
| SandboxPipe.WriteEnd.WriteAll | shared/io-util.h:14-33 | short and interrupted writes send a prefix, and the whole exactly when no write fails and the process is not killed |
| SandboxPipe.ReceivedIff | shared/sandbox-util.c:334-354 | a stream is accepted exactly when it is the frame of a buffer that is not too long |
| SandboxPipe.ReadOutput | shared/sandbox-util.c:334-354 | the output is what the rest of the stream frames, with nothing behind it, and there is memory for it |
| SandboxPipe.Parent | shared/sandbox-util.c:391-422 | DONE only with a whole frame and a zero exit, OFF only without a byte, and the exact result unless a read fails |
| SandboxPipe.WriteEnd.Child | shared/sandbox-util.c:379-438 | the child sends a prefix of its frame, nothing without entering, and the whole frame before a zero exit of its own; its status in each case; it may be killed before, at and after every write |
| SandboxPipe.PrefixOfFrame | shared/sandbox-util.c:334-438 | a stream cut off inside a frame is taken for no other frame |
| SandboxPipe.RunSandboxed | shared/sandbox-util.c:356-439 | wherever the child stops, DONE carries exactly its buffer after a zero exit, OFF means that no byte was sent, and a child that cannot enter gives OFF |
| Base64.Encode | shared/base64-util.c:31-54 | the result is the encoding of RFC 4648, although the accumulator wraps |
| Base64.Decode | shared/base64-util.c:69-100 | a result is the bytes whose encoding the text is; without one the text encodes nothing |
| Base64.PushByte | shared/base64-util.c:37-44 | what wraps out of the accumulator is never among the bits still needed |
| Base64.BytesOfSymbols | shared/base64-util.c:31-100 | decoding the symbols of any bytes gives the bytes |
| Base64.SymbolsOfBytes | shared/base64-util.c:69-100 | accepted symbols are the only ones for their bytes: zero trailing bits, canonical length |
| Base64.EncodingInjective | shared/base64-util.c:31-54 | different bytes have different encodings |
| Base64.RoundTrip | shared/base64-util.c:31-100 | decoding an encoding gives the bytes back |
| SiSuffix.Mul10 | shared/suffix-util.c:55-62 | fails exactly when ten times the value does not fit into 64 bits |
| SiSuffix.ThousandTimes | shared/suffix-util.c:28-43 | k is a thousand, each further prefix of the SI a thousand times the one before, and there are no others |
| SiSuffix.Parse | shared/suffix-util.c:64-142 | succeeds exactly when the written decimal, cut to 19 fraction digits, times the power of ten fits into 64 bits after rounding down, and gives that number |
| SiSuffix.KiloToExa | shared/suffix-util.c:64-142 | for the suffixes k to E the cut does no harm, however long the fraction |
| SiSuffix.CutDecides | shared/suffix-util.c:64-142 | the result is that of the number as written exactly when the digits lost stand for zero or the number is too large without them |
| SiSuffix.CutHarmless | shared/suffix-util.c:86-95 | the value before the range test is exact exactly when the digits lost stand for zero |
| SiSuffix.ZettaLoses | shared/suffix-util.c:86-95 | 0.00000000000000000001Z is ten, and is read as zero |
| SiSuffix.ExactIsScaled | shared/suffix-util.c:115-129 | the scaled number plus the scaled or shortened fraction is the number rounded down |
| SiSuffix.RoundUpIs | shared/suffix-util.c:169-175 | the aligned size is the smallest multiple that is not smaller |
| SiSuffix.ParseUnits | shared/suffix-util.c:151-180 | a size with suffix is aligned without wrapping and divided by the unit, or out of range |
| Uint128.FromLittleEndian | shared/uint128-util.c:22-33 | the four words stand for the number of the 16 little-endian bytes |
| Uint128.LongDivision | shared/uint128-util.c:84-101 | dividing word by word with carries divides the 128-bit number, remainder included |
| Uint128.Printer.DivideBy10 | shared/uint128-util.c:84-99 | the words are divided in place and the remainder is the digit |
| Uint128.Printer.ToStr | shared/uint128-util.c:60-105 | the exact decimal digits stand at the end of the 60-byte buffer, 39 at most, terminated |
| Uint128.RangeTest | shared/parse-util.c:228-229 | the test before the multiplication is exact |
| Uint128.ReadDigits | shared/parse-util.c:218-233 | out of range exactly when the digits stand for a number above 128 bits |
| Uint128.ReadEntry | shared/parse-util.c:203-233 | hexadecimal with 0x, no leading zero, no empty number |
| Uint128.ParseCsv | shared/parse-util.c:182-241 | the entries in order in the caller's array, empty ones skipped, or the first error; the string is cut in place and nothing outside it is written |
| Uint128.Token | shared/string-util.h:17-44 | a cut terminates the token in place and leaves the rest of the string as it was |
| Uint128.EntriesOfDecimals | shared/parse-util.c:182-241 | a list of decimal numbers is read as those numbers |
| Uint128.DecimalValue | shared/uint128-util.c:60-105 | the digits of the decimal text of a number stand for it |
| Uint128.HexDigits | shared/parse-util.c:218-226 | the sixteen hexadecimal digits in order, in either case |
| Uint128.PrintList | shared/uint128-util.c:60-105 | the long division prints every number of a list in decimal |
| Uint128.PrintThenParse | shared/parse-util.c:182-241 | printing with the long division, joining with commas and parsing gives any list back, the empty one included |
| Strings.SplitAt | shared/string-util.h:17-44 | one cut gives the first piece and leaves the rest |
| Strings.TrimBoth | shared/string-util.h:82-130 | spaces on both sides are cut off, and nothing else |
| TimeSpan.LongestFirst | shared/time-util.c:85-134 | the first suffix of the table that fits is the longest one that fits |
| TimeSpan.UnitNames | shared/time-util.c:85-120 | each suffix stands for its unit: sixty seconds a minute, sixty minutes an hour, 24 hours a day, 7 days a week, 365.25 days a year of twelve months |
| TimeSpan.FractionBelowUnit | shared/time-util.c:205-221 | the fraction of a term is less than one unit |
| TimeSpan.FractionAtMost | shared/time-util.c:205-221 | it is not more than what is written |
| TimeSpan.AddFraction | shared/time-util.c:205-217 | the digits are added without wrapping, or refused exactly when the sum reaches infinity |
| TimeSpan.NextTerm | shared/time-util.c:157-222 | the value and rest of a term on top of a sum, or the error of the first test that fails |
| TimeSpan.VerdictIff | shared/time-util.c:152-223 | a sum comes out exactly when the terms are well-formed, there is one, and all numbers and the total are in range |
| TimeSpan.TimeIsSum | shared/time-util.c:136-229 | a finite span is accepted exactly when its terms are well-formed and in range, is their sum, and stays below infinity |
| TimeSpan.ParseTime | shared/time-util.c:136-229 | the parser's result is the verdict on the terms, error codes, infinity and a zero default unit included |
| TimeSpan.LastMultipleRefused | shared/time-util.c:195-196 | "18446744073709551ms" is below infinity and refused |
| IncludeGraph.Reachable | scripts/header-graph.py:100-115 | ends on every graph and is true exactly when a walk with at least one edge leads from a start to the target |
| IncludeGraph.TransitiveIncludes | scripts/header-graph.py:89-98 | exactly what a walk from the file leads to |
| IncludeSweep.KeptShrinks | scripts/find-unused-includes.py:161-171 | removing more lines keeps fewer headers |
| IncludeSweep.CleanedHeaders | scripts/find-unused-includes.py:173-185 | squeezing blank lines keeps the headers |
| IncludeSweep.SqueezedIs | scripts/find-unused-includes.py:173-185 | squeezing keeps every line that is not blank, leaves no two blank lines together, and changes nothing exactly where there were none |
| IncludeSweep.NewlinesAt | scripts/find-unused-includes.py:187-189 | CR LF and CR are read as LF, and nothing else is changed |
| IncludeSweep.Sweeper.TryOne | scripts/find-unused-includes.py:210-240 | a candidate is removed exactly when its header is unresolved or not reached from the includes that would be left, and what would be left builds; no removed header is reached from the includes kept |
| IncludeSweep.Sweeper.TryCandidates | scripts/find-unused-includes.py:210-240 | the greedy removal: every candidate left in place was needed, or failed to build, without the lines removed when it was tried; no removed header is reached from the includes kept |
| IncludeSweep.Sweeper.SweptIff | scripts/find-unused-includes.py:210-240 | a line is gone exactly when it was a candidate that could be removed at its turn |
| IncludeSweep.Sweeper.ProcessFile | scripts/find-unused-includes.py:187-267 | what is removed: the lines of the greedy removal, unless it gives up before or the final text does not build; and which bytes are on the disk afterwards: the original, its lines written back, or the lines kept, without repeated blank ones up to the last candidate, which build and reach no removed header |
| IncludeSweep.RewriteIff | scripts/find-unused-includes.py:187-189 | reading a file and writing it back changes nothing exactly when it is the encoding of a text without carriage returns |
| IncludeSweep.RewriteChanges | scripts/find-unused-includes.py:187-189 | every text with a carriage return is changed |
| IncludeSweep.DryRunRewrites | scripts/find-unused-includes.py:242-256 | a dry run on a file with one include line that ends in CR LF changes it |
| IncludeSweep.Sweeper.DryRun | scripts/find-unused-includes.py:242-256 | a dry run leaves such a file alone, and any other exactly when it gives up before its first write; it reports the lines of the greedy removal |

## Left out

- The steps of one `detach()` before and inside its critical section are one step of the model, and so are the detach and the call of the done callback in `finish()`.
- WorkPoolCode.Pool.Submit: the lists are sequences, not linked nodes; what `pthread_create()` returns and which thread a signal wakes are parameters.
- Resolve.UsersGetTheirAnswer: the query's strings and hints, and the failure to allocate a query, are not modelled.
- Erasing of key material, and the digest of messages whose length passes 2^64 bits other than modulo 2^64.
- Help texts, warnings about deprecated names, escaping of output, and the locale that a parse selects.
- Conversions of numbers by the C library (`strtoull`, `strtoll`, `strtod`): parameters of `Options` and `SiSuffix`; `TimeSpan` reads the decimal numbers itself.
- ArgParse.Parser.ParseArgs: a count beyond INT_MAX goes on counting, where the code's addition is undefined; running out of memory while a list of names is copied is not modelled.
- GlobalConfig.Loader.LoadText: several files with further options between them, and running out of memory for the record of a count.
- GlobalConfig.OrderIrrelevant: tables with a list option that a file could set, or with a count that has named values, are excluded; the program has none.
- Ini.Parser.ParseLines: reading the file and its size limit; the callback is the number of the event at which it fails.
- The set of system calls and requests that each architecture has: `SandboxFilter` takes the list as a parameter. FreeBSD's Capsicum, closing of descriptors, and valgrind detection.
- SandboxPipe.RunSandboxed: the child's decoder is a parameter that may end the process at any time; it is assumed not to write to the result pipe itself.
- Base64.Encode: the output buffer is a sequence, and a negative length is not representable.
- SiSuffix.Parse: binary suffixes, floating-point suffixes and printing with suffixes are not modelled.
- Uint128.Printer.ToStr: the thousands separators of its localised sibling.
- TimeSpan.ParseTime: a NULL text.
- IncludeSweep.Sweeper.ProcessFile: choosing the candidate lines, resolving a path and the UTF-8 codec are parameters; an error of the file system is not modelled.
- Device commands, fabrics, output of tables and JSON, plugins, completions and foreign libraries.
- The helpers for names, UUIDs, hexadecimal text and bit fields (`shared/nqn-util.c`, `shared/uuid-util.c`, `shared/hex-util.c`, `src/bitfields.c`): nothing modelled here calls them.
