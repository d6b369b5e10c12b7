# indu directory cache, modelled in Dafny

indu is a fork of the ncdu disk-usage analyser. It keeps an incremental
on-disk cache of earlier scans. Each directory it has scanned is stored as
one entry, keyed by path. The entry holds the directory's own info (size,
device, inode, mtime and the rest) and the info of its direct children. On
the next scan, a directory whose mtime, device and inode still match is not
read from the disk. Its children are replayed from the cache instead.

This project models the core of that cache:

- the registry in `src/dir_cache.c`;
- the JSON-like cache-file reader and writer in the same file;
- the advisory lock of `src/dir_cache_lock.c`;
- the small helpers of `src/util.h` the cache relies on;
- the command-line parser and the config-file line splitting of `src/main.c`.

The registry operations are init, load, lookup, store, replay, save and
destroy.

## Modules

| module | file | what it holds |
|---|---|---|
| `Common` | `common.dfy` | `Option`, the fixed-width integer types and wrap-around, C strings (`CStr` cuts at the first NUL), `IsAt` (text at a position) |
| `CacheTypes` | `cache_types.dfy` | item flags, `Child` (struct cache_child), `EntryVal` (struct cache_entry), `DirInfo`/`ExtInfo`, path joining |
| `Util` | `util.dfy` | `adds64`, the `nstack` macros as a class over an array, `dir_memsize`/`dir_ext_offset` |
| `Decimal` | `decimal.dfy` | decimal digits of a number and back; `output_int`/`output_int64` as loops |
| `JsonEscape` | `escape.dfy` | `output_string`'s escaping, and what the reader makes of an escaped string |
| `Writer` | `writer.dfy` | `write_cache_child`, the entry writer and the header of `dir_cache_save`, as text functions |
| `JsonSpec` | `json_spec.dfy` | the reader (`parse_skip_ws` … `parse_item`, the header check), as functions of the text and a cursor |
| `JsonParser` | `json_parser.dfy` | the same reader as a class `Parser` with loops, proved equal to `JsonSpec` |
| `RoundTripText` | `roundtrip_text.dfy` | reading back an escaped string and a written number |
| `ReadBack` | `read_back.dfy` | reading back each member the writer writes, and what the members of an item add up to |
| `ReadText` | `read_text.dfy` | reading back a written member, and a whole info object through the member loop |
| `TreeText` | `tree_text.dfy` | reading back a whole written item and child list, directory by directory; what decides an item's kind |
| `SkipText` | `skip_text.dfy` | what the skip functions skip (numbers, strings, `true`/`false`, arrays, unknown members) and the header check over the written header |
| `FileText` | `file_text.dfy` | the round trip of a whole cache file: dir_cache_load over what dir_cache_save writes |
| `LockInfo` | `lock_info.dfy` | the lock file's `PID TIMESTAMP` line: writing, `sscanf`-style reading, staleness |
| `CacheLock` | `lock.dfy` | `cache_lock_init/acquire/release/cleanup`, as spec functions over an oracle and a class `LockManager` |
| `RegistrySpec` | `registry_spec.dfy` | the cache table as a value, and what lookup, store, load and save do to it |
| `ReplaySpec` | `replay_spec.dfy` | the events `dir_cache_replay` hands to the scanner, and the entries it marks used |
| `Registry` | `registry.dfy` | class `Cache`: the module's static state and its public operations |
| `ArgParse` | `argparse.dfy` | `argparser_pop/shortopt/next/arg`, as spec functions and a class `ArgParser` |
| `ConfigLine` | `config.dfy` | the trimming and splitting of one config-file line in `config_read` |

## State that changes in place

Where the source changes state step by step, the model does too:

- the registry is a class `Cache` whose methods update its fields;
- the lock manager, the command-line parser, the `nstack` and the cache-file reader are classes as well;
- `output_int`, the config-line trimming and the save loop are methods with loops.

Each method is proved against a value-level specification function. The
lemmas about the specification carry the properties.

The operating system's answers enter as parameters, never as calls:

- the result of open and flock;
- the elapsed time and the clock;
- whether `kill(pid, 0)` succeeds;
- what read_lock_info makes of the lock file in the stale check (`World.holderInfo`), as a pid and a timestamp or a failure.
  Reading those from the file's bytes is modelled apart, in `LockInfo.ReadLockInfo`; `CacheLock.HolderStaleOfWritten` joins the two for a lock file a holder wrote;
- whether the cache file's write, fsync and rename succeed.

## Model

| member | source | states |
|---|---|---|
| Common.Wrap | src/dir_cache.c:450-472 | reduction into [0, modulus), congruent to its input modulo the modulus, and the identity on values already in range (unsigned wrap-around of the parsers' accumulators) |
| Common.AsSigned64 | src/dir_cache.c:423-447 | the two's complement reading of a 64-bit pattern is congruent to it modulo 2^64 and equals it below 2^63 |
| Common.CStr | src/dir_cache.c:122-140 | a C string read from a char sequence: the longest NUL-free prefix, stopped exactly at the first NUL |
| CacheTypes.ShallowCopies | src/dir_cache.c:1002-1059 | one shallow copy per child, in order |
| CacheTypes.JoinPath | src/dir_cache.c:773-851 | the path of a child: parent, then a `/` only when the parent does not already end in one, then the name |
| Util.Adds64 | src/util.h:159-161 | the saturating sum: INT64_MAX when two positives overflow, 0 when the sum is negative, the sum otherwise |
| Util.ExtOffset | src/util.h:83 | the smallest multiple of 8 at or above the size it is given |
| Util.ExtMemsize | src/util.h:84 | the 8-aligned struct dir size plus the extension size, within 8 bytes of the unaligned sum |
| Util.NStack.Init | src/util.h:168-172 | an empty stack with room for 10 |
| Util.NStack.Push | src/util.h:174-180 | the value is on top and everything below is unchanged; capacity doubles exactly when the stack was full |
| Util.NStack.Pop | src/util.h:182 | the top value is removed and the rest unchanged |
| Util.NStack.Top | src/util.h:183 | the top value, or the default when the stack is empty |
| Decimal.Digits | src/dir_cache.c:143-159 | a nonempty run of decimal digits, "0" exactly for zero, no leading zero otherwise |
| Decimal.ValueOfDigits | src/dir_cache.c:143-159 | reading the digits of n gives back n |
| Decimal.DigitsOfValue | src/dir_cache.c:450-472 | a digit run without a leading zero is the digits of its value, so a canonical number text has one reading |
| Decimal.U64Digits | src/dir_cache.c:143-159 | an unsigned 64-bit number needs at most 20 digits (output_int's buffer) |
| Decimal.OutputInt | src/dir_cache.c:143-159 | the digits output_int collects backwards and prints are the decimal digits of n |
| Decimal.OutputInt64 | src/dir_cache.c:162-169 | output_int64 prints the signed digits of n, INT64_MIN included |
| JsonEscape.EscapeChar | src/dir_cache.c:122-140 | every character escapes to at least one character |
| JsonEscape.Escape | src/dir_cache.c:122-140 | escaping never shortens a string |
| JsonEscape.EscapeHasNoControl | src/dir_cache.c:122-140 | an escaped string holds no control character, so it cannot break a line of the cache file |
| JsonEscape.EscapeConcat | src/dir_cache.c:122-140 | escaping works character by character: it distributes over concatenation |
| JsonEscape.EscapePlain | src/dir_cache.c:122-140 | a string with nothing to escape is written unchanged |
| JsonEscape.Unescaped | src/dir_cache.c:361-420 | what the reader keeps of an escaped string is no longer than the string |
| JsonEscape.UnescapedKept | src/dir_cache.c:361-420 | the reader keeps only characters it can store, and keeps a string of such characters whole |
| JsonEscape.OutputString | src/dir_cache.c:122-140 | the loop writes exactly the escaping of the C string |
| Writer.ExcludedReason | src/dir_cache.c:172-269 | `excluded` is written exactly when one of the four exclusion flags is set; pattern takes priority, then otherfs |
| Writer.EntryAsChild | src/dir_cache.c:1213-1270 | an entry is written like a directory item named by its path |
| Writer.EntryTextAsChild | src/dir_cache.c:1213-1270 | the entry text dir_cache_save writes is write_cache_child's text for that directory |
| Writer.ChildFieldsOfEntry | src/dir_cache.c:1213-1270 | an entry's members are those of the directory item it stands for |
| TreeText.ItemRead | src/dir_cache.c:703-769 | parse_item reads what write_cache_child wrote, all the way down, as ReadTree (each record as ReadInfo gives it, a directory's children under its device) and stops right after the item's text |
| TreeText.ListRead | src/dir_cache.c:732-756 | the children loop reads a written child list, each child after `,\n`, then the closing `]`, as ReadTrees, and stops after the `]` |
| TreeText.ItemKind | src/dir_cache.c:703-727 | a parsed item is a directory exactly when its text opens with `[`, and one that does is never flagged FILE; no member of the info object changes that |
| SkipText.HeaderRead | src/dir_cache.c:910-927 | the header dir_cache_save writes passes dir_cache_load's header check, which stops right after it, when the program name and version need no escaping |
| FileText.TopRead | src/dir_cache.c:929-949 | dir_cache_load's item loop reads the saved entries and the closing `]` as ReadEntries, and succeeds |
| FileText.EntriesFrom | src/dir_cache.c:929-949 | the same, from the cursor the header check stops at, with no item read before |
| FileText.HeaderAt | src/dir_cache.c:910-927 | the header check stops right after the written header |
| FileText.LoadSaved | src/dir_cache.c:875-949 | the cache-file round trip: loading what dir_cache_save writes succeeds and gives every saved entry back in order, as a directory item whose record is ReadInfo of the entry and whose children are read back all the way down |
| JsonSpec.SkipWs | src/dir_cache.c:316-339 | the cursor moves forward over whitespace only, stops at the first other character, and counts the newlines it passes |
| JsonSpec.Expect | src/dir_cache.c:342-349 | succeeds exactly when the next non-blank character is the expected one, and then steps past it |
| JsonSpec.ParseString | src/dir_cache.c:361-420 | a parsed string fits the buffer; it starts at a quote and the cursor moves forward without crossing a line |
| JsonSpec.ParseUint64 | src/dir_cache.c:450-472 | succeeds exactly when the next non-blank character is a digit, and moves forward on the same line |
| RoundTripText.ParseUintWraps | src/dir_cache.c:450-472 | a run of digits of any length followed by neither a digit nor `.` is read as its value modulo 2^64 |
| RoundTripText.ParseUintFraction | src/dir_cache.c:450-472 | a number followed by `.` and more digits is read as the number; the fraction is discarded and the cursor stops after it |
| RoundTripText.ParseIntStopsAtDot | src/dir_cache.c:423-447 | parse_int64 has no fraction step: on a number followed by `.` and digits it reads the number and stops at the `.` |
| ReadText.FractionFails | src/dir_cache.c:689-699 | after a number, a `.` is neither `}`, `,` nor a key, so the member loop fails there: a fraction after asize or dsize fails the info object |
| JsonSpec.SkipValue | src/dir_cache.c:532-563 | a skipped value always moves the cursor forward (what is skipped: the SkipText rows) |
| JsonSpec.SkipObject | src/dir_cache.c:478-504 | a skipped object always moves the cursor forward (what is skipped: SkipText.SkipMetadata) |
| JsonSpec.SkipArray | src/dir_cache.c:507-529 | a skipped array always moves the cursor forward (what is skipped: the SkipText array rows) |
| SkipText.SkipDigits | src/dir_cache.c:551-560 | a written unsigned number is skipped exactly up to its last digit |
| SkipText.SkipSignedDigits | src/dir_cache.c:551-560 | a written signed number, minus sign included, is skipped exactly up to its last digit |
| SkipText.SkipNumber | src/dir_cache.c:551-560 | any run of number characters that opens with `-` or a digit is skipped whole |
| SkipText.SkipQuoted | src/dir_cache.c:540-541 | a string written with output_string is skipped up to and including its closing quote, whatever it holds |
| SkipText.SkipTrue | src/dir_cache.c:542-544 | `true` is skipped as four characters |
| SkipText.SkipFalse | src/dir_cache.c:545-547 | `false` is skipped as five characters |
| SkipText.ValueArray | src/dir_cache.c:538-539 | a value that opens with `[` is skipped as an array |
| SkipText.ArrayEmpty | src/dir_cache.c:511-514 | `[]` is skipped whole |
| SkipText.ArrayOpens | src/dir_cache.c:507-516 | an array that opens with an element goes on to skip its elements in turn |
| SkipText.ElementComma | src/dir_cache.c:517-527 | after an element followed by `,` the element loop goes on past the comma |
| SkipText.ElementLast | src/dir_cache.c:517-524 | after an element followed by `]` the array ends right after the bracket |
| SkipText.SkipMetadata | src/dir_cache.c:478-504 | the header's metadata object (progname, progver, timestamp) is skipped whole, whatever the timestamp, when name and version need no escaping |
| SkipText.UnknownKeySkipped | src/dir_cache.c:684-688 | a member under a key parse_item_info does not know leaves the record unchanged: its value, whatever it is, is skipped |
| JsonSpec.ExcludedFlag | src/dir_cache.c:663-675 | each known reason maps to its own flag and back (`otherfs` and `othfs` both to OTHFS); every other reason, and only those, means EXL |
| ReadBack.ReasonRead | src/dir_cache.c:663-675 | any `excluded` reason that fits the 16-byte buffer and needs no escaping adds the flag ExcludedFlag gives it: an unknown reason adds EXL, `othfs` adds OTHFS |
| JsonSpec.Member | src/dir_cache.c:586-689 | a parsed member always moves the cursor forward (what a written member does: ReadText.MemberRead) |
| ReadText.MemberRead | src/dir_cache.c:586-689 | a written member followed by `,` or `}` is read into the field its key names, as ApplyField says, and reading stops right after it |
| ReadText.InfoObjectRead | src/dir_cache.c:569-700 | parse_item_info reads a written info object, through the member loop, as its fields applied in order to the record it starts from, and stops after the `}` |
| JsonSpec.ParseItem | src/dir_cache.c:703-769 | a parsed item always moves the cursor forward (what a written item reads as: TreeText.ItemRead; its kind: TreeText.ItemKind) |
| JsonParser.Parser.constructor | src/dir_cache.c:875-909 | the reader starts at the first character on line 1 |
| JsonParser.Parser.SkipWs | src/dir_cache.c:316-339 | the loop ends where JsonSpec.SkipWs says |
| JsonParser.Parser.Expect | src/dir_cache.c:342-349 | succeeds exactly when JsonSpec.Expect does, at the same cursor; on failure only the whitespace is consumed |
| JsonParser.Parser.Peek | src/dir_cache.c:352-358 | the next non-blank character, after skipping the blanks |
| JsonParser.Parser.ParseString | src/dir_cache.c:361-420 | the loop succeeds exactly when JsonSpec.ParseString does, with the same string and cursor |
| JsonParser.Parser.Digits | src/dir_cache.c:450-472 | the accumulator loop ends after the last digit, holding the digits' value modulo 2^64 |
| JsonParser.Parser.ParseUint64 | src/dir_cache.c:450-472 | agrees with JsonSpec.ParseUint64 on success, value and cursor |
| JsonParser.Parser.SkipFraction | src/dir_cache.c:464-469 | past the `.`, the loop stops at the end of the digit run that follows, on the same line |
| JsonParser.Parser.ParseInt64 | src/dir_cache.c:423-447 | agrees with JsonSpec.ParseInt64 on success, value and cursor |
| JsonParser.Parser.SkipValue | src/dir_cache.c:532-563 | agrees with JsonSpec.SkipValue |
| JsonParser.Parser.SkipObject | src/dir_cache.c:478-504 | agrees with JsonSpec.SkipObject |
| JsonParser.Parser.SkipMember | src/dir_cache.c:478-504 | one pass of the object-skipping loop: what is left of JsonSpec.SkipMembers is unchanged, and the cursor moves forward |
| JsonParser.Parser.SkipArray | src/dir_cache.c:507-529 | agrees with JsonSpec.SkipArray |
| JsonParser.Parser.BoolFlag | src/dir_cache.c:647-662 | agrees with JsonSpec.BoolFlag: the flag changes only on `true` |
| JsonParser.Parser.FieldValue | src/dir_cache.c:594-689 | agrees with JsonSpec.FieldValue for every key |
| JsonParser.Parser.Member | src/dir_cache.c:586-689 | agrees with JsonSpec.Member |
| JsonParser.Parser.ItemInfo | src/dir_cache.c:569-700 | agrees with JsonSpec.ItemInfo, the device inherited from the parent when none was read |
| JsonParser.Parser.InfoPass | src/dir_cache.c:569-700 | one pass of the member loop: what is left of JsonSpec.InfoFields is unchanged |
| JsonParser.Parser.ParseItem | src/dir_cache.c:703-769 | agrees with JsonSpec.ParseItem |
| JsonParser.Parser.ChildPass | src/dir_cache.c:732-756 | one pass of the children loop: what is left of JsonSpec.ChildList is unchanged |
| JsonParser.Parser.TopPass | src/dir_cache.c:929-949 | one pass of dir_cache_load's entry loop: what is left of JsonSpec.TopItems is unchanged |
| JsonParser.Parser.Header | src/dir_cache.c:910-927 | succeeds exactly when JsonSpec.Header does, at the same cursor |
| RoundTripText.PushAllKeepsPrefix | src/dir_cache.c:361-420 | storing a string into a buffer of cap bytes keeps its prefix of cap-1 characters |
| RoundTripText.StrBodyEscaped | src/dir_cache.c:361-420 | the string body loop over an escaped string stops at its closing quote, holding the unescaped string |
| RoundTripText.ParseStringEscaped | src/dir_cache.c:361-420 | parse_string reads what output_string wrote, truncated to the buffer, and stops right after the closing quote |
| RoundTripText.ParsePlainString | src/dir_cache.c:361-420 | a quoted string with nothing to escape that fits the buffer is read back whole |
| RoundTripText.ParseUintDigits | src/dir_cache.c:450-472 | parse_uint64 reads back the number output_int wrote and stops after its digits |
| RoundTripText.ParseIntDigits | src/dir_cache.c:423-447 | parse_int64 reads back the number output_int64 wrote, negatives and INT64_MIN included |
| RoundTripText.ParseIntNonNegative | src/dir_cache.c:423-447 | the non-negative half of ParseIntDigits |
| RoundTripText.ParseIntNegative | src/dir_cache.c:423-447 | the negative half of ParseIntDigits |
| ReadBack.ReadNameKept | src/dir_cache.c:594-599 | a name read back holds no NUL; a plain name shorter than the buffer is read back unchanged |
| ReadBack.FieldTextSplit | src/dir_cache.c:172-269 | every member the writer writes is a plain quoted key that fits the key buffer, a colon, then its value |
| ReadBack.KeyRead | src/dir_cache.c:586-593 | the reader reads such a key and the colon after it and stops right after the colon |
| ReadBack.NameValue | src/dir_cache.c:594-599 | the `name` member's value is read back into the record's name, as ReadName says |
| ReadBack.SignedValue | src/dir_cache.c:600-609 | a written asize or dsize is read back into the same field |
| ReadBack.UnsignedValue | src/dir_cache.c:610-646 | a written dev, ino, mtime, uid, gid, mode or nlink is read back into the same field (uid and gid as 32 bits, mode as 16) |
| ReadBack.TrueValue | src/dir_cache.c:647-684 | a written `true` for hlnkc, read_error or notreg sets the flag it names |
| ReadBack.ExcludedValue | src/dir_cache.c:663-675 | a written exclusion reason is read back as the flag it stands for |
| ReadBack.SizesRead | src/dir_cache.c:600-624 | reading the size, device, inode and mtime members sets each nonzero value and leaves a zero one (not written) as it was |
| ReadBack.OwnerRead | src/dir_cache.c:625-639 | reading the owner members sets each nonzero uid, gid and mode and leaves the zero ones as they were |
| ReadBack.LinkRead | src/dir_cache.c:640-654 | a link count above 1 is read back together with the hard-link flag; otherwise nothing changes |
| ReadBack.MarksRead | src/dir_cache.c:655-689 | the error, not-regular and exclusion members add ERR, drop FILE and add the surviving exclusion flag |
| ReadBack.ExclusionRead | src/dir_cache.c:663-675 | of several exclusion flags only the written one survives, and none when none was set |
| ReadBack.ItemFieldsRead | src/dir_cache.c:569-700 | reading an item's members from a blank record gives its uid, gid and mode, its link count when above 1, and ReadFlags |
| ReadBack.InfoRead | src/dir_cache.c:569-700 | reading the name and all members of an item, as parse_item starts, gives ReadInfo: every written number back, and what is lost made explicit |
| ReadBack.EntryRead | src/dir_cache.c:1213-1270 | an entry's own info object read back as a directory on device 0 gives ReadInfo of that directory |
| LockInfo.Clamp64 | src/dir_cache_lock.c:72-98 | what sscanf's %ld keeps of an out-of-range number: the nearest value of a long |
| LockInfo.ScanLong | src/dir_cache_lock.c:72-98 | a scanned number is a long and consumes at least one character |
| LockInfo.AsPid | src/dir_cache_lock.c:72-98 | the cast to pid_t keeps every value that fits 32 bits |
| LockInfo.LockInfoRoundTrip | src/dir_cache_lock.c:102-128 | the line write_lock_info formats always fits its 64-byte buffer, and read_lock_info reads back the same pid and timestamp from it |
| LockInfo.StalenessOfWrittenInfo | src/dir_cache_lock.c:132-154 | for a live-pid holder that wrote its info, is_lock_stale (through read_lock_info and process_alive) says stale exactly when kill failed or the timestamp is more than 300 seconds old |
| CacheLock.HolderStaleOfWritten | src/dir_cache_lock.c:132-154 | the stale check of the lock manager, on an oracle answer that is read_lock_info of a written lock file, is is_lock_stale of that file's text, with the same verdict |
| CacheLock.Pass | src/dir_cache_lock.c:232-318 | every pass starts with a non-blocking flock in the requested mode |
| CacheLock.PassSleeps | src/dir_cache_lock.c:309-312 | a pass pauses once, for the current delay, exactly when it goes on to another pass |
| CacheLock.LoopSchedule | src/dir_cache_lock.c:232-318 | the pauses of the loop are a schedule: each is the next delay after the one before |
| CacheLock.AcquireBackoff | src/dir_cache_lock.c:310-317 | the k-th pause of an acquisition lasts min(10 ms * 2^k, 500 ms) |
| CacheLock.PassCloses | src/dir_cache_lock.c:232-318 | a pass closes the descriptor exactly when it fails, as its last call |
| CacheLock.LoopClosesOnFailure | src/dir_cache_lock.c:232-318 | an acquisition closes the descriptor exactly when it fails, once, as its last call; a success keeps it open |
| CacheLock.PassReads | src/dir_cache_lock.c:260-263 | only the first pass reads the lock file (the stale check), right after its flock |
| CacheLock.LoopReadsOnce | src/dir_cache_lock.c:260-263 | over the whole loop the lock file is read at most once, in the first pass |
| CacheLock.NonBlocking | src/dir_cache_lock.c:294-298 | with timeout 0 the first pass settles the outcome and nothing sleeps |
| CacheLock.TimeoutSettles | src/dir_cache_lock.c:300-307 | once the elapsed time reaches a positive timeout, the loop has ended by that pass |
| CacheLock.BlockingWaits | src/dir_cache_lock.c:309-317 | with timeout -1 and the lock always busy, the loop never gives up and pauses once per pass |
| CacheLock.ExclusiveWritesInfo | src/dir_cache_lock.c:239-245 | an exclusive lock is only granted after the holder's pid and time were written |
| CacheLock.PassWrites | src/dir_cache_lock.c:239-245 | the same for one pass |
| CacheLock.AcquireResult | src/dir_cache_lock.c:194-318 | success leaves a lock held in a mode at least as strong as requested; failure leaves none held, and the state stays consistent |
| CacheLock.AlreadyHeld | src/dir_cache_lock.c:207-213 | a lock already held in a strong enough mode is granted with no call at all |
| CacheLock.UpgradeReleasesFirst | src/dir_cache_lock.c:214-219 | upgrading shared to exclusive first unlocks and closes, then reopens the lock file |
| CacheLock.ReleaseIdempotent | src/dir_cache_lock.c:323-335 | after a release nothing is held, and a second release makes no call |
| CacheLock.LockManager.constructor | src/dir_cache_lock.c:50-59 | no path, no descriptor, nothing held, no call made |
| CacheLock.LockManager.Release | src/dir_cache_lock.c:323-335 | the state and calls ReleaseSpec gives |
| CacheLock.LockManager.Cleanup | src/dir_cache_lock.c:339-348 | the state and calls CleanupSpec gives |
| CacheLock.LockManager.Init | src/dir_cache_lock.c:174-190 | the state and calls InitSpec gives; returns 0 on success and -1 otherwise |
| CacheLock.LockManager.WriteInfoStep | src/dir_cache_lock.c:239-245 | the calls of the info write, and on failure the unlock and close |
| CacheLock.LockManager.Attempt | src/dir_cache_lock.c:232-318 | one pass of the loop, as Pass says |
| CacheLock.LockManager.Contend | src/dir_cache_lock.c:253-318 | the part of a pass after a busy flock, as Contended says |
| CacheLock.LockManager.AfterStaleCheck | src/dir_cache_lock.c:261-291 | the first pass's reaction to the stale check, as AfterCheck says |
| CacheLock.LockManager.GiveUpOrPause | src/dir_cache_lock.c:293-312 | gives up on timeout 0 or an expired timeout and pauses otherwise, as Wait says |
| CacheLock.LockManager.CheckStale | src/dir_cache_lock.c:132-154 | one read of the lock file, and the verdict HolderStale gives |
| CacheLock.LockManager.TakeOver | src/dir_cache_lock.c:264-288 | the take-over of a stale lock, as Reclaim says (downgraded to shared when shared was requested) |
| CacheLock.LockManager.Retry | src/dir_cache_lock.c:228-318 | the whole retry loop, as Loop says |
| CacheLock.LockManager.Round | src/dir_cache_lock.c:232-318 | one pass, and what the rest of Loop is after it |
| CacheLock.LockManager.Acquire | src/dir_cache_lock.c:194-318 | the state, outcome and calls AcquireSpec gives |
| CacheLock.LockManager.OpenAndRetry | src/dir_cache_lock.c:218-318 | opens the lock file and retries, as OpenSpec says |
| ArgParse.PopSpec | src/main.c:137-144 | nothing when the vector is empty; otherwise its first argument, removed from the vector |
| ArgParse.FindEq | src/main.c:166-172 | the position of the first `=`, or none when there is none |
| ArgParse.NextSpec | src/main.c:155-176 | a short cluster in progress stays nonempty and the ignore-errors setting never changes |
| ArgParse.ArgSpec | src/main.c:178-193 | the same for argparser_arg |
| ArgParse.NextDone | src/main.c:155-164 | the parser is done exactly when nothing is pending and the vector is empty or holds only a `--` not yet seen |
| ArgParse.SeparatorConsumed | src/main.c:162-165 | the first `--` turns on the separator and is skipped |
| ArgParse.PositionalArgument | src/main.c:158-160 | after `--`, an empty argument or one not starting with `-` is positional |
| ArgParse.LongOptionSplit | src/main.c:166-172 | `--key=value` is the option `--key` with argument `value`, and the next call fails when the value is not taken |
| ArgParse.Run | src/main.c:155-176 | n calls of argparser_next give n results |
| ArgParse.ShortOptions | src/main.c:146-152 | each letter of a cluster is its own option `-x` |
| ArgParse.ClusterInProgress | src/main.c:146-157 | the rest of a cluster yields one option per letter, then nothing is pending |
| ArgParse.ShortCluster | src/main.c:146-176 | `-abc` yields `-a`, `-b`, `-c` and consumes one argument |
| ArgParse.ArgPriority | src/main.c:178-193 | an option's argument is the rest of the cluster, else the `=value`, else the next argument, else an error |
| ArgParse.ArgParser.constructor | src/main.c:378-379 | a fresh parser over the arguments |
| ArgParse.ArgParser.Pop | src/main.c:137-144 | as PopSpec |
| ArgParse.ArgParser.ShortOpt | src/main.c:146-152 | the option is the cluster's first letter and the rest stays pending |
| ArgParse.ArgParser.Next | src/main.c:155-176 | as NextSpec, the separator recursion included |
| ArgParse.ArgParser.Arg | src/main.c:178-193 | as ArgSpec |
| ConfigLine.LStrip | src/main.c:372 | a suffix of the line that does not start with a space or tab |
| ConfigLine.LStripRemovesBlanks | src/main.c:372 | everything removed is a space or tab |
| ConfigLine.RStrip | src/main.c:374 | a prefix of the line that does not end in a space, tab, CR or LF |
| ConfigLine.RStripRemovesTrailing | src/main.c:374 | everything removed is a space, tab, CR or LF |
| ConfigLine.Trim | src/main.c:371-375 | the loops leave the line with both ends trimmed |
| ConfigLine.CutTrailing | src/main.c:374-375 | the loop cuts exactly the trailing blanks |
| ConfigLine.Split | src/main.c:388-394 | the line splits into the option and, when more follows, its argument after the blanks |
| ConfigLine.ReadLine | src/main.c:371-394 | a line is skipped exactly when blank or a comment (also after `@`); otherwise `@` sets ignerror and the rest is split |
| ConfigLine.ReadTrimmed | src/main.c:376-394 | the same for a line already trimmed |
| ConfigLine.StripBlank | src/main.c:372 | a leading blank is skipped |
| ConfigLine.StripDone | src/main.c:372 | stripping stops at the first character that is not blank |
| RegistrySpec.MarkUsed | src/dir_cache.c:969-992 | marking entries used never adds or removes a path |
| RegistrySpec.MarkUsedAt | src/dir_cache.c:969-992 | an entry is used after marking exactly when it was marked or already used, and is otherwise unchanged |
| RegistrySpec.ItemsOf | src/dir_cache.c:1002-1059 | the children stored per path, over the same paths |
| RegistrySpec.LoadAppend | src/dir_cache.c:929-949 | loading items one more at a time adds that item's directories to the table |
| RegistrySpec.SelectedAppend | src/dir_cache.c:1213-1270 | the save walk writes one more entry exactly when that entry is used |
| RegistrySpec.MarkUsedTwice | src/dir_cache.c:1063-1138 | marking twice is marking the union |
| RegistrySpec.LookupStrict | src/dir_cache.c:969-992 | a lookup hits exactly when mtime, device and inode all match, and a hit marks only that entry used |
| RegistrySpec.LookupAfterStore | src/dir_cache.c:1002-1059 | right after a store, a lookup hits exactly with the stored mtime, device and inode; the stored entry is used and nothing else changed |
| RegistrySpec.StoreKeyed | src/dir_cache.c:1002-1059 | a store keeps every entry under its own path |
| RegistrySpec.FirstSeenWins | src/dir_cache.c:773-851 | loading never replaces an entry: the first item naming a path wins, and the loaded paths are exactly the old ones and the named ones |
| RegistrySpec.LoadKeepsEntry | src/dir_cache.c:773-851 | an entry present before loading is unchanged after |
| RegistrySpec.LoadFirstItem | src/dir_cache.c:773-851 | a new path gets the entry of the first item naming it |
| RegistrySpec.LoadDomain | src/dir_cache.c:773-851 | the loaded paths are the old ones and those the items name |
| RegistrySpec.LoadKeyed | src/dir_cache.c:773-851 | loading keeps every entry under its own path |
| RegistrySpec.SelectedAreUsed | src/dir_cache.c:1213-1270 | over a walk without repeats, the entries written are exactly the used ones, each once |
| RegistrySpec.SaveSelectsUsed | src/dir_cache.c:1213-1270 | over a walk of the whole table, save writes every used entry and only used entries |
| ReplaySpec.ItemDir | src/dir_cache.c:1063-1138 | the struct dir replayed for a child keeps its sizes, inode, device and flags, with EXT set when it has extended info |
| ReplaySpec.ItemExt | src/dir_cache.c:1063-1138 | the extended info carries mtime, uid, gid and mode, each marked present exactly when nonzero |
| ReplaySpec.LongerShrinks | src/dir_cache.c:1063-1138 | moving to a longer stored path leaves fewer longer paths (replay terminates) |
| ReplaySpec.JoinLonger | src/dir_cache.c:1063-1138 | a child's path is longer than its parent's, so recursing into it shrinks the measure or finds no entry |
| ReplaySpec.ListStep | src/dir_cache.c:1063-1138 | replaying one more child appends that child's events and visited paths |
| ReplaySpec.ReplayDir | src/dir_cache.c:1063-1138 | a directory child is its item, the subtree of its stored entry, then a close |
| ReplaySpec.CountsAppend | src/dir_cache.c:1063-1138 | directory opens and closes add up over concatenated traces |
| ReplaySpec.ChildBalanced | src/dir_cache.c:1063-1138 | replaying a child closes every directory it opens |
| ReplaySpec.TreeBalanced | src/dir_cache.c:1063-1138 | the same for a stored subtree |
| ReplaySpec.ListBalanced | src/dir_cache.c:1141-1151 | the same for a list of children, so dir_cache_replay hands the scanner a balanced trace |
| ReplaySpec.VisitedStored | src/dir_cache.c:1063-1138 | replay marks only stored paths, and a file child is one event that marks nothing |
| ReplaySpec.VisitedTreeStored | src/dir_cache.c:1063-1138 | the same for a stored subtree |
| ReplaySpec.VisitedListStored | src/dir_cache.c:1141-1151 | the same for a list of children |
| Registry.Marked | src/dir_cache.c:969-992 | marking keeps the table's paths, sets used exactly on the marked entries and those already used, changes nothing else in an entry, and leaves a missing table missing |
| Registry.TableOf | src/dir_cache.c:67-74 | the path-to-entry view of the table and list: the same paths, every entry under its own path |
| Registry.Cache.constructor | src/dir_cache.c:67-74 | no file name, no table, no entries, no lock held |
| Registry.Cache.Init | src/dir_cache.c:859-871 | the file name is set, the table is empty, and the lock is initialised as InitSpec says |
| Registry.Cache.SetUsed | src/dir_cache.c:969-992 | only the one entry's used mark changes |
| Registry.Cache.Touch | src/dir_cache.c:969-992 | the view marks the one path used, nothing else changes |
| Registry.Cache.Lookup | src/dir_cache.c:969-992 | the table changes as AfterLookup says, the handle is returned exactly on a hit, and it designates the entry for the path |
| Registry.Cache.Insert | src/dir_cache.c:1002-1059 | the path now maps to the new entry, appended to the list |
| Registry.Cache.Store | src/dir_cache.c:1002-1059 | the table changes as AfterStore says; the list gains the stored entry at its end, a replaced entry stays in its slot with only its used mark cleared, and every other slot is unchanged |
| Registry.Cache.BuildCacheEntries | src/dir_cache.c:773-851 | the table changes as AfterBuild says |
| Registry.Cache.Load | src/dir_cache.c:875-965 | -1 without a file name; without the shared lock, 0 and no change; otherwise the file's items are loaded as AfterLoad says |
| Registry.Cache.LoadFile | src/dir_cache.c:875-965 | the loaded table and return value the file gives, and the lock released |
| Registry.Cache.LoadText | src/dir_cache.c:910-949 | the text's items are loaded as AfterLoad says, and the return value is the parse's outcome |
| Registry.Cache.Save | src/dir_cache.c:1169-1307 | under the exclusive lock, the text written is the header and exactly the used entries in walk order; nothing is written without the lock or when a file step fails |
| Registry.Cache.WrittenEntries | src/dir_cache.c:1213-1270 | the loop collects exactly the used entries, in walk order |
| Registry.Cache.Destroy | src/dir_cache.c:1311-1336 | the table, list and file name are gone, and the lock is cleaned up |
| Registry.Cache.ReplayRecursive | src/dir_cache.c:1063-1138 | the events appended and the entries marked used are those ReplayChild and Visited give |
| Registry.Cache.ReplayDirChild | src/dir_cache.c:1063-1138 | the same for a directory child |
| Registry.Cache.ReplayBelow | src/dir_cache.c:1063-1138 | the events of a stored subtree and its close, and its entries marked used |
| Registry.Cache.ReplayItems | src/dir_cache.c:1063-1138 | the events and marks of a list of children |
| Registry.Cache.ReplayNext | src/dir_cache.c:1063-1138 | one pass of the children loop extends the events and marks by one child |
| Registry.Cache.Replay | src/dir_cache.c:1141-1151 | nothing without an entry; otherwise the entry's children are replayed as ReplayList says and the visited entries marked used |
| Registry.NextStep | src/dir_cache.c:1063-1138 | the trace and marks after one more child are those of the longer prefix |
| Registry.SelectedNamed | src/dir_cache.c:1213-1270 | the children of every entry save writes are named, all the way down, when those of every used entry are |

## Left out

- File I/O: the cache file is one string. parse_fill's refill of a 64 KiB buffer is not modelled, and neither is any effect of where the buffer boundaries fall.
- The parser's error cursor: after a failed parse the model's cursor is not compared with the source's; only failure itself is.
- dir_cache_save's file steps (fopen of the temporary file, the writes, fflush, fsync, rename and the directory fsync) are one `fileOk` parameter. PACKAGE, the version and `time(NULL)` in the header are parameters too.
- khash is a Dafny `map` from path to the entry's place on the list. The order in which dir_cache_save walks the hash table is a parameter that enumerates every path once.
- entry_list is kept oldest first, while the source prepends. Its order has no effect, since the list is only walked to free memory.
- Registry.Cache.Lookup hands out the entry's place on the list rather than its address.
- Freeing memory (free_cache_child, free_cache_entry, the list walk of dir_cache_destroy) is not modelled. Destroy empties the state.
- The system calls of the lock (open, fcntl, flock, lseek, read, write, ftruncate, fsync, close, kill, time, nanosleep) are answers of a `World` oracle and a recorded list of calls.
- CacheLock.LockManager.Retry: the oracle lists a finite number of flock attempts. When it runs out, the loop ends with the outcome `Pending`, which the source cannot return.
- try_flock's blocking mode is never used by the source (always non-blocking) and is left out.
- Registry.Cache.Save requires every child, at any depth, of every used entry to have a name; write_cache_child would pass a NULL name to output_string (src/dir_cache.c:184).
- Registry.Cache.Replay requires every child to have a name. A nameless file child would hand a NULL name to the scanner's item callback; a nameless directory child would pass NULL to strlen when its path is built.
- Registry.Cache.Replay also requires directory children to have a nonempty name. Under a parent path ending in `/`, an empty name gives the parent's own path, whose entry would be replayed again without end; elsewhere the source handles it, but the model excludes it too.
- parse_uint64 discards a fraction after its digits (src/dir_cache.c:464-469), but parse_int64, which reads asize and dsize, has no such step and stops before a `.`. The model follows the code: RoundTripText.ParseIntStopsAtDot and ReadText.FractionFails show that an info object with a fractional asize or dsize fails; RoundTripText.ParseUintFraction states the unsigned case.
- JsonSpec.ParseInt64: the signed overflow of the accumulator is undefined behaviour in C. It is modelled as two's complement wrap-around.
- Decimal.OutputInt64: the source negates INT64_MIN in a signed type. The model takes the wrap-around reading, under which the digits printed are still correct.
- FileText.LoadSaved: the cache-file round trip is proved when the program name and version need no escaping (AllPlain), every used entry's children have names, and only directories have children (EntriesNest). write_cache_child writes the children of a file too, which the reader would not read back.
- ReadBack.InfoRead relates the fields the writer emits to ReadInfo at the level of fields (ApplyFields); the text-level statement is ReadText.InfoObjectRead and TreeText.ItemRead.
- A `char` stands for one byte. C names, parse_string's destination length and the 16-byte EXCL_BUF count bytes; a name whose UTF-8 encoding is longer than its character count is truncated earlier by the source than by the model.
- cache_lock_acquire's `fcntl(fd, F_SETFD, FD_CLOEXEC)` after opening the lock file is not in the recorded calls: its result is not checked and it only matters to child processes.
- The rest of ncdu (dir_scan.c, the ncurses browser, shell.c, help.c and the rest of main.c) is not part of this model.
