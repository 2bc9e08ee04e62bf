# Native agent: crash reports and the protocols around them

A Dafny model of the Android native agent: how a crash or ANR becomes a report, how the report is stored and read
back, and the small concurrent protocols that surround it. `dafny verify dfyconfig.toml` checks all of it.

**The report pipeline.** The unwinder's callback folds instruction pointers into at most a hundred frames
(`Unwinder`). Thread state comes out of the tokenised stat lines of the task directory (`ThreadCollector`). The
emitter builds the report from formatted pieces of at most 2047 characters, in single quotes, and translates the
quotes at the end (`Emitter`). The text is copied into a bounded buffer and stored (`Storage`); the Kotlin classes
parse it back (`Readers`, `FrameLists`), through a JSON parser written out in full (`Json`). `ReportValue` and
`Readability` show when the printed text is JSON and when it is not, `RawText`, `CleanReport` and `ExactReport` what
strings and cut pieces do to it, `RoundTrip` what comes back, `Spellings` what else the parser reads, `SizeBound` how long it gets, and `EndToEnd` puts the
pieces together from the first callback to the reader objects.

**The protocols.** Each is a step relation over the shared state, with lemmas about all runs, and a class or method
for the code, tied to the steps: the native ANR watchdog (`Watchdog`), the looper monitor (`LooperMonitor`) with its
sample counter (`AnrSampling`) and report task (`RetryTask`), the crash signal handler (`SignalHandler`), and the
report store (`ReportStore`) with the names of its files (`ReportNames`).

Clean strings are those without control characters, quotes and backslashes: the emitter escapes nothing. A report
*fits* when the quoted label of every frame, path and symbol included, is within one formatted piece.

## Where the code differs from what is said of it

- `ANRMonitor.kt:214` speaks of consecutive ANRs. The counter is not reset by a good sample; `AnrSampling.ConsecutiveIff`
  states when the word holds, `AnrSampling.NotConsecutive` an input for which it does not.
- `README.md:113` says that expired reports are removed only after a final post to the listener. That takes a listener
  and a readable file: `ReportStore.MarkedUnoffered`, and `ReportStore.LostIff` for exactly when one is lost
  unoffered, over whole runs.
- `agent-ndk.h:20-21` limits a frame to one kilobyte. Nothing in the emitter does: `SizeBound.FrameLimitIff` says which
  frames keep to it, `SizeBound.FrameLimitExceeded` has one that does not, and `SizeBound.FrameLength` is the bound that
  holds of all.
- A frame whose path and symbol are too long for one piece makes the whole report unreadable
  (`Readability.ReadableIffFits`); that takes a build with paths of more than 1745 characters
  (`Readability.AllReadableIff`).
- The emitter escapes nothing. A report is read back as what it was made from if and only if its strings are clean and
  no piece is cut (`ExactReport.ReadsBackIff`); otherwise it is unreadable (`Readability.QuoteReportUnreadable`), or
  readable as something else (`Readability.QuotesWriteMembers`).
- Addresses of 2^63 and more come back as the largest long (`RoundTrip.AddressPreserved`).
- A process with more than a hundred threads may leave the crashed one, and with it the stack, out of its report
  (`EndToEnd.CrashedThreadListed`).
- A failed `sem_wait` can send one ANR on twice (`Watchdog.BoundIsTight`), and only that can (`Watchdog.NoneSentTwiceIff`); a
  failed `sem_post` can leave the shutdown joining for ever (`Watchdog.FailedPostStrands`, and
  `Watchdog.ExitsUnlessStranded` for exactly when).
- A start that cannot name its thread is counted without installing anything (`SignalHandler.RestoredIff`).
- A runner that is late by one round can hide the next ANR (`LooperMonitor.StaleRunMasksAnr`,
  `LooperMonitor.EarlierRunMasksAnr`); exactly when is known at the post (`LooperMonitor.UnrunRunnerVerdict`).

## Model

| member | source | states |
|---|---|---|
| Json.ParsePrint | agent-ndk/src/main/java/com/newrelic/agent/android/ndk/NativeStackTrace.kt:21-23 | Parsing the text of any well-formed value, whatever follows it, gives that value back and stops where it ends (sections 4 to 7 of RFC 8259). |
| Json.TextRoundTrip | agent-ndk/src/main/java/com/newrelic/agent/android/ndk/NativeStackTrace.kt:21-23 | A whole text that is a printed value parses to exactly that value. |
| Spellings.SpellingReads | agent-ndk/src/main/java/com/newrelic/agent/android/ndk/NativeStackTrace.kt:21-23 | Every spelling of a string reads as the string: each character as it is, by its two-character escape or by four hexadecimal digits in either case (section 7 of RFC 8259). |
| Spellings.BlanksAround | agent-ndk/src/main/java/com/newrelic/agent/android/ndk/NativeStackTrace.kt:21-23 | White space before and after a text changes nothing. |
| Spellings.OnlyBlanks | agent-ndk/src/main/java/com/newrelic/agent/android/ndk/NativeStackTrace.kt:21-23 | Of all characters the blank, tab, line feed and carriage return alone may stand before a text. |
| RawText.SelfRead | agent-ndk/src/main/cpp/emitter.cpp:390-391 | A string the emitter writes is read back as itself only if it is clean: once reading lags behind, it never catches up, whatever follows. |
| RawText.ReadsBackClean | agent-ndk/src/main/cpp/emitter.cpp:390-391 | Nor does any well-formed value come back from its text without escapes, unless all its strings are clean. |
| RawText.RawReadsBackIff | agent-ndk/src/main/cpp/emitter.cpp:377-394 | Written without escapes, a well-formed value is read back as itself if and only if all its strings are clean. |
| Numerals.NumeralRoundTrip | agent-ndk/src/main/java/com/newrelic/agent/android/ndk/NativeStackFrame.kt:34-36 | A number printed in base 10 or 16 is read back as itself, for every number. |
| Numerals.SignedReads | agent-ndk/src/main/java/com/newrelic/agent/android/ndk/NativeStackFrame.kt:34-36 | Signed numbers are printed as sign and magnitude, which read back as themselves, in base 10 and 16. |
| Numerals.PaddedReads | agent-ndk/src/main/cpp/emitter.cpp:119-121 | Padding with zeros reaches the width and keeps the value. |
| Report.FieldCopy | agent-ndk/src/main/cpp/unwinder.cpp:85-97 | `strncpy` into a zeroed field yields a prefix shorter than the field, and the whole string when it fits. |
| Report.FrameResolved | agent-ndk/src/main/cpp/unwinder.cpp:78-110 | For every resolved address: base and pc add up to it, as do symbol address and offset unless there is no symbol address, when the offset is zero; path and symbol are the linker's, cut to their fields, empty when missing. |
| Report.FrameUnresolved | agent-ndk/src/main/cpp/unwinder.cpp:78-110 | An address the linker does not resolve has only itself and its index. |
| Report.FramesInOrder | agent-ndk/src/main/cpp/emitter.cpp:307-314 | A thread's frames are its recorded addresses in order, each with its place; there are none without a backtrace state. |
| Report.LowHalves | agent-ndk/src/main/cpp/emitter.cpp:119-123 | What `%x` and `%d` print of a word is congruent to it, unsigned below 2^32 and signed within an `int`. |
| Emitter.TextBuffer.ReplaceQuotes | agent-ndk/src/main/cpp/emitter.cpp:390-391 | The in-place pass turns every single quote into a double quote and changes nothing else. |
| Emitter.EmitF | agent-ndk/src/main/cpp/emitter.cpp:29-38 | Appends the formatted text cut at 2047 characters, and nothing else. |
| Emitter.CappedPrefix | agent-ndk/src/main/cpp/emitter.cpp:29-38 | The cut is a prefix of 2047 characters, or the whole text when it is shorter than 2048. |
| Emitter.EmitE | agent-ndk/src/main/cpp/emitter.cpp:68-88 | Appends an optional cut name and the arguments, joined by commas, up to the first null one, in braces. |
| Emitter.EmitA | agent-ndk/src/main/cpp/emitter.cpp:97-117 | The same in brackets. |
| Emitter.PopTerminated | agent-ndk/src/main/cpp/emitter.cpp:312-316 | Popping the last character of items that each carry a comma leaves the items joined by commas. |
| Emitter.FrameToString | agent-ndk/src/main/cpp/emitter.cpp:119-125 | Appends the readable label: index, low half of the relative pc, path and, if there is a symbol, the symbol and its signed offset. |
| Emitter.FrameToJson | agent-ndk/src/main/cpp/emitter.cpp:127-148 | Appends the frame's object text, each field a capped piece, path and symbol only when present. |
| Emitter.EmitCallstack | agent-ndk/src/main/cpp/emitter.cpp:304-322 | Appends the stack array of a thread: its resolved frames in order, none for a thread without a backtrace state. |
| Emitter.EmitThreadInfo | agent-ndk/src/main/cpp/emitter.cpp:331-345 | Appends the thread's object text with its stack inside it. |
| Emitter.EmitThreadState | agent-ndk/src/main/cpp/emitter.cpp:353-369 | Appends the array of all threads in order. |
| Emitter.EmitContext | agent-ndk/src/main/cpp/emitter.cpp:279-295 | Appends the ten fields of the process. |
| Emitter.EmitRegisters | agent-ndk/src/main/cpp/emitter.cpp:195-272 | Yields and writes the register object; for a null context yields nothing and leaves the buffer empty. |
| Emitter.EmitSignalContext | agent-ndk/src/main/cpp/emitter.cpp:166-186 | Appends the exception object with the signal's description inside it. |
| Emitter.EmitBacktrace | agent-ndk/src/main/cpp/emitter.cpp:377-394 | Yields exactly the report text, quotes translated, that the lemmas below are about. |
| ReportValue.LabelShape | agent-ndk/src/main/cpp/emitter.cpp:119-130 | The label of a clean frame is clean, and its quoted piece fits the buffer exactly when the frame's path and symbol are short enough. |
| ReportValue.LabelTells | agent-ndk/src/main/cpp/emitter.cpp:119-125 | From a label that fits one reads the index in two digits, the pc modulo 2^32 in sixteen, the path, and the symbol with a signed offset congruent to the real one. |
| ReportValue.FramePrints | agent-ndk/src/main/cpp/emitter.cpp:127-148 | A frame whose first piece fits prints the object of its fields without escapes, whatever its strings: path and symbol left out when empty. |
| ReportValue.ThreadPrints | agent-ndk/src/main/cpp/emitter.cpp:331-345 | A thread whose frames fit prints the object of its fields and stack in the same way. |
| ReportValue.BacktracePrints | agent-ndk/src/main/cpp/emitter.cpp:377-394 | A report whose pieces fit is the value of the backtrace written without escapes, whatever its strings; with a null context it is that of the process fields alone. |
| ReportValue.BacktraceWellFormed | agent-ndk/src/main/cpp/emitter.cpp:377-394 | That value is well formed for every backtrace. |
| CleanReport.ValueCleanIff | agent-ndk/src/main/cpp/emitter.cpp:377-394 | All strings of that value are clean if and only if the strings it is made from are: those of the process, the registers, the signal, the threads and the frames; with a null context those of the process alone. |
| Readability.CutFrameUnreadable | agent-ndk/src/main/cpp/emitter.cpp:29-38 | A frame whose first piece is cut leaves an unclosed string that no text after it can turn into a value. |
| Readability.QuoteInLabelUnreadable | agent-ndk/src/main/cpp/emitter.cpp:390-391 | A quote in a path or symbol, which the emitter does not escape, makes the frame unreadable for every continuation, if what follows the quote does not separate JSON members. |
| Readability.FrameBreaksThread | agent-ndk/src/main/cpp/emitter.cpp:331-345 | The first frame of a thread that does not print makes the thread unreadable when it is so itself, whatever the frames after it are. |
| Readability.ThreadBreaksReport | agent-ndk/src/main/cpp/emitter.cpp:377-394 | The first thread that does not print makes the report fail to parse when it is unreadable, whatever the threads after it are. |
| Readability.QuoteReportUnreadable | agent-ndk/src/main/cpp/emitter.cpp:377-394 | One such quote in the first frame that does not print, and the whole report fails to parse. |
| Readability.QuotesWriteMembers | agent-ndk/src/main/cpp/emitter.cpp:127-148 | Quotes that do separate leave the frame readable as another one: its path ends at the first quote, and what follows is read as fields no frame has. |
| Readability.CutThreadUnreadable | agent-ndk/src/main/cpp/emitter.cpp:331-345 | One cut frame makes its thread unreadable, whatever the other frames are. |
| Readability.CutReportUnreadable | agent-ndk/src/main/cpp/emitter.cpp:377-394 | One cut frame makes the whole report fail to parse. |
| Readability.ReadableIffFits | agent-ndk/src/main/cpp/emitter.cpp:377-394 | The emitted report parses if and only if every frame's first piece fits, and then to exactly the value of the backtrace. |
| Readability.ReadsBackIffClean | agent-ndk/src/main/cpp/emitter.cpp:377-394 | A report whose pieces fit, of any strings, is read back as the value of the backtrace if and only if its strings are clean. |
| Readability.ShortPathsFit | agent-ndk/src/main/cpp/unwinder.cpp:85-97 | With path buffers of at most 1745 characters every report fits, whatever its strings. |
| Readability.ShortPathsReadBackIffClean | agent-ndk/src/main/cpp/unwinder.cpp:85-97 | With such path buffers that is so without a condition on lengths. |
| Readability.LongNamesCut | agent-ndk/src/main/cpp/unwinder.cpp:85-97 | For every larger path buffer there is a report within its widths, of clean strings, that does not parse. |
| Readability.AllReadableIff | agent-ndk/src/main/cpp/backtrace.h:12-14 | All clean reports of a build parse if and only if its path buffer is at most 1745 characters; the default of 1024 is. |
| Readability.NullContextReadable | agent-ndk/src/main/cpp/emitter.cpp:382-386 | A null context ends the argument list early: the report of a process with clean strings parses, but holds neither exception nor threads, whatever their strings. |
| ExactReport.TextNeeds | agent-ndk/src/main/java/com/newrelic/agent/android/ndk/NativeStackTrace.kt:21-23 | A text that parses to a value is at least as long as the value written without escapes. |
| ExactReport.ReportTextSize | agent-ndk/src/main/cpp/emitter.cpp:29-38 | A report with a cut piece is shorter than that, whatever its strings. |
| ExactReport.ReadsBackIff | agent-ndk/src/main/cpp/emitter.cpp:377-394 | For every backtrace within its field widths: the report is read back as the value it was made from if and only if its strings are clean and no piece is cut; with a null context only the strings of the process count, and nothing is cut. |
| JsonAccess.PrintedInteger | agent-ndk/src/main/java/com/newrelic/agent/android/ndk/NativeThreadInfo.kt:25-27 | Printed integers come back through the accessors: clamped to 64 bits, and unchanged when they are 32-bit values read as such. |
| JsonAccess.PrintedInt | agent-ndk/src/main/java/com/newrelic/agent/android/ndk/NativeThreadInfo.kt:25-27 | Read as an `int`, a printed `long` keeps its low half, and a number beyond a `long` is the nearest `int`. |
| JsonAccess.LookupIff | agent-ndk/src/main/java/com/newrelic/agent/android/ndk/NativeStackFrame.kt:33-38 | A key is found exactly when a member has it, and gives the last such member's value. |
| JsonAccess.TextReads | agent-ndk/src/main/java/com/newrelic/agent/android/ndk/NativeThreadInfo.kt:78-84 | The text of a string is the string; the text of any other well-formed value parses to it. |
| Readers.ElementFields | agent-ndk/src/main/java/com/newrelic/agent/android/ndk/NativeStackFrame.kt:31-44 | The element of a frame, key by key: an integer address within the range of a long, else the base, else minus one; symbol, path and line number as given, or their defaults when missing, the path's being the base. |
| Readers.ThreadFields | agent-ndk/src/main/java/com/newrelic/agent/android/ndk/NativeThreadInfo.kt:20-35 | The fields of a thread, key by key, with their defaults: not crashed, no state, number 0, no name, priority -1, no stack. |
| Readers.StackEntryCases | agent-ndk/src/main/java/com/newrelic/agent/android/ndk/NativeThreadInfo.kt:46-60 | An entry of a stack: nothing exactly for null, the frame's element for an object, the unknown one for the rest. |
| Readers.NativeThreadInfo.FromJsonObject | agent-ndk/src/main/java/com/newrelic/agent/android/ndk/NativeThreadInfo.kt:20-35 | All six fields are set from the object; nothing changes without one. |
| Readers.NativeThreadInfo.StackTraceFromJson | agent-ndk/src/main/java/com/newrelic/agent/android/ndk/NativeThreadInfo.kt:41-65 | One place per array entry: its element, the unknown element for a non-object, null for null. |
| Readers.AllThreads | agent-ndk/src/main/java/com/newrelic/agent/android/ndk/NativeThreadInfo.kt:76-89 | The threads of the non-null entries in order; an entry that is no object makes the whole list fail. |
| Readers.ThreadsIff | agent-ndk/src/main/java/com/newrelic/agent/android/ndk/NativeThreadInfo.kt:76-89 | The list is there exactly when no entry that is not null is refused, and then has one thread for each, in order. |
| Readers.ThreadEntryIff | agent-ndk/src/main/java/com/newrelic/agent/android/ndk/NativeThreadInfo.kt:78-84 | But for strings, an entry is accepted exactly when it is an object, and read as that object. |
| Readers.Find | agent-ndk/src/main/java/com/newrelic/agent/android/ndk/NativeStackTrace.kt:47-51 | The first thread marked as crashed, or none. |
| Readers.NativeStackTrace.TransformText | agent-ndk/src/main/java/com/newrelic/agent/android/ndk/NativeStackTrace.kt:21-23 | Fails exactly when the text is not a JSON object; otherwise message, threads and crashed thread are those of the report. |
| Readers.NativeStackTrace.Transform | agent-ndk/src/main/java/com/newrelic/agent/android/ndk/NativeStackTrace.kt:25-63 | Message set step by step (a partial signal description leaves the short one, a missing backtrace the exception's), threads all or none, crashed thread the first one marked. |
| Readers.MessageCases | agent-ndk/src/main/java/com/newrelic/agent/android/ndk/NativeStackTrace.kt:30-39 | The message in every case: a whole signal description, an exception with a name and a partial or no description, neither. |
| RoundTrip.AddressPreserved | agent-ndk/src/main/java/com/newrelic/agent/android/ndk/NativeStackFrame.kt:34-36 | The address shown by the reader is the one the frame was emitted with if and only if it is below 2^63; above, it is the largest long. |
| RoundTrip.FrameLookups | agent-ndk/src/main/java/com/newrelic/agent/android/ndk/NativeStackFrame.kt:33-38 | Of an emitted frame the accessors find address and base, path and symbol exactly when they are not empty, and no line number. |
| RoundTrip.OtherLookups | agent-ndk/src/main/cpp/emitter.cpp:127-148 | Label, index, pc, symbol address and offset stand under their keys too. |
| RoundTrip.FrameRecovered | agent-ndk/src/main/java/com/newrelic/agent/android/ndk/NativeStackFrame.kt:31-44 | The reader recovers address, symbol and path of an emitted frame, or their defaults when they were omitted. |
| RoundTrip.ThreadRecovered | agent-ndk/src/main/java/com/newrelic/agent/android/ndk/NativeThreadInfo.kt:20-35 | The reader recovers number, name, state, priority, crashed flag and the whole stack in order. |
| RoundTrip.ThreadsRecovered | agent-ndk/src/main/java/com/newrelic/agent/android/ndk/NativeThreadInfo.kt:76-89 | All threads come back, in the same order. |
| RoundTrip.MessageRecovered | agent-ndk/src/main/java/com/newrelic/agent/android/ndk/NativeStackTrace.kt:30-39 | The message is built from the signal's name, code, cause and address. |
| RoundTrip.ProcessLookups | agent-ndk/src/main/cpp/emitter.cpp:279-295 | Each of the ten fields of the process is found under its key, and the registers exactly with a context. |
| RoundTrip.RegisterLookups | agent-ndk/src/main/cpp/emitter.cpp:195-272 | Each register is found under its name with its text or number, if no later one has the same name. |
| RoundTrip.ReportRoundTrip | agent-ndk/src/main/java/com/newrelic/agent/android/ndk/NativeStackTrace.kt:25-63 | For every backtrace within its field widths and with clean strings, reading the emitted report yields the same threads and message exactly when it fits, and nothing at all otherwise. |
| RoundTrip.ShortPathRoundTrip | agent-ndk/src/main/java/com/newrelic/agent/android/ndk/NativeStackTrace.kt:25-63 | With path buffers of at most 1745 characters the report reads back without any condition on lengths. |
| RoundTrip.NullContextRoundTrip | agent-ndk/src/main/java/com/newrelic/agent/android/ndk/NativeStackTrace.kt:25-63 | With a null context and clean process strings the reader gets no threads and the default message. |
| SizeBound.FrameLength | agent-ndk/src/main/cpp/emitter.cpp:127-148 | No frame is longer than 4560 characters, whatever its path. |
| SizeBound.FrameLimitIff | agent-ndk/src/main/cpp/include/agent-ndk.h:20-21 | A frame is within the stated kilobyte if and only if path and symbol twice, the printed numbers, keys and quotes add up to at most that, cut pieces or not. |
| SizeBound.FrameLimitExceeded | agent-ndk/src/main/cpp/include/agent-ndk.h:20-21 | A resolved frame with a clean path of 600 characters, which fits its buffers, is over it. |
| SizeBound.ThreadLength | agent-ndk/src/main/cpp/emitter.cpp:331-345 | A thread takes 190 characters besides its stack. |
| SizeBound.ReportLength | agent-ndk/src/main/cpp/emitter.cpp:377-394 | The whole report is bounded by its thread count, its number of stacks, and 7000 characters. |
| SizeBound.ReportFitsBuffer | agent-ndk/src/main/cpp/backtrace.cpp:168-175 | At most a hundred threads and two stacks: the report is at most the buffer size less two, so it is never cut. |
| SizeBound.ThreeCarriersDoNotFit | agent-ndk/src/main/cpp/emitter.cpp:29-38 | With three full stacks the same caps allow a report longer than the buffer, where two always fit: the caps alone do not bound it. |
| SizeBound.LongStackPossible | agent-ndk/src/main/cpp/emitter.cpp:304-322 | Stacks as long as that are within the field widths. |
| Unwinder.BacktraceState.RecordFrame | agent-ndk/src/main/cpp/unwinder.cpp:36-74 | Refuses exactly when a hundred frames are stored; otherwise stores the address, unless it is null or repeats the last one past the first; stored plus skipped grows by one. |
| Unwinder.BacktraceState.Callback | agent-ndk/src/main/cpp/unwinder.cpp:112-135 | After every callback the stored frames are the specification's for the stream so far, and stored plus skipped equals the callbacks accepted since the last restart plus the frames it discarded. |
| Unwinder.BacktraceState.Unwind | agent-ndk/src/main/cpp/unwinder.cpp:137-150 | Over the whole walk: the frames are those of the consumed prefix; it stops early only on a full stack; a null context unwinds nothing. |
| Unwinder.Step | agent-ndk/src/main/cpp/unwinder.cpp:112-135 | The specification moves as the callback does: restart, extend or stay full, with the accounting of both counters. |
| Unwinder.ThumbCleared | agent-ndk/src/main/cpp/unwinder.cpp:43-47 | Without Thumb an address is recorded as it is; with it, as the even one of itself and its predecessor. |
| Unwinder.AdjustedSays | agent-ndk/src/main/cpp/unwinder.cpp:123-132 | Only on AArch64 is an address moved, four bytes down modulo 2^64, and never the crash address or a null one. |
| Unwinder.SinceIsLastSuffix | agent-ndk/src/main/cpp/unwinder.cpp:123-127 | The part of the stream that counts is its suffix from the last crash address, or all of it when there is none. |
| Unwinder.RecordedShape | agent-ndk/src/main/cpp/unwinder.cpp:36-74 | At most a hundred frames, none null past the first, no two neighbours equal; once the crash address has been seen it comes first, itself without Thumb, with its last bit clear with it. |
| Unwinder.RecordedFrom | agent-ndk/src/main/cpp/unwinder.cpp:112-135 | Every recorded frame is the adjusted address of some callback. |
| Unwinder.RecordedAll | agent-ndk/src/main/cpp/unwinder.cpp:112-135 | While there is room, no address since the last crash address is missing but null ones. |
| ThreadCollector.TokenSplits | agent-ndk/src/main/cpp/backtrace.cpp:32-34 | A token is the first run of characters without the delimiter, after delimiters only; the cursor goes past the one that ends it; there is none exactly when only delimiters are left. |
| ThreadCollector.NameToken | agent-ndk/src/main/cpp/backtrace.cpp:34-43 | Of every stat record the tokens are its process id and the opening parenthesis with the name up to its first closing one. |
| ThreadCollector.ScanFields | agent-ndk/src/main/cpp/backtrace.cpp:75-105 | The chain of tokens keeps the fifteenth and the twenty-fifth after the state. |
| ThreadCollector.StateWords | agent-ndk/src/main/cpp/backtrace.cpp:45-72 | For every character, which letters in either case each of the eight words answers to, and `unknown` to exactly the rest. |
| ThreadCollector.NameCharCodes | agent-ndk/src/main/cpp/backtrace.cpp:39-39 | The characters accepted in a name, by their codes. |
| ThreadCollector.StrtolReads | agent-ndk/src/main/cpp/backtrace.cpp:91-91 | Whatever white space comes before it and whatever follows its digits, a number is read modulo 2^32 into an `int`, after clamping to a `long`. |
| ThreadCollector.StrtoullReads | agent-ndk/src/main/cpp/backtrace.cpp:104-104 | And modulo 2^64 into a word, or as the largest word if its magnitude is beyond that. |
| ThreadCollector.CollectThreadInfo | agent-ndk/src/main/cpp/backtrace.cpp:22-111 | The thread's fields as a function of its stat line, for every line, complete or not. |
| ThreadCollector.NameRecovered | agent-ndk/src/main/cpp/backtrace.cpp:36-42 | For every stat record the name comes back if and only if it has fewer than 32 characters, all of the accepted class. |
| ThreadCollector.FieldsRecovered | agent-ndk/src/main/cpp/backtrace.cpp:43-111 | For every stat record without a closing parenthesis in its name: the state is the word its letter stands for (by the sets of `StateWords`), priority and stack are the eighteenth and the twenty-eighth field. |
| ThreadCollector.NumbersRecovered | agent-ndk/src/main/cpp/backtrace.cpp:90-105 | Priorities and stack addresses printed by the kernel are read back as themselves. |
| ThreadCollector.StatRead | agent-ndk/src/main/cpp/procfs.cpp:71-87 | A line that fits the read buffer reaches the tokeniser without its line end and otherwise unchanged. |
| ThreadCollector.StatSeen | agent-ndk/src/main/cpp/procfs.cpp:71-87 | Of any file: its first line, at most 1023 characters of it, less the white space at the end. |
| ThreadCollector.TaskRecovered | agent-ndk/src/main/cpp/backtrace.cpp:22-131 | The stat file the kernel prints for a thread, if it fits the read buffer and its name is of the accepted class, gives exactly the thread's id, name, state, priority, stack address and frames. |
| ThreadCollector.CollectThreadState | agent-ndk/src/main/cpp/backtrace.cpp:113-136 | The infos of the first hundred numeric directory entries in order, the stack given to the crashed thread when any frame was recorded. |
| ThreadCollector.TasksAre | agent-ndk/src/main/cpp/backtrace.cpp:121-131 | The walk takes exactly the entries whose names begin with a digit, each in its place. |
| ThreadCollector.CollectedShape | agent-ndk/src/main/cpp/backtrace.cpp:22-136 | Whatever the stat files hold, names and states are clean and within their fields, and at most a hundred threads are collected. |
| ThreadCollector.CollectedCarriers | agent-ndk/src/main/cpp/backtrace.cpp:126-131 | With distinct thread ids at most one thread carries the stack. |
| Storage.MeasureString | agent-ndk/src/main/cpp/serializer.cpp:48-48 | `strlen`: the position of the first terminator. |
| Storage.CollectBacktrace | agent-ndk/src/main/cpp/backtrace.cpp:168-175 | The buffer holds as much of the report as fits and a terminator, nothing else in it changes, and the answer is true exactly when that is all of it. |
| Storage.PayloadWhole | agent-ndk/src/main/cpp/serializer.cpp:48-54 | What is written is the whole report exactly when the caller's size covers it, be it the text's length or the buffer's. |
| Storage.ToStorage | agent-ndk/src/main/cpp/serializer.cpp:44-62 | A file that opens receives the bounded payload; one that does not leaves the directory as it was. |
| Storage.ReportTerminates | agent-ndk/src/main/cpp/emitter.cpp:377-394 | A report made of C strings holds no terminator of its own. |
| Storage.StoreCrash | agent-ndk/src/main/cpp/signal-handler.cpp:75-79 | The crash caller leaves a file with exactly the emitted report, or no file if the report was cut or the file does not open. |
| Storage.StoreAnr | agent-ndk/src/main/cpp/anr-handler.cpp:90-97 | So does the ANR caller, which passes the buffer's size and may have no buffer. |
| EndToEnd.CollectedWidths | agent-ndk/src/main/cpp/backtrace.cpp:113-175 | What is collected of any process within its field widths fits the buffer, whatever characters its strings hold. |
| EndToEnd.CollectedClean | agent-ndk/src/main/cpp/backtrace.cpp:22-136 | What is collected of a process with clean context and symbols is clean, its thread names included. |
| EndToEnd.CollectedTerminates | agent-ndk/src/main/cpp/backtrace.cpp:22-136 | What is collected of a process made of C strings is made of C strings. |
| EndToEnd.InterceptCrash | agent-ndk/src/main/cpp/backtrace.cpp:138-176 | Unwinding, collecting, emitting, copying and storing, for any process made of C strings: one new file with exactly the report of the recorded frames and collected threads, if it opens. |
| EndToEnd.ReadStored | agent-ndk/src/main/java/com/newrelic/agent/android/ndk/NativeStackTrace.kt:21-63 | The reader objects show what the text's threads and message are, and the first crashed thread. |
| EndToEnd.StoredReportReads | agent-ndk/src/main/java/com/newrelic/agent/android/ndk/NativeStackTrace.kt:25-63 | The stored report of an ordinary process reads back as its threads and message exactly when it fits, whatever the stat files and the unwinder delivered. |
| EndToEnd.CrashAddressHeadsStack | agent-ndk/src/main/cpp/unwinder.cpp:123-134 | Once the crash address has been seen, it heads the stack read back for the crashed thread, itself without Thumb and with its last bit clear with it, and the other threads have none. |
| EndToEnd.CrashedThreadListed | agent-ndk/src/main/cpp/backtrace.cpp:122-132 | The report names a crashed thread if and only if the crashed thread's entry is among the first hundred of the directory. |
| EndToEnd.CrashReachesListener | agent-ndk/src/main/java/com/newrelic/agent/android/ndk/AgentNDK.kt:146-157 | A stored crash report that a flush reaches and can read is handed to the crash handler word for word; an ordinary process's reads back as its threads and message when it fits. |
| EndToEnd.CrashThenRead | agent-ndk/src/main/cpp/backtrace.cpp:138-176 | From the first callback to the next launch: the interceptor stores the report of an ordinary process, and reading it gives its threads, in order, and the message of its signal, if the report fits. |
| Watchdog.Keeps | agent-ndk/src/main/cpp/anr-handler.cpp:46-108 | Each step of monitor, interceptors and shutdown keeps the five accounts of posts, calls, triggers, raises and modes. |
| Watchdog.SignalsConserved | agent-ndk/src/main/cpp/anr-handler.cpp:46-108 | In every run: semaphore plus waits equals posts; raises by the semaphore come from interceptor posts only; signals sent on are at most the invocations plus the failed waits, and never more than twice the invocations. |
| Watchdog.NoPostLost | agent-ndk/src/main/cpp/anr-handler.cpp:52-70 | While enabled, every interceptor post is still in the semaphore, in the monitor's hands, or sent on. |
| Watchdog.PendingSentOn | agent-ndk/src/main/cpp/anr-handler.cpp:46-70 | While enabled, a post the monitor waits for is sent on within its next three steps, a trigger it polls for within four. |
| Watchdog.InvocationPending | agent-ndk/src/main/cpp/anr-handler.cpp:100-107 | An invocation while enabled leaves the trigger set, and in semaphore mode a post, or the polling mode if the post fails. |
| Watchdog.NoRaiseAfterDisable | agent-ndk/src/main/cpp/anr-handler.cpp:59-70 | After the disable at most one more signal is sent, and only if the monitor was about to. |
| Watchdog.OneInvocationTwoSignals | agent-ndk/src/main/cpp/anr-handler.cpp:52-57 | A failed wait lets one invocation send two signals: by its trigger now, by its post in the next round. |
| Watchdog.BoundIsTight | agent-ndk/src/main/cpp/anr-handler.cpp:52-57 | For every k there is a run with k invocations, k failed waits and 2k signals. |
| Watchdog.NoneSentTwiceIff | agent-ndk/src/main/cpp/anr-handler.cpp:52-57 | Every run with at most k failed waits sends on at most its invocations if and only if k is zero. |
| Watchdog.ReleasedMoves | agent-ndk/src/main/cpp/anr-handler.cpp:225-237 | When the shutdown joins and no post has failed, the monitor is disabled and never blocked. |
| Watchdog.ReleasedRun | agent-ndk/src/main/cpp/anr-handler.cpp:46-77 | From then on each monitor step lowers its rank and no other step raises it. |
| Watchdog.ShutdownTerminates | agent-ndk/src/main/cpp/anr-handler.cpp:225-237 | From every reachable joining state, under every interleaving: at most ten monitor steps remain, the next is always possible, and after them it has exited. |
| Watchdog.ExitsUnlessStranded | agent-ndk/src/main/cpp/anr-handler.cpp:46-77 | Left alone once disabled, the monitor exits if and only if it is not before or in a wait with an empty semaphore. |
| Watchdog.NotStranded | agent-ndk/src/main/cpp/anr-handler.cpp:228-230 | Without a failed post a joining shutdown never leaves it so. |
| Watchdog.FailedPostStrands | agent-ndk/src/main/cpp/anr-handler.cpp:104-107 | With one it can: the mode turns to polling under a monitor that waits, and the shutdown does not post. |
| Watchdog.Watchdog.Interceptor | agent-ndk/src/main/cpp/anr-handler.cpp:80-108 | An uninterrupted call is the run of its three or four steps, and reports exactly when enabled. |
| Watchdog.Watchdog.SignalShutdown | agent-ndk/src/main/cpp/anr-handler.cpp:225-230 | The shutdown up to its join is the run of its steps. |
| Watchdog.Watchdog.AwaitTrigger | agent-ndk/src/main/cpp/anr-handler.cpp:52-57 | The wait of a round, semaphore or inner polling loop, is where the step relation says after every schedule of the other threads, and ends at the test for raising. |
| Watchdog.Watchdog.Forward | agent-ndk/src/main/cpp/anr-handler.cpp:59-73 | So is the rest of the round: test, raise, unblock and the test for the next one. |
| Watchdog.Watchdog.MonitorThread | agent-ndk/src/main/cpp/anr-handler.cpp:46-77 | The thread's loop, with any actions of the other threads before each of its accesses, is where the step relation says, and ends only disabled or with the schedule. |
| Watchdog.SimulateRuns | agent-ndk/src/main/cpp/anr-handler.cpp:46-77 | What the code does under any schedule is a run of the step relation. |
| Watchdog.RunIsScheduled | agent-ndk/src/main/cpp/anr-handler.cpp:46-77 | Every run of the step relation is what the code does under some schedule, up to what the others do after its last step. |
| LooperMonitor.Keeps | agent-ndk/src/main/java/com/newrelic/agent/android/ndk/ANRMonitor.kt:45-96 | Each step of monitor and main thread keeps the lock, flag, queue, wait-set and verdict accounts. |
| LooperMonitor.LooperSafety | agent-ndk/src/main/java/com/newrelic/agent/android/ndk/ANRMonitor.kt:45-96 | In every interleaving: at most one queued runner and none after the monitor left; the monitor waits, reports and sleeps outside the lock; the flag is up only after a run since the last reset; no ANR verdict follows a run without a reset between. |
| LooperMonitor.VerdictExact | agent-ndk/src/main/java/com/newrelic/agent/android/ndk/ANRMonitor.kt:270-278 | The verdict is an ANR if and only if the system says so and no run has completed since the last reset. |
| LooperMonitor.VerdictObeyed | agent-ndk/src/main/java/com/newrelic/agent/android/ndk/ANRMonitor.kt:80-88 | In every run, by the log alone: where the monitor reports, the last verdict, given since the last post, is an ANR; where it sleeps, it is none. |
| LooperMonitor.VerdictDecides | agent-ndk/src/main/java/com/newrelic/agent/android/ndk/ANRMonitor.kt:80-88 | A round with a verdict that does not leave comes out of the lock to report if and only if the verdict is an ANR, and to sleep if and only if it is not. |
| LooperMonitor.VerdictsConserved | agent-ndk/src/main/java/com/newrelic/agent/android/ndk/ANRMonitor.kt:45-89 | Over every run the ANR verdicts are the reports made and the other verdicts the sleeps, but for one whose round has not ended. |
| LooperMonitor.LeavesIff | agent-ndk/src/main/java/com/newrelic/agent/android/ndk/ANRMonitor.kt:45-96 | In every run the monitor is leaving or gone if and only if it was interrupted or a post failed. |
| LooperMonitor.PassedAtMostOnce | agent-ndk/src/main/java/com/newrelic/agent/android/ndk/ANRMonitor.kt:51-60 | In every run the runner passes at most once for each time it was posted. |
| LooperMonitor.NotifiedBeforeUnlock | agent-ndk/src/main/java/com/newrelic/agent/android/ndk/ANRMonitor.kt:253-257 | A run that completes during the wait leaves the monitor notified. |
| LooperMonitor.HolderProgress | agent-ndk/src/main/java/com/newrelic/agent/android/ndk/ANRMonitor.kt:49-75 | Each step of the lock's holder brings it nearer to its release, and no step of the other thread takes it back. |
| LooperMonitor.HolderMoves | agent-ndk/src/main/java/com/newrelic/agent/android/ndk/ANRMonitor.kt:49-75 | The holder can always take its next step. |
| LooperMonitor.LockIsGivenUp | agent-ndk/src/main/java/com/newrelic/agent/android/ndk/ANRMonitor.kt:77-88 | In every run a thread waits for at most five steps of the lock's holder. |
| LooperMonitor.NoDeadlock | agent-ndk/src/main/java/com/newrelic/agent/android/ndk/ANRMonitor.kt:45-96 | Some step is possible until the monitor has left and the main thread is out of the runner. |
| LooperMonitor.MissedRunVerdict | agent-ndk/src/main/java/com/newrelic/agent/android/ndk/ANRMonitor.kt:51-75 | In every run, a round in which no runner ran since its post is judged an ANR, if the system says so, if and only if no run completed between the last reset and that post. |
| LooperMonitor.UnrunRunnerVerdict | agent-ndk/src/main/java/com/newrelic/agent/android/ndk/ANRMonitor.kt:51-75 | Known at the post, in every state the invariant allows: however the run goes on, a round whose own runner is still queued at the end is judged an ANR, if the system says so, if and only if the flag is down and the main thread is not already in an earlier runner. |
| LooperMonitor.StaleRunMasksAnr | agent-ndk/src/main/java/com/newrelic/agent/android/ndk/ANRMonitor.kt:51-68 | A runner left over from one round does run in that interval, and suppresses the next verdict. |
| LooperMonitor.EarlierRunMasksAnr | agent-ndk/src/main/java/com/newrelic/agent/android/ndk/ANRMonitor.kt:51-68 | An earlier runner that the main thread has already taken passes during the wait: no run completed before the post, the round's own runner never ran, and there is no verdict. |
| LooperMonitor.PassSteps | agent-ndk/src/main/java/com/newrelic/agent/android/ndk/ANRMonitor.kt:253-257 | The main thread's four steps through the runner raise the flag and notify a waiting monitor. |
| LooperMonitor.WaitableRunner.Pass | agent-ndk/src/main/java/com/newrelic/agent/android/ndk/ANRMonitor.kt:253-257 | So does the runner's code. |
| LooperMonitor.WaitableRunner.Reset | agent-ndk/src/main/java/com/newrelic/agent/android/ndk/ANRMonitor.kt:264-268 | The reset is the model's reset step. |
| LooperMonitor.WaitableRunner.InAnrState | agent-ndk/src/main/java/com/newrelic/agent/android/ndk/ANRMonitor.kt:270-278 | The answer is the model's verdict; no answer of the system counts as none. |
| AnrSampling.Sampler.Sample | agent-ndk/src/main/java/com/newrelic/agent/android/ndk/ANRMonitor.kt:80-85 | Reports exactly when one sample was left, and starts over then. |
| AnrSampling.Sampler.Watch | agent-ndk/src/main/java/com/newrelic/agent/android/ndk/ANRMonitor.kt:45-89 | Over any sequence of rounds, any threshold and any counter left by earlier ones: reported samples plus pending ones are all ANR samples, a report is made exactly at each threshold-th sample, and each round sleeps its remaining time. |
| AnrSampling.ReportsAreQuotient | agent-ndk/src/main/java/com/newrelic/agent/android/ndk/ANRMonitor.kt:80-85 | The number of reports is the number of samples divided by the threshold. |
| AnrSampling.ConsecutiveIff | agent-ndk/src/main/java/com/newrelic/agent/android/ndk/ANRMonitor.kt:214-215 | Every report closes a row of ANR samples in succession if and only if no good sample falls among pending ones that a report later counts. |
| AnrSampling.NotConsecutive | agent-ndk/src/main/java/com/newrelic/agent/android/ndk/ANRMonitor.kt:214-215 | Two ANR samples with a good one between them are reported: the comment's word does not hold of the code. |
| AnrSampling.NapCompletesTimeout | agent-ndk/src/main/java/com/newrelic/agent/android/ndk/ANRMonitor.kt:65-71 | The sleep is never negative, is within the timeout exactly when the clock did not go back, and completes the timeout of a good round. |
| AnrSampling.GoodRoundsTakeTime | agent-ndk/src/main/java/com/newrelic/agent/android/ndk/ANRMonitor.kt:65-88 | Over any run with a forward clock the good rounds take at least the timeout each. |
| RetryTask.ReportTask.Dispatch | agent-ndk/src/main/java/com/newrelic/agent/android/ndk/ANRMonitor.kt:145-181 | Sends exactly when there is an answer or no retry is left, and reposts itself exactly otherwise. |
| RetryTask.WovenSays | agent-ndk/src/main/java/com/newrelic/agent/android/ndk/ANRMonitor.kt:145-163 | What is sent holds the system's answer, with reason 6 exactly for an ANR and 4 exactly for a crash. |
| RetryTask.ReportTask.Drain | agent-ndk/src/main/java/com/newrelic/agent/android/ndk/ANRMonitor.kt:143-182 | For every sequence of answers and lifetime of the looper: at most eleven dispatches, one send at the first answer or the eleventh dispatch if the looper lives that long, none otherwise, no repost after it. |
| RetryTask.SendingRunFirst | agent-ndk/src/main/java/com/newrelic/agent/android/ndk/ANRMonitor.kt:146-167 | The sending dispatch is the first with an answer, or the eleventh. |
| SignalHandler.RestoringKept | agent-ndk/src/main/cpp/signal-handler.cpp:98-138 | Every start, stop and signal keeps: not installed means the original dispositions, installed means they are saved and not the interceptor. |
| SignalHandler.RestoredIff | agent-ndk/src/main/cpp/signal-handler.cpp:100-119 | Every run that begins with a start keeps the originals safe if and only if that start could name its thread or all originals were defaults. |
| SignalHandler.UnnamedStartLoses | agent-ndk/src/main/cpp/signal-handler.cpp:102-104 | A first start that could not name its thread is counted all the same; the next stop installs the empty table over the originals. |
| SignalHandler.Restoration | agent-ndk/src/main/cpp/signal-handler.cpp:127-138 | After any run with a named first start, as many stops as starts are outstanding bring all six originals back. |
| SignalHandler.CollectorsKept | agent-ndk/src/main/cpp/signal-handler.cpp:58-91 | Each step keeps the counter equal to collectors plus turned-away signals less leftovers that ended. |
| SignalHandler.ChainsKept | agent-ndk/src/main/cpp/signal-handler.cpp:81-85 | Each step keeps: past its removal a collector sees the original dispositions, and what it calls is the original action. |
| SignalHandler.SingleCollector | agent-ndk/src/main/cpp/signal-handler.cpp:58-91 | In every run from an installation: at most one collector, but for each leftover of an earlier installation that ended; every chained call is the original action of its own signal, with all six restored, and never the interceptor. |
| SignalHandler.LeftoverAdmitsSecond | agent-ndk/src/main/cpp/signal-handler.cpp:115-115 | The reset of the counter at an installation lets a collector left over from the last one admit a second. |
| SignalHandler.ObservedSignal | agent-ndk/src/main/cpp/signal-handler.cpp:241-249 | The table entry of a signal number, or none when it has none. |
| SignalHandler.ObservedSignals | agent-ndk/src/main/cpp/signal-handler.cpp:41-48 | The signals with an entry are 4 to 8 and 11. |
| SignalHandler.InvokesAs | agent-ndk/src/main/cpp/signal-handler.cpp:204-219 | Each kind of saved action is invoked in its own way, and only it: with the signal's information, without it, by raising, or not at all. |
| SignalHandler.Handlers.InstallSignalObservers | agent-ndk/src/main/cpp/signal-handler.cpp:98-122 | The loop saves and replaces all six dispositions on the first named start, and only counts otherwise. |
| SignalHandler.Handlers.UninstallHandler | agent-ndk/src/main/cpp/signal-handler.cpp:127-138 | The loop puts all six saved dispositions back and counts down, unless the count is zero. |
| SignalHandler.Handlers.InvokePrevious | agent-ndk/src/main/cpp/signal-handler.cpp:224-239 | Exactly one saved action is invoked, the signal's own, or none for a number not in the table. |
| SignalHandler.Handlers.Intercept | agent-ndk/src/main/cpp/signal-handler.cpp:58-91 | An uninterrupted call either turns the signal away or removes the handlers and invokes the saved action once. |
| SignalHandler.WholeEffect | agent-ndk/src/main/cpp/signal-handler.cpp:58-91 | The four steps of a collector leave the handlers removed, one chained call and the counter as it was. |
| ReportStore.PrefixesDisjoint | agent-ndk/src/main/java/com/newrelic/agent/android/ndk/AgentNDK.kt:146-158 | At most one prefix fits a name, in any case of letters, so the order of the tests does not matter. |
| ReportStore.KindLetters | agent-ndk/src/main/java/com/newrelic/agent/android/ndk/AgentNDK.kt:146-158 | The three kinds by the letters names begin with, in either case. |
| ReportStore.NextConserves | agent-ndk/src/main/java/com/newrelic/agent/android/ndk/AgentNDK.kt:100-138 | Each write, attended flush and exit keeps every report accounted for. |
| ReportStore.ReportsConserved | agent-ndk/src/main/java/com/newrelic/agent/android/ndk/AgentNDK.kt:100-173 | Over every run: a written report is in the directory unchanged, or was taken whole by the handler of its kind, or was deleted at an exit, overdue and offered before it was marked. |
| ReportStore.MarkedIff | agent-ndk/src/main/java/com/newrelic/agent/android/ndk/AgentNDK.kt:117-126 | A pass marks a report if and only if it stays, its handler threw no error, and it was modified before the clock less the period. |
| ReportStore.MarksOverdue | agent-ndk/src/main/java/com/newrelic/agent/android/ndk/AgentNDK.kt:117-126 | Over every run, attended or not: each mark comes from a flush that listed the report, at a time when the report as written was older than the period. |
| ReportStore.KeptInTime | agent-ndk/src/main/java/com/newrelic/agent/android/ndk/AgentNDK.kt:107-138 | Over every run, attended or not: a report within its period at every flush that lists it is in the directory as written, or was taken whole by the handler of its kind, and is never marked. |
| ReportStore.MarkedUnoffered | agent-ndk/src/main/java/com/newrelic/agent/android/ndk/AgentNDK.kt:117-126 | A pass marks a report it did not offer exactly when it is overdue and there is no listener, or it cannot be read, or is of no kind. |
| ReportStore.LostUnoffered | README.md:113-113 | Written, flushed once and past an exit, an overdue report is lost without any post if and only if the flush had no listener or could not read it. |
| ReportStore.LostIff | README.md:113-113 | Over every run: a report that was never offered is gone if and only if an exit came after a flush that passed it by, overdue, without a listener or without being able to read it. |
| ReportStore.OfferedAmong | agent-ndk/src/main/java/com/newrelic/agent/android/ndk/AgentNDK.kt:146-158 | A report that can be offered is offered whole, to the handler of its kind. |
| ReportStore.OnlyListedOffered | agent-ndk/src/main/java/com/newrelic/agent/android/ndk/AgentNDK.kt:107-127 | Only listed reports of a known kind, read for a listener, are offered. |
| ReportStore.TakenIff | agent-ndk/src/main/java/com/newrelic/agent/android/ndk/AgentNDK.kt:160-173 | A pass removes a report if and only if it was read for a listener that took it, and could be deleted; no other report changes. |
| ReportStore.FlushBreaksIff | agent-ndk/src/main/java/com/newrelic/agent/android/ndk/AgentNDK.kt:113-126 | An error ends the flush if and only if the handler of some listed report throws one. |
| ReportStore.FlushOffers | agent-ndk/src/main/java/com/newrelic/agent/android/ndk/AgentNDK.kt:107-127 | A flush offers, in the listing's order, every report it reaches that can be offered. |
| ReportStore.ReachedAll | agent-ndk/src/main/java/com/newrelic/agent/android/ndk/AgentNDK.kt:113-115 | It reaches all of them if and only if no handler but the last throws an error. |
| ReportStore.NobodySkipped | agent-ndk/src/main/java/com/newrelic/agent/android/ndk/AgentNDK.kt:107-127 | Unreadable reports, refusals, exceptions and failed deletions never keep another report from being offered. |
| ReportStore.Agent.PostReport | agent-ndk/src/main/java/com/newrelic/agent/android/ndk/AgentNDK.kt:140-173 | Offers the report to the handler of its kind, deletes it when taken, and answers whether it is gone. |
| ReportStore.Agent.FlushPendingReports | agent-ndk/src/main/java/com/newrelic/agent/android/ndk/AgentNDK.kt:100-138 | The loop is the specification's, an error ends it exactly when a handler throws one, and the lock is free on every way out. |
| ReportNames.GenerateTmpFilename | agent-ndk/src/main/cpp/serializer.cpp:64-81 | The name is the directory, a slash, and the prefix, date and milliseconds the lemmas below are about. |
| ReportNames.NamesOrdered | agent-ndk/src/main/cpp/serializer.cpp:73-78 | For four-digit years, names of one kind are in lexicographic order exactly when their times are, and equal only for the same millisecond. |
| ReportNames.KindRecovered | agent-ndk/src/main/cpp/serializer.cpp:23-36 | A name written for a kind is dispatched as that kind by the flush, whatever the time. |
| ReportNames.TimeRecovered | agent-ndk/src/main/cpp/serializer.cpp:73-78 | From every name one reads its kind by the prefix and the seven fields of its time, each in its own digits. |
| ReportNames.KindsDisjoint | agent-ndk/src/main/cpp/serializer.cpp:23-36 | Two kinds never share a name. |
| ReportNames.FiveDigitYear | agent-ndk/src/main/cpp/serializer.cpp:73-78 | With a five-digit year the order of names is no longer that of times. |
| FrameLists.EntryFrame | agent-ndk/src/main/java/com/newrelic/agent/android/ndk/NativeStackFrame.kt:56-68 | The frame of an entry and its place: its own index if within bounds, else the fallback at the end. |
| FrameLists.ContributionCases | agent-ndk/src/main/java/com/newrelic/agent/android/ndk/NativeStackFrame.kt:56-68 | An object goes to its index if that is within the list, to the end without one; otherwise the fallback goes to the end. |
| FrameLists.InsertedAt | agent-ndk/src/main/java/com/newrelic/agent/android/ndk/NativeStackFrame.kt:60-68 | Insertion at a place keeps the order of what was there. |
| FrameLists.AllFrames | agent-ndk/src/main/java/com/newrelic/agent/android/ndk/NativeStackFrame.kt:51-74 | The list built by inserting each non-null entry at its place. |
| FrameLists.AllNativeFrames | agent-ndk/src/main/java/com/newrelic/agent/android/ndk/NativeStackFrame.kt:76-96 | The same list, of frame objects. |
| FrameLists.EntriesConserved | agent-ndk/src/main/java/com/newrelic/agent/android/ndk/NativeStackFrame.kt:51-96 | For every array: exactly one element for each non-null entry, its own or the fallback, whatever indices they name. |
| FrameLists.InOrder | agent-ndk/src/main/java/com/newrelic/agent/android/ndk/NativeStackFrame.kt:60-63 | Entries that name their own position, or none, come out in order. |
| FrameLists.EmittedFramesListed | agent-ndk/src/main/cpp/emitter.cpp:304-322 | The stack the emitter writes is listed frame by frame. |

## Left out

- Characters: strings are sequences of characters; UTF-8, the Java string model and surrogate pairs written as `\u` escapes are not modelled (the parser refuses those escapes).
- `org.json` leniency: unquoted and single-quoted strings, comments, `;` between members, raw control characters, text after the value, and the accessors' conversion of strings and fractions to numbers and truth values are not modelled; the texts considered are RFC 8259 texts, and integers. Where a report is said to be unreadable, it is so for a parser that keeps to RFC 8259.
- `toString` of a JSON object escapes `/` as well; the model prints it as it is, which parses to the same value.
- Registers: the per-architecture names and formats are a list of bounded names and texts, the trap number a number.
- `dladdr`, demangling, `_Unwind_Backtrace`, the clock, process ids, the process name and reading the task directory are inputs; so is the signal's description.
- Readers.NativeStackTrace.Transform: the text of the exception for a missing or mistyped backtrace is a parameter.
- A null `siginfo` is not modelled: the collector dereferences it before the emitter could leave it out.
- The path limit is a parameter; the size bound does not depend on it.
- `skipped_frames`, the semaphore value and the signal counters are unbounded; their C types overflow only after billions of events.
- Storage.ToStorage: a write that fails after the file was opened is not modelled; the code does not look at it either.
- Storage.CollectBacktrace: sizes below 2 are not modelled; the size arithmetic wraps there, and every caller passes the full size.
- Storage.StoreCrash and Storage.StoreAnr take the collected backtrace as given; EndToEnd.InterceptCrash collects it for the crash caller.
- Watchdog: initialisation is one step, and a run is one epoch up to the join; the semaphore being closed afterwards while an interceptor still posts, and restarting, are not modelled. Each access to a static is one step.
- Watchdog.SignalsConserved counts the raises; nothing is sent when the runtime's handler thread was not found.
- LooperMonitor: interrupts are possible outcomes of the loop test, the wait and the sleep; restarting the monitor is not modelled.
- LooperMonitor.WaitableRunner.Reset: its `notifyAll` finds nobody waiting, because only the monitor waits and it is the one that resets.
- AnrSampling.ConsecutiveIff speaks of rounds that start from a full counter.
- ThreadCollector.CollectThreadInfo: a name of more than 255 accepted characters is cut; the code's scan into a local array of 256 characters has no limit, and what it does then is undefined.
- Words have 64 bits; a 32-bit build differs in where addresses wrap.
- RetryTask: the text and attributes of the exception itself are not modelled, only the process error woven into them.
- SignalHandler: the counter, the install loop and the uninstall loop are atomic steps, and each `sigaction` call works; the alternate stack, masks and the mutex are not modelled, nor is what a called action does; a signal that is delivered before its counter step, after the handlers were removed, is an arrival that the model does not have.
- SignalHandler: signals whose number is not in the table never reach the interceptor.
- ReportStore: nobody else removes files, and names are not reused; case is ignored for ASCII letters only; the time arithmetic does not overflow.
- ReportNames: local times repeat when clocks are set back, and so may names; the model speaks of the times as printed.
- The terminate handler, the JNI wrappers and delegates, `ManagedContext`, the builder and the upload to New Relic are not part of this model: thin calls, or behaviour that hangs on code that cannot be seen.
- Detecting the runtime's ANR thread is not modelled: a search through directory entries without state.
