# PyDevice, modelled in Dafny

PyDevice connects EPICS records to Python code. Device support for the
standard record types (ai/ao, bi/bo, longin/longout, mbbi/mbbo, stringin/
stringout, lsi/lso, waveform) reads the record's INP or OUT link as a line
of Python in which `%FIELD%` markers stand for record fields. It substitutes
the current field values and runs the code on a pool of worker threads. The
resulting Python value is converted back into the record's value field,
with an INVALID CALC alarm when that fails. Two record types of its own
work the same way:

- `pycalc` evaluates an expression over up to 26 input links A..Z and writes
  scalars or arrays into VAL;
- `py` runs a statement whose `%FIELD%` markers are replaced by its
  argument fields.

Python values cross the boundary as a `Variant`. The integer and text
conversions between Variant and C types are modelled exactly: wrap-around,
truncation toward zero, the order in which Python types are tried, and
`std::stoll`/`std::stoull` on text. Floating-point values are reals (see
"## Left out").

The model keeps the source's own form:

- The worker pool, the record classes and the interpreter state are Dafny
  classes whose methods update fields in place, with `modifies` frames.
  Each method is proved against a specification function of the old
  state.
- The text handling (field extraction and replacement, link-to-code
  rewriting, the I/O-interrupt address parse, C string copies) consists of
  functions and loops. Each loop is a method proved equal to a function.
  Lemmas state the round trips, the invariants and the examples from the
  unit tests.

Things that cannot be seen from C++ are parameters of the model (oracles):

- the Python interpreter's compile and evaluate steps;
- `std::to_string(double)` and `std::stod`;
- EPICS's `dbFastPutConvertRoutine`;
- the `arrayToStr` and `floatToString` formatters.

One module per source file:

| module | file |
|---|---|
| AsyncExec | asyncexec.dfy |
| Variants | variant.dfy |
| Util | util.dfy |
| UtilArray | util_array.dfy |
| PyWrapper | pywrapper.dfy |
| EpicsDevice | epicsdevice.dfy |
| DevSupport | devsupport.dfy (helpers shared by the device-support files) |
| PydevAo, PydevBi, PydevLongin, PydevLsi, PydevLso, PydevMbbi, PydevMbbo, PydevWaveform | pydev_*.dfy |
| PycalcRecord | pycalc_record.dfy |
| PyRecord | py_record.dfy |

Shared modules model the C/C++ and EPICS facilities the code relies on:

- Wrappers: Option and Result;
- CTypes: fixed-width integers and casts;
- CText: `<cctype>`, `std::to_string`, `std::stoll`, `strncpy`;
- Epics: DBF codes, `dbValueSize`, alarms.

## Model

| member | source | states |
|---|---|---|
| AsyncExec.TaskQueue.constructor | src/asyncexec.cpp:19-26 | A new queue is empty and has handed out nothing. |
| AsyncExec.TaskQueue.Enqueue | src/asyncexec.cpp:27-33 | The task joins the back of the queue. Nothing is handed out. |
| AsyncExec.TaskQueue.Dequeue | src/asyncexec.cpp:35-51 | A task is found exactly when the queue was not empty. The front task is then handed out and removed. Otherwise the caller's task and the queue are unchanged. |
| AsyncExec.DequeuedInOrder | src/asyncexec.cpp:27-51 | FIFO order: tasks are handed out in the order they were enqueued. The queue holds exactly those enqueued and not yet handed out. |
| AsyncExec.WorkerThread.constructor | src/asyncexec.cpp:58-64 | A new worker carries its name and is running. |
| AsyncExec.WorkerThread.Stop | src/asyncexec.cpp:82-85 | The worker's running flag is cleared. |
| AsyncExec.WorkerThread.Run | src/asyncexec.cpp:72-80 | A stopped worker calls nothing. A running worker calls the front tasks in queue order, one per round, and removes them from the queue. |
| AsyncExec.Scheduler.constructor | src/asyncexec.cpp:53-87 | The pool starts with no workers and an empty global queue. |
| AsyncExec.Scheduler.Init | src/asyncexec.cpp:89-102 | numThreads new running workers are appended, named PyDeviceExec_(n-1) down to PyDeviceExec_0. Existing workers and the queue are kept. |
| AsyncExec.Scheduler.Shutdown | src/asyncexec.cpp:104-113 | Every worker is stopped and the worker list is cleared. The queue is kept. |
| AsyncExec.Scheduler.Schedule | src/asyncexec.cpp:115-121 | Accepted exactly when a worker exists and the callback is not empty. An accepted callback joins the back of the queue; a refused one changes nothing. |
| AsyncExec.ScheduleAcrossShutdown | src/asyncexec.cpp:89-121 | With n workers a callback is accepted exactly when n > 0 and it is non-empty. After shutdown every callback is refused. |
| AsyncExec.ScheduledTasksRunInOrder | src/asyncexec.cpp:72-121 | Scheduled callbacks are run by a worker in the order they were scheduled. |
| Wrappers.MapAll | src/variant.cpp:137-162 | An element-wise conversion succeeds exactly when every element converts, with those results in order. A failure carries the error of the first element that fails; every element before it converts. |
| CTypes.CType.Holds | src/variant.h:59-92 | The integer ranges of the eight C integer types: signed types lie within 64-bit signed bounds, unsigned types within 0..2^64-1. |
| CTypes.Wrap | src/pycalcRecord.cpp:218-231 | An integer conversion into a C integer type gives an in-range value congruent to the input modulo 2^width, and leaves in-range values unchanged. |
| CTypes.Trunc | src/variant.cpp:69-84 | double-to-integer conversion truncates toward zero: the result is within one of the input, on the zero side. |
| CTypes.CastInt | src/pywrapper.cpp:182-221 | An integer converted to a C type: exact for floating types, wrapped into range for integer types, unchanged when it fits. |
| CTypes.CastReal | src/pywrapper.cpp:182-221 | A real converted to a C type: unchanged for floating types, truncated and in range for integer types. |
| CTypes.Cast | src/variant.cpp:137-216 | A number converted to a C type is floating exactly when the type is, and in range for integer types. |
| Epics.ElementType | src/pycalcRecord.cpp:158-184 | The C element type of a DBF code: defined exactly for CHAR..DOUBLE, floating exactly for FLOAT/DOUBLE, signed exactly for CHAR, SHORT, LONG, INT64. |
| Epics.DbValueSize | src/pycalcRecord.cpp:111-119 | dbValueSize: 0 exactly above DBF_ENUM, 40 for STRING, 2 for ENUM, and the width of the C type for numeric codes. |
| Epics.ArgName | src/pycalcRecord.cpp:148-149 | The field letter of argument i: a one-character name 'A'+i. |
| Epics.ArgNamesDistinct | src/pycalcRecord.cpp:148-150 | Different argument indices have different field names. |
| Epics.ZeroCell | src/pycalcRecord.cpp:112-120 | A zero-filled (calloc'd) buffer element is a valid value of its field type. |
| Epics.SetSevr | src/epicsdevice.cpp:134-137 | recGblSetSevr keeps the first pending alarm: a raised alarm is never cleared, and with none pending the new one is set. |
| CText.NatToString | src/pydev_mbbo.cpp:86-104 | std::to_string of an unsigned value: non-empty decimal digits without a leading zero except for 0. |
| CText.IntToString | src/pyRecord.cpp:149-156 | std::to_string of a signed value: a leading '-' exactly for negatives, digits otherwise. |
| CText.DigitsValueOfNatToString | src/pydev_mbbo.cpp:86-104 | The digits std::to_string writes denote the number written. |
| CText.ScanDecimal | src/variant.cpp:69-101 | The decimal text of any integer is scanned back to its sign and magnitude. |
| CText.Stoll | src/variant.cpp:79-80 | std::stoll fails only with invalid_argument or out_of_range, and with invalid_argument exactly when no integer starts the text. |
| CText.Stoull | src/variant.cpp:96-97 | std::stoull fails like std::stoll and reads an in-range non-negative integer exactly. |
| CText.StollOfIntToString | src/variant.cpp:69-135 | Round trip: std::stoll reads back every long written by std::to_string. |
| CText.StoullOfNatToString | src/variant.cpp:86-135 | Round trip: std::stoull reads back every unsigned long long written by std::to_string. |
| CText.StollReadsLeadingInteger | src/variant.cpp:79-80 | "5.2" reads as 5: the fraction is ignored. |
| CText.StoullReadsLeadingInteger | src/variant.cpp:96-97 | "5.2" reads as 5 through the unsigned conversion too. |
| CText.StollSkipsSpaceAndTrailingText | src/variant.cpp:79-80 | Leading space is skipped and trailing text ignored: " -17x" reads as -17. |
| CText.StollRefusesNonNumber | src/variant.cpp:79-80 | "abc" is refused with invalid_argument. |
| CText.StoullNegatesModulo | src/variant.cpp:96-97 | "-1" reads as 2^64-1 through the unsigned conversion. |
| CText.CStr | src/pyRecord.cpp:267 | The text of a character buffer is the prefix before the first NUL and contains no NUL. |
| CText.StrNCpyImage | src/pydev_lsi.cpp:97 | What strncpy leaves: the C string cut to n characters and padded with NULs. |
| CText.StrNCpy | src/pydev_lsi.cpp:97 | strncpy writes exactly that image into the first n cells and nothing beyond. |
| CText.Fit | src/pydev_lsi.cpp:97-99 | The text a terminated buffer of size n holds: the longest prefix of the string shorter than n. |
| CText.TerminatedCopy | src/pydev_lso.cpp:103-105 | A buffer strncpy'd to size-1 and NUL-terminated holds that fitted text, and strlen stays below the size. |
| CText.StoreString | src/pydev_lsi.cpp:97-99 | Storing into a long-string buffer leaves the fitted text, and LEN counts it plus its NUL, never above the buffer size. |
| CText.StoreFixedString | src/epicsdevice.cpp:169-170 | strncpy with sizeof(val) followed by NUL-terminating the last character leaves the same fitted text. |
| Variants.Variant.TypeOf | src/variant.h:29-41 | The type tag names exactly the alternative the variant holds. |
| Variants.Variant.GetBool | src/variant.cpp:54-67 | Defined exactly for scalar numbers and bools; true exactly when the value is not false or zero. Anything else throws ConvertError. |
| Variants.Variant.GetLong | src/variant.cpp:69-84 | bool gives 0/1 and long itself. unsigned is reinterpreted modulo 2^64. double is truncated toward zero when in range. string goes through std::stoll. Nothing and vectors throw ConvertError. |
| Variants.Variant.GetUnsigned | src/variant.cpp:86-101 | The same cases as get_long: negative longs wrap modulo 2^64, and strings go through std::stoull. |
| Variants.Variant.GetDouble | src/variant.cpp:103-118 | Numbers convert to their real value and strings go through std::stod. Nothing and vectors throw ConvertError. |
| Variants.Variant.GetString | src/variant.cpp:120-135 | Succeeds exactly for scalars. bool gives "True"/"False", integers their std::to_string text, doubles the formatted text, and strings themselves. |
| Variants.Variant.GetLongArray | src/variant.cpp:137-162 | Only vectors convert, element by element with the scalar rules. String elements go through std::stoll, and the first failure throws. |
| Variants.Variant.GetUnsignedArray | src/variant.cpp:164-189 | Only vectors convert, element by element with the scalar rules. String elements go through std::stoull. |
| Variants.Variant.GetDoubleArray | src/variant.cpp:191-216 | Only vectors convert, element by element. String elements go through std::stod. |
| Variants.Variant.GetStringArray | src/variant.cpp:218-246 | Succeeds exactly for vectors, with each element's get_string text. |
| Variants.OfInteger | src/variant.h:70-77 | A signed C integer becomes a LONG variant and an unsigned one an UNSIGNED variant. get_long and get_unsigned give the value back. |
| Variants.OfFloat | src/variant.h:78 | A float or double becomes a DOUBLE variant whose get_double gives it back. |
| Variants.OfCString | src/variant.h:59 | A C string becomes a STRING variant holding its text up to the NUL. |
| Variants.OfIntegerArray | src/variant.h:80-90 | The first n elements of a signed C array become VECTOR_LONG and of an unsigned one VECTOR_UNSIGNED, read back unchanged. |
| Variants.OfFloatArray | src/variant.h:91-92 | The first n elements of a float/double array become VECTOR_DOUBLE, read back unchanged. |
| Variants.NothingConvertsToNothing | src/unittest/test_pywrapper.cpp:64-71 | A statement's result (no value) refuses every conversion. |
| Variants.ScalarsAndVectorsDisjoint | src/unittest/test_pywrapper.cpp:32-35 | A value that converts as a scalar refuses the array conversions, and vice versa. |
| Variants.LongTextRoundTrip | src/variant.cpp:69-135 | Round trip: a long written with get_string is read back by get_long. |
| Variants.UnsignedTextRoundTrip | src/variant.cpp:86-135 | Round trip: an unsigned written with get_string is read back by get_unsigned. |
| Variants.LongArrayTextRoundTrip | src/variant.cpp:137-246 | Round trip: a long vector written with get_string_array is read back by get_long_array. |
| Variants.SignedUnsignedArrayRoundTrip | src/variant.cpp:137-189 | Round trip: a long vector read as unsigned and back gives the original elements. |
| Variants.LongResultExample | src/unittest/test_pywrapper.cpp:28-35 | The unit test on 17: get_long is 17, get_string is "17", and array conversions throw. |
| Variants.DoubleAndBoolResultExample | src/unittest/test_pywrapper.cpp:37-49 | The unit tests on 13.1 and True: get_long gives 13 and 1, and True reads as the string "True". |
| Variants.StringResultExample | src/unittest/test_pywrapper.cpp:55-56 | The unit test on '5.2': get_long and get_unsigned read 5. |
| Variants.VectorResultExamples | src/unittest/test_pywrapper.cpp:77-84 | The unit test on [1,2,3]: the long array is 1,2,3, the string array is "1","2","3", and scalar conversions throw. |
| Util.LessIrreflexive | src/util.cpp:16 | The key order of std::map<std::string, …> (lexicographic) is irreflexive. |
| Util.LessTransitive | src/util.cpp:16 | The key order is transitive. |
| Util.LessTotal | src/util.cpp:16 | The key order is total on distinct keys. |
| Util.Put | src/util.cpp:30 | fields[token] = token: the map stays sorted, the key maps to the new value, every other key keeps its value, and no other entry appears. |
| Util.ScanKeepsInv | src/util.cpp:20-36 | The scanner state after every prefix of the text satisfies the loop invariant: every recorded field is a field of the text and the pending token is an upper-case run. |
| Util.FieldsSound | src/util.cpp:13-44 | Every field getFields reports maps to itself and is an upper-case run of at most 4 letters that does not continue a letter run. |
| Util.GetFields | src/util.cpp:13-44 | The loop computes the field map of the text. The result is a sorted map. Every entry is a field name mapped to itself, and every field name of the text is in it. |
| Util.FieldsCompleteness | src/util.cpp:13-44 | Every run of one to four capitals with no letter on either side is reported, mapped to itself. |
| Util.MixedCaseHasNoFields | src/util.cpp:21-26 | Words mixing cases give no field: "VALue" and "aVAL" have none. |
| Util.FirstKeyFrom | src/util.cpp:90-95 | The first map entry, in key order, whose key starts the text, and no earlier entry's key does. |
| Util.FindKey | src/util.cpp:90-95 | The inner loop stops at exactly that first matching entry, or runs past the end when there is none. |
| Util.Replace | src/util.cpp:85-100 | replace computes the left-to-right substitution: at each position the first matching key is replaced and scanning resumes after the inserted value. |
| Util.SubstituteWithoutKeys | src/util.cpp:85-100 | A text in which no key occurs is returned unchanged. |
| Util.ReplaceRepeatedKey | src/unittest/test_util.cpp:35-43 | Every occurrence is replaced: "%VAL% %VAL%" gives "hello hello". |
| Util.ReplaceSameLetter | src/unittest/test_util.cpp:57-66 | Inserted text is not rescanned: "aaa" with a→b, b→c gives "bbb". |
| Util.ReplaceAlternatingLetters | src/unittest/test_util.cpp:57-67 | "aba" with a→b, b→c gives "bcb". |
| Util.EscapablesAreAMap | src/util.cpp:104-108 | The escape table is a sorted map with non-empty keys. |
| Util.SubstituteEscapables | src/util.cpp:102-110 | replace with the escape table escapes each newline, carriage return and quote character by character. |
| Util.Escape | src/util.cpp:102-110 | escape returns that escaped text. |
| Util.EscapedHasNoLineBreaks | src/util.cpp:102-110 | Escaped text has no raw line breaks and is never shorter than the input. |
| Util.EscapeKeepsPlainText | src/util.cpp:102-110 | Text without newline, carriage return or quote is unchanged. |
| Util.EscapedConcat | src/util.cpp:102-110 | Escaping distributes over concatenation. |
| Util.EscapeOneCharacter | src/util.cpp:104-108 | Only the special character itself is rewritten inside plain text. |
| Util.EscapeQuoteExample | src/unittest/test_util.cpp:20 | "h'ello" escapes to "h\'ello". |
| Util.EscapeNewlineExample | src/unittest/test_util.cpp:12 | "new\nline" escapes to "new\\nline". |
| Util.TryFieldsHitsOnlyNames | src/util.cpp:53-79 | A hit at a position is some field's value, replacing either the bare name with a non-alphanumeric after it or the name in percent signs. |
| Util.TryFieldsHitsPercentNames | src/util.cpp:69-76 | A field name in percent signs at the position is always replaced. |
| Util.TryFieldsMissesElsewhere | src/util.cpp:53-79 | Where no field name starts, nothing is replaced. |
| Util.TryAt | src/util.cpp:53-79 | The inner loop over the fields computes the per-position attempt, including the replaced flag it leaves. |
| Util.ReplaceFields | src/util.cpp:46-83 | replaceFields computes the specified left-to-right field substitution. |
| Util.FieldsFromWithoutNames | src/util.cpp:46-83 | A text containing no field name is returned unchanged. |
| Util.ReplaceFieldsExamples | src/util.cpp:56-76 | "VAL+1" gives "5+1" and "%VAL%" gives "5", but "VALUE" is kept because the bare name must end at a boundary. |
| Util.BoundaryAfterReplacementDependsOnOrder | src/util.cpp:59-78 | The boundary granted after a replacement reaches only the first field in key order: "%B%A" gives "21" but "%A%B" gives "1B". |
| Util.SecondFieldSeesFlag | src/util.cpp:59-78 | After "%B%", field A (first in key order) still sees the replaced flag and matches. |
| Util.FirstFieldClearsFlag | src/util.cpp:59-78 | After "%A%", field A's miss clears the flag, so B (next to the replacement) is not matched. |
| Util.JoinedAppend | src/util.cpp:112-119 | Joining one more token appends glue and the token. |
| Util.GlueAfterEachIsJoined | src/util.cpp:115-118 | What the loop accumulates is the joined text plus one trailing glue, which the final substr removes. |
| Util.Join | src/util.cpp:112-119 | join puts glue between consecutive tokens: "" for no tokens, the token itself for one. |
| Util.ToStrings | src/util.h:40-47 | to_strings gives the text of each of the first n elements, in order. |
| Util.PyListOfStrings | src/util.h:50-59 | A Python list literal: bracketed, "[]" when empty. |
| Util.PyListString | src/util.h:50-59 | to_pylist_string of n elements is a bracketed list: "[]" for none, "[x]" for one. |
| Util.SplitOn | src/util.h:50-59 | Splitting on a separator gives at least one piece. It is the reading used to check the list display. |
| Util.SplitOnPiece | src/util.cpp:112-119 | Text without the separator is one piece. Followed by the separator, it is the first piece of what follows. |
| Util.SplitJoined | src/util.cpp:112-119 | Splitting joined texts on the glue character gives the texts back when none of them holds it. |
| Util.PyListElements | src/util.h:57-59 | Between the brackets of to_pylist_string(vector), the comma-separated items are the texts, in order, when no text holds a comma. |
| Util.IntTextHasNoComma | src/util.h:30-31 | std::to_string of an integer holds no comma. |
| Util.PyListStringElements | src/util.h:50-54 | Between the brackets of to_pylist_string(array, n), with n at least 1, the comma-separated items are the n element texts in order. Integer texts never hold a comma; float texts are assumed not to. |
| Util.GetEnvConfig | src/util.cpp:121-132 | The configured value when it is at least 1, otherwise the default. |
| UtilArray.RecBptrToStrings | src/util_array.h:15-31 | For the eight numeric FTVL codes, the first NELM elements become a Python list literal. Any other FTVL throws a runtime error. |
| UtilArray.RecBptrToStringsExample | src/util_array.h:15-31 | A LONG array 1,-2,30 gives "[1,-2,30]", and an INT64 waveform is refused. |
| PyWrapper.AsLong | src/pywrapper.cpp:198-206 | PyLong_AsLong gives the value when it fits a C long and an error otherwise. A bool reads as 0/1. |
| PyWrapper.ConvertScalar | src/pywrapper.cpp:181-221 | Scalar conversion succeeds exactly for ints that fit a long, bools and floats, tried in the order int, bool, float. An int or bool gives CastInt of its long value (wrapped into an integer type, the real value for a floating type); a float gives CastReal of its value. In-range ints and bools are kept exactly. |
| PyWrapper.ConvertString | src/pywrapper.cpp:227-293 | ASCII str gives its text up to a NUL, and int gives std::to_string. A bool is an int in Python 3, so it gives "1"/"0". float gives the formatted text. Lists and None fail. |
| PyWrapper.ElementPush | src/pywrapper.cpp:304-335 | What one list element contributes. Corrected, this is exactly the scalar conversion, or nothing for other types. An int that does not fit a long fails the whole list. |
| PyWrapper.ConvertList | src/pywrapper.cpp:295-338 | The corrected list conversion: a non-list fails and leaves the output. A list gives, in order, the scalar conversion of every int, bool and float element and skips other elements. |
| PyWrapper.CollectedStops | src/pywrapper.cpp:318-321 | The conversion stops at the first element that fails. |
| PyWrapper.ListMatchesScalars | src/pywrapper.cpp:295-338 | For a list of numbers, the corrected list conversion succeeds exactly when every element converts as a scalar, and element i is element i's scalar conversion. |
| PyWrapper.PushIsScalar | src/pywrapper.cpp:316-335 | A number element pushes exactly its scalar conversion. |
| PyWrapper.CollectedStep | src/pywrapper.cpp:304-336 | The scalar agreement survives one more list element. |
| PyWrapper.SkipsOtherElements | src/pywrapper.cpp:304-336 | Strings and None in a list are skipped without failing. |
| PyWrapper.BoolPushedTwice | src/pywrapper.cpp:316-327 | As written, [True] converts to two elements 1,1, because a Python 3 bool passes both PyLong_Check and PyBool_Check. The corrected conversion gives one. |
| PyWrapper.IoIntrCall | src/pywrapper.cpp:33-85 | pydev.iointr returns False for the wrong number of arguments and raises TypeError for a non-ASCII-string name. With a value it caches it for a registered name, calls exactly that callback and returns True. Without a value it returns the cached value or None. No other parameter changes. |
| PyWrapper.Registered | src/pywrapper.cpp:164-168 | registerIoIntr sets the name's callback, overwriting any earlier one, and clears its cached value. Other names are kept. |
| PyWrapper.IoIntrRoundTrip | src/pywrapper.cpp:33-85 | After registration the name reads None. Sending a value notifies the callback and returns True, and the value then reads back. Registering again clears it. |
| PyWrapper.UnregisteredValueIgnored | src/pywrapper.cpp:66-77 | A value for an unregistered name returns True and changes nothing. |
| PyWrapper.FileRuns | src/pywrapper.cpp:140-148 | Each initialisation statement is run once in file mode, in order. |
| PyWrapper.TypedExec | src/pywrapper.cpp:357-426 | exec with a result: evaluate first and convert. A conversion failure returns false without a second run. If evaluation fails (or no result is wanted) the line is run as a statement, which returns false or throws runtime_error when it fails too. |
| PyWrapper.Interpreter.constructor | src/pywrapper.cpp:14-17 | A fresh interpreter: no main thread state, no history, no parameters, nothing compiled. |
| PyWrapper.Interpreter.Init | src/pywrapper.cpp:108-152 | init saves the main thread state and runs the import statements in order, stopping at the first that fails with runtime_error. Parameters and compiled code are kept. |
| PyWrapper.Interpreter.Shutdown | src/pywrapper.cpp:154-162 | shutdown clears the main thread state, so later calls are refused. |
| PyWrapper.Interpreter.RegisterIoIntr | src/pywrapper.cpp:164-168 | The parameter table becomes Registered(old table, name, callback). |
| PyWrapper.Interpreter.IoIntr | src/pywrapper.cpp:33-85 | The call returns IoIntrCall's result; the table and the notified callbacks are updated as it says. |
| PyWrapper.Interpreter.Exec | src/pywrapper.cpp:342-355 | Before init (or after shutdown) domain_error with nothing run. Otherwise the line is run once in file mode, and runtime_error means that run failed. |
| PyWrapper.Interpreter.ExecScalar | src/pywrapper.cpp:357-394 | Guarded like Exec; otherwise the TypedExec outcome with the scalar conversion. The value is updated only on success. |
| PyWrapper.Interpreter.ExecString | src/pywrapper.cpp:396-426 | Guarded like Exec; otherwise the TypedExec outcome with the string conversion. The value is updated only on success. |
| PyWrapper.Interpreter.ExecList | src/pywrapper.cpp:428-461 | Guarded like Exec. Otherwise the array is cleared and then holds the list conversion of the evaluated value. The result is the TypedExec outcome. |
| PyWrapper.Interpreter.Compile | src/pywrapper.h:83-95 | Guarded like Exec. Code that does not parse raises SyntaxError. Otherwise a new handle is bound to the code in the bytecode object. |
| PyWrapper.Interpreter.Eval | src/pywrapper.h:97-109 | Guarded like Exec. Empty or destroyed bytecode raises EvalError. Otherwise the compiled code is evaluated once with the arguments, and a failed evaluation raises EvalError. |
| PyWrapper.Interpreter.Destroy | src/pywrapper.h:141-151 | Guarded like Exec. Otherwise the bytecode is emptied and its handle released. An empty object is allowed. |
| PyWrapper.Interpreter.ExecCode | src/pywrapper.h:111-123 | exec(code, args) is compile followed by eval: SyntaxError, or one evaluation with its result or EvalError. |
| PyWrapper.Interpreter.ExecNoArgs | src/pywrapper.h:125-139 | exec(code) is exec with an empty argument map. |
| PyWrapper.ByteCode.constructor | src/pywrapper.h:70 | A default ByteCode holds no code. |
| PyWrapper.ByteCode.Move | src/pywrapper.h:71 | The move constructor takes the code and leaves the source empty. |
| PyWrapper.ByteCode.MoveFrom | src/pywrapper.h:72 | Move assignment takes the code and leaves the source empty. |
| PyWrapper.GuardedBeforeInitAndAfterShutdown | src/pywrapper.cpp:170-179 | Every call before init and after shutdown raises domain_error and runs nothing. |
| DevSupport.Common.constructor | src/pydev_longin.cpp:23-29 | A record starts idle (PACT 0), undefined, without alarm, device context or completions. |
| DevSupport.IoIntrParamAsWritten | src/pydev_longin.cpp:56-57 | As written, the parameter is present exactly when the address starts with "pydev.iointr('" and ends with "')". The text is substr(14, size-16), computed in size_t. |
| DevSupport.IoIntrParam | src/pydev_longin.cpp:56-57 | Corrected: a parameter is read only from an address that is exactly prefix, parameter, suffix. |
| DevSupport.IoIntrParamRoundTrip | src/pydev_longin.cpp:56-57 | Any parameter is read back from the address built around it. |
| DevSupport.IoIntrParamAgrees | src/pydev_longin.cpp:56-57 | The code as written and the corrected parse agree on every address except those of length 15. |
| DevSupport.IoIntrParamShortAddress | src/pydev_longin.cpp:56-57 | "pydev.iointr(')" (prefix and suffix overlapping) is accepted as written with parameter ")". The corrected parse rejects it. |
| DevSupport.ScanRegistry.constructor | src/pydev_longin.cpp:31 | The file-local map of scan lists starts empty. |
| DevSupport.InitRecord | src/pydev_longin.cpp:48-71 | A fresh context with empty code and bytecode, status 0. An I/O Intr address gets its parameter's scan list: new parameters get a new list registered with registerIoIntr, and known parameters share the existing one. Other addresses have no scan list and register nothing. |
| DevSupport.IointInfo | src/pydev_longin.cpp:73-80 | getIointInfo sets the scan list exactly when the context has one, and otherwise leaves the caller's value. |
| DevSupport.SharedScanList | src/pydev_longin.cpp:48-80 | Two records on the same parameter share one scan list, registered once. A record with a plain address gets none. |
| DevSupport.ProcessAsync | src/pydev_longin.cpp:121-141 | processRecord: without a context, PACT stays 1 with a UDF alarm and -1. In the second pass, PACT is cleared and the callback's status returned. In the first pass, PACT is set, the callback is scheduled, and 0 is returned exactly when a worker exists (else -1). |
| DevSupport.TwoPassProcessing | src/pydev_longin.cpp:121-141 | A first pass that schedules returns 0 and queues the callback. The second returns the callback's status and clears PACT. |
| DevSupport.RequestCompletion | src/pydev_longin.cpp:118 | callbackRequestProcessCallback: one more completion request. |
| DevSupport.SetStatus | src/pydev_longin.cpp:109-116 | The context's processCbStatus is set; the rest of the context is kept. |
| DevSupport.RaiseCalcAlarm | src/pydev_longin.cpp:115 | An INVALID CALC alarm is raised unless one is pending. |
| DevSupport.ExpandMacros | src/pydev_longin.cpp:86-99 | The macro loop computes Expanded: each recognised macro of the code, in turn, is renamed to "pydev"+name; one with a value is also passed as an argument, one without (a pycalc DBF_ENUM argument) is passed nothing. |
| DevSupport.ExpandedArgs | src/pydev_longin.cpp:88-99 | Arguments are exactly "pydev"+m for the recognised macros m the code uses, each with the field's value. |
| DevSupport.Assigned | src/pydev_mbbo.cpp:84-122 | The fields map after the loop: same keys in the same order, recognised keys get the field's text, others keep their name. |
| DevSupport.AssignFields | src/pydev_mbbo.cpp:85-122 | The loop computes Assigned. |
| DevSupport.AssignedKeepsKeys | src/pydev_mbbo.cpp:84-122 | The assigned map is still sorted, and unrecognised fields map to their own name. |
| DevSupport.FieldsHaveKeys | src/pydev_mbbo.cpp:84-123 | Every key of the assigned map is non-empty, as replaceFields needs. |
| DevSupport.SubstituteFields | src/pydev_mbbo.cpp:84-123 | getFields, the loop and replaceFields together give the link with the recognised field values substituted. |
| DevSupport.ScalarExec | src/pywrapper.cpp:357-390 | Scalar exec from the interpreter state: a value is produced exactly on success, and fits the field type. Errors are domain_error without an interpreter, runtime_error otherwise. |
| DevSupport.StringExec | src/pywrapper.cpp:396-426 | String exec: a value exactly on success, with the same error kinds. |
| DevSupport.ExecField | src/pydev_mbbo.cpp:126 | exec into a numeric field: the field changes only on success. The history grows by the runs made. |
| DevSupport.ExecStringField | src/epicsdevice.cpp:168 | exec into a string: the value changes only on success. |
| DevSupport.ListExec | src/pywrapper.cpp:428-461 | List exec succeeds exactly when the interpreter exists, evaluation succeeds and the list converts. Without an interpreter nothing runs. |
| DevSupport.ExecListField | src/pydev_waveform.cpp:194-200 | exec into a vector: the list outcome and the runs made. |
| DevSupport.UpdateCache | src/pydev_longin.cpp:102-106 | Unchanged code keeps the cache. Changed code is recompiled, or SyntaxError/domain_error is raised, and the text is cached only on success. The old bytecode is destroyed first, so a failure leaves it empty. The cache stays coherent, and other compiled code is untouched. |
| DevSupport.EvalOutcome | src/pywrapper.h:97-109 | Evaluation succeeds exactly with an interpreter, compiled code and a value. The errors are domain, syntax or eval errors. |
| DevSupport.EvalCached | src/pydev_longin.cpp:86-107 | Macro expansion, the cache update and eval give CachedRun's outcome: with the empty-bytecode check for the callbacks that destroy old bytecode (the corrected update), without it for mbbi, where equal code with empty bytecode fails with EvalError. On success the expanded code ran once with its arguments, and the cache stays coherent. |
| DevSupport.StaleCacheAfterFailedCompile | src/pydev_longin.cpp:102-107 | As written, X compiled, then Y failing to compile, then X again, evaluates empty bytecode and fails with EvalError for good. The corrected cache evaluates X. |
| DevSupport.CompiledThenFailed | src/pydev_longin.cpp:102-106 | After X compiles and Y fails, the cached text is still X but the bytecode is empty. |
| DevSupport.CacheScenario | src/pydev_longin.cpp:102-107 | The third evaluation fails as written and succeeds when empty bytecode forces a recompile. |
| EpicsDevice.Find | src/epicsdevice.cpp:54-57 | std::string::find: the first occurrence at or after the start, with none before it; or none at all. |
| EpicsDevice.ReplaceCountsPercents | src/epicsdevice.cpp:56 | Replacing one "%value%" removes its two percent signs and adds those of the inserted text. |
| EpicsDevice.ReplaceKeepsInsertedNeedle | src/epicsdevice.cpp:56-57 | A needle inside the inserted value is found again by the next search. |
| EpicsDevice.ReplaceFirstStep | src/epicsdevice.cpp:55-58 | One loop pass: a value without '%' lowers the percent count by two, and a value containing the needle keeps a needle present. A plain value does not change the corrected result. |
| EpicsDevice.LinkToPyCodeAsWritten | src/epicsdevice.cpp:50-60 | The loop as written, bounded by fuel. When it finishes no needle is left, and a text without needle is returned unchanged. It always finishes for values without '%'. It never finishes when the value itself contains "%value%". For plain values it agrees with the corrected function. |
| EpicsDevice.NeedleMap | src/epicsdevice.cpp:50-60 | The single-entry map from the needle to the value, a valid key table for replace. |
| EpicsDevice.PlainPrefix | src/epicsdevice.cpp:54-57 | Text before the first needle passes through unchanged. |
| EpicsDevice.LinkToPyCodeStep | src/epicsdevice.cpp:50-60 | Corrected: no needle leaves the text unchanged. Otherwise the first needle becomes the value and scanning resumes after it, so inserted text is never rescanned. |
| EpicsDevice.LinkToPyCodeFixed | src/epicsdevice.cpp:50-60 | The corrected loop, which searches from after the inserted value, computes LinkToPyCode. |
| EpicsDevice.SelfReferenceDiverges | src/epicsdevice.cpp:54-58 | A link "%value%" with the value "%value%" never terminates as written. The corrected function gives "%value%". |
| EpicsDevice.NoNeedleUpToValue | src/epicsdevice.cpp:56-57 | After replacing the first needle with a plain value, no needle starts before the end of the inserted value. |
| EpicsDevice.ReplaceFirstKeepsCorrected | src/epicsdevice.cpp:55-58 | With a plain value, each pass as written preserves the corrected result. |
| EpicsDevice.IntegerTextIsPlain | src/epicsdevice.cpp:127 | std::to_string of an integer field contains no '%', so numeric records always terminate. |
| EpicsDevice.ValueRecord.constructor | src/epicsdevice.cpp:101-105 | A numeric record holds a value of its field type. |
| EpicsDevice.ValueRecord.Code | src/epicsdevice.cpp:127-128 | The code is the link with "%value%" replaced by the value's decimal text. |
| EpicsDevice.ValueRecord.ProcessInpRecordCb | src/epicsdevice.cpp:124-160 | Input records: VAL (RVAL for ai) takes the converted result on success. A conversion failure or an exception keeps it and raises INVALID CALC. Completion is always requested. |
| EpicsDevice.ValueRecord.ProcessOutRecordCb | src/epicsdevice.cpp:206-234 | Output records: the value is updated whenever a result converts, and only an exception raises INVALID CALC. |
| EpicsDevice.StringRecord.constructor | src/epicsdevice.cpp:162-166 | A string record starts with an empty 40-character VAL. |
| EpicsDevice.StringRecord.ProcessInpRecordCb | src/epicsdevice.cpp:162-182 | stringin: on success VAL holds the result cut to 39 characters. Otherwise VAL is kept and INVALID CALC raised. |
| EpicsDevice.StringRecord.ProcessOutRecordCb | src/epicsdevice.cpp:236-251 | stringout: unless exec throws, VAL is rewritten with the result, or its own old text, cut to 39 characters. An exception keeps it and raises INVALID CALC. |
| EpicsDevice.ProcessRecord | src/epicsdevice.cpp:184-273 | Without a context: PACT 1, a UDF alarm, -1. Otherwise PACT toggles and 0 is returned even if nothing could be scheduled; the first pass queues the callback when a worker exists. |
| EpicsDevice.ProcessedWithoutWorkers | src/epicsdevice.cpp:199-203 | With no workers the first pass still returns 0 and leaves PACT set with nothing queued. |
| EpicsDevice.PydevExec | src/epicsdevice.cpp:391-399 | pydevExec always returns 0. With an interpreter it runs the line once; failures are swallowed. |
| EpicsDevice.Registrar.constructor | src/epicsdevice.cpp:417 | Registration has not happened yet. |
| EpicsDevice.Registrar.Register | src/epicsdevice.cpp:415-425 | Only the first call acts: it starts the interpreter and the workers and registers the shell command and the exit hook. Later calls change nothing. |
| EpicsDevice.Unregister | src/epicsdevice.cpp:409-413 | At exit every worker is stopped and removed, then the interpreter is shut down. |
| PydevAo.Scaled | src/pydev_ao.cpp:110-111 | Applying the slope (when non-zero) and offset undoes the unscaling of line 86-87. |
| PydevAo.ScalingRoundTrip | src/pydev_ao.cpp:86-111 | Unscaling OVAL and scaling it back gives OVAL. |
| PydevAo.Ao.constructor | src/pydev_ao.cpp:82-87 | The record carries its OUT link, OVAL, AOFF and ASLO. |
| PydevAo.Ao.Macros | src/pydev_ao.cpp:91-101 | The recognised macros are VAL, RVAL, ORAW, NAME, EGU, HOPR, LOPR, PREC and TPRO. VAL is the unscaled value as a double. |
| PydevAo.Ao.ProcessRecordCb | src/pydev_ao.cpp:82-123 | VAL is first unscaled. When eval and get_double succeed, VAL becomes the scaled result, UDF is cleared and the status is 0. Otherwise VAL stays unscaled, INVALID CALC is raised and the status is -1. The cache stays coherent. |
| PydevAo.InitRecord | src/pydev_ao.cpp:48-71 | Everything DevSupport.InitRecord promises, with these parts. The context is fresh, with empty code and bytecode and status 0. The parameter's scan list is created and registered once, or reused. The status returned is 2 (do not convert RVAL). |
| PydevBi.Bi.constructor | src/pydev_bi.cpp:80-84 | The record carries its INP link, VAL and RVAL. |
| PydevBi.Bi.Fields | src/pydev_bi.cpp:84-92 | The recognised fields are VAL, RVAL, NAME, ZNAM, ONAM and TPRO. RVAL is its decimal text and NAME the record name. |
| PydevBi.Bi.ProcessRecordCb | src/pydev_bi.cpp:80-110 | The code is the INP link with fields substituted. RVAL takes the result and the status is 0 exactly when exec returns true. Otherwise RVAL is kept, INVALID CALC is raised and the status is -1. |
| PydevLongin.Longin.constructor | src/pydev_longin.cpp:82-86 | The record carries its INP link and VAL. |
| PydevLongin.Longin.Macros | src/pydev_longin.cpp:88-99 | The recognised macros are VAL, NAME, EGU, HOPR, LOPR, HIGH, HIHI, LOW, LOLO and TPRO. VAL is passed as a long. |
| PydevLongin.Longin.ProcessRecordCb | src/pydev_longin.cpp:82-119 | On success VAL is get_long wrapped to 32 bits, UDF is cleared and the status is 0. On any failure VAL is kept, INVALID CALC is raised and the status is -1. |
| PydevLsi.Lsi.constructor | src/pydev_lsi.cpp:80-84 | A long string input of SIZV characters, initially empty. |
| PydevLsi.Lsi.Fields | src/pydev_lsi.cpp:84-91 | The recognised fields are VAL, NAME, SIZV, LEN and TPRO. VAL is the escaped current text. |
| PydevLsi.Lsi.ProcessRecordCb | src/pydev_lsi.cpp:80-113 | On success VAL holds the result cut to SIZV-1 characters, LEN is its length plus one and the status is 0. Otherwise VAL and LEN are kept and INVALID CALC is raised. |
| PydevLso.Lso.constructor | src/pydev_lso.cpp:82-86 | A long string output of SIZV characters, initially empty. |
| PydevLso.Lso.Macros | src/pydev_lso.cpp:88-94 | The recognised macros are VAL, NAME, SIZV, LEN and TPRO. VAL is passed as a string. |
| PydevLso.Lso.ProcessRecordCb | src/pydev_lso.cpp:82-117 | On success (eval and get_string) VAL holds the result cut to SIZV-1 characters, LEN is its length plus one, UDF is cleared and the status is 0. Otherwise VAL, LEN and UDF are kept and INVALID CALC is raised. |
| PydevMbbi.Mbbi.constructor | src/pydev_mbbi.cpp:82-86 | The record carries VAL and the sixteen state values and strings. |
| PydevMbbi.Mbbi.Macros | src/pydev_mbbi.cpp:88-125 | VAL and RVAL are passed as unsigned and NAME as a string, along with the state fields and TPRO. |
| PydevMbbi.Mbbi.ProcessRecordCb | src/pydev_mbbi.cpp:82-143 | On success VAL is get_long wrapped to 16 bits and UDF cleared; on failure VAL is kept and INVALID CALC raised. The code is compiled only when it differs from the cached text, so empty INP code at the first processing evaluates empty bytecode and fails. The model keeps earlier compiled code in the interpreter; whether ByteCode's move assignment (src/pywrapper.h:72, body not in the source files) releases it is an assumption that does not affect the outcome. |
| PydevMbbo.FieldTexts | src/pydev_mbbo.cpp:85-122 | VAL and RVAL are their decimal text and NAME is the record name. The state value and string fields are included. |
| PydevMbbo.Mbbo.constructor | src/pydev_mbbo.cpp:80-84 | The record carries VAL and the sixteen state values and strings. |
| PydevMbbo.Mbbo.Fields | src/pydev_mbbo.cpp:84-122 | The field texts of the record's current values. |
| PydevMbbo.Mbbo.ProcessRecordCb | src/pydev_mbbo.cpp:80-133 | RVAL takes any result that converts. Only an exception raises INVALID CALC and gives -1; an unconvertible result still gives 0. |
| PydevWaveform.VectorType | src/pydev_waveform.cpp:194-200 | The callback uses a double vector exactly for FTVL FLOAT/DOUBLE and a long vector otherwise. |
| PydevWaveform.Stored | src/pydev_waveform.cpp:36-38 | std::copy of the first elements: the length is kept, elements past the source are kept, and stored values fit the element type. |
| PydevWaveform.ReadStoreRoundTrip | src/pydev_waveform.cpp:33-117 | Reading the buffer into the callback's vector and copying it back restores the buffer. |
| PydevWaveform.Waveform.constructor | src/pydev_waveform.cpp:168-170 | NELM zeroed elements and NORD 0. |
| PydevWaveform.Waveform.FromRecArrayVal | src/pydev_waveform.cpp:79-117 | Defined exactly for the eight numeric FTVL types, giving NELM elements that copy back to the buffer. |
| PydevWaveform.Waveform.ToRecArrayVal | src/pydev_waveform.cpp:32-77 | For numeric FTVL, NORD becomes min(size, NELM) and exactly those elements are converted into the buffer. Otherwise it returns false and nothing changes. |
| PydevWaveform.Waveform.Fields | src/pydev_waveform.cpp:172-189 | VAL is replaced (by the list text) exactly for numeric FTVL, and no other field is. |
| PydevWaveform.Waveform.ProcessRecordCb | src/pydev_waveform.cpp:168-216 | Status 0 exactly when exec yields a convertible list and FTVL is numeric; then the buffer and NORD hold it. Otherwise they are kept, INVALID CALC is raised and the status is -1. |
| PycalcRecord.AllocatedArg | src/pycalcRecord.cpp:96-112 | Pass-0 allocation of one argument: a FTx above DBF_ENUM becomes DBF_CHAR, MEx is at least 1, NEx is 1 exactly for a scalar and 0 otherwise, and the buffer is zeroed to MEx cells of the field type. |
| PycalcRecord.ConstantLoaded | src/pycalcRecord.cpp:124-133 | Only a constant link with a value loads into the first cell; nothing else in the argument changes. |
| PycalcRecord.Fetched | src/pycalcRecord.cpp:343-365 | A non-constant, connected link that reports a positive count sets NEx to the count cut to MEx (and to what is read) and copies that many cells. Cells past it are kept. Any other link leaves the argument unchanged. |
| PycalcRecord.ScalarVariant | src/pycalcRecord.cpp:157-169 | A scalar argument gives a scalar value, a string exactly for DBF_STRING. |
| PycalcRecord.VectorVariant | src/pycalcRecord.cpp:171-192 | An array argument gives a vector with one element per used cell, a string vector exactly for DBF_STRING. |
| PycalcRecord.ArgVariant | src/pycalcRecord.cpp:156-193 | No value exactly for DBF_ENUM. Otherwise a scalar when MEx is 1, else a vector of NEx elements. |
| PycalcRecord.ArgMacros | src/pycalcRecord.cpp:147-196 | Keys are one-letter argument names. An argument has an entry exactly when its type gives a value, and the entry is that value. |
| PycalcRecord.BareArgs | src/pycalcRecord.cpp:148-156 | The letters renamed without a value are exactly those of the arguments that have no Variant (DBF_ENUM); none of them is a key of ArgMacros. |
| PycalcRecord.Outputs | src/pycalcRecord.cpp:209-286 | A result with no value yields nothing. A scalar result yields one cell. A vector result yields one cell per element. |
| PycalcRecord.ConvertedUnique | src/pycalcRecord.cpp:209-290 | The conversion outcome (the buffer, NEVL and success) is determined by the result, the FTVL and the convert routine. |
| PycalcRecord.Pycalc.constructor | src/pycalcRecord.cpp:86-93 | The record fields as configured, with NEVL 0 and nothing written or posted yet. |
| PycalcRecord.Pycalc.InitRecordPass0 | src/pycalcRecord.cpp:90-122 | Every argument is allocated as AllocatedArg states. MEVL is at least 1. VAL is a fresh zeroed buffer of MEVL cells. A fresh context has empty code and no bytecode. The status is 0. |
| PycalcRecord.Pycalc.InitRecordPass1 | src/pycalcRecord.cpp:124-136 | Each argument is loaded from its constant link as ConstantLoaded states, and the status is 0. |
| PycalcRecord.Pycalc.FetchValues | src/pycalcRecord.cpp:343-365 | Each argument is updated from its link as Fetched states, and the status is always 0. |
| PycalcRecord.Pycalc.Macros | src/pycalcRecord.cpp:142-199 | NAME and TPRO are always present. Each argument A..Z is present exactly when it has a value, and maps to that value. |
| PycalcRecord.Pycalc.PutValues | src/pycalcRecord.cpp:238-285 | Converting output cells one by one from VAL[0] stops at the first failure or at MEVL. NEVL counts the converted cells. |
| PycalcRecord.Pycalc.StoreResult | src/pycalcRecord.cpp:209-290 | NEVL is reset, and the result is converted according to its type (a scalar into one cell, a vector up to MEVL cells). Success exactly when the result has a value and every conversion succeeds. |
| PycalcRecord.Pycalc.ProcessRecordCb | src/pycalcRecord.cpp:139-302 | The cached code is run with the argument macros; every argument letter the code uses is renamed, a DBF_ENUM one (BareArgs) without a value. Status 0 exactly when it evaluates and the whole result converts; otherwise -1 and INVALID CALC. The cache stays coherent and completion is signalled once. |
| PycalcRecord.Pycalc.ProcessRecord | src/pycalcRecord.cpp:304-341 | On the first pass: PACT is set, the links are fetched and the callback is queued. The status is 0 exactly when a worker exists. On the second pass: PACT is cleared, VAL[..NEVL] is written to OUT, alarms are reset into SEVR (INVALID CALC after a failed callback) and an event is posted (a value event unless it failed). |
| PycalcRecord.Pycalc.ConvertDbAddr | src/pycalcRecord.cpp:367-388 | Defined exactly for fields A..Z and VAL. Each reports its own type and the type's element size. The element count is NEx or NEVL, which never exceeds the field's capacity. |
| PycalcRecord.Pycalc.GetArrayInfo | src/pycalcRecord.cpp:390-406 | The offset is 0. The count is the field's NEx or NEVL, or unchanged for any other field. |
| PyRecord.AllocatedArg | src/pyRecord.cpp:95-106 | Pass-0 allocation of one argument: a FTx of DBF_ENUM or above becomes DBF_CHAR, its size is the type's value size and its cell is zeroed. |
| PyRecord.ConstantLoaded | src/pyRecord.cpp:122-132 | Only a constant link with a value loads into the argument; its type and size are kept. |
| PyRecord.Fetched | src/pyRecord.cpp:229-254 | A non-constant, connected link of known type reporting exactly one element retypes the argument to the link's type, grows its size if needed and loads the value. Any other link leaves it unchanged. |
| PyRecord.ArgIndex | src/pyRecord.cpp:143-145 | A key is recognised as argument i only when it is exactly "%" + letter i + "%". |
| PyRecord.ArgIndexOfField | src/pyRecord.cpp:143-145 | Every field name "%A%".."%Z%" is recognised as its own index. |
| PyRecord.ArgText | src/pyRecord.cpp:149-159 | Every scalar argument type has a text, and a string argument's text is its value. |
| PyRecord.ArgTextRoundTrip | src/pyRecord.cpp:149-156 | The text of an integer argument scans back to its value. |
| PyRecord.CbStatusAsWritten | src/pyRecord.cpp:166-183 | As written: a string FTVL always gives -1; for other types the status is 0 exactly when exec returns true. |
| PyRecord.CbStatus | src/pyRecord.cpp:166-183 | Corrected: the status is 0 exactly when exec returns true, and -1 otherwise. |
| PyRecord.StringSuccessReportedAsFailure | src/pyRecord.cpp:178-183 | A successful exec into a string VAL is reported as failure as written, and as success by the corrected status. |
| PyRecord.Py.constructor | src/pyRecord.cpp:137-139 | The record fields as configured, with nothing posted yet. |
| PyRecord.Py.InitRecordPass0 | src/pyRecord.cpp:89-120 | Every argument is allocated as AllocatedArg states. FTVL of DBF_ENUM or above becomes DBF_CHAR. VAL is zeroed. A fresh context is created. The status is 0. |
| PyRecord.Py.InitRecordPass1 | src/pyRecord.cpp:122-132 | Each argument is loaded from its constant link as ConstantLoaded states, and the status is 0. |
| PyRecord.Py.FetchValues | src/pyRecord.cpp:229-254 | Each argument is updated from its link as Fetched states, and the status is always 0. |
| PyRecord.Py.Recognised | src/pyRecord.cpp:141-162 | %NAME% is replaced by the record name. %A%..%Z% are replaced by the argument's text. No other key is replaced. |
| PyRecord.Py.Replacements | src/pyRecord.cpp:139-163 | Every recognised field of the code gets its replacement text, and only recognised keys are replaced. |
| PyRecord.Py.ProcessRecordCb | src/pyRecord.cpp:137-189 | The substituted code is run into VAL's type. A numeric VAL takes a converted result or is kept. A string VAL takes the result cut to 39 characters, or an empty text when nothing converts. The status is 0 exactly when exec succeeds. Completion is signalled once. |
| PyRecord.Py.ProcessRecord | src/pyRecord.cpp:191-227 | On the first pass: PACT is set, the links are fetched and the callback is queued. The status is 0 exactly when a worker exists. On the second pass: PACT is cleared, alarms are reset into SEVR (INVALID CALC after a failed callback) and an event is posted. |
| PyRecord.Py.Elements | src/pyRecord.cpp:267 | A string field reports its length plus the terminator, bounded by the string size; any other type reports one element. |
| PyRecord.Py.ConvertDbAddr | src/pyRecord.cpp:256-280 | Defined exactly for fields A..Z and VAL, with the field's type, its element count and the type's size. |
| PyRecord.Py.GetArrayInfo | src/pyRecord.cpp:282-300 | The offset is 0. The count is the field's element count, or unchanged for any other field. |

## Left out

- Threads, mutexes, events and the atomic running flag of src/asyncexec.cpp: the queue and the workers are modelled sequentially, and the one-second timed wait of `dequeue` is not modelled.
- The Python C API: `PyRun_String`, reference counts, the GIL, `Py_Initialize`/`Py_Finalize` and error printing. The interpreter is an oracle (`run`, `parses`, `evaluate`) over an abstract Python object datatype.
- The Python 2 branches (`PyInt_*`, `PyString_*`) are not modelled; only the Python 3 build is.
- Floating point: doubles are `real`, so double-to-float rounding, NaN and infinity are not modelled. `std::to_string(double)`, `std::stod`, `floatToString` and `realToString` are oracle parameters.
- CTypes.CastInt: an integer converted to a floating type is its exact real value; a C++ int64 to double conversion rounds values beyond 2^53, which is not modelled.
- CTypes.CastReal: a double whose integral part does not fit the integer type is undefined behaviour in C++ (src/variant.cpp:77-78 and 94-95 return it unchecked); the model wraps the truncated value, which is one possible outcome, not a promise of the source.
- PydevAo.ScalingRoundTrip: holds exactly over the reals; with doubles the ASLO/AOFF round trip is only approximate.
- `Util::getMacros`, `Util::replaceMacro`, `Util::getReplacables`, `arrayToStr` and the body of `dbFastPutConvertRoutine` are parameters of the model (MacroText, the `replacables` argument of PyRecord.Py.ProcessRecordCb, Converter). Their bodies are not in the modelled files.
- PyWrapper.Interpreter.Compile, PyWrapper.Interpreter.Eval, PyWrapper.Interpreter.Destroy and PyWrapper.Interpreter.ExecCode follow the declarations and comments of src/pywrapper.h:83-123 only; src/pywrapper.cpp has no bodies for them. That Eval of empty or destroyed bytecode raises EvalError is an assumption of the model. The third finding below rests on it.
- PycalcRecord.Outputs: a VECTOR_LONG or VECTOR_UNSIGNED element is passed to the 32-bit converter through a pointer to a 64-bit long (src/pycalcRecord.cpp:248-267). The model takes the low half, which is what a little-endian host reads; on a big-endian host the high half is read.
- PyWrapper.Interpreter.ExecList: uses the corrected list conversion (each bool pushed once). On the list `[True]` it gives one element, where src/pywrapper.cpp:316-327 pushes two.
- DevSupport.ListExec: the same corrected list conversion as ExecList, so it differs from the source on lists that hold bools.
- DevSupport.ExecListField: the same corrected list conversion, so it differs from the source on lists that hold bools.
- PydevWaveform.Waveform.ProcessRecordCb: runs the corrected list conversion. For code `[True]` and FTVL LONG the model stores one element with NORD 1; the source stores 1,1 with NORD 2.
- DevSupport.InitRecord: parses the address with the corrected IoIntrParam. The address `pydev.iointr(')` gets no scan list in the model; src/pydev_longin.cpp:56-57 registers the parameter `)`.
- PydevAo.InitRecord: inherits the corrected address parsing of DevSupport.InitRecord, and differs on `pydev.iointr(')` the same way.
- PydevAo.Ao.ProcessRecordCb: uses the corrected bytecode cache, which also recompiles when the bytecode is empty. Code X that compiles, then Y that does not, then X again: the third run succeeds in the model and fails in src/pydev_ao.cpp:104-107.
- PydevLongin.Longin.ProcessRecordCb: the same corrected cache; X, Y, X succeeds in the model and fails in src/pydev_longin.cpp:102-107.
- PydevLso.Lso.ProcessRecordCb: the same corrected cache; X, Y, X succeeds in the model and fails in src/pydev_lso.cpp:97-100.
- PycalcRecord.Pycalc.ProcessRecordCb: the same corrected cache; X, Y, X succeeds in the model and fails in src/pycalcRecord.cpp:202-207.
- EpicsDevice.StringRecord.ProcessInpRecordCb: builds the code with the corrected LinkToPyCodeFixed. With VAL `x%` and link `%value%value%` the model runs `x%value%`, where src/epicsdevice.cpp:50-60 runs `xx%`. A VAL that holds `%value%` terminates in the model and loops forever in the source.
- EpicsDevice.StringRecord.ProcessOutRecordCb: the same corrected link rewriting as ProcessInpRecordCb, with the same differences.
- PyRecord.Py.ProcessRecordCb: uses the corrected CbStatus. A successful exec into a STRING VAL gives status 0 in the model; src/pyRecord.cpp:179-184 gives -1 and INVALID CALC.
- EPICS plumbing: alarms are a severity value set by `recGblSetSevr`. Completion of `callbackRequestProcessCallback` is a counter. `db_post_events` is reduced to whether a value event is posted. `scanIoRequest` is a notified callback id. Time stamps, `recGblFwdLink` and the monitor masks are left out. `dbPutLink` is an append to the list of written values. iocsh registration is left out.
- Trace printing under TPRO=1 is output only and is not modelled.
- The order in which `shutdown` stops and joins the workers, beyond their removal, is not modelled.
- NARGS is 26 (fields A..Z). This comes from the record definitions, which are not part of this model.
- The initRecord and getIointInfo of src/epicsdevice.cpp:77-121 do the same as the device-support files. They are modelled once, by DevSupport.InitRecord and DevSupport.IointInfo. src/epicsdevice.cpp calls an older worker API; the model gives it the PyWrapper interface.
- src/pymodule.cpp, src/pyworker.cpp and python/pydevtest.py are not part of this model: a Python 2 module, a superseded wrapper, and a test client.
- PycalcRecord.Pycalc.Macros: an argument of type DBF_ENUM has its macro renamed in the code but gets no value (src/pycalcRecord.cpp:156-193). Macros gives it no entry and PycalcRecord.BareArgs lists it, so the code is renamed and no argument passed; the Python error this causes at eval time is part of the interpreter oracle.
- PycalcRecord.Pycalc.InitRecordPass0: requires FTVL to be at most DBF_ENUM. The code does not clamp FTVL, and larger codes have no value size in the model.
- PycalcRecord.Pycalc.ProcessRecord: `fetchValues` always returns 0, so its error branch (src/pycalcRecord.cpp:310-314) is dead and not modelled.
- PyRecord.Fetched: takes the `dbGetLink` read as succeeding once the link reports one element. A failed read after a type change leaves the old bytes read in the new type, and this is not modelled.
- PyRecord.Py.ProcessRecord: the same dead `fetchValues` error branch (src/pyRecord.cpp:197-201) is not modelled.

## Findings

| source | as written | input that shows it | evidently intended | confidence | as-written member | corrected member |
|---|---|---|---|---|---|---|
| src/pywrapper.cpp:316-327 | Under Python 3 a bool passes both `PyLong_Check` and `PyBool_Check`, so the list conversion pushes it twice. | The list `[True]` converts to two ones, where `True` alone converts to one. | Each element is pushed once, so the list agrees element by element with the scalar conversion. | not executed | PyWrapper.BoolPushedTwice | PyWrapper.ConvertList, PyWrapper.ListMatchesScalars |
| src/pydev_longin.cpp:56-57 | In every device-support file the parameter is `addr.substr(14, addr.size()-16)`. For a 15-character address the count wraps around in `size_t`. | `pydev.iointr(')` is accepted, with the parameter `)`, because the prefix's quote doubles as the suffix's. | Only an address with both prefix and suffix and text between them is accepted; the parameter is that text. | not executed | DevSupport.IoIntrParamAsWritten, DevSupport.IoIntrParamShortAddress | DevSupport.IoIntrParam, DevSupport.IoIntrParamRoundTrip |
| src/pydev_longin.cpp:102-107 | In every callback that compiles: when compiling new code fails after the old bytecode was destroyed, the cached text still names the old code. Running that code again skips compiling and evaluates empty bytecode, which the model takes to raise EvalError (eval's body is not in the source files). | X compiles and Y does not. Processing X, then Y, then X again fails on the third run. | The third run recompiles X and evaluates it. | not executed | DevSupport.StaleCacheAfterFailedCompile | DevSupport.EvalCached |
| src/epicsdevice.cpp:50-60 | `linkToPyCode` searches again from the start after each replacement, so it finds a needle inside the inserted value. | A record whose value is `%value%` and whose link is `%value%` never finishes. | Each needle of the link is replaced once, left to right, and the inserted value is not searched. | not executed | EpicsDevice.LinkToPyCodeAsWritten, EpicsDevice.SelfReferenceDiverges | EpicsDevice.LinkToPyCodeFixed, EpicsDevice.LinkToPyCodeStep |
| src/pyRecord.cpp:166-183 | For a DBF_STRING VAL the status uses the outer `ret`, which stays false, so the record always reports failure. | A py record with FTVL STRING whose code returns `"ok"` raises INVALID CALC. | The status is 0 when exec succeeds, as for every other type. | not executed | PyRecord.CbStatusAsWritten, PyRecord.StringSuccessReportedAsFailure | PyRecord.CbStatus, PyRecord.Py.ProcessRecordCb |
