# Context Free platform services (POSIX), modelled in Dafny

This project models `src-unix/posixSystem.cpp` of Context Free. That file holds the
POSIX implementation of the application's platform services:

- choosing the temporary-file directory;
- building the `mkstemps` template for a new temp file;
- enumerating the temp files already in the directory;
- joining a relative name onto the directory of a base path;
- reading the installed physical memory, clamped to a ceiling;
- normalizing UTF-8 file names to NFKC wide strings through two lazily opened ICU handles.

Each operating-system or ICU answer is an input: the environment, `stat`'s directories,
`readdir`'s listings, `mkstemps`, `sysconf`/`sysctl`, and the ICU calls. The UTF-8 decoding and
the NFKC mapping are uninterpreted functions. `Icu.Preflight` models ICU's calling convention
around them:

- a call entered with a failure status does nothing and returns 0;
- a result shorter than the destination is stored followed by a terminating 0;
- a result that fills the destination exactly reports `U_STRING_NOT_TERMINATED_WARNING`;
- a result that does not fit reports its full size and `U_BUFFER_OVERFLOW_ERROR`.

The string buffers `normalize` hands to ICU are modelled by their UTF-16 slots (`Retry`). The
first stage's `std::u16string` has one slot per element. The second stage's `std::wstring` is
passed to ICU as a UTF-16 buffer, so its layout is a parameter: one slot per element for a
16-bit `wchar_t`, two slots in either byte order for a 32-bit one.

Modules follow the components of the file:

- `Paths` (`relativeFilePath`, the "append '/' if missing" join)
- `TempFiles` (`tempFileDirectory`, `tempFileForWrite`, `findTempFiles`)
- `Memory` (`getPhysicalMemory`, the build-time platform choice as the `MemoryBuild` parameter)
- `Icu` (status codes, the ICU calling convention)
- `Retry` (string buffers as UTF-16 slots, the grow-and-retry loop as written and corrected)
- `Posix` (class `PosixSystem` with the two handles, `normalize` in both build variants, the destructor)

The naming constants `TempPrefixes`, `TempSuffixes`, `TempPrefixAll` and `MaximumMemory` come
from `abstractSystem`, which is not part of this model. They are parameters: the `TempNames`
datatype, whose `Valid()` says that every kind prefix begins with the shared prefix, and
`maximum`.

Points about the code that the model makes explicit:

- After `U_BUFFER_OVERFLOW_ERROR` the status is kept, so the retry returns nothing (see Findings).
- The normalized UTF-16 units are stored straight into the `std::wstring`'s storage. With a
  32-bit `wchar_t` two units share one element (see Findings).
- The destructor closes only the converter (`PosixSystem.Destroy`). The NFKC instance is an ICU
  singleton.
- On Linux a failing `sysconf` (-1) does not give 0. It wraps to a huge unsigned value that is
  clamped to the ceiling (`Memory.LinuxSysconfFailureReportsCeiling`).

## Model

The string buffers are modelled by these definitions, on which the rows below state properties:
`Retry.Fresh` (the string constructor, lines 256 and 274, slot by slot), `Retry.ResizeSlots`
(`resize`, lines 266-269 and 284-289, slot by slot), `Retry.Write` (the units an ICU call stores,
lines 258-261 and 276-280), `Retry.Element` and `Retry.Elements` (reading the string's elements back
over the UTF-16 slots, lines 276 and 285).

| member | source | states |
|---|---|---|
| `Paths.LastIndexOf` | src-unix/posixSystem.cpp:134-136 | None exactly when the character is absent; otherwise an index holding it with no occurrence after it (`rfind`) |
| `Paths.RelativeFilePath` | src-unix/posixSystem.cpp:129-141 | without a '/' in `base` the result is `rel`; otherwise it is `base` up to and including its last '/' followed by `rel`, with no '/' in the replaced tail |
| `Paths.RelativeFilePathTwice` | src-unix/posixSystem.cpp:129-141 | replacing the file name twice equals replacing it once when the first name holds no '/' (the directory prefix is preserved exactly) |
| `Paths.WithSlash` | src-unix/posixSystem.cpp:110-112 | the directory is kept as a prefix, the result ends in '/', and one character is added exactly when the directory did not already end in '/' |
| `TempFiles.Qualifies` | src-unix/posixSystem.cpp:88-90 | a probed variable is accepted exactly when it is set and `stat` reports it as a directory; the empty path never is |
| `TempFiles.FirstDirectory` | src-unix/posixSystem.cpp:87-91 | the chosen scratch directory is never empty (never null) |
| `TempFiles.FirstDirectoryPicksFirst` | src-unix/posixSystem.cpp:87-89 | when variable k names a directory and no earlier one does, its value is chosen |
| `TempFiles.FirstDirectoryFallsBack` | src-unix/posixSystem.cpp:90 | when no variable names an existing directory, "/tmp/" is chosen |
| `TempFiles.FirstDirectoryQualifies` | src-unix/posixSystem.cpp:87-91 | the result is "/tmp/" or the value of one of the probed variables that `stat` reports as a directory |
| `TempFiles.TempFileDirectory` | src-unix/posixSystem.cpp:83-92 | the step-by-step reassignment of `tmpenv` yields the first of TMPDIR, TEMP, TMP that names a directory, else "/tmp/" |
| `TempFiles.Filled` | src-unix/posixSystem.cpp:119-122 | `mkstemps` replaces exactly the six placeholder characters before the suffix with its fill and changes nothing else |
| `TempFiles.TempFileForWrite` | src-unix/posixSystem.cpp:107-127 | `mkstemps` gets the template dir, '/' if missing, kind prefix, "XXXXXX", kind suffix, and the suffix length; on failure no stream and `nameOut` unchanged; on success the descriptor and the template with its six placeholders filled in |
| `TempFiles.Matching` | src-unix/posixSystem.cpp:157-158 | the filter by the shared prefix keeps no more entries than were listed |
| `TempFiles.MatchingConcat` | src-unix/posixSystem.cpp:157-164 | filtering distributes over concatenation of listings, so the kept names stay in directory-read order |
| `TempFiles.MatchingMembers` | src-unix/posixSystem.cpp:158 | a name is kept exactly when it is listed and starts with the shared prefix |
| `TempFiles.Joined` | src-unix/posixSystem.cpp:159-162 | one path per name, each the directory, one '/' if missing, then the name |
| `TempFiles.FindTempFiles` | src-unix/posixSystem.cpp:149-167 | the result is the directory joined to each listed entry with the shared prefix, in read order, and empty when the directory cannot be opened |
| `TempFiles.CreatedFileIsFound` | src-unix/posixSystem.cpp:110-115 | a name built for any kind, once listed in the directory, is among the paths enumeration returns |
| `Memory.ToUint64` | src-unix/posixSystem.cpp:176 | conversion to 64-bit unsigned keeps values in range and wraps negatives by 2^64 |
| `Memory.SysctlAnswer` | src-unix/posixSystem.cpp:192-207 | the `sysctl` answer is read in the key's width (64-bit for HW_MEMSIZE and HW_PHYSMEM64, an `unsigned int` otherwise) and is none exactly when the call fails |
| `Memory.Reading` | src-unix/posixSystem.cpp:172-207 | the value held before the clamp: the wrapped product of the `sysconf` answers on Linux, the `sysctl` answer for the selected key in that key's width, none without a mechanism or when `sysctl` fails; always below 2^64 |
| `Memory.PhysicalMemory` | src-unix/posixSystem.cpp:169-214 | never above the ceiling; readings at or below it are returned unchanged, readings above it give the ceiling, no reading gives 0 |
| `Memory.PhysicalMemoryUndetermined` | src-unix/posixSystem.cpp:172-213 | 0 under NOSYSCTL, without `sysconf` keys, without CTL_HW or a memory key, and when `sysctl` fails |
| `Memory.LinuxReportsProduct` | src-unix/posixSystem.cpp:176-179 | on Linux a page count times page size at or below the ceiling is reported exactly |
| `Memory.LinuxSysconfFailureReportsCeiling` | src-unix/posixSystem.cpp:176-179 | a `sysconf` page count of -1 wraps around and is reported as the ceiling, not 0 |
| `Memory.ThirtyTwoBitKeyBelow2To32` | src-unix/posixSystem.cpp:196-211 | with the FreeBSD or DragonFly key, whose answer is held in an `unsigned int`, the result is that answer up to the ceiling, and below 2^32 |
| `Icu.Preflight` | src-unix/posixSystem.cpp:258-261 | an ICU call entered with a failure status returns 0 and writes nothing; otherwise it reports the full required size, stores a shorter result with a terminating 0, signals the not-terminated warning on an exact fit, and signals overflow exactly when the result exceeds the capacity, storing at most a prefix |
| `Retry.FreshReadsBlanks` | src-unix/posixSystem.cpp:274 | read element by element in any layout, `std::wstring(n, L' ')` (and the `u16string` at line 256) is n blanks followed by the 0 terminator, so the layout's byte order really reads the blank slots back as `L' '` |
| `Retry.ResizeReads` | src-unix/posixSystem.cpp:284-289 | read element by element, `resize(n, L' ')` keeps the first n elements (all of them when growing), adds blanks, and ends with the 0 terminator |
| `Retry.KeptSlots` | src-unix/posixSystem.cpp:274-291 | the slots of the `\|w\|` elements kept after the last call: the units, then the terminating 0 and blank slots when an element has two slots; exactly the units with one slot per element |
| `Retry.AsWrittenOutcome` | src-unix/posixSystem.cpp:257-290 | the loop as written: an incoming failure does nothing, and raises the error unless it is the overflow status; a failing conversion raises the error; a result at most one unit longer than the buffer is kept with a non-failure status; a longer one leaves the empty string and the overflow status |
| `Retry.GrowAndRetryAsWritten` | src-unix/posixSystem.cpp:275-290 | run on the buffer's slots, the loop as written ends as `AsWrittenOutcome` says, after one or two calls |
| `Retry.GrowAndRetry` | src-unix/posixSystem.cpp:257-271 | with the status cleared after an overflow: at most two calls, the conversion error exactly when the conversion fails, otherwise a string of the result's length whose slots are `KeptSlots` of the result; an incoming failure status is handled as in the source |
| `Retry.Widen` | src-unix/posixSystem.cpp:284-286 | the intended result: one wide character per UTF-16 unit of the normal form, of the same value |
| `Retry.NarrowElementsWiden` | src-unix/posixSystem.cpp:256-271 | with one slot per element, the kept elements are exactly the units widened, so the first stage's string holds the decoded units |
| `Retry.PackedPairs` | src-unix/posixSystem.cpp:276-285 | with a little-endian 32-bit `wchar_t`, kept element e is unit 2e plus 65536 times unit 2e+1 |
| `Retry.PackedIsNotWidened` | src-unix/posixSystem.cpp:276-285 | with a little-endian 32-bit `wchar_t`, a result of two or more units whose second unit is not 0 is not returned unit for unit |
| `Retry.PackedAb` | src-unix/posixSystem.cpp:276-285 | with a little-endian 32-bit `wchar_t`, "ab" is kept as the elements 0x00620061 and 0 |
| `Posix.Pipeline` | src-unix/posixSystem.cpp:255-291 | the intended two stages: never fatal; the conversion error exactly when decoding or normalizing fails; otherwise the normal form, one wide character per unit of the same value |
| `Posix.PipelineAsWritten` | src-unix/posixSystem.cpp:255-291 | the two stages as written: never fatal; the conversion error exactly when decoding fails, or when its result fits and normalizing fails; a decoding two or more units longer than the name gives the empty string |
| `Posix.AsWrittenAgreesWhenFitting` | src-unix/posixSystem.cpp:255-291 | when neither stage's result outgrows its buffer by two units and `wchar_t` takes one slot, the code as written gives the intended result |
| `Posix.AsWrittenLosesLongForms` | src-unix/posixSystem.cpp:274-290 | as written, a name whose normal form is two or more units longer than its UTF-16 form gives the empty string without an error, for every layout |
| `Posix.PosixSystem.constructor` | src-unix/posixSystem.cpp:216-219 | both handles start null and no error has been reported |
| `Posix.PosixSystem.Destroy` | src-unix/posixSystem.cpp:221-225 | the destructor passes the converter, when set, to `ucnv_close`, and nothing else |
| `Posix.PosixSystem.OpenHandles` | src-unix/posixSystem.cpp:241-253 | a handle is opened only when null and never replaced; the normalizer is not asked for once the converter is missing; the missing handle is named ("No Converter" before "No Normalizer"), and none is missing exactly when both could be had |
| `Posix.PosixSystem.Normalize` | src-unix/posixSystem.cpp:238-292 | the corrected `normalize`: the handles as `OpenHandles` leaves them, a missing one fatal; with both, the decoded, NFKC-normalized text one wide character per unit, or the conversion error, independent of earlier calls |
| `Posix.PosixSystem.NormalizeAsWritten` | src-unix/posixSystem.cpp:238-292 | `normalize` as written, for a given `wchar_t` layout: the handles as in `Normalize`; with both, the as-written loops in both stages, the second entered with the status the first left, and the elements read from the wide buffer |
| `Posix.PosixSystem.NormalizeVerbatim` | src-unix/posixSystem.cpp:227-236 | the NONORMALIZE build: the UTF-16 units copied one for one into the wide string, same length and values |
| `Posix.LigatureLostAsWritten` | src-unix/posixSystem.cpp:274-290 | as written, normalizing U+FB03 (UTF-8 EF AC 83, one unit, NFKC "ffi") returns the empty string without an error |
| `Posix.LigatureKept` | src-unix/posixSystem.cpp:274-290 | the corrected `normalize` returns "ffi" for U+FB03 |
| `Posix.AbPackedAsWritten` | src-unix/posixSystem.cpp:274-291 | as written, with a little-endian 32-bit `wchar_t`, `normalize` of "ab" returns the two elements 0x00620061 and 0 |
| `Posix.AbKept` | src-unix/posixSystem.cpp:274-291 | the corrected `normalize` returns "ab" for "ab" |

## Left out

- `src-cs/CppWrapper/TrackPoint.cpp`: Win32 cursor and pixel calls, outside the POSIX services.
- `clearAndCR`: terminal output only.
- `catastrophicError`: printing and `exit(33)`. It appears only as the `Fatal` outcome of `Normalize`.
- `CfdgError::Error`: an exception. It appears only as the `ConversionError` outcome and the `failed` result.
- `deleteTempFile`: a bare `remove` call. The model has no file-system state, so "a deleted file is no longer enumerated" is not stated.
- The real `getenv`, `stat`, `opendir`/`readdir`, `mkstemps`, `sysconf` and `sysctl`: their answers are inputs. `stat` of the empty path is taken to fail.
- Uniqueness of the names `mkstemps` picks, and the atomic create: the operating system guarantees these.
- The `boost::fdostream` wrapper: the stream is its descriptor.
- The UTF-8 decoding and NFKC normalization themselves (Unicode Standard Annex #15): uninterpreted. So NFKC idempotence and "ASCII comes back unchanged" are not stated.
- Posix.PosixSystem.Normalize: uses the corrected loop `Retry.GrowAndRetry` for both stages and reads the normal form back one unit per wide character (see Findings). The code as written is `Posix.PosixSystem.NormalizeAsWritten`.
- Posix.PosixSystem.OpenHandles: a warning status left by a successful `ucnv_open` is not modelled. The status stays U_ZERO_ERROR after a successful open.
- Icu.Preflight: the destination's contents after an overflow are unspecified; the model stores the part that fits. No result depends on these slots, since the retry overwrites them or the string is cut to nothing.
- Strings with embedded NUL characters: `strdup`, `strncmp` and `getenv` would stop at them, and the model does not.
- The `static_cast<std::size_t>` of the clamped value: the ceiling is taken to fit in `size_t`.
- The `static_cast<int32_t>` of the lengths and capacities passed to ICU (lines 259-260 and 278-279): names of 2^31 units or more, for which the cast wraps, are not modelled; lengths are unbounded naturals.

## Findings

| source | as written | input that shows it | evidently intended | confidence | as-written member | corrected member |
|---|---|---|---|---|---|---|
| src-unix/posixSystem.cpp:275-290 | after `U_BUFFER_OVERFLOW_ERROR` the status is not cleared, so the retry called with that status returns 0 and the string is resized to 0, with no error raised; the same holds for the loop at 257-271 and for a stage entered with that status | the name U+FB03 (UTF-8 EF AC 83): one UTF-16 unit, NFKC "ffi" needs 3 units, capacity 2; `normalize` returns "" (`Posix.LigatureLostAsWritten`) | the retry into the buffer of the reported size produces the full normalized text "ffi" (`Posix.LigatureKept`) | not executed | `Retry.GrowAndRetryAsWritten` | `Retry.GrowAndRetry` |
| src-unix/posixSystem.cpp:274-291 | the NFKC result is written as UTF-16 units into the storage of a `std::wstring` of `ret.length()` elements, and `resize(sz)` keeps `sz` elements; with a 32-bit `wchar_t` two units share an element and the terminating 0 and blank halves fill the rest | "ab" with a little-endian 32-bit `wchar_t`: `normalize` returns the elements 0x00620061 and 0 (`Posix.AbPackedAsWritten`, `Retry.PackedAb`) | one wide character per unit, "ab" returned as "ab" (`Posix.AbKept`) | not executed | `Posix.PosixSystem.NormalizeAsWritten` | `Retry.Widen` |
