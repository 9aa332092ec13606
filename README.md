# chsmack in Dafny

A model of `chsmack`, the Smack userspace tool that reads and sets a file's
Smack labels. The labels are stored in the extended attributes
`security.SMACK64`, `security.SMACK64EXEC`, `security.SMACK64MMAP` and
`security.SMACK64TRANSMUTE`. The model covers the three parts of
`utils/chsmack.c`:

- **`leads` and C strings** (`cstrings.dfy`). Bytes are `int`s 0..255. C
  strings are byte sequences without NUL. `strncmp` is modelled byte by byte
  and proved equal to a prefix test. A `printf("%s")` of a buffer prints the
  bytes up to the first NUL.
- **The label validator `rules`** (`labels.dfy`), as two imperative
  `while` loops:
  - `RulesAsWritten` follows the source's loop, where `idx` moves past a
    character before the check that rejects it. It is proved against the
    predicate `AcceptedAsWritten`, which never rejects the last character,
    so `rules` accepts "a/" (see Findings).
  - `Rules` is the corrected loop. It is proved against the predicate
    `ValidLabel`, and the driver uses it.

  Both follow the code, not the comment above it:
  - `*` is rejected, but `"` and 0x1F are accepted;
  - the empty label is accepted.

  The source chooses whether `char` is signed, so that choice is the explicit
  parameter `signedChar`. When `char` is signed, bytes 0x80..0xFF are
  negative and are rejected by `ch < 0x1F`.
- **The option scan** of `main` (`args.dfy`). It is a `while` loop over
  `argv` that updates `access`, `execute`, `mm` and `transmute`. It is
  proved equal to a recursive specification. The specification mirrors the
  `if` chain of the source, including the NULL read from `argv[argc]` that
  follows a dangling `-a`, `-e` or `-m`.
- **The validate-then-execute driver** (`chsmack.dfy`). It works over an
  extended-attribute store (`xattr.dfy`), a class whose field is a
  `map<(path, name), bytes>`:
  - `lgetxattr` copies a value into a caller's `array` buffer;
  - `lsetxattr` either replaces the value or fails for the keys the store
    refuses.

  `Run` is proved equal to the function `RunOutcome`: exit status, reports,
  and the store afterwards. The lemmas in `properties.dfy` and
  `roundtrip.dfy` derive from it what a run promises:
  - a rejected run changes nothing;
  - labels are checked before any file is touched;
  - a query run changes nothing;
  - a write run touches only the requested attributes of the listed files,
    leaves every refused one as it was, stores what was asked, reports
    exactly the refused writes of requested attributes and still exits 0;
  - written labels read back.

Output is modelled as reports, not text:
- `Listing(path, found)` is one query line, with its ` key="value"` items in
  order;
- `WriteFailed(path, attr)` is one `perror` line;
- `Usage(error)` is the message printed before `exit(1)`.

## Model

| member | source | states |
|---|---|---|
| CStrings.LeadsIsPrefix | utils/chsmack.c:35-38 | `leads(in, lead)` holds exactly when `lead` is a prefix of `in` |
| CStrings.StrNEqualFromMatches | utils/chsmack.c:37 | `strncmp` over `strlen(lead)` bytes from position i agrees with equality of the remaining prefix |
| CStrings.After | utils/chsmack.c:91 | `argv[argi] + strlen(lead)` is the C string that, appended to the lead, gives back the argument |
| CStrings.UpToNul | utils/chsmack.c:145 | what `%s` prints from a buffer is a C string, a prefix of the buffer, and is followed by a NUL when shorter than the buffer |
| CStrings.UpToNulAtTerminator | utils/chsmack.c:143-145 | after `buffer[rc] = '\0'`, `%s` prints the first rc bytes up to their first NUL, whatever follows |
| CStrings.TerminatedPrintsBack | utils/chsmack.c:168-173 | a label stored with its terminating NUL prints back as the label |
| Labels.CharValue | utils/chsmack.c:61 | the value of `ch = label[idx]`: bytes below 0x80 unchanged, bytes from 0x80 negative exactly when `char` is signed |
| Labels.RulesAsWritten | utils/chsmack.c:49-74 | the loop exactly as written rejects a label iff it is longer than LSIZE, starts with '-', or has a forbidden character before its last one |
| Labels.Rules | utils/chsmack.c:49-74 | the corrected loop rejects iff the label is longer than LSIZE, starts with '-', or has a forbidden character anywhere |
| Labels.LongLabelRejected | utils/chsmack.c:33-57 | every label longer than 23 bytes is rejected, whatever its content |
| Labels.DashLabelRejected | utils/chsmack.c:59-72 | every label whose first byte is '-' is rejected |
| Labels.EmptyLabelAccepted | utils/chsmack.c:53-69 | the empty label is accepted: the loop never runs and `idx == len` |
| Labels.ForbiddenAsciiBytes | utils/chsmack.c:62-63 | among ASCII bytes exactly '/', '\', the single quote, '*', DEL and bytes below 0x1F are rejected; '"' and 0x1F pass |
| Labels.HighBytesFollowSignedness | utils/chsmack.c:51-63 | a byte from 0x80 passes exactly when `char` is unsigned |
| Labels.AsWrittenDiffersOnlyAtLastChar | utils/chsmack.c:60-69 | the loop as written accepts every valid label and wrongly accepts only labels whose last byte is forbidden |
| Labels.TrailingSlashAcceptedAsWritten | utils/chsmack.c:60-67 | "a/" is accepted by the loop as written although '/' is forbidden |
| Args.Classify | utils/chsmack.c:88-115 | an argument ends the option scan iff it is empty or does not start with '-'; an option takes up one or two arguments; the label values it yields are C strings |
| Args.ParseArgs | utils/chsmack.c:87-120 | the option loop yields the settings of the options in order and the first file, an "Invalid argument" exit, or a "No files specified" exit, as the scan specification says |
| Args.LaterOptionWins | utils/chsmack.c:87-105 | each label holds the value of the last option naming it; transmute is set iff some `-t`/`--transmute` was seen |
| Args.ParsedLabelIsLastOption | utils/chsmack.c:87-120 | the labels handed to validation are those of the last option naming each, or NULL |
| Args.ClassifyIgnoresFollowing | utils/chsmack.c:88-99 | only `-a`, `-e` and `-m` look at the next argument |
| Args.ScanIgnoresLaterArgs | utils/chsmack.c:106-115 | a scan that stops at a file name or at an unrecognised option reads no later argument |
| Args.LaterArgumentsAreFiles | utils/chsmack.c:111-115 | appending arguments after the first file name changes neither the settings nor where the files start, even for arguments starting with '-' |
| Args.ScanStopsAtOperand | utils/chsmack.c:106-115 | a scan that stops inside argv stops at an argument not starting with '-' |
| Args.FilesStartAtOperand | utils/chsmack.c:114-120 | the file list is non-empty and starts at an argument not starting with '-' |
| Args.ScanBeforeFilesHasValues | utils/chsmack.c:89-99 | every label option read before the scan ends inside argv has a value |
| Args.DanglingOptionMeansNoFiles | utils/chsmack.c:89-120 | `-a`, `-e` or `-m` as the last argument reads NULL, moves past argc, and ends in "No files specified" |
| Args.NotLongOption | utils/chsmack.c:90-104 | an argument whose second byte is not '-' matches no long option |
| Args.LeadsWith | utils/chsmack.c:90-91 | an argument made of a lead and a C string leads with the lead, and `argv[argi] + strlen(lead)` is that string |
| Args.DiffersAt | utils/chsmack.c:35-38 | an argument that differs from a lead at some byte does not lead with it |
| Args.ClassifyLongOptions | utils/chsmack.c:90-105 | `--access=V`, `--exec=V`, `--execute=V` and `--mmap=V` set their label to V and `--transmute` sets transmute, each taking up one argument; `--execute=` is not caught by the `--exec=` test |
| Args.BareDashRejected | utils/chsmack.c:106-110 | a bare "-" is an invalid argument |
| Args.BogusOptionRejected | utils/chsmack.c:106-110 | "--bogus" is an invalid argument |
| Args.OptionsWithoutFilesRejected | utils/chsmack.c:117-120 | no arguments, `-t` alone and a dangling `-a` all end in "No files specified" |
| Xattr.XattrStore.Get | utils/chsmack.c:141-142 | `lgetxattr` copies a value that fits into the front of the buffer and returns its length, leaving the rest of the buffer; otherwise it returns -1 |
| Xattr.XattrStore.Set | utils/chsmack.c:169-170 | `lsetxattr` replaces the value and returns 0, or returns -1 and changes nothing when the write is refused |
| Chsmack.FirstViolation | utils/chsmack.c:122-136 | no error iff every requested label is valid; otherwise the reported label is requested and invalid, and every label checked before it (access, mmap, execute) is valid |
| Chsmack.ReadIntoAsWritten | utils/chsmack.c:82-146 | with the source's LSIZE+1 buffer the read is in bounds only when the stored value is shorter than the buffer |
| Chsmack.ReadInto | utils/chsmack.c:141-146 | one read prints ` key="value"` with the stored bytes up to their NUL when `rc > 0`, and nothing otherwise |
| Chsmack.QueryFile | utils/chsmack.c:138-167 | one query line lists access, execute, mmap and transmute in that order, through the one buffer of `main` that every read reuses, and reads nothing into the store |
| Chsmack.WriteFile | utils/chsmack.c:168-191 | the requested attributes are written in order, labels with their NUL and transmute as "TRUE", and each failure is reported without stopping the rest |
| Chsmack.ProcessFiles | utils/chsmack.c:137-192 | the loop over the files: in query mode the store is unchanged and there is one line per file in order; otherwise the store and reports are those of writing each file in order |
| Chsmack.CheckLabels | utils/chsmack.c:122-136 | the label checks, in the order access, mmap, execute, yield exactly the first violation |
| Chsmack.Run | utils/chsmack.c:76-194 | the whole of `main`: its exit status, its reports and the store afterwards |
| ChsmackProperties.XattrNameInjective | utils/chsmack.c:141-188 | the four attribute names are distinct |
| ChsmackProperties.WriteOneFrame | utils/chsmack.c:168-191 | writing one file changes no key other than its requested attributes, and no key whose write is refused |
| ChsmackProperties.WriteAllFrame | utils/chsmack.c:137-192 | the write loop changes no key other than the requested attributes of the listed files, and no key whose write is refused |
| ChsmackProperties.WriteOneStores | utils/chsmack.c:168-191 | after writing one file each requested attribute that was not refused holds the written bytes |
| ChsmackProperties.WriteOneKeepsOtherPaths | utils/chsmack.c:168-191 | writing one file leaves every other path as it was |
| ChsmackProperties.WriteAllStores | utils/chsmack.c:137-192 | after the loop every requested attribute of every listed file holds the written bytes unless that write was refused, even when other writes failed |
| ChsmackProperties.WriteOneReports | utils/chsmack.c:168-191 | a refused write of a requested attribute is reported with the file |
| ChsmackProperties.WriteOneReportsOnlyRefused | utils/chsmack.c:168-191 | writing one file reports only refused writes of its requested attributes |
| ChsmackProperties.WriteAllReportsRefused | utils/chsmack.c:137-192 | every refused write of every listed file is reported |
| ChsmackProperties.WriteAllReportsOnlyRefused | utils/chsmack.c:137-192 | the write loop reports only refused writes of requested attributes of listed files |
| ChsmackProperties.WriteAllEffects | utils/chsmack.c:137-192 | the write loop changes only requested attributes of listed files and no refused one, stores the requested bytes wherever the write is not refused, reports every refused write, and reports nothing but refused writes of requested attributes of listed files |
| ChsmackProperties.RejectedRunChangesNothing | utils/chsmack.c:106-136 | the status is 1 exactly on an invalid argument, no files, or an invalid label; then the store is unchanged and one usage error is reported; otherwise the status is 0 |
| ChsmackProperties.BadLabelStopsBeforeAnyFile | utils/chsmack.c:122-136 | the first invalid label in the order access, mmap, execute is reported and no file is touched |
| ChsmackProperties.QueryChangesNothing | utils/chsmack.c:137-167 | a query run leaves the store unchanged and prints one line per file, in order |
| ChsmackProperties.WriteRunIsWriteLoop | utils/chsmack.c:137-193 | a run with valid labels and something to write is the write loop over the file list, with status 0 |
| ChsmackProperties.WriteRunEffects | utils/chsmack.c:137-193 | a write run exits 0 however many writes fail; it changes only requested attributes of listed files and no refused one, stores the requested bytes wherever the write is not refused, reports every refused write, and reports nothing but refused writes of requested attributes of listed files |
| RoundTrips.ValidLabelIsCStr | utils/chsmack.c:62-63 | a label the rules accept contains no NUL |
| RoundTrips.ClassifyShortOptions | utils/chsmack.c:88-103 | `-a`, `-e` and `-m` take the next argument as their label; `-t` takes none |
| RoundTrips.AccessWriteStores | utils/chsmack.c:168-173 | `chsmack -a L F` stores L and its NUL as F's access label and reports nothing |
| RoundTrips.QueryRun | utils/chsmack.c:137-167 | `chsmack F` prints F's query line and changes nothing |
| RoundTrips.WriteThenQueryShowsAccess | utils/chsmack.c:138-173 | after `chsmack -a L F`, `chsmack F` prints `access="L"` first |
| RoundTrips.ParseAllFour | utils/chsmack.c:87-116 | `-a A -e B -m C -t F` sets all three labels and transmute, and F is the first file |
| RoundTrips.ReadsBackLabel | utils/chsmack.c:141-146 | an attribute holding a label of at most 23 bytes and its NUL is printed as the label |
| RoundTrips.QueryAllFour | utils/chsmack.c:138-167 | a file holding the four attributes as chsmack writes them is listed with all four, in order |
| RoundTrips.WriteAllFourThenQuery | utils/chsmack.c:138-191 | after `chsmack -a A -e B -m C -t F`, `chsmack F` lists exactly access A, execute B, mmap C and transmute TRUE |
| RoundTrips.QueryUnlabelledFile | utils/chsmack.c:138-166 | a file with no Smack attribute is listed alone |
| RoundTrips.TooLongAccessLabelRejected | utils/chsmack.c:90-91 | `--access=L` with L longer than 23 bytes exits 1, names L, and changes no file |
| RoundTrips.WayTooLongLabelRejected | utils/chsmack.c:122-126 | the 38-byte access label "this-label-is-way-too-long-to-be-valid" exits 1 and changes nothing |
| RoundTrips.BogusOptionChangesNothing | utils/chsmack.c:106-110 | `--bogus` exits 1 with an invalid-argument report and changes nothing |
| RoundTrips.QueryBufferOverflowAsWritten | utils/chsmack.c:141-144 | after the tool writes a 23-byte label, the read returns 24 bytes, which leaves no room in the source's buffer for the terminator but fits the corrected one |
| RoundTrips.LongestLabelIsValid | utils/chsmack.c:43 | a 23-byte label of plain letters is valid |

## Left out

- The real `lgetxattr` and `lsetxattr` are not modelled: the store is a map. Symlinks are not followed and paths are not resolved: a path is only a key.
- Xattr.XattrStore.Get: every failure (missing attribute, value too large, missing file) is the one result -1. An empty stored value returns 0 and prints nothing, as in the source.
- Xattr.XattrStore.Set: which writes fail is a fixed set of keys given when the store is made. It stands in for permission errors and unsupported filesystems. A failure that depends on timing or on earlier writes is not modelled.
- The text of `fprintf`, `printf` and `perror` output, and stdio buffering, are not modelled. Output is a sequence of reports.
- `exit()` is not a process exit: a run returns its status.
- Chsmack.Run: through `Chsmack.CheckLabels` and `Chsmack.QueryFile` it uses the corrected `Rules` and the corrected query buffer (see Findings), so it does not show what the source does on the two inputs listed there. The as-written behaviour is modelled separately by `Labels.RulesAsWritten` and `Chsmack.ReadIntoAsWritten`.
- Arguments are C strings. An argument with an embedded NUL cannot reach `main`, so it is excluded.

## Findings

| source | as written | input that shows it | evidently intended | confidence | as-written member | corrected member |
|---|---|---|---|---|---|---|
| utils/chsmack.c:60-67 | `ch = label[idx++]` moves past the character before the `break`, so a forbidden last character leaves `idx == len` and the label is accepted | `chsmack -a a/ FILE` (also "/" and "foo*") | every character is checked, including the last | high; not executed | Labels.RulesAsWritten | Labels.Rules |
| utils/chsmack.c:82-144 | `char buffer[LSIZE + 1]` is read with size `LSIZE + 1`, then `buffer[rc] = '\0'` with `rc` up to `LSIZE + 1` | `chsmack -a aaaaaaaaaaaaaaaaaaaaaaa FILE` (23 bytes, stored with its NUL as 24), then `chsmack FILE` | a buffer of `LSIZE + 2` bytes, or a read size of `LSIZE` | high; not executed | RoundTrips.QueryBufferOverflowAsWritten | Chsmack.ReadInto |
