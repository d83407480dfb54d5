# lt-comp and lt-print, modelled in Dafny

This project models the two command-line drivers of lttoolbox that sit
around its transducer binaries:

- **lt-comp** (`lttoolbox/lt_comp.cc`) compiles a dictionary into a letter
  transducer. Its `main` reads the options, takes a mode (`lr` or `rl`),
  the dictionary, the output file and an optional ACX file, probes the
  dictionary with libxml to choose the XML `Compiler` or the `AttCompiler`,
  refuses a left variant without a right one in `lr` (and the reverse in
  `rl`), runs the chosen front-end, then opens the output and writes to it.
- **lt-print** (`lttoolbox/lt_print.cc`) dumps a compiled file as text. Its
  `main` reads `-H`, takes the binary file and an optional output file,
  opens both, and reads the container. The container is an optional header
  (the marker `HEADER_LTTOOLBOX` and a little-endian 64-bit feature word
  checked against `LTF_UNKNOWN`), a counted list of letter codes, the
  alphabet, and a counted list of named transducers. These go into a
  `std::map` ordered by name. Every transducer is then shown in name order
  with a `--` line between consecutive ones.

Files:

| file | module | contents |
|---|---|---|
| `results.dfy` | `Results` | `Option` and `Result` |
| `getopt.dfy` | `Getopt` | option tokens as getopt returns them; last occurrence wins |
| `lt_comp.dfy` | `LtComp` | the options loop, the decision table of `main`, `main` as a method with its trace of calls |
| `bytes.dfy` | `Bytes` | bytes, `read_le` as `LittleEndian` with its inverse, `strncmp` |
| `ustring.dfy` | `UStrings` | UTF-16 strings and their `std::less` order, proved a strict total order |
| `table.dfy` | `SortedTable` | `std::map<UString, T>` as an ascending list of entries, with an independent dictionary semantics |
| `container.dfy` | `Container` | the binary layout as functions, and the reading loops of `main` as methods proved against them |
| `lt_print.dfy` | `LtPrint` | the options loop, the output loop, `main` as a method, and the properties of what it prints |

Each method that follows `main` step by step is proved equal to a reference
function: `RunLtComp` to `Decide`/`Effects`/`ExitOf`, `ReadArtifact` to
`Decode`, `Render` to `Listing`, and `RunLtPrint` to `PrintResult`. The
lemmas then state what those functions promise.

## Model

| member | source | states |
|---|---|---|
| LtComp.ParseOptions | lttoolbox/lt_comp.cc:85-144 | getopt's loop succeeds exactly when every option is one of a, v, l, r, m, H, V (-h and unknown options end in usage); each value option then holds the argument of its last occurrence and each flag is set iff given |
| LtComp.RunLtComp | lttoolbox/lt_comp.cc:146-249 | main's exit status and its sequence of parse, open and write calls are exactly those of the decision table for the same options, positionals, libxml probe and fopen result |
| LtComp.ArityRule | lttoolbox/lt_comp.cc:151-169 | with valid options, any positional count other than 3 or 4 ends in usage |
| LtComp.UnopenableDictionary | lttoolbox/lt_comp.cc:171-189 | when libxml cannot open the dictionary the program fails naming the dictionary (positional 2), whatever the mode token is |
| LtComp.FrontEndDetection | lttoolbox/lt_comp.cc:175-184 | a compilation happens only after the reader opened, and it uses the ATT front-end iff the first xmlTextReaderRead did not return 1 |
| LtComp.CompileExactly | lttoolbox/lt_comp.cc:151-232 | main reaches a compilation iff options are valid, there are 3 or 4 positionals, the reader opened, and the mode is lr without (-l and no -r) or rl without (-r and no -l) |
| LtComp.VariantChecks | lttoolbox/lt_comp.cc:193-219 | in lr the refusal happens iff -l is non-empty and -r empty; in rl iff -r is non-empty and -l empty; giving both is never refused |
| LtComp.ModeToken | lttoolbox/lt_comp.cc:229-232 | any mode other than exactly "lr" or "rl" ends in usage |
| LtComp.AcxRule | lttoolbox/lt_comp.cc:200-211 | the ACX file is parsed iff the mode is lr, the XML front-end is used and a non-empty fourth argument names it, and then it is parsed before the dictionary with the LR restriction |
| LtComp.Directions | lttoolbox/lt_comp.cc:193-228 | the plan's mode, input and output come from the positionals, and the last parsing call hands the front-end the direction of the mode token |
| LtComp.OptionsReachFrontEnds | lttoolbox/lt_comp.cc:73-144 | every call of the XML compiler runs with the last -a, -v, -l and -r arguments and with -m and -V as given, and every ATT parse with -H as given; the plan keeps the settings the options loop produced |
| LtComp.OutputLast | lttoolbox/lt_comp.cc:234-247 | the output file is opened straight after all of the plan's parse calls, which are exactly the trace before it, and at most the writer follows it; the call after it is the writer of the detected front-end; a failing run that opened the output failed on that open and made no further call |
| Bytes.LittleEndian | lttoolbox/lt_print.cc:140 | the value read from n little-endian bytes is below 256^n |
| Bytes.DecodeEncode | lttoolbox/lt_print.cc:140 | decoding the little-endian encoding of any value that fits gives the value back |
| Bytes.EncodeDecode | lttoolbox/lt_print.cc:140 | encoding a decoded byte string gives the same bytes back |
| Bytes.StrnEqualWithoutNul | lttoolbox/lt_print.cc:139 | strncmp over n bytes reports equality iff the first n bytes are equal, when the pattern has no NUL in them |
| UStrings.LessIsPrecedes | lttoolbox/lt_print.cc:133 | the map's key order (lexicographic on code units) holds iff the first difference is smaller or the first string is a proper prefix |
| UStrings.LessIrreflexive | lttoolbox/lt_print.cc:133 | no name comes before itself |
| UStrings.LessTransitive | lttoolbox/lt_print.cc:133 | the key order is transitive |
| UStrings.LessTotal | lttoolbox/lt_print.cc:133 | two different names are ordered one way and not the other |
| SortedTable.Insert | lttoolbox/lt_print.cc:167 | `transducers[name]` then filling it keeps the map ordered by name, adds the name, and maps it to the new transducer with every other entry unchanged |
| SortedTable.InsertAll | lttoolbox/lt_print.cc:164-170 | filling the map with the pairs read keeps it ordered and gives the same dictionary as assigning each pair in turn |
| SortedTable.InsertAllSnoc | lttoolbox/lt_print.cc:164-170 | filling in one more pair after the others is one more insertion |
| SortedTable.OverlayKeys | lttoolbox/lt_print.cc:164-170 | after the loop the map holds exactly the names read |
| SortedTable.OverlayUntouched | lttoolbox/lt_print.cc:164-170 | a name never read keeps its entry |
| SortedTable.OverlayLast | lttoolbox/lt_print.cc:164-170 | a name read more than once holds the transducer read for it last |
| SortedTable.OneEntryPerName | lttoolbox/lt_print.cc:133 | an ordered table has as many entries as distinct names |
| Container.Peek4 | lttoolbox/lt_print.cc:137-138 | the four-byte buffer holds the first four bytes of the file, zero-filled when the file is shorter |
| Container.ToCInt | lttoolbox/lt_print.cc:152 | storing the unsigned count in `int len` gives a value in the int range congruent to it, positive iff the count is below 2^31 and non-zero |
| Container.ReadCounted | lttoolbox/lt_print.cc:153-157 | a counted loop that succeeds reads exactly max(len, 0) values |
| Container.SkipHeader | lttoolbox/lt_print.cc:135-149 | the header step gives the same layout, body offset or error as the reference function `ReadHeader`: legacy at offset 0 when fgetpos fails or strncmp differs, else the feature word at bytes 4-12 and the LTF_UNKNOWN gate |
| Container.ReadLetters | lttoolbox/lt_print.cc:151-157 | reading the count and running the letter loop yields exactly the letter section: the set of the 16-bit truncations of the codes of the counted list, and the stream after them |
| Container.LetterLoop | lttoolbox/lt_print.cc:153-157 | the loop inserts max(len, 0) codes read one after the other into the set, or fails when one cannot be read |
| Container.ReadTransducers | lttoolbox/lt_print.cc:162-170 | reading the count and running the transducer loop yields exactly the transducer section: the ordered map built from the counted (name, transducer) pairs, and the stream after them |
| Container.TransducerLoop | lttoolbox/lt_print.cc:164-170 | the loop reads max(len, 0) names each followed by its transducer and fills the map with them in that order, or fails when one cannot be read |
| Container.Store | lttoolbox/lt_print.cc:167 | storing one more entry into the map filled with the pairs read so far gives the map filled with those pairs and the new one |
| Container.ReadArtifact | lttoolbox/lt_print.cc:135-170 | reading from fgetpos to the end of the transducer loop yields exactly the decoded container, or the first section that could not be read |
| Container.MarkerSeen | lttoolbox/lt_print.cc:137-139 | with a NUL-free marker, strncmp on the zero-filled buffer accepts exactly the files at least four bytes long that start with the marker |
| Container.HeaderedFile | lttoolbox/lt_print.cc:136-144 | a file made of the marker, a feature word and a body is refused with that feature word iff it is at least LTF_UNKNOWN, and otherwise decodes as its body |
| Container.LegacyFile | lttoolbox/lt_print.cc:145-148 | a file without the marker is decoded from its first byte |
| Container.EitherLayout | lttoolbox/lt_print.cc:136-148 | the same body with a known feature word in front decodes to the same result as the body alone |
| Container.NegativeCount | lttoolbox/lt_print.cc:152-153 | a count word of 2^31 or more reads no values |
| Container.TransducerTable | lttoolbox/lt_print.cc:162-170 | the decoded table is ordered by name, has one entry per distinct name, holds exactly the names read, and equals assigning each pair read in turn |
| LtPrint.ParseOptions | lttoolbox/lt_print.cc:66-93 | getopt's loop succeeds iff every option is -H; hfst is then set iff -H was given |
| LtPrint.Arguments | lttoolbox/lt_print.cc:95-120 | one or two positionals are accepted; the first names the input; output goes to a file iff a second, non-empty one is given |
| LtPrint.ListingShape | lttoolbox/lt_print.cc:176-184 | the listing has 2n-1 chunks for n transducers, the i-th text at position 2i and "--" at the odd positions |
| LtPrint.SeparatorCount | lttoolbox/lt_print.cc:176-184 | there are n-1 "--" lines and the last chunk is the last transducer |
| LtPrint.Penum | lttoolbox/lt_print.cc:174-175 | the decremented end iterator denotes an entry iff the map is non-empty |
| LtPrint.EmptyTableFile | lttoolbox/lt_print.cc:162-175 | a transducer count of zero (or one read as negative) decodes to an empty map, for which penum lies before the first entry |
| LtPrint.Render | lttoolbox/lt_print.cc:174-184 | the loop applies joinFinals to every entry in place and writes show's text of each in name order with "--" between consecutive ones, nothing for an empty map |
| LtPrint.RunLtPrint | lttoolbox/lt_print.cc:82-184 | main's outcome equals the reference outcome: usage, unopenable input, unopenable output, read failure on the already opened destination, or the listing on the chosen destination (an empty table prints nothing, see "## Left out") |
| LtPrint.PrintedListing | lttoolbox/lt_print.cc:162-184 | a successful run prints, in ascending name order and one per distinct name, show(joinFinals(t)) with the -H setting, separated by "--" |
| LtPrint.DecodedTableAscending | lttoolbox/lt_print.cc:133 | every decoded table is in ascending name order |
| LtPrint.OutputOpenedBeforeReading | lttoolbox/lt_print.cc:113-145 | a read failure, the unknown-features throw included, happens after the input and the chosen output file were opened, so a named output file has already been created or emptied |
| LtPrint.FailuresBeforeReading | lttoolbox/lt_print.cc:95-128 | usage and open failures happen before any byte of the input matters |

## Left out

- The dictionary front-ends (`Compiler::parse`, `parseACX`, `AttCompiler::parse`) and their writers are recorded as calls in a trace and are assumed to return; what they compile is not part of this model.
- libxml is reduced to what `main` observes: whether `xmlReaderForFile` gave a reader, and what the first `xmlTextReaderRead` returned. The error handler installation is not modelled.
- Opening files (`fopen`, `u_fopen`) and `fgetpos` are booleans supplied by the caller; `fsetpos` is the return to offset 0; closing files is not modelled.
- The usage and version texts, locale setup and the `_MSC_VER` output mode are not modelled; usage is an outcome.
- getopt itself is not modelled: options arrive as the tokens getopt returns, positionals as the arguments left after `optind`.
- `Compression::multibyte_read`, `Compression::string_read`, `Alphabet::read`, `Transducer::read`, `Transducer::joinFinals` and `Transducer::show` are declared in headers that are not part of this model. They are parameters (`Codecs`, `Renderer`), and their byte layouts and text formats are not modelled.
- `multibyte_read` is taken to yield an unsigned 32-bit value; a reader that cannot decode its value is a failure of the section it belongs to (`Truncated`), whereas the source's readers may instead throw or return garbage on a short file.
- `Transducer::read` is taken to replace whatever the entry held, so a name read twice keeps the last transducer.
- `HEADER_LTTOOLBOX` and `LTF_UNKNOWN` are defined in a header that is not part of this model, so they are parameters. The header lemmas that depend on strncmp stopping early ask for a marker without NUL bytes.
- A file with the marker but fewer than 8 bytes after it is a `Truncated(FeatureWord)` error; the source's `read_le` behaviour on a short read is not visible here.
- The uncaught `std::runtime_error` for unknown features ends the program; it is the outcome `ReadFailed(dest, UnknownFeatures(f))`, where `dest` is the output already opened.
- Bytes left after the last transducer are ignored, as in the source, and are not part of the decoded result.
- LtPrint.RunLtPrint: a table that decodes empty (a transducer count word of 0, or of 2^31 or more) gives `Printed(dest, [])`, an empty listing, whereas the source then decrements `begin()` (lttoolbox/lt_print.cc:174-175), whose behaviour is undefined; the model gives the corrected behaviour of the "## Findings" row.
- The in-place `joinFinals` is returned by `Render` as the updated table, but `main` discards it, so `RunLtPrint` keeps only the output.
- The printed output is a sequence of chunks (a transducer's text, or the "--" line); the character encoding of the UFILE is not modelled.

Two checks of `main` behave differently from what their option names suggest; the model follows the code:

- The usage error in mode `lr` is raised when `-l` is given without `-r` (the message reads "-l specified, but mode is lr"), and in mode `rl` when `-r` is given without `-l`. It is not raised when a right variant is given in `lr`.
- Detecting the ATT format looks only at the result of the first `xmlTextReaderRead`, not at the whole document.

## Findings

| source | as written | input that shows it | evidently intended | confidence | as-written member | corrected member |
|---|---|---|---|---|---|---|
| lttoolbox/lt_print.cc:174-175 | `penum = transducers.end(); penum--;` runs before the loop even when the map is empty, which decrements `begin()` (undefined behaviour) | a file whose transducer count word is 0, e.g. no letters, an empty alphabet and zero transducers | print nothing for an empty map without stepping before its first entry | not executed | LtPrint.EmptyTableFile | LtPrint.Render |
