# pktdumper, modelled in Dafny

FFmpeg's `tools/pktdumper.c` demuxes a media file with libavformat and dumps
what it gets into files:
- every stream's codec extradata goes to its own file;
- every packet the demuxer returns goes to its own file, until the demuxer
  runs out or the limit `maxpkts` is reached.

Each file name is built from a template. The template is the base name of
the input path followed by a `printf` suffix of zero-padded conversions.
The tool also prints each file's suffix on standard output. Under `-n` it
writes nothing. Under `-w` it idles when done instead of exiting. The first
failed write ends the run with status 1.

This project models `main` of that tool.

- `PktDumper` (pktdumper.dfy) covers what happens before the input is
  opened:
  - the command line;
  - the base name: the last path component, cut to the 4096-byte buffer
    and then at its last `.`;
  - the checks that refuse a base holding `%` or too long for the template
    buffers;
  - the suffix constants;
  - the names and lines the two dump loops produce.
- `Printf` (printf.dfy) interprets the part of C's `printf` that the tool's
  format strings use:
  - literal text and `%%`;
  - `%0<width>d` with the length modifiers `l` and `ll`;
  - `%c` and `%s`;
  - `snprintf`'s cut to its buffer.
- `Decimal` (decimal.dfy) gives:
  - the digits of a `%d` conversion;
  - zero and space padding to a field width;
  - `atoi`.
- `CString` (cstring.dfy) gives `strrchr` and `av_strlcpy`.
- `DumpLoop` (dumploop.dfy) holds the run itself.
  - `Run` is a method with the two loops of the source. It follows the
    source step by step:
    - a `for` over the streams;
    - a `while` over the packets, with the `maxpkts` check after the
      increment and a `break`;
    - a return on the first failed write.
  - `Run` is proved equal to the reference definition `Behaviour`. That
    definition is a plan of steps (`Plan`: the extradata dumps, the template
    line, then the packet dumps), carried out by `Exec`.
- `Properties` (properties.dfy) states what a whole run does, over
  `Behaviour`.

The demuxer is an input value, `Input`:
- the results of `avformat_open_input` and `avformat_find_stream_info`;
- whether `av_packet_alloc` succeeded;
- each stream's extradata;
- the packets `av_read_frame` returns before its first negative result.

The run produces an `Outcome`: a trace of standard-output lines,
standard-error lines and files written, and how the process ends (an exit
status, or idling under `-w`). Which write attempts fail is a parameter,
`failing`: a set of attempt numbers, counted from 0 over all writes of the
run. A failed `write` returns -1.

## Model

| member | source | states |
|---|---|---|
| PktDumper.ParseArgs | tools/pktdumper.c:66-77 | A first argument starting with '-' is taken as flags: `donotquit` iff it contains 'w', `nowrite` iff it contains 'n', other characters ignored. Without a path after it the result is the usage error. A further argument is read with `atoi` as `maxpkts`, which is otherwise 0. |
| PktDumper.LastComponent | tools/pktdumper.c:79-80 | The result is the suffix of the path after its last '/', or the whole path when it has none; it holds no '/'. |
| PktDumper.BaseName | tools/pktdumper.c:78-82 | The base is a prefix of the last path component cut to 4095 characters, holds no '/', equals that cut component when it has no '.', and otherwise ends just before its last '.'. |
| CString.LastIndexOf | tools/pktdumper.c:79-82 | None exactly when the character is absent; otherwise the index of an occurrence with none after it. |
| CString.Strlcpy | tools/pktdumper.c:78-80 | The copy is a prefix of the source: the whole source when it fits, and otherwise exactly its first `size - 1` characters. |
| PktDumper.Rejection | tools/pktdumper.c:83-90 | The base is accepted iff it holds no '%' and its length plus `sizeof(PKTFILESUFF)` is below 4095. A '%' gives the '%' message, and is checked before the length, which gives "filename too long". An accepted base leaves room for either suffix and its NUL in a 4096-byte buffer. |
| PktDumper.PercentMessageText | tools/pktdumper.c:84 | The format's doubled '%%' prints as one '%'. |
| PktDumper.ZeroIntSpecs | tools/pktdumper.c:39-40 | The conversions of the two suffixes are `%02d`, `%06d`, `%08ld` and `%010ld`. |
| Decimal.Digits | tools/pktdumper.c:136-139 | The digits of a number are a non-empty digit string, with a leading '0' only for zero. |
| Decimal.DigitsRoundTrip | tools/pktdumper.c:136-139 | Reading back the digits of `n` gives `n`. |
| Decimal.PadIntShape | tools/pktdumper.c:39-40 | A padded field is as long as the width or the unpadded number, whichever is longer. Under the `0` flag the zeros go between the sign and the digits; otherwise spaces go before the sign. |
| Decimal.ZeroPadShape | tools/pktdumper.c:39-40 | A zero-padded field is at least the width and never shorter than the unpadded number. It starts with '-' iff the value is negative, and the rest is digits. |
| Decimal.AtoiZeroPad | tools/pktdumper.c:39-40 | Reading a zero-padded field back with `atoi` gives the value written, negative values included. |
| Printf.FormatLiteral | tools/pktdumper.c:39-40 | Format text without '%' is copied verbatim and consumes no argument. |
| Printf.ParseZeroInt | tools/pktdumper.c:39 | `%0<width><length>d` is read as the `0` flag, that width, that length modifier and conversion `d`, whatever follows it. |
| Printf.FormatZeroInt | tools/pktdumper.c:136-139 | A `%0<width>d` conversion writes its integer argument zero-padded to the width, then formats the rest with the remaining arguments. |
| Printf.FormatChar | tools/pktdumper.c:138 | `%c` writes its character argument. |
| Printf.FormatStr | tools/pktdumper.c:132 | `%s` writes its string argument verbatim, '%' included. |
| Printf.Snprintf | tools/pktdumper.c:136-138 | `snprintf` succeeds iff the format does. Its text is a prefix of the full text: all of it when that fits the buffer, and otherwise exactly its first `size - 1` characters. |
| Printf.ParseSpec | tools/pktdumper.c:39-40 | Reads a conversion specification after a '%': `0` flags, a decimal width, a length modifier `l` or `ll`, and the conversion character, consuming at least one and at most all of the characters left. |
| Printf.Convert | tools/pktdumper.c:136-140 | Reference text of one conversion: `%d` of an integer with its flag and width, a bare `%c` of a character, a bare `%s` of a string; anything else is outside the model (None). |
| Printf.Format | tools/pktdumper.c:117-140 | Reference text `printf` writes: ordinary characters copied, `%%` as '%', each conversion applied to the next argument, leftover arguments ignored, None for any specification outside the model. |
| PktDumper.FileName | tools/pktdumper.c:136-138 | A file name starts with the whole base and is a prefix of base plus suffix: all of it when that fits the buffer, and otherwise exactly its first 4095 characters. |
| PktDumper.ExtradataFormat | tools/pktdumper.c:40 | `EXTRADATAFILESUFF`, followed by any text without '%', expands to "_extradata_", the stream index zero-padded to 2, "_", the size zero-padded to 6 and ".bin", then that text. |
| PktDumper.PacketFormat | tools/pktdumper.c:39 | `PKTFILESUFF` expands to the pieces below, then any text without '%' that follows it: "_" and the packet number padded to 8; "_" and the stream index padded to 2; "_" and the pts padded to 10; "_" and the size padded to 6; then "_K" for a key frame or "__" otherwise; then ".bin". |
| PktDumper.ExtradataName | tools/pktdumper.c:110-118 | For an accepted base, the `snprintf` of the extradata template gives the base followed by the expanded suffix, cut to the buffer. The printed line is the suffix alone. |
| PktDumper.PacketName | tools/pktdumper.c:131-140 | For an accepted base, the `snprintf` of the packet template gives the base followed by the expanded suffix, cut to the buffer. The printed line is the suffix alone. |
| PktDumper.TemplateLine | tools/pktdumper.c:132 | The announcement prints the packet template verbatim between "FNTEMPLATE: '" and "'". |
| PktDumper.AcceptedNameMayBeCut | tools/pktdumper.c:87-90 | A base of 4063 characters passes the length check. Yet the name of packet 0 (36 suffix characters) does not fit the name buffer: it is cut to 4095 characters and loses the end of its suffix. |
| PktDumper.KeyChar | tools/pktdumper.c:138 | The flag character is 'K' when the key-frame bit is set and '_' otherwise. |
| PktDumper.ExtradataSuffix | tools/pktdumper.c:40 | Reference text of an extradata suffix: "_extradata_", the index zero-padded to 2, "_", the size zero-padded to 6, ".bin". |
| PktDumper.PacketSuffix | tools/pktdumper.c:39 | Reference text of a packet suffix: the packet number, stream index, pts and size zero-padded to 8, 2, 10 and 6, each after '_', then '_', the flag character and ".bin". |
| Decimal.PadInt | tools/pktdumper.c:39-40 | Reference text of a `%d` conversion with a field width, zero-padded after the sign or space-padded before it. |
| Decimal.Atoi | tools/pktdumper.c:77 | `atoi`: leading white space, an optional sign, then the longest run of digits, 0 when there is none. |
| DumpLoop.NonEmptyBelowStreams | tools/pktdumper.c:113-116 | The streams that get an extradata dump are exactly those with non-empty extradata, each once, in increasing index. |
| DumpLoop.ExtradataStepsInStreamOrder | tools/pktdumper.c:113-128 | The extradata dumps are one per stream with extradata, in stream order, each named after its own stream and size. |
| DumpLoop.ExtradataFiles | tools/pktdumper.c:113-128 | The j-th extradata file belongs to the j-th stream with extradata. It is named from that stream's index and extradata size and holds that extradata. |
| DumpLoop.DumpCount | tools/pktdumper.c:134-153 | With `maxpkts` 0 every packet is dumped. With a positive `maxpkts` at most that many, fewer only when the demuxer runs out first. With a negative one at most one, since the limit is checked after the increment. |
| DumpLoop.PacketDumpCount | tools/pktdumper.c:134-151 | Every packet step writes one file. |
| DumpLoop.PacketFiles | tools/pktdumper.c:134-151 | Packet i is dumped under packet number i (numbers run 0, 1, 2, … with no gap), to the name built from that number and the packet, holding the packet's payload. |
| DumpLoop.PlanFiles | tools/pktdumper.c:113-154 | The files of a run are the extradata files followed by the packet files; the template line writes none. |
| DumpLoop.ExecAppend | tools/pktdumper.c:113-154 | Carrying out two lists of steps in turn is carrying out their concatenation, with the write attempts of the second numbered on from the first. |
| DumpLoop.ExecFailedPrefix | tools/pktdumper.c:122-124 | Once a failed write has ended the run, the steps after it change nothing. |
| DumpLoop.ExecDryRun | tools/pktdumper.c:119 | Under `-n` every step's line is printed in order, nothing is written, and the run ends normally whatever would have failed. |
| DumpLoop.FirstFailure | tools/pktdumper.c:143-147 | The number of write attempts before the first failing one. Those attempts all succeed, and the next one fails unless none is left. |
| DumpLoop.ExecWrittenFiles | tools/pktdumper.c:119-149 | When writing, the files written are the steps' files in order, up to the first failed write attempt, and none after it. |
| DumpLoop.ExecWritingEnds | tools/pktdumper.c:141-147 | When writing, the run ends normally iff no attempt fails. Otherwise it exits with 1, and its last event is the report of the failed write. |
| DumpLoop.PlanExtradataFailed | tools/pktdumper.c:122-124 | A failed extradata write is the end of the run: no template line, no packet. |
| DumpLoop.PlanParts | tools/pktdumper.c:110-154 | The plan is carried out as the extradata loop, then the template line, then the packet loop, whose write attempts are numbered on from the extradata dumps. |
| DumpLoop.DumpOne | tools/pktdumper.c:119-127 | One file: its line is printed. Unless under `-n` the file is then written, or the failed write is reported and the run ends with status 1. |
| DumpLoop.ExtradataNames | tools/pktdumper.c:117-118 | The `snprintf` and `printf` of one extradata dump produce its file name and its line. |
| DumpLoop.PacketNames | tools/pktdumper.c:136-140 | The `snprintf` and `printf` of one packet dump produce its file name and its line. |
| DumpLoop.Announce | tools/pktdumper.c:131-132 | The `printf` of the template prints the announcement line. |
| DumpLoop.DumpExtradataFile | tools/pktdumper.c:116-127 | One stream with extradata is dumped as its plan step says. |
| DumpLoop.DumpPacketFile | tools/pktdumper.c:135-149 | One packet is dumped as its plan step says. |
| DumpLoop.DumpStreamExtradata | tools/pktdumper.c:113-129 | One iteration of the stream loop either carries the loop's invariant to the next stream or, on a failed write, yields the outcome of the whole loop. |
| DumpLoop.DumpNextPacket | tools/pktdumper.c:134-153 | One iteration of the packet loop either carries the loop's invariant to the next packet or, on a failed write, yields the outcome of the whole loop. |
| DumpLoop.DumpExtradata | tools/pktdumper.c:110-129 | The stream loop's trace and ending are those of the extradata dumps of the plan, and it counts the files it dumped. |
| DumpLoop.DumpPackets | tools/pktdumper.c:134-154 | The packet loop's trace and ending are those of the first `DumpCount(n, maxpkts)` packet dumps. |
| DumpLoop.DumpAll | tools/pktdumper.c:110-154 | The two loops with the announcement between them carry out the plan. |
| DumpLoop.Run | tools/pktdumper.c:53-162 | The main function's outcome is the reference `Behaviour` for every command line, input and set of failing writes. Up to the opening of the input, `Run` and `Behaviour` take the same branches, so that part of the equality is by construction; the proof work is in `DumpAll` against `Exec(Plan(...))`, and the promises about `Behaviour` are proved in `Properties`. |
| DumpLoop.ErrorLine | tools/pktdumper.c:94-106 | Reference text of a diagnostic: its prefix, then the error code as `%d` prints it, then a newline. |
| DumpLoop.StepOutcome | tools/pktdumper.c:116-149 | Reference outcome of one step: its line printed; for a dump, unless under `-n`, the file written, or the write error reported and exit status 1. |
| DumpLoop.Exec | tools/pktdumper.c:113-154 | Reference outcome of a list of steps: each step's outcome in turn until one ends the process, with write attempts numbered in order. |
| DumpLoop.Plan | tools/pktdumper.c:113-154 | Reference plan of a run: the extradata dumps, the template line, then the first `DumpCount` packet dumps. |
| DumpLoop.Behaviour | tools/pktdumper.c:53-162 | Reference outcome of a run: the usage error, the refused base, the three opening failures, or the plan carried out and finished under `-w`. |
| DumpLoop.Finish | tools/pktdumper.c:159-162 | Reference ending of a run that got to the end: idling for ever under `-w`, exit status 0 otherwise; a run that already failed keeps its status. |
| DumpLoop.USAGE | tools/pktdumper.c:42-51 | The six lines of the usage text, each on standard error. |
| Properties.UsageWritesNothing | tools/pktdumper.c:42-51 | Printing diagnostics and the usage text writes no file. |
| Properties.RefusedCommandLine | tools/pktdumper.c:74-90 | A usage error, or a base holding '%' or too long, ends the run with status 1 and writes nothing. The outcome depends neither on the input nor on the writes. |
| Properties.OpeningFailed | tools/pktdumper.c:92-108 | If the input cannot be opened or probed, or no packet can be allocated, the run prints one error line, writes nothing and exits with 1. |
| Properties.DryRunWritesNothing | tools/pktdumper.c:119-141 | Under `-n` no file is written and the outcome is the same whichever writes would fail. Once the input is open, the run prints the line of every step of the plan in order (each extradata line, the template line, each packet line) and exits with 0, or idles under `-w`. |
| Properties.DryRunOpened | tools/pktdumper.c:113-160 | A dry run with the input open prints exactly the plan's lines and writes nothing, ending normally or idling under `-w`. |
| Properties.WritesUpToFirstFailure | tools/pktdumper.c:113-162 | When writing, the files written are the extradata files then the packet files, in order, up to the first failed attempt. The run exits with 1 iff an attempt failed; otherwise it exits with 0, or idles under `-w`. |

## Left out

- The libavformat calls (`avformat_open_input`, `avformat_find_stream_info`, `av_packet_alloc`, `av_read_frame`, `av_packet_unref`/`av_packet_free`, `avformat_close_input`) are not modelled. Their results are the fields of `Input`, and the streams and packets they yield are given, not parsed.
- `av_read_frame`: an error and the end of the file are not told apart. Both end the packet loop and the run exits normally, as in the source.
- `open` and `close` are not modelled. A dump writes its whole payload or fails.
  - A file that `open` creates before its `write` fails does not appear in the trace.
  - `open` without `O_TRUNC` leaves the old tail of a longer existing file in place; this is not captured.
  - A short write (fewer bytes than asked, which the source treats as success) is not captured.
- Which write fails, and why, is not modelled: the set `failing` names the attempts that fail. Each failure prints the value `write` returns, -1, as the source does.
- The `-w` idle loop of `av_usleep` calls, entered after the packet is freed and the input closed, is the ending `WaitForever`. Freeing and closing leave no trace in the model.
- Order of output between standard output and standard error: the trace keeps program order; stdio buffering is not modelled.
- PktDumper.ParseArgs: `atoi` is read on unbounded integers. Its behaviour on overflow, undefined in C, is not modelled.
- `PRId64` is the constant "ld" of LP64 platforms. With "lld", `sizeof(PKTFILESUFF)` grows from 31 to 33, which lowers the longest accepted base by two.
- Strings are sequences of characters, not bytes: command-line arguments and names are not given an encoding, and a multi-byte character counts as one.
- `pktnum` is an unbounded counter; the 64-bit wrap-around after 2^63 packets is not modelled.
- `pkt->size` and `extradata_size` are the lengths of the payloads; the number of streams is the length of the extradata list.
