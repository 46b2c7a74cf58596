# MediaSherlock, modelled in Dafny

MediaSherlock is a small command-line tool. Given one media file, it runs
`mediainfo --Output=JSON` on it and turns every video track and every audio
track into a one-line summary. It writes the lines to `mediainfo.txt` in the
temporary directory and opens that file in Notepad. This project models the
string and list logic around those external calls, and proves what it
promises:

- `convert.dfy` (module `Convert`): the table that turns MediaInfo's decimal
  display aspect ratios into conventional `W:H` labels.
- `outputs.dfy` (module `Outputs`): deleting the Matroska codec prefixes
  `V_`/`A_` (the regex `[VA]_` replaced everywhere). It also covers the
  pass-through branch of the bitrate formatter. Whether a bitrate is a
  number is decided by the grammar Rust's `f64` parser accepts.
- `media_info.dfy` (module `MediaInfo`): the loop over `media.track`. It
  applies the field defaults, the video and audio line formats, the
  five-character frame-rate precision and the "no track" placeholders. It
  also gives the error outcomes of `get_media_info`.
- `notepad.dfy` (module `Notepad`): the contents `create_temp_file` writes,
  how a failed create or write stops it, and the path it returns.
- `args_handler.dfy` (module `ArgsHandler`): how the argument list selects
  usage, version or processing a file. It also shows that `handle_args`
  returns `Ok` on every path that returns at all (see "Left out" for the
  panics of the Notepad launch).
- `wrappers.dfy` (module `Wrappers`): `Option` and `Result`.

External calls are inputs to the model. The outcome of running `mediainfo`
is a `CommandOutcome`: the process failed to start, or it exited with a
status and an output that parsed as JSON or did not. Each element of
`media.track` is a `Track` record of optional string fields. The file system
is a `FileSystem` value: the temporary directory, whether the file can be
created, and which write fails, if any. The floating-point rendering of a
numeric bitrate is a function parameter `kbps`.

The methods `MediaInfo.GetMediaInfo`, `Notepad.CreateTempFile` and
`ArgsHandler.HandleArgs` follow the source's loops and early returns. Each
is proved equal to a specification function (`MediaInfoOf`, `Report` and
`WritesDone`, `OutcomeOf`), and the lemmas state properties of those
functions.

## Model

| member | source | states |
|---|---|---|
| Convert.ConvertDisplayAspectRatio | src/format/convert.rs:4-25 | a listed raw ratio yields one of the conventional labels; any other string is returned unchanged |
| Convert.TableEntries | src/format/convert.rs:6-22 | each of the 19 listed ratios maps to its label, e.g. "1.778" to "16:9", "0.562" to "9:16", and both "1.600" and "8:5" to "16:10" |
| Convert.KnownRatiosChange | src/format/convert.rs:14-21 | a listed ratio is left unchanged exactly when it is "5:3": that is the table's only fixed point |
| Convert.NotInjective | src/format/convert.rs:14 | two different inputs get the same label, so the table is not injective |
| Convert.ExactMatchOnly | src/format/convert.rs:5-23 | matching is exact: "N/A", "", "1.78" and "1.7780" are passed through |
| Convert.LabelsAreFixed | src/format/convert.rs:5-24 | every label the table produces is mapped to itself |
| Convert.ConvertIdempotent | src/format/convert.rs:5-24 | converting a converted ratio again changes nothing |
| Outputs.RemovePrefixes | src/format/outputs.rs:22-25 | the output is no longer than the input, and the two lengths differ by an even number (two per deleted prefix) |
| Outputs.RemovePrefixesSubsequence | src/format/outputs.rs:23-24 | the output keeps characters of the input in their order: it is a subsequence |
| Outputs.NoPrefixUnchanged | src/format/outputs.rs:23-24 | a string with no `V_` and no `A_` substring is returned unchanged |
| Outputs.NoUnderscoreUnchanged | src/format/outputs.rs:23-24 | a string without `_` is returned unchanged |
| Outputs.NoPrefixLetterUnchanged | src/format/outputs.rs:23-24 | a string without upper-case V and A is returned unchanged |
| Outputs.CodecExamples | src/format/outputs.rs:22-25 | "V_MPEG4/ISO/AVC" becomes "MPEG4/ISO/AVC" and "A_AAC" becomes "AAC" |
| Outputs.OnlyUpperCasePrefixes | src/format/outputs.rs:23 | "v_" and "B_" are kept; "A_V_" loses both prefixes |
| Outputs.NotIdempotent | src/format/outputs.rs:23-24 | matches do not overlap and are found left to right: "VV__" gives "V_", so one pass is not idempotent |
| Outputs.RemovePrefixesConcat | src/format/outputs.rs:23-24 | if no `V_`/`A_` can straddle the seam, stripping a concatenation equals stripping each part |
| Outputs.FormatBitrate | src/format/outputs.rs:13-19 | a bitrate that does not parse as f64 is returned as it is; one that parses is rendered ending in " kb/s" |
| Outputs.ParsesAsFloat | src/format/outputs.rs:14 | the test `bitrate.parse::<f64>()`: an optional sign, then inf/infinity/nan in any case or a decimal number with optional point and exponent; never the empty string nor a lone sign |
| Outputs.FloatAlphabet | src/format/outputs.rs:14 | every character of a string that parses as f64 is a digit, a sign, '.', or a letter of e/inf/infinity/nan |
| Outputs.PassThroughOutsideAlphabet | src/format/outputs.rs:14-18 | a bitrate containing a character outside that alphabet is returned unchanged |
| Outputs.MissingBitratePassesThrough | src/format/outputs.rs:14-18 | the "N/A" default for a missing bitrate is returned as "N/A" |
| MediaInfo.Field | src/media/get_media_info.rs:27-38 | a present field gives its text; a missing one gives "N/A" |
| MediaInfo.Precision | src/media/get_media_info.rs:40-48 | `{:.5}` on a string keeps exactly its first five characters when it is longer, and keeps a shorter string whole |
| MediaInfo.VideoLine | src/media/get_media_info.rs:40-49 | the video line is "{codec}, {w}x{h}p, {dar}, {fr} FPS, {br}" with each field stripped of `V_`/`A_` on its own; dar is the converted ratio, fr the frame rate cut to five characters, br the formatted bitrate |
| MediaInfo.AudioLine | src/media/get_media_info.rs:54-59 | the audio line is "{codec}, {sr} kHz, {ch} ch, {br}" with each field stripped on its own |
| MediaInfo.Lines | src/media/get_media_info.rs:26-61 | the loop's list for one kind: there is exactly one line per track of that kind |
| MediaInfo.MediaInfoOf | src/media/get_media_info.rs:9-82 | what `get_media_info` returns; every `Ok` carries at least one entry in each list |
| MediaInfo.GetMediaInfo | src/media/get_media_info.rs:9-82 | the loop and placeholder pushes return exactly MediaInfoOf: an error when the command cannot run, or when it exits successfully and its output is not JSON; otherwise (a failed exit status included) the video and audio lines in track order, each list replaced by its placeholder when empty |
| MediaInfo.LinesConcat | src/media/get_media_info.rs:26-61 | the lines of a concatenation of track lists are the lines of the first list followed by those of the second, so track order is kept |
| MediaInfo.OtherTrackAddsNothing | src/media/get_media_info.rs:32-60 | a track of another type, such as "General", adds no line |
| MediaInfo.UntypedTrackIgnored | src/media/get_media_info.rs:27-60 | a track whose "@type" is missing, or is neither "Video" nor "Audio", adds no video line and no audio line |
| MediaInfo.LineAt | src/media/get_media_info.rs:26-61 | the line of the j-th track of a kind is at position j, so lines follow track order |
| MediaInfo.SummaryShape | src/media/get_media_info.rs:73-81 | with a track array, a list is exactly its placeholder when no track of that kind exists; otherwise it is the lines, one per track of that kind |
| MediaInfo.ErrorOutcomes | src/media/get_media_info.rs:19-71 | `Err` exactly when the command cannot run, or when it succeeded and its output is not JSON; `Ok` in every other case |
| MediaInfo.NoTrackArrayGivesPlaceholders | src/media/get_media_info.rs:21-25 | a failed exit status, or JSON without a `media.track` array, gives `Ok` with both placeholders |
| MediaInfo.StripSeparated | src/media/get_media_info.rs:49 | stripping text + separator + field strips the text and the field on their own, when the separator has no `_` and does not end in V or A |
| MediaInfo.StripVideoFormat | src/media/get_media_info.rs:40-49 | for any six field values, stripping the formatted video line equals joining the fields stripped one by one |
| MediaInfo.FrameRateTruncated | src/media/get_media_info.rs:41-46 | "23.976023976" is printed as "23.97"; "N/A" stays whole |
| MediaInfo.BareVideoLine | src/media/get_media_info.rs:27-49 | a video track without codec, size, ratio, frame rate and bitrate gives "N/A, N/AxN/Ap, N/A, N/A FPS, N/A" |
| MediaInfo.BareVideoText | src/media/get_media_info.rs:40-48 | a proof step of `BareVideoLine`: the video format filled with "N/A" in every field is the literal "N/A, N/AxN/Ap, N/A, N/A FPS, N/A" |
| MediaInfo.BareVideoTrack | src/media/get_media_info.rs:27-60 | a "Video" track without other fields gives that one video line and no audio line |
| Notepad.JoinPath | src/file/notepad.rs:10-11 | the path starts with the temporary directory and ends with the file name; a single '\\' is put between them exactly when the directory is not empty, does not end in a separator and is not a bare drive |
| Notepad.Report | src/file/notepad.rs:15-20 | the contents written for a list of entries, each followed by "\n": empty exactly when there is no entry, otherwise ending in a newline |
| Notepad.ReportAppend | src/file/notepad.rs:15-20 | writing one more entry appends that entry and one "\n" |
| Notepad.ReportConcat | src/file/notepad.rs:15-20 | the contents for video then audio are the video report followed by the audio report |
| Notepad.NewlineIndex | src/file/notepad.rs:16-19 | a helper of `SplitReport`, which reads the written contents back: the position of the first "\n", or the length when there is none |
| Notepad.SplitReport | src/file/notepad.rs:16-19 | each entry ends with exactly one "\n": splitting the contents at newlines gives the entries back when none contains "\n" |
| Notepad.WritesDone | src/file/notepad.rs:13-20 | counts the writes that succeed, which is fewer than attempted exactly when a write inside the range fails |
| Notepad.CreateTempFile | src/file/notepad.rs:9-23 | a create failure gives `Err` and nothing is written (no file is created, an existing one is left as it was); otherwise the file holds the entries written before the first failing write, each with "\n"; the result is `Err` if a write failed and the joined path otherwise |
| ArgsHandler.Dispatch | src/core/args_handler.rs:7-26 | usage exactly when the argument count is not 2; version exactly when it is 2 and `args[1]` is "-v" or "--version"; otherwise process the file `args[1]` |
| ArgsHandler.VersionFlagAlone | src/core/args_handler.rs:8-21 | the version flag counts only as the sole argument: ["mediasherlock", "-v", "x"] gives usage, and "-V" is taken as a file name |
| ArgsHandler.OutcomeOf | src/core/args_handler.rs:7-44 | what a run shows: usage exactly when the argument count is not 2, version exactly for a sole "-v"/"--version", and an opened report always at the joined temporary path |
| ArgsHandler.ReportOutcome | src/core/args_handler.rs:24-44 | processing a file: the media error exactly when `get_media_info` fails, the create error exactly when it succeeds and the file cannot be created, the write error exactly when the file is created and a write among the entries fails, and the opened report exactly when no write fails, holding the video report then the audio report |
| ArgsHandler.HandleArgs | src/core/args_handler.rs:7-47 | returns `Ok(())` on every path; what the user is shown (usage, version, media error, temp-file error, or the opened report) is OutcomeOf |
| ArgsHandler.SuccessfulRun | src/core/args_handler.rs:24-39 | when the file can be created and no write among the entries fails (a failing index at or past their count never runs), the opened file is at the joined path and holds the video report followed by the audio report, which splits back into exactly those lines |

## Left out

- Running `mediainfo`, `notepad.exe` and `nircmd`, and the one-second sleep
  (src/media/get_media_info.rs:10-14, src/file/notepad.rs:26-42). These are
  process calls; the command's result is the `CommandOutcome` input.
- JSON parsing with serde_json and `String::from_utf8_lossy`
  (src/media/get_media_info.rs:22-25). This is a foreign library. A track
  field that is present but not a JSON string reads as missing, as
  `as_str()` makes it. An element of `media.track` that is not an object is
  a `Track` whose fields are all missing.
- The numeric branch of `format_bitrate` (src/format/outputs.rs:15-16). It
  divides an f64, rounds it and prints it. That text is the `kbps`
  parameter; the model fixes only the " kb/s" suffix.
- `logo` (src/format/outputs.rs:5-10), the usage, version and error texts,
  and src/core/constants.rs: console output only. The constants file is not
  part of this model.
- Creating, deleting and locating files: `env::temp_dir`, `File::create`,
  `remove_file` and `to_string_lossy`. A failure to remove the file is only
  printed and changes no result, so it is not modelled.
- Notepad.CreateTempFile: a failing write adds nothing to the file. A real
  `write!` that fails may leave part of its line behind.
- Notepad.JoinPath: models `PathBuf::join` for a Windows build with a
  relative file name. Verbatim `\\?\` prefixes and the `/` separator of a
  Unix build are not modelled.
- The f64 parse test (`ParsesAsFloat`) follows the grammar Rust documents for `f64::from_str`
  (sign, `inf`/`infinity`/`nan` in any case, decimal digits with an optional
  point and exponent). Non-ASCII case folding is not modelled.
- ArgsHandler.HandleArgs: the `Ok(())` result and the `Opened` outcome assume
  that `notepad.exe` and `nircmd` both start. `open_file_in_notepad`
  (src/file/notepad.rs:26-42) calls `.expect` on both spawns, so the source
  panics when either is missing; `handle_args` then never returns and the
  report is never removed.
- src/main.rs only forwards the argument list to `handle_args`.
- target/doc/implementors/core/convert/trait.From.js: generated rustdoc data
  (a literal table and a registration hook), not program logic.
