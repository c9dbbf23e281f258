# Verified model of the AI movie pipeline's video assembler

This project is a Dafny model of the deterministic core of an AI movie
production pipeline. The core is the `VideoAssembler` of
`video_assembler.py`, plus the small text rules of `movie_generator.py`
that name generated images. The model covers:

- **Edit decision list (EDL).** `create_edit_decision_list` turns a parsed
  shot list into an EDL. Shots are laid end to end from time 0 with a
  running sum. Each edit point points at `shots/shot_NNN.mp4`, and its
  transitions are copied or default to cut/cut. Module `Edl`; the loop is
  `Assembler.VideoAssembler.CreateEditDecisionList`.
- **Filtergraph.** `generate_ffmpeg_filter_complex` writes an FFmpeg
  filtergraph. There is one chain per edit point: `[i:v]copy[vi]`, or
  `[i:v]fade=t=in:st=0:d=1[vi]` when the in-transition is `fade`. A
  concat chain `[v0]...[vN-1]concat=n=N:v=1:a=0[outv]` follows, and the
  chains are joined with `;`. Module `FilterGraph` describes the graph as
  typed stages. Its reader for the filtergraph syntax of the FFmpeg
  filters documentation shows that the text reads back as exactly those
  stages.
- **Command lines.** `assemble_video` builds the FFmpeg command line,
  `add_audio_track` builds the muxing command line, and
  `generate_video_shot` computes the clip path. Module `FfmpegArgs` holds
  a reader that reads argument vectors the way FFmpeg's command line
  does: an option that takes a value consumes the next argument, any
  other argument of two or more characters starting with `-` is an
  option, and the rest are output files. The lemmas can then say which
  file is input i and when the last argument is the output file.
- **Image file names.** The concept-art, storyboard and character-sheet
  file names take the first k words (`str.split()`), drop every character
  outside `[a-zA-Z0-9_]`, join the words with `_` and lower-case the
  result. The storyboard framing phrase comes from `shot_styles`. Module
  `Filenames`.

The `VideoAssembler` is a class whose four directory fields are fixed at
construction. Its three loops are methods, each proved equal to a
specification function (`BuildEdl`, `Graph`, `AssembleArgv`), and the
properties are proved as lemmas about those functions. `Scenarios` works
through two complete examples:

- the three-shot list hard-coded in `create_shot_list`;
- a two-shot list whose second shot fades in.

Behaviour of the code worth noting:

- An empty timeline is not an error. The graph is then
  `concat=n=0:v=1:a=0[outv]` (`FilterGraph.EmptyGraph`).
- Durations are not validated. Zero or negative durations pass through
  unchanged.
- Missing `shots` or `project_name` keys default to an empty list and to
  `untitled`.

The muxing command of `add_audio_track` has 12 elements:
`ffmpeg -y -i <video> -i <audio> -c:v copy -c:a aac -shortest <output>`.

The default `shot_type` of `generate_storyboard` is `medium_shot`. That is
not a key of `shot_styles`, whose key is `medium`, so the default panel
gets the fallback phrase `medium shot` rather than
`medium shot, waist up` (`Filenames.DefaultShotTypeFraming`).

## Model

| member | source | states |
|---|---|---|
| Assembler.VideoAssembler.constructor | video_assembler.py:13-17 | the shots, audio and output directories are the project path joined with `shots`, `audio` and `output` |
| Assembler.VideoAssembler.CreateEditDecisionList | video_assembler.py:19-42 | the running-sum loop returns exactly `BuildEdl(shotList)`: version 1.0, the project name or `untitled`, and edit point k starts at the total duration of shots 0..k-1 |
| Edl.EdlHeader | video_assembler.py:24-31 | version is always `1.0`; the name is `project_name` when present and `untitled` otherwise; a list without `shots` gives an empty timeline |
| Edl.EdlTimelineShape | video_assembler.py:31-38 | one edit point per shot, in input order, with the shot number copied, the clip path `shots/shot_<Pad3(n)>.mp4`, and the transitions copied when present or cut/cut when absent |
| Edl.TimelineChains | video_assembler.py:30-40 | the first edit point starts at 0; each lasts exactly its shot's duration; each later one starts where the previous one ends; the last ends at the sum of all durations |
| Edl.TimelineStep | video_assembler.py:34-40 | edit point k starts where edit point k-1 ends |
| Edl.TimelineEnd | video_assembler.py:30-40 | the last edit point ends at the total duration of the shot list |
| Edl.TimelineExtend | video_assembler.py:39-40 | one loop step: the timeline of the first i+1 shots is that of the first i plus an edit point starting at their total duration, and the running total grows by shot i's duration |
| Edl.ClipPathDigits | video_assembler.py:36 | the clip path of a shot is `shots/shot_` + digits + `.mp4`, and the digits (at least three) read back as the shot number |
| Edl.ClipPathInjective | video_assembler.py:36 | distinct shot numbers never share a clip path |
| Strings.Pad3 | video_assembler.py:36 | `:03d` yields only digits, at least three of them, exactly three below 1000, and from 1000 up the plain decimal spelling with no padding |
| Strings.Pad3RoundTrip | video_assembler.py:36 | the zero-padded spelling reads back as the shot number |
| Strings.Pad3Wide | video_assembler.py:36 | shot numbers of 1000 or more are not truncated to three digits |
| Strings.Pad3Injective | video_assembler.py:36 | distinct numbers have distinct padded spellings |
| Strings.NatToString | video_assembler.py:54 | the decimal spelling of an index is nonempty, all digits, and has a leading zero only for 0 |
| Strings.NatToStringRoundTrip | video_assembler.py:54 | the index written into `[i:v]` and `[vi]` reads back as i |
| Assembler.VideoAssembler.GenerateFfmpegFilterComplex | video_assembler.py:44-62 | the loop and the concat step return exactly `Graph(edl.timeline)` |
| FilterGraph.GraphRoundTrip | video_assembler.py:44-62 | the graph text, split at `;` and each chain read as `[in]...filter[out]...`, gives back exactly the intended stages: one per edit point, then the concat stage |
| FilterGraph.GraphChain | video_assembler.py:49-60 | chain i reads `i:v` and writes `vi`; it applies `fade=t=in:st=0:d=1` exactly when the in-transition is `fade` and `copy` otherwise; the concat chain reads `vi` in position i |
| FilterGraph.GraphConcat | video_assembler.py:58-60 | the last chain reads `v0`..`vN-1` in order, applies `concat=n=N:v=1:a=0` with N the number of edit points, and writes `outv` |
| FilterGraph.EmptyGraph | video_assembler.py:58-62 | an empty timeline gives the graph `concat=n=0:v=1:a=0[outv]`, with no error |
| FilterGraph.ClipStageText | video_assembler.py:53-56 | the text of chain i is `[i:v]fade=t=in:st=0:d=1[vi]` for a fade-in and `[i:v]copy[vi]` otherwise |
| FilterGraph.RenderParse | video_assembler.py:54-60 | a chain whose labels and filter avoid `[`, `]` and `;` reads back as itself and contains no `;` |
| FilterGraph.StagesWellFormed | video_assembler.py:54-60 | every label and filter the assembler writes avoids `[`, `]` and `;` |
| Strings.JoinEnds | video_assembler.py:62 | `sep.join(parts)` is empty for no parts; otherwise it starts with the first part, followed by `sep` when there is a second, and ends with the last part (the same join builds the stem with `_`, movie_generator.py:53) |
| Strings.SplitJoin | video_assembler.py:62 | splitting a `;`-join at `;` gives back the parts when no part contains `;` |
| Assembler.VideoAssembler.AssembleVideo | video_assembler.py:64-86 | the command built for a shot list is `AssembleArgv` of the EDL that `create_edit_decision_list` returns |
| Assembler.VideoAssembler.AssembleCommand | video_assembler.py:69-86 | the command-building loop returns exactly `AssembleArgv(projectPath, edl, outputFilename)` |
| FfmpegArgs.AssembleArgvLayout | video_assembler.py:69-86 | for every EDL, including an empty one (13 arguments), the command has 13 + 2N arguments: `ffmpeg -y`, `-i <project>/<clip i>` at 2+2i and 3+2i for every i < N, then `-filter_complex <graph>`, the fixed encoder settings and `<project>/output/<name>` last |
| FfmpegArgs.AssembleArgvReads | video_assembler.py:69-86 | FFmpeg reads the command as overwrite, N inputs, the filtergraph, `-map [outv]`, libx264, preset medium, crf 23, and a last argument that is the output file exactly when the project path is empty or does not start with `-` (otherwise it reads as an option) |
| FfmpegArgs.AssembleInputs | video_assembler.py:72-73 | the inputs FFmpeg reads are the timeline's clips under the project directory, in timeline order |
| FfmpegArgs.InputIndexAlignment | video_assembler.py:72-77 | input i is the clip of shot i, and chain i of the graph reads input i's video, so input numbering and graph indices agree |
| FfmpegArgs.AddAudioArgv | video_assembler.py:97-105 | a 12-argument command, `ffmpeg` first and the output path last; whatever the paths, FFmpeg reads the video as input 0 and the audio as input 1 |
| FfmpegArgs.AddAudioArgvReads | video_assembler.py:97-105 | for any three paths, FFmpeg reads the muxing command as overwrite, input 0 the video, input 1 the audio, `-c:v copy`, `-c:a aac`, `-shortest`, and a last argument that is the output file exactly when the output path does not start with `-` and two or more characters |
| FfmpegArgs.VideoShotPath | video_assembler.py:123 | the path a generated shot is written to is the assembler's clip path under the project directory `output` |
| Filenames.Words | movie_generator.py:51 | `split()` gives nonempty words that contain no whitespace |
| Filenames.WordsCoverText | movie_generator.py:51 | the words of `split()` together are exactly the non-whitespace characters of the text, in order |
| Filenames.WordsAppend | movie_generator.py:51 | splitting text at a whitespace character splits its word list there |
| Filenames.Clean | movie_generator.py:52 | what `re.sub` leaves of a word holds only `[a-zA-Z0-9_]`, and a word made only of those characters is unchanged |
| Filenames.CleanKeepsOrder | movie_generator.py:52 | `re.sub(r'[^a-zA-Z0-9_]', '', w)` keeps a character exactly when it is in `[a-zA-Z0-9_]`, preserves order and distributes over concatenation |
| Filenames.Lower | movie_generator.py:53 | `.lower()` keeps the length and maps each capital `A`-`Z` to its small letter, leaving every other character as it is |
| Filenames.Stem | movie_generator.py:51-53 | the derived stem contains only `a-z`, `0-9` and `_`, and is empty when the description has no words or no word is kept |
| Filenames.StemIgnoresLaterWords | movie_generator.py:51 | text after the first k words does not change the stem |
| Filenames.ConceptArtFilename | movie_generator.py:51-53 | the name ends in `_concept.png` and everything before it is a safe stem character |
| Filenames.StoryboardFilename | movie_generator.py:98-100 | the name starts with the shot type verbatim and `_`, ends in `.png`, and the part between is safe stem characters |
| Filenames.CharacterFilename | movie_generator.py:134-136 | the name ends in `_character.png` and everything before it is a safe stem character |
| StemExamples.EmptyWordKeepsSeparator | movie_generator.py:52-53 | a word made only of removed characters still leaves its separator: `a - b` gives the stem `a__b` |
| Filenames.ShotFraming | movie_generator.py:76-84 | the framing phrase is the fallback `medium shot` exactly when the shot type is not in the table; `medium` gives `medium shot, waist up` |
| Filenames.DefaultShotTypeFraming | movie_generator.py:69-84 | the default shot type `medium_shot` is not in the table and gets the fallback phrase, which differs from that of `medium` |
| Scenarios.SampleTimeline | movie_generator.py:157-182 | the built-in three-shot list (5 s, 8 s, 3 s) gives edit points [0,5], [5,13] and [13,16] on `shot_001.mp4`..`shot_003.mp4`, all cut/cut |
| Scenarios.SampleGraph | video_assembler.py:44-62 | for that list the graph is the `;`-join of `[0:v]copy[v0]`, `[1:v]copy[v1]`, `[2:v]copy[v2]` and `[v0][v1][v2]concat=n=3:v=1:a=0[outv]` |
| Scenarios.FadeScenario | video_assembler.py:53-54 | a list without a name whose second shot fades in is named `untitled`; its second edit point runs from 5 to 8; and its graph is the `;`-join of a copy chain, `[1:v]fade=t=in:st=0:d=1[v1]` and a two-way concat |

## Left out

- Running FFmpeg (`subprocess.run`) and printing its success or failure
  are not modelled. The model stops at the argument vector.
- Reading the shot list from a JSON file is not modelled. The model takes
  the already-parsed document. A shot missing `shot_number` or `duration`
  (a `KeyError` in the code) cannot be expressed as a value here.
- A `transitions` entry without an `in` key, or one that is JSON `null`,
  is not modelled. Each transitions value here always has both kinds.
  The code would raise in `generate_ffmpeg_filter_complex`.
- A `"project_name": null` is not modelled: the code stores `None` as the
  EDL's name (video_assembler.py:26), where the model gives `untitled`
  (the model has no null value for a present key).
- A `"shots": null` is not modelled: the code raises `TypeError` when it
  iterates over `None` (video_assembler.py:31), where the model gives an
  empty timeline.
- Durations are whole numbers (`int`). JSON floats are not modelled, and
  neither are negative or non-integer shot numbers (`nat` here).
- The unused `inputs` list built in `generate_ffmpeg_filter_complex` has
  no effect on the result and is not modelled.
- `pathlib` normalisation is not modelled: every `Path(a) / b` is
  `a + "/" + b` (`Strings.PathJoin`). That agrees with Python only for a
  non-empty project path and a non-empty relative output filename, each
  with no empty or `.` parts and no trailing `/`, on a POSIX system. For
  other inputs Python differs:
  - the project path `""` gives `shots/...` where the model gives
    `/shots/...`;
  - project paths such as `"."`, `"./x"`, `"a//b"` and `"a/./b"` are
    normalised;
  - an absolute output filename replaces the `<project>/output` prefix
    (video_assembler.py:85), where the model keeps it;
  - the output filename `""` gives `<project>/output` where the model
    gives `<project>/output/`, and `"./m.mp4"`, `"d//m.mp4"` and
    `"m.mp4/"` are normalised where the model keeps them as written;
  - on Windows, `str(Path)` writes `\` as the separator.
- `add_audio_track` is modelled as a function of its three paths, because
  it reads no field of the assembler.
- `generate_video_shot`: only the clip path is modelled. The directory
  creation and the placeholder FFmpeg command are I/O.
- `generate_audio_track` is not modelled. Its output path depends on the
  clock (`time.time()`).
- The image generators' OpenAI and HTTP calls, file writes and prompt
  texts are not modelled. Only the file names and the framing lookup are.
  `os.path.join(os.getcwd(), ...)` depends on the process's working
  directory and is left out.
- `Filenames.Lower`: lower-casing is modelled for ASCII letters only. It
  is applied only to cleaned text, which holds nothing else.
- `Filenames.StoryboardFilename` puts the shot type in the name verbatim,
  as the code does; the shot type is not cleaned or lower-cased.
- The crew and agent orchestration, script and shot-list generation
  (`create_shot_list` beyond its data), `config.py` and `main.py` are not
  part of this model.
