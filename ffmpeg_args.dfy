/**
  * The FFmpeg argument vectors the assembler builds: the assembly command
  * of `assemble_video`, the muxing command of `add_audio_track`, and the
  * clip path of `generate_video_shot`. `ReadArgs` reads an argument vector
  * the way FFmpeg's command line does (an option that takes a value
  * consumes the next argument; any other argument of two or more
  * characters starting with `-` is an option, never a file; anything else
  * is an output file), so the lemmas can state which file becomes input i
  * and when the last argument is the output file.
  */
module FfmpegArgs {
  import opened Strings
  import opened Edl
  import opened FilterGraph

  /** The clip files of a timeline, under the project directory, in order. */
  function ClipInputs(projectPath: string, timeline: seq<EditPoint>): (r: seq<string>)
    ensures |r| == |timeline|
    ensures forall i :: 0 <= i < |timeline| ==> r[i] == PathJoin(projectPath, timeline[i].filePath)
  {
    seq(|timeline|, i requires 0 <= i < |timeline| => PathJoin(projectPath, timeline[i].filePath))
  }

  /** `-i p0 -i p1 ...` */
  function InputArgs(paths: seq<string>): (r: seq<string>)
    ensures |r| == 2 * |paths|
  {
    if paths == [] then [] else ["-i", paths[0]] + InputArgs(paths[1..])
  }

  const EncodeSettings: seq<string> :=
    ["-map", "[outv]", "-c:v", "libx264", "-preset", "medium", "-crf", "23"]

  /** The command `assemble_video` runs for an EDL. */
  function AssembleArgv(projectPath: string, edl: EditDecisionList, outputFilename: string): seq<string>
  {
    ["ffmpeg", "-y"]
    + InputArgs(ClipInputs(projectPath, edl.timeline))
    + ["-filter_complex", Graph(edl.timeline)]
    + EncodeSettings
    + [PathJoin(PathJoin(projectPath, "output"), outputFilename)]
  }

  /** What the command line of one FFmpeg argument means. */
  datatype Arg =
    | Switch(name: string)
    | Opt(name: string, value: string)
    | Unknown(name: string)      // an option the assembler never writes
    | Positional(value: string)

  /** FFmpeg reads an argument as an option when it starts with `-` and has
      at least two characters (a lone `-` names standard input or output). */
  predicate LooksLikeOption(a: string) { |a| >= 2 && a[0] == '-' }

  const ValueOptions: set<string> := {"-i", "-filter_complex", "-map", "-c:v", "-c:a", "-preset", "-crf"}
  const Switches: set<string> := {"-y", "-shortest"}

  /** Reads the arguments that follow the program name. */
  function ReadArgs(args: seq<string>): seq<Arg>
    decreases |args|
  {
    if args == [] then []
    else if args[0] in ValueOptions && |args| >= 2 then [Opt(args[0], args[1])] + ReadArgs(args[2..])
    else if args[0] in Switches then [Switch(args[0])] + ReadArgs(args[1..])
    else if LooksLikeOption(args[0]) then [Unknown(args[0])] + ReadArgs(args[1..])
    else [Positional(args[0])] + ReadArgs(args[1..])
  }

  /** How a final argument, with nothing after it, reads: an output file
      exactly when it does not look like an option. */
  function LastArg(a: string): (r: Arg)
    ensures r == Positional(a) <==> !LooksLikeOption(a)
  {
    if a in Switches then Switch(a)
    else if LooksLikeOption(a) then Unknown(a)
    else Positional(a)
  }

  /** The input files, in the order FFmpeg numbers them. */
  function InputsOf(parsed: seq<Arg>): seq<string>
  {
    if parsed == [] then []
    else if parsed[0].Opt? && parsed[0].name == "-i" then [parsed[0].value] + InputsOf(parsed[1..])
    else InputsOf(parsed[1..])
  }

  function InputOpts(paths: seq<string>): (r: seq<Arg>)
    ensures |r| == |paths| && forall i :: 0 <= i < |paths| ==> r[i] == Opt("-i", paths[i])
  {
    seq(|paths|, i requires 0 <= i < |paths| => Opt("-i", paths[i]))
  }

  /** The command `add_audio_track` runs: copy the video stream, encode the
      audio as AAC, stop at the shorter input. Whatever the three paths
      are, FFmpeg reads the video as input 0 and the audio as input 1. */
  function AddAudioArgv(videoPath: string, audioPath: string, outputPath: string): (r: seq<string>)
    ensures |r| == 12 && r[0] == "ffmpeg" && r[|r| - 1] == outputPath
    ensures InputsOf(ReadArgs(r[1..])) == [videoPath, audioPath]
  {
    var r := ["ffmpeg", "-y", "-i", videoPath, "-i", audioPath,
              "-c:v", "copy", "-c:a", "aac", "-shortest", outputPath];
    AddAudioReads(videoPath, audioPath, outputPath);
    r
  }

  lemma {:induction false} AddAudioReads(videoPath: string, audioPath: string, outputPath: string)
    ensures var r := ["ffmpeg", "-y", "-i", videoPath, "-i", audioPath,
                      "-c:v", "copy", "-c:a", "aac", "-shortest", outputPath];
            InputsOf(ReadArgs(r[1..])) == [videoPath, audioPath]
  {
    var r := ["ffmpeg", "-y", "-i", videoPath, "-i", audioPath,
              "-c:v", "copy", "-c:a", "aac", "-shortest", outputPath];
    var settings := ["-c:v", "copy", "-c:a", "aac", "-shortest", outputPath];
    var paths := [videoPath, audioPath];
    assert InputArgs(paths) == ["-i", videoPath, "-i", audioPath] by {
      assert paths[1..] == [audioPath];
      assert paths[1..][1..] == [];
    }
    assert r[1..] == ["-y"] + (InputArgs(paths) + settings);
    ReadSwitch("-y", InputArgs(paths) + settings);
    ReadInputArgs(paths, settings);
    var parsed := [Switch("-y")] + (InputOpts(paths) + ReadArgs(settings));
    assert parsed[1..] == InputOpts(paths) + ReadArgs(settings);
    InputsOfInputOpts(paths, ReadArgs(settings));
    AudioSettingsRead(outputPath);
  }

  /** How FFmpeg reads the muxing command: overwrite, the video and the
      audio as inputs 0 and 1, copy the video stream, encode the audio as
      AAC, stop at the shorter input, and then the last argument, which is
      the output file exactly when it does not start with `-`. */
  lemma {:induction false} AddAudioArgvReads(videoPath: string, audioPath: string, outputPath: string)
    ensures ReadArgs(AddAudioArgv(videoPath, audioPath, outputPath)[1..]) ==
              [Switch("-y"), Opt("-i", videoPath), Opt("-i", audioPath), Opt("-c:v", "copy"),
               Opt("-c:a", "aac"), Switch("-shortest"), LastArg(outputPath)]
    ensures LastArg(outputPath) == Positional(outputPath) <==> !LooksLikeOption(outputPath)
  {
    var mux := ["-c:v", "copy"] + (["-c:a", "aac"] + (["-shortest"] + [outputPath]));
    var inputs := ["-i", videoPath] + (["-i", audioPath] + mux);
    ReadMuxSettings(outputPath);
    ReadOpt("-i", audioPath, mux);
    ReadOpt("-i", videoPath, ["-i", audioPath] + mux);
    ReadSwitch("-y", inputs);
    assert AddAudioArgv(videoPath, audioPath, outputPath)[1..] == ["-y"] + inputs;
  }

  /** `-c:v copy -c:a aac -shortest <output>` reads as two codec options,
      the `-shortest` switch and the last argument. */
  lemma {:induction false} ReadMuxSettings(outputPath: string)
    ensures ReadArgs(["-c:v", "copy"] + (["-c:a", "aac"] + (["-shortest"] + [outputPath]))) ==
              [Opt("-c:v", "copy"), Opt("-c:a", "aac"), Switch("-shortest"), LastArg(outputPath)]
  {
    var tail := ["-shortest"] + [outputPath];
    ReadLast(outputPath);
    ReadSwitch("-shortest", [outputPath]);
    ReadOpt("-c:a", "aac", tail);
    ReadOpt("-c:v", "copy", ["-c:a", "aac"] + tail);
  }

  /** `-c:v copy -c:a aac -shortest <output>` names no input. */
  lemma {:induction false} AudioSettingsRead(outputPath: string)
    ensures InputsOf(ReadArgs(["-c:v", "copy", "-c:a", "aac", "-shortest", outputPath])) == []
  {
    var last := ReadArgs([outputPath]);
    ReadLast(outputPath);
    ReadSwitch("-shortest", [outputPath]);
    ReadOpt("-c:a", "aac", ["-shortest"] + [outputPath]);
    ReadOpt("-c:v", "copy", ["-c:a", "aac"] + (["-shortest"] + [outputPath]));
    assert ["-c:v", "copy", "-c:a", "aac", "-shortest", outputPath] ==
           ["-c:v", "copy"] + (["-c:a", "aac"] + (["-shortest"] + [outputPath]));
    var parsed := [Opt("-c:v", "copy")] + ([Opt("-c:a", "aac")] + ([Switch("-shortest")] + last));
    assert parsed[1..] == [Opt("-c:a", "aac")] + ([Switch("-shortest")] + last);
    assert parsed[1..][1..] == [Switch("-shortest")] + last;
    assert parsed[1..][1..][1..] == last;
    assert ReadArgs(["-c:v", "copy", "-c:a", "aac", "-shortest", outputPath]) == parsed;
    assert InputsOf(parsed[1..][1..]) == InputsOf(last);
    assert InputsOf(parsed[1..]) == InputsOf(parsed[1..][1..]);
    assert InputsOf(parsed) == InputsOf(parsed[1..]);
  }

  lemma ReadLast(arg: string)
    ensures ReadArgs([arg]) == [LastArg(arg)]
    ensures InputsOf(ReadArgs([arg])) == []
  {
    assert [arg][1..] == [];
    if arg in ValueOptions {
      assert LooksLikeOption(arg);
    }
    assert ReadArgs([arg]) == [LastArg(arg)] + ReadArgs([]);
    assert ReadArgs([arg])[1..] == [];
  }

  lemma ReadOpt(name: string, value: string, rest: seq<string>)
    requires name in ValueOptions
    ensures ReadArgs([name, value] + rest) == [Opt(name, value)] + ReadArgs(rest)
  {
    assert ([name, value] + rest)[2..] == rest;
  }

  lemma ReadSwitch(name: string, rest: seq<string>)
    requires name in Switches
    ensures ReadArgs([name] + rest) == [Switch(name)] + ReadArgs(rest)
  {
    assert name !in ValueOptions;
    assert ([name] + rest)[1..] == rest;
  }

  /** `generate_video_shot` writes the clip of a shot where an assembler
      whose project directory is `output` looks for it. */
  function VideoShotPath(shotNumber: nat): (r: string)
    ensures r == PathJoin("output", ClipPath(shotNumber))
  {
    "output/shots/shot_" + Pad3(shotNumber) + ".mp4"
  }

  /** Arguments with no `-i` option name no input. */
  lemma {:induction false} NoInputs(parsed: seq<Arg>)
    requires forall k :: 0 <= k < |parsed| ==> !(parsed[k].Opt? && parsed[k].name == "-i")
    ensures InputsOf(parsed) == []
    decreases |parsed|
  {
    if parsed != [] {
      NoInputs(parsed[1..]);
    }
  }

  lemma {:induction false} InputArgsAt(paths: seq<string>, i: nat)
    requires i < |paths|
    ensures InputArgs(paths)[2 * i] == "-i" && InputArgs(paths)[2 * i + 1] == paths[i]
    decreases i
  {
    if i > 0 {
      InputArgsAt(paths[1..], i - 1);
    }
  }

  lemma {:induction false} InputArgsSnoc(paths: seq<string>, p: string)
    ensures InputArgs(paths + [p]) == InputArgs(paths) + ["-i", p]
    decreases |paths|
  {
    if paths != [] {
      assert (paths + [p])[1..] == paths[1..] + [p];
      InputArgsSnoc(paths[1..], p);
    } else {
      assert paths + [p] == [p];
    }
  }

  lemma {:induction false} ReadInputArgs(paths: seq<string>, rest: seq<string>)
    ensures ReadArgs(InputArgs(paths) + rest) == InputOpts(paths) + ReadArgs(rest)
    decreases |paths|
  {
    if paths != [] {
      var s := InputArgs(paths) + rest;
      assert s == ["-i", paths[0]] + (InputArgs(paths[1..]) + rest);
      assert s[2..] == InputArgs(paths[1..]) + rest;
      ReadInputArgs(paths[1..], rest);
      assert InputOpts(paths) == [Opt("-i", paths[0])] + InputOpts(paths[1..]);
    } else {
      assert InputArgs(paths) + rest == rest;
    }
  }

  lemma {:induction false} InputsOfInputOpts(paths: seq<string>, rest: seq<Arg>)
    ensures InputsOf(InputOpts(paths) + rest) == paths + InputsOf(rest)
    decreases |paths|
  {
    if paths != [] {
      var s := InputOpts(paths) + rest;
      assert s[1..] == InputOpts(paths[1..]) + rest;
      InputsOfInputOpts(paths[1..], rest);
      assert [paths[0]] + paths[1..] == paths;
    } else {
      assert InputOpts(paths) + rest == rest;
    }
  }

  /** Layout of the assembly command: `ffmpeg -y`, N pairs `-i <clip>` in
      timeline order, `-filter_complex <graph>`, the fixed encoder settings
      and the output file, 13 + 2N arguments in all (13 for an empty
      timeline). */
  lemma {:induction false} AssembleArgvLayout(projectPath: string, edl: EditDecisionList, outputFilename: string)
    ensures var argv := AssembleArgv(projectPath, edl, outputFilename);
            var n := |edl.timeline|;
            |argv| == 13 + 2 * n &&
            argv[..2] == ["ffmpeg", "-y"] &&
            (forall i :: 0 <= i < n ==>
               argv[2 + 2 * i] == "-i" &&
               argv[3 + 2 * i] == projectPath + "/" + edl.timeline[i].filePath) &&
            argv[2 + 2 * n] == "-filter_complex" &&
            argv[3 + 2 * n] == Graph(edl.timeline) &&
            argv[4 + 2 * n..12 + 2 * n] ==
              ["-map", "[outv]", "-c:v", "libx264", "-preset", "medium", "-crf", "23"] &&
            argv[12 + 2 * n] == projectPath + "/output/" + outputFilename
  {
    var paths := ClipInputs(projectPath, edl.timeline);
    var n := |edl.timeline|;
    var argv := AssembleArgv(projectPath, edl, outputFilename);
    var front := ["ffmpeg", "-y"] + InputArgs(paths);
    forall i | 0 <= i < n
      ensures argv[2 + 2 * i] == "-i" && argv[3 + 2 * i] == projectPath + "/" + edl.timeline[i].filePath
    {
      InputArgsAt(paths, i);
      assert argv[2 + 2 * i] == front[2 + 2 * i];
      assert argv[3 + 2 * i] == front[3 + 2 * i];
    }
  }

  /** FFmpeg reads the assembly command as: overwrite, the N clip inputs in
      timeline order, the graph, the stream selection `[outv]`, the
      encoder settings, and the output path, which is read as the output
      file exactly when the project path is empty or does not start with `-`. */
  lemma {:induction false} AssembleArgvReads(projectPath: string, edl: EditDecisionList, outputFilename: string)
    ensures var argv := AssembleArgv(projectPath, edl, outputFilename);
            ReadArgs(argv[1..]) ==
              [Switch("-y")]
              + InputOpts(ClipInputs(projectPath, edl.timeline))
              + [Opt("-filter_complex", Graph(edl.timeline)),
                 Opt("-map", "[outv]"), Opt("-c:v", "libx264"), Opt("-preset", "medium"),
                 Opt("-crf", "23"), LastArg(projectPath + "/output/" + outputFilename)]
    ensures LastArg(projectPath + "/output/" + outputFilename) ==
              Positional(projectPath + "/output/" + outputFilename) <==>
            (projectPath == "" || projectPath[0] != '-')
  {
    var out := OutputPathText(projectPath, outputFilename);
    var argv := AssembleArgv(projectPath, edl, outputFilename);
    assert argv[1..] == ["-y"] + InputArgs(ClipInputs(projectPath, edl.timeline))
                        + ["-filter_complex", Graph(edl.timeline)] + EncodeSettings + [out];
    ReadCommand(ClipInputs(projectPath, edl.timeline), Graph(edl.timeline), out);
  }

  /** The output path is `<project>/output/<name>`; it looks like an
      option exactly when the project path starts with `-`. */
  lemma OutputPathText(projectPath: string, outputFilename: string) returns (out: string)
    ensures out == PathJoin(PathJoin(projectPath, "output"), outputFilename)
    ensures out == projectPath + "/output/" + outputFilename
    ensures !LooksLikeOption(out) <==> (projectPath == "" || projectPath[0] != '-')
  {
    out := PathJoin(PathJoin(projectPath, "output"), outputFilename);
    assert |out| >= 2;
    if projectPath == "" {
      assert out[0] == '/';
    } else {
      assert out[0] == projectPath[0];
    }
  }

  /** How FFmpeg reads an assembly command, whatever its inputs, graph and output. */
  lemma {:induction false} ReadCommand(paths: seq<string>, graph: string, out: string)
    ensures ReadArgs(["-y"] + InputArgs(paths) + ["-filter_complex", graph] + EncodeSettings + [out]) ==
              [Switch("-y")] + InputOpts(paths)
              + [Opt("-filter_complex", graph), Opt("-map", "[outv]"), Opt("-c:v", "libx264"),
                 Opt("-preset", "medium"), Opt("-crf", "23"), LastArg(out)]
  {
    var rest := ["-filter_complex", graph] + EncodeSettings + [out];
    var whole := ["-y"] + InputArgs(paths) + ["-filter_complex", graph] + EncodeSettings + [out];
    assert whole == ["-y"] + (InputArgs(paths) + rest);
    ReadSwitch("-y", InputArgs(paths) + rest);
    ReadInputArgs(paths, rest);
    ReadEncodeTail(graph, out);
    var tailArgs := ReadArgs(rest);
    assert [Switch("-y")] + (InputOpts(paths) + tailArgs) == [Switch("-y")] + InputOpts(paths) + tailArgs;
  }

  /** The graph, the stream selection, the encoder settings and the
      output path read as four options and the last argument. */
  lemma {:induction false} ReadEncodeTail(graph: string, out: string)
    ensures ReadArgs(["-filter_complex", graph] + EncodeSettings + [out]) ==
              [Opt("-filter_complex", graph), Opt("-map", "[outv]"), Opt("-c:v", "libx264"),
               Opt("-preset", "medium"), Opt("-crf", "23"), LastArg(out)]
  {
    ReadLast(out);
    ReadOpt("-crf", "23", [out]);
    ReadOpt("-preset", "medium", ["-crf", "23"] + [out]);
    ReadOpt("-c:v", "libx264", ["-preset", "medium"] + (["-crf", "23"] + [out]));
    ReadOpt("-map", "[outv]", ["-c:v", "libx264"] + (["-preset", "medium"] + (["-crf", "23"] + [out])));
    ReadOpt("-filter_complex", graph,
      ["-map", "[outv]"] + (["-c:v", "libx264"] + (["-preset", "medium"] + (["-crf", "23"] + [out]))));
    assert ["-filter_complex", graph] + EncodeSettings + [out] ==
      ["-filter_complex", graph] +
      (["-map", "[outv]"] + (["-c:v", "libx264"] + (["-preset", "medium"] + (["-crf", "23"] + [out]))));
  }

  /** The inputs FFmpeg reads from the assembly command are the clips of
      the timeline, in timeline order. */
  lemma {:induction false} AssembleInputs(projectPath: string, edl: EditDecisionList, outputFilename: string)
    ensures InputsOf(ReadArgs(AssembleArgv(projectPath, edl, outputFilename)[1..])) ==
              ClipInputs(projectPath, edl.timeline)
  {
    var paths := ClipInputs(projectPath, edl.timeline);
    AssembleArgvReads(projectPath, edl, outputFilename);
    var tailArgs: seq<Arg> := [Opt("-filter_complex", Graph(edl.timeline)),
                 Opt("-map", "[outv]"), Opt("-c:v", "libx264"), Opt("-preset", "medium"),
                 Opt("-crf", "23"), LastArg(projectPath + "/output/" + outputFilename)];
    var parsed := [Switch("-y")] + InputOpts(paths) + tailArgs;
    assert parsed[1..] == InputOpts(paths) + tailArgs;
    InputsOfInputOpts(paths, tailArgs);
    NoInputs(tailArgs);
  }

  /** Index alignment: the i-th input FFmpeg reads is the clip of the i-th
      shot, and chain i of the graph reads input i's video (`[i:v]`). */
  lemma {:induction false} InputIndexAlignment(projectPath: string, list: ShotList, outputFilename: string, i: nat)
    requires i < |ShotsOf(list)|
    ensures var edl := BuildEdl(list);
            var argv := AssembleArgv(projectPath, edl, outputFilename);
            |InputsOf(ReadArgs(argv[1..]))| == |ShotsOf(list)| &&
            |ParseGraph(Graph(edl.timeline))| == |ShotsOf(list)| + 1 &&
            InputsOf(ReadArgs(argv[1..]))[i] ==
              projectPath + "/shots/shot_" + Pad3(ShotsOf(list)[i].shotNumber) + ".mp4" &&
            ParseGraph(Graph(edl.timeline))[i].inputs == [NatToString(i) + ":v"]
  {
    var edl := BuildEdl(list);
    AssembleInputs(projectPath, edl, outputFilename);
    EdlTimelineShape(list, i);
    ShotInputText(projectPath, Pad3(ShotsOf(list)[i].shotNumber));
    GraphChain(edl.timeline, i);
  }

  lemma ShotInputText(projectPath: string, pad: string)
    ensures PathJoin(projectPath, "shots/shot_" + pad + ".mp4") == projectPath + "/shots/shot_" + pad + ".mp4"
  {
    assert "/" + ("shots/shot_" + pad + ".mp4") == "/shots/shot_" + pad + ".mp4";
  }
}
