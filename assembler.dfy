/**
  * The `VideoAssembler` object: its directory fields, fixed at
  * construction, and the three operations that work step by step — the
  * EDL-building loop, the filtergraph-building loop and the loop that
  * grows the FFmpeg command. Each is proved equal to its specification
  * function (`BuildEdl`, `Graph`, `AssembleArgv`), about which the other
  * modules prove the timing, graph and argument properties.
  */
module Assembler {
  import opened Strings
  import opened Edl
  import opened FilterGraph
  import opened FfmpegArgs

  class VideoAssembler {
    const projectPath: string
    const shotsPath: string
    const audioPath: string
    const outputPath: string

    /** The directories hang off the project directory. */
    ghost predicate Valid()
    {
      shotsPath == PathJoin(projectPath, "shots") &&
      audioPath == PathJoin(projectPath, "audio") &&
      outputPath == PathJoin(projectPath, "output")
    }

    constructor (projectPath: string)
      ensures Valid() && this.projectPath == projectPath
    {
      this.projectPath := projectPath;
      shotsPath := PathJoin(projectPath, "shots");
      audioPath := PathJoin(projectPath, "audio");
      outputPath := PathJoin(projectPath, "output");
    }

    /** Lays the shots end to end from time 0, one edit point per shot. */
    method CreateEditDecisionList(shotList: ShotList) returns (edl: EditDecisionList)
      ensures edl == BuildEdl(shotList)
    {
      edl := EditDecisionList(
        "1.0",
        if shotList.projectName.Some? then shotList.projectName.value else "untitled",
        []);
      var shots := if shotList.shots.Some? then shotList.shots.value else [];
      var currentTime := 0;
      for i := 0 to |shots|
        invariant edl.version == "1.0" && edl.projectName == BuildEdl(shotList).projectName
        invariant currentTime == TotalDuration(shots[..i])
        invariant edl.timeline == Timeline(shots)[..i]
      {
        var shot := shots[i];
        var editPoint := EditPoint(
          shot.shotNumber,
          currentTime,
          currentTime + shot.duration,
          "shots/shot_" + Pad3(shot.shotNumber) + ".mp4",
          if shot.transitions.Some? then shot.transitions.value else Transitions("cut", "cut"));
        assert editPoint == EditPointAt(shot, currentTime);
        TimelineExtend(shots, i);
        edl := edl.(timeline := edl.timeline + [editPoint]);
        currentTime := currentTime + shot.duration;
      }
      assert Timeline(shots)[..|shots|] == Timeline(shots);
    }

    /** One chain per edit point (fade-in or copy), then the concat chain,
        joined with `;`. */
    method GenerateFfmpegFilterComplex(edl: EditDecisionList) returns (graph: string)
      ensures graph == Graph(edl.timeline)
    {
      var filters: seq<string> := [];
      var timeline := edl.timeline;
      for i := 0 to |timeline|
        invariant |filters| == i
        invariant forall k :: 0 <= k < i ==> filters[k] == Render(ClipStage(k, timeline[k]))
      {
        var edit := timeline[i];
        if edit.transitions.inKind == "fade" {
          filters := filters + ["[" + NatToString(i) + ":v]" + "fade=t=in:st=0:d=1" + "[v" + NatToString(i) + "]"];
        } else {
          filters := filters + ["[" + NatToString(i) + ":v]" + "copy" + "[v" + NatToString(i) + "]"];
        }
        ClipStageText(i, edit);
      }
      var n := |timeline|;
      var concatInputs := Labels(StreamLabels(n));
      filters := filters + [concatInputs + "concat=n=" + NatToString(n) + ":v=1:a=0" + "[outv]"];
      assert Labels(["outv"]) == "[outv]";
      assert filters[n] == Render(ConcatStage(n));
      forall k | 0 <= k < n + 1
        ensures filters[k] == RenderAll(Stages(timeline))[k]
      {
        if k < n {
          assert Stages(timeline)[k] == ClipStage(k, timeline[k]);
        } else {
          assert Stages(timeline)[k] == ConcatStage(n);
        }
      }
      assert filters == RenderAll(Stages(timeline));
      graph := Join(";", filters);
    }

    /** The FFmpeg command that assembles the shots of `shotList` into
        `output/<outputFilename>` under the project directory. */
    method AssembleVideo(shotList: ShotList, outputFilename: string) returns (cmd: seq<string>)
      requires Valid()
      ensures cmd == AssembleArgv(projectPath, BuildEdl(shotList), outputFilename)
    {
      var edl := CreateEditDecisionList(shotList);
      cmd := AssembleCommand(edl, outputFilename);
    }

    /** The command-building part of `assemble_video` for an EDL: one `-i`
        per edit point, the filtergraph, the encoder settings, the output. */
    method AssembleCommand(edl: EditDecisionList, outputFilename: string) returns (cmd: seq<string>)
      requires Valid()
      ensures cmd == AssembleArgv(projectPath, edl, outputFilename)
    {
      cmd := ["ffmpeg", "-y"];
      ghost var paths := ClipInputs(projectPath, edl.timeline);
      for i := 0 to |edl.timeline|
        invariant cmd == ["ffmpeg", "-y"] + InputArgs(paths[..i])
      {
        cmd := cmd + ["-i", PathJoin(projectPath, edl.timeline[i].filePath)];
        InputArgsSnoc(paths[..i], paths[i]);
        assert paths[..i + 1] == paths[..i] + [paths[i]];
      }
      assert paths[..|edl.timeline|] == paths;
      var filterComplex := GenerateFfmpegFilterComplex(edl);
      cmd := cmd + ["-filter_complex", filterComplex];
      cmd := cmd + ["-map", "[outv]", "-c:v", "libx264", "-preset", "medium", "-crf", "23",
                    PathJoin(outputPath, outputFilename)];
    }
  }
}
