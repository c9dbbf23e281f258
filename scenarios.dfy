/**
  * Concrete end-to-end checks on the shot list hard-coded in
  * `create_shot_list` (three shots of 5, 8 and 3 seconds, no transitions)
  * and on a two-shot list whose second shot fades in.
  */
module Scenarios {
  import opened Strings
  import opened Edl
  import opened FilterGraph
  import TextFacts

  const SampleList := ShotList(
    Some("AI Movie"),
    Some([Shot(1, 5, None), Shot(2, 8, None), Shot(3, 3, None)]))

  lemma SmallNumbers()
    ensures NatToString(0) == "0" && NatToString(1) == "1"
    ensures NatToString(2) == "2" && NatToString(3) == "3"
    ensures Pad3(1) == "001" && Pad3(2) == "002" && Pad3(3) == "003"
  {
    assert Zeros(2) == "00";
  }

  lemma SampleClipPaths()
    ensures ClipPath(1) == "shots/shot_001.mp4"
    ensures ClipPath(2) == "shots/shot_002.mp4"
    ensures ClipPath(3) == "shots/shot_003.mp4"
  {
    SmallNumbers();
  }

  lemma {:induction false} TotalDurationPair(a: Shot, b: Shot)
    ensures TotalDuration([a]) == a.duration
    ensures TotalDuration([a, b]) == a.duration + b.duration
  {
    assert [a][1..] == [];
    assert [a, b][1..] == [b];
    assert [b][1..] == [];
  }

  /** The sample's timeline: [0,5], [5,13], [13,16], clips shot_001..003. */
  lemma {:induction false} SampleTimeline()
    ensures BuildEdl(SampleList) == EditDecisionList("1.0", "AI Movie", [
              EditPoint(1, 0, 5, "shots/shot_001.mp4", Transitions("cut", "cut")),
              EditPoint(2, 5, 13, "shots/shot_002.mp4", Transitions("cut", "cut")),
              EditPoint(3, 13, 16, "shots/shot_003.mp4", Transitions("cut", "cut"))])
  {
    SampleClipPaths();
    var shots := ShotsOf(SampleList);
    assert shots[..0] == [] && shots[..1] == [shots[0]] && shots[..2] == [shots[0], shots[1]];
    TotalDurationPair(shots[0], shots[1]);
    var cut := Transitions("cut", "cut");
    var t := Timeline(shots);
    assert t[0] == EditPoint(1, 0, 5, ClipPath(1), cut);
    assert t[1] == EditPoint(2, 5, 13, ClipPath(2), cut);
    assert t[2] == EditPoint(3, 13, 16, ClipPath(3), cut);
    assert t == [t[0], t[1], t[2]];
  }

  /** Chain i of a clip without fade, for a one-digit i. */
  lemma {:induction false} CopyChainText(i: nat, d: char, edit: EditPoint)
    requires NatToString(i) == [d] && edit.transitions.inKind != "fade"
    ensures Render(ClipStage(i, edit)) == ['[', d, ':', 'v', ']', 'c', 'o', 'p', 'y', '[', 'v', d, ']']
  {
    ClipStageText(i, edit);
  }

  /** Chain i of a clip that fades in, for a one-digit i. */
  lemma {:induction false} FadeChainText(i: nat, d: char, edit: EditPoint)
    requires NatToString(i) == [d] && edit.transitions.inKind == "fade"
    ensures Render(ClipStage(i, edit)) ==
              ['[', d, ':', 'v', ']'] + "fade=t=in:st=0:d=1" + ['[', 'v', d, ']']
  {
    ClipStageText(i, edit);
  }

  lemma {:induction false} ConcatText(n: nat, labels: string)
    requires labels == Labels(StreamLabels(n))
    ensures Render(ConcatStage(n)) == labels + "concat=n=" + NatToString(n) + ":v=1:a=0[outv]"
  {
    assert Labels(["outv"]) == "[outv]";
  }

  lemma {:induction false} ConcatThreeText()
    ensures Render(ConcatStage(3)) == "[v0][v1][v2]concat=n=3:v=1:a=0[outv]"
  {
    StreamLabelsUpTo3();
    ConcatText(3, "[v0][v1][v2]");
    SmallNumbers();
    TextFacts.ConcatThreeText();
  }

  lemma {:induction false} ConcatTwoText()
    ensures Render(ConcatStage(2)) == "[v0][v1]concat=n=2:v=1:a=0[outv]"
  {
    StreamLabelsUpTo3();
    ConcatText(2, "[v0][v1]");
    SmallNumbers();
    TextFacts.ConcatTwoText();
  }

  lemma {:induction false} StreamLabelsUpTo3()
    ensures Labels(StreamLabels(2)) == "[v0][v1]"
    ensures Labels(StreamLabels(3)) == "[v0][v1][v2]"
  {
    SmallNumbers();
    StreamLabelsSnoc(0);
    StreamLabelsSnoc(1);
    StreamLabelsSnoc(2);
    assert StreamLabels(0) == [];
  }

  /** Chain i of any timeline whose i-th clip does not fade in. */
  lemma {:induction false} CopyChainAt(t: seq<EditPoint>, i: nat, d: char)
    requires i < |t| && NatToString(i) == [d] && t[i].transitions.inKind != "fade"
    ensures |RenderAll(Stages(t))| == |t| + 1
    ensures RenderAll(Stages(t))[i] == ['[', d, ':', 'v', ']', 'c', 'o', 'p', 'y', '[', 'v', d, ']']
  {
    assert Stages(t)[i] == ClipStage(i, t[i]);
    CopyChainText(i, d, t[i]);
  }

  /** The chain texts of any three-clip timeline without fades. */
  lemma {:induction false} ThreeCopyChains(t: seq<EditPoint>)
    requires |t| == 3
    requires forall i :: 0 <= i < 3 ==> t[i].transitions == Transitions("cut", "cut")
    ensures RenderAll(Stages(t)) == ["[0:v]copy[v0]", "[1:v]copy[v1]", "[2:v]copy[v2]",
                                     "[v0][v1][v2]concat=n=3:v=1:a=0[outv]"]
  {
    SmallNumbers();
    assert t[0].transitions.inKind == t[1].transitions.inKind == t[2].transitions.inKind == "cut";
    CopyChainAt(t, 0, '0');
    CopyChainAt(t, 1, '1');
    CopyChainAt(t, 2, '2');
    assert Stages(t)[3] == ConcatStage(3);
    ConcatThreeText();
    var texts := RenderAll(Stages(t));
    assert texts == [texts[0], texts[1], texts[2], texts[3]];
  }

  /** The sample's filtergraph: three copy chains and a three-way concat,
      joined by `;`. */
  lemma {:induction false} SampleGraph()
    ensures Graph(BuildEdl(SampleList).timeline) ==
            Join(";", ["[0:v]copy[v0]", "[1:v]copy[v1]", "[2:v]copy[v2]",
                       "[v0][v1][v2]concat=n=3:v=1:a=0[outv]"])
  {
    SampleTimeline();
    ThreeCopyChains(BuildEdl(SampleList).timeline);
  }

  const FadeList := ShotList(None, Some([Shot(1, 5, None), Shot(2, 3, Some(Transitions("fade", "cut")))]))

  lemma {:induction false} FadeTimeline()
    ensures BuildEdl(FadeList) == EditDecisionList("1.0", "untitled", [
              EditPoint(1, 0, 5, ClipPath(1), Transitions("cut", "cut")),
              EditPoint(2, 5, 8, ClipPath(2), Transitions("fade", "cut"))])
  {
    var shots := ShotsOf(FadeList);
    assert shots[..0] == [] && shots[..1] == [shots[0]];
    TotalDurationPair(shots[0], shots[1]);
    var t := Timeline(shots);
    assert t == [t[0], t[1]];
  }

  /** Chain 1 of any timeline whose second clip fades in. */
  lemma {:induction false} SecondClipFades(t: seq<EditPoint>)
    requires |t| >= 2 && t[1].transitions.inKind == "fade"
    ensures |RenderAll(Stages(t))| == |t| + 1
    ensures RenderAll(Stages(t))[1] == "[1:v]fade=t=in:st=0:d=1[v1]"
  {
    SmallNumbers();
    assert Stages(t)[1] == ClipStage(1, t[1]);
    FadeChainText(1, '1', t[1]);
    TextFacts.FadeChainText();
  }

  /** The chain texts of a two-clip timeline whose second clip fades in. */
  lemma {:induction false} CopyThenFadeChains(t: seq<EditPoint>)
    requires |t| == 2
    requires t[0].transitions.inKind == "cut" && t[1].transitions.inKind == "fade"
    ensures RenderAll(Stages(t)) == ["[0:v]copy[v0]", "[1:v]fade=t=in:st=0:d=1[v1]",
                                     "[v0][v1]concat=n=2:v=1:a=0[outv]"]
  {
    SmallNumbers();
    assert "cut"[0] != "fade"[0];
    CopyChainAt(t, 0, '0');
    SecondClipFades(t);
    assert Stages(t)[2] == ConcatStage(2);
    var texts := RenderAll(Stages(t));
    ConcatTwoText();
    assert texts == [texts[0], texts[1], texts[2]];
  }


  /** Two shots, the second fading in: a copy chain, a fade chain and a
      two-way concat; the second edit point runs from 5 to 8. */
  lemma {:induction false} FadeScenario()
    ensures BuildEdl(FadeList).projectName == "untitled"
    ensures |BuildEdl(FadeList).timeline| == 2
    ensures BuildEdl(FadeList).timeline[1].inPoint == 5 && BuildEdl(FadeList).timeline[1].outPoint == 8
    ensures Graph(BuildEdl(FadeList).timeline) ==
              Join(";", ["[0:v]copy[v0]", "[1:v]fade=t=in:st=0:d=1[v1]", "[v0][v1]concat=n=2:v=1:a=0[outv]"])
  {
    FadeTimeline();
    CopyThenFadeChains(BuildEdl(FadeList).timeline);
  }
}

/** Concatenations of string literals used by the scenarios, one
    concatenation per lemma so that each comparison stays small. */
module TextFacts {
  lemma ConcatThreeStep0()
    ensures "[v0][v1][v2]" + "concat=n=" == "[v0][v1][v2]concat=n="
  {
  }

  lemma ConcatThreeStep1()
    ensures "[v0][v1][v2]concat=n=" + "3" == "[v0][v1][v2]concat=n=3"
  {
  }

  lemma ConcatThreeStep2()
    ensures "[v0][v1][v2]concat=n=3" + ":v=1:a=0[outv]" == "[v0][v1][v2]concat=n=3:v=1:a=0[outv]"
  {
  }

  lemma {:induction false} ConcatThreeText()
    ensures "[v0][v1][v2]" + "concat=n=" + "3" + ":v=1:a=0[outv]" ==
            "[v0][v1][v2]concat=n=3:v=1:a=0[outv]"
  {
    ConcatThreeStep0(); ConcatThreeStep1(); ConcatThreeStep2();
  }

  lemma ConcatTwoStep0()
    ensures "[v0][v1]" + "concat=n=" == "[v0][v1]concat=n="
  {
  }

  lemma ConcatTwoStep1()
    ensures "[v0][v1]concat=n=" + "2" == "[v0][v1]concat=n=2"
  {
  }

  lemma ConcatTwoStep2()
    ensures "[v0][v1]concat=n=2" + ":v=1:a=0[outv]" == "[v0][v1]concat=n=2:v=1:a=0[outv]"
  {
  }

  lemma {:induction false} ConcatTwoText()
    ensures "[v0][v1]" + "concat=n=" + "2" + ":v=1:a=0[outv]" ==
            "[v0][v1]concat=n=2:v=1:a=0[outv]"
  {
    ConcatTwoStep0(); ConcatTwoStep1(); ConcatTwoStep2();
  }

  lemma FadeChainStep0()
    ensures "[1:v]" + "fade=t=in:st=0:d=1" == "[1:v]fade=t=in:st=0:d=1"
  {
  }

  lemma FadeChainStep1()
    ensures "[1:v]fade=t=in:st=0:d=1" + "[v1]" == "[1:v]fade=t=in:st=0:d=1[v1]"
  {
  }

  lemma {:induction false} FadeChainText()
    ensures "[1:v]" + "fade=t=in:st=0:d=1" + "[v1]" ==
            "[1:v]fade=t=in:st=0:d=1[v1]"
  {
    FadeChainStep0(); FadeChainStep1();
  }
}
