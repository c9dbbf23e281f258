/**
  * The FFmpeg filtergraph `generate_ffmpeg_filter_complex` emits for an
  * EDL, in the syntax of the "Filtergraph description" section of the
  * FFmpeg filters documentation: filter chains separated by `;`, each
  * written `[in]...filter[out]...`. The graph is described by typed
  * stages (`FilterStage`) rendered to text; `ParseGraph` reads text back
  * into stages the way that syntax is read, and `GraphRoundTrip` shows the
  * rendered graph reads back as exactly the stages intended.
  */
module FilterGraph {
  import opened Strings
  import opened Edl

  /** A filter chain of one filter: its input pads, the filter with its
      arguments, and its output pads. */
  datatype FilterStage = FilterStage(inputs: seq<string>, filter: string, outputs: seq<string>)

  /** `[l0][l1]...` */
  function Labels(ls: seq<string>): string
  {
    if ls == [] then "" else "[" + ls[0] + "]" + Labels(ls[1..])
  }

  function Render(st: FilterStage): string
  {
    Labels(st.inputs) + st.filter + Labels(st.outputs)
  }

  function RenderAll(sts: seq<FilterStage>): (r: seq<string>)
    ensures |r| == |sts| && forall i :: 0 <= i < |sts| ==> r[i] == Render(sts[i])
  {
    seq(|sts|, i requires 0 <= i < |sts| => Render(sts[i]))
  }

  /** The video stream of input file i: `i:v`. */
  function InputPad(i: nat): string { NatToString(i) + ":v" }

  /** The stream edit point i produces: `v{i}`. */
  function StreamLabel(i: nat): string { "v" + NatToString(i) }

  const FadeIn := "fade=t=in:st=0:d=1"

  /** A one-second fade-in for a `fade` in-transition, a plain copy otherwise. */
  function ClipFilter(edit: EditPoint): string
  {
    if edit.transitions.inKind == "fade" then FadeIn else "copy"
  }

  function ClipStage(i: nat, edit: EditPoint): FilterStage
  {
    FilterStage([InputPad(i)], ClipFilter(edit), [StreamLabel(i)])
  }

  function StreamLabels(n: nat): (r: seq<string>)
    ensures |r| == n && forall i :: 0 <= i < n ==> r[i] == StreamLabel(i)
  {
    seq(n, i requires 0 <= i => StreamLabel(i))
  }

  function ConcatFilter(n: nat): string
  {
    "concat=n=" + NatToString(n) + ":v=1:a=0"
  }

  /** Joins the n clip streams, in index order, into the one video stream `outv`. */
  function ConcatStage(n: nat): FilterStage
  {
    FilterStage(StreamLabels(n), ConcatFilter(n), ["outv"])
  }

  /** One stage per edit point, then the concat stage. */
  function Stages(timeline: seq<EditPoint>): (r: seq<FilterStage>)
    ensures |r| == |timeline| + 1
  {
    seq(|timeline|, i requires 0 <= i < |timeline| => ClipStage(i, timeline[i])) + [ConcatStage(|timeline|)]
  }

  /** The filtergraph text for a timeline. */
  function Graph(timeline: seq<EditPoint>): string
  {
    Join(";", RenderAll(Stages(timeline)))
  }

  // ---------------------------------------------------------------------
  // Reading filtergraph text back into stages.

  function IndexOf(c: char, s: string): (k: nat)
    ensures k <= |s| && (k < |s| ==> s[k] == c)
    ensures forall j :: 0 <= j < k ==> s[j] != c
  {
    if s == [] || s[0] == c then 0 else 1 + IndexOf(c, s[1..])
  }

  /** The `[label]` groups at the start of `s`, and what follows them. */
  function ReadLabels(s: string): (seq<string>, string)
    decreases |s|
  {
    if |s| > 0 && s[0] == '[' && IndexOf(']', s[1..]) < |s| - 1 then
      var k := IndexOf(']', s[1..]);
      var more := ReadLabels(s[k + 2..]);
      ([s[1..k + 1]] + more.0, more.1)
    else ([], s)
  }

  function ParseStage(s: string): FilterStage
  {
    var ins := ReadLabels(s);
    var k := IndexOf('[', ins.1);
    FilterStage(ins.0, ins.1[..k], ReadLabels(ins.1[k..]).0)
  }

  function ParseGraph(g: string): (r: seq<FilterStage>)
  {
    var chains := SplitOn(';', g);
    seq(|chains|, i requires 0 <= i < |chains| => ParseStage(chains[i]))
  }

  /** Text that cannot be mistaken for pad brackets or a chain separator. */
  predicate Plain(s: string)
  {
    forall j :: 0 <= j < |s| ==> s[j] != '[' && s[j] != ']' && s[j] != ';'
  }

  predicate WellFormed(st: FilterStage)
  {
    (forall i :: 0 <= i < |st.inputs| ==> Plain(st.inputs[i])) &&
    (forall i :: 0 <= i < |st.outputs| ==> Plain(st.outputs[i])) &&
    st.filter != "" && Plain(st.filter)
  }

  lemma {:induction false} IndexOfAfter(c: char, p: string, t: string)
    requires c !in p
    requires t == [] || t[0] == c
    ensures IndexOf(c, p + t) == |p|
    decreases |p|
  {
    if p != [] {
      assert (p + t)[1..] == p[1..] + t;
      IndexOfAfter(c, p[1..], t);
    } else {
      assert p + t == t;
    }
  }

  /** Reading one bracketed label off the front. */
  lemma ReadOneLabel(l: string, tail: string)
    requires ']' !in l
    ensures ReadLabels("[" + l + "]" + tail) == ([l] + ReadLabels(tail).0, ReadLabels(tail).1)
  {
    var s := "[" + l + "]" + tail;
    assert s[0] == '[';
    assert s[1..] == l + ("]" + tail);
    IndexOfAfter(']', l, "]" + tail);
    assert IndexOf(']', s[1..]) == |l| < |s| - 1;
    assert s[1..|l| + 1] == l;
    assert s[|l| + 2..] == tail;
    var more := ReadLabels(tail);
    assert ReadLabels(s) == ([s[1..|l| + 1]] + more.0, more.1);
  }

  lemma LabelsCons(ls: seq<string>, rest: string)
    requires ls != []
    ensures Labels(ls) + rest == "[" + ls[0] + "]" + (Labels(ls[1..]) + rest)
  {
  }

  lemma NoLabel(rest: string)
    requires rest == [] || rest[0] != '['
    ensures ReadLabels(rest) == ([], rest)
  {
  }

  /** One step of `ReadLabelsOf`: a first label in front of labels that read back. */
  lemma ReadLabelsCons(ls: seq<string>, rest: string)
    requires ls != [] && ']' !in ls[0]
    requires ReadLabels(Labels(ls[1..]) + rest) == (ls[1..], rest)
    ensures ReadLabels(Labels(ls) + rest) == (ls, rest)
  {
    LabelsCons(ls, rest);
    ReadOneLabel(ls[0], Labels(ls[1..]) + rest);
    assert [ls[0]] + ls[1..] == ls;
  }

  lemma {:induction false} ReadLabelsOf(ls: seq<string>, rest: string)
    requires forall i :: 0 <= i < |ls| ==> Plain(ls[i])
    requires rest == [] || rest[0] != '['
    ensures ReadLabels(Labels(ls) + rest) == (ls, rest)
    decreases |ls|
  {
    if ls != [] {
      assert Plain(ls[0]);
      assert forall i :: 0 <= i < |ls[1..]| ==> Plain(ls[1..][i]) by {
        forall i | 0 <= i < |ls[1..]| ensures Plain(ls[1..][i]) { assert ls[1..][i] == ls[i + 1]; }
      }
      ReadLabelsOf(ls[1..], rest);
      ReadLabelsCons(ls, rest);
    } else {
      assert Labels(ls) + rest == rest;
      NoLabel(rest);
    }
  }

  lemma {:induction false} LabelsPlain(ls: seq<string>)
    requires forall i :: 0 <= i < |ls| ==> Plain(ls[i])
    ensures ';' !in Labels(ls)
    ensures Labels(ls) == [] || Labels(ls)[0] == '['
    decreases |ls|
  {
    if ls != [] {
      LabelsPlain(ls[1..]);
      assert Plain(ls[0]);
      assert ';' !in ls[0];
    }
  }

  /** After the input pads: the filter runs up to the first `[`, and the
      output pads follow it. */
  lemma {:induction false} ReadFilterAndOutputs(filter: string, outs: seq<string>)
    requires Plain(filter)
    requires forall i :: 0 <= i < |outs| ==> Plain(outs[i])
    ensures var text := filter + Labels(outs);
            var k := IndexOf('[', text);
            text[..k] == filter && ReadLabels(text[k..]).0 == outs
  {
    var text := filter + Labels(outs);
    LabelsPlain(outs);
    assert '[' !in filter;
    IndexOfAfter('[', filter, Labels(outs));
    assert text[..|filter|] == filter;
    assert text[|filter|..] == Labels(outs) + "";
    ReadLabelsOf(outs, "");
  }

  /** A rendered well-formed stage holds no chain separator. */
  lemma {:induction false} RenderPlain(st: FilterStage)
    requires WellFormed(st)
    ensures ';' !in Render(st)
  {
    LabelsPlain(st.outputs);
    LabelsPlain(st.inputs);
    assert ';' !in st.filter;
  }

  /** A well-formed stage reads back as itself. */
  lemma RenderParse(st: FilterStage)
    requires WellFormed(st)
    ensures ParseStage(Render(st)) == st
    ensures ';' !in Render(st)
  {
    var afterIns := st.filter + Labels(st.outputs);
    assert Render(st) == Labels(st.inputs) + afterIns;
    assert afterIns[0] != '[' by { assert Plain(st.filter); }
    ReadLabelsOf(st.inputs, afterIns);
    ReadFilterAndOutputs(st.filter, st.outputs);
    RenderPlain(st);
  }

  lemma NatToStringPlain(n: nat)
    ensures Plain(NatToString(n))
  {
    var s := NatToString(n);
    assert AllDigits(s);
  }

  lemma ClipStageWellFormed(i: nat, edit: EditPoint)
    ensures WellFormed(ClipStage(i, edit))
  {
    NatToStringPlain(i);
    assert Plain(InputPad(i));
    assert Plain(StreamLabel(i));
    assert Plain(FadeIn);
    assert Plain("copy");
  }

  lemma ConcatStageWellFormed(n: nat)
    ensures WellFormed(ConcatStage(n))
  {
    forall j | 0 <= j < n ensures Plain(StreamLabels(n)[j]) {
      NatToStringPlain(j);
    }
    NatToStringPlain(n);
    assert Plain("outv");
    assert Plain(ConcatFilter(n));
  }

  lemma StagesWellFormed(timeline: seq<EditPoint>, i: nat)
    requires i < |Stages(timeline)|
    ensures WellFormed(Stages(timeline)[i])
  {
    var n := |timeline|;
    if i < n {
      assert Stages(timeline)[i] == ClipStage(i, timeline[i]);
      ClipStageWellFormed(i, timeline[i]);
    } else {
      assert Stages(timeline)[i] == ConcatStage(n);
      ConcatStageWellFormed(n);
    }
  }

  /** The rendered graph reads back as exactly its stages: one chain per
      edit point, then the concat chain, separated by `;`. */
  lemma GraphRoundTrip(timeline: seq<EditPoint>)
    ensures ParseGraph(Graph(timeline)) == Stages(timeline)
  {
    var sts := Stages(timeline);
    var texts := RenderAll(sts);
    forall i | 0 <= i < |sts| ensures ';' !in texts[i] && ParseStage(texts[i]) == sts[i] {
      StagesWellFormed(timeline, i);
      RenderParse(sts[i]);
    }
    SplitJoin(';', texts);
  }

  /** Chain i of the graph, read back from its text: it reads input i's
      video and writes `v{i}`, fading in exactly when the edit point's
      in-transition is `fade` and copying otherwise; the concat chain reads
      `v{i}` in position i, so clip i is concatenated i-th. */
  lemma {:induction false} GraphChain(timeline: seq<EditPoint>, i: nat)
    requires i < |timeline|
    ensures |ParseGraph(Graph(timeline))| == |timeline| + 1
    ensures ParseGraph(Graph(timeline))[i].inputs == [NatToString(i) + ":v"]
    ensures ParseGraph(Graph(timeline))[i].outputs == ["v" + NatToString(i)]
    ensures timeline[i].transitions.inKind == "fade" ==>
              ParseGraph(Graph(timeline))[i].filter == "fade=t=in:st=0:d=1"
    ensures timeline[i].transitions.inKind != "fade" ==>
              ParseGraph(Graph(timeline))[i].filter == "copy"
    ensures |ParseGraph(Graph(timeline))[|timeline|].inputs| == |timeline|
    ensures ParseGraph(Graph(timeline))[|timeline|].inputs[i] == "v" + NatToString(i)
  {
    GraphRoundTrip(timeline);
    var sts := Stages(timeline);
    assert sts[i] == ClipStage(i, timeline[i]);
    assert sts[|timeline|] == ConcatStage(|timeline|);
  }

  /** The last chain of the graph, read back from its text: it concatenates
      the N clip streams with `n=N:v=1:a=0` into `outv`. */
  lemma {:induction false} GraphConcat(timeline: seq<EditPoint>)
    ensures |ParseGraph(Graph(timeline))| == |timeline| + 1
    ensures ParseGraph(Graph(timeline))[|timeline|] ==
              FilterStage(StreamLabels(|timeline|),
                          "concat=n=" + NatToString(|timeline|) + ":v=1:a=0", ["outv"])
  {
    GraphRoundTrip(timeline);
    assert Stages(timeline)[|timeline|] == ConcatStage(|timeline|);
  }

  /** An empty timeline gives the lone concat chain with n=0 (no error). */
  lemma EmptyGraph()
    ensures Graph([]) == "concat=n=0:v=1:a=0[outv]"
  {
    var text := Render(ConcatStage(0));
    assert RenderAll(Stages([])) == [text];
    assert Join(";", [text]) == text;
    EmptyConcatText();
  }

  lemma EmptyConcatText()
    ensures Render(ConcatStage(0)) == "concat=n=0:v=1:a=0[outv]"
  {
    assert NatToString(0) == "0";
    assert Labels(["outv"]) == "[outv]";
    assert Labels(StreamLabels(0)) == "";
    assert "concat=n=" + "0" == "concat=n=0";
    assert "concat=n=0" + ":v=1:a=0" == "concat=n=0:v=1:a=0";
    assert "concat=n=0:v=1:a=0" + "[outv]" == "concat=n=0:v=1:a=0[outv]";
  }

  /** A one-input, one-output chain on input i's video, as text. */
  lemma {:induction false} ChainText(i: nat, f: string)
    ensures Render(FilterStage([InputPad(i)], f, [StreamLabel(i)])) ==
              "[" + NatToString(i) + ":v]" + f + "[v" + NatToString(i) + "]"
  {
    var d := NatToString(i);
    assert Labels([InputPad(i)]) == "[" + (d + ":v") + "]";
    assert Labels([StreamLabel(i)]) == "[" + ("v" + d) + "]";
    assert "[" + (d + ":v") + "]" == "[" + d + ":v]";
    assert "[" + ("v" + d) + "]" == "[v" + d + "]";
  }

  /** The text of clip stage i, as the f-strings of the assembler write it. */
  lemma {:induction false} ClipStageText(i: nat, edit: EditPoint)
    ensures edit.transitions.inKind == "fade" ==>
              Render(ClipStage(i, edit)) ==
                "[" + NatToString(i) + ":v]" + "fade=t=in:st=0:d=1" + "[v" + NatToString(i) + "]"
    ensures edit.transitions.inKind != "fade" ==>
              Render(ClipStage(i, edit)) == "[" + NatToString(i) + ":v]" + "copy" + "[v" + NatToString(i) + "]"
  {
    ChainText(i, ClipFilter(edit));
  }

  /** `"".join(f"[v{i}]" for i in range(n))`, built up one label at a time. */
  lemma {:induction false} StreamLabelsSnoc(n: nat)
    ensures Labels(StreamLabels(n + 1)) == Labels(StreamLabels(n)) + "[" + StreamLabel(n) + "]"
  {
    LabelsAppend(StreamLabels(n), [StreamLabel(n)]);
    assert StreamLabels(n + 1) == StreamLabels(n) + [StreamLabel(n)];
  }

  lemma {:induction false} LabelsAppend(a: seq<string>, b: seq<string>)
    ensures Labels(a + b) == Labels(a) + Labels(b)
    decreases |a|
  {
    if a != [] {
      assert (a + b)[1..] == a[1..] + b;
      LabelsAppend(a[1..], b);
    } else {
      assert a + b == b;
    }
  }
}
