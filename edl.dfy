/**
  * The shot list a `VideoAssembler` reads and the edit decision list (EDL)
  * it builds from it: one edit point per shot, timed by a running sum of
  * the shot durations. `BuildEdl` is the specification of the assembler's
  * loop; the lemmas below state the timing and naming guarantees.
  */
module Edl {
  import opened Strings

  datatype Option<T> = None | Some(value: T)

  /** The `transitions` entry of a shot: its `in` and `out` kinds ("cut", "fade", ...). */
  datatype Transitions = Transitions(inKind: string, outKind: string)

  const DefaultTransitions := Transitions("cut", "cut")

  /** One shot of the parsed shot list. A shot without `shot_number` or
      `duration` makes the source raise `KeyError`; such shots are not values here. */
  datatype Shot = Shot(shotNumber: nat, duration: int, transitions: Option<Transitions>)

  /** The parsed shot-list document; both keys may be absent. */
  datatype ShotList = ShotList(projectName: Option<string>, shots: Option<seq<Shot>>)

  datatype EditPoint = EditPoint(
    shotNumber: nat,
    inPoint: int,
    outPoint: int,
    filePath: string,
    transitions: Transitions)

  datatype EditDecisionList = EditDecisionList(
    version: string,
    projectName: string,
    timeline: seq<EditPoint>)

  /** Where the clip of a shot is expected, relative to the project directory. */
  function ClipPath(shotNumber: nat): string
  {
    "shots/shot_" + Pad3(shotNumber) + ".mp4"
  }

  function TransitionsOrDefault(t: Option<Transitions>): Transitions
  {
    if t.Some? then t.value else DefaultTransitions
  }

  /** The edit point of `shot` when it starts at `start`. */
  function EditPointAt(shot: Shot, start: int): EditPoint
  {
    EditPoint(shot.shotNumber, start, start + shot.duration,
              ClipPath(shot.shotNumber), TransitionsOrDefault(shot.transitions))
  }

  function TotalDuration(shots: seq<Shot>): int
  {
    if shots == [] then 0 else shots[0].duration + TotalDuration(shots[1..])
  }

  /** The timeline of `shots` laid end to end from time 0: edit point k
      starts at the total duration of the shots before it. */
  function Timeline(shots: seq<Shot>): (r: seq<EditPoint>)
    ensures |r| == |shots|
  {
    seq(|shots|, k requires 0 <= k < |shots| => EditPointAt(shots[k], TotalDuration(shots[..k])))
  }

  function ShotsOf(list: ShotList): seq<Shot>
  {
    if list.shots.Some? then list.shots.value else []
  }

  /** The EDL `create_edit_decision_list` returns for a parsed shot list. */
  function BuildEdl(list: ShotList): EditDecisionList
  {
    EditDecisionList(
      "1.0",
      if list.projectName.Some? then list.projectName.value else "untitled",
      Timeline(ShotsOf(list)))
  }

  lemma {:induction false} TotalDurationSnoc(shots: seq<Shot>, last: Shot)
    ensures TotalDuration(shots + [last]) == TotalDuration(shots) + last.duration
    decreases |shots|
  {
    if shots != [] {
      assert (shots + [last])[1..] == shots[1..] + [last];
      TotalDurationSnoc(shots[1..], last);
    } else {
      assert (shots + [last])[1..] == [];
    }
  }

  /** The timeline has one edit point per shot, in input order, with the
      shot number copied, the clip path derived from it and the transitions
      copied or defaulted to cut/cut. */
  lemma EdlTimelineShape(list: ShotList, k: nat)
    requires k < |ShotsOf(list)|
    ensures |BuildEdl(list).timeline| == |ShotsOf(list)|
    ensures BuildEdl(list).timeline[k].shotNumber == ShotsOf(list)[k].shotNumber
    ensures BuildEdl(list).timeline[k].filePath == "shots/shot_" + Pad3(ShotsOf(list)[k].shotNumber) + ".mp4"
    ensures ShotsOf(list)[k].transitions.Some? ==>
              BuildEdl(list).timeline[k].transitions == ShotsOf(list)[k].transitions.value
    ensures ShotsOf(list)[k].transitions.None? ==>
              BuildEdl(list).timeline[k].transitions == Transitions("cut", "cut")
  {
  }

  /** The fixed header fields, and the empty timeline of a list without shots. */
  lemma EdlHeader(list: ShotList)
    ensures BuildEdl(list).version == "1.0"
    ensures list.projectName.None? ==> BuildEdl(list).projectName == "untitled"
    ensures list.projectName.Some? ==> BuildEdl(list).projectName == list.projectName.value
    ensures list.shots.None? ==> BuildEdl(list).timeline == []
  {
  }

  /** One more shot of the running sum: the timeline of the first i+1
      shots is that of the first i shots plus an edit point starting at
      their total duration. */
  lemma {:induction false} TimelineExtend(shots: seq<Shot>, i: nat)
    requires i < |shots|
    ensures Timeline(shots)[..i + 1] ==
              Timeline(shots)[..i] + [EditPointAt(shots[i], TotalDuration(shots[..i]))]
    ensures TotalDuration(shots[..i + 1]) == TotalDuration(shots[..i]) + shots[i].duration
  {
    TotalDurationPrefix(shots, i + 1);
    PrefixSnoc(Timeline(shots), i);
  }

  lemma PrefixSnoc<T>(s: seq<T>, i: nat)
    requires i < |s|
    ensures s[..i + 1] == s[..i] + [s[i]]
  {
  }

  /** The duration of the first k shots extends that of the first k-1. */
  lemma {:induction false} TotalDurationPrefix(shots: seq<Shot>, k: nat)
    requires 0 < k <= |shots|
    ensures TotalDuration(shots[..k]) == TotalDuration(shots[..k - 1]) + shots[k - 1].duration
  {
    var before, last := shots[..k - 1], shots[k - 1];
    assert shots[..k] == before + [last];
    TotalDurationSnoc(before, last);
  }

  /** One step of the chain: edit point k starts where edit point k-1 ends. */
  lemma {:induction false} TimelineStep(shots: seq<Shot>, k: nat)
    requires 0 < k < |shots|
    ensures Timeline(shots)[k].inPoint == Timeline(shots)[k - 1].outPoint
  {
    TotalDurationPrefix(shots, k);
  }

  /** The last edit point ends at the sum of all durations. */
  lemma {:induction false} TimelineEnd(shots: seq<Shot>)
    requires shots != []
    ensures Timeline(shots)[|shots| - 1].outPoint == TotalDuration(shots)
  {
    var n := |shots|;
    TotalDurationPrefix(shots, n);
    assert shots[..n] == shots;
  }

  /** Timing chains: the first edit point starts at 0, each one lasts its
      shot's duration, each later one starts where the previous one ends,
      and the last one ends at the sum of all durations. */
  lemma {:induction false} TimelineChains(shots: seq<Shot>)
    ensures shots != [] ==> Timeline(shots)[0].inPoint == 0
    ensures forall k :: 0 <= k < |shots| ==>
              Timeline(shots)[k].outPoint == Timeline(shots)[k].inPoint + shots[k].duration
    ensures forall k :: 0 < k < |shots| ==>
              Timeline(shots)[k].inPoint == Timeline(shots)[k - 1].outPoint
    ensures shots != [] ==> Timeline(shots)[|shots| - 1].outPoint == TotalDuration(shots)
  {
    if shots != [] {
      assert shots[..0] == [];
      TimelineEnd(shots);
    }
    forall k | 0 < k < |shots|
      ensures Timeline(shots)[k].inPoint == Timeline(shots)[k - 1].outPoint
    {
      TimelineStep(shots, k);
    }
  }

  /** The clip path is `shots/shot_<digits>.mp4`, where the digits (at
      least three) read back as the shot number. */
  lemma ClipPathDigits(shotNumber: nat)
    ensures var p := ClipPath(shotNumber);
            |p| >= 18 && p[..11] == "shots/shot_" && p[|p| - 4..] == ".mp4" &&
            AllDigits(p[11..|p| - 4]) && DecimalValue(p[11..|p| - 4]) == shotNumber
  {
    var p := ClipPath(shotNumber);
    Pad3RoundTrip(shotNumber);
    assert p[11..|p| - 4] == Pad3(shotNumber);
  }

  /** Distinct shot numbers name distinct clip files. */
  lemma ClipPathInjective(m: nat, n: nat)
    requires ClipPath(m) == ClipPath(n)
    ensures m == n
  {
    ClipPathDigits(m);
    ClipPathDigits(n);
  }
}
