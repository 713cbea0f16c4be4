/**
 * The merger `merge_gcode`: setup of the first file, its first layers, the
 * nozzle-change block, setup of the second file, its remaining layers.
 */
module Merger {
  import opened GcodeLines
  import opened Decimal

  /** A line that ends with its newline and is not a layer marker. */
  predicate PlainLine(line: string) {
    |line| > 0 && line[|line| - 1] == '\n' && !IsMarker(line)
  }

  /** A command line: the G-code words, then ` ; ` and a comment, then the newline. */
  function Command(code: string, comment: string): (line: string)
    ensures |code| > 0 && code[0] != ';' ==> PlainLine(line)
  {
    var line := code + (" ; " + (comment + "\n"));
    assert |code| > 0 ==> line[0] == code[0];
    line
  }

  /** A command line starts with its code, followed by a space. */
  lemma CommandStartsWithCode(code: string, comment: string)
    ensures |Command(code, comment)| > |code|
    ensures Command(code, comment)[..|code|] == code && Command(code, comment)[|code|] == ' '
  {
  }

  /** The reheat command, the only line of the nozzle-change block that depends on the temperature. */
  function ReheatLine(reheatTemp: int): (line: string)
    ensures PlainLine(line)
  {
    Command("M109 S" + DecimalString(reheatTemp),
            "Reheat nozzle to " + DecimalString(reheatTemp) + "°C and wait")
  }

  /** The first line of the block: an empty line, then the banner comment. */
  const Banner: string := "\n" + ("; --- NOZZLE CHANGE: Swap from 0.4mm to 0.25mm ---" + "\n")
  const Retract: string := Command("G1 E-5 F300", "Retract 5mm of filament")
  const RelativeMode: string := Command("G91", "Set to relative positioning")
  const LiftNozzle: string := Command("G1 Z20 F600", "Move nozzle up by 20mm")
  const AbsoluteMode: string := Command("G90", "Set back to absolute positioning")
  const HeaterOff: string := Command("M104 S0", "Turn off extruder heater to prevent burns")
  const PauseForSwap: string := Command("M0", "Pause for nozzle change. Resume after swapping the nozzle.")
  const LowerNozzle: string := Command("G1 Z-20 F600", "Move nozzle back down by 20mm")
  /** The last line of the block: back to absolute positioning, then an empty line. */
  const Closing: string := AbsoluteMode + "\n"

  /** The fixed lines of the block each end with a newline and none is a layer marker. */
  lemma FixedLinesArePlain()
    ensures PlainLine(Banner) && Banner[0] == '\n'
    ensures PlainLine(Retract) && PlainLine(RelativeMode) && PlainLine(LiftNozzle)
    ensures PlainLine(AbsoluteMode) && PlainLine(HeaterOff) && PlainLine(PauseForSwap)
    ensures PlainLine(LowerNozzle)
    ensures PlainLine(Closing) && |Closing| >= 2 && Closing[|Closing| - 2..] == "\n\n"
  {
    assert Banner[0] != LayerPrefix[0];
    assert Closing[0] == AbsoluteMode[0];
  }

  /** The block opens with an empty line and closes with one. */
  lemma BlockEnds()
    ensures |Banner| > 0 && Banner[0] == '\n'
    ensures |Closing| >= 2 && Closing[|Closing| - 2..] == "\n\n"
  {
    FixedLinesArePlain();
  }

  /**
   * The eleven strings appended at the splice point, in order: retract, lift,
   * heater off, pause, reheat and wait, lower back.
   */
  function Transition(reheatTemp: int): (block: seq<string>)
    ensures |block| == 11
    ensures block[7] == ReheatLine(reheatTemp)
    ensures |block[0]| > 0 && block[0][0] == '\n'
    ensures |block[10]| >= 2 && block[10][|block[10]| - 2..] == "\n\n"
  {
    BlockEnds();
    var block := [ Banner, Retract, RelativeMode, LiftNozzle, AbsoluteMode, HeaterOff, PauseForSwap,
                   ReheatLine(reheatTemp),
                   RelativeMode, LowerNozzle, Closing ];
    assert block[0] == Banner && block[10] == Closing;
    block
  }

  /** Every line of the block ends with a newline, and the block adds no layer marker. */
  lemma TransitionLinesArePlain(reheatTemp: int)
    ensures forall k | 0 <= k < 11 :: PlainLine(Transition(reheatTemp)[k])
    ensures NoMarkerLine(Transition(reheatTemp))
  {
    FixedLinesArePlain();
    var block := Transition(reheatTemp);
    assert block == [ Banner, Retract, RelativeMode, LiftNozzle, AbsoluteMode, HeaterOff, PauseForSwap,
                      ReheatLine(reheatTemp), RelativeMode, LowerNozzle, Closing ];
  }

  /** Every line but the reheat command is the same whatever the temperature. */
  lemma TransitionFixedLines(a: int, b: int)
    ensures forall k | 0 <= k < 11 && k != 7 :: Transition(a)[k] == Transition(b)[k]
  {
  }

  /** The text before the first space (all of it when there is none). */
  function UpToSpace(w: string): (r: string)
    ensures r <= w
  {
    if w == [] || w[0] == ' ' then [] else [w[0]] + UpToSpace(w[1..])
  }

  /** From `k`, the text of `line` up to the space at `n` is read back by `UpToSpace`. */
  lemma {:induction false} UpToSpaceAt(line: string, k: nat, n: nat)
    requires k <= n < |line| && line[n] == ' '
    requires forall i | k <= i < n :: line[i] != ' '
    ensures UpToSpace(line[k..]) == line[k..n]
    decreases n - k
  {
    if k < n {
      assert line[k..][1..] == line[k + 1..];
      UpToSpaceAt(line, k + 1, n);
      assert line[k..n] == [line[k]] + line[k + 1..n];
    }
  }

  /** The reheat command names its temperature faithfully: it can be read back from the line. */
  lemma ReheatLineDeterminesTemp(a: int, b: int)
    requires ReheatLine(a) == ReheatLine(b)
    ensures a == b
  {
    var line := ReheatLine(a);
    CommandStartsWithCode("M109 S" + DecimalString(a), "Reheat nozzle to " + DecimalString(a) + "°C and wait");
    CommandStartsWithCode("M109 S" + DecimalString(b), "Reheat nozzle to " + DecimalString(b) + "°C and wait");
    var codeA, codeB := "M109 S" + DecimalString(a), "M109 S" + DecimalString(b);
    assert codeA[6..] == DecimalString(a) && codeB[6..] == DecimalString(b);
    UpToSpaceAt(line, 6, |codeA|);
    UpToSpaceAt(line, 6, |codeB|);
    assert line[6..|codeA|] == codeA[6..];
    assert line[6..|codeB|] == codeB[6..];
    DecimalRoundTrip(a);
    DecimalRoundTrip(b);
  }

  /** Different temperatures give different nozzle-change blocks. */
  lemma TransitionDeterminesTemp(a: int, b: int)
    requires Transition(a) == Transition(b)
    ensures a == b
  {
    assert Transition(a)[7] == Transition(b)[7];
    ReheatLineDeterminesTemp(a, b);
  }

  /**
   * The merged lines, as a value. The nozzle-change block brings no layer
   * marker of its own: every marker of the output comes from a setup or from
   * a layer taken from one of the files.
   */
  function Merged(setupA: seq<string>, layersA: seq<seq<string>>, setupB: seq<string>,
                  layersB: seq<seq<string>>, splice: nat, reheatTemp: int): (r: seq<string>)
    ensures CountMarkers(r) == CountMarkers(setupA) + CountMarkers(Flatten(Take(layersA, splice)))
                             + CountMarkers(setupB) + CountMarkers(Flatten(Drop(layersB, splice)))
  {
    var pa, block, pb := Flatten(Take(layersA, splice)), Transition(reheatTemp), Flatten(Drop(layersB, splice));
    TransitionLinesArePlain(reheatTemp);
    CountMarkersAppend(setupA, pa);
    CountMarkersAppend(setupA + pa, block);
    CountMarkersAppend(setupA + pa + block, setupB);
    CountMarkersAppend(setupA + pa + block + setupB, pb);
    setupA + Flatten(Take(layersA, splice)) + Transition(reheatTemp) + setupB + Flatten(Drop(layersB, splice))
  }

  /**
   * `merge_gcode`: builds the output by successive appends. The eleven
   * appends of the nozzle-change block are one append of `Transition`.
   */
  method MergeGcode(setupA: seq<string>, layersA: seq<seq<string>>, setupB: seq<string>,
                    layersB: seq<seq<string>>, splice: nat, reheatTemp: int)
    returns (merged: seq<string>)
    ensures merged == Merged(setupA, layersA, setupB, layersB, splice, reheatTemp)
  {
    merged := [];
    merged := merged + setupA;
    assert merged == setupA;
    merged := merged + Flatten(Take(layersA, splice));
    merged := merged + Transition(reheatTemp);
    merged := merged + setupB;
    merged := merged + Flatten(Drop(layersB, splice));
  }

  /**
   * What each file contributes: the first file a prefix of its layer lines
   * holding `splice` layers, the second a suffix of its layer lines holding
   * the layers from `splice` on, with the nozzle-change block and the second
   * file's setup between them.
   */
  lemma MergedContributions(setupA: seq<string>, layersA: seq<seq<string>>, setupB: seq<string>,
                            layersB: seq<seq<string>>, splice: nat, reheatTemp: int)
    requires splice <= |layersA| && splice <= |layersB|
    requires AllBlocks(layersA) && AllBlocks(layersB)
    ensures Merged(setupA, layersA, setupB, layersB, splice, reheatTemp)
         == setupA + Flatten(layersA[..splice]) + Transition(reheatTemp) + setupB + Flatten(layersB[splice..])
    ensures Flatten(layersA[..splice]) <= Flatten(layersA)
    ensures CountMarkers(Flatten(layersA[..splice])) == splice
    ensures Flatten(layersB[..splice]) + Flatten(layersB[splice..]) == Flatten(layersB)
    ensures CountMarkers(Flatten(layersB[splice..])) == |layersB| - splice
  {
    assert Take(layersA, splice) == layersA[..splice];
    assert Drop(layersB, splice) == layersB[splice..];
    FlattenSplit(layersA, splice);
    FlattenSplit(layersB, splice);
    FlattenBlocksMarkers(layersA[..splice]);
    FlattenBlocksMarkers(layersB[splice..]);
  }

  /**
   * With setups free of markers and layers that are blocks, the merged lines
   * hold one marker per layer taken from either file and no other.
   */
  lemma MergedMarkerCount(setupA: seq<string>, layersA: seq<seq<string>>, setupB: seq<string>,
                          layersB: seq<seq<string>>, splice: nat, reheatTemp: int)
    requires splice <= |layersA| && splice <= |layersB|
    requires NoMarkerLine(setupA) && NoMarkerLine(setupB)
    requires AllBlocks(layersA) && AllBlocks(layersB)
    ensures CountMarkers(Merged(setupA, layersA, setupB, layersB, splice, reheatTemp))
         == splice + (|layersB| - splice)
  {
    MergedContributions(setupA, layersA, setupB, layersB, splice, reheatTemp);
  }

  /**
   * Splicing at 0 keeps only the second file's layers; splicing at the end of
   * the first file keeps all its layers; splicing at or past the end of the
   * second file keeps none of that file's layers.
   */
  lemma MergedBoundaries(setupA: seq<string>, layersA: seq<seq<string>>, setupB: seq<string>,
                         layersB: seq<seq<string>>, reheatTemp: int)
    ensures Merged(setupA, layersA, setupB, layersB, 0, reheatTemp)
         == setupA + Transition(reheatTemp) + setupB + Flatten(layersB)
    ensures |layersA| <= |layersB| ==>
      Merged(setupA, layersA, setupB, layersB, |layersA|, reheatTemp)
      == setupA + Flatten(layersA) + Transition(reheatTemp) + setupB + Flatten(layersB[|layersA|..])
  {
    assert Flatten(Take(layersA, 0)) == [];
    assert Drop(layersB, 0) == layersB;
    assert setupA + Flatten(Take(layersA, 0)) == setupA;
    assert Take(layersA, |layersA|) == layersA;
    if |layersA| <= |layersB| {
      assert Drop(layersB, |layersA|) == layersB[|layersA|..];
    }
  }

  /** Splicing at or past the last layer of the second file leaves that file's layers out. */
  lemma MergedPastSecondFile(setupA: seq<string>, layersA: seq<seq<string>>, setupB: seq<string>,
                             layersB: seq<seq<string>>, splice: nat, reheatTemp: int)
    requires |layersB| <= splice
    ensures Merged(setupA, layersA, setupB, layersB, splice, reheatTemp)
         == setupA + Flatten(Take(layersA, splice)) + Transition(reheatTemp) + setupB
  {
  }
}
