/**
 * The layer segmenter `parse_gcode_layers`: one pass over the lines of a file
 * that sorts them into setup lines and layer blocks.
 *
 * `Step`, `Scan` and `Finish` give the pass as a fold over the lines; the
 * method `ParseLayers` is the loop itself and is proved to compute `Segment`.
 * The lemmas below say what `Segment` returns without reference to the fold.
 *
 * As written, the test that decides whether a line is a setup line asks
 * whether any layer has been FINISHED, not whether a marker has been seen.
 * So the lines between the first and the second marker are setup lines and
 * the first layer holds its marker line only (`SegmentSplit`); the setup and
 * the layers put back together give the input again exactly when no line sits
 * between those two markers (`SegmentLosslessIff`).
 */
module Segmenter {
  import opened GcodeLines

  datatype Segmented = Segmented(setup: seq<string>, layers: seq<seq<string>>)

  /** The three lists the loop updates. */
  datatype ScanState = ScanState(setup: seq<string>, layers: seq<seq<string>>, current: seq<string>)

  const Start := ScanState([], [], [])

  /** One iteration of the loop body: it finishes at most one layer and keeps those already finished. */
  function Step(st: ScanState, line: string): (r: ScanState)
    ensures |st.layers| <= |r.layers| <= |st.layers| + 1
    ensures r.layers[..|st.layers|] == st.layers
  {
    var st' :=
      if IsMarker(line) && st.current != [] then ScanState(st.setup, st.layers + [st.current], [])
      else st;
    if st'.layers == [] && !IsMarker(line) then st'.(setup := st'.setup + [line])
    else st'.(current := st'.current + [line])
  }

  /**
   * A layer is finished only at a marker and only when it is not empty, and
   * it is pushed as it is; a marker always opens a new current layer; the
   * setup is closed once a layer is finished.
   */
  lemma StepShape(st: ScanState, line: string)
    ensures var r := Step(st, line);
      r.layers == st.layers || (IsMarker(line) && st.current != [] && r.layers == st.layers + [st.current])
    ensures IsMarker(line) ==> Step(st, line).current == [line] && Step(st, line).setup == st.setup
    ensures st.layers != [] ==> Step(st, line).setup == st.setup
  {
  }

  /** A step loses no line and adds none but the one it reads. */
  lemma {:induction false} StepKeepsLines(st: ScanState, line: string)
    ensures var r := Step(st, line);
      multiset(r.setup) + multiset(Flatten(r.layers)) + multiset(r.current)
      == multiset(st.setup) + multiset(Flatten(st.layers)) + multiset(st.current) + multiset{line}
  {
    if IsMarker(line) && st.current != [] {
      FlattenAppend(st.layers, [st.current]);
      assert Flatten([st.current]) == st.current + Flatten([]);
      assert Step(st, line) == ScanState(st.setup, st.layers + [st.current], [line]);
    } else if st.layers == [] && !IsMarker(line) {
      assert Step(st, line) == st.(setup := st.setup + [line]);
    } else {
      assert Step(st, line) == st.(current := st.current + [line]);
    }
  }

  function Scan(st: ScanState, lines: seq<string>): ScanState
    decreases |lines|
  {
    if lines == [] then st else Scan(Step(st, lines[0]), lines[1..])
  }

  /** After the loop, a non-empty current layer is pushed. */
  function Finish(st: ScanState): (r: Segmented)
    ensures r.setup == st.setup && st.layers <= r.layers
    ensures |r.layers| == |st.layers| + (if st.current == [] then 0 else 1)
    ensures Flatten(r.layers) == Flatten(st.layers) + st.current
  {
    FlattenAppend(st.layers, [st.current]);
    assert Flatten([st.current]) == st.current;
    if st.current != [] then Segmented(st.setup, st.layers + [st.current])
    else Segmented(st.setup, st.layers)
  }

  /** A fold that starts with no empty layer finishes none. */
  lemma {:induction false} ScanLayersNonEmpty(st: ScanState, lines: seq<string>)
    requires forall k | 0 <= k < |st.layers| :: st.layers[k] != []
    ensures forall k | 0 <= k < |Scan(st, lines).layers| :: Scan(st, lines).layers[k] != []
    decreases |lines|
  {
    if lines != [] {
      StepShape(st, lines[0]);
      ScanLayersNonEmpty(Step(st, lines[0]), lines[1..]);
    }
  }

  /** `parse_gcode_layers`: no layer it returns is empty. */
  function Segment(lines: seq<string>): (r: Segmented)
    ensures forall k | 0 <= k < |r.layers| :: r.layers[k] != []
  {
    ScanLayersNonEmpty(Start, lines);
    Finish(Scan(Start, lines))
  }

  /** The loop of the source, over three local lists. */
  method ParseLayers(lines: seq<string>) returns (setup: seq<string>, layers: seq<seq<string>>)
    ensures Segmented(setup, layers) == Segment(lines)
    ensures |layers| == CountMarkers(lines)
    ensures AllBlocks(layers) && NoMarkerLine(setup)
  {
    var current: seq<string> := [];
    setup, layers := [], [];
    for k := 0 to |lines|
      invariant Scan(ScanState(setup, layers, current), lines[k..]) == Scan(Start, lines)
    {
      assert lines[k..] == [lines[k]] + lines[k + 1..];
      var line := lines[k];
      if IsMarker(line) {
        if current != [] {
          layers := layers + [current];
          current := [];
        }
      }
      if layers == [] && !IsMarker(line) {
        setup := setup + [line];
      } else {
        current := current + [line];
      }
    }
    if current != [] {
      layers := layers + [current];
    }
    SegmentLayerCount(lines);
    SegmentBlocks(lines);
  }

  lemma {:induction false} ScanAppend(st: ScanState, a: seq<string>, b: seq<string>)
    ensures Scan(st, a + b) == Scan(Scan(st, a), b)
    decreases |a|
  {
    if a != [] {
      assert (a + b)[1..] == a[1..] + b;
      ScanAppend(Step(st, a[0]), a[1..], b);
    } else {
      assert a + b == b;
    }
  }

  /** While no layer is finished, lines that are not markers go to the setup. */
  lemma {:induction false} ScanBeforeLayers(st: ScanState, s: seq<string>)
    requires st.layers == [] && NoMarkerLine(s)
    ensures Scan(st, s) == st.(setup := st.setup + s)
    decreases |s|
  {
    if s != [] {
      assert Step(st, s[0]) == st.(setup := st.setup + [s[0]]);
      ScanBeforeLayers(Step(st, s[0]), s[1..]);
      assert st.setup + [s[0]] + s[1..] == st.setup + s;
    }
  }

  /** Once a layer is finished: the setup is sealed and every line goes to a layer. */
  ghost predicate InLayers(st: ScanState) {
    st.layers != [] && IsBlock(st.current) && AllBlocks(st.layers)
  }

  /** One line once a layer is finished: a marker pushes the current layer, any other line extends it. */
  lemma {:induction false} StepInLayers(st: ScanState, x: string)
    requires InLayers(st)
    ensures InLayers(Step(st, x))
    ensures Step(st, x).setup == st.setup
    ensures |Step(st, x).layers| == |st.layers| + (if IsMarker(x) then 1 else 0)
    ensures Step(st, x).layers[..|st.layers|] == st.layers
    ensures Flatten(Step(st, x).layers) + Step(st, x).current == Flatten(st.layers) + st.current + [x]
  {
    if IsMarker(x) {
      assert Step(st, x) == ScanState(st.setup, st.layers + [st.current], [x]);
      FlattenAppend(st.layers, [st.current]);
      assert Flatten([st.current]) == st.current + Flatten([]);
    } else {
      assert Step(st, x) == st.(current := st.current + [x]);
      assert (st.current + [x])[1..] == st.current[1..] + [x];
    }
  }

  lemma {:induction false} ScanInLayers(st: ScanState, s: seq<string>)
    requires InLayers(st)
    ensures InLayers(Scan(st, s))
    ensures Scan(st, s).setup == st.setup
    ensures |Scan(st, s).layers| == |st.layers| + CountMarkers(s)
    ensures Scan(st, s).layers[..|st.layers|] == st.layers
    ensures Flatten(Scan(st, s).layers) + Scan(st, s).current == Flatten(st.layers) + st.current + s
    decreases |s|
  {
    if s != [] {
      var st' := Step(st, s[0]);
      StepInLayers(st, s[0]);
      ScanInLayers(st', s[1..]);
      var r := Scan(st', s[1..]);
      assert Scan(st, s) == r;
      assert r.layers[..|st.layers|] == r.layers[..|st'.layers|][..|st.layers|];
      calc {
        Flatten(r.layers) + r.current;
        Flatten(st'.layers) + st'.current + s[1..];
        Flatten(st.layers) + st.current + [s[0]] + s[1..];
        { assert [s[0]] + s[1..] == s; }
        Flatten(st.layers) + st.current + s;
      }
    }
  }

  /**
   * The shape of the result on an input with a marker: `pre` is what comes
   * before the first marker `m`, `mid` what lies between it and the second
   * marker, `rest` everything from the second marker on.
   */
  lemma {:induction false} SegmentSplit(lines: seq<string>, pre: seq<string>, m: string, mid: seq<string>, rest: seq<string>)
    requires lines == pre + [m] + mid + rest
    requires NoMarkerLine(pre) && IsMarker(m) && NoMarkerLine(mid)
    requires rest == [] || IsMarker(rest[0])
    ensures Segment(lines).setup == pre + mid
    ensures |Segment(lines).layers| == 1 + CountMarkers(rest)
    ensures Segment(lines).layers[0] == [m]
    ensures Flatten(Segment(lines).layers) == [m] + rest
    ensures AllBlocks(Segment(lines).layers)
  {
    ScanAppend(Start, pre + [m] + mid, rest);
    ScanToSecondMarker(pre, m, mid);
    var s2 := ScanState(pre + mid, [], [m]);
    if rest == [] {
      assert lines == pre + [m] + mid;
      assert Segment(lines) == Segmented(pre + mid, [[m]]);
      assert Flatten([[m]]) == [m];
    } else {
      ScanFromSecondMarker(s2, rest);
    }
  }

  /** Up to the second marker: `pre` and `mid` are setup, the current layer is `[m]`. */
  lemma {:induction false} ScanToSecondMarker(pre: seq<string>, m: string, mid: seq<string>)
    requires NoMarkerLine(pre) && IsMarker(m) && NoMarkerLine(mid)
    ensures Scan(Start, pre + [m] + mid) == ScanState(pre + mid, [], [m])
  {
    ScanAppend(Start, pre + [m], mid);
    ScanAppend(Start, pre, [m]);
    ScanBeforeLayers(Start, pre);
    var s0 := ScanState(pre, [], []);
    assert Scan(Start, pre) == s0 by { assert [] + pre == pre; }
    var s1 := ScanState(pre, [], [m]);
    assert Step(s0, m) == s1;
    assert Scan(s0, [m]) == Scan(s1, []);
    ScanBeforeLayers(s1, mid);
  }

  /** The second marker pushes the first layer. */
  lemma {:induction false} EnterLayers(s2: ScanState, rest: seq<string>)
    requires s2.layers == [] && |s2.current| == 1 && IsMarker(s2.current[0])
    requires rest != [] && IsMarker(rest[0])
    ensures Scan(s2, rest) == Scan(ScanState(s2.setup, [s2.current], [rest[0]]), rest[1..])
    ensures InLayers(ScanState(s2.setup, [s2.current], [rest[0]]))
    ensures Flatten([s2.current]) == s2.current
  {
    assert Step(s2, rest[0]) == ScanState(s2.setup, [s2.current], [rest[0]]);
    assert Flatten([s2.current]) == s2.current + Flatten([]);
  }

  /** From the second marker on: the first layer is pushed, then every line goes to a layer. */
  lemma {:induction false} ScanFromSecondMarker(s2: ScanState, rest: seq<string>)
    requires s2.layers == [] && |s2.current| == 1 && IsMarker(s2.current[0])
    requires rest != [] && IsMarker(rest[0])
    ensures Finish(Scan(s2, rest)).setup == s2.setup
    ensures |Finish(Scan(s2, rest)).layers| == 1 + CountMarkers(rest)
    ensures Finish(Scan(s2, rest)).layers[0] == s2.current
    ensures Flatten(Finish(Scan(s2, rest)).layers) == s2.current + rest
    ensures AllBlocks(Finish(Scan(s2, rest)).layers)
  {
    EnterLayers(s2, rest);
    FinishAfterSecondMarker(s2, rest);
  }

  /** The rest of the input after the second marker, once the first layer is pushed. */
  lemma {:induction false} FinishAfterSecondMarker(s2: ScanState, rest: seq<string>)
    requires s2.layers == [] && |s2.current| == 1 && IsMarker(s2.current[0])
    requires rest != [] && IsMarker(rest[0])
    ensures var f := Finish(Scan(ScanState(s2.setup, [s2.current], [rest[0]]), rest[1..]));
      f.setup == s2.setup && |f.layers| == 1 + CountMarkers(rest) && f.layers[0] == s2.current
      && Flatten(f.layers) == s2.current + rest && AllBlocks(f.layers)
  {
    var s3 := ScanState(s2.setup, [s2.current], [rest[0]]);
    assert InLayers(s3) by {
      EnterLayers(s2, rest);
    }
    FinishFromFirstLayer(s3, rest[1..]);
    assert rest == [rest[0]] + rest[1..];
    CountMarkersAppend([rest[0]], rest[1..]);
    assert Flatten(s3.layers) == s2.current;
  }

  /** With exactly one layer finished, the rest of the input only adds layers. */
  lemma {:induction false} FinishFromFirstLayer(s3: ScanState, tail: seq<string>)
    requires InLayers(s3) && |s3.layers| == 1
    ensures Finish(Scan(s3, tail)).setup == s3.setup
    ensures |Finish(Scan(s3, tail)).layers| == 2 + CountMarkers(tail)
    ensures Finish(Scan(s3, tail)).layers[0] == s3.layers[0]
    ensures Flatten(Finish(Scan(s3, tail)).layers) == Flatten(s3.layers) + s3.current + tail
    ensures AllBlocks(Finish(Scan(s3, tail)).layers)
  {
    ScanInLayers(s3, tail);
    var r := Scan(s3, tail);
    FinishInLayers(r);
    assert r.layers[0] == r.layers[..1][0];
  }

  /** Finishing a state inside the layers pushes the current layer. */
  lemma {:induction false} FinishInLayers(r: ScanState)
    requires InLayers(r)
    ensures Finish(r) == Segmented(r.setup, r.layers + [r.current])
    ensures Flatten(Finish(r).layers) == Flatten(r.layers) + r.current
    ensures AllBlocks(Finish(r).layers)
    ensures Finish(r).layers[0] == r.layers[0]
  {
  }

  /** Every input with a marker has the decomposition that `SegmentSplit` expects. */
  lemma SplitAtMarkers(lines: seq<string>) returns (pre: seq<string>, m: string, mid: seq<string>, rest: seq<string>)
    requires !NoMarkerLine(lines)
    ensures lines == pre + [m] + mid + rest
    ensures NoMarkerLine(pre) && IsMarker(m) && NoMarkerLine(mid)
    ensures rest == [] || IsMarker(rest[0])
  {
    var post;
    pre, m, post := FirstMarker(lines);
    if NoMarkerLine(post) {
      mid, rest := post, [];
    } else {
      var m2, post2;
      mid, m2, post2 := FirstMarker(post);
      rest := [m2] + post2;
    }
  }

  lemma {:induction false} FirstMarker(s: seq<string>) returns (pre: seq<string>, m: string, post: seq<string>)
    requires !NoMarkerLine(s)
    ensures s == pre + [m] + post
    ensures NoMarkerLine(pre) && IsMarker(m)
    decreases |s|
  {
    if IsMarker(s[0]) {
      pre, m, post := [], s[0], s[1..];
    } else {
      assert !NoMarkerLine(s[1..]) by {
        var k :| 0 <= k < |s| && IsMarker(s[k]);
        assert s[1..][k - 1] == s[k];
      }
      var pre';
      pre', m, post := FirstMarker(s[1..]);
      pre := [s[0]] + pre';
    }
  }

  /** A file without markers is all setup and has no layers. */
  lemma SegmentNoMarkers(lines: seq<string>)
    requires NoMarkerLine(lines)
    ensures Segment(lines) == Segmented(lines, [])
  {
    ScanBeforeLayers(Start, lines);
  }

  /** One layer per marker line: the first marker opens a layer and pushes nothing. */
  lemma SegmentLayerCount(lines: seq<string>)
    ensures |Segment(lines).layers| == CountMarkers(lines)
  {
    if NoMarkerLine(lines) {
      SegmentNoMarkers(lines);
    } else {
      var pre, m, mid, rest := SplitAtMarkers(lines);
      SegmentSplit(lines, pre, m, mid, rest);
      CountMarkersAppend(pre + [m] + mid, rest);
      CountMarkersAppend(pre + [m], mid);
      CountMarkersAppend(pre, [m]);
    }
  }

  /** Each layer starts with its marker and holds no other; the setup holds none. */
  lemma SegmentBlocks(lines: seq<string>)
    ensures AllBlocks(Segment(lines).layers)
    ensures forall k | 0 <= k < |Segment(lines).layers| :: CountMarkers(Segment(lines).layers[k]) == 1
    ensures NoMarkerLine(Segment(lines).setup)
  {
    if NoMarkerLine(lines) {
      SegmentNoMarkers(lines);
    } else {
      var pre, m, mid, rest := SplitAtMarkers(lines);
      SegmentSplit(lines, pre, m, mid, rest);
      assert NoMarkerLine(pre + mid);
    }
  }

  /** Every input line lands in exactly one place: the setup or one layer. */
  lemma SegmentKeepsEveryLine(lines: seq<string>)
    ensures multiset(Segment(lines).setup) + multiset(Flatten(Segment(lines).layers)) == multiset(lines)
    ensures |Segment(lines).setup| + |Flatten(Segment(lines).layers)| == |lines|
  {
    if NoMarkerLine(lines) {
      SegmentNoMarkers(lines);
    } else {
      var pre, m, mid, rest := SplitAtMarkers(lines);
      SegmentSplit(lines, pre, m, mid, rest);
      assert multiset(lines) == multiset(pre) + multiset([m]) + multiset(mid) + multiset(rest);
      assert multiset(pre + mid) == multiset(pre) + multiset(mid);
      assert multiset([m] + rest) == multiset([m]) + multiset(rest);
    }
  }

  /** The layers are empty exactly when the file has no marker line. */
  lemma SegmentNoLayersIff(lines: seq<string>)
    ensures Segment(lines).layers == [] <==> NoMarkerLine(lines)
  {
    SegmentLayerCount(lines);
  }

  /**
   * Setup followed by the layers gives back the input exactly when no line
   * lies between the first and the second marker.
   */
  lemma {:induction false} SegmentLosslessIff(lines: seq<string>, pre: seq<string>, m: string, mid: seq<string>, rest: seq<string>)
    requires lines == pre + [m] + mid + rest
    requires NoMarkerLine(pre) && IsMarker(m) && NoMarkerLine(mid)
    requires rest == [] || IsMarker(rest[0])
    ensures Segment(lines).setup + Flatten(Segment(lines).layers) == lines <==> mid == []
  {
    SegmentSplit(lines, pre, m, mid, rest);
    var joined := Segment(lines).setup + Flatten(Segment(lines).layers);
    assert joined == pre + mid + [m] + rest;
    if mid != [] {
      assert joined[|pre|] == mid[0];
      assert lines[|pre|] == m;
      assert !IsMarker(mid[0]);
    }
  }

  /** A layer whose body has a line: that line is moved ahead of its own marker. */
  lemma SegmentReordersFirstLayer()
    ensures Segment([";LAYER:0\n", "G1 X1\n", ";LAYER:1\n"])
      == Segmented(["G1 X1\n"], [[";LAYER:0\n"], [";LAYER:1\n"]])
  {
    var lines := [";LAYER:0\n", "G1 X1\n", ";LAYER:1\n"];
    assert IsMarker(";LAYER:0\n") && IsMarker(";LAYER:1\n");
    assert !IsMarker("G1 X1\n") by { assert "G1 X1\n"[0] != LayerPrefix[0]; }
    SegmentSplit(lines, [], ";LAYER:0\n", ["G1 X1\n"], [";LAYER:1\n"]);
    assert lines == [] + [";LAYER:0\n"] + ["G1 X1\n"] + [";LAYER:1\n"];
    var sg := Segment(lines);
    assert |sg.layers| == 2;
    assert sg.layers[0] == [";LAYER:0\n"];
    assert Flatten(sg.layers) == sg.layers[0] + sg.layers[1] + Flatten(sg.layers[2..]);
    assert sg.layers[1] == [";LAYER:1\n"];
  }
}
