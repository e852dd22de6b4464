// The stdout protocol between main.py and dashboard.py: main() prints one
// `RESULT_FILE::<path>` and one `PLOT_FILE::<path>` line, and the dashboard
// scans the captured lines for them.

module Markers {
  import opened Wrappers
  import opened Text

  const Separator: string := "::"
  const ResultKey: string := "RESULT_FILE"
  const PlotKey: string := "PLOT_FILE"
  const ResultMarker: string := ResultKey + Separator
  const PlotMarker: string := PlotKey + Separator

  /** A marker ends with the separator. */
  predicate IsMarker(marker: string) {
    |marker| >= |Separator| && marker[|marker| - |Separator|..] == Separator
  }

  /** The keys hold no ':' and no surrounding whitespace. */
  lemma KeysArePlain()
    ensures ':' !in ResultKey && ':' !in PlotKey
    ensures NoEdgeSpace(ResultKey) && NoEdgeSpace(PlotKey)
  {
  }

  /** A line that contains a marker contains the separator, so `split("::")[1]` exists. */
  lemma MarkerHasSeparator(line: string, marker: string)
    requires IsMarker(marker) && Contains(line, marker)
    ensures Contains(line, Separator)
  {
    var i := Find(line, marker);
    var j := i + |marker| - |Separator|;
    assert line[j..j + |Separator|] == line[i..i + |marker|][|marker| - |Separator|..];
    OccurrenceFound(line, Separator, j);
  }

  /**
   * The lines main() prints last, `print(f"RESULT_FILE::{result_file}")` and
   * `print(f"PLOT_FILE::{plot_file}")`, each carrying its own marker.
   */
  function PrintedLines(resultFile: string, plotFile: string): (lines: seq<string>)
    ensures |lines| == 2
    ensures Contains(lines[0], ResultMarker) && Contains(lines[1], PlotMarker)
  {
    var a, b := ResultMarker + resultFile, PlotMarker + plotFile;
    assert a[0..|ResultMarker|] == ResultMarker;
    OccurrenceFound(a, ResultMarker, 0);
    assert b[0..|PlotMarker|] == PlotMarker;
    OccurrenceFound(b, PlotMarker, 0);
    [a, b]
  }

  /**
   * `line.split("::")[1].strip()`: the text between the first separator and the
   * next one (or the end of the line), without surrounding whitespace.
   */
  function Field(line: string): (v: string)
    requires Contains(line, Separator)
    ensures NoEdgeSpace(v)
  {
    Strip(Split(line, Separator)[1])
  }

  /**
   * The value the dashboard ends up with for `marker`: the field of the last line
   * that contains the marker, or None when no line does. Such a value never
   * starts or ends with whitespace.
   */
  function LastMatch(lines: seq<string>, marker: string): (v: Option<string>)
    requires IsMarker(marker)
    ensures v.Some? ==> NoEdgeSpace(v.value)
    decreases |lines|
  {
    if |lines| == 0 then None
    else
      var line := lines[|lines| - 1];
      if Contains(line, marker) then
        MarkerHasSeparator(line, marker);
        Some(Field(line))
      else LastMatch(lines[..|lines| - 1], marker)
  }

  /**
   * dashboard.py's scan of `stdout_lines`: both paths start as None, and every
   * line containing a marker overwrites the matching path.
   */
  method ScanMarkers(lines: seq<string>) returns (resultPath: Option<string>, plotPath: Option<string>)
    ensures resultPath == LastMatch(lines, ResultMarker)
    ensures plotPath == LastMatch(lines, PlotMarker)
  {
    resultPath, plotPath := None, None;
    for i := 0 to |lines|
      invariant resultPath == LastMatch(lines[..i], ResultMarker)
      invariant plotPath == LastMatch(lines[..i], PlotMarker)
    {
      var line := lines[i];
      LastMatchStep(lines, i, ResultMarker);
      LastMatchStep(lines, i, PlotMarker);
      if Contains(line, ResultMarker) {
        MarkerHasSeparator(line, ResultMarker);
        resultPath := Some(Field(line));
      }
      if Contains(line, PlotMarker) {
        MarkerHasSeparator(line, PlotMarker);
        plotPath := Some(Field(line));
      }
    }
    assert lines[..|lines|] == lines;
  }

  /** One more line: it overwrites the value when it holds the marker. */
  lemma LastMatchStep(lines: seq<string>, i: int, marker: string)
    requires IsMarker(marker) && 0 <= i < |lines|
    ensures Contains(lines[i], marker) ==> Contains(lines[i], Separator)
    ensures LastMatch(lines[..i + 1], marker)
      == if Contains(lines[i], marker) then Some(Field(lines[i])) else LastMatch(lines[..i], marker)
  {
    assert lines[..i + 1][..i] == lines[..i];
    if Contains(lines[i], marker) {
      MarkerHasSeparator(lines[i], marker);
    }
  }

  /** `if result_path and plot_path:`: both paths found and neither empty. */
  predicate FilesOffered(resultPath: Option<string>, plotPath: Option<string>) {
    resultPath.Some? && resultPath.value != "" && plotPath.Some? && plotPath.value != ""
  }

  /** A path stays None exactly when no line contains its marker. */
  lemma {:induction false} LastMatchNone(lines: seq<string>, marker: string)
    requires IsMarker(marker)
    ensures LastMatch(lines, marker) == None <==> forall i :: 0 <= i < |lines| ==> !Contains(lines[i], marker)
    decreases |lines|
  {
    if |lines| > 0 {
      var init := lines[..|lines| - 1];
      LastMatchNone(init, marker);
      assert forall i :: 0 <= i < |init| ==> init[i] == lines[i];
    }
  }

  /** Later lines overwrite earlier ones: a match among `later` decides the value. */
  lemma {:induction false} LastMatchAppend(earlier: seq<string>, later: seq<string>, marker: string)
    requires IsMarker(marker)
    ensures LastMatch(earlier + later, marker)
      == if LastMatch(later, marker).Some? then LastMatch(later, marker) else LastMatch(earlier, marker)
    decreases |later|
  {
    if |later| == 0 {
      assert earlier + later == earlier;
    } else {
      var all := earlier + later;
      assert all[|all| - 1] == later[|later| - 1];
      assert all[..|all| - 1] == earlier + later[..|later| - 1];
      LastMatchAppend(earlier, later[..|later| - 1], marker);
    }
  }

  /** The last line that contains the marker determines the value, whatever came before it. */
  lemma LastMatchLastLine(lines: seq<string>, marker: string, i: int)
    requires IsMarker(marker)
    requires 0 <= i < |lines| && Contains(lines[i], marker)
    requires forall j :: i < j < |lines| ==> !Contains(lines[j], marker)
    ensures LastMatch(lines, marker).Some?
    ensures LastMatch(lines, marker) == LastMatch([lines[i]], marker)
  {
    var upto, after := lines[..i + 1], lines[i + 1..];
    assert LastMatch(after, marker) == None by {
      forall j | 0 <= j < |after| ensures !Contains(after[j], marker) {
        assert after[j] == lines[i + 1 + j];
      }
      LastMatchNone(after, marker);
    }
    assert LastMatch(lines, marker) == LastMatch(upto, marker) by {
      assert lines == upto + after;
      LastMatchAppend(upto, after, marker);
    }
    LastMatchStep(lines, i, marker);
    LastMatchOneLine(lines[i], marker);
  }

  /** One line holding both markers sets both paths, to the same field. */
  lemma BothMarkersOneLine(line: string)
    requires Contains(line, ResultMarker) && Contains(line, PlotMarker)
    ensures LastMatch([line], ResultMarker).Some?
    ensures LastMatch([line], ResultMarker) == LastMatch([line], PlotMarker)
  {
  }

  /**
   * The field is the segment after the first separator, up to the next
   * separator or the end of the line, stripped; it need not follow the marker.
   */
  lemma FieldIsSecondSegment(line: string)
    requires Contains(line, Separator)
    ensures var rest := line[Find(line, Separator) + |Separator|..];
      var j := Find(rest, Separator);
      Field(line) == Strip(if j < 0 then rest else rest[..j])
  {
    var rest := line[Find(line, Separator) + |Separator|..];
    var j := Find(rest, Separator);
    var tail := Split(rest, Separator);
    assert Split(line, Separator)[1] == tail[0];
    if j >= 0 {
      assert tail[0] == rest[..j];
    }
  }

  /** No separator starts inside `key` when `key` has no ':'. */
  lemma NoSeparatorInKey(key: string, rest: string, k: int)
    requires ':' !in key && 0 <= k < |key|
    ensures !OccursAt(key + rest, Separator, k)
  {
    var s := key + rest;
    if k + |Separator| <= |s| {
      assert s[k..k + |Separator|][0] == key[k];
    }
  }

  /** The first separator in `key + "::" + rest` is the one after `key`, when `key` has no ':'. */
  lemma FirstSeparator(key: string, rest: string)
    requires ':' !in key
    ensures Find(key + Separator + rest, Separator) == |key|
  {
    var s := key + Separator + rest;
    assert s == key + (Separator + rest);
    forall k | 0 <= k < |key| ensures !OccursAt(s, Separator, k) {
      NoSeparatorInKey(key, Separator + rest, k);
    }
    assert s[|key|..|key| + |Separator|] == Separator;
    OccurrenceFound(s, Separator, |key|);
  }

  /**
   * In `key + "::" + v`, with no ':' in `key` and no separator in `v`, a
   * separator can only start right after `key`, or one place later.
   */
  lemma SeparatorPositions(key: string, v: string, k: int)
    requires ':' !in key && !Contains(v, Separator)
    requires 0 <= k && k != |key| && k != |key| + 1
    ensures !OccursAt(key + Separator + v, Separator, k)
  {
    var s := key + Separator + v;
    if k < |key| {
      assert s == key + (Separator + v);
      NoSeparatorInKey(key, Separator + v, k);
    } else if k + |Separator| <= |s| {
      var m := k - |key| - |Separator|;
      assert s[k..k + |Separator|] == v[m..m + |Separator|];
      assert !OccursAt(v, Separator, m);
    }
  }

  /** The field of `key + "::" + v` is `v`, when `key` has no ':' and `v` no separator and no surrounding whitespace. */
  lemma MarkedField(key: string, v: string)
    requires ':' !in key && !Contains(v, Separator) && NoEdgeSpace(v)
    ensures Contains(key + Separator + v, Separator)
    ensures Field(key + Separator + v) == v
  {
    var s := key + Separator + v;
    FirstSeparator(key, v);
    assert s[|key| + |Separator|..] == v;
    assert Split(v, Separator) == [v] by {
      var parts := Split(v, Separator);
      assert |parts| == 1 && Join(parts, Separator) == parts[0];
    }
    StripKeeps(v);
  }

  /** `RESULT_FILE::` followed by a path without a separator holds no `PLOT_FILE::`. */
  lemma NoPlotMarkerInResultLine(resultFile: string)
    requires !Contains(resultFile, Separator)
    ensures !Contains(ResultMarker + resultFile, PlotMarker)
  {
    var a := ResultMarker + resultFile;
    assert a == ResultKey + Separator + resultFile;
    forall i | 0 <= i ensures !OccursAt(a, PlotMarker, i) {
      if i + |PlotMarker| <= |a| {
        var k := i + |PlotKey|;
        if i == 2 || i == 3 {
          assert a[i] == ResultKey[i] != PlotMarker[0];
          assert a[i..i + |PlotMarker|][0] != PlotMarker[0];
        } else {
          SeparatorPositions(ResultKey, resultFile, k);
          assert a[k..k + |Separator|] == a[i..i + |PlotMarker|][|PlotKey|..];
          assert PlotMarker[|PlotKey|..] == Separator;
        }
      }
    }
  }

  /** `PLOT_FILE::` followed by a path without a separator holds no `RESULT_FILE::`. */
  lemma NoResultMarkerInPlotLine(plotFile: string)
    requires !Contains(plotFile, Separator)
    ensures !Contains(PlotMarker + plotFile, ResultMarker)
  {
    var b := PlotMarker + plotFile;
    assert b == PlotKey + Separator + plotFile;
    forall j | 0 <= j ensures !OccursAt(b, ResultMarker, j) {
      if j + |ResultMarker| <= |b| {
        var k := j + |ResultKey|;
        SeparatorPositions(PlotKey, plotFile, k);
        assert b[k..k + |Separator|] == b[j..j + |ResultMarker|][|ResultKey|..];
        assert ResultMarker[|ResultKey|..] == Separator;
      }
    }
  }

  /**
   * Round trip: scanning the two lines main() prints recovers both paths,
   * provided neither holds "::" nor starts or ends with whitespace; the files
   * are then offered exactly when both paths are non-empty.
   */
  lemma RoundTrip(resultFile: string, plotFile: string)
    requires !Contains(resultFile, Separator) && NoEdgeSpace(resultFile)
    requires !Contains(plotFile, Separator) && NoEdgeSpace(plotFile)
    ensures LastMatch(PrintedLines(resultFile, plotFile), ResultMarker) == Some(resultFile)
    ensures LastMatch(PrintedLines(resultFile, plotFile), PlotMarker) == Some(plotFile)
    ensures FilesOffered(
        LastMatch(PrintedLines(resultFile, plotFile), ResultMarker),
        LastMatch(PrintedLines(resultFile, plotFile), PlotMarker))
      <==> resultFile != "" && plotFile != ""
  {
    var lines := PrintedLines(resultFile, plotFile);
    KeysArePlain();
    assert LastMatch(lines, PlotMarker) == Some(plotFile) by {
      assert lines[1] == PlotKey + Separator + plotFile;
      MarkedField(PlotKey, plotFile);
    }
    assert LastMatch(lines, ResultMarker) == Some(resultFile) by {
      NoResultMarkerInPlotLine(plotFile);
      assert lines[..1] == [lines[0]];
      assert lines[0] == ResultKey + Separator + resultFile;
      MarkedField(ResultKey, resultFile);
    }
  }

  /** The files are offered only when a line carried each marker. */
  lemma OfferedNeedsBothMarkers(lines: seq<string>)
    requires FilesOffered(LastMatch(lines, ResultMarker), LastMatch(lines, PlotMarker))
    ensures exists i :: 0 <= i < |lines| && Contains(lines[i], ResultMarker)
    ensures exists i :: 0 <= i < |lines| && Contains(lines[i], PlotMarker)
  {
    LastMatchNone(lines, ResultMarker);
    LastMatchNone(lines, PlotMarker);
  }

  /**
   * A marker in the wrong place: in a line such as `x::RESULT_FILE::p`, where
   * some text without ':' comes before the marker, the field is "RESULT_FILE",
   * not the path after the marker.
   */
  lemma MisplacedMarker(prefix: string, path: string)
    requires ':' !in prefix
    ensures LastMatch([prefix + Separator + ResultMarker + path], ResultMarker) == Some(ResultKey)
  {
    KeysArePlain();
    MisplacedKey(prefix, ResultKey, path);
  }

  /** `MisplacedMarker` for any key without ':' and without surrounding whitespace. */
  lemma MisplacedKey(prefix: string, key: string, path: string)
    requires ':' !in prefix && ':' !in key && NoEdgeSpace(key)
    ensures IsMarker(key + Separator)
    ensures LastMatch([prefix + Separator + (key + Separator) + path], key + Separator) == Some(key)
  {
    var marker := key + Separator;
    assert IsMarker(marker) by {
      assert marker[|marker| - |Separator|..] == Separator;
    }
    var line := prefix + Separator + marker + path;
    assert Contains(line, marker) by {
      var at := |prefix| + |Separator|;
      assert line[at..at + |marker|] == marker;
      OccurrenceFound(line, marker, at);
    }
    FieldAfterPrefix(prefix, key, path);
    LastMatchOneLine(line, marker);
  }

  /** A single line holding the marker yields its field. */
  lemma LastMatchOneLine(line: string, marker: string)
    requires IsMarker(marker) && Contains(line, marker)
    ensures Contains(line, Separator)
    ensures LastMatch([line], marker) == Some(Field(line))
  {
    MarkerHasSeparator(line, marker);
  }

  /** The field of `prefix + "::" + key + "::" + rest` is `key`, when neither `prefix` nor `key` holds a ':'. */
  lemma FieldAfterPrefix(prefix: string, key: string, rest: string)
    requires ':' !in prefix && ':' !in key && NoEdgeSpace(key)
    ensures Contains(prefix + Separator + (key + Separator) + rest, Separator)
    ensures Field(prefix + Separator + (key + Separator) + rest) == key
  {
    var line := prefix + Separator + (key + Separator) + rest;
    var after := key + Separator + rest;
    assert line == prefix + Separator + after;
    FirstSeparator(prefix, after);
    FirstSeparator(key, rest);
    assert line[|prefix| + |Separator|..] == after;
    assert after[..|key|] == key;
    FieldIsSecondSegment(line);
    StripKeeps(key);
  }
}
