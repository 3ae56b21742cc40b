/**
 * Output file names: the `%b` / `%e` / `%n` template expansion of
 * `get_filename` (identical in both revisions) and the flat revision's
 * `split_filename`.
 */
module Filenames {
  import opened Base
  import opened Text

  /** The two-character marker `%x`. */
  function Marker(x: char): string {
    ['%', x]
  }

  /** A marker whose first occurrence lies past offset 0: the only case in
      which a missing value makes the expansion fail. */
  predicate Late(fmt: string, x: char) {
    Find(fmt, Marker(x)) > 0
  }

  /** One step of `get_filename`: give up when the value is missing and the
      marker is found past offset 0; otherwise replace the marker by the
      value, if there is one. */
  function ExpandMarker(fmt: string, x: char, value: Option<string>): Option<string> {
    if Late(fmt, x) && value.None? then None
    else if value.Some? then Some(Replace(fmt, Marker(x), value.value))
    else Some(fmt)
  }

  /** `get_filename(fmt, basename, extension, index)`: `%b`, then `%e`,
      then `%n`. The index arrives as text: the current revision passes the
      zero-padded number, the flat one `str(index)`. */
  function GetFilename(fmt: string, basename: Option<string>, extension: Option<string>,
                       index: Option<string>): Option<string>
  {
    match ExpandMarker(fmt, 'b', basename)
    case None => None
    case Some(f1) =>
      match ExpandMarker(f1, 'e', extension)
      case None => None
      case Some(f2) => ExpandMarker(f2, 'n', index)
  }

  /** `get_filename` as written: `fmt` is rebound after each marker. */
  method ExpandFilename(fmt: string, basename: Option<string>, extension: Option<string>,
                        index: Option<string>) returns (r: Option<string>)
    ensures r == GetFilename(fmt, basename, extension, index)
  {
    var f := fmt;
    if Find(f, Marker('b')) > 0 && basename.None? {
      return None;
    }
    if basename.Some? {
      f := Replace(f, Marker('b'), basename.value);
    }
    if Find(f, Marker('e')) > 0 && extension.None? {
      return None;
    }
    if extension.Some? {
      f := Replace(f, Marker('e'), extension.value);
    }
    if Find(f, Marker('n')) > 0 && index.None? {
      return None;
    }
    if index.Some? {
      f := Replace(f, Marker('n'), index.value);
    }
    r := Some(f);
  }

  // ---------------------------------------------------------------------
  // What the expansion promises

  /** A template without markers comes back unchanged, whatever is supplied. */
  lemma TemplateWithoutMarkers(fmt: string, basename: Option<string>, extension: Option<string>,
                               index: Option<string>)
    requires NoMarker(fmt, 'b') && NoMarker(fmt, 'e') && NoMarker(fmt, 'n')
    ensures GetFilename(fmt, basename, extension, index) == Some(fmt)
  {
    AbsentMarker(fmt, 'b', basename);
    AbsentMarker(fmt, 'e', extension);
    AbsentMarker(fmt, 'n', index);
  }

  lemma AbsentMarker(fmt: string, x: char, value: Option<string>)
    requires NoMarker(fmt, x)
    ensures ExpandMarker(fmt, x, value) == Some(fmt)
  {
    MarkerOccurs(fmt, x);
    if value.Some? {
      ReplaceAbsent(fmt, Marker(x), value.value);
    }
  }

  /** Every supplied value replaces every occurrence of its marker, provided
      the values carry no '%' of their own and the template has no "%%". */
  lemma ExpansionComplete(fmt: string, basename: Option<string>, extension: Option<string>,
                          index: Option<string>)
    requires NoDoublePercent(fmt)
    requires basename.Some? ==> '%' !in basename.value
    requires extension.Some? ==> '%' !in extension.value
    requires index.Some? ==> '%' !in index.value
    ensures var r := GetFilename(fmt, basename, extension, index);
      r.Some? ==>
        NoDoublePercent(r.value) &&
        (basename.Some? ==> NoMarker(r.value, 'b')) &&
        (extension.Some? ==> NoMarker(r.value, 'e')) &&
        (index.Some? ==> NoMarker(r.value, 'n'))
  {
    var r1 := ExpandMarker(fmt, 'b', basename);
    StepKeepsMarkersOut(fmt, 'b', basename, 'b');
    if r1.Some? {
      var f1 := r1.value;
      var r2 := ExpandMarker(f1, 'e', extension);
      StepKeepsMarkersOut(f1, 'e', extension, 'b');
      if r2.Some? {
        var f2 := r2.value;
        StepKeepsMarkersOut(f2, 'n', index, 'b');
        StepKeepsMarkersOut(f2, 'n', index, 'e');
      }
    }
  }

  /** One step keeps "%%" out, removes its own marker when it has a value,
      and brings back no marker y that was gone. */
  lemma StepKeepsMarkersOut(s: string, x: char, value: Option<string>, y: char)
    requires x != '%' && NoDoublePercent(s)
    requires value.Some? ==> '%' !in value.value
    ensures var r := ExpandMarker(s, x, value);
      r.Some? ==>
        NoDoublePercent(r.value) &&
        (value.Some? ==> NoMarker(r.value, x)) &&
        (NoMarker(s, y) ==> NoMarker(r.value, y))
  {
    if value.Some? {
      ReplaceMarker(s, x, y, value.value);
    }
  }

  /** The failure cases exactly: the expansion gives `None` if and only if
      some marker whose value is missing is first found past offset 0 in
      the template (for non-empty values without '%', and a template
      without "%%", so that earlier substitutions move no marker to or away
      from offset 0). */
  lemma RefusalExactly(fmt: string, basename: Option<string>, extension: Option<string>,
                       index: Option<string>)
    requires NoDoublePercent(fmt)
    requires basename.Some? ==> basename.value != [] && '%' !in basename.value
    requires extension.Some? ==> extension.value != [] && '%' !in extension.value
    ensures GetFilename(fmt, basename, extension, index).None? <==>
      (basename.None? && Late(fmt, 'b')) ||
      (extension.None? && Late(fmt, 'e')) ||
      (index.None? && Late(fmt, 'n'))
  {
    var r1 := ExpandMarker(fmt, 'b', basename);
    if r1.Some? {
      var f1 := r1.value;
      StepKeepsLate(fmt, 'b', basename, 'e');
      StepKeepsLate(fmt, 'b', basename, 'n');
      StepKeepsMarkersOut(fmt, 'b', basename, 'b');
      var r2 := ExpandMarker(f1, 'e', extension);
      if r2.Some? {
        StepKeepsLate(f1, 'e', extension, 'n');
      }
    }
  }

  /** A successful step moves no other marker to or away from offset 0. */
  lemma StepKeepsLate(s: string, x: char, value: Option<string>, y: char)
    requires x != '%' && y != '%' && x != y && NoDoublePercent(s)
    requires value.Some? ==> value.value != [] && '%' !in value.value
    requires ExpandMarker(s, x, value).Some?
    ensures Late(ExpandMarker(s, x, value).value, y) <==> Late(s, y)
  {
    if value.Some? {
      ReplaceKeepsLate(s, x, y, value.value);
    }
  }

  /** A template that starts with a marker is never refused for that
      marker's missing value: `find` reports offset 0, which the check
      `> 0` lets through, and the marker stays at the head of the result.
      The expansion then fails only for another marker, and not at all when
      the other values are supplied. */
  lemma LeadingMarkerLeft(fmt: string, x: char, basename: Option<string>, extension: Option<string>,
                          index: Option<string>)
    requires x == 'b' || x == 'e' || x == 'n'
    requires MarkerAt(fmt, x, 0) && NoDoublePercent(fmt)
    requires (x == 'b' ==> basename.None?) && (x == 'e' ==> extension.None?) && (x == 'n' ==> index.None?)
    requires basename.Some? ==> basename.value != [] && '%' !in basename.value
    requires extension.Some? ==> extension.value != [] && '%' !in extension.value
    requires index.Some? ==> index.value != [] && '%' !in index.value
    ensures !Late(fmt, x)
    ensures var r := GetFilename(fmt, basename, extension, index);
      (r.Some? ==> MarkerAt(r.value, x, 0)) &&
      ((basename.Some? || x == 'b') && (extension.Some? || x == 'e') && (index.Some? || x == 'n') ==> r.Some?)
  {
    StartFound(fmt, x);
    HeadMarkerStep(fmt, 'b', basename, x);
    var r1 := ExpandMarker(fmt, 'b', basename);
    if r1.Some? {
      HeadMarkerStep(r1.value, 'e', extension, x);
      var r2 := ExpandMarker(r1.value, 'e', extension);
      if r2.Some? {
        HeadMarkerStep(r2.value, 'n', index, x);
      }
    }
  }

  /** One step keeps a marker `%x` at offset 0: the step for x itself,
      without a value, changes nothing; a step for another marker replaces
      it only further on. */
  lemma HeadMarkerStep(s: string, y: char, value: Option<string>, x: char)
    requires x != '%' && y != '%' && MarkerAt(s, x, 0) && NoDoublePercent(s)
    requires x == y ==> value.None?
    requires value.Some? ==> value.value != [] && '%' !in value.value
    ensures var r := ExpandMarker(s, y, value);
      (x == y ==> r == Some(s)) &&
      (value.Some? ==> r.Some?) &&
      (r.Some? ==> MarkerAt(r.value, x, 0) && NoDoublePercent(r.value))
  {
    StartFound(s, x);
    if value.Some? {
      ReplaceKeepsStart(s, y, x, value.value);
      StepKeepsMarkersOut(s, y, value, y);
    }
  }

  // ---------------------------------------------------------------------
  // Facts about replace() and find() on markers

  lemma StartFound(s: string, y: char)
    ensures Find(s, Marker(y)) == 0 <==> MarkerAt(s, y, 0)
  {
    if |s| >= 2 {
      assert s[0..2] == [s[0], s[1]];
    }
  }

  /** Late(s, y) in terms of markers: one occurs, and not at offset 0. */
  lemma LateMarkers(s: string, y: char)
    ensures Late(s, y) <==> !NoMarker(s, y) && !MarkerAt(s, y, 0)
  {
    MarkerOccurs(s, y);
    StartFound(s, y);
  }

  lemma ReplaceKeepsLate(s: string, x: char, y: char, rep: string)
    requires x != '%' && y != '%' && x != y && NoDoublePercent(s)
    requires rep != [] && '%' !in rep
    ensures Late(Replace(s, Marker(x), rep), y) <==> Late(s, y)
  {
    var t := Replace(s, Marker(x), rep);
    LateMarkers(s, y);
    LateMarkers(t, y);
    ReplaceKeepsStart(s, x, y, rep);
    ReplaceMarker(s, x, y, rep);
    if !NoMarker(s, y) {
      var i :| 0 <= i < |s| && MarkerAt(s, y, i);
      ReplaceKeepsMarker(s, x, y, rep, i);
    }
  }

  /** The first character survives a replacement when it is not '%'. */
  lemma ReplaceHead(s: string, x: char, rep: string)
    requires s != [] && s[0] != '%'
    ensures Replace(s, Marker(x), rep) != [] && Replace(s, Marker(x), rep)[0] == s[0]
  {
    if |s| >= 2 {
      assert s[..2][0] == s[0];
    }
  }

  /** A marker `%y` (y other than x) at offset 0 is there before the
      replacement of `%x` exactly when it is there after it. */
  lemma ReplaceKeepsStart(s: string, x: char, y: char, rep: string)
    requires x != '%' && y != '%' && x != y && NoDoublePercent(s)
    requires rep != [] && '%' !in rep
    ensures MarkerAt(Replace(s, Marker(x), rep), y, 0) <==> MarkerAt(s, y, 0)
  {
    var t := Replace(s, Marker(x), rep);
    if |s| >= 2 {
      if s[..2] == Marker(x) {
        assert t[0] == rep[0];
        assert s[0] == '%' && s[1] == x;
      } else {
        assert t == [s[0]] + Replace(s[1..], Marker(x), rep);
        if s[0] == '%' {
          assert !MarkerAt(s, '%', 0);
          ReplaceHead(s[1..], x, rep);
        }
      }
    }
  }

  /** A marker `%y` (y other than x) survives the replacement of `%x`. */
  lemma {:induction false} ReplaceKeepsMarker(s: string, x: char, y: char, rep: string, i: int)
    requires x != '%' && y != '%' && x != y && NoDoublePercent(s)
    requires '%' !in rep
    requires MarkerAt(s, y, i)
    ensures !NoMarker(Replace(s, Marker(x), rep), y)
    decreases |s|
  {
    var t := Replace(s, Marker(x), rep);
    if s[..2] == Marker(x) {
      assert s[0] == '%' && s[1] == x;
      assert i >= 2;
      assert NoDoublePercent(s[2..]) by {
        forall j | MarkerAt(s[2..], '%', j) ensures false {
          assert MarkerAt(s, '%', j + 2);
        }
      }
      assert MarkerAt(s[2..], y, i - 2);
      ReplaceKeepsMarker(s[2..], x, y, rep, i - 2);
      var t' := Replace(s[2..], Marker(x), rep);
      var j :| 0 <= j < |t'| && MarkerAt(t', y, j);
      assert t == rep + t';
      assert MarkerAt(t, y, j + |rep|);
    } else {
      var t' := Replace(s[1..], Marker(x), rep);
      assert t == [s[0]] + t';
      if i == 0 {
        ReplaceHead(s[1..], x, rep);
        assert MarkerAt(t, y, 0);
      } else {
        assert NoDoublePercent(s[1..]) by {
          forall j | MarkerAt(s[1..], '%', j) ensures false {
            assert MarkerAt(s, '%', j + 1);
          }
        }
        assert MarkerAt(s[1..], y, i - 1);
        ReplaceKeepsMarker(s[1..], x, y, rep, i - 1);
        var j :| 0 <= j < |t'| && MarkerAt(t', y, j);
        assert MarkerAt(t, y, j + 1);
      }
    }
  }

  // ---------------------------------------------------------------------
  // split_filename (flat revision)

  /** `s.rfind(c)`: the highest index holding c, or -1. */
  function RFind(s: string, c: char): (r: int)
    ensures -1 <= r < |s|
    ensures r >= 0 ==> s[r] == c && forall j :: r < j < |s| ==> s[j] != c
    ensures r == -1 <==> forall j :: 0 <= j < |s| ==> s[j] != c
  {
    if |s| == 0 then -1
    else if s[|s| - 1] == c then |s| - 1
    else
      assert s == s[..|s| - 1] + [s[|s| - 1]];
      RFind(s[..|s| - 1], c)
  }

  datatype NameParts = NameParts(basename: Option<string>, extension: Option<string>)

  /** `split_filename`: cut at the last '.'; `(None, None)` without one. */
  function SplitFilename(fname: string): NameParts {
    var k := RFind(fname, '.');
    if k >= 0 then NameParts(Some(fname[..k]), Some(fname[k + 1..]))
    else NameParts(None, None)
  }

  /** Both parts are present exactly when there is a dot; then the
      extension has no dot and basename + "." + extension is the name. */
  lemma SplitJoinsBack(fname: string)
    ensures var p := SplitFilename(fname);
      (p.basename.Some? <==> '.' in fname) &&
      (p.basename.Some? <==> p.extension.Some?) &&
      (p.basename.Some? ==>
        '.' !in p.extension.value && p.basename.value + "." + p.extension.value == fname)
  {
    var k := RFind(fname, '.');
    if k >= 0 {
      assert fname == fname[..k] + "." + fname[k + 1..];
    } else {
      assert '.' !in fname;
    }
  }

  /** The inverse direction: joining a basename and a dot-free extension
      and splitting again gives both back. */
  lemma SplitOfJoined(basename: string, extension: string)
    requires '.' !in extension
    ensures SplitFilename(basename + "." + extension) == NameParts(Some(basename), Some(extension))
  {
    var f := basename + "." + extension;
    var k := RFind(f, '.');
    assert f[|basename|] == '.';
    assert forall j :: |basename| < j < |f| ==> f[j] == extension[j - |basename| - 1];
    assert k == |basename|;
    assert f[..|basename|] == basename;
  }
}
