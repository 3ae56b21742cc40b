/**
 * The filename cases of the flat revision's unit tests, stated for any
 * basename, extension and index text rather than for one literal each.
 */
module FilenameExamples {
  import opened Base
  import opened Text
  import opened Filenames

  // ---------------------------------------------------------------------
  // Replacing one marker in a template whose other parts are known

  lemma PercentFree(s: string, x: char)
    requires '%' !in s
    ensures NoMarker(s, x)
  {
  }

  lemma LetterAbsent(s: string, x: char)
    requires x !in s
    ensures NoMarker(s, x)
  {
    forall i | 0 <= i < |s| ensures !MarkerAt(s, x, i) {
      if i + 1 < |s| {
        assert s[i + 1] in s;
      }
    }
  }

  /** Gluing two marker-free strings creates no marker, unless the first
      ends with '%'. */
  lemma NoMarkerJoin(a: string, c: string, x: char)
    requires NoMarker(a, x) && NoMarker(c, x) && (a == [] || a[|a| - 1] != '%')
    ensures NoMarker(a + c, x)
  {
    var s := a + c;
    forall i | 0 <= i < |s| ensures !MarkerAt(s, x, i) {
      if i + 1 < |a| {
        assert MarkerAt(s, x, i) ==> MarkerAt(a, x, i);
      } else if i >= |a| {
        assert MarkerAt(s, x, i) ==> MarkerAt(c, x, i - |a|);
      }
    }
  }

  lemma {:induction false} ReplaceAfterPrefix(a: string, b: string, x: char, rep: string)
    requires x != '%' && NoMarker(a, x) && (a == [] || a[|a| - 1] != '%')
    ensures Replace(a + b, Marker(x), rep) == a + Replace(b, Marker(x), rep)
  {
    if a == [] {
      assert a + b == b;
    } else {
      var s := a + b;
      var t := a[1..];
      TailNoMarker(a, x);
      ReplaceAfterPrefix(t, b, x, rep);
      if |s| < 2 {
        assert b == [] && s == a;
        assert Replace(b, Marker(x), rep) == [];
      } else {
        FirstNotMarker(a, b, x);
        assert s[0] == a[0] && s[1..] == t + b;
        assert Replace(s, Marker(x), rep) == [a[0]] + Replace(t + b, Marker(x), rep);
        assert a == [a[0]] + t;
      }
    }
  }

  lemma TailNoMarker(a: string, x: char)
    requires a != [] && NoMarker(a, x)
    ensures NoMarker(a[1..], x)
  {
    var t := a[1..];
    forall i | 0 <= i < |t| ensures !MarkerAt(t, x, i) {
      assert MarkerAt(t, x, i) ==> MarkerAt(a, x, i + 1);
    }
  }

  /** A prefix without `%x` that does not end in '%' cannot start one. */
  lemma FirstNotMarker(a: string, b: string, x: char)
    requires x != '%' && a != [] && NoMarker(a, x) && a[|a| - 1] != '%'
    requires |a + b| >= 2
    ensures (a + b)[..2] != Marker(x)
  {
    var s := a + b;
    assert s[0] == a[0];
    if a[0] == '%' {
      assert |a| >= 2 && !MarkerAt(a, x, 0);
      assert s[1] == a[1] && a[1] != x;
    }
    assert s[..2][0] == s[0] && s[..2][1] == s[1];
  }

  lemma ReplaceLeading(x: char, b: string, rep: string)
    ensures Replace(Marker(x) + b, Marker(x), rep) == rep + Replace(b, Marker(x), rep)
  {
    assert (Marker(x) + b)[..2] == Marker(x);
    assert (Marker(x) + b)[2..] == b;
  }

  lemma ReplaceNone(s: string, x: char, rep: string)
    requires NoMarker(s, x)
    ensures Replace(s, Marker(x), rep) == s
  {
    MarkerOccurs(s, x);
    ReplaceAbsent(s, Marker(x), rep);
  }

  /** `pre + "%x" + post`, with no '%' before the marker and no `%x`
      after it, becomes `pre + rep + post`. */
  lemma ReplaceFirstMarker(pre: string, x: char, post: string, rep: string)
    requires x != '%' && '%' !in pre && NoMarker(post, x)
    ensures Replace(pre + Marker(x) + post, Marker(x), rep) == pre + rep + post
  {
    assert pre + Marker(x) + post == pre + (Marker(x) + post);
    ReplaceAfterPrefix(pre, Marker(x) + post, x, rep);
    ReplaceLeading(x, post, rep);
    ReplaceNone(post, x, rep);
  }

  // ---------------------------------------------------------------------
  // The unit-test cases

  /** 'test.svg' with nothing supplied stays 'test.svg'. */
  lemma NoFormatters(fmt: string)
    requires '%' !in fmt
    ensures GetFilename(fmt, None, None, None) == Some(fmt)
  {
    TemplateWithoutMarkers(fmt, None, None, None);
  }

  /** '%b.svg' with basename 'test' gives 'test.svg'. */
  lemma WithBasename(basename: string, tail: string)
    requires '%' !in basename && '%' !in tail
    ensures GetFilename(Marker('b') + tail, Some(basename), None, None) == Some(basename + tail)
  {
    ReplaceFirstMarker([], 'b', tail, basename);
    assert [] + Marker('b') + tail == Marker('b') + tail;
    assert [] + basename + tail == basename + tail;
    PercentFree(basename + tail, 'e');
    PercentFree(basename + tail, 'n');
    AbsentMarker(basename + tail, 'e', None);
    AbsentMarker(basename + tail, 'n', None);
  }

  /** 'test.%e' with extension 'svg' gives 'test.svg'. */
  lemma WithExtension(head: string, extension: string)
    requires '%' !in head && '%' !in extension
    ensures GetFilename(head + Marker('e'), None, Some(extension), None) == Some(head + extension)
  {
    var s := head + Marker('e');
    assert NoMarker(s, 'b') by {
      LetterAbsent(Marker('e'), 'b');
      NoMarkerJoin(head, Marker('e'), 'b');
    }
    AbsentMarker(s, 'b', None);
    ReplaceFirstMarker(head, 'e', [], extension);
    assert head + Marker('e') + [] == s;
    assert head + extension + [] == head + extension;
    AbsentMarker(head + extension, 'n', None);
  }

  /** 'test-%n.svg' with index 100 gives 'test-100.svg'. */
  lemma WithIndex(head: string, index: string, tail: string)
    requires '%' !in head && '%' !in index && '%' !in tail
    ensures GetFilename(head + Marker('n') + tail, None, None, Some(index)) == Some(head + index + tail)
  {
    var s := head + Marker('n') + tail;
    assert s == head + (Marker('n') + tail);
    forall x | x == 'b' || x == 'e' ensures NoMarker(s, x) {
      LetterAbsent(Marker('n'), x);
      NoMarkerJoin(Marker('n'), tail, x);
      NoMarkerJoin(head, Marker('n') + tail, x);
    }
    AbsentMarker(s, 'b', None);
    AbsentMarker(s, 'e', None);
    ReplaceFirstMarker(head, 'n', tail, index);
  }

  /** '%b-%n.%e' with 'test', 'svg' and index 100 gives 'test-100.svg'
      (here with any '%'-free separators in place of '-' and '.'). */
  lemma AllFormatters(basename: string, sep1: string, index: string, sep2: string, extension: string)
    requires '%' !in basename && '%' !in sep1 && '%' !in index && '%' !in sep2 && '%' !in extension
    ensures GetFilename(Marker('b') + sep1 + Marker('n') + sep2 + Marker('e'),
                        Some(basename), Some(extension), Some(index))
         == Some(basename + sep1 + index + sep2 + extension)
  {
    var t0 := Marker('b') + sep1 + Marker('n') + sep2 + Marker('e');
    var t1 := basename + sep1 + Marker('n') + sep2 + Marker('e');
    var t2 := basename + sep1 + Marker('n') + sep2 + extension;
    BasenameStep(basename, sep1, sep2);
    ExtensionStep(basename + sep1, sep2, extension);
    IndexStep(basename, sep1, index, sep2, extension);
    ExpandSome(t0, 'b', basename);
    ExpandSome(t1, 'e', extension);
    ExpandSome(t2, 'n', index);
  }

  /** With a value supplied, a step replaces every marker. */
  lemma ExpandSome(fmt: string, x: char, value: string)
    ensures ExpandMarker(fmt, x, Some(value)) == Some(Replace(fmt, Marker(x), value))
  {
  }

  lemma BasenameStep(basename: string, sep1: string, sep2: string)
    requires '%' !in sep1 && '%' !in sep2
    ensures Replace(Marker('b') + sep1 + Marker('n') + sep2 + Marker('e'), Marker('b'), basename)
         == basename + sep1 + Marker('n') + sep2 + Marker('e')
  {
    var rest := sep1 + Marker('n') + sep2 + Marker('e');
    OnlyLaterMarkers(sep1, sep2);
    assert Marker('b') + sep1 + Marker('n') + sep2 + Marker('e') == Marker('b') + rest;
    LeadingStep('b', rest, basename);
    assert basename + rest == basename + sep1 + Marker('n') + sep2 + Marker('e');
  }

  lemma IndexStep(basename: string, sep1: string, index: string, sep2: string, extension: string)
    requires '%' !in basename && '%' !in sep1 && '%' !in sep2 && '%' !in extension
    ensures Replace(basename + sep1 + Marker('n') + sep2 + extension, Marker('n'), index)
         == basename + sep1 + index + sep2 + extension
  {
    var head := basename + sep1;
    var tail := sep2 + extension;
    assert basename + sep1 + Marker('n') + sep2 + extension == head + Marker('n') + tail;
    assert head + index + tail == basename + sep1 + index + sep2 + extension;
    PercentFree(tail, 'n');
    ReplaceFirstMarker(head, 'n', tail, index);
  }

  /** A template that starts with its only `%x`. */
  lemma LeadingStep(x: char, rest: string, rep: string)
    requires NoMarker(rest, x)
    ensures Replace(Marker(x) + rest, Marker(x), rep) == rep + rest
  {
    ReplaceLeading(x, rest, rep);
    ReplaceNone(rest, x, rep);
  }

  lemma OnlyLaterMarkers(sep1: string, sep2: string)
    requires '%' !in sep1 && '%' !in sep2
    ensures NoMarker(sep1 + Marker('n') + sep2 + Marker('e'), 'b')
  {
    var s := sep1 + Marker('n') + sep2 + Marker('e');
    var k := |sep1| + 2 + |sep2|;
    forall i | 0 <= i < |s| ensures !MarkerAt(s, 'b', i) {
      if i < |sep1| {
        assert s[i] == sep1[i];
      } else if i == |sep1| {
        assert s[i + 1] == 'n';
      } else if i == |sep1| + 1 {
        assert s[i] == 'n';
      } else if i < k {
        assert s[i] == sep2[i - |sep1| - 2];
      } else if i == k {
        assert s[i + 1] == 'e';
      }
    }
  }

  lemma ExtensionStep(head: string, sep2: string, extension: string)
    requires '%' !in head && '%' !in sep2
    ensures Replace(head + Marker('n') + sep2 + Marker('e'), Marker('e'), extension)
         == head + Marker('n') + sep2 + extension
  {
    var front := head + Marker('n') + sep2;
    assert NoMarker(front, 'e') && (front == [] || front[|front| - 1] != '%') by {
      LetterAbsent(Marker('n'), 'e');
      NoMarkerJoin(Marker('n'), sep2, 'e');
      NoMarkerJoin(head, Marker('n') + sep2, 'e');
      assert front == head + (Marker('n') + sep2);
    }
    ReplaceAfterPrefix(front, Marker('e'), 'e', extension);
    ReplaceLeading('e', [], extension);
    assert extension + [] == extension;
  }

  // ---------------------------------------------------------------------
  // An input file name without a dot (flat revision)

  /** The flat revision passes the input file's base name, which is missing
      when that name holds no dot: a template that starts with `%b` keeps
      its marker instead of being refused, and "%b.svg" comes out as is. */
  lemma NoDotLeavesBasenameMarker(infile: string, fmt: string, index: nat)
    requires '.' !in infile
    requires MarkerAt(fmt, 'b', 0) && NoDoublePercent(fmt)
    ensures var r := GetFilename(fmt, SplitFilename(infile).basename, Some("svg"), Some(NatToString(index)));
      r.Some? && MarkerAt(r.value, 'b', 0)
    ensures GetFilename("%b.svg", SplitFilename(infile).basename, Some("svg"), Some(NatToString(index)))
      == Some("%b.svg")
  {
    SplitJoinsBack(infile);
    LeadingMarkerLeft(fmt, 'b', None, Some("svg"), Some(NatToString(index)));
    var t := "%b.svg";
    assert MarkerAt(t, 'b', 0);
    assert NoDoublePercent(t) && NoMarker(t, 'e') && NoMarker(t, 'n') by {
      assert t == Marker('b') + ".svg";
      PercentFree(".svg", '%');
      NoMarkerJoin(Marker('b'), ".svg", '%');
      LetterAbsent(t, 'e');
      LetterAbsent(t, 'n');
    }
    HeadMarkerStep(t, 'b', None, 'b');
    AbsentMarker(t, 'e', Some("svg"));
    AbsentMarker(t, 'n', Some(NatToString(index)));
  }
}
