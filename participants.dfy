/**
 * Where the participant names come from: the manual entry box (one name per
 * line, blanks dropped) and the choice of a name column in an uploaded table.
 * Python's str.strip and str.split are modelled on `seq<char>`.
 */
module Participants {
  import opened Wrappers

  /** The characters Python's str.isspace accepts, which str.strip() removes. */
  predicate IsSpace(c: char)
  {
    || c == ' '
    || ('\t' <= c <= '\r')
    || ('\U{001C}' <= c <= '\U{001F}')
    || c == '\U{0085}' || c == '\U{00A0}' || c == '\U{1680}'
    || ('\U{2000}' <= c <= '\U{200A}')
    || c == '\U{2028}' || c == '\U{2029}' || c == '\U{202F}' || c == '\U{205F}' || c == '\U{3000}'
  }

  /** Drop leading white space: what remains is a suffix, and all that was cut is white space. */
  function LStrip(s: string): (r: string)
    ensures |r| <= |s| && r == s[|s| - |r|..]
    ensures forall i :: 0 <= i < |s| - |r| ==> IsSpace(s[i])
    ensures r != [] ==> !IsSpace(r[0])
  {
    if s != [] && IsSpace(s[0]) then LStrip(s[1..]) else s
  }

  /** Drop trailing white space: what remains is a prefix, and all that was cut is white space. */
  function RStrip(s: string): (r: string)
    ensures |r| <= |s| && r == s[..|r|]
    ensures forall i :: |r| <= i < |s| ==> IsSpace(s[i])
    ensures r != [] ==> !IsSpace(r[|r| - 1])
  {
    if s != [] && IsSpace(s[|s| - 1]) then RStrip(s[..|s| - 1]) else s
  }

  /** Python's str.strip() with no argument. */
  function Strip(s: string): string
  {
    RStrip(LStrip(s))
  }

  /** A stripped string that is not empty begins and ends with a non-space. */
  lemma StripEdges(s: string)
    ensures Strip(s) != [] ==> !IsSpace(Strip(s)[0]) && !IsSpace(Strip(s)[|Strip(s)| - 1])
  {
    var l := LStrip(s);
    var r := RStrip(l);
    if r != [] {
      assert r[0] == l[0];
    }
  }

  /** Stripping twice is stripping once. */
  lemma StripIdempotent(s: string)
    ensures Strip(Strip(s)) == Strip(s)
  {
    var t := Strip(s);
    StripEdges(s);
    assert LStrip(t) == t;
    assert RStrip(t) == t;
  }

  /** How often `c` occurs in `s`. */
  function Occurrences(s: string, c: char): nat
  {
    if s == [] then 0 else (if s[0] == c then 1 else 0) + Occurrences(s[1..], c)
  }

  /** Python's s.split(sep) for a one-character separator: one piece more than separators. */
  function Split(s: string, sep: char): (parts: seq<string>)
    ensures |parts| == Occurrences(s, sep) + 1
    ensures forall k :: 0 <= k < |parts| ==> sep !in parts[k]
  {
    if s == [] then [[]]
    else
      var rest := Split(s[1..], sep);
      if s[0] == sep then [[]] + rest
      else [[s[0]] + rest[0]] + rest[1..]
  }

  /** Python's sep.join(parts). */
  function Join(parts: seq<string>, sep: char): string
    requires |parts| >= 1
  {
    if |parts| == 1 then parts[0] else parts[0] + [sep] + Join(parts[1..], sep)
  }

  /** Splitting loses nothing: joining the pieces gives back the text. */
  lemma {:induction false} JoinSplit(s: string, sep: char)
    ensures Join(Split(s, sep), sep) == s
  {
    if s != [] {
      JoinSplit(s[1..], sep);
      var rest := Split(s[1..], sep);
      if s[0] != sep {
        if |rest| == 1 {
          assert Split(s, sep) == [[s[0]] + rest[0]];
        } else {
          assert Split(s, sep)[1..] == rest[1..];
          assert Join(rest, sep) == rest[0] + [sep] + Join(rest[1..], sep);
        }
      }
    }
  }

  /** A piece without the separator, put in front, extends the first piece. */
  lemma {:induction false} SplitPrefix(p: string, t: string, sep: char)
    requires sep !in p
    ensures Split(p + t, sep) == [p + Split(t, sep)[0]] + Split(t, sep)[1..]
  {
    if p != [] {
      SplitPrefix(p[1..], t, sep);
      assert (p + t)[1..] == p[1..] + t;
      assert (p + t)[0] == p[0];
      assert [p[0]] + (p[1..] + Split(t, sep)[0]) == p + Split(t, sep)[0];
    } else {
      assert p + t == t;
      assert p + Split(t, sep)[0] == Split(t, sep)[0];
      assert Split(t, sep) == [Split(t, sep)[0]] + Split(t, sep)[1..];
    }
  }

  /** Splitting undoes joining pieces that hold no separator. */
  lemma {:induction false} SplitJoin(parts: seq<string>, sep: char)
    requires |parts| >= 1
    requires forall k :: 0 <= k < |parts| ==> sep !in parts[k]
    ensures Split(Join(parts, sep), sep) == parts
  {
    if |parts| == 1 {
      SplitPrefix(parts[0], [], sep);
      assert parts[0] + [] == parts[0];
    } else {
      var tail := Join(parts[1..], sep);
      SplitJoin(parts[1..], sep);
      SplitPrefix(parts[0], [sep] + tail, sep);
      assert parts[0] + [sep] + tail == parts[0] + ([sep] + tail);
      assert ([sep] + tail)[1..] == tail;
      assert Split([sep] + tail, sep) == [[]] + Split(tail, sep);
      assert parts[0] + [] == parts[0];
      assert parts == [parts[0]] + parts[1..];
    }
  }

  /** The comprehension [l.strip() for l in lines if l.strip()], built by appending in line order. */
  function KeepNames(lines: seq<string>): (names: seq<string>)
    ensures |names| <= |lines|
  {
    if lines == [] then []
    else
      var name := Strip(lines[|lines| - 1]);
      KeepNames(lines[..|lines| - 1]) + (if name != [] then [name] else [])
  }

  /** Every kept name is non-empty and already stripped. */
  lemma {:induction false} KeptNamesAreClean(lines: seq<string>)
    ensures forall k :: 0 <= k < |KeepNames(lines)| ==>
      KeepNames(lines)[k] != [] && Strip(KeepNames(lines)[k]) == KeepNames(lines)[k]
  {
    if lines != [] {
      KeptNamesAreClean(lines[..|lines| - 1]);
      StripIdempotent(lines[|lines| - 1]);
    }
  }

  /** A single line gives its stripped text, or nothing when it is blank. */
  lemma KeepNamesSingle(line: string)
    ensures KeepNames([line]) == if Strip(line) != [] then [Strip(line)] else []
  {
    assert [line][..0] == [];
  }

  /** The last line contributes after all the lines before it. */
  lemma KeepNamesSnoc(init: seq<string>, line: string)
    ensures KeepNames(init + [line]) == KeepNames(init) + KeepNames([line])
  {
    var c := init + [line];
    assert c[..|c| - 1] == init;
    assert c[|c| - 1] == line;
    KeepNamesSingle(line);
  }

  /** Keeping names works line by line: the names of two blocks of lines, in order. */
  lemma {:induction false} KeepNamesConcat(a: seq<string>, b: seq<string>)
    ensures KeepNames(a + b) == KeepNames(a) + KeepNames(b)
    decreases |b|
  {
    if b == [] {
      assert a + b == a;
    } else {
      var b', last := b[..|b| - 1], b[|b| - 1];
      SnocSplit(a, b);
      KeepNamesConcat(a, b');
      KeepNamesSnoc(a + b', last);
      KeepNamesSnoc(b', last);
    }
  }

  lemma SnocSplit<T>(a: seq<T>, b: seq<T>)
    requires b != []
    ensures b == b[..|b| - 1] + [b[|b| - 1]]
    ensures a + b == (a + b[..|b| - 1]) + [b[|b| - 1]]
  {
  }

  /** Splitting at a separator splits the two sides independently. */
  lemma {:induction false} SplitAtSeparator(a: string, b: string, sep: char)
    ensures Split(a + [sep] + b, sep) == Split(a, sep) + Split(b, sep)
  {
    if a == [] {
      assert a + [sep] + b == [sep] + b;
      assert ([sep] + b)[1..] == b;
    } else {
      var text := a + [sep] + b;
      assert text[0] == a[0];
      assert text[1..] == a[1..] + [sep] + b;
      SplitAtSeparator(a[1..], b, sep);
    }
  }

  /** The names typed into the entry box, one per line. */
  function ParseManualNames(text: string): (names: seq<string>)
    ensures |names| <= Occurrences(text, '\n') + 1
  {
    KeepNames(Split(text, '\n'))
  }

  /** Lines keep their order: the names of two blocks of text are those of each, one after the other. */
  lemma ParseLineByLine(a: string, b: string)
    ensures ParseManualNames(a + "\n" + b) == ParseManualNames(a) + ParseManualNames(b)
  {
    SplitAtSeparator(a, b, '\n');
    KeepNamesConcat(Split(a, '\n'), Split(b, '\n'));
  }

  /**
   * Confirming the entry box: an empty box changes nothing; otherwise the
   * names it holds, each non-empty and stripped.
   */
  function ConfirmManualNames(text: string): (names: Option<seq<string>>)
    ensures names.None? <==> text == []
    ensures names.Some? ==> names.value == ParseManualNames(text)
    ensures names.Some? ==> forall k :: 0 <= k < |names.value| ==>
      names.value[k] != [] && Strip(names.value[k]) == names.value[k]
  {
    if text == [] then None
    else
      KeptNamesAreClean(Split(text, '\n'));
      Some(ParseManualNames(text))
  }

  /**
   * How strongly a column header is preferred for the names: "name", then
   * "姓名", then "Name"; any other header comes last.
   */
  function Priority(header: string): nat
  {
    if header == "name" then 0
    else if header == "姓名" then 1
    else if header == "Name" then 2
    else 3
  }

  /**
   * The column of an uploaded table that supplies the names: the most
   * preferred header present, else the first column; nothing for a table
   * without columns (reading its first column fails).
   */
  function ChooseNameColumn(columns: seq<string>): (choice: Option<string>)
    ensures choice.Some? <==> |columns| >= 1
    ensures choice.Some? ==> choice.value in columns
    ensures choice.Some? ==> forall c :: c in columns ==> Priority(choice.value) <= Priority(c)
    ensures choice.Some? && Priority(choice.value) == 3 ==> choice.value == columns[0]
  {
    if "name" in columns then Some("name")
    else if "姓名" in columns then Some("姓名")
    else if "Name" in columns then Some("Name")
    else if |columns| == 0 then None
    else Some(columns[0])
  }
}
