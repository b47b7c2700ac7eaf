/**
 * The root menu (menufile.cc): the parser of windowlab.menurc lines ("label:command",
 * blank lines and '#' comments skipped), the item list with the x offsets at which the
 * taskbar draws the items, and the reload flag SIGHUP sets. The file's lines and the
 * text width of a label are inputs; finding and reading the file is not modelled.
 */
module MenuFile {
  import opened Wrappers
  import opened Geometry

  /** std::isspace in the C locale: space, tab, newline, vertical tab, form feed, carriage return. */
  predicate IsSpace(c: char) {
    c == ' ' || c == '\t' || c == '\n' || c == '\U{000B}' || c == '\U{000C}' || c == '\r'
  }

  /** The index std::find_if reports for the first character that is not white space (the length if none). */
  function FirstNonSpace(s: string): (n: nat)
    ensures n <= |s|
    ensures forall i :: 0 <= i < n ==> IsSpace(s[i])
    ensures n < |s| ==> !IsSpace(s[n])
  {
    if |s| == 0 || !IsSpace(s[0]) then 0 else 1 + FirstNonSpace(s[1..])
  }

  /** trimLeadingWs: erases everything before the first character that is not white space. */
  function TrimLeadingWs(s: string): string {
    s[FirstNonSpace(s)..]
  }

  /** The trimmed text is a suffix of the text, all that is cut off is white space, and it does not start with white space. */
  lemma TrimLeadingWsSpec(s: string)
    ensures var t := TrimLeadingWs(s);
      && |t| <= |s| && t == s[|s| - |t|..]
      && AllSpace(s[..|s| - |t|])
      && (|t| > 0 ==> !IsSpace(t[0]))
  {
  }

  /**
   * The result is determined by the split: a white-space prefix followed by a text that
   * does not start with white space trims to that text.
   */
  lemma {:induction false} TrimSplit(p: string, t: string)
    requires forall i :: 0 <= i < |p| ==> IsSpace(p[i])
    requires |t| > 0 ==> !IsSpace(t[0])
    ensures FirstNonSpace(p + t) == |p| && TrimLeadingWs(p + t) == t
  {
    if |p| > 0 {
      assert (p + t)[1..] == p[1..] + t;
      TrimSplit(p[1..], t);
    } else {
      assert p + t == t;
    }
  }

  /** Trimming twice is trimming once. */
  lemma TrimIdempotent(s: string)
    ensures TrimLeadingWs(TrimLeadingWs(s)) == TrimLeadingWs(s)
  {
    TrimSplit([], TrimLeadingWs(s));
  }

  /** A text trims to nothing exactly when it is all white space. */
  lemma TrimEmpty(s: string)
    ensures |TrimLeadingWs(s)| == 0 <==> AllSpace(s)
  {
    var t := TrimLeadingWs(s);
    if |t| > 0 {
      assert s[|s| - |t|] == t[0];
    }
  }

  /** What std::getline with delimiter d extracts: the text before the first d (all of it if none). */
  function UpTo(s: string, d: char): (r: string)
    ensures |r| <= |s| && r == s[..|r|] && d !in r
    ensures |r| < |s| <==> d in s
    ensures |r| < |s| ==> s[|r|] == d
  {
    if |s| == 0 || s[0] == d then [] else [s[0]] + UpTo(s[1..], d)
  }

  /** A parsed menu line: the caption shown and the command run. */
  datatype Entry = Entry(caption: string, command: string)

  /**
   * parseLine: an empty line, a line without ':', or one whose text after the first ':'
   * (up to the end of the line) is empty or all white space gives nothing; otherwise the
   * caption is the text before the first ':' and the command the rest of the line with
   * its leading white space removed.
   */
  function ParseLine(line: string): (r: Option<Entry>)
    ensures r.Some? ==>
      var caption, cmd := r.value.caption, r.value.command;
      && |caption| < |line| && line[..|caption|] == caption && line[|caption|] == ':' && ':' !in caption
      && cmd == TrimLeadingWs(UpTo(line[|caption| + 1..], '\n'))
      && |cmd| > 0 && !IsSpace(cmd[0]) && '\n' !in cmd
  {
    if |line| == 0 || ':' !in line then None
    else
      var caption := UpTo(line, ':');
      var rest := line[|caption| + 1..];
      var cmd := TrimLeadingWs(UpTo(rest, '\n'));
      if |rest| == 0 || |cmd| == 0 then None else Some(Entry(caption, cmd))
  }

  /** No character of the text is white space (vacuously true of the empty text). */
  ghost predicate AllSpace(s: string) {
    forall i :: 0 <= i < |s| ==> IsSpace(s[i])
  }

  /** The text parseLine takes the command from: after the first ':', up to the end of the line. */
  function CommandText(line: string): string
    requires ':' in line
  {
    UpTo(line[|UpTo(line, ':')| + 1..], '\n')
  }

  /** parseLine fails exactly on the empty line, on a line without ':', and on a blank command. */
  lemma ParseLineFails(line: string)
    ensures ParseLine(line).None? <==> |line| == 0 || ':' !in line || AllSpace(CommandText(line))
  {
    if |line| > 0 && ':' in line {
      TrimEmpty(CommandText(line));
    }
  }

  /**
   * What one line of the menu file contributes: nothing when it is empty or, after its
   * leading white space, empty or a '#' comment; otherwise what parseLine makes of it.
   */
  function LineEntry(line: string): (e: Option<Entry>)
    ensures e.Some? ==> |TrimLeadingWs(line)| > 0 && TrimLeadingWs(line)[0] != '#'
  {
    if |line| == 0 then None
    else
      var t := TrimLeadingWs(line);
      if |t| == 0 || t[0] == '#' then None else ParseLine(t)
  }

  /**
   * A line contributes nothing exactly when it is all white space, a '#' comment after its
   * leading white space, or a line parseLine rejects once trimmed; otherwise it contributes
   * what parseLine makes of the trimmed line.
   */
  lemma LineEntryCases(line: string)
    ensures LineEntry(line).None? <==>
      || AllSpace(line)
      || TrimLeadingWs(line)[0] == '#'
      || ParseLine(TrimLeadingWs(line)).None?
    ensures LineEntry(line).Some? ==> LineEntry(line) == ParseLine(TrimLeadingWs(line))
  {
    TrimEmpty(line);
  }

  /** The (caption, command) pairs of a menu file, in file order. */
  function Entries(lines: seq<string>): (es: seq<Entry>)
    ensures |es| <= |lines|
  {
    if |lines| == 0 then []
    else
      var last := lines[|lines| - 1];
      Entries(lines[..|lines| - 1]) + (if LineEntry(last).Some? then [LineEntry(last).value] else [])
  }

  /** The entries of two files read one after the other are those of each, in order. */
  lemma {:induction false} EntriesAppend(a: seq<string>, b: seq<string>)
    ensures Entries(a + b) == Entries(a) + Entries(b)
    decreases |b|
  {
    if |b| == 0 {
      assert a + b == a;
    } else {
      var b', last := b[..|b| - 1], b[|b| - 1];
      var tail := if LineEntry(last).Some? then [LineEntry(last).value] else [];
      assert (a + b)[..|a + b| - 1] == a + b' && (a + b)[|a + b| - 1] == last;
      assert Entries(a + b) == Entries(a + b') + tail;
      assert Entries(b) == Entries(b') + tail;
      EntriesAppend(a, b');
    }
  }

  /** Reading one more line extends the entries by what that line contributes. */
  lemma EntriesPrefix(lines: seq<string>, i: nat)
    requires i < |lines|
    ensures Entries(lines[..i + 1]) == Entries(lines[..i]) + if LineEntry(lines[i]).Some? then [LineEntry(lines[i]).value] else []
  {
    assert lines[..i + 1][..i] == lines[..i];
  }

  /** MenuItem: the command, the label (`caption`, as `label` is a Dafny keyword), and where the taskbar draws it. */
  datatype MenuItem = MenuItem(command: string, caption: string, x: int, width: int)

  /** NO_MENU_LABEL and NO_MENU_COMMAND: the single item used when no menu file opens. */
  const NoMenuLabel: string := "xterm"
  const NoMenuCommand: string := "xterm"

  /** The (caption, command) pairs of a list of items. */
  function Pairs(items: seq<MenuItem>): (ps: seq<Entry>)
    ensures |ps| == |items|
    ensures forall i :: 0 <= i < |items| ==> ps[i] == Entry(items[i].caption, items[i].command)
  {
    seq(|items|, i requires 0 <= i < |items| => Entry(items[i].caption, items[i].command))
  }

  /** Appending an item appends its pair. */
  lemma PairsSnoc(items: seq<MenuItem>, m: MenuItem)
    ensures Pairs(items + [m]) == Pairs(items) + [Entry(m.caption, m.command)]
  {
    var l, r := Pairs(items + [m]), Pairs(items) + [Entry(m.caption, m.command)];
    assert |l| == |r|;
    forall i | 0 <= i < |l| ensures l[i] == r[i] {
      if i < |items| {
        assert (items + [m])[i] == items[i];
      }
    }
  }

  /**
   * The taskbar layout of the menu: each item is as wide as its caption's text plus
   * 4 * SPACE, the first starts at 0 and each next one a pixel after the previous ends.
   */
  ghost predicate LaidOut(items: seq<MenuItem>, textWidth: string -> nat) {
    && (forall i :: 0 <= i < |items| ==> items[i].width == textWidth(items[i].caption) + 4 * Space)
    && (|items| > 0 ==> items[0].x == 0)
    && (forall i :: 0 <= i < |items| - 1 ==> items[i + 1].x == items[i].x + items[i].width + 1)
  }

  /** The item acquireMenuItems makes of a parsed line, before it is laid out. */
  function ItemOf(e: Entry): (m: MenuItem)
    ensures Entry(m.caption, m.command) == e
  {
    MenuItem(e.command, e.caption, 0, 0)
  }

  /** One step of the reading loop: the item of line i, if any, extends the entries read so far. */
  lemma ReadStep(items: seq<MenuItem>, lines: seq<string>, i: nat, parsed: Option<Entry>)
    requires i < |lines| && Pairs(items) == Entries(lines[..i]) && parsed == LineEntry(lines[i])
    ensures Pairs(if parsed.Some? then items + [ItemOf(parsed.value)] else items) == Entries(lines[..i + 1])
  {
    EntriesPrefix(lines, i);
    if parsed.Some? {
      PairsSnoc(items, ItemOf(parsed.value));
    }
  }

  /** The reading loop of acquireMenuItems: one item per entry line, appended in file order. */
  method ReadItems(lines: seq<string>) returns (items: seq<MenuItem>)
    ensures Pairs(items) == Entries(lines)
  {
    items := [];
    var i := 0;
    while i < |lines|
      invariant 0 <= i <= |lines|
      invariant Pairs(items) == Entries(lines[..i])
    {
      // skip empty lines, and lines that are empty or a '#' comment once trimmed
      var parsed: Option<Entry> := None;
      if |lines[i]| > 0 {
        var t := TrimLeadingWs(lines[i]);
        if |t| > 0 && t[0] != '#' {
          parsed := ParseLine(t);
        }
      }
      ReadStep(items, lines, i, parsed);
      if parsed.Some? {
        items := items + [ItemOf(parsed.value)];
      }
      i := i + 1;
    }
    assert lines[..i] == lines;
  }

  /** The menu items and the doMenuItems flag (set by SIGHUP, cleared once the menu is read). */
  class Menu {
    var items: seq<MenuItem>
    var reload: bool

    constructor ()
      ensures items == [] && !reload
    {
      items, reload := [], false;
    }

    /**
     * getMenuItem: the item at the index, or nothing when the index is past the end.
     */
    function GetMenuItem(index: nat): (r: Option<MenuItem>)
      reads this
      ensures r.None? <==> index >= |items|
      ensures r.Some? ==> r.value in items && r.value == items[index]
    {
      if index >= |items| then None else Some(items[index])
    }

    /** requestMenuItems: asks for the menu to be read again. */
    method RequestMenuItems()
      modifies this
      ensures reload && items == old(items)
      ensures ShouldDoMenuItems()
    {
      reload := true;
    }

    /** shouldDoMenuItems. */
    function ShouldDoMenuItems(): (r: bool)
      reads this
      ensures r <==> reload
    {
      reload
    }

    /** clearMenuItems. */
    method ClearMenuItems()
      modifies this
      ensures items == [] && reload == old(reload)
    {
      items := [];
    }

    /**
     * acquireMenuItems, given the lines of the menu file (None when no file opens) and
     * the text width of a label: the items are the file's entries in file order (or the
     * single xterm item), laid out left to right; the reload request is then cleared.
     */
    method AcquireMenuItems(file: Option<seq<string>>, textWidth: string -> nat)
      modifies this
      ensures file.Some? ==> Pairs(items) == Entries(file.value)
      ensures file.None? ==> Pairs(items) == [Entry(NoMenuLabel, NoMenuCommand)]
      ensures LaidOut(items, textWidth)
      ensures !reload && !ShouldDoMenuItems()
    {
      ClearMenuItems();
      if file.Some? {
        items := ReadItems(file.value);
      } else {
        items := items + [MenuItem(NoMenuCommand, NoMenuLabel, 0, 0)];
      }
      LayOut(textWidth);
      reload := false;
    }

    /** The layout loop of acquireMenuItems: widths from the label text, offsets left to right. */
    method LayOut(textWidth: string -> nat)
      modifies this
      ensures Pairs(items) == Pairs(old(items)) && LaidOut(items, textWidth) && reload == old(reload)
    {
      var laid := items;
      var buttonStartX := 0;
      var j := 0;
      while j < |laid|
        invariant 0 <= j <= |laid| && Pairs(laid) == Pairs(items)
        invariant LaidOut(laid[..j], textWidth)
        invariant j > 0 ==> buttonStartX == laid[j - 1].x + laid[j - 1].width + 1
        invariant j == 0 ==> buttonStartX == 0
      {
        var w := textWidth(laid[j].caption) + 4 * Space;
        ghost var before := laid;
        laid := laid[j := laid[j].(x := buttonStartX, width := w)];
        assert Pairs(laid) == Pairs(before);
        assert laid[..j] == before[..j];
        buttonStartX := buttonStartX + w + 1;
        j := j + 1;
      }
      assert laid[..j] == laid;
      items := laid;
    }
  }
}
