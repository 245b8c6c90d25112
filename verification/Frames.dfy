/** An incremental reader of server-sent events, and why where the text is cut never shows. */
module Frames {

  datatype Frame = Frame(event: string, data: string)

  // ---------- Text ----------

  function NoReturns(text: string): (r: string)
    ensures '\r' !in r && forall c :: c in r ==> c in text
    ensures '\r' !in text ==> r == text
  {
    if text == "" then ""
    else if text[0] == '\r' then NoReturns(text[1..])
    else [text[0]] + NoReturns(text[1..])
  }

  lemma {:induction false} NoReturnsJoins(a: string, b: string)
    ensures NoReturns(a + b) == NoReturns(a) + NoReturns(b)
  {
    if a == "" {
      assert a + b == b;
    } else {
      assert (a + b)[1..] == a[1..] + b;
      NoReturnsJoins(a[1..], b);
    }
  }

  /** Where a blank line ends the first block, or −1. */
  function BlankLine(s: string): (at: int)
    ensures -1 <= at && at + 2 <= |s| + (if at < 0 then 2 else 0)
    ensures at >= 0 ==> s[at] == '\n' && s[at + 1] == '\n'
    ensures forall i :: 0 <= i && i + 1 < |s| && (at < 0 || i < at) ==> !(s[i] == '\n' && s[i + 1] == '\n')
  {
    if |s| < 2 then -1
    else if s[0] == '\n' && s[1] == '\n' then 0
    else
      var rest := BlankLine(s[1..]);
      assert forall i :: 0 <= i < |s| - 1 ==> s[1..][i] == s[i + 1];
      if rest < 0 then
        assert forall i :: 0 <= i && i + 1 < |s| ==> i == 0 || !(s[1..][i - 1] == '\n' && s[1..][i] == '\n');
        -1
      else
        assert forall i :: 0 <= i < rest + 1 && i + 1 < |s| ==> i == 0 || !(s[1..][i - 1] == '\n' && s[1..][i] == '\n');
        rest + 1
  }

  function IndexOf(s: string, c: char): (at: int)
    ensures -1 <= at < |s|
    ensures at >= 0 ==> s[at] == c
    ensures forall i :: 0 <= i < |s| && (at < 0 || i < at) ==> s[i] != c
  {
    if s == "" then -1
    else if s[0] == c then 0
    else
      var rest := IndexOf(s[1..], c);
      assert forall i :: 0 < i < |s| ==> s[i] == s[1..][i - 1];
      if rest < 0 then -1 else rest + 1
  }

  lemma IndexIs(s: string, c: char, k: nat)
    requires k < |s| && s[k] == c && forall i :: 0 <= i < k ==> s[i] != c
    ensures IndexOf(s, c) == k
  {
  }

  function Split(s: string): (lines: seq<string>)
    ensures |lines| > 0
    ensures forall l :: l in lines ==> '\n' !in l
    decreases |s|
  {
    var at := IndexOf(s, '\n');
    if at < 0 then [s] else [s[..at]] + Split(s[at + 1..])
  }

  function Join(lines: seq<string>): string
  {
    if lines == [] then ""
    else if |lines| == 1 then lines[0]
    else lines[0] + "\n" + Join(lines[1..])
  }

  lemma {:induction false} JoinSplit(s: string)
    ensures Join(Split(s)) == s
    decreases |s|
  {
    var at := IndexOf(s, '\n');
    if at >= 0 {
      JoinSplit(s[at + 1..]);
      assert s == s[..at] + "\n" + s[at + 1..];
      assert Split(s)[1..] == Split(s[at + 1..]);
    }
  }

  lemma {:induction false} SplitJoin(lines: seq<string>)
    requires |lines| > 0 && forall l :: l in lines ==> '\n' !in l
    ensures Split(Join(lines)) == lines
  {
    var s := Join(lines);
    assert '\n' !in lines[0];
    if |lines| > 1 {
      var rest := Join(lines[1..]);
      FirstLine(lines[0], rest);
      assert forall l :: l in lines[1..] ==> l in lines;
      SplitJoin(lines[1..]);
      assert s == lines[0] + "\n" + rest;
      assert Split(s) == [lines[0]] + Split(rest);
      assert lines == [lines[0]] + lines[1..];
    } else {
      assert lines == [lines[0]];
    }
  }

  lemma FirstLine(line: string, rest: string)
    requires '\n' !in line
    ensures IndexOf(line + "\n" + rest, '\n') == |line|
    ensures (line + "\n" + rest)[..|line|] == line && (line + "\n" + rest)[|line| + 1..] == rest
  {
    IndexIs(line + "\n" + rest, '\n', |line|);
  }

  // ---------- A block, line by line ----------

  datatype Block = Block(event: string, data: seq<string>, said: bool)

  const BLANK := Block("message", [], false)

  /** What one line adds: an event's name, a line of data, or nothing. */
  function Line(b: Block, line: string): Block {
    if line == "" || line[0] == ':' then b
    else
      var colon := IndexOf(line, ':');
      var field := if colon < 0 then line else line[..colon];
      var raw := if colon < 0 then "" else line[colon + 1..];
      var value := if raw != "" && raw[0] == ' ' then raw[1..] else raw;
      if field == "event" then Block(value, b.data, true)
      else if field == "data" then Block(b.event, b.data + [value], true)
      else b
  }

  /** A field's line, with a space after its colon or none, or with no colon at all. An
      event's name replaces the last, data is added, and any other field is passed over,
      as are blank lines and comments. */
  lemma LineSays(b: Block, field: string, value: string)
    requires field != "" && ':' !in field
    ensures
      var said := if field == "event" then Block(value, b.data, true)
                  else if field == "data" then Block(b.event, b.data + [value], true)
                  else b;
      && Line(b, field + ": " + value) == said
      && (value == "" || value[0] != ' ' ==> Line(b, field + ":" + value) == said)
      && (value == "" ==> Line(b, field) == said)
    ensures Line(b, "") == b && Line(b, ":" + value) == b
  {
    var spaced, close := field + ": " + value, field + ":" + value;
    FieldEnds(field, " " + value);
    FieldEnds(field, value);
    assert field + ":" + (" " + value) == spaced;
    assert (" " + value)[1..] == value && (" " + value)[0] == ' ';
    assert (":" + value)[0] == ':';
  }

  lemma FieldEnds(field: string, rest: string)
    requires field != "" && ':' !in field
    ensures
      var line := field + ":" + rest;
      IndexOf(line, ':') == |field| && line[..|field|] == field && line[|field| + 1..] == rest && line[0] != ':'
    ensures IndexOf(field, ':') == -1 && field[0] != ':'
  {
    var line := field + ":" + rest;
    IndexIs(line, ':', |field|);
    assert line[0] == field[0] && field[0] in field;
  }

  function Lines(b: Block, lines: seq<string>): Block
    decreases |lines|
  {
    if lines == [] then b else Lines(Line(b, lines[0]), lines[1..])
  }

  /** A block's frame, if it said anything. */
  function FrameOf(b: Block): seq<Frame> {
    if b.said then [Frame(b.event, Join(b.data))] else []
  }

  function Parsed(block: string): seq<Frame> {
    FrameOf(Lines(BLANK, Split(block)))
  }

  lemma OneLineBlock(line: string)
    requires '\n' !in line
    ensures Parsed(line) == FrameOf(Line(BLANK, line))
  {
    assert IndexOf(line, '\n') < 0;
    hide Line;
    assert Split(line) == [line] && [line][0] == line && [line][1..] == [];
    assert Lines(BLANK, [line]) == Lines(Line(BLANK, line), [line][1..]);
  }

  /** A block of data alone is a frame of the event named message; of any field but the
      two, no frame. */
  lemma DataAlone(field: string, value: string)
    requires field != "" && ':' !in field && '\n' !in field && '\n' !in value
    ensures Parsed("data: " + value) == [Frame("message", value)]
    ensures field != "data" && field != "event" ==> Parsed(field + ": " + value) == []
  {
    LineSays(BLANK, "data", value);
    LineSays(BLANK, field, value);
    OneLineBlock("data: " + value);
    OneLineBlock(field + ": " + value);
    assert "data: " + value == "data" + ": " + value;
    hide Line, Parsed;
    assert Line(BLANK, "data: " + value) == Block("message", [] + [value], true);
    assert [] + [value] == [value] && Join([value]) == value;
  }

  // ---------- The stream ----------

  datatype Reading = Reading(frames: seq<Frame>, rest: string)

  /** Every whole block of a text, and what is left over. */
  function Read(s: string): (r: Reading)
    ensures BlankLine(r.rest) < 0
    decreases |s|
  {
    var at := BlankLine(s);
    if at < 0 then Reading([], s)
    else
      var more := Read(s[at + 2..]);
      Reading(Parsed(s[..at]) + more.frames, more.rest)
  }

  class FrameReader {
    var buffer: string

    constructor ()
      ensures buffer == ""
    {
      buffer := "";
    }

    /** The frames a piece of text completes; what it does not stays for the next. */
    method Push(text: string) returns (frames: seq<Frame>)
      modifies this
      ensures Reading(frames, buffer) == Read(old(buffer) + NoReturns(text))
      ensures BlankLine(buffer) < 0
    {
      hide Parsed, NoReturns, Read, BlankLine;
      buffer := buffer + NoReturns(text);
      frames := [];
      var at := BlankLine(buffer);
      ghost var whole := buffer;
      while at >= 0
        invariant at == BlankLine(buffer)
        invariant Read(whole) == Reading(frames + Read(buffer).frames, Read(buffer).rest)
        decreases |buffer|
      {
        var block := buffer[..at];
        ReadNext(buffer);
        buffer := buffer[at + 2..];
        var found := ParseBlock(block);
        assert frames + (Parsed(block) + Read(buffer).frames) == (frames + found) + Read(buffer).frames;
        frames := frames + found;
        at := BlankLine(buffer);
      }
      ReadNothing(buffer);
      assert frames + [] == frames;
    }
  }

  lemma ReadNext(s: string)
    requires BlankLine(s) >= 0
    ensures var at := BlankLine(s); var more := Read(s[at + 2..]);
      Read(s) == Reading(Parsed(s[..at]) + more.frames, more.rest)
  {
  }

  lemma ReadNothing(s: string)
    requires BlankLine(s) < 0
    ensures Read(s) == Reading([], s)
  {
  }

  /** One block, line by line. */
  method ParseBlock(block: string) returns (frames: seq<Frame>)
    ensures frames == Parsed(block)
  {
    hide Join, Split;
    var event, data, said := "message", [], false;
    var lines := Split(block);
    assert lines[0..] == lines;
    for i := 0 to |lines|
      invariant Lines(BLANK, lines) == Lines(Block(event, data, said), lines[i..])
    {
      var line := lines[i];
      assert lines[i..][0] == line && lines[i..][1..] == lines[i + 1..];
      if line == "" || line[0] == ':' {
        continue;
      }
      var colon := IndexOf(line, ':');
      var field := if colon < 0 then line else line[..colon];
      var raw := if colon < 0 then "" else line[colon + 1..];
      var value := if raw != "" && raw[0] == ' ' then raw[1..] else raw;
      if field == "event" {
        event, said := value, true;
      } else if field == "data" {
        data, said := data + [value], true;
      }
    }
    assert lines[|lines|..] == [];
    frames := if said then [Frame(event, Join(data))] else [];
  }

  // ---------- Cuts do not show ----------

  lemma BlankLineStays(a: string, b: string)
    requires BlankLine(a) >= 0
    ensures BlankLine(a + b) == BlankLine(a)
  {
    var at, s := BlankLine(a), a + b;
    BlankLineIs(s, at);
  }

  lemma BlankLineIs(s: string, at: nat)
    requires at + 1 < |s| && s[at] == '\n' && s[at + 1] == '\n'
    requires forall i :: 0 <= i < at ==> !(s[i] == '\n' && s[i + 1] == '\n')
    ensures BlankLine(s) == at
  {
  }

  /** Reading a text and then what follows it is reading them together. */
  lemma {:induction false} ReadOn(a: string, b: string)
    ensures
      var first := Read(a);
      var second := Read(first.rest + b);
      Read(a + b) == Reading(first.frames + second.frames, second.rest)
    decreases |a|
  {
    hide Parsed, Read, BlankLine;
    var at := BlankLine(a);
    if at < 0 {
      ReadNothing(a);
      var second := Read(a + b);
      assert [] + second.frames == second.frames;
    } else {
      BlankLineStays(a, b);
      assert (a + b)[..at] == a[..at] && (a + b)[at + 2..] == a[at + 2..] + b;
      ReadNext(a);
      ReadNext(a + b);
      ReadOn(a[at + 2..], b);
      var first := Read(a[at + 2..]);
      var second := Read(first.rest + b);
      assert Parsed(a[..at]) + (first.frames + second.frames) == (Parsed(a[..at]) + first.frames) + second.frames;
    }
  }

  function Whole(pieces: seq<string>): string {
    if pieces == [] then "" else pieces[0] + Whole(pieces[1..])
  }

  /** What a run of pushes gives altogether, and leaves. */
  function Pushed(buffer: string, pieces: seq<string>): Reading
    decreases |pieces|
  {
    if pieces == [] then Reading([], buffer)
    else
      var first := Read(buffer + NoReturns(pieces[0]));
      var more := Pushed(first.rest, pieces[1..]);
      Reading(first.frames + more.frames, more.rest)
  }

  /** For every way of cutting a text into pieces, pushing them one by one gives
      the frames of one push of the whole, and leaves the same. */
  lemma {:induction false} HoweverCut(buffer: string, pieces: seq<string>)
    requires BlankLine(buffer) < 0
    ensures Pushed(buffer, pieces) == Read(buffer + NoReturns(Whole(pieces)))
    decreases |pieces|
  {
    hide Read, NoReturns;
    if pieces == [] {
      ReadNothing(buffer);
      NothingReturns();
      assert buffer + "" == buffer;
    } else {
      var a, b := NoReturns(pieces[0]), NoReturns(Whole(pieces[1..]));
      NoReturnsJoins(pieces[0], Whole(pieces[1..]));
      assert buffer + (a + b) == (buffer + a) + b;
      ReadOn(buffer + a, b);
      HoweverCut(Read(buffer + a).rest, pieces[1..]);
    }
  }

  lemma NothingReturns()
    ensures NoReturns("") == ""
  {
  }

  /** The pushes themselves, each on the reader the last one left. */
  method PushAll(reader: FrameReader, pieces: seq<string>) returns (frames: seq<Frame>)
    requires BlankLine(reader.buffer) < 0
    modifies reader
    ensures Reading(frames, reader.buffer) == Read(old(reader.buffer) + NoReturns(Whole(pieces)))
  {
    hide Read, NoReturns, BlankLine;
    HoweverCut(reader.buffer, pieces);
    frames := [];
    assert pieces[0..] == pieces;
    for i := 0 to |pieces|
      invariant Pushed(old(reader.buffer), pieces)
             == Reading(frames + Pushed(reader.buffer, pieces[i..]).frames, Pushed(reader.buffer, pieces[i..]).rest)
    {
      assert pieces[i..][0] == pieces[i] && pieces[i..][1..] == pieces[i + 1..];
      var more := reader.Push(pieces[i]);
      ghost var after := Pushed(reader.buffer, pieces[i + 1..]).frames;
      assert frames + (more + after) == (frames + more) + after;
      frames := frames + more;
    }
    assert pieces[|pieces|..] == [] && frames + [] == frames;
  }

  // ---------- Printing, and reading back ----------

  /** One thing printed to a stream; comments are read past. */
  datatype Item = Shown(frame: Frame) | Comment(text: string)

  predicate Printable(item: Item) {
    match item
    case Shown(f) => '\r' !in f.event && '\n' !in f.event && '\r' !in f.data
    case Comment(text) => '\n' !in text
  }

  function DataLines(lines: seq<string>): (r: seq<string>)
    ensures |r| == |lines|
    ensures forall i :: 0 <= i < |lines| ==> r[i] == "data: " + lines[i]
  {
    if lines == [] then [] else ["data: " + lines[0]] + DataLines(lines[1..])
  }

  /** An `event:` line and one `data:` line for each line of the data; or the comment. */
  function ItemLines(item: Item): seq<string> {
    match item
    case Shown(f) => ["event: " + f.event] + DataLines(Split(f.data))
    case Comment(text) => [":" + text]
  }

  function Print(items: seq<Item>): string {
    if items == [] then "" else Join(ItemLines(items[0])) + "\n\n" + Print(items[1..])
  }

  function FramesIn(items: seq<Item>): seq<Frame> {
    if items == [] then []
    else if items[0].Shown? then [items[0].frame] + FramesIn(items[1..])
    else FramesIn(items[1..])
  }

  /** Lines with something on each: the first blank line is the one that ends them. */
  lemma BlockEnds(lines: seq<string>, rest: string)
    requires |lines| > 0 && forall l :: l in lines ==> l != "" && '\n' !in l
    ensures BlankLine(Join(lines) + "\n\n" + rest) == |Join(lines)|
  {
    var s, n := Join(lines) + "\n\n" + rest, |Join(lines)|;
    assert s[n] == '\n' && s[n + 1] == '\n';
    NoneBefore(lines);
    forall i | 0 <= i < n
      ensures !(s[i] == '\n' && s[i + 1] == '\n')
    {
      assert s[i] == Join(lines)[i];
      assert i + 1 < n ==> s[i + 1] == Join(lines)[i + 1];
    }
  }

  /** No two newlines run together inside such lines, and none comes first or last. */
  lemma {:induction false} NoneBefore(lines: seq<string>)
    requires |lines| > 0 && forall l :: l in lines ==> l != "" && '\n' !in l
    ensures var s := Join(lines); |s| > 0 && s[0] != '\n' && s[|s| - 1] != '\n'
    ensures var s := Join(lines); forall i :: 0 <= i && i + 1 < |s| ==> !(s[i] == '\n' && s[i + 1] == '\n')
  {
    var first := lines[0];
    assert first in lines;
    if |lines| > 1 {
      assert forall l :: l in lines[1..] ==> l in lines;
      NoneBefore(lines[1..]);
      var s, rest := Join(lines), Join(lines[1..]);
      assert s == first + "\n" + rest;
      forall i | 0 <= i && i + 1 < |s|
        ensures !(s[i] == '\n' && s[i + 1] == '\n')
      {
        if i < |first| {
          assert s[i] == first[i];
        } else if i > |first| {
          assert s[i] == rest[i - |first| - 1] && s[i + 1] == rest[i - |first|];
        }
      }
    }
  }

  lemma EventLine(b: Block, event: string)
    ensures Line(b, "event: " + event) == Block(event, b.data, true)
  {
    assert "event: " + event == "event" + ": " + event;
    FieldLine("event", event);
  }

  lemma DataLine(b: Block, data: string)
    ensures Line(b, "data: " + data) == Block(b.event, b.data + [data], true)
  {
    assert "data: " + data == "data" + ": " + data;
    FieldLine("data", data);
  }

  lemma FieldLine(field: string, value: string)
    requires field != "" && ':' !in field
    ensures
      var line := field + ": " + value;
      && line != "" && IndexOf(line, ':') == |field| && line[..|field|] == field
      && line[|field| + 1..] == " " + value && line[0] != ':' && (" " + value)[1..] == value
  {
    var line := field + ": " + value;
    assert line[|field|] == ':';
    assert forall i :: 0 <= i < |field| ==> line[i] == field[i] && field[i] in field;
    IndexIs(line, ':', |field|);
  }

  lemma {:induction false} DataLinesRead(b: Block, lines: seq<string>)
    requires |lines| > 0
    ensures Lines(b, DataLines(lines)) == Block(b.event, b.data + lines, true)
    decreases |lines|
  {
    hide Line;
    var d := DataLines(lines);
    DataLine(b, lines[0]);
    assert d[0] == "data: " + lines[0] && d[1..] == DataLines(lines[1..]);
    var next := Line(b, d[0]);
    if |lines| > 1 {
      DataLinesRead(next, lines[1..]);
      assert b.data + [lines[0]] + lines[1..] == b.data + lines;
    } else {
      assert d[1..] == [] && b.data + [lines[0]] == b.data + lines;
    }
  }

  lemma ItemParsed(item: Item)
    requires Printable(item)
    ensures |ItemLines(item)| > 0 && forall l :: l in ItemLines(item) ==> l != "" && '\n' !in l
    ensures FrameOf(Lines(BLANK, ItemLines(item))) == if item.Shown? then [item.frame] else []
  {
    hide Line, Split, DataLines;
    var lines := ItemLines(item);
    if item.Shown? {
      var e, d := item.frame.event, Split(item.frame.data);
      EventLine(BLANK, e);
      DataLinesRead(Block(e, [], true), d);
      assert lines[0] == "event: " + e && lines[1..] == DataLines(d) && [] + d == d;
      JoinSplit(item.frame.data);
      forall l | l in lines
        ensures l != "" && '\n' !in l
      {
        var i :| 0 <= i < |lines| && lines[i] == l;
        assert i > 0 ==> l == "data: " + d[i - 1] && d[i - 1] in d;
      }
    } else {
      CommentLine(BLANK, item.text);
      assert lines[1..] == [];
    }
  }

  lemma CommentLine(b: Block, text: string)
    ensures Line(b, ":" + text) == b
  {
  }

  /** The items of a stream, printed and read, give back its frames in order and
      leave nothing, comments between them or not. */
  lemma {:induction false} ReadPrinted(items: seq<Item>)
    requires forall item :: item in items ==> Printable(item)
    ensures Read(Print(items)) == Reading(FramesIn(items), "")
  {
    if items != [] {
      var lines, rest := ItemLines(items[0]), Print(items[1..]);
      var s := Print(items);
      ItemParsed(items[0]);
      BlockEnds(lines, rest);
      SplitJoin(lines);
      assert s[..|Join(lines)|] == Join(lines) && s[|Join(lines)| + 2..] == rest;
      ReadPrinted(items[1..]);
    }
  }

  /** The items as they are once the carriage returns are dropped: only a comment has any. */
  function Cleaned(items: seq<Item>): (r: seq<Item>)
    ensures FramesIn(r) == FramesIn(items)
  {
    if items == [] then [] else [CleanedItem(items[0])] + Cleaned(items[1..])
  }

  function CleanedItem(item: Item): Item {
    if item.Comment? then Comment(NoReturns(item.text)) else item
  }

  lemma {:induction false} CleanedPrintable(items: seq<Item>)
    requires forall item :: item in items ==> Printable(item)
    ensures forall item :: item in Cleaned(items) ==> Printable(item)
  {
    if items != [] {
      assert Printable(items[0]);
      assert Printable(CleanedItem(items[0]));
      CleanedPrintable(items[1..]);
    }
  }

  lemma {:induction false} JoinKeepsOut(lines: seq<string>, c: char)
    requires c != '\n' && forall l :: l in lines ==> c !in l
    ensures c !in Join(lines)
  {
    if |lines| > 1 {
      assert forall l :: l in lines[1..] ==> l in lines;
      JoinKeepsOut(lines[1..], c);
    }
  }

  lemma {:induction false} SplitKeepsOut(s: string, c: char)
    requires c !in s
    ensures forall l :: l in Split(s) ==> c !in l
    decreases |s|
  {
    var at := IndexOf(s, '\n');
    if at >= 0 {
      SplitKeepsOut(s[at + 1..], c);
    }
  }

  /** A printed item has no carriage return but in a comment, and loses those of a comment. */
  lemma ItemCleaned(item: Item)
    requires Printable(item)
    ensures
      NoReturns(Join(ItemLines(item)) + "\n\n") == Join(ItemLines(CleanedItem(item))) + "\n\n"
  {
    hide NoReturns, Split, DataLines;
    NoReturnsJoins(Join(ItemLines(item)), "\n\n");
    if item.Comment? {
      NoReturnsJoins(":", item.text);
    } else {
      SplitKeepsOut(item.frame.data, '\r');
      var lines := ItemLines(item);
      forall l | l in lines
        ensures '\r' !in l
      {
        var i :| 0 <= i < |lines| && lines[i] == l;
        assert i > 0 ==> l == "data: " + Split(item.frame.data)[i - 1];
      }
      JoinKeepsOut(lines, '\r');
    }
  }

  lemma {:induction false} PrintCleaned(items: seq<Item>)
    requires forall item :: item in items ==> Printable(item)
    ensures NoReturns(Print(items)) == Print(Cleaned(items))
  {
    if items != [] {
      var first := Join(ItemLines(items[0])) + "\n\n";
      ItemCleaned(items[0]);
      NoReturnsJoins(first, Print(items[1..]));
      PrintCleaned(items[1..]);
      assert Print(items) == first + Print(items[1..]);
      assert Cleaned(items)[1..] == Cleaned(items[1..]);
    }
  }

  /** What a server prints, cut anywhere into pieces and pushed one by one, comes
      out as its frames, in order and to the letter, and leaves nothing over. */
  lemma PrintedAndPushed(items: seq<Item>, pieces: seq<string>)
    requires forall item :: item in items ==> Printable(item)
    requires Whole(pieces) == Print(items)
    ensures Pushed("", pieces) == Reading(FramesIn(items), "")
  {
    HoweverCut("", pieces);
    PrintCleaned(items);
    CleanedPrintable(items);
    ReadPrinted(Cleaned(items));
    assert "" + NoReturns(Whole(pieces)) == NoReturns(Whole(pieces));
  }
}
