/**
  What a filter keeps of the lines that are read, and what the lines of a text are; how texts are laid out
  (core/output/output_xml.c).
 */
module XmlFilter {
  import opened CText
  import opened Shapes
  import opened Expr
  import opened ExprMeaning
  import opened XmlText
  import opened XmlSession

  /** The lines that start with some text, without it. */
  function Starting(lines: seq<(int, string)>, start: string): seq<(int, string)> {
    if lines == [] then []
    else
      var (channel, line) := lines[0];
      (if |start| <= |line| && line[..|start|] == start then [(channel, line[|start|..])] else [])
      + Starting(lines[1..], start)
  }

  lemma {:induction false} StartingInTurn(a: seq<(int, string)>, b: seq<(int, string)>, start: string)
    ensures Starting(a + b, start) == Starting(a, start) + Starting(b, start)
  {
    if a == [] {
      assert a + b == b;
    } else {
      assert (a + b)[1..] == a[1..] + b;
      StartingInTurn(a[1..], b, start);
    }
  }

  lemma GivenFiltered(channel: int, line: string, start: string)
    ensures Given(channel, line, Some(start)) == Starting(Given(channel, line, None), start)
  {
    assert [(channel, line)][1..] == [];
  }

  /** Reading with a filter keeps the lines read without it that start with the filter, without it. */
  lemma {:induction false} ReadFiltered(text: string, channel: int, start: string)
    ensures ReadText(text, channel, Some(start)) == Starting(ReadText(text, channel, None), start)
    decreases |text|
  {
    hide Given, Starting, ReadLine;
    NothingStarts(start);
    var k := Find(text, '\n');
    if k < |text| {
      var line, rest := text[..k], text[k + 1..];
      match ReadLine(line, channel) {
        case Finish =>
        case Switch(c) => ReadFiltered(rest, c, start);
        case Plain =>
          ReadFiltered(rest, channel, start);
          GivenFiltered(channel, Unescape(line), start);
          StartingInTurn(Given(channel, Unescape(line), None), ReadText(rest, channel, None), start);
      }
    }
  }

  lemma NothingStarts(start: string)
    ensures Starting([], start) == []
  {
  }

  lemma {:induction false} GivenAllFiltered(channel: int, lines: seq<string>, start: string)
    ensures GivenAll(channel, lines, Some(start)) == Starting(GivenAll(channel, lines, None), start)
  {
    hide Given;
    if lines != [] {
      GivenFiltered(channel, lines[0], start);
      GivenAllFiltered(channel, lines[1..], start);
      StartingInTurn(Given(channel, lines[0], None), GivenAll(channel, lines[1..], None), start);
    }
  }

  /** So it is for the lines that were said. */
  lemma {:induction false} LinesFiltered(acts: seq<Act>, start: string)
    ensures Lines(acts, Some(start)) == Starting(Lines(acts, None), start)
  {
    hide Pieces, GivenAll, Starting;
    NothingStarts(start);
    if acts != [] {
      match acts[0] {
        case Say(c, text) => GivenAllFiltered(Heard(c), Pieces(text, '\n'), start);
        case Mark(_, _, _) =>
      }
      LinesFiltered(acts[1..], start);
      StartingInTurn(SaidLines(acts[0], None), Lines(acts[1..], None), start);
    }
  }

  /** A text on a channel that is known gives its lines, and others give nothing. */
  lemma {:induction false} LinesOfText(channel: int, lines: seq<string>)
    ensures var given := GivenAll(Heard(channel), lines, None);
            if 0 <= channel <= 5
            then |given| == |lines| && forall i :: 0 <= i < |lines| ==> given[i] == (channel, lines[i])
            else given == []
  {
    if lines != [] {
      LinesOfText(channel, lines[1..]);
    }
  }

  /** A text of lines is laid out line by line, each after its indentation, of two spaces a level. */
  lemma {:induction false} CdataLines(depth: nat, line: string, rest: string)
    requires '\n' !in line
    ensures Cdata(depth, line + "\n" + rest, true) == Indent(depth) + Escape(line) + "\n" + Cdata(depth, rest, true)
    ensures Cdata(depth, line, true) == if line == [] then [] else Indent(depth) + Escape(line)
    ensures |Indent(depth)| == 2 * depth && forall i :: 0 <= i < 2 * depth ==> Indent(depth)[i] == ' '
  {
    hide Cdata, Indent, Escape;
    IndentIs(depth);
    var all := line + "\n" + rest;
    CdataFirst(depth, all);
    CdataRest(depth, line, rest);
    if line != [] {
      CdataFirst(depth, line);
    } else {
      CdataEmpty(depth);
    }
  }

  lemma {:induction false} IndentIs(depth: nat)
    ensures |Indent(depth)| == 2 * depth && forall i :: 0 <= i < 2 * depth ==> Indent(depth)[i] == ' '
  {
    if depth > 0 {
      IndentIs(depth - 1);
    }
  }

  lemma CdataEmpty(depth: nat)
    ensures Cdata(depth, [], true) == []
  {
  }

  lemma CdataFirst(depth: nat, s: string)
    requires s != []
    ensures Cdata(depth, s, true) == Indent(depth) + Cdata(depth, s, false)
  {
    hide Indent;
    ConcatAssoc(Indent(depth), EscapeChar(s[0]), Cdata(depth, s[1..], s[0] == '\n'));
    assert [] + EscapeChar(s[0]) == EscapeChar(s[0]);
  }

  lemma CdataNext(depth: nat, c: char, s: string)
    ensures Cdata(depth, [c] + s, false) == EscapeChar(c) + Cdata(depth, s, c == '\n')
    ensures Escape([c] + s) == EscapeChar(c) + Escape(s)
  {
    assert ([c] + s)[1..] == s;
  }

  lemma {:induction false} CdataRest(depth: nat, line: string, rest: string)
    requires '\n' !in line
    ensures Cdata(depth, line + "\n" + rest, false) == Escape(line) + "\n" + Cdata(depth, rest, true)
    ensures Cdata(depth, line, false) == Escape(line)
  {
    hide Cdata, Escape, EscapeChar;
    if line == [] {
      EscapeNothing(depth);
      CdataNext(depth, '\n', rest);
      assert line + "\n" + rest == ['\n'] + rest;
    } else {
      var c, more := line[0], line[1..];
      assert line == [c] + more && line + "\n" + rest == [c] + (more + "\n" + rest);
      CdataNext(depth, c, more);
      CdataNext(depth, c, more + "\n" + rest);
      CdataRest(depth, more, rest);
      assert EscapeChar(c) + (Escape(more) + "\n" + Cdata(depth, rest, true))
             == EscapeChar(c) + Escape(more) + "\n" + Cdata(depth, rest, true);
    }
  }

  lemma EscapeNothing(depth: nat)
    ensures Escape([]) == [] && Cdata(depth, [], false) == [] && EscapeChar('\n') == "\n"
  {
  }
}
