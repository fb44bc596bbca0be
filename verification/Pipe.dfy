/**
  Cutting the output of a test script into lines (core/gui/pipe.c), whatever the pieces in which it
  is read.
 */
module Pipe {
  import opened CText
  import opened ExprMeaning

  const NIBBLE := 256

  /** The lines of a text when one more character ends the last one, or belongs to it. */
  function Extend(p: seq<string>, c: char, sep: char): seq<string>
    requires p != []
  {
    if c == sep then p + [[]] else p[..|p| - 1] + [p[|p| - 1] + [c]]
  }

  lemma ExtendCons(a: string, r: seq<string>, c: char, sep: char)
    requires r != []
    ensures Extend([a] + r, c, sep) == [a] + Extend(r, c, sep)
  {
    assert ([a] + r)[..|r|] == [a] + r[..|r| - 1] && ([a] + r)[|r|] == r[|r| - 1];
  }

  lemma ExtendHead(x: char, r: seq<string>, c: char, sep: char)
    requires r != []
    ensures Extend([[x] + r[0]] + r[1..], c, sep) == [[x] + Extend(r, c, sep)[0]] + Extend(r, c, sep)[1..]
  {
    if |r| == 1 {
      assert r[1..] == [] && [[x] + r[0]] + [] == [[x] + r[0]];
      assert [x] + (r[0] + [c]) == [x] + r[0] + [c];
    } else {
      ExtendCons([x] + r[0], r[1..], c, sep);
      ExtendCons(r[0], r[1..], c, sep);
      assert [r[0]] + r[1..] == r;
    }
  }

  lemma {:induction false} PiecesNext(s: string, c: char, sep: char)
    ensures Pieces(s + [c], sep) == Extend(Pieces(s, sep), c, sep)
  {
    hide Extend;
    if s == [] {
      assert [] + [c] == [c] && [c][1..] == [] && Pieces([], sep) == [[]];
      FirstPiece(c, sep);
    } else {
      assert (s + [c])[1..] == s[1..] + [c] && (s + [c])[0] == s[0];
      PiecesNext(s[1..], c, sep);
      ExtendCons([], Pieces(s[1..], sep), c, sep);
      ExtendHead(s[0], Pieces(s[1..], sep), c, sep);
    }
  }

  lemma FirstPiece(c: char, sep: char)
    ensures Pieces([c], sep) == Extend([[]], c, sep)
  {
    assert [c][1..] == [] && Pieces([], sep) == [[]];
    var e: seq<string> := [[]];
    assert e[..0] == [] && e[0] + [c] == [c] && [c] + [] == [c];
    if c != sep {
      assert Pieces([c], sep) == [[c]] + e[1..] && e[1..] == [];
    }
  }

  class InputPipe {
    var buf: array<char>
    var index: nat
    var notified: seq<string>
    ghost var input: string

    constructor ()
      ensures Valid() && fresh(buf) && notified == [] && input == []
    {
      buf := new char[0];
      index, notified, input := 0, [], [];
    }

    /** The lines notified and the one in the buffer are those of the whole input so far. */
    ghost predicate Valid()
      reads this, buf
    {
      index <= buf.Length && notified + [buf[..index]] == Pieces(input, '\n')
    }

    method Grow()
      requires index <= buf.Length
      modifies this`buf
      ensures index + 1 < buf.Length && buf[..index] == old(buf[..index])
      ensures buf == old(buf) || fresh(buf)
    {
      if index + 1 >= buf.Length {
        var kept := buf[..];
        buf := new char[buf.Length + NIBBLE](k => if 0 <= k < |kept| then kept[k] else NUL);
      }
    }

    method InputChar(c: char)
      requires Valid()
      modifies this, buf
      ensures Valid() && input == old(input) + [c] && (buf == old(buf) || fresh(buf))
    {
      ghost var lines := notified;
      ghost var line := buf[..index];
      PiecesNext(input, c, '\n');
      assert (lines + [line])[..|lines|] == lines;
      Grow();
      if c == '\n' {
        buf[index] := NUL;
        assert buf[..index] == line;
        notified := notified + [buf[..index]];
        index := 0;
        assert buf[..0] == [];
      } else {
        buf[index] := c;
        index := index + 1;
        assert buf[..index] == line + [c];
      }
      input := input + [c];
    }

    /** Some more input has been read. */
    method InputGuts(chunk: string)
      requires Valid()
      modifies this, buf
      ensures Valid() && input == old(input) + chunk && (buf == old(buf) || fresh(buf))
    {
      var i := 0;
      while i < |chunk|
        invariant 0 <= i <= |chunk| && Valid() && input == old(input) + chunk[..i] && (buf == old(buf) || fresh(buf))
      {
        assert chunk[..i + 1] == chunk[..i] + [chunk[i]];
        InputChar(chunk[i]);
        i := i + 1;
      }
      assert chunk[..i] == chunk;
    }

    /** Read all that is there, in chunks. */
    method Input(chunks: seq<string>)
      requires Valid()
      modifies this, buf
      ensures Valid() && input == old(input) + Concat(chunks) && (buf == old(buf) || fresh(buf))
    {
      var i := 0;
      while i < |chunks|
        invariant 0 <= i <= |chunks| && Valid() && input == old(input) + Concat(chunks[..i])
                  && (buf == old(buf) || fresh(buf))
      {
        assert chunks[..i + 1][..i] == chunks[..i];
        InputGuts(chunks[i]);
        i := i + 1;
      }
      assert chunks[..i] == chunks;
    }
  }

  function Concat(chunks: seq<string>): string {
    if chunks == [] then [] else Concat(chunks[..|chunks| - 1]) + chunks[|chunks| - 1]
  }

  /** The pieces between separators have no separator, and give the text again when put together. */
  lemma {:induction false} PiecesAreLines(s: string, sep: char)
    ensures forall p :: p in Pieces(s, sep) ==> sep !in p
    ensures Glue(Pieces(s, sep), sep) == s
  {
    if s != [] {
      PiecesAreLines(s[1..], sep);
      var r := Pieces(s[1..], sep);
      if s[0] == sep {
        assert ([[]] + r)[1..] == r;
        assert Glue([[]] + r, sep) == [] + [sep] + Glue(r, sep);
      } else {
        var g := [[s[0]] + r[0]] + r[1..];
        assert g[1..] == r[1..];
        assert Glue(g, sep) == [s[0]] + Glue(r, sep);
        assert forall p :: p in g ==> p == [s[0]] + r[0] || p in r;
      }
    }
  }

  function Glue(ps: seq<string>, sep: char): string {
    if ps == [] then [] else if |ps| == 1 then ps[0] else ps[0] + [sep] + Glue(ps[1..], sep)
  }
}
