/**
  Reading the texts of a test case back from the XML output file (core/output/output_xml.c,
  interface/useful/fgets2.c, interface/useful/strxml.c).
 */
module XmlReader {
  import opened CText
  import opened Shapes
  import opened Expr
  import opened XmlText

  // ----- character references -----

  /** The C string at place `i` starts with the word `w`. */
  predicate StrPrefix(str: array<char>, i: nat, w: string)
    reads str
  {
    i + |w| <= str.Length && str[i..i + |w|] == w
  }

  lemma PrefixInText(str: array<char>, i: nat, n: nat, w: string)
    requires Expr.Text(str, i, n) && NUL !in w
    ensures StrPrefix(str, i, w) <==> StartsWith(str[i..n], w)
  {
    assert n < i + |w| <= str.Length ==> str[i..i + |w|][n - i] == NUL;
    if StrPrefix(str, i, w) {
      assert str[i..n][..|w|] == w;
    }
    if StartsWith(str[i..n], w) {
      assert str[i..i + |w|] == str[i..n][..|w|];
    }
  }

  /** Read one character, or the one that a reference stands for. */
  method GetChar(str: array<char>, i: nat, ghost n: nat) returns (c: char, get: nat)
    requires Expr.Text(str, i, n) && i < n
    ensures i < get <= n && (c, str[get..n]) == Unquote(str[i..n])
  {
    hide StrPrefix, StartsWith;
    ghost var s := str[i..n];
    c := str[i];
    get := i + 1;
    assert s[0] == c && s[1..] == str[get..n];
    PrefixInText(str, get, n, "amp;");
    PrefixInText(str, get, n, "lt;");
    PrefixInText(str, get, n, "gt;");
    PrefixInText(str, get, n, "apos;");
    PrefixInText(str, get, n, "quot;");
    PrefixFits(s[1..]);
    if c == '&' {
      if StrPrefix(str, get, "amp;") {
        get := get + 4;
      } else if StrPrefix(str, get, "lt;") {
        get := get + 3;
        c := '<';
      } else if StrPrefix(str, get, "gt;") {
        get := get + 3;
        c := '>';
      } else if StrPrefix(str, get, "apos;") {
        get := get + 5;
        c := '\'';
      } else if StrPrefix(str, get, "quot;") {
        get := get + 5;
        c := '"';
      }
      assert str[get..n] == s[1..][get - i - 1..];
    }
  }

  lemma PrefixFits(s: string)
    ensures StartsWith(s, "amp;") ==> 4 <= |s|
    ensures StartsWith(s, "lt;") || StartsWith(s, "gt;") ==> 3 <= |s|
    ensures StartsWith(s, "apos;") || StartsWith(s, "quot;") ==> 5 <= |s|
  {
  }

  /** Replace the character references of a C string, in place. */
  method StrXml(str: array<char>, ghost n: nat) returns (m: nat)
    requires Expr.Text(str, 0, n)
    modifies str
    ensures m <= n && str[m] == NUL && str[..m] == Unescape(old(str[..n]))
  {
    hide Unescape, Unquote;
    ghost var s := str[..n];
    var get := 0;
    m := 0;
    assert str[0..n] == s && str[..0] == [];
    while str[get] != NUL
      invariant 0 <= m <= get <= n && Expr.Text(str, get, n)
      invariant str[..m] + Unescape(str[get..n]) == Unescape(s)
      decreases n - get
    {
      ghost var done, at := str[..m], get;
      UnescapeNext(str[get..n]);
      var c;
      c, get := GetChar(str, get, n);
      ghost var rest := str[get..n];
      ConcatAssoc(done, [c], Unescape(rest));
      str[m] := c;
      m := m + 1;
      assert str[..m] == done + [c] && str[get..n] == rest;
    }
    assert Unescape(str[get..n]) == [] by {
      NothingToUnescape();
    }
    str[m] := NUL;
    assert str[..m] + [] == str[..m];
  }

  lemma UnescapeNext(s: string)
    requires s != []
    ensures Unescape(s) == [Unquote(s).0] + Unescape(Unquote(s).1)
  {
  }

  lemma NothingToUnescape()
    ensures Unescape([]) == []
  {
  }

  // ----- tags -----

  /** The channel that the reader has in mind after a tag, whose text starts after its `<`; None at the next case. */
  method ReadTagAt(buf: array<char>, i: nat, channel: int, ghost n: nat) returns (next: Option<int>)
    requires Expr.Text(buf, i, n)
    ensures match ReadTag(buf[i..n], channel)
            case Finish => next == None
            case Switch(c) => next == Some(c)
            case Plain => false
  {
    hide StrPrefix, StartsWith, StdioChannel;
    ghost var s := buf[i..n];
    PrefixInText(buf, i, n, "/");
    PrefixInText(buf, i, n, "CASE ");
    PrefixInText(buf, i, n, "STDIO ");
    next := Some(channel);
    if StrPrefix(buf, i, "/") {
      next := Some(NONE);
    } else if StrPrefix(buf, i, "CASE ") {
      next := None;
    } else if StrPrefix(buf, i, "STDIO ") {
      TextFrom(buf, i, n, 6, "STDIO ");
      var c := ReadChannel(buf, i + 6, channel, n);
      next := Some(c);
    }
  }

  method ReadChannel(buf: array<char>, i: nat, channel: int, ghost n: nat) returns (c: int)
    requires Expr.Text(buf, i, n)
    ensures c == StdioChannel(buf[i..n], channel)
  {
    hide StrPrefix, StartsWith, ChannelOf, Find, SkipSpaces;
    var t := StrSkipSpaces(buf, i, n);
    TextLater(buf, i, n, t);
    PrefixInText(buf, t, n, "channel=\"");
    c := channel;
    if StrPrefix(buf, t, "channel=\"") {
      TextFrom(buf, t, n, 9, "channel=\"");
      var q := SeekQuote(buf, t + 9, n);
      c := ChannelOf(buf[t + 9..q]);
    }
  }

  /** What follows a word that a C string starts with. */
  lemma TextFrom(buf: array<char>, i: nat, n: nat, k: nat, w: string)
    requires Expr.Text(buf, i, n) && StartsWith(buf[i..n], w) && k == |w|
    ensures i + k <= n && Expr.Text(buf, i + k, n) && buf[i..n][k..] == buf[i + k..n]
  {
  }

  lemma TextLater(buf: array<char>, i: nat, n: nat, t: nat)
    requires Expr.Text(buf, i, n) && i <= t <= n
    ensures Expr.Text(buf, t, n)
  {
  }

  method SeekQuote(buf: array<char>, i: nat, ghost n: nat) returns (q: nat)
    requires Expr.Text(buf, i, n)
    ensures i <= q <= n && buf[i..q] == buf[i..n][..Find(buf[i..n], '"')]
  {
    ghost var s := buf[i..n];
    q := i;
    while buf[q] != NUL && buf[q] != '"'
      invariant i <= q <= n && '"' !in buf[i..q]
      decreases n - q
    {
      assert buf[i..q + 1] == buf[i..q] + [buf[q]];
      q := q + 1;
    }
    assert s[..q - i] == buf[i..q];
    if q < n {
      assert s[q - i] == '"';
      FindAt(s, q - i, '"');
    } else {
      assert s == buf[i..q];
    }
  }

  // ----- lines -----

  /** The C string of the line at place `p` of a file, and the place of the next one; None at the end. */
  method Fgets2(file: string, p: nat) returns (line: Option<array<char>>, q: nat)
    requires p <= |file|
    ensures p <= q <= |file|
    ensures line == None <==> Find(file[p..], '\n') == |file| - p
    ensures line.Some? ==>
              && q == p + Find(file[p..], '\n') + 1
              && fresh(line.value) && line.value.Length == q - p && line.value[q - p - 1] == NUL
              && line.value[..q - p - 1] == file[p..][..Find(file[p..], '\n')]
  {
    ghost var s := file[p..];
    q := p;
    while q < |file| && file[q] != '\n'
      invariant p <= q <= |file| && '\n' !in s[..q - p]
      decreases |file| - q
    {
      assert s[..q + 1 - p] == s[..q - p] + [s[q - p]];
      q := q + 1;
    }
    if q == |file| {
      assert s[..q - p] == s;
      return None, q;
    }
    FindAt(s, q - p, '\n');
    var buf := new char[q - p + 1](i => if 0 <= i < q - p then file[p..q][i] else NUL);
    assert buf[..q - p] == s[..q - p];
    line := Some(buf);
    q := q + 1;
  }

  /** What a line of text gives to the caller. */
  method Give(channel: int, buf: array<char>, filter: Option<string>, ghost n: nat) returns (given: seq<(int, string)>)
    requires Expr.Text(buf, 0, n)
    modifies buf
    ensures given == Given(channel, Unescape(old(buf[..n])), filter)
  {
    given := [];
    if channel != NONE {
      var m := StrXml(buf, n);
      match filter {
        case None => given := [(channel, buf[..m])];
        case Some(f) =>
          if |f| <= m && buf[..|f|] == f {
            given := [(channel, buf[|f|..m])];
          }
      }
    }
  }

  method ReadLineAt(buf: array<char>, channel: int, filter: Option<string>, ghost n: nat)
    returns (next: Option<int>, given: seq<(int, string)>)
    requires Expr.Text(buf, 0, n)
    modifies buf
    ensures match ReadLine(old(buf[..n]), channel)
            case Finish => next == None && given == []
            case Switch(c) => next == Some(c) && given == []
            case Plain => next == Some(channel) && given == Given(channel, Unescape(old(buf[..n])), filter)
  {
    hide Given, Unescape, ReadTag;
    assert buf[0..n] == buf[..n];
    var s1 := StrSkipSpaces(buf, 0, n);
    ghost var t := buf[s1..n];
    if buf[s1] == '<' {
      assert t[0] == '<' && t[1..] == buf[s1 + 1..n];
      next := ReadTagAt(buf, s1 + 1, channel, n);
      given := [];
    } else {
      assert t != [] ==> t[0] == buf[s1];
      given := Give(channel, buf, filter, n);
      next := Some(channel);
    }
  }

  /** No text of the file has a NUL, which would end its line. */
  predicate NoNul(file: string) {
    NUL !in file
  }

  /** Read the line at place `p`: what it gives, and how to go on, unless it ends the reading. */
  method ReadStep(file: string, p: nat, channel: int, filter: Option<string>)
    returns (next: Option<int>, given: seq<(int, string)>, q: nat)
    requires NoNul(file) && p <= |file|
    ensures p <= q <= |file| && (next.Some? ==> p < q)
    ensures ReadText(file[p..], channel, filter)
            == given + if next == None then [] else ReadText(file[q..], next.value, filter)
  {
    hide ReadLine, Given, Unescape, ReadText;
    ghost var rest := file[p..];
    var line;
    line, q := Fgets2(file, p);
    if line == None {
      NoLine(rest, channel, filter);
      return None, [], q;
    }
    ghost var k := Find(rest, '\n');
    assert rest[k + 1..] == file[q..];
    LineHasNoNul(file, p, k);
    next, given := ReadLineAt(line.value, channel, filter, k);
    ReadNext(rest, channel, filter);
  }

  /**
    Read the texts of a test case from its place in the file, or those before the first case when no
    place is given. A case that has no place yet has no text.
   */
  method ReadCase(file: string, offset: Option<nat>, filter: Option<string>) returns (texts: seq<(int, string)>)
    requires NoNul(file)
    ensures texts == match offset
                     case None => ReadText(file, NONE, filter)
                     case Some(k) => if k == 0 || k > |file| then [] else ReadText(file[k..], NONE, filter)
  {
    hide ReadText;
    texts := [];
    if offset == Some(0) {
      return;
    }
    var p := if offset == None then 0 else offset.value;
    if p > |file| {
      return;
    }
    assert file[0..] == file;
    ghost var start := p;
    var channel := Some(NONE);
    while channel != None
      invariant p <= |file|
      invariant texts + (if channel == None then [] else ReadText(file[p..], channel.value, filter))
                == ReadText(file[start..], NONE, filter)
      decreases if channel == None then 0 else |file| - p + 1
    {
      ghost var before := texts;
      var given;
      channel, given, p := ReadStep(file, p, channel.value, filter);
      texts := texts + given;
      ConcatAssoc(before, given, if channel == None then [] else ReadText(file[p..], channel.value, filter));
    }
    assert texts + [] == texts;
  }

  lemma NoLine(rest: string, channel: int, filter: Option<string>)
    requires Find(rest, '\n') == |rest|
    ensures ReadText(rest, channel, filter) == []
  {
  }

  lemma ReadNext(rest: string, channel: int, filter: Option<string>)
    requires Find(rest, '\n') < |rest|
    ensures var k := Find(rest, '\n');
            ReadText(rest, channel, filter) ==
            match ReadLine(rest[..k], channel)
            case Finish => []
            case Switch(c) => ReadText(rest[k + 1..], c, filter)
            case Plain => Given(channel, Unescape(rest[..k]), filter) + ReadText(rest[k + 1..], channel, filter)
  {
  }

  lemma LineHasNoNul(file: string, p: nat, k: nat)
    requires NoNul(file) && p + k <= |file|
    ensures NUL !in file[p..][..k]
  {
    assert forall i :: 0 <= i < k ==> file[p..][..k][i] == file[p + i];
  }
}
