/** The `create-meta` output plugin of the build (index.ts): a doc-comment header with one
    `@key value` line per metadata entry, placed in front of the generated chunk. */
module Meta {
  const Newline: char := '\n'

  /** A metadata object's entries, in `Object.entries` order; values already stringified. */
  type MetaEntries = seq<(string, string)>

  predicate NoNewline(s: string) {
    Newline !in s
  }

  /** One header line: ` * @key value`. */
  function Field(entry: (string, string)): string {
    " * @" + entry.0 + " " + entry.1
  }

  function Fields(meta: MetaEntries): (r: seq<string>)
    ensures |r| == |meta|
    ensures forall i :: 0 <= i < |meta| ==> r[i] == Field(meta[i])
  {
    seq(|meta|, i requires 0 <= i < |meta| => Field(meta[i]))
  }

  /** `Array.prototype.join('\n')`. */
  function JoinLines(lines: seq<string>): (r: string)
    ensures |lines| == 0 ==> r == []
    ensures |r| >= |lines| - 1
  {
    if |lines| == 0 then ""
    else if |lines| == 1 then lines[0]
    else lines[0] + [Newline] + JoinLines(lines[1..])
  }

  /** The joined text starts with the first line, followed by a newline when more lines come,
      and ends with the last line. */
  lemma {:induction false} JoinEdges(lines: seq<string>)
    requires |lines| > 0
    ensures |JoinLines(lines)| >= |lines[0]| && JoinLines(lines)[..|lines[0]|] == lines[0]
    ensures |lines| > 1 ==> |JoinLines(lines)| > |lines[0]| && JoinLines(lines)[|lines[0]|] == Newline
    ensures |JoinLines(lines)| >= |lines[|lines| - 1]|
    ensures JoinLines(lines)[|JoinLines(lines)| - |lines[|lines| - 1]|..] == lines[|lines| - 1]
    decreases |lines|
  {
    if |lines| > 1 {
      var tail := JoinLines(lines[1..]);
      var r := lines[0] + [Newline] + tail;
      assert JoinLines(lines) == r;
      JoinEdges(lines[1..]);
      assert lines[1..][|lines[1..]| - 1] == lines[|lines| - 1];
      assert r[..|lines[0]|] == lines[0];
      assert r[|r| - |tail|..] == tail;
      assert r[|r| - |lines[|lines| - 1]|..] == tail[|tail| - |lines[|lines| - 1]|..];
    }
  }

  /** `String.prototype.split('\n')`: the pieces between newlines, always at least one. */
  function SplitLines(s: string): (r: seq<string>)
    ensures |r| >= 1
    ensures forall i :: 0 <= i < |r| ==> NoNewline(r[i])
    ensures |r| == 1 <==> NoNewline(s)
  {
    if |s| == 0 then [""]
    else
      var rest := SplitLines(s[1..]);
      assert Newline in s <==> s[0] == Newline || Newline in s[1..] by {
        assert s == [s[0]] + s[1..];
      }
      if s[0] == Newline then [""] + rest
      else [[s[0]] + rest[0]] + rest[1..]
  }

  /** The rendered chunk: the opening line of a doc comment, the field lines, the closing
      line, then the code, joined by newlines. The comment block is emitted even when there
      is no metadata. */
  function CreateMeta(meta: MetaEntries, code: string): (r: string)
    ensures |r| >= 4 && r[..4] == "/**" + [Newline]
    ensures |r| >= |code| && r[|r| - |code|..] == code
  {
    var lines := ["/**"] + Fields(meta) + [" */", code];
    assert lines[0] == "/**";
    assert lines[|lines| - 1] == code;
    JoinEdges(lines);
    JoinLines(lines)
  }

  lemma {:induction false} SplitPrefix(a: string, t: string)
    requires NoNewline(a)
    ensures SplitLines(a + t) == [a + SplitLines(t)[0]] + SplitLines(t)[1..]
    decreases |a|
  {
    if |a| > 0 {
      assert (a + t)[1..] == a[1..] + t;
      assert a[1..] == a[1..];
      SplitPrefix(a[1..], t);
      assert [a[0]] + (a[1..] + SplitLines(t)[0]) == a + SplitLines(t)[0];
    } else {
      assert a + t == t;
      assert a + SplitLines(t)[0] == SplitLines(t)[0];
      assert SplitLines(t) == [SplitLines(t)[0]] + SplitLines(t)[1..];
    }
  }

  lemma SplitNewline(t: string)
    ensures SplitLines([Newline] + t) == [""] + SplitLines(t)
  {
    assert ([Newline] + t)[1..] == t;
  }

  /** Splitting a joined list of newline-free lines gives the lines back. */
  lemma {:induction false} SplitJoin(lines: seq<string>)
    requires |lines| > 0
    requires forall i :: 0 <= i < |lines| ==> NoNewline(lines[i])
    ensures SplitLines(JoinLines(lines)) == lines
    decreases |lines|
  {
    if |lines| > 1 {
      var rest := lines[1..];
      var tail := JoinLines(rest);
      var nt := [Newline] + tail;
      assert JoinLines(lines) == lines[0] + nt by {
        assert lines[0] + [Newline] + tail == lines[0] + nt;
      }
      assert forall i :: 0 <= i < |rest| ==> NoNewline(rest[i]) by {
        forall i | 0 <= i < |rest| ensures NoNewline(rest[i]) {
          assert rest[i] == lines[i + 1];
        }
      }
      SplitJoin(rest);
      SplitNewline(tail);
      SplitPrefix(lines[0], nt);
      assert lines[0] + "" == lines[0];
      assert [lines[0]] + rest == lines;
    } else {
      assert SplitLines(lines[0]) == [lines[0]] by {
        SplitPrefix(lines[0], "");
        assert lines[0] + "" == lines[0];
      }
    }
  }

  /** Appending a line to a non-empty list puts one newline in front of it. */
  lemma {:induction false} JoinSnoc(lines: seq<string>, last: string)
    requires |lines| > 0
    ensures JoinLines(lines + [last]) == JoinLines(lines) + [Newline] + last
    decreases |lines|
  {
    var all := lines + [last];
    assert all[0] == lines[0];
    if |lines| == 1 {
      assert all[1..] == [last];
    } else {
      assert all[1..] == lines[1..] + [last];
      JoinSnoc(lines[1..], last);
      assert lines[0] + [Newline] + (JoinLines(lines[1..]) + [Newline] + last)
             == (lines[0] + [Newline] + JoinLines(lines[1..])) + [Newline] + last;
    }
  }

  /** Splitting at a newline splits the text on either side of it independently. */
  lemma {:induction false} SplitAround(a: string, t: string)
    ensures SplitLines(a + [Newline] + t) == SplitLines(a) + SplitLines(t)
    decreases |a|
  {
    if |a| == 0 {
      assert a + [Newline] + t == [Newline] + t;
      SplitNewline(t);
    } else {
      var c, rest := a[0], a[1..];
      var tail := rest + [Newline] + t;
      assert a + [Newline] + t == [c] + tail;
      assert a == [c] + rest;
      SplitAround(rest, t);
      SplitAroundStep(c, rest, tail, t);
    }
  }

  /** The inductive step of `SplitAround`, for a text starting with `c`. */
  lemma SplitAroundStep(c: char, rest: string, tail: string, t: string)
    requires SplitLines(tail) == SplitLines(rest) + SplitLines(t)
    ensures SplitLines([c] + tail) == SplitLines([c] + rest) + SplitLines(t)
  {
    if c == Newline {
      NewlineStep(rest, tail, t);
    } else {
      CharStep(c, rest, tail, t);
    }
  }

  lemma NewlineStep(rest: string, tail: string, t: string)
    requires SplitLines(tail) == SplitLines(rest) + SplitLines(t)
    ensures SplitLines([Newline] + tail) == SplitLines([Newline] + rest) + SplitLines(t)
  {
    SplitNewline(tail);
    SplitNewline(rest);
    AppendAssoc([""], SplitLines(rest), SplitLines(t));
  }

  lemma CharStep(c: char, rest: string, tail: string, t: string)
    requires c != Newline
    requires SplitLines(tail) == SplitLines(rest) + SplitLines(t)
    ensures SplitLines([c] + tail) == SplitLines([c] + rest) + SplitLines(t)
  {
    SplitCons(c, tail);
    SplitCons(c, rest);
    PrefixFirst([c], SplitLines(rest), SplitLines(t));
  }

  lemma AppendAssoc(x: seq<string>, y: seq<string>, z: seq<string>)
    ensures x + (y + z) == (x + y) + z
  {
  }

  /** Extending the first piece of a list of pieces commutes with appending more pieces. */
  lemma PrefixFirst(x: string, front: seq<string>, back: seq<string>)
    requires |front| > 0
    ensures [x + (front + back)[0]] + (front + back)[1..] == ([x + front[0]] + front[1..]) + back
  {
    assert (front + back)[0] == front[0];
    assert (front + back)[1..] == front[1..] + back;
  }

  /** A character other than a newline in front of a text joins its first piece. */
  lemma SplitCons(c: char, t: string)
    requires c != Newline
    ensures SplitLines([c] + t) == [[c] + SplitLines(t)[0]] + SplitLines(t)[1..]
  {
    assert ([c] + t)[1..] == t;
  }

  /** Read back line by line, the chunk is exactly the opening line, one ` * @key value`
      line per entry in order, the closing line, and then the lines of the code, provided no
      key or value holds a newline. */
  lemma HeaderLines(meta: MetaEntries, code: string)
    requires forall i :: 0 <= i < |meta| ==> NoNewline(meta[i].0) && NoNewline(meta[i].1)
    ensures SplitLines(CreateMeta(meta, code)) == ["/**"] + Fields(meta) + [" */"] + SplitLines(code)
    ensures var lines := SplitLines(CreateMeta(meta, code));
            |lines| > |meta| + 2 && lines[0] == "/**" && lines[|meta| + 1] == " */" &&
            (forall i :: 0 <= i < |meta| ==> lines[i + 1] == " * @" + meta[i].0 + " " + meta[i].1) &&
            lines[|meta| + 2..] == SplitLines(code)
  {
    var header := ["/**"] + Fields(meta) + [" */"];
    forall i | 0 <= i < |meta| ensures NoNewline(Field(meta[i])) {
      assert Field(meta[i]) == " * @" + meta[i].0 + " " + meta[i].1;
    }
    forall i | 0 <= i < |header| ensures NoNewline(header[i]) {
      if 1 <= i <= |meta| {
        assert header[i] == Fields(meta)[i - 1];
      }
    }
    SplitJoin(header);
    assert ["/**"] + Fields(meta) + [" */", code] == header + [code];
    JoinSnoc(header, code);
    SplitAround(JoinLines(header), code);
    var lines := header + SplitLines(code);
    assert lines[|meta| + 2..] == SplitLines(code);
    forall i | 0 <= i < |meta| ensures lines[i + 1] == " * @" + meta[i].0 + " " + meta[i].1 {
      assert lines[i + 1] == Fields(meta)[i];
    }
  }

  /** Empty metadata still produces the two comment delimiters. */
  lemma EmptyMetaKeepsDelimiters(code: string)
    ensures CreateMeta([], code) == "/**\n */\n" + code
  {
    assert ["/**"] + Fields([]) + [" */", code] == ["/**", " */", code];
    JoinThree("/**", " */", code);
    assert "/**" + [Newline] + (" */" + [Newline] + code) == "/**\n */\n" + code;
  }

  lemma JoinThree(a: string, b: string, c: string)
    ensures JoinLines([a, b, c]) == a + [Newline] + (b + [Newline] + c)
  {
    JoinCons(a, [b, c]);
    assert [a] + [b, c] == [a, b, c];
    JoinCons(b, [c]);
    assert [b] + [c] == [b, c];
  }

  /** Joining a line in front of a non-empty list puts one newline between them. */
  lemma JoinCons(line: string, rest: seq<string>)
    requires |rest| > 0
    ensures JoinLines([line] + rest) == line + [Newline] + JoinLines(rest)
  {
    assert ([line] + rest)[1..] == rest;
  }
}
