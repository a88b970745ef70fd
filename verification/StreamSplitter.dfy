/** The line splitter of the Docker event stream (`docker-sensor/src/main.rs`). */
module StreamSplitter {
  import opened Text

  function Concat(chunks: seq<string>): string {
    if chunks == [] then "" else Concat(chunks[..|chunks| - 1]) + chunks[|chunks| - 1]
  }

  /** The text made of `lines`, each ended by a newline. */
  function Unlines(lines: seq<string>): string {
    if lines == [] then "" else lines[0] + ['\n'] + Unlines(lines[1..])
  }

  /** Blank lines are not handed over. */
  function NonBlank(lines: seq<string>): seq<string> {
    if lines == [] then []
    else
      var last := lines[|lines| - 1];
      NonBlank(lines[..|lines| - 1]) + (if Trim(last) == "" then [] else [last])
  }

  /** `str::find`: the first newline, or the length. */
  method FindNewline(s: string) returns (at: nat)
    ensures at <= |s| && '\n' !in s[..at] && (at < |s| ==> s[at] == '\n')
  {
    at := 0;
    while at < |s| && s[at] != '\n'
      invariant at <= |s| && '\n' !in s[..at]
    {
      at := at + 1;
    }
  }

  /** What has been split off so far and what has not. */
  ghost predicate CutsAt(text: string, lines: seq<string>, rest: string) {
    && Unlines(lines) + rest == text
    && (forall i :: 0 <= i < |lines| ==> '\n' !in lines[i])
  }

  lemma {:induction false} UnlinesAppend(lines: seq<string>, line: string)
    ensures Unlines(lines + [line]) == Unlines(lines) + line + ['\n']
  {
    if lines == [] {
      assert (lines + [line])[1..] == [];
    } else {
      assert (lines + [line])[1..] == lines[1..] + [line];
      UnlinesAppend(lines[1..], line);
    }
  }

  /** Taking one line off the rest. */
  lemma CutStep(text: string, lines: seq<string>, rest: string, newline: nat)
    requires CutsAt(text, lines, rest) && newline < |rest| && rest[newline] == '\n' && '\n' !in rest[..newline]
    ensures CutsAt(text, lines + [rest[..newline]], rest[newline + 1..])
    ensures NonBlank(lines + [rest[..newline]])
            == NonBlank(lines) + (if Trim(rest[..newline]) == "" then [] else [rest[..newline]])
  {
    var line := rest[..newline];
    UnlinesAppend(lines, line);
    assert rest == line + ['\n'] + rest[newline + 1..];
    assert (lines + [line])[..|lines|] == lines;
  }

  /** A text cut into newline-free lines and a newline-free tail is the text split at its newlines. */
  lemma {:induction false} CutIsSplit(text: string, lines: seq<string>, tail: string)
    requires CutsAt(text, lines, tail) && '\n' !in tail
    ensures Split(text, '\n') == lines + [tail]
    decreases |lines|
  {
    if lines == [] {
      assert Unlines(lines) + tail == tail;
      SplitWhole(tail, '\n');
    } else {
      var rest := Unlines(lines[1..]) + tail;
      assert text == lines[0] + ['\n'] + rest;
      CutIsSplit(rest, lines[1..], tail);
      SplitFirst(lines[0], '\n', rest);
      assert [lines[0]] + (lines[1..] + [tail]) == lines + [tail];
    }
  }

  /**
   The loop of `stream_docker_events` over the chunks of one connection: it hands over the non-blank
   lines of the whole text, split at its newlines, and keeps the last piece, however the text was cut
   into chunks.
   */
  method SplitStream(chunks: seq<string>) returns (handed: seq<string>, buffer: string)
    ensures var pieces := Split(Concat(chunks), '\n');
            handed == NonBlank(pieces[..|pieces| - 1]) && buffer == pieces[|pieces| - 1]
  {
    handed, buffer := [], "";
    ghost var lines: seq<string> := [];
    for i := 0 to |chunks|
      invariant CutsAt(Concat(chunks[..i]), lines, buffer) && '\n' !in buffer
      invariant handed == NonBlank(lines)
    {
      ghost var text := Concat(chunks[..i + 1]);
      assert chunks[..i + 1][..i] == chunks[..i];
      buffer := buffer + chunks[i];
      var newline := FindNewline(buffer);
      while newline < |buffer|
        invariant 0 <= newline <= |buffer| && '\n' !in buffer[..newline]
                  && (newline < |buffer| ==> buffer[newline] == '\n')
        invariant CutsAt(text, lines, buffer) && handed == NonBlank(lines)
        decreases |buffer|
      {
        CutStep(text, lines, buffer, newline);
        var line := buffer[..newline];
        buffer := buffer[newline + 1..];
        if Trim(line) != "" {
          handed := handed + [line];
        }
        lines := lines + [line];
        newline := FindNewline(buffer);
      }
      assert buffer[..newline] == buffer;
    }
    assert chunks[..|chunks|] == chunks;
    CutIsSplit(Concat(chunks), lines, buffer);
  }

  /** Lines are handed over one by one, in order. */
  lemma {:induction false} NonBlankOfParts(a: seq<string>, b: seq<string>)
    ensures NonBlank(a + b) == NonBlank(a) + NonBlank(b)
    decreases |b|
  {
    if b == [] {
      assert a + b == a;
    } else {
      assert (a + b)[..|a + b| - 1] == a + b[..|b| - 1];
      NonBlankOfParts(a, b[..|b| - 1]);
    }
  }

  /** A line is handed over, unchanged, exactly if it holds a character that is not white space. */
  lemma NonBlankOfOne(line: string)
    ensures NonBlank([line]) == if exists i :: 0 <= i < |line| && !IsSpace(line[i]) then [line] else []
  {
    TrimIsBlank(line);
    assert NonBlank([line][..0]) == [];
  }
}
