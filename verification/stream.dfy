/** The server-sent-events line decoder: which body lines carry an event payload, and the
    payloads of a whole body in order. */
module StreamDecoder {
  import opened Wrappers
  import opened Text

  const DataPrefix: string := "data: "
  const DoneLine: string := "data: [DONE]"

  /** `__parse_stream_helper`: the payload a body line carries, if any. A line yields a payload
      exactly when it starts with `data: ` and is not the sentinel, and the payload is then the
      rest of the line. The sentinel (compared after stripping whitespace) is checked before the
      prefix, so it is never a payload. */
  function ParseLine(line: string): (r: Option<string>)
    ensures r.Some? <==> StartsWith(line, DataPrefix) && Strip(line) != DoneLine
    ensures r.Some? ==> DataPrefix + r.value == line
  {
    if |line| == 0 then None
    else if Strip(line) == DoneLine then None
    else if StartsWith(line, DataPrefix) then
      assert line == line[..|DataPrefix|] + line[|DataPrefix|..];
      Some(line[|DataPrefix|..])
    else None
  }

  /** The sentinel, with any whitespace around it, carries no payload. */
  lemma DoneLineIsNoPayload(before: string, after: string)
    requires AllSpace(before) && AllSpace(after)
    ensures ParseLine(before + DoneLine + after) == None
  {
    StripSurrounded(before, DoneLine, after);
  }

  /** Any `data: ` line other than the sentinel yields exactly its remainder. */
  lemma PayloadLineYieldsRemainder(payload: string)
    requires Strip(DataPrefix + payload) != DoneLine
    ensures ParseLine(DataPrefix + payload) == Some(payload)
  {
    assert (DataPrefix + payload)[..|DataPrefix|] == DataPrefix;
    assert (DataPrefix + payload)[|DataPrefix|..] == payload;
  }

  /** `__parse_stream_async`: the payloads of the body lines, in line order. */
  function ParseStream(lines: seq<string>): (payloads: seq<string>)
    ensures |payloads| <= |lines|
    decreases |lines|
  {
    if |lines| == 0 then []
    else
      var rest := ParseStream(lines[1..]);
      match ParseLine(lines[0])
      case Some(p) => [p] + rest
      case None => rest
  }

  /** Decoding distributes over splitting the body: the payloads of a body are the payloads of its
      first part followed by those of the rest, so they come out in input order. */
  lemma {:induction false} ParseStreamAppend(a: seq<string>, b: seq<string>)
    ensures ParseStream(a + b) == ParseStream(a) + ParseStream(b)
    decreases |a|
  {
    if |a| == 0 {
      assert a + b == b;
    } else {
      assert (a + b)[1..] == a[1..] + b;
      ParseStreamAppend(a[1..], b);
    }
  }

  /** A payload comes out of the decoder exactly when some line carries it. */
  lemma {:induction false} ParseStreamMembership(lines: seq<string>, p: string)
    ensures p in ParseStream(lines) <==> exists i :: 0 <= i < |lines| && ParseLine(lines[i]) == Some(p)
    decreases |lines|
  {
    if |lines| > 0 {
      var tail := lines[1..];
      ParseStreamMembership(tail, p);
      assert ParseStream(lines) == (if ParseLine(lines[0]).Some? then [ParseLine(lines[0]).value] else []) + ParseStream(tail);
      if p in ParseStream(tail) {
        var i :| 0 <= i < |tail| && ParseLine(tail[i]) == Some(p);
        assert tail[i] == lines[i + 1];
      }
      if exists i :: 0 <= i < |lines| && ParseLine(lines[i]) == Some(p) {
        var i :| 0 <= i < |lines| && ParseLine(lines[i]) == Some(p);
        if i > 0 {
          assert tail[i - 1] == lines[i];
        }
      }
    }
  }

  /** Decoding a body whose first line is known. */
  lemma ParseStreamCons(line: string, rest: seq<string>)
    ensures ParseStream([line] + rest) == (if ParseLine(line).Some? then [ParseLine(line).value] else []) + ParseStream(rest)
  {
    assert ([line] + rest)[0] == line && ([line] + rest)[1..] == rest;
  }

  /** The sentinel is skipped like any other non-payload line: it does not end decoding, and
      payload lines after it are still yielded. */
  lemma DoneLineDoesNotTerminate(before: seq<string>, ws1: string, ws2: string, after: seq<string>)
    requires AllSpace(ws1) && AllSpace(ws2)
    ensures ParseStream(before + [ws1 + DoneLine + ws2] + after) == ParseStream(before) + ParseStream(after)
  {
    var done := ws1 + DoneLine + ws2;
    assert before + [done] + after == before + ([done] + after);
    ParseStreamAppend(before, [done] + after);
    DoneLineIsNoPayload(ws1, ws2);
    ParseStreamCons(done, after);
  }

  /** `__parse_stream_async` as the loop it is: walk the lines and keep each decoded payload. */
  method DecodeLines(lines: seq<string>) returns (payloads: seq<string>)
    ensures payloads == ParseStream(lines)
  {
    payloads := [];
    var i := 0;
    while i < |lines|
      invariant 0 <= i <= |lines|
      invariant payloads == ParseStream(lines[..i])
    {
      var line := ParseLine(lines[i]);
      assert ParseStream(lines[..i + 1]) == payloads + (if line.Some? then [line.value] else []) by {
        assert lines[..i + 1] == lines[..i] + [lines[i]];
        ParseStreamSnoc(lines[..i], lines[i]);
      }
      if line.Some? {
        payloads := payloads + [line.value];
      }
      i := i + 1;
    }
    assert lines[..i] == lines;
  }

  /** Decoding a body with one more line at the end. */
  lemma ParseStreamSnoc(lines: seq<string>, line: string)
    ensures ParseStream(lines + [line]) == ParseStream(lines) + (if ParseLine(line).Some? then [ParseLine(line).value] else [])
  {
    ParseStreamAppend(lines, [line]);
    ParseStreamCons(line, []);
    assert [line] + [] == [line];
  }

  /** A blank keep-alive line carries no payload. */
  lemma BlankLineIsNoPayload(blank: string)
    requires AllSpace(blank)
    ensures ParseLine(blank) == None
  {
    if |blank| > 0 {
      assert !StartsWith(blank, DataPrefix) by {
        if |DataPrefix| <= |blank| { assert blank[..|DataPrefix|][0] == blank[0]; }
      }
    }
  }

  /** A payload line in front of a body adds exactly its payload in front of the body's. */
  lemma PayloadLineThen(payload: string, rest: seq<string>)
    requires Strip(DataPrefix + payload) != DoneLine
    ensures ParseStream([DataPrefix + payload] + rest) == [payload] + ParseStream(rest)
  {
    PayloadLineYieldsRemainder(payload);
    ParseStreamCons(DataPrefix + payload, rest);
  }

  /** The sentinel followed by a blank line decodes to nothing. */
  lemma SentinelThenBlank(ws1: string, ws2: string, blank: string)
    requires AllSpace(ws1) && AllSpace(ws2) && AllSpace(blank)
    ensures ParseStream([ws1 + DoneLine + ws2, blank]) == []
  {
    var done := ws1 + DoneLine + ws2;
    var rest := [blank];
    BlankLineDecodesToNothing(blank);
    DoneLineIsNoPayload(ws1, ws2);
    ParseStreamCons(done, rest);
    assert [done] + rest == [done, blank];
  }

  /** A lone blank line decodes to nothing. */
  lemma BlankLineDecodesToNothing(blank: string)
    requires AllSpace(blank)
    ensures ParseStream([blank]) == []
  {
    var empty: seq<string> := [];
    BlankLineIsNoPayload(blank);
    ParseStreamCons(blank, empty);
    assert [blank] + empty == [blank];
  }
}
