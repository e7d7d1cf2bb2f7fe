/** Iteration over the lines of a buffered body (response.go). */
module Lines {
  import opened Base

  const LF: Byte := '\n'
  const CR: Byte := '\r'

  function DropCR(line: Text): Text {
    if line != [] && line[|line| - 1] == CR then line[..|line| - 1] else line
  }

  /** The ScanLines specification: a line ends at a newline, a trailing carriage
      return is dropped, and unterminated final bytes form a line. */
  function Scan(body: Text): seq<Text>
    decreases |body|
  {
    if body == [] then []
    else
      var i := IndexOf(body, LF);
      if i < |body| then [DropCR(body[..i])] + Scan(body[i + 1..]) else [DropCR(body)]
  }

  /** Lines. `accept` is the consumer: whether it wants more after n lines. */
  method Iterate(body: Text, accept: nat -> bool) returns (yielded: seq<Text>)
    ensures yielded <= Scan(body)
    ensures (forall n :: 0 < n <= |Scan(body)| ==> accept(n)) ==> yielded == Scan(body)
    ensures forall n :: 0 < n < |yielded| ==> accept(n)
    ensures yielded == Scan(body) || !accept(|yielded|)
  {
    yielded := [];
    var remaining := body;
    while |remaining| > 0
      invariant yielded + Scan(remaining) == Scan(body)
      invariant forall n :: 0 < n <= |yielded| ==> accept(n)
      decreases |remaining|
    {
      var line, rest := NextLine(remaining);
      ConcatAssociates(yielded, [line], Scan(rest));
      yielded, remaining := yielded + [line], rest;
      if !accept(|yielded|) {
        return;
      }
    }
  }

  /** The body of the loop: cut one line off the remaining bytes. */
  method NextLine(remaining: Text) returns (line: Text, rest: Text)
    requires remaining != []
    ensures Scan(remaining) == [line] + Scan(rest) && |rest| < |remaining|
  {
    line, rest := remaining, [];
    var i := IndexOf(remaining, LF);
    if i < |remaining| {
      line, rest := remaining[..i], remaining[i + 1..];
    }
    if |line| > 0 && line[|line| - 1] == CR {
      line := line[..|line| - 1];
    }
  }

  /** A line that survives the round trip: no newline, no trailing carriage return. */
  predicate PlainLine(line: Text) {
    (forall i :: 0 <= i < |line| ==> line[i] != LF) && (line != [] ==> line[|line| - 1] != CR)
  }

  function Unlines(lines: seq<Text>): Text {
    if lines == [] then [] else (lines[0] + [LF]) + Unlines(lines[1..])
  }

  /** Iterating newline-terminated lines gives the lines back. */
  lemma {:induction false} ScanUnlines(lines: seq<Text>)
    requires forall i :: 0 <= i < |lines| ==> PlainLine(lines[i])
    ensures Scan(Unlines(lines)) == lines
  {
    if lines == [] {
    } else {
      var line, rest := lines[0], Unlines(lines[1..]);
      var body := (line + [LF]) + rest;
      assert body[|line|] == LF;
      assert forall j :: 0 <= j < |line| ==> body[j] == line[j];
      assert IndexOf(body, LF) == |line|;
      assert body[..|line|] == line && body[|line| + 1..] == rest;
      ScanUnlines(lines[1..]);
    }
  }

  /** Lines ended by a newline, with or without a carriage return before it. */
  function Mixed(lines: seq<Text>, crs: seq<bool>): Text
    requires |lines| == |crs|
  {
    if lines == [] then [] else (lines[0] + (if crs[0] then [CR, LF] else [LF])) + Mixed(lines[1..], crs[1..])
  }

  /** The only bytes that are dropped are line ends: a newline, one carriage return
      before it, and one at the end of an unterminated last line. */
  lemma {:induction false} ScanMixed(lines: seq<Text>, crs: seq<bool>, tail: Text)
    requires |lines| == |crs| && LF !in tail
    requires forall i :: 0 <= i < |lines| ==> LF !in lines[i] && (crs[i] || PlainLine(lines[i]))
    ensures Scan(Mixed(lines, crs) + tail) == lines + Unended(tail)
    decreases |lines|
  {
    if lines == [] {
      assert [] + tail == tail;
    } else {
      var cut := if crs[0] then lines[0] + [CR] else lines[0];
      var later := Mixed(lines[1..], crs[1..]);
      MixedCut(lines[0], crs[0], cut, later, tail);
      ScanCut(cut, later + tail);
      ScanMixed(lines[1..], crs[1..], tail);
      assert lines == [lines[0]] + lines[1..];
      ConcatAssociates([lines[0]], lines[1..], Unended(tail));
    }
  }

  /** The line that unterminated bytes form. */
  function Unended(tail: Text): seq<Text> {
    if tail == [] then [] else [if tail[|tail| - 1] == CR then tail[..|tail| - 1] else tail]
  }

  lemma MixedCut(line: Text, cr: bool, cut: Text, later: Text, tail: Text)
    requires cut == (if cr then line + [CR] else line) && (cr || PlainLine(line))
    ensures ((line + (if cr then [CR, LF] else [LF])) + later) + tail == cut + ([LF] + (later + tail))
    ensures DropCR(cut) == line
  {
    assert [CR] + [LF] == [CR, LF];
  }

  lemma ScanCut(cut: Text, rest: Text)
    requires LF !in cut
    ensures Scan(cut + ([LF] + rest)) == [DropCR(cut)] + Scan(rest)
  {
    var body := cut + ([LF] + rest);
    assert body[|cut|] == LF;
    assert forall j :: 0 <= j < |cut| ==> body[j] == cut[j] && cut[j] in cut;
    assert IndexOf(body, LF) == |cut|;
    assert body[..|cut|] == cut && body[|cut| + 1..] == rest;
  }

  /** The body with its last line terminated. */
  function Terminated(body: Text): Text {
    if body == [] || body[|body| - 1] == LF then body else body + [LF]
  }

  lemma UnlinesCons(line: Text, lines: seq<Text>)
    ensures Unlines([line] + lines) == (line + [LF]) + Unlines(lines)
  {
    assert ([line] + lines)[1..] == lines;
  }

  lemma TerminatedTail(head: Text, rest: Text)
    requires head != [] && head[|head| - 1] == LF
    ensures Terminated(head + rest) == head + Terminated(rest)
  {
    if rest == [] {
      assert head + rest == head;
    } else {
      assert (head + rest)[|head + rest| - 1] == rest[|rest| - 1];
      ConcatAssociates(head, rest, [LF]);
    }
  }

  /** The first line of a body that has a newline and no carriage return. */
  lemma FirstLine(body: Text)
    requires CR !in body && IndexOf(body, LF) < |body|
    ensures
      var i := IndexOf(body, LF);
      && Scan(body) == [body[..i]] + Scan(body[i + 1..])
      && CR !in body[i + 1..]
      && body == (body[..i] + [LF]) + body[i + 1..]
  {
    var i := IndexOf(body, LF);
    var line := body[..i];
    SplitAt(body, i);
    NoReturnKept(line);
  }

  lemma NoReturnKept(line: Text)
    requires CR !in line
    ensures DropCR(line) == line
  {
    if line != [] { assert line[|line| - 1] in line; }
  }

  /** Re-terminating the lines of a body without carriage returns restores it,
      up to a missing final newline. */
  lemma {:induction false} UnlinesScan(body: Text)
    requires CR !in body
    ensures Unlines(Scan(body)) == Terminated(body)
    decreases |body|
  {
    if body == [] {
    } else {
      var i := IndexOf(body, LF);
      if i < |body| {
        FirstLine(body);
        var line, rest := body[..i], body[i + 1..];
        UnlinesScan(rest);
        UnlinesCons(line, Scan(rest));
        TerminatedTail(line + [LF], rest);
      } else {
        LastLine(body);
      }
    }
  }

  lemma LastLine(body: Text)
    requires body != [] && CR !in body && IndexOf(body, LF) == |body|
    ensures Unlines(Scan(body)) == Terminated(body)
  {
    assert DropCR(body) == body && Scan(body) == [body];
    assert [body] == [body] + [];
    UnlinesCons(body, []);
  }
}
