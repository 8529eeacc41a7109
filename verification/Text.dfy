/** Line endings of a message body. */
module Text {
  const CRLF := "\r\n"

  predicate IsBreak(c: char) {
    c == '\r' || c == '\n'
  }

  /** header.ContainsNewline. */
  predicate ContainsNewline(s: string) {
    exists i | 0 <= i < |s| :: IsBreak(s[i])
  }

  /** strings.ReplaceAll: non-overlapping occurrences, from the left. */
  function ReplaceAll(s: string, old_: string, new_: string): string
    requires old_ != ""
  {
    if s == "" then ""
    else if old_ <= s then new_ + ReplaceAll(s[|old_|..], old_, new_)
    else [s[0]] + ReplaceAll(s[1..], old_, new_)
  }

  /** `normalizeBody`: three passes over the whole body. */
  function NormalizeBody(body: string): string {
    ReplaceAll(ReplaceAll(ReplaceAll(body, "\r\n", "\n"), "\r", "\n"), "\n", "\r\n")
  }

  /** How many characters the line break at the start of s takes; 0 if there is none. */
  function BreakLength(s: string): (n: nat)
    ensures n <= |s|
  {
    if CRLF <= s then 2 else if s != "" && IsBreak(s[0]) then 1 else 0
  }

  /** A machine that reads the body once and writes each line break as CRLF. */
  function OnePass(s: string): string {
    if s == "" then ""
    else
      var n := BreakLength(s);
      if n > 0 then CRLF + OnePass(s[n..]) else [s[0]] + OnePass(s[1..])
  }

  /** The lines of a body, where CRLF, a lone CR and a lone LF each end a line; the last may be empty. */
  function Lines(s: string): (r: seq<string>)
    ensures r != []
  {
    if s == "" then [""]
    else
      var n := BreakLength(s);
      if n > 0 then [""] + Lines(s[n..])
      else
        var rest := Lines(s[1..]);
        [[s[0]] + rest[0]] + rest[1..]
  }

  /** Lines joined with CRLF. */
  function JoinLines(lines: seq<string>): string
    requires lines != []
  {
    if |lines| == 1 then lines[0] else lines[0] + CRLF + JoinLines(lines[1..])
  }

  /** CR and LF occur only together, as RFC 5322 section 2.3 asks. */
  ghost predicate OnlyCRLF(s: string) {
    && (forall i | 0 <= i < |s| && s[i] == '\r' :: i + 1 < |s| && s[i + 1] == '\n')
    && (forall i | 0 <= i < |s| && s[i] == '\n' :: 0 < i && s[i - 1] == '\r')
  }

  // ---------------------------------------------------------------- three passes are one

  lemma ReplaceHead(s: string, old_: string, new_: string)
    requires old_ != "" && s != ""
    ensures old_ <= s ==> ReplaceAll(s, old_, new_) == new_ + ReplaceAll(s[|old_|..], old_, new_)
    ensures !(old_ <= s) ==> ReplaceAll(s, old_, new_) == [s[0]] + ReplaceAll(s[1..], old_, new_)
  {
  }

  /** Replacing a single character goes character by character. */
  lemma ReplaceChar(c: char, s: string, old_: char, new_: string)
    ensures ReplaceAll([c] + s, [old_], new_) == (if c == old_ then new_ else [c]) + ReplaceAll(s, [old_], new_)
  {
    var t := [c] + s;
    assert t[0] == c && t[1..] == s && [old_][0] == old_;
  }

  lemma ThroughPasses(c: char, s: string)
    ensures ReplaceAll(ReplaceAll([c] + s, "\r", "\n"), "\n", "\r\n")
         == (if IsBreak(c) then CRLF else [c]) + ReplaceAll(ReplaceAll(s, "\r", "\n"), "\n", "\r\n")
  {
    ReplaceChar(c, s, '\r', "\n");
    var d := if c == '\r' then '\n' else c;
    ReplaceChar(d, ReplaceAll(s, "\r", "\n"), '\n', "\r\n");
  }

  /** The three replacement passes refine the one-pass machine. */
  lemma {:induction false} PassesAreOnePass(s: string)
    ensures NormalizeBody(s) == OnePass(s)
    decreases |s|
  {
    if s == "" {
      return;
    }
    ReplaceHead(s, CRLF, "\n");
    if CRLF <= s {
      ThroughPasses('\n', ReplaceAll(s[2..], CRLF, "\n"));
      PassesAreOnePass(s[2..]);
    } else {
      ThroughPasses(s[0], ReplaceAll(s[1..], CRLF, "\n"));
      PassesAreOnePass(s[1..]);
    }
  }

  // ---------------------------------------------------------------- what normalising means

  lemma {:induction false} OnePassJoinsLines(s: string)
    ensures OnePass(s) == JoinLines(Lines(s))
    decreases |s|
  {
    if s == "" {
      return;
    }
    var n := BreakLength(s);
    if n > 0 {
      OnePassJoinsLines(s[n..]);
      assert Lines(s)[1..] == Lines(s[n..]);
    } else {
      OnePassJoinsLines(s[1..]);
      var rest := Lines(s[1..]);
      assert Lines(s)[1..] == rest[1..];
      if |rest| > 1 {
        assert [s[0]] + (rest[0] + CRLF + JoinLines(rest[1..]))
            == ([s[0]] + rest[0]) + CRLF + JoinLines(rest[1..]);
      }
    }
  }

  /** No line holds a line break. */
  lemma {:induction false} LinesAreClean(s: string)
    ensures forall i | 0 <= i < |Lines(s)| :: !ContainsNewline(Lines(s)[i])
    decreases |s|
  {
    if s == "" {
      return;
    }
    var n := BreakLength(s);
    if n > 0 {
      LinesAreClean(s[n..]);
    } else {
      LinesAreClean(s[1..]);
    }
  }

  /** A character that breaks no line joins the first line. */
  lemma LinesOfChar(c: char, s: string)
    requires !IsBreak(c)
    ensures Lines([c] + s) == [[c] + Lines(s)[0]] + Lines(s)[1..]
  {
    assert ([c] + s)[1..] == s;
  }

  /** Reading the lines of a clean line that runs into more text. */
  lemma {:induction false} LinesOfLine(line: string, rest: string)
    requires !ContainsNewline(line)
    ensures Lines(line + CRLF + rest) == [line] + Lines(rest)
    decreases |line|
  {
    if line == "" {
      assert "" + CRLF + rest == CRLF + rest;
      assert (CRLF + rest)[2..] == rest;
    } else {
      var tail := line[1..];
      assert !IsBreak(line[0]) && !ContainsNewline(tail);
      LinesOfLine(tail, rest);
      LinesOfChar(line[0], tail + CRLF + rest);
      assert line == [line[0]] + tail;
      assert line + CRLF + rest == [line[0]] + (tail + CRLF + rest);
    }
  }

  lemma {:induction false} LinesOfLastLine(line: string)
    requires !ContainsNewline(line)
    ensures Lines(line) == [line]
    decreases |line|
  {
    if line != "" {
      assert !IsBreak(line[0]);
      assert !ContainsNewline(line[1..]);
      LinesOfLastLine(line[1..]);
      assert line == [line[0]] + line[1..];
    }
  }

  /** Joining and splitting again gives the lines back. */
  lemma {:induction false} LinesOfJoin(lines: seq<string>)
    requires lines != [] && forall i | 0 <= i < |lines| :: !ContainsNewline(lines[i])
    ensures Lines(JoinLines(lines)) == lines
    decreases |lines|
  {
    if |lines| == 1 {
      LinesOfLastLine(lines[0]);
    } else {
      LinesOfLine(lines[0], JoinLines(lines[1..]));
      LinesOfJoin(lines[1..]);
      assert lines == [lines[0]] + lines[1..];
    }
  }

  lemma {:induction false} JoinHasOnlyCRLF(lines: seq<string>)
    requires lines != [] && forall i | 0 <= i < |lines| :: !ContainsNewline(lines[i])
    ensures OnlyCRLF(JoinLines(lines))
    decreases |lines|
  {
    if |lines| > 1 {
      JoinHasOnlyCRLF(lines[1..]);
      OnlyCRLFAfterLine(lines[0], JoinLines(lines[1..]));
    } else {
      assert forall i | 0 <= i < |lines[0]| :: !IsBreak(lines[0][i]);
    }
  }

  lemma OnlyCRLFAfterLine(line: string, rest: string)
    requires !ContainsNewline(line) && OnlyCRLF(rest)
    ensures OnlyCRLF(line + CRLF + rest)
  {
    var s := line + CRLF + rest;
    var n := |line|;
    forall i | 0 <= i < |s|
      ensures s[i] == '\r' ==> i + 1 < |s| && s[i + 1] == '\n'
      ensures s[i] == '\n' ==> 0 < i && s[i - 1] == '\r'
    {
      if i < n {
        assert !IsBreak(line[i]);
      } else if i >= n + 2 {
        assert s[i] == rest[i - n - 2];
      }
    }
  }

  lemma {:induction false} OnePassFixesOnlyCRLF(s: string)
    requires OnlyCRLF(s)
    ensures OnePass(s) == s
    decreases |s|
  {
    if s == "" {
      return;
    }
    assert s[0] == '\r' ==> s[..2] == CRLF;
    assert CRLF[1] == '\n';
    var n := BreakLength(s);
    var k := if n > 0 then 2 else 1;
    var rest := s[k..];
    assert s == (if n > 0 then CRLF else [s[0]]) + rest;
    forall i | 0 <= i < |rest|
      ensures rest[i] == '\r' ==> i + 1 < |rest| && rest[i + 1] == '\n'
      ensures rest[i] == '\n' ==> 0 < i && rest[i - 1] == '\r'
    {
      assert rest[i] == s[i + k];
      assert i > 0 ==> rest[i - 1] == s[i + k - 1];
    }
    OnePassFixesOnlyCRLF(rest);
  }

  /**
   What normalising a body means: the lines of the body, joined with CRLF. So the lines are kept,
   CR and LF occur only as CRLF pairs, and a body is left alone exactly when it already has that form.
   */
  lemma NormalizingMeaning(body: string)
    ensures NormalizeBody(body) == JoinLines(Lines(body))
    ensures Lines(NormalizeBody(body)) == Lines(body)
    ensures OnlyCRLF(NormalizeBody(body))
    ensures NormalizeBody(body) == body <==> OnlyCRLF(body)
    ensures NormalizeBody(NormalizeBody(body)) == NormalizeBody(body)
  {
    PassesAreOnePass(body);
    OnePassJoinsLines(body);
    LinesAreClean(body);
    LinesOfJoin(Lines(body));
    JoinHasOnlyCRLF(Lines(body));
    if OnlyCRLF(body) {
      OnePassFixesOnlyCRLF(body);
    }
    PassesAreOnePass(NormalizeBody(body));
    OnePassFixesOnlyCRLF(NormalizeBody(body));
  }

  // ---------------------------------------------------------------- the body as it is sent

  /** strings.HasSuffix. */
  predicate HasSuffix(s: string, suffix: string) {
    |suffix| <= |s| && s[|s| - |suffix|..] == suffix
  }

  function Ended(s: string): string {
    if HasSuffix(s, CRLF) then s else s + CRLF
  }

  /** The body part of a message: normalised, and ended by CRLF. */
  function SentBody(body: string): string {
    Ended(NormalizeBody(body))
  }

  function WithoutEmptyLast(lines: seq<string>): seq<string> {
    if |lines| > 1 && lines[|lines| - 1] == "" then lines[..|lines| - 1] else lines
  }

  /** The lines of a body without the empty one after a final line break. */
  function TextLines(body: string): seq<string> {
    WithoutEmptyLast(Lines(body))
  }

  /** Every line, each ended by CRLF. */
  function Terminated(lines: seq<string>): string {
    if lines == [] then "" else lines[0] + CRLF + Terminated(lines[1..])
  }

  lemma {:induction false} JoinIsTerminated(lines: seq<string>, last: string)
    requires lines != []
    ensures JoinLines(lines + [last]) == Terminated(lines) + last
    ensures JoinLines(lines) + CRLF == Terminated(lines)
    decreases |lines|
  {
    var all := lines + [last];
    assert all[1..] == lines[1..] + [last];
    if |lines| == 1 {
      assert Terminated(lines[1..]) == "";
      assert lines[0] + CRLF + "" == lines[0] + CRLF;
      assert JoinLines(all[1..]) == last;
    } else {
      JoinIsTerminated(lines[1..], last);
      assert lines[0] + CRLF + (Terminated(lines[1..]) + last) == (lines[0] + CRLF + Terminated(lines[1..])) + last;
      assert lines[0] + CRLF + JoinLines(lines[1..]) + CRLF == lines[0] + CRLF + (JoinLines(lines[1..]) + CRLF);
    }
  }

  lemma {:induction false} TerminatedEndsWithCRLF(lines: seq<string>)
    requires lines != []
    ensures HasSuffix(Terminated(lines), CRLF)
    decreases |lines|
  {
    if |lines| == 1 {
      assert Terminated(lines[1..]) == "";
      assert Terminated(lines) == lines[0] + CRLF;
    } else {
      TerminatedEndsWithCRLF(lines[1..]);
    }
  }

  lemma LineHasNoSuffix(line: string)
    requires !ContainsNewline(line)
    ensures !HasSuffix(line, CRLF)
  {
    if line != "" {
      assert "" + line == line;
      NoSuffixAfterText("", line);
    }
  }

  lemma NoSuffixAfterText(s: string, last: string)
    requires last != "" && !ContainsNewline(last)
    ensures !HasSuffix(s + last, CRLF)
  {
    var t := s + last;
    assert t[|t| - 1] == last[|last| - 1] && !IsBreak(last[|last| - 1]);
    assert |t| >= 2 ==> t[|t| - 2..][1] == t[|t| - 1];
  }

  /** Joined lines end with CRLF when the last of several lines is empty. */
  lemma EmptyLastLine(lines: seq<string>)
    requires lines != []
    ensures JoinLines(lines + [""]) == Terminated(lines) && HasSuffix(JoinLines(lines + [""]), CRLF)
  {
    JoinIsTerminated(lines, "");
    TerminatedEndsWithCRLF(lines);
    assert Terminated(lines) + "" == Terminated(lines);
  }

  /** Joined lines do not end with CRLF when the last holds text. */
  lemma TextLastLine(lines: seq<string>, last: string)
    requires last != "" && !ContainsNewline(last)
    ensures !HasSuffix(JoinLines(lines + [last]), CRLF)
  {
    if lines == [] {
      LineHasNoSuffix(last);
      assert lines + [last] == [last];
    } else {
      JoinIsTerminated(lines, last);
      NoSuffixAfterText(Terminated(lines), last);
    }
  }

  /** Ending joined lines with CRLF, if they do not end with it, terminates every line but an empty last one. */
  lemma EndedWith(init: seq<string>, last: string)
    requires !ContainsNewline(last)
    ensures Ended(JoinLines(init + [last])) == Terminated(if init != [] && last == "" then init else init + [last])
  {
    if last != "" {
      TextLastLine(init, last);
      JoinIsTerminated(init + [last], "");
    } else if init != [] {
      EmptyLastLine(init);
    } else {
      assert init + [last] == [""];
    }
  }

  lemma JoinedAndEnded(lines: seq<string>)
    requires lines != [] && !ContainsNewline(lines[|lines| - 1])
    ensures Ended(JoinLines(lines)) == Terminated(WithoutEmptyLast(lines))
  {
    var n := |lines| - 1;
    assert lines == lines[..n] + [lines[n]];
    EndedWith(lines[..n], lines[n]);
  }

  /** The body part holds the lines of the body in order, each ended by CRLF, and nothing else. */
  lemma SentBodyMeaning(body: string)
    ensures SentBody(body) == Terminated(TextLines(body))
    ensures TextLines(body) != [] && forall i | 0 <= i < |TextLines(body)| :: !ContainsNewline(TextLines(body)[i])
    ensures OnlyCRLF(SentBody(body))
  {
    LinesAreClean(body);
    NormalizingMeaning(body);
    JoinedAndEnded(Lines(body));
    TerminatedHasOnlyCRLF(TextLines(body));
  }

  lemma {:induction false} TerminatedHasOnlyCRLF(lines: seq<string>)
    requires forall i | 0 <= i < |lines| :: !ContainsNewline(lines[i])
    ensures OnlyCRLF(Terminated(lines))
    decreases |lines|
  {
    if lines != [] {
      TerminatedHasOnlyCRLF(lines[1..]);
      OnlyCRLFAfterLine(lines[0], Terminated(lines[1..]));
    }
  }
}
