/** The text form of a log line (logging_config.py, `TextFormatter.format`): nothing a caller
    logs can start a line of its own. */
module TextLine {
  import opened Results
  import opened LogLine

  const NEWLINE: nat := 10
  const INDENT: Text := [32, 32, 32, 32]

  /** What may not stand in a line: the C0 and C1 controls except the tab, DEL, and the characters
      that separate lines and paragraphs. */
  predicate IsControl(c: nat) {
    c <= 8 || 10 <= c <= 31 || 127 <= c <= 159 || c == 0x2028 || c == 0x2029
  }

  /** Python's `unicode_escape` of a control character. */
  function EscapeControl(c: nat): Text {
    if !IsControl(c) then [c]
    else if c == 10 then [BACKSLASH, 110]
    else if c == 13 then [BACKSLASH, 114]
    else if c < 256 then [BACKSLASH, 120, HexDigit(c / 16), HexDigit(c % 16)]
    else [BACKSLASH, LETTER_U] + Hex4(c)
  }

  function EscapedLine(t: Text): Text {
    Substituted(t, EscapeControl)
  }

  predicate NoControl(t: Text) {
    forall i :: 0 <= i < |t| ==> !IsControl(t[i])
  }

  lemma EscapeHasNoControl(c: nat)
    ensures NoControl(EscapeControl(c))
  {
    if IsControl(c) && c >= 256 { HexIsAscii(c); }
  }

  lemma {:induction false} EscapedHasNoControl(t: Text)
    ensures NoControl(EscapedLine(t))
  {
    if t != [] {
      EscapeHasNoControl(t[0]);
      EscapedHasNoControl(t[1..]);
    }
  }

  // ---- Lines ----

  /** The text at its line breaks: `split("\\n")`. */
  function Split(t: Text): (lines: seq<Text>)
    ensures lines != []
  {
    if t == [] then [[]]
    else
      var later := Split(t[1..]);
      if t[0] == NEWLINE then [[]] + later else [[t[0]] + later[0]] + later[1..]
  }

  function Join(lines: seq<Text>): Text
    requires lines != []
  {
    if |lines| == 1 then lines[0] else lines[0] + [NEWLINE] + Join(lines[1..])
  }

  predicate IsLine(t: Text) {
    forall i :: 0 <= i < |t| ==> t[i] != NEWLINE
  }

  lemma {:induction false} SplitLine(t: Text, more: Text)
    requires IsLine(t)
    ensures Split(t) == [t]
    ensures Split(t + [NEWLINE] + more) == [t] + Split(more)
  {
    var all := t + [NEWLINE] + more;
    if t == [] {
      assert all == [NEWLINE] + more && all[1..] == more;
    } else {
      SplitLine(t[1..], more);
      assert all[1..] == t[1..] + [NEWLINE] + more;
      assert [t[0]] + t[1..] == t;
    }
  }

  lemma {:induction false} SplitJoin(lines: seq<Text>)
    requires lines != [] && forall i :: 0 <= i < |lines| ==> IsLine(lines[i])
    ensures Split(Join(lines)) == lines
  {
    if |lines| == 1 {
      SplitLine(lines[0], []);
    } else {
      SplitLine(lines[0], Join(lines[1..]));
      SplitJoin(lines[1..]);
      assert [lines[0]] + lines[1..] == lines;
    }
  }

  // ---- The formatter ----

  function Indented(parts: seq<Text>): seq<Text> {
    if parts == [] then [] else [INDENT + EscapedLine(parts[0])] + Indented(parts[1..])
  }

  function TraceLines(trace: Option<Text>): seq<Text> {
    if trace.None? then [] else Indented(Split(trace.value))
  }

  function Tail(fields: seq<(Text, Text)>): Text {
    if fields == [] then []
    else
      var field := EscapedLine(fields[0].0) + [61] + EscapedLine(fields[0].1);
      if |fields| == 1 then field else field + [32] + Tail(fields[1..])
  }

  function Head(stamp: Text, level: Text, logger: Text, message: Text, fields: seq<(Text, Text)>): Text {
    var head := stamp + [32] + EscapedLine(level) + [32] + EscapedLine(logger) + [32] + EscapedLine(message);
    if Tail(fields) == [] then head else head + [32] + Tail(fields)
  }

  function Lines(stamp: Text, level: Text, logger: Text, message: Text, fields: seq<(Text, Text)>,
                 exception: Option<Text>, stack: Option<Text>): seq<Text>
  {
    [Head(stamp, level, logger, message, fields)] + TraceLines(exception) + TraceLines(stack)
  }

  function Surrogates(t: Text): Text {
    Substituted(t, ShownChar)
  }

  function Format(stamp: Text, level: Text, logger: Text, message: Text, fields: seq<(Text, Text)>,
                  exception: Option<Text>, stack: Option<Text>): Text
  {
    Surrogates(Join(Lines(stamp, level, logger, message, fields, exception, stack)))
  }

  // ---- What a reader sees ----

  lemma {:induction false} TailIsLine(fields: seq<(Text, Text)>)
    ensures IsLine(Tail(fields))
  {
    if fields != [] {
      EscapedHasNoControl(fields[0].0);
      EscapedHasNoControl(fields[0].1);
      TailIsLine(fields[1..]);
    }
  }

  lemma HeadIsLine(stamp: Text, level: Text, logger: Text, message: Text, fields: seq<(Text, Text)>)
    requires IsLine(stamp)
    ensures IsLine(Head(stamp, level, logger, message, fields))
  {
    EscapedHasNoControl(level);
    EscapedHasNoControl(logger);
    EscapedHasNoControl(message);
    TailIsLine(fields);
  }

  predicate StartsIndented(t: Text) {
    |t| >= 4 && t[..4] == INDENT
  }

  lemma {:induction false} IndentedLines(parts: seq<Text>)
    ensures |Indented(parts)| == |parts|
    ensures forall i :: 0 <= i < |parts| ==> IsLine(Indented(parts)[i]) && StartsIndented(Indented(parts)[i])
  {
    if parts != [] {
      EscapedHasNoControl(parts[0]);
      IndentedLines(parts[1..]);
      assert (INDENT + EscapedLine(parts[0]))[..4] == INDENT;
    }
  }

  lemma {:induction false} SurrogatesKeepLines(lines: seq<Text>)
    requires lines != []
    ensures Surrogates(Join(lines)) == Join(seq(|lines|, i requires 0 <= i < |lines| => Surrogates(lines[i])))
  {
    var each := seq(|lines|, i requires 0 <= i < |lines| => Surrogates(lines[i]));
    if |lines| > 1 {
      var later := seq(|lines| - 1, i requires 0 <= i < |lines| - 1 => Surrogates(lines[1..][i]));
      assert each[1..] == later;
      SurrogatesKeepLines(lines[1..]);
      SubstitutedAppend(lines[0] + [NEWLINE], Join(lines[1..]), ShownChar);
      SubstitutedAppend(lines[0], [NEWLINE], ShownChar);
      assert Substituted([NEWLINE], ShownChar) == [NEWLINE] by { assert [NEWLINE][1..] == []; }
    }
  }

  lemma {:induction false} SurrogatesKeepLine(t: Text)
    requires IsLine(t)
    ensures IsLine(Surrogates(t))
    ensures StartsIndented(t) ==> StartsIndented(Surrogates(t))
  {
    if t != [] {
      SurrogatesKeepLine(t[1..]);
      if IsSurrogate(t[0]) { HexIsAscii(t[0]); }
      if StartsIndented(t) {
        assert t == INDENT + t[4..];
        SubstitutedAppend(INDENT, t[4..], ShownChar);
        IndentStays();
        assert Surrogates(t)[..4] == INDENT;
      }
    }
  }

  lemma IndentStays()
    ensures Surrogates(INDENT) == INDENT
  {
    assert INDENT[1..] == [32, 32, 32] && [32, 32, 32][1..] == [32, 32] && [32, 32][1..] == [32] && [32][1..] == [];
  }

  /** Whatever a record holds, its text has one line for the record and one for each line of a
      traceback, in order, and every line after the first starts with four spaces. */
  lemma OnlyTracebacksAddLines(stamp: Text, level: Text, logger: Text, message: Text, fields: seq<(Text, Text)>,
                               exception: Option<Text>, stack: Option<Text>)
    requires IsLine(stamp)
    ensures var lines := Split(Format(stamp, level, logger, message, fields, exception, stack));
            && |lines| == 1 + (if exception.Some? then |Split(exception.value)| else 0)
                            + (if stack.Some? then |Split(stack.value)| else 0)
            && (forall i :: 1 <= i < |lines| ==> StartsIndented(lines[i]))
            && lines[0] == Surrogates(Head(stamp, level, logger, message, fields))
  {
    var lines := Lines(stamp, level, logger, message, fields, exception, stack);
    HeadIsLine(stamp, level, logger, message, fields);
    if exception.Some? { IndentedLines(Split(exception.value)); }
    if stack.Some? { IndentedLines(Split(stack.value)); }
    var each := seq(|lines|, i requires 0 <= i < |lines| => Surrogates(lines[i]));
    forall i | 0 <= i < |lines| ensures IsLine(each[i]) && (i >= 1 ==> StartsIndented(each[i])) {
      SurrogatesKeepLine(lines[i]);
    }
    SurrogatesKeepLines(lines);
    SplitJoin(each);
  }
}
