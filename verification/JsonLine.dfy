/** A whole JSON log line: `json.dumps` over nested values, the two substitutions over the
    finished text, and a reader of RFC 8259 (logging_config.py, `JsonFormatter.format`). */
module JsonLine {
  import opened Results
  import opened LogLine

  /** What a record holds once it is serialised; a number is the token it is written as. */
  datatype Value =
    | Null
    | Bool(b: bool)
    | Number(token: Text)
    | Str(s: Text)
    | Arr(items: seq<Value>)
    | Obj(members: seq<Member>)

  datatype Member = Member(name: Text, value: Value)

  predicate NumberChar(c: nat) {
    48 <= c <= 57 || c == 43 || c == 45 || c == 46 || c == 69 || c == 101
  }

  /** A number token: characters of a number, and not none. */
  predicate ValidToken(t: Text) {
    t != [] && forall i :: 0 <= i < |t| ==> NumberChar(t[i])
  }

  predicate Valid(v: Value) {
    match v
    case Number(token) => ValidToken(token)
    case Arr(items) => forall i :: 0 <= i < |items| ==> Valid(items[i])
    case Obj(members) => forall i :: 0 <= i < |members| ==> Valid(members[i].value)
    case _ => true
  }

  const NULL: Text := [110, 117, 108, 108]
  const TRUE: Text := [116, 114, 117, 101]
  const FALSE: Text := [102, 97, 108, 115, 101]
  const COMMA: Text := [44, 32]
  const COLON: Text := [58, 32]

  // ---- Writing ----

  function Dump(v: Value): Text
    decreases v, 1
  {
    match v
    case Null => NULL
    case Bool(b) => if b then TRUE else FALSE
    case Number(token) => token
    case Str(s) => DumpString(s)
    case Arr(items) => if items == [] then [91, 93] else [91] + DumpItems(items)
    case Obj(members) => if members == [] then [123, 125] else [123] + DumpMembers(members)
  }

  /** The items from one on, to the closing bracket. */
  function DumpItems(items: seq<Value>): Text
    requires items != []
    decreases items, 0
  {
    Dump(items[0]) + if |items| == 1 then [93] else COMMA + DumpItems(items[1..])
  }

  function DumpMembers(members: seq<Member>): Text
    requires members != []
    decreases members, 0
  {
    DumpString(members[0].name) + COLON + Dump(members[0].value)
      + if |members| == 1 then [125] else COMMA + DumpMembers(members[1..])
  }

  /** What the line says: every string of it, names among them, as `Shown`. */
  function Said(v: Value): Value
    decreases v, 1
  {
    match v
    case Str(s) => Str(Shown(s))
    case Arr(items) => Arr(SaidItems(items))
    case Obj(members) => Obj(SaidMembers(members))
    case _ => v
  }

  function SaidItems(items: seq<Value>): seq<Value>
    decreases items, 0
  {
    if items == [] then [] else [Said(items[0])] + SaidItems(items[1..])
  }

  function SaidMembers(members: seq<Member>): seq<Member>
    decreases members, 0
  {
    if members == [] then []
    else [Member(Shown(members[0].name), Said(members[0].value))] + SaidMembers(members[1..])
  }

  // ---- Reading ----

  function SkipSpace(t: Text): (r: Text)
    ensures |r| <= |t|
  {
    if t != [] && (t[0] == 32 || t[0] == 9 || t[0] == 10 || t[0] == 13) then SkipSpace(t[1..]) else t
  }

  function ReadWord(t: Text, word: Text, v: Value): (r: Reading<Value>)
    requires word != []
    ensures r.Read? ==> |r.rest| < |t|
  {
    if |t| >= |word| && t[..|word|] == word then Read(v, t[|word|..]) else Unreadable
  }

  function NumberLength(t: Text): (n: nat)
    ensures n <= |t|
  {
    if t != [] && NumberChar(t[0]) then 1 + NumberLength(t[1..]) else 0
  }

  function ReadValue(t0: Text): (r: Reading<Value>)
    ensures r.Read? ==> |r.rest| < |t0|
    decreases |t0|, 0
  {
    var t := SkipSpace(t0);
    if t == [] then Unreadable
    else if t[0] == QUOTE then
      match ReadString(t) case Unreadable => Unreadable case Read(s, rest) => Read(Str(s), rest)
    else if t[0] == 91 then
      var u := SkipSpace(t[1..]);
      if u != [] && u[0] == 93 then Read(Arr([]), u[1..])
      else match ReadItems(u) case Unreadable => Unreadable case Read(items, rest) => Read(Arr(items), rest)
    else if t[0] == 123 then
      var u := SkipSpace(t[1..]);
      if u != [] && u[0] == 125 then Read(Obj([]), u[1..])
      else match ReadMembers(u) case Unreadable => Unreadable case Read(members, rest) => Read(Obj(members), rest)
    else if NumberChar(t[0]) then Read(Number(t[..NumberLength(t)]), t[NumberLength(t)..])
    else if t[0] == 110 then ReadWord(t, NULL, Null)
    else if t[0] == 116 then ReadWord(t, TRUE, Bool(true))
    else ReadWord(t, FALSE, Bool(false))
  }

  function ReadItems(t: Text): (r: Reading<seq<Value>>)
    ensures r.Read? ==> |r.rest| < |t|
    decreases |t|, 1
  {
    match ReadValue(t)
    case Unreadable => Unreadable
    case Read(v, after) =>
      var u := SkipSpace(after);
      if u == [] then Unreadable
      else if u[0] == 93 then Read([v], u[1..])
      else if u[0] != 44 then Unreadable
      else match ReadItems(u[1..]) case Unreadable => Unreadable case Read(vs, rest) => Read([v] + vs, rest)
  }

  function ReadMembers(t: Text): (r: Reading<seq<Member>>)
    ensures r.Read? ==> |r.rest| < |t|
    decreases |t|, 1
  {
    match ReadString(SkipSpace(t))
    case Unreadable => Unreadable
    case Read(name, after) => ReadNamed(name, after)
  }

  /** The members from the colon of one on. */
  function ReadNamed(name: Text, t: Text): (r: Reading<seq<Member>>)
    ensures r.Read? ==> |r.rest| < |t|
    decreases |t|, 1
  {
    var u := SkipSpace(t);
    if u == [] || u[0] != 58 then Unreadable
    else
      match ReadValue(u[1..])
      case Unreadable => Unreadable
      case Read(v, after) => ReadClosing(Member(name, v), after)
  }

  /** What comes after a member: the end, or a comma and the next. */
  function ReadClosing(member: Member, t: Text): (r: Reading<seq<Member>>)
    ensures r.Read? ==> |r.rest| < |t|
    decreases |t|, 1
  {
    var w := SkipSpace(t);
    if w == [] then Unreadable
    else if w[0] == 125 then Read([member], w[1..])
    else if w[0] != 44 then Unreadable
    else match ReadMembers(w[1..]) case Unreadable => Unreadable case Read(ms, rest) => Read([member] + ms, rest)
  }

  // ---- Pieces ----

  predicate Ascii(t: Text) {
    forall i :: 0 <= i < |t| ==> t[i] < 128
  }

  lemma AsciiStays(t: Text)
    requires Ascii(t)
    ensures Encodable(t) == t
  {
    PlainStays(t);
  }

  lemma {:induction false} NumberRun(token: Text, t: Text)
    requires forall i :: 0 <= i < |token| ==> NumberChar(token[i])
    requires t == [] || !NumberChar(t[0])
    ensures NumberLength(token + t) == |token|
  {
    if token == [] {
      assert token + t == t;
    } else {
      NumberRun(token[1..], t);
      assert (token + t)[1..] == token[1..] + t;
    }
  }

  lemma Space(t: Text)
    ensures SkipSpace([32] + t) == SkipSpace(t)
    ensures ReadValue([32] + t) == ReadValue(t)
    ensures ReadItems([32] + t) == ReadItems(t)
    ensures ReadMembers([32] + t) == ReadMembers(t)
  {
    assert ([32] + t)[1..] == t;
  }

  /** How a value starts: no space, no closing bracket. */
  predicate Starts(t: Text) {
    t != [] && t[0] != 32 && t[0] != 9 && t[0] != 10 && t[0] != 13 && t[0] != 93 && t[0] != 125
  }

  lemma ValueStarts(v: Value)
    requires Valid(v)
    ensures Starts(Encodable(Dump(v)))
  {
    match v
    case Null => AsciiStays(NULL);
    case Bool(b) => AsciiStays(TRUE); AsciiStays(FALSE);
    case Number(token) => AsciiStays(token);
    case Str(s) => DumpedString(s);
    case Arr(items) => if items == [] { AsciiStays([91, 93]); } else { Opened(91, DumpItems(items)); }
    case Obj(members) => if members == [] { AsciiStays([123, 125]); } else { Opened(123, DumpMembers(members)); }
  }

  lemma Opened(bracket: nat, t: Text)
    requires bracket < 128
    ensures Encodable([bracket] + t) == [bracket] + Encodable(t)
  {
    EncodableAppend([bracket], t);
    AsciiStays([bracket]);
  }

  /** What follows a value inside a bracket. */
  function After(last: bool, bracket: nat, more: Text): Text {
    if last then [bracket] else COMMA + more
  }

  lemma Followed(first: Text, last: bool, bracket: nat, more: Text)
    requires bracket < 128
    ensures Encodable(first + After(last, bracket, more))
         == Encodable(first) + After(last, bracket, Encodable(more))
  {
    EncodableAppend(first, After(last, bracket, more));
    if last { AsciiStays([bracket]); }
    else {
      EncodableAppend(COMMA, more);
      AsciiStays(COMMA);
    }
  }

  // ---- Reading a line back ----

  lemma WordRead(word: Text, v: Value, t: Text)
    requires word != []
    ensures ReadWord(word + t, word, v) == Read(v, t)
  {
    assert (word + t)[..|word|] == word && (word + t)[|word|..] == t;
  }

  lemma ReadWordBack(v: Value, t: Text)
    requires v.Null? || v.Bool?
    ensures ReadValue(Encodable(Dump(v)) + t) == Read(v, t)
  {
    var word := Dump(v);
    AsciiStays(word);
    WordRead(word, v, t);
    var all := word + t;
    assert all[0] == word[0] && SkipSpace(all) == all;
    match v
    case Null => assert ReadValue(all) == ReadWord(all, NULL, Null);
    case Bool(b) => assert ReadValue(all) == if b then ReadWord(all, TRUE, Bool(true))
        else ReadWord(all, FALSE, Bool(false));
  }

  lemma ReadNumberBack(token: Text, t: Text)
    requires ValidToken(token) && (t == [] || !NumberChar(t[0]))
    ensures ReadValue(Encodable(token) + t) == Read(Number(token), t)
  {
    AsciiStays(token);
    NumberRun(token, t);
    var all := token + t;
    assert all[..|token|] == token && all[|token|..] == t;
    assert SkipSpace(all) == all;
  }

  lemma ReadStringBack(s: Text, t: Text)
    ensures ReadValue(Encodable(DumpString(s)) + t) == Read(Str(Shown(s)), t)
  {
    DumpedString(s);
    LineReadsBack(s, t);
    assert SkipSpace(Encodable(DumpString(s)) + t) == Encodable(DumpString(s)) + t;
  }

  lemma ReadEmptyBack(v: Value, t: Text)
    requires v == Arr([]) || v == Obj([])
    ensures ReadValue(Encodable(Dump(v)) + t) == Read(v, t)
  {
    var both := Dump(v);
    AsciiStays(both);
    var all := both + t;
    assert all[1..] == [both[1]] + t;
    assert SkipSpace(all) == all && SkipSpace(all[1..]) == all[1..];
    assert all[1..][1..] == t;
  }

  /** An opened array or object is read as its contents are. */
  lemma ReadOpened(body: Text, t: Text)
    requires Starts(body)
    ensures ReadValue([91] + body + t) ==
              (match ReadItems(body + t) case Unreadable => Unreadable case Read(items, rest) => Read(Arr(items), rest))
    ensures ReadValue([123] + body + t) ==
              (match ReadMembers(body + t) case Unreadable => Unreadable
                  case Read(members, rest) => Read(Obj(members), rest))
  {
    assert ([91] + body + t)[1..] == body + t;
    assert ([123] + body + t)[1..] == body + t;
    assert SkipSpace(body + t) == body + t;
  }

  lemma {:induction false} ReadsBack(v: Value, t: Text)
    requires Valid(v) && (t == [] || !NumberChar(t[0]))
    ensures ReadValue(Encodable(Dump(v)) + t) == Read(Said(v), t)
    decreases v, 1
  {
    match v
    case Number(token) => ReadNumberBack(token, t);
    case Str(s) => ReadStringBack(s, t);
    case Arr(items) =>
      if items == [] { ReadEmptyBack(v, t); }
      else {
        Opened(91, DumpItems(items));
        ItemsStart(items);
        ReadOpened(Encodable(DumpItems(items)), t);
        ItemsReadBack(items, t);
      }
    case Obj(members) =>
      if members == [] { ReadEmptyBack(v, t); }
      else {
        Opened(123, DumpMembers(members));
        MembersStart(members);
        ReadOpened(Encodable(DumpMembers(members)), t);
        MembersReadBack(members, t);
      }
    case _ => ReadWordBack(v, t);
  }

  function MoreItems(items: seq<Value>): Text
    requires items != []
  {
    if |items| == 1 then [] else DumpItems(items[1..])
  }

  lemma ItemsSplit(items: seq<Value>)
    requires items != []
    ensures Encodable(DumpItems(items))
         == Encodable(Dump(items[0])) + After(|items| == 1, 93, Encodable(MoreItems(items)))
  {
    Followed(Dump(items[0]), |items| == 1, 93, MoreItems(items));
  }

  lemma ItemsStart(items: seq<Value>)
    requires items != [] && Valid(items[0])
    ensures Starts(Encodable(DumpItems(items)))
  {
    ItemsSplit(items);
    ValueStarts(items[0]);
  }

  /** One item read, and the reader's next move. */
  lemma ItemRead(first: Text, v: Value, last: bool, more: Text, t: Text)
    requires ReadValue(first + (After(last, 93, more) + t)) == Read(v, After(last, 93, more) + t)
    ensures ReadItems(first + After(last, 93, more) + t) ==
              if last then Read([v], t)
              else match ReadItems(more + t) case Unreadable => Unreadable case Read(vs, rest) => Read([v] + vs, rest)
  {
    var after := After(last, 93, more) + t;
    Associate(first, After(last, 93, more), t);
    if last { assert after[1..] == t; }
    else {
      assert after[1..] == [32] + (more + t);
      Space(more + t);
    }
  }

  lemma SaidMore(items: seq<Value>)
    requires items != []
    ensures |items| == 1 ==> SaidItems(items) == [Said(items[0])]
    ensures |items| > 1 ==> SaidItems(items) == [Said(items[0])] + SaidItems(items[1..])
  {
    if |items| == 1 { assert items[1..] == []; }
  }

  lemma {:induction false} ItemsReadBack(items: seq<Value>, t: Text)
    requires items != [] && forall i :: 0 <= i < |items| ==> Valid(items[i])
    ensures ReadItems(Encodable(DumpItems(items)) + t) == Read(SaidItems(items), t)
    decreases items, 0
  {
    var last, more := |items| == 1, Encodable(MoreItems(items));
    ItemsSplit(items);
    ReadsBack(items[0], After(last, 93, more) + t);
    ItemRead(Encodable(Dump(items[0])), Said(items[0]), last, more, t);
    SaidMore(items);
    if !last { ItemsReadBack(items[1..], t); }
  }

  function MoreMembers(members: seq<Member>): Text
    requires members != []
  {
    if |members| == 1 then [] else DumpMembers(members[1..])
  }

  /** A member's name, colon and value. */
  function Pair(m: Member): Text {
    DumpString(m.name) + COLON + Dump(m.value)
  }

  lemma PairEncoded(m: Member)
    ensures Encodable(Pair(m)) == Encodable(DumpString(m.name)) + COLON + Encodable(Dump(m.value))
  {
    EncodableAppend(DumpString(m.name) + COLON, Dump(m.value));
    EncodableAppend(DumpString(m.name), COLON);
    AsciiStays(COLON);
  }

  lemma MembersSplit(members: seq<Member>)
    requires members != []
    ensures Encodable(DumpMembers(members))
         == Encodable(Pair(members[0])) + After(|members| == 1, 125, Encodable(MoreMembers(members)))
  {
    assert DumpMembers(members) == Pair(members[0]) + After(|members| == 1, 125, MoreMembers(members));
    Followed(Pair(members[0]), |members| == 1, 125, MoreMembers(members));
  }

  lemma MembersStart(members: seq<Member>)
    requires members != []
    ensures Starts(Encodable(DumpMembers(members)))
  {
    MembersSplit(members);
    PairEncoded(members[0]);
    DumpedString(members[0].name);
  }

  lemma ClosingRead(m: Member, last: bool, more: Text, t: Text)
    ensures ReadClosing(m, After(last, 125, more) + t) ==
              if last then Read([m], t)
              else match ReadMembers(more + t) case Unreadable => Unreadable case Read(ms, rest) => Read([m] + ms, rest)
  {
    var after := After(last, 125, more) + t;
    assert SkipSpace(after) == after;
    if last { assert after[1..] == t; }
    else {
      assert after[1..] == [32] + (more + t);
      Space(more + t);
    }
  }

  lemma NamedRead(name: Text, v: Value, value: Text, after: Text)
    requires ReadValue(value + after) == Read(v, after)
    ensures ReadNamed(name, COLON + (value + after)) == ReadClosing(Member(name, v), after)
  {
    var rest := value + after;
    assert (COLON + rest)[1..] == [32] + rest;
    Space(rest);
  }

  lemma PairRead(m: Member, after: Text)
    ensures ReadMembers(Encodable(Pair(m)) + after)
        == ReadNamed(Shown(m.name), COLON + (Encodable(Dump(m.value)) + after))
  {
    var name, rest := Encodable(DumpString(m.name)), COLON + (Encodable(Dump(m.value)) + after);
    PairEncoded(m);
    assert Encodable(Pair(m)) + after == name + rest;
    DumpedString(m.name);
    assert SkipSpace(name + rest) == name + rest;
    LineReadsBack(m.name, rest);
  }

  lemma SaidMoreMembers(members: seq<Member>)
    requires members != []
    ensures var m := Member(Shown(members[0].name), Said(members[0].value));
            && (|members| == 1 ==> SaidMembers(members) == [m])
            && (|members| > 1 ==> SaidMembers(members) == [m] + SaidMembers(members[1..]))
  {
    if |members| == 1 { assert members[1..] == []; }
  }

  lemma {:induction false} MembersReadBack(members: seq<Member>, t: Text)
    requires members != [] && forall i :: 0 <= i < |members| ==> Valid(members[i].value)
    ensures ReadMembers(Encodable(DumpMembers(members)) + t) == Read(SaidMembers(members), t)
    decreases members, 0
  {
    var m, last, more := members[0], |members| == 1, Encodable(MoreMembers(members));
    var after := After(last, 125, more) + t;
    MembersSplit(members);
    Associate(Encodable(Pair(m)), After(last, 125, more), t);
    PairRead(m, after);
    ReadsBack(m.value, after);
    NamedRead(Shown(m.name), Said(m.value), Encodable(Dump(m.value)), after);
    ClosingRead(Member(Shown(m.name), Said(m.value)), last, more, t);
    SaidMoreMembers(members);
    if !last { MembersReadBack(members[1..], t); }
  }

  /** A log line reads back whole, and says of each string what `Shown` says of it. */
  lemma WholeLineReadsBack(v: Value)
    requires Valid(v)
    ensures ReadValue(Encodable(Dump(v))) == Read(Said(v), [])
  {
    ReadsBack(v, []);
    assert Encodable(Dump(v)) + [] == Encodable(Dump(v));
  }

  // ---- The line is one line of text any reader can take ----

  lemma AsciiOneLine(t: Text)
    requires forall i :: 0 <= i < |t| ==> 32 <= t[i] < 127
    ensures OneLine(Encodable(t))
  {
    AsciiStays(t);
  }

  lemma StringIsOneLine(s: Text)
    ensures OneLine(Encodable(DumpString(s)))
  {
    DumpedString(s);
    EscapedIsOneLine(s);
    OneLineAppend([QUOTE], Encodable(EscapeAll(s)));
    OneLineAppend([QUOTE] + Encodable(EscapeAll(s)), [QUOTE]);
  }

  lemma AfterIsOneLine(first: Text, last: bool, bracket: nat, more: Text)
    requires OneLine(first) && OneLine(more) && 32 <= bracket < 127
    ensures OneLine(first + After(last, bracket, more))
  {
    OneLineAppend(COMMA, more);
    OneLineAppend(first, After(last, bracket, more));
  }

  /** No line a record writes holds a line break, a control character or a surrogate. */
  lemma {:induction false} LineIsOneLine(v: Value)
    requires Valid(v)
    ensures OneLine(Encodable(Dump(v)))
    decreases v, 1
  {
    match v
    case Null => AsciiOneLine(NULL);
    case Bool(b) => AsciiOneLine(TRUE); AsciiOneLine(FALSE);
    case Number(token) => AsciiOneLine(token);
    case Str(s) => StringIsOneLine(s);
    case Arr(items) =>
      if items == [] { AsciiOneLine([91, 93]); }
      else { Opened(91, DumpItems(items)); ItemsAreOneLine(items); OneLineAppend([91], Encodable(DumpItems(items))); }
    case Obj(members) =>
      if members == [] { AsciiOneLine([123, 125]); }
      else {
        Opened(123, DumpMembers(members));
        MembersAreOneLine(members);
        OneLineAppend([123], Encodable(DumpMembers(members)));
      }
  }

  lemma {:induction false} ItemsAreOneLine(items: seq<Value>)
    requires items != [] && forall i :: 0 <= i < |items| ==> Valid(items[i])
    ensures OneLine(Encodable(DumpItems(items)))
    decreases items, 0
  {
    ItemsSplit(items);
    LineIsOneLine(items[0]);
    if |items| > 1 { ItemsAreOneLine(items[1..]); }
    AfterIsOneLine(Encodable(Dump(items[0])), |items| == 1, 93, Encodable(MoreItems(items)));
  }

  lemma PairIsOneLine(m: Member)
    requires OneLine(Encodable(Dump(m.value)))
    ensures OneLine(Encodable(Pair(m)))
  {
    PairEncoded(m);
    StringIsOneLine(m.name);
    OneLineAppend(Encodable(DumpString(m.name)), COLON);
    OneLineAppend(Encodable(DumpString(m.name)) + COLON, Encodable(Dump(m.value)));
  }

  lemma {:induction false} MembersAreOneLine(members: seq<Member>)
    requires members != [] && forall i :: 0 <= i < |members| ==> Valid(members[i].value)
    ensures OneLine(Encodable(DumpMembers(members)))
    decreases members, 0
  {
    MembersSplit(members);
    LineIsOneLine(members[0].value);
    PairIsOneLine(members[0]);
    if |members| > 1 { MembersAreOneLine(members[1..]); }
    AfterIsOneLine(Encodable(Pair(members[0])), |members| == 1, 125, Encodable(MoreMembers(members)));
  }
}
