/**
 The line protocol between the native ETW helper and the service: the helper prints each process
 event as one JSON object per line, the service splits its input at newlines and parses each line.
 */
module EtwLines {
  import opened Common
  import opened Json
  import opened CanonicalManifest

  const NEWLINE: Byte := 10
  const CARRIAGE_RETURN: Byte := 13

  /** A kernel process event; pids are 32-bit, texts are bytes. */
  datatype ProcessEvent =
    | Start(pid: nat, parentPid: nat, image: Bytes, commandLine: Bytes)
    | Stop(pid: nat)
  {
    ghost predicate Valid() {
      pid < 0x1_0000_0000 && (Start? ==> parentPid < 0x1_0000_0000)
    }
  }

  /** What the service hands on. */
  datatype Observation = Observation(kind: Bytes, pid: nat, parentPid: nat, image: Bytes, commandLine: Bytes)

  // Field names and event kinds, in ASCII.
  const TYPE: Bytes := [116, 121, 112, 101]
  const PID: Bytes := [112, 105, 100]
  const PARENT_PID: Bytes := [112, 97, 114, 101, 110, 116, 95, 112, 105, 100]
  const IMAGE: Bytes := [105, 109, 97, 103, 101]
  const COMMAND_LINE: Bytes := [99, 111, 109, 109, 97, 110, 100, 95, 108, 105, 110, 101]
  const EVENT_ID: Bytes := [101, 118, 101, 110, 116, 95, 105, 100]
  const START: Bytes := [115, 116, 97, 114, 116]
  const STOP: Bytes := [115, 116, 111, 112]

  // ---------- The helper ----------

  lemma {:induction false} EscapeSnoc(s: Bytes, b: Byte)
    ensures Escape(s + [b]) == Escape(s) + EscapeByte(b)
  {
    hide EscapeByte;
    if s == [] {
      assert Escape([b]) == EscapeByte(b) + Escape([b][1..]);
    } else {
      EscapeSnoc(s[1..], b);
      assert (s + [b])[1..] == s[1..] + [b];
    }
  }

  method JsonEscape(value: Bytes) returns (output: Bytes)
    ensures output == Escape(value)
  {
    output := [];
    for i := 0 to |value|
      invariant output == Escape(value[..i])
    {
      EscapeSnoc(value[..i], value[i]);
      assert value[..i + 1] == value[..i] + [value[i]];
      output := output + EscapeByte(value[i]);
    }
    assert value[..|value|] == value;
  }

  function EventMembers(e: ProcessEvent): seq<Member> {
    [ Member(TYPE, Str(if e.Start? then START else STOP)),
      Member(PID, Number(e.pid)),
      Member(PARENT_PID, Number(if e.Start? then e.parentPid else 0)),
      Member(IMAGE, Str(if e.Start? then e.image else [])),
      Member(COMMAND_LINE, Str(if e.Start? then e.commandLine else [])),
      Member(EVENT_ID, Number(if e.Start? then 1 else 2)) ]
  }

  /** The object the printed line denotes. */
  function EventLine(e: ProcessEvent): Bytes {
    Print(Obj(EventMembers(e)))
  }

  ghost predicate Plain(s: Bytes) {
    forall i :: 0 <= i < |s| ==> s[i] >= 0x20 && s[i] != QUOTE && s[i] != BACKSLASH
  }

  lemma {:induction false} EscapePlain(s: Bytes)
    requires Plain(s)
    ensures Escape(s) == s
  {
    if s != [] {
      EscapePlain(s[1..]);
      assert s == [s[0]] + s[1..];
    }
  }

  lemma PlainMember(key: Bytes, v: Value)
    requires Plain(key)
    ensures PrintMember(Member(key, v)) == [QUOTE] + key + [QUOTE, COLON] + Print(v)
  {
    EscapePlain(key);
  }

  lemma PrintMembersCons(m: Member, ms: seq<Member>)
    requires ms != []
    ensures PrintMembers([m] + ms) == PrintMember(m) + [COMMA] + PrintMembers(ms)
  {
    hide PrintMember;
    assert ([m] + ms)[1..] == ms;
  }

  lemma SixMembers(a: Member, b: Member, c: Member, d: Member, e: Member, f: Member)
    ensures PrintMembers([a, b, c, d, e, f]) ==
            PrintMember(a) + [COMMA] + (PrintMember(b) + [COMMA] + (PrintMember(c) + [COMMA] + (PrintMember(d) + [COMMA]
            + (PrintMember(e) + [COMMA] + PrintMember(f)))))
  {
    hide PrintMember;
    assert PrintMembers([f]) == PrintMember(f);
    hide PrintMembers;
    PrintMembersCons(e, [f]);
    PrintMembersCons(d, [e] + [f]);
    PrintMembersCons(c, [d] + ([e] + [f]));
    PrintMembersCons(b, [c] + ([d] + ([e] + [f])));
    PrintMembersCons(a, [b] + ([c] + ([d] + ([e] + [f]))));
    assert [a, b, c, d, e, f] == [a] + ([b] + ([c] + ([d] + ([e] + [f]))));
  }

  function NamedNumber(name: Bytes, n: nat): Bytes {
    [QUOTE] + name + [QUOTE, COLON] + Digits(n)
  }

  function NamedText(name: Bytes, escaped: Bytes): Bytes {
    [QUOTE] + name + [QUOTE, COLON] + [QUOTE] + escaped + [QUOTE]
  }

  lemma NamedFields(name: Bytes, n: nat, text: Bytes)
    requires Plain(name)
    ensures NamedNumber(name, n) == PrintMember(Member(name, Number(n)))
    ensures NamedText(name, Escape(text)) == PrintMember(Member(name, Str(text)))
  {
    PlainMember(name, Number(n));
    PlainMember(name, Str(text));
  }

  /** The text of one line: names and kinds unescaped, the two free texts already escaped. */
  function LineText(kind: Bytes, pid: nat, parent: nat, image: Bytes, commandLine: Bytes, id: nat): Bytes {
    [OPEN_BRACE] + (NamedText(TYPE, kind) + [COMMA] + (NamedNumber(PID, pid) + [COMMA]
    + (NamedNumber(PARENT_PID, parent) + [COMMA] + (NamedText(IMAGE, image) + [COMMA]
    + (NamedText(COMMAND_LINE, commandLine) + [COMMA] + NamedNumber(EVENT_ID, id)))))) + [CLOSE_BRACE]
  }

  lemma PlainNames()
    ensures Plain(TYPE) && Plain(PID) && Plain(PARENT_PID) && Plain(IMAGE) && Plain(COMMAND_LINE) && Plain(EVENT_ID)
    ensures Plain(START) && Plain(STOP)
  {
  }

  lemma LineTextIsObject(kind: Bytes, pid: nat, parent: nat, image: Bytes, commandLine: Bytes, id: nat)
    requires Plain(kind)
    ensures LineText(kind, pid, parent, Escape(image), Escape(commandLine), id) ==
            Print(Obj([ Member(TYPE, Str(kind)), Member(PID, Number(pid)), Member(PARENT_PID, Number(parent)),
                        Member(IMAGE, Str(image)), Member(COMMAND_LINE, Str(commandLine)),
                        Member(EVENT_ID, Number(id)) ]))
  {
    PlainNames();
    EscapePlain(kind);
    hide NamedText, NamedNumber, PrintMember, PrintMembers, Escape, Plain;
    NamedFields(TYPE, 0, kind);
    NamedFields(PID, pid, []);
    NamedFields(PARENT_PID, parent, []);
    NamedFields(IMAGE, 0, image);
    NamedFields(COMMAND_LINE, 0, commandLine);
    NamedFields(EVENT_ID, id, []);
    SixMembers(Member(TYPE, Str(kind)), Member(PID, Number(pid)), Member(PARENT_PID, Number(parent)),
               Member(IMAGE, Str(image)), Member(COMMAND_LINE, Str(commandLine)), Member(EVENT_ID, Number(id)));
  }

  /** Prints one event. */
  method OnEvent(e: ProcessEvent, lineEnd: Bytes) returns (output: Bytes)
    ensures output == EventLine(e) + lineEnd
  {
    hide LineText, Print, Escape;
    var kind, id := if e.Start? then START else STOP, if e.Start? then 1 else 2;
    var parent := if e.Start? then e.parentPid else 0;
    var image := if e.Start? then e.image else [];
    var commandLine := if e.Start? then e.commandLine else [];
    var imageText := JsonEscape(image);
    var commandText := JsonEscape(commandLine);
    PlainNames();
    LineTextIsObject(kind, e.pid, parent, image, commandLine, id);
    output := LineText(kind, e.pid, parent, imageText, commandText, id) + lineEnd;
  }

  // ---------- The service ----------

  function Lookup(v: Value, name: Bytes): Option<Value> {
    if v.Obj? && name in AsMap(v.members) then Some(AsMap(v.members)[name]) else None
  }

  /** `as_str`, with the empty default. */
  function TextAt(v: Value, name: Bytes): Bytes {
    match Lookup(v, name)
    case Some(Str(s)) => s
    case _ => []
  }

  /** `as_u64` narrowed to 32 bits, with the zero default. */
  function PidAt(v: Value, name: Bytes): nat {
    match Lookup(v, name)
    case Some(Number(n)) => if 0 <= n < 0x1_0000_0000 then n else 0
    case _ => 0
  }

  /** One line: an observation, or nothing for any other text. */
  function ReadLine(line: Bytes): Option<Observation> {
    match Parse(line)
    case Some((v, rest)) =>
      if rest == [] && TextAt(v, TYPE) in {START, STOP}
      then Some(Observation(TextAt(v, TYPE), PidAt(v, PID), PidAt(v, PARENT_PID), TextAt(v, IMAGE), TextAt(v, COMMAND_LINE)))
      else None
    case None => None
  }

  /** Where the first line ends. */
  function LineLength(t: Bytes): (k: nat)
    ensures k <= |t| && (k < |t| ==> t[k] == NEWLINE)
    ensures forall i :: 0 <= i < k ==> t[i] != NEWLINE
  {
    if t == [] || t[0] == NEWLINE then 0 else 1 + LineLength(t[1..])
  }

  function TrimReturn(line: Bytes): Bytes {
    if line != [] && line[|line| - 1] == CARRIAGE_RETURN then line[..|line| - 1] else line
  }

  function FirstLine(t: Bytes): Bytes {
    var k := LineLength(t);
    if k < |t| then TrimReturn(t[..k]) else t
  }

  function AfterLine(t: Bytes): (rest: Bytes)
    ensures t != [] ==> |rest| < |t|
  {
    var k := LineLength(t);
    if k < |t| then t[k + 1..] else []
  }

  function Found(line: Bytes): seq<Observation> {
    match ReadLine(line)
    case Some(o) => [o]
    case None => []
  }

  /** All observations of a stream, in order. */
  function ReadAll(t: Bytes): seq<Observation>
    decreases |t|
  {
    if t == [] then [] else Found(FirstLine(t)) + ReadAll(AfterLine(t))
  }

  method ReadEvents(t: Bytes) returns (events: seq<Observation>)
    ensures events == ReadAll(t)
  {
    hide Found, FirstLine, AfterLine;
    events := [];
    var rest := t;
    while rest != []
      invariant events + ReadAll(rest) == ReadAll(t)
      decreases |rest|
    {
      events := events + Found(FirstLine(rest));
      rest := AfterLine(rest);
    }
  }

  // ---------- Round trip ----------

  function Observed(e: ProcessEvent): Observation {
    match e
    case Start(pid, parentPid, image, commandLine) => Observation(START, pid, parentPid, image, commandLine)
    case Stop(pid) => Observation(STOP, pid, 0, [], [])
  }

  function PrintAll(events: seq<ProcessEvent>, lineEnd: Bytes): Bytes {
    if events == [] then [] else EventLine(events[0]) + lineEnd + PrintAll(events[1..], lineEnd)
  }

  function ObservedAll(events: seq<ProcessEvent>): seq<Observation> {
    seq(|events|, i requires 0 <= i < |events| => Observed(events[i]))
  }

  ghost predicate Printable(t: Bytes) {
    forall i :: 0 <= i < |t| ==> t[i] >= 0x20
  }

  lemma DigitsPrintable(n: nat)
    ensures Printable(Digits(n))
  {
    DigitsProperties(n);
    forall i | 0 <= i < |Digits(n)| ensures Digits(n)[i] >= 0x20 {
      assert IsDigit(Digits(n)[i]);
    }
  }

  /** A printed value holds no control byte, so a line never breaks early. */
  lemma {:induction false} PrintPrintable(v: Value)
    ensures Printable(Print(v))
    decreases v, 0
  {
    match v
    case Number(n) => DigitsPrintable(if n < 0 then -n else n);
    case Arr(items) => ItemsPrintable(items);
    case Obj(members) => MembersPrintable(members);
    case _ =>
  }

  lemma {:induction false} ItemsPrintable(items: seq<Value>)
    ensures Printable(PrintItems(items))
    decreases items, 0
  {
    if items != [] {
      PrintPrintable(items[0]);
      ItemsPrintable(items[1..]);
    }
  }

  lemma {:induction false} MembersPrintable(members: seq<Member>)
    ensures Printable(PrintMembers(members))
    decreases members, 0
  {
    if members != [] {
      PrintPrintable(members[0].value);
      MembersPrintable(members[1..]);
    }
  }

  lemma MembersDistinct(e: ProcessEvent)
    ensures DistinctKeys(EventMembers(e))
  {
    var m := EventMembers(e);
    assert |m[0].key| == 4 && |m[1].key| == 3 && |m[2].key| == 10 && |m[3].key| == 5 && |m[4].key| == 12 && |m[5].key| == 8;
  }

  lemma FieldLookup(ms: seq<Member>, i: nat)
    requires DistinctKeys(ms) && i < |ms|
    ensures Lookup(Obj(ms), ms[i].key) == Some(ms[i].value)
  {
    AsMapHas(ms, i);
  }

  lemma FieldsReadBack(e: ProcessEvent)
    requires e.Valid()
    ensures var v, o := Obj(EventMembers(e)), Observed(e);
            && TextAt(v, TYPE) == o.kind && o.kind in {START, STOP} && PidAt(v, PID) == o.pid
            && PidAt(v, PARENT_PID) == o.parentPid && TextAt(v, IMAGE) == o.image
            && TextAt(v, COMMAND_LINE) == o.commandLine
  {
    var m := EventMembers(e);
    MembersDistinct(e);
    hide DistinctKeys, Lookup;
    FieldLookup(m, 0);
    FieldLookup(m, 1);
    FieldLookup(m, 2);
    FieldLookup(m, 3);
    FieldLookup(m, 4);
  }

  /** The reader makes of a printed line exactly the event it was printed from. */
  lemma LineRoundTrip(e: ProcessEvent)
    requires e.Valid()
    ensures ReadLine(EventLine(e)) == Some(Observed(e))
  {
    hide Parse, Print, TextAt, PidAt, EventMembers;
    var v := Obj(EventMembers(e));
    RoundTrip(v, []);
    assert Print(v) + [] == EventLine(e);
    FieldsReadBack(e);
  }

  lemma LinePrintable(e: ProcessEvent)
    ensures Printable(EventLine(e)) && EventLine(e) != []
  {
    PrintPrintable(Obj(EventMembers(e)));
    PrintStarts(Obj(EventMembers(e)));
  }

  lemma {:induction false} LineLengthIs(line: Bytes, rest: Bytes)
    requires forall i :: 0 <= i < |line| ==> line[i] != NEWLINE
    ensures LineLength(line + [NEWLINE] + rest) == |line|
  {
    if line != [] {
      LineLengthIs(line[1..], rest);
      assert (line + [NEWLINE] + rest)[1..] == line[1..] + [NEWLINE] + rest;
    }
  }

  lemma OneLine(line: Bytes, lineEnd: Bytes, rest: Bytes)
    requires Printable(line) && line != []
    requires lineEnd == [NEWLINE] || lineEnd == [CARRIAGE_RETURN, NEWLINE]
    ensures FirstLine(line + lineEnd + rest) == line && AfterLine(line + lineEnd + rest) == rest
  {
    var t := line + lineEnd + rest;
    var body := line + lineEnd[..|lineEnd| - 1];
    assert t == body + [NEWLINE] + rest;
    LineLengthIs(body, rest);
    assert t[..|body|] == body && t[|body| + 1..] == rest;
  }

  /** Any sequence of printed events, split at newlines and parsed, yields the same events in order. */
  lemma {:induction false} StreamRoundTrip(events: seq<ProcessEvent>, lineEnd: Bytes)
    requires forall i :: 0 <= i < |events| ==> events[i].Valid()
    requires lineEnd == [NEWLINE] || lineEnd == [CARRIAGE_RETURN, NEWLINE]
    ensures ReadAll(PrintAll(events, lineEnd)) == ObservedAll(events)
  {
    hide EventLine, FirstLine, AfterLine, ReadLine, Printable, Observed;
    if events != [] {
      var line, more := EventLine(events[0]), PrintAll(events[1..], lineEnd);
      LinePrintable(events[0]);
      LineRoundTrip(events[0]);
      StreamRoundTrip(events[1..], lineEnd);
      OneLine(line, lineEnd, more);
      assert ReadAll(line + lineEnd + more) == Found(line) + ReadAll(more);
      assert ObservedAll(events) == [Observed(events[0])] + ObservedAll(events[1..]);
    }
  }
}
