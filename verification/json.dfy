/**
 JSON texts as byte strings: the string escaping shared by the manifest serializer and the ETW
 helper, a printer that keeps member order, and a parser following sections 2 to 7 of RFC 8259
 for texts without insignificant white space, with integer numbers.
 */
module Json {
  import opened Common

  datatype Value =
    | Null
    | Bool(b: bool)
    | Number(n: int)
    | Str(text: Bytes)
    | Arr(items: seq<Value>)
    | Obj(members: seq<Member>)

  datatype Member = Member(key: Bytes, value: Value)

  const QUOTE: Byte := 34
  const COMMA: Byte := 44
  const MINUS: Byte := 45
  const SLASH: Byte := 47
  const ZERO: Byte := 48
  const COLON: Byte := 58
  const OPEN_BRACKET: Byte := 91
  const BACKSLASH: Byte := 92
  const CLOSE_BRACKET: Byte := 93
  const OPEN_BRACE: Byte := 123
  const CLOSE_BRACE: Byte := 125

  const NULL_TEXT: Bytes := [110, 117, 108, 108]
  const TRUE_TEXT: Bytes := [116, 114, 117, 101]
  const FALSE_TEXT: Bytes := [102, 97, 108, 115, 101]

  // ---------- Strings (section 7) ----------

  function HexDigit(d: nat): Byte
    requires d < 16
  {
    if d < 10 then ZERO + d else 87 + d
  }

  function HexValue(c: Byte): Option<nat> {
    if 48 <= c <= 57 then Some(c - 48)
    else if 97 <= c <= 102 then Some(c - 87)
    else if 65 <= c <= 70 then Some(c - 55)
    else None
  }

  function EscapeByte(b: Byte): (r: Bytes)
    ensures |r| > 0 && forall i :: 0 <= i < |r| ==> r[i] >= 0x20
  {
    if b == BACKSLASH then [BACKSLASH, BACKSLASH]
    else if b == QUOTE then [BACKSLASH, QUOTE]
    else if b == 8 then [BACKSLASH, 98]
    else if b == 12 then [BACKSLASH, 102]
    else if b == 10 then [BACKSLASH, 110]
    else if b == 13 then [BACKSLASH, 114]
    else if b == 9 then [BACKSLASH, 116]
    else if b < 0x20 then [BACKSLASH, 117, ZERO, ZERO, HexDigit(b / 16), HexDigit(b % 16)]
    else [b]
  }

  function Escape(s: Bytes): (r: Bytes)
    ensures forall i :: 0 <= i < |r| ==> r[i] >= 0x20
  {
    if s == [] then [] else EscapeByte(s[0]) + Escape(s[1..])
  }

  function Quoted(s: Bytes): Bytes {
    [QUOTE] + Escape(s) + [QUOTE]
  }

  /** UTF-8 of one code point of the basic plane; lone surrogates have none. */
  function Utf8(code: nat): Option<Bytes>
    requires code < 0x10000
  {
    if code < 0x80 then Some([code])
    else if code < 0x800 then Some([0xC0 + code / 64, 0x80 + code % 64])
    else if 0xD800 <= code < 0xE000 then None
    else Some([0xE0 + code / 4096, 0x80 + code / 64 % 64, 0x80 + code % 64])
  }

  function FourHex(t: Bytes): Option<nat>
    requires |t| >= 4
    ensures FourHex(t).Some? ==> FourHex(t).value < 0x10000
  {
    match (HexValue(t[0]), HexValue(t[1]), HexValue(t[2]), HexValue(t[3]))
    case (Some(a), Some(b), Some(c), Some(d)) =>
      if a < 16 && b < 16 && c < 16 && d < 16 then Some(a * 4096 + b * 256 + c * 16 + d) else None
    case _ => None
  }

  /** One character of a string body: its bytes and how much text it took. */
  function ParseChar(t: Bytes): (r: Option<(Bytes, nat)>)
    requires t != []
    ensures r.Some? ==> 0 < r.value.1 <= |t|
  {
    if t[0] < 0x20 || t[0] == QUOTE then None
    else if t[0] != BACKSLASH then Some(([t[0]], 1))
    else if |t| < 2 then None
    else if t[1] in {QUOTE, BACKSLASH, SLASH} then Some(([t[1]], 2))
    else if t[1] == 98 then Some(([8], 2))
    else if t[1] == 102 then Some(([12], 2))
    else if t[1] == 110 then Some(([10], 2))
    else if t[1] == 114 then Some(([13], 2))
    else if t[1] == 116 then Some(([9], 2))
    else if t[1] == 117 && |t| >= 6 then
      match FourHex(t[2..6])
      case None => None
      case Some(code) =>
        match Utf8(code)
        case None => None
        case Some(bytes) => Some((bytes, 6))
    else None
  }

  /** A string body up to and including its closing quote. */
  function ParseChars(t: Bytes): (r: Option<(Bytes, Bytes)>)
    ensures r.Some? ==> |r.value.1| < |t|
    decreases |t|
  {
    if t == [] then None
    else if t[0] == QUOTE then Some(([], t[1..]))
    else
      match ParseChar(t)
      case None => None
      case Some((bytes, used)) =>
        match ParseChars(t[used..])
        case None => None
        case Some((more, rest)) => Some((bytes + more, rest))
  }

  lemma EscapedChar(b: Byte, t: Bytes)
    ensures ParseChar(EscapeByte(b) + t) == Some(([b], |EscapeByte(b)|))
    ensures EscapeByte(b)[0] != QUOTE
  {
    var e := EscapeByte(b);
    if b < 0x20 && b !in {8, 9, 10, 12, 13} {
      assert (e + t)[2..6] == e[2..6];
      assert b / 16 * 16 + b % 16 == b;
    }
  }

  /** Unescaping gives back exactly what was escaped, and stops at the closing quote: the escaped
      text holds no bare quote. */
  lemma {:induction false} CharsRoundTrip(s: Bytes, rest: Bytes)
    ensures ParseChars(Escape(s) + [QUOTE] + rest) == Some((s, rest))
  {
    if s == [] {
      assert Escape(s) + [QUOTE] + rest == [QUOTE] + rest;
    } else {
      var e, tail := EscapeByte(s[0]), Escape(s[1..]) + [QUOTE] + rest;
      CharsRoundTrip(s[1..], rest);
      EscapedChar(s[0], tail);
      assert Escape(s) + [QUOTE] + rest == e + tail;
      assert (e + tail)[|e|..] == tail;
      assert [s[0]] + s[1..] == s;
    }
  }

  // ---------- Numbers (section 6, integers) ----------

  function Digits(n: nat): Bytes {
    (if n < 10 then [] else Digits(n / 10)) + [ZERO + n % 10]
  }

  predicate IsDigit(c: Byte) {
    48 <= c <= 57
  }

  function DigitRun(t: Bytes): (k: nat)
    ensures k <= |t|
    ensures forall i :: 0 <= i < k ==> IsDigit(t[i])
    ensures k < |t| ==> !IsDigit(t[k])
  {
    if t == [] || !IsDigit(t[0]) then 0 else 1 + DigitRun(t[1..])
  }

  function DigitsValue(t: Bytes): nat
    requires forall i :: 0 <= i < |t| ==> IsDigit(t[i])
  {
    if t == [] then 0
    else
      assert IsDigit(t[|t| - 1]);
      10 * DigitsValue(t[..|t| - 1]) + (t[|t| - 1] - 48)
  }

  function PrintNumber(n: int): Bytes {
    if n < 0 then [MINUS] + Digits(-n) else Digits(n)
  }

  /** Digits without a leading zero; a fraction or exponent is not an integer. */
  function ParseDigits(t: Bytes): (r: Option<(nat, Bytes)>)
    ensures r.Some? ==> |r.value.1| < |t|
  {
    var k := DigitRun(t);
    if k == 0 || (k > 1 && t[0] == ZERO) || (k < |t| && t[k] in {46, 69, 101}) then None
    else Some((DigitsValue(t[..k]), t[k..]))
  }

  lemma {:induction false} DigitsProperties(n: nat)
    ensures var d := Digits(n);
            && |d| > 0 && (forall i :: 0 <= i < |d| ==> IsDigit(d[i]))
            && (d[0] == ZERO <==> n == 0) && (n == 0 ==> d == [ZERO])
            && DigitsValue(d) == n
  {
    var d := Digits(n);
    if n >= 10 {
      DigitsProperties(n / 10);
      assert d[..|d| - 1] == Digits(n / 10);
    } else {
      assert d[..0] == [];
    }
  }

  lemma DigitRunIs(t: Bytes, k: nat)
    requires k <= |t| && (forall i :: 0 <= i < k ==> IsDigit(t[i])) && (k < |t| ==> !IsDigit(t[k]))
    ensures DigitRun(t) == k
  {
  }

  /** What may follow a value: nothing, a comma, or a closing bracket or brace. */
  ghost predicate Delimited(rest: Bytes) {
    rest != [] ==> rest[0] in {COMMA, CLOSE_BRACKET, CLOSE_BRACE}
  }

  lemma DigitsRoundTrip(n: nat, rest: Bytes)
    requires Delimited(rest)
    ensures ParseDigits(Digits(n) + rest) == Some((n, rest))
  {
    hide Digits, DigitsValue, DigitRun;
    var d := Digits(n);
    var t := d + rest;
    DigitsProperties(n);
    assert t[..|d|] == d && t[|d|..] == rest;
    assert forall i :: 0 <= i < |d| ==> t[i] == d[i];
    DigitRunIs(t, |d|);
    assert |d| > 1 ==> t[0] != ZERO by {
      assert n == 0 ==> d == [ZERO];
    }
  }

  // ---------- Values ----------

  function Print(v: Value): Bytes
    decreases v
  {
    match v
    case Null => NULL_TEXT
    case Bool(b) => if b then TRUE_TEXT else FALSE_TEXT
    case Number(n) => PrintNumber(n)
    case Str(s) => Quoted(s)
    case Arr(items) => [OPEN_BRACKET] + PrintItems(items) + [CLOSE_BRACKET]
    case Obj(members) => [OPEN_BRACE] + PrintMembers(members) + [CLOSE_BRACE]
  }

  function PrintItems(items: seq<Value>): Bytes
    decreases items
  {
    if items == [] then []
    else Print(items[0]) + (if |items| == 1 then [] else [COMMA] + PrintItems(items[1..]))
  }

  function PrintMember(m: Member): Bytes
    decreases m
  {
    Quoted(m.key) + [COLON] + Print(m.value)
  }

  function PrintMembers(members: seq<Member>): Bytes
    decreases members
  {
    if members == [] then []
    else PrintMember(members[0]) + (if |members| == 1 then [] else [COMMA] + PrintMembers(members[1..]))
  }

  function Parse(t: Bytes): (r: Option<(Value, Bytes)>)
    ensures r.Some? ==> |r.value.1| < |t|
    decreases |t|, 0
  {
    if t == [] then None
    else if t[0] == NULL_TEXT[0] then if NULL_TEXT <= t then Some((Null, t[4..])) else None
    else if t[0] == TRUE_TEXT[0] then if TRUE_TEXT <= t then Some((Bool(true), t[4..])) else None
    else if t[0] == FALSE_TEXT[0] then if FALSE_TEXT <= t then Some((Bool(false), t[5..])) else None
    else if t[0] == QUOTE then
      match ParseChars(t[1..])
      case None => None
      case Some((s, rest)) => Some((Str(s), rest))
    else if t[0] == OPEN_BRACKET then
      if |t| > 1 && t[1] == CLOSE_BRACKET then Some((Arr([]), t[2..]))
      else
        match ParseItems(t[1..])
        case None => None
        case Some((items, rest)) => Some((Arr(items), rest))
    else if t[0] == OPEN_BRACE then
      if |t| > 1 && t[1] == CLOSE_BRACE then Some((Obj([]), t[2..]))
      else
        match ParseMembers(t[1..])
        case None => None
        case Some((members, rest)) => Some((Obj(members), rest))
    else if t[0] == MINUS then
      match ParseDigits(t[1..])
      case None => None
      case Some((n, rest)) => if n == 0 then None else Some((Number(0 - n), rest))
    else
      match ParseDigits(t)
      case None => None
      case Some((n, rest)) => Some((Number(n), rest))
  }

  function ParseItems(t: Bytes): (r: Option<(seq<Value>, Bytes)>)
    ensures r.Some? ==> |r.value.1| < |t|
    decreases |t|, 1
  {
    match Parse(t)
    case None => None
    case Some((v, rest)) =>
      if rest == [] then None
      else if rest[0] == CLOSE_BRACKET then Some(([v], rest[1..]))
      else if rest[0] != COMMA then None
      else
        match ParseItems(rest[1..])
        case None => None
        case Some((more, after)) => Some(([v] + more, after))
  }

  function ParseMember(t: Bytes): (r: Option<(Member, Bytes)>)
    ensures r.Some? ==> |r.value.1| < |t|
    decreases |t|, 1
  {
    if t == [] || t[0] != QUOTE then None
    else
      match ParseChars(t[1..])
      case None => None
      case Some((key, rest)) =>
        if rest == [] || rest[0] != COLON then None
        else
          match Parse(rest[1..])
          case None => None
          case Some((v, after)) => Some((Member(key, v), after))
  }

  function ParseMembers(t: Bytes): (r: Option<(seq<Member>, Bytes)>)
    ensures r.Some? ==> |r.value.1| < |t|
    decreases |t|, 2
  {
    match ParseMember(t)
    case None => None
    case Some((m, rest)) =>
      if rest == [] then None
      else if rest[0] == CLOSE_BRACE then Some(([m], rest[1..]))
      else if rest[0] != COMMA then None
      else
        match ParseMembers(rest[1..])
        case None => None
        case Some((more, after)) => Some(([m] + more, after))
  }

  // ---------- Round trip ----------

  lemma PrintStarts(v: Value)
    ensures |Print(v)| > 0 && Print(v)[0] !in {COMMA, CLOSE_BRACKET, CLOSE_BRACE}
  {
    if v.Number? {
      DigitsProperties(if v.n < 0 then -v.n else v.n);
    }
  }

  /** Which branch of the parser the first byte selects. */
  lemma ParseBranch(t: Bytes)
    requires t != [] && (IsDigit(t[0]) || t[0] == MINUS)
    ensures IsDigit(t[0]) ==> Parse(t) == match ParseDigits(t)
                                          case None => None
                                          case Some((n, rest)) => Some((Number(n), rest))
    ensures t[0] == MINUS ==> Parse(t) == match ParseDigits(t[1..])
                                          case None => None
                                          case Some((n, rest)) => if n == 0 then None else Some((Number(0 - n), rest))
  {
    hide ParseDigits, ParseItems, ParseMembers, ParseChars;
  }

  lemma NumberRoundTrip(n: int, rest: Bytes)
    requires Delimited(rest)
    ensures Parse(PrintNumber(n) + rest) == Some((Number(n), rest))
  {
    hide Parse, ParseDigits, Digits;
    var k := if n < 0 then -n else n;
    var d := Digits(k);
    DigitsProperties(k);
    DigitsRoundTrip(k, rest);
    if n < 0 {
      var t := [MINUS] + (d + rest);
      assert PrintNumber(n) + rest == t && t[1..] == d + rest;
      ParseBranch(t);
    } else {
      assert (d + rest)[0] == d[0];
      ParseBranch(d + rest);
    }
  }

  lemma WordRoundTrip(v: Value, rest: Bytes)
    requires v.Null? || v.Bool?
    ensures Parse(Print(v) + rest) == Some((v, rest))
  {
    hide ParseDigits, ParseItems, ParseMembers, ParseChars;
    var t := Print(v) + rest;
    assert t[|Print(v)|..] == rest && Print(v) <= t;
  }

  lemma StringRoundTrip(s: Bytes, rest: Bytes)
    ensures Parse(Quoted(s) + rest) == Some((Str(s), rest))
    ensures (Quoted(s) + rest)[0] == QUOTE
    ensures ParseChars((Quoted(s) + rest)[1..]) == Some((s, rest))
  {
    hide ParseItems, ParseMembers, ParseDigits, ParseChars, Escape;
    CharsRoundTrip(s, rest);
    assert (Quoted(s) + rest)[1..] == Escape(s) + [QUOTE] + rest;
  }

  /** Parsing a printed value followed by any delimiter gives the value back and stops there. */
  lemma {:induction false} RoundTrip(v: Value, rest: Bytes)
    requires Delimited(rest)
    ensures Parse(Print(v) + rest) == Some((v, rest))
    decreases v, 0
  {
    hide Parse;
    match v
    case Null =>
      WordRoundTrip(v, rest);
    case Bool(b) =>
      WordRoundTrip(v, rest);
    case Number(n) =>
      NumberRoundTrip(n, rest);
    case Str(s) =>
      StringRoundTrip(s, rest);
    case Arr(items) =>
      if items != [] { ItemsRoundTrip(items, rest); }
      ParseArray(items, rest);
    case Obj(members) =>
      if members != [] { MembersRoundTrip(members, rest); }
      ParseObject(members, rest);
  }

  lemma ParseArray(items: seq<Value>, rest: Bytes)
    requires items != [] ==> ParseItems(PrintItems(items) + [CLOSE_BRACKET] + rest) == Some((items, rest))
    ensures Parse(Print(Arr(items)) + rest) == Some((Arr(items), rest))
  {
    hide ParseItems, ParseMembers, ParseChars, ParseDigits;
    var body := PrintItems(items) + [CLOSE_BRACKET] + rest;
    assert Print(Arr(items)) + rest == [OPEN_BRACKET] + body;
    assert ([OPEN_BRACKET] + body)[1..] == body;
    if items == [] {
      assert ([OPEN_BRACKET] + body)[2..] == rest;
    } else {
      PrintStarts(items[0]);
      assert body[0] == Print(items[0])[0];
    }
  }

  lemma ParseObject(members: seq<Member>, rest: Bytes)
    requires members != [] ==> ParseMembers(PrintMembers(members) + [CLOSE_BRACE] + rest) == Some((members, rest))
    ensures Parse(Print(Obj(members)) + rest) == Some((Obj(members), rest))
  {
    hide ParseItems, ParseMembers, ParseChars, ParseDigits;
    var body := PrintMembers(members) + [CLOSE_BRACE] + rest;
    assert Print(Obj(members)) + rest == [OPEN_BRACE] + body;
    assert ([OPEN_BRACE] + body)[1..] == body;
    if members == [] {
      assert ([OPEN_BRACE] + body)[2..] == rest;
    } else {
      assert body[0] == PrintMember(members[0])[0] == QUOTE;
    }
  }

  lemma PrintItemsSplit(xs: seq<Value>, rest: Bytes)
    requires xs != []
    ensures PrintItems(xs) + rest ==
            Print(xs[0]) + (if |xs| == 1 then rest else [COMMA] + (PrintItems(xs[1..]) + rest))
  {
    hide Print;
  }

  lemma PrintMembersSplit(xs: seq<Member>, rest: Bytes)
    requires xs != []
    ensures PrintMembers(xs) + rest ==
            PrintMember(xs[0]) + (if |xs| == 1 then rest else [COMMA] + (PrintMembers(xs[1..]) + rest))
  {
    hide PrintMember;
  }

  lemma ParseItemsLast(t: Bytes, x: Value, rest: Bytes)
    requires Parse(t) == Some((x, [CLOSE_BRACKET] + rest))
    ensures ParseItems(t) == Some(([x], rest))
  {
    hide Parse;
    assert ([CLOSE_BRACKET] + rest)[1..] == rest;
  }

  lemma ParseItemsMore(t: Bytes, x: Value, next: Bytes, more: seq<Value>, rest: Bytes)
    requires Parse(t) == Some((x, [COMMA] + next)) && ParseItems(next) == Some((more, rest))
    ensures ParseItems(t) == Some(([x] + more, rest))
  {
    hide Parse;
    assert ([COMMA] + next)[1..] == next;
  }

  lemma ParseMembersLast(t: Bytes, x: Member, rest: Bytes)
    requires ParseMember(t) == Some((x, [CLOSE_BRACE] + rest))
    ensures ParseMembers(t) == Some(([x], rest))
  {
    hide ParseMember;
    assert ([CLOSE_BRACE] + rest)[1..] == rest;
  }

  lemma ParseMembersMore(t: Bytes, x: Member, next: Bytes, more: seq<Member>, rest: Bytes)
    requires ParseMember(t) == Some((x, [COMMA] + next)) && ParseMembers(next) == Some((more, rest))
    ensures ParseMembers(t) == Some(([x] + more, rest))
  {
    hide ParseMember;
    assert ([COMMA] + next)[1..] == next;
  }

  lemma {:induction false} ItemsRoundTrip(items: seq<Value>, rest: Bytes)
    requires items != []
    ensures ParseItems(PrintItems(items) + [CLOSE_BRACKET] + rest) == Some((items, rest))
    decreases items
  {
    hide Parse, Print, ParseItems, PrintItems;
    var after := [CLOSE_BRACKET] + rest;
    var t := PrintItems(items) + [CLOSE_BRACKET] + rest;
    assert t == PrintItems(items) + after;
    PrintItemsSplit(items, after);
    if |items| == 1 {
      RoundTrip(items[0], after);
      assert items == [items[0]];
      ParseItemsLast(t, items[0], rest);
    } else {
      var next := PrintItems(items[1..]) + [CLOSE_BRACKET] + rest;
      assert next == PrintItems(items[1..]) + after;
      RoundTrip(items[0], [COMMA] + next);
      ItemsRoundTrip(items[1..], rest);
      assert items == [items[0]] + items[1..];
      ParseItemsMore(t, items[0], next, items[1..], rest);
    }
  }

  lemma {:induction false} MemberRoundTrip(m: Member, rest: Bytes)
    requires Delimited(rest)
    ensures ParseMember(PrintMember(m) + rest) == Some((m, rest))
    ensures PrintMember(m)[0] == QUOTE
    decreases m
  {
    hide Parse, ParseChars, Print, Escape;
    var after := [COLON] + (Print(m.value) + rest);
    StringRoundTrip(m.key, after);
    RoundTrip(m.value, rest);
    assert PrintMember(m) + rest == Quoted(m.key) + after;
  }

  lemma {:induction false} MembersRoundTrip(members: seq<Member>, rest: Bytes)
    requires members != []
    ensures ParseMembers(PrintMembers(members) + [CLOSE_BRACE] + rest) == Some((members, rest))
    decreases members
  {
    hide ParseMember, PrintMember, ParseMembers, PrintMembers;
    var after := [CLOSE_BRACE] + rest;
    var t := PrintMembers(members) + [CLOSE_BRACE] + rest;
    assert t == PrintMembers(members) + after;
    PrintMembersSplit(members, after);
    if |members| == 1 {
      MemberRoundTrip(members[0], after);
      assert members == [members[0]];
      ParseMembersLast(t, members[0], rest);
    } else {
      var next := PrintMembers(members[1..]) + [CLOSE_BRACE] + rest;
      assert next == PrintMembers(members[1..]) + after;
      MemberRoundTrip(members[0], [COMMA] + next);
      MembersRoundTrip(members[1..], rest);
      assert members == [members[0]] + members[1..];
      ParseMembersMore(t, members[0], next, members[1..], rest);
    }
  }
}
