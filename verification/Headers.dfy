/** Header lines: names in their canonical spelling, the parser, the printer and the table. */
module Headers {
  import opened Strings

  const HEADERS_MAX_NUM: nat := 32
  const HEADER_NAME_MAX_LEN: nat := 128
  const HEADER_VALUE_MAX_LEN: nat := 2048
  const CRLF: string := "\r\n"

  datatype Header = Header(name: string, value: string)

  // ---------- the canonical spelling ----------

  function Upper(c: char): char { if 'a' <= c <= 'z' then (c as int - 32) as char else c }
  function Lower(c: char): char { if 'A' <= c <= 'Z' then (c as int + 32) as char else c }

  function LowerAll(s: string): (r: string)
    ensures |r| == |s| && forall i | 0 <= i < |s| :: r[i] == Lower(s[i])
  {
    seq(|s|, i requires 0 <= i < |s| => Lower(s[i]))
  }

  /** Whether a letter starts a word of the name. */
  predicate Starts(s: string, i: nat)
    requires i < |s|
  {
    i == 0 || s[i - 1] == '-'
  }

  function Formatted(s: string): (r: string)
    ensures |r| == |s| && forall i | 0 <= i < |s| :: r[i] == if Starts(s, i) then Upper(s[i]) else s[i]
  {
    seq(|s|, i requires 0 <= i < |s| => if Starts(s, i) then Upper(s[i]) else s[i])
  }

  function Canonical(s: string): string { Formatted(LowerAll(s)) }

  lemma LowerCanonical(s: string)
    ensures LowerAll(Canonical(s)) == LowerAll(s)
  {
    hide Lower, Upper, LowerAll, Formatted, Starts;
    forall i | 0 <= i < |s| ensures LowerAll(Canonical(s))[i] == LowerAll(s)[i] {
      LowerTwice(s[i]);
      assert LowerAll(s)[i] == Lower(s[i]);
    }
  }

  lemma LowerTwice(c: char)
    ensures Lower(Lower(c)) == Lower(c) && Lower(Upper(Lower(c))) == Lower(c)
  {
  }

  /** Canonical names do not change, and two spellings have the same canonical name exactly when they differ
      in case only. */
  lemma CanonicalNames(s: string, t: string)
    ensures Canonical(Canonical(s)) == Canonical(s)
    ensures Canonical(s) == Canonical(t) <==> LowerAll(s) == LowerAll(t)
  {
    LowerCanonical(s);
    LowerCanonical(t);
  }

  /** A small letter, and the capital with the code 32 below it. */
  predicate Capital(small: char, large: char) { 'a' <= small <= 'z' && large as int == small as int - 32 }

  /** The letter at the start of a name, or behind a dash, is a capital, all others are small, and nothing else
      changes. */
  lemma Capitals(s: string, i: nat)
    requires i < |s|
    ensures var c, start := Canonical(s)[i], i == 0 || s[i - 1] == '-';
      && ('a' <= s[i] <= 'z' ==> if start then Capital(s[i], c) else c == s[i])
      && ('A' <= s[i] <= 'Z' ==> if start then c == s[i] else Capital(c, s[i]))
      && (!('a' <= s[i] <= 'z') && !('A' <= s[i] <= 'Z') ==> c == s[i])
  {
  }

  /** Two names that differ in capitals only. */
  predicate SameButCase(s: string, t: string) {
    |s| == |t| && forall i | 0 <= i < |s| :: s[i] == t[i] || Capital(s[i], t[i]) || Capital(t[i], s[i])
  }

  lemma SameCanonical(s: string, t: string)
    ensures Canonical(s) == Canonical(t) <==> SameButCase(s, t)
  {
    hide Canonical, LowerAll, Lower, Capital;
    CanonicalNames(s, t);
    if |s| == |t| {
      forall i | 0 <= i < |s| ensures LowerAll(s)[i] == LowerAll(t)[i] <==> s[i] == t[i] || Capital(s[i], t[i]) || Capital(t[i], s[i]) {
        LowerSame(s[i], t[i]);
      }
    }
  }

  lemma LowerSame(a: char, b: char)
    ensures Lower(a) == Lower(b) <==> a == b || Capital(a, b) || Capital(b, a)
  {
  }

  /** However it is written, the header that sets a cookie is found by one name. */
  lemma CookieName(s: string)
    ensures Canonical(s) == "Set-Cookie" <==> SameButCase(s, "set-cookie")
  {
    var t := "set-cookie";
    forall i | 0 <= i < |t| ensures Canonical(t)[i] == "Set-Cookie"[i] { Capitals(t, i); }
    assert Canonical(t) == "Set-Cookie";
    SameCanonical(s, t);
  }

  /** `strtolower`, in place. */
  method StrToLower(name: array<char>, n: nat)
    requires n <= name.Length
    modifies name
    ensures name[..] == LowerAll(old(name[..n])) + old(name[n..])
  {
    for i := 0 to n
      invariant name[..i] == LowerAll(old(name[..n]))[..i] && name[i..] == old(name[i..])
    {
      name[i] := Lower(name[i]);
    }
  }

  /** Formatted as far as `upto`. */
  ghost predicate Half(s: string, cur: string, upto: nat) {
    |cur| == |s| && forall i | 0 <= i < |s| :: cur[i] == if i < upto then Formatted(s)[i] else s[i]
  }

  lemma InsideWord(s: string, cur: string, p: nat, i: nat)
    requires Half(s, cur, p + 1) && p < i < |s| && cur[i - 1] != '-'
    ensures cur[i] == Formatted(s)[i]
  {
    assert Formatted(s)[i - 1] == if Starts(s, i - 1) then Upper(s[i - 1]) else s[i - 1];
  }

  lemma WordStart(s: string, cur: string, p: nat, i: nat)
    requires Half(s, cur, p + 1) && p < i < |s| && cur[i - 1] == '-'
    ensures Upper(cur[i]) == Formatted(s)[i]
  {
    assert Formatted(s)[i - 1] == if Starts(s, i - 1) then Upper(s[i - 1]) else s[i - 1];
  }

  lemma HalfStep(s: string, cur: string, p: nat, dash: nat)
    requires Half(s, cur, p + 1) && p <= dash <= |s|
    requires forall i | p <= i < dash :: cur[i] != '-'
    requires dash < |s| ==> cur[dash] == '-'
    ensures Half(s, cur, dash + 1)
    ensures dash + 1 < |s| ==> Half(s, cur[dash + 1 := Upper(cur[dash + 1])], dash + 2)
  {
    hide Formatted, Starts, Upper;
    forall i | p < i <= dash && i < |s| ensures cur[i] == Formatted(s)[i] { InsideWord(s, cur, p, i); }
    if dash + 1 < |s| { WordStart(s, cur, p, dash + 1); }
  }

  method FindDash(name: array<char>, from: nat, n: nat) returns (dash: nat)
    requires from <= n <= name.Length
    ensures from <= dash <= n && (forall i | from <= i < dash :: name[i] != '-') && (dash < n ==> name[dash] == '-')
  {
    dash := from;
    while dash < n && name[dash] != '-'
      invariant from <= dash <= n && forall i | from <= i < dash :: name[i] != '-'
    {
      dash := dash + 1;
    }
  }

  /** `header_formatname`, in place, on a name of n characters and its final zero. */
  method FormatName(name: array<char>, n: nat)
    requires n < name.Length && name[n] == '\0'
    modifies name
    ensures name[..] == Formatted(old(name[..n])) + old(name[n..])
  {
    hide Formatted;
    ghost var s, rest := name[..n], name[n..];
    FirstUpper(s);
    var ptr := 0;
    name[ptr] := Upper(name[ptr]);
    while true
      invariant ptr <= n && name[n..] == rest && name[n] == '\0' && Half(s, name[..n], ptr + 1)
      decreases n - ptr
    {
      var dash := FindDash(name, ptr, n);
      HalfStep(s, name[..n], ptr, dash);
      if dash >= n { break; }
      ptr := dash + 1;
      name[ptr] := Upper(name[ptr]);
    }
    HalfAll(s, name[..n]);
  }

  lemma FirstUpper(s: string)
    ensures s != "" ==> Half(s, s[0 := Upper(s[0])], 1)
    ensures s == "" ==> Half(s, s, 1)
  {
  }

  lemma HalfAll(s: string, cur: string)
    requires Half(s, cur, |s|) || Half(s, cur, |s| + 1)
    ensures cur == Formatted(s)
  {
  }

  /** The canonical spelling of a name, made in a copy of it. */
  method Canonicalise(name: string) returns (r: string)
    requires '\0' !in name
    ensures r == Canonical(name)
  {
    hide Formatted, LowerAll;
    var n := |name|;
    var copy := new char[n + 1](i requires 0 <= i <= n => if i < |name| then name[i] else '\0');
    assert copy[..n] == name;
    StrToLower(copy, n);
    assert copy[..n] == LowerAll(name) && copy[n] == copy[n..][0];
    FormatName(copy, n);
    r := copy[..n];
  }

  // ---------- searching ----------

  predicate CrlfAt(s: string, i: nat) { i + 2 <= |s| && s[i] == '\r' && s[i + 1] == '\n' }

  /** Where the first line end is, or the end of the string. */
  function FindCrlf(s: string): (k: nat)
    ensures k <= |s| && (k < |s| ==> CrlfAt(s, k)) && forall i | 0 <= i < k :: !CrlfAt(s, i)
  {
    if s == "" || CrlfAt(s, 0) then 0 else
      var k := 1 + FindCrlf(s[1..]);
      assert forall i | 0 < i < k :: CrlfAt(s, i) == CrlfAt(s[1..], i - 1);
      k
  }

  /** How many spaces a string starts with. */
  function Spaces(s: string): (k: nat)
    ensures k <= |s| && (k < |s| ==> s[k] != ' ')
  {
    if s == "" || s[0] != ' ' then 0 else 1 + Spaces(s[1..])
  }

  function Smallest(x: nat, y: nat): nat { if x <= y then x else y }

  // ---------- the parser ----------

  /** The header block has ended. */
  predicate Ended(s: string) { CrlfAt(s, 0) || s == "" || s[0] == '\n' }

  /** The first line, if it is one: its header, cut to size, and what follows. */
  function Line(s: string): (r: (bool, Header, string))
    ensures r.0 ==> |r.2| < |s|
  {
    var none := (false, Header("", ""), s);
    var colon := Find(s, ':');
    if colon == |s| || colon == 0 then none else
      var name := Canonical(s[..Smallest(colon, HEADER_NAME_MAX_LEN - 1)]);
      var rest := s[colon + 1..][Spaces(s[colon + 1..])..];
      var end := FindCrlf(rest);
      if end == |rest| then none else
        (true, Header(name, rest[..Smallest(end, HEADER_VALUE_MAX_LEN - 1)]), rest[end + 2..])
  }

  /** At most `room` headers of a block. */
  function Parsed(s: string, room: nat): (r: seq<Header>)
    ensures |r| <= room
    decreases room
  {
    if room == 0 || Ended(s) || !Line(s).0 then [] else [Line(s).1] + Parsed(Line(s).2, room - 1)
  }

  /** `headers_parse` */
  method HeadersParse(raw: string) returns (list: seq<Header>)
    requires '\0' !in raw
    ensures list == Parsed(raw, HEADERS_MAX_NUM)
  {
    hide Parsed, Ended, Line;
    list := [];
    var rest := raw;
    while |list| < HEADERS_MAX_NUM && !Ended(rest)
      invariant |list| <= HEADERS_MAX_NUM && '\0' !in rest
      invariant list + Parsed(rest, HEADERS_MAX_NUM - |list|) == Parsed(raw, HEADERS_MAX_NUM)
      decreases |rest|
    {
      ParsedIs(rest, HEADERS_MAX_NUM - |list|);
      var ok, header, next := ParseLine(rest);
      if !ok { return; }
      list, rest := list + [header], next;
    }
    ParsedIs(rest, HEADERS_MAX_NUM - |list|);
  }

  lemma ParsedIs(s: string, room: nat)
    ensures Parsed(s, room) ==
      if room == 0 || Ended(s) || !Line(s).0 then [] else [Line(s).1] + Parsed(Line(s).2, room - 1)
  {
  }

  /** One turn of the loop. */
  method ParseLine(s: string) returns (ok: bool, header: Header, next: string)
    requires '\0' !in s
    ensures (ok, header, next) == Line(s) && '\0' !in next
    ensures ok ==> |next| < |s|
  {
    hide Canonical, Find, FindCrlf, Spaces;
    header, next, ok := Header("", ""), s, false;
    var ptr := Find(s, ':');
    if ptr == |s| || ptr == 0 { return; }
    var name := Canonicalise(s[..Smallest(ptr, HEADER_NAME_MAX_LEN - 1)]);
    var rest := s[ptr + 1..];
    rest := rest[Spaces(rest)..];
    ptr := FindCrlf(rest);
    if ptr == |rest| { return; }
    header := Header(name, rest[..Smallest(ptr, HEADER_VALUE_MAX_LEN - 1)]);
    next := rest[ptr + 2..];
    ok := true;
  }

  // ---------- the printer, and the round trip ----------

  function Printed(list: seq<Header>): string {
    if list == [] then CRLF else list[0].name + ": " + list[0].value + CRLF + Printed(list[1..])
  }

  /** Two headers in print. */
  lemma PrintedTwo(name: string, value: string, name2: string, value2: string)
    ensures Printed([Header(name, value), Header(name2, value2)])
      == name + ": " + value + "\r\n" + (name2 + ": " + value2 + "\r\n" + "\r\n")
    ensures Printed([]) == "\r\n"
  {
    assert [Header(name, value), Header(name2, value2)][1..] == [Header(name2, value2)];
    assert [Header(name2, value2)][1..] == [];
    assert Printed([Header(name2, value2)]) == name2 + ": " + value2 + "\r\n" + "\r\n";
  }

  /** `headers_to_string` */
  method HeadersToString(list: seq<Header>) returns (str: string)
    ensures str == Printed(list)
  {
    str := "";
    for i := 0 to |list|
      invariant str + Printed(list[i..]) == Printed(list)
    {
      assert list[i..][1..] == list[i + 1..];
      Chain(str, list[i].name, ": ", list[i].value, CRLF, Printed(list[i + 1..]));
      str := str + list[i].name;
      str := str + ": ";
      str := str + list[i].value;
      str := str + CRLF;
    }
    assert list[|list|..] == [];
    str := str + CRLF;
  }

  lemma Chain(a: string, b: string, c: string, d: string, e: string, f: string)
    ensures a + (b + c + d + e + f) == a + b + c + d + e + f
  {
  }

  /** What can be printed and read back: a name in its canonical spelling without a colon or a line break, a
      value without a line end that does not start with a space, and both in bounds. */
  predicate Printable(h: Header) {
    && 0 < |h.name| < HEADER_NAME_MAX_LEN && Canonical(h.name) == h.name
    && ':' !in h.name && '\r' !in h.name && '\n' !in h.name
    && |h.value| < HEADER_VALUE_MAX_LEN && (h.value != "" ==> h.value[0] != ' ')
    && forall i | 0 <= i < |h.value| :: !CrlfAt(h.value, i)
  }

  lemma {:induction false} FindCrlfAt(s: string, k: nat)
    requires k < |s| && CrlfAt(s, k) && forall i | 0 <= i < k :: !CrlfAt(s, i)
    ensures FindCrlf(s) == k
  {
    var j := FindCrlf(s);
    assert j <= k && (j < |s| ==> CrlfAt(s, j));
  }

  function Blanks(k: nat): string { seq(k, _ => ' ') }

  lemma {:induction false} SkipBlanks(k: nat, t: string)
    requires t == "" || t[0] != ' '
    ensures (Blanks(k) + t)[Spaces(Blanks(k) + t)..] == t
    ensures Spaces(Blanks(k) + t) == k
  {
    if k > 0 {
      assert (Blanks(k) + t)[1..] == Blanks(k - 1) + t;
      SkipBlanks(k - 1, t);
    }
    assert (Blanks(k) + t)[k..] == t;
  }

  lemma NameEnd(name: string, k: nat, t: string)
    requires ':' !in name && (t != "" ==> t[0] != ' ')
    ensures var s := name + ":" + Blanks(k) + t;
      && |name| < |s| && Find(s, ':') == |name| && s[..|name|] == name
      && s[|name| + 1..] == Blanks(k) + t && s[|name| + 1..][Spaces(s[|name| + 1..])..] == t
  {
    hide Spaces;
    var s := name + ":" + Blanks(k) + t;
    assert s[..|name|] == name && s[|name|] == ':' && s[|name| + 1..] == Blanks(k) + t;
    FindAt(s, ':', |name|);
    SkipBlanks(k, t);
  }

  lemma LineOf(s: string, colon: nat, t: string, end: nat)
    requires 0 < colon < |s| && Find(s, ':') == colon && t == s[colon + 1..][Spaces(s[colon + 1..])..]
    requires end == FindCrlf(t) < |t|
    ensures end + 2 <= |t|
    ensures Line(s) == (true, Header(Canonical(s[..if colon < 128 then colon else 127]), t[..if end < 2048 then end else 2047]), t[end + 2..])
  {
    hide Find, FindCrlf, Spaces, Canonical;
  }

  /** Any line: a name up to the first colon, any number of spaces, and a value up to the next line end. The name
      is cut to 127 characters and the value to 2047. */
  lemma LineMeans(name: string, k: nat, value: string, rest: string)
    requires name != "" && ':' !in name && (value != "" ==> value[0] != ' ') && forall i | 0 <= i < |value| :: !CrlfAt(value, i)
    ensures Line(name + ":" + Blanks(k) + (value + CRLF + rest))
      == (true, Header(Canonical(name[..if |name| < 128 then |name| else 127]), value[..if |value| < 2048 then |value| else 2047]), rest)
  {
    hide Canonical, Line, Find, FindCrlf, Spaces;
    var t := value + CRLF + rest;
    NameEnd(name, k, t);
    ValueEnd(value, rest);
    var s := name + ":" + Blanks(k) + t;
    LineOf(s, |name|, t, |value|);
    Prefixes(name, s, if |name| < 128 then |name| else 127);
    Prefixes(value, t, if |value| < 2048 then |value| else 2047);
    assert t[|value| + 2..] == rest;
  }

  lemma Prefixes(a: string, s: string, n: nat)
    requires |a| <= |s| && s[..|a|] == a && n <= |a|
    ensures s[..n] == a[..n]
  {
  }

  /** Where the parser stops: at an empty line, at a line feed, at the end, and at a line without a colon, without a
      name before it, or without a line end. */
  lemma Stops(s: string, room: nat)
    requires s == "" || s[0] == '\n' || CRLF <= s || ':' !in s || s[0] == ':' || (forall i | 0 <= i < |s| :: !CrlfAt(s, i))
    ensures Parsed(s, room) == []
  {
    hide Line;
    ParsedIs(s, room);
    if !Ended(s) { NoLine(s); }
  }

  lemma NoLine(s: string)
    requires s != "" && (':' !in s || s[0] == ':' || (forall i | 0 <= i < |s| :: !CrlfAt(s, i)))
    ensures !Line(s).0
  {
    hide Canonical, CrlfAt;
    var colon := Find(s, ':');
    if 0 < colon < |s| {
      assert s[0] in s[..colon] && s[colon] in s;
      LaterCrlf(s, colon + 1);
      LaterCrlf(s[colon + 1..], Spaces(s[colon + 1..]));
    }
  }

  lemma LaterCrlf(s: string, k: nat)
    requires k <= |s| && forall i | 0 <= i < |s| :: !CrlfAt(s, i)
    ensures forall i | 0 <= i < |s[k..]| :: !CrlfAt(s[k..], i)
  {
    forall i | 0 <= i < |s| - k ensures !CrlfAt(s[k..], i) { assert !CrlfAt(s, k + i); }
  }

  /** A printed line is read back, whatever follows it. */
  lemma LineRoundTrip(h: Header, rest: string)
    requires Printable(h)
    ensures !Ended(h.name + ": " + h.value + CRLF + rest)
    ensures Line(h.name + ": " + h.value + CRLF + rest) == (true, h, rest)
  {
    hide Canonical, Line;
    var t := h.value + CRLF + rest;
    LineMeans(h.name, 1, h.value, rest);
    assert Blanks(1) == " " && h.name[..|h.name|] == h.name && h.value[..|h.value|] == h.value;
    assert h.name + ": " + h.value + CRLF + rest == h.name + ":" + Blanks(1) + t;
  }

  lemma ValueEnd(value: string, rest: string)
    requires forall i | 0 <= i < |value| :: !CrlfAt(value, i)
    ensures FindCrlf(value + CRLF + rest) == |value|
  {
    var t := value + CRLF + rest;
    forall i | 0 <= i < |value| ensures !CrlfAt(t, i) {
      assert !CrlfAt(value, i);
      assert t[i] == value[i] && (i + 1 < |value| ==> t[i + 1] == value[i + 1]) && (i + 1 == |value| ==> t[i + 1] == '\r');
    }
    assert CrlfAt(t, |value|);
    FindCrlfAt(t, |value|);
  }

  /** What was printed is read back, as far as there is room. */
  lemma {:induction false} RoundTrip(list: seq<Header>, room: nat)
    requires forall h | h in list :: Printable(h)
    ensures Parsed(Printed(list), room) == if |list| <= room then list else list[..room]
    decreases |list|
  {
    hide Printable, Line, Canonical, Parsed;
    ParsedIs(Printed(list), room);
    if list == [] {
      assert Ended(CRLF);
    } else if room > 0 {
      assert list[0] in list;
      LineRoundTrip(list[0], Printed(list[1..]));
      RoundTrip(list[1..], room - 1);
      OneMore(list, room);
    }
  }

  lemma OneMore(list: seq<Header>, room: nat)
    requires list != [] && room > 0
    ensures list == [list[0]] + list[1..] && (room < |list| ==> list[..room] == [list[0]] + list[1..][..room - 1])
  {
  }

  // ---------- the table ----------

  /** The first header of a name. */
  function Lookup(list: seq<Header>, name: string): (k: nat)
    ensures k <= |list| && (k < |list| ==> list[k].name == name) && forall i | 0 <= i < k :: list[i].name != name
  {
    if list == [] || list[0].name == name then 0 else
      var k := 1 + Lookup(list[1..], name);
      assert forall i | 0 < i < k :: list[i] == list[1..][i - 1];
      k
  }

  class Headers {
    var list: seq<Header>

    ghost predicate Valid()
      reads this
    {
      |list| <= HEADERS_MAX_NUM && forall i | 0 <= i < |list| :: Canonical(list[i].name) == list[i].name
    }

    constructor ()
      ensures Valid() && list == []
    {
      list := [];
    }

    /** `headers_get_header`: the position of the header, or the number of headers. */
    method Get(name: string) returns (k: nat)
      requires '\0' !in name
      ensures k == Lookup(list, Canonical(name))
    {
      hide Lookup, Canonical;
      var canonical := Canonicalise(name);
      k := 0;
      while k < |list|
        invariant k <= |list| && forall i | 0 <= i < k :: list[i].name != canonical
      {
        if list[k].name == canonical { break; }
        k := k + 1;
      }
    }

    /** Whether `headers_set_header` writes within the table and the two buffers of the header. */
    predicate Holds(name: string, value: string)
      reads this
    {
      && |value| < HEADER_VALUE_MAX_LEN
      && (Creates(name) ==> |name| < HEADER_NAME_MAX_LEN && |list| < HEADERS_MAX_NUM)
    }

    /** One header of each name, but a new one for each cookie that is set. */
    predicate Creates(name: string)
      reads this
    {
      Canonical(name) == "Set-Cookie" || Lookup(list, Canonical(name)) == |list|
    }

    /** `headers_set_header`. Nothing is checked there: the table takes the header exactly when it holds. */
    method Set(name: string, value: string) returns (ok: bool, k: nat)
      requires Valid() && '\0' !in name && '\0' !in value
      modifies this
      ensures ok == old(Holds(name, value))
      ensures !ok ==> list == old(list)
      ensures ok ==> Valid() && k < |list| && list[k] == Header(Canonical(name), value)
      ensures ok ==> k == if old(Creates(name)) then |old(list)| else Lookup(old(list), Canonical(name))
      ensures ok ==> list == if k < |old(list)| then old(list)[k := list[k]] else old(list) + [list[k]]
      ensures ok && Canonical(name) != "Set-Cookie" ==> Lookup(list, Canonical(name)) == k
    {
      hide Lookup, Canonical;
      CanonicalNames(name, name);
      k := Get(name);
      if k == |list| || list[k].name == "Set-Cookie" {
        k := |list|;
        if k == HEADERS_MAX_NUM || |name| >= HEADER_NAME_MAX_LEN || |value| >= HEADER_VALUE_MAX_LEN { return false, k; }
        var canonical := Canonicalise(name);
        list := list + [Header(canonical, "")];
      }
      if |value| >= HEADER_VALUE_MAX_LEN { return false, k; }
      list := list[k := list[k].(value := value)];
      ok := true;
    }
  }

  /** Two cookies are two headers, however their name is written. */
  method SetCookies(h: Headers, name: string, value: string, again: string, other: string)
    requires h.Valid() && SameButCase(name, "set-cookie") && SameButCase(again, "set-cookie") && '\0' !in name && '\0' !in again
    requires '\0' !in value && '\0' !in other && |value| < 2048 && |other| < 2048 && |h.list| < 31
    modifies h
    ensures h.Valid() && h.list == old(h.list) + [Header("Set-Cookie", value), Header("Set-Cookie", other)]
  {
    hide Canonical, Lookup;
    CookieName(name);
    CookieName(again);
    var ok, k := h.Set(name, value);
    ok, k := h.Set(again, other);
  }

  /** Any other header is there once: setting it again, in whatever spelling, replaces its value. */
  method SetAgain(h: Headers, name: string, value: string, again: string, other: string) returns (k: nat)
    requires h.Valid() && SameButCase(name, again) && !SameButCase(name, "set-cookie") && '\0' !in name && '\0' !in again
    requires '\0' !in value && '\0' !in other && |value| < 2048 && |other| < 2048 && |h.list| < 32 && |name| < 128
    modifies h
    ensures h.Valid() && k < |h.list| && h.list[k] == Header(Canonical(name), other)
    ensures h.list == if k < |old(h.list)| then old(h.list)[k := h.list[k]] else old(h.list) + [h.list[k]]
  {
    hide Canonical, Lookup;
    CookieName(name);
    SameCanonical(name, again);
    var ok;
    ok, k := h.Set(name, value);
    var first := k;
    ok, k := h.Set(again, other);
    assert k == first;
  }
}
