/** Query strings: the parser that scans with two pointers, and the generator. Characters are bytes. */
module Params {
  import opened Strings

  const PARAMS_NAME_MAX_LEN: nat := 128

  datatype Param = Param(name: string, value: string, valueLen: nat, kind: int)

  // ---------- C strings ----------

  /** The characters before the final zero. */
  function CString(s: string): (r: string)
    ensures '\0' !in r && |r| <= |s|
  {
    s[..Find(s, '\0')]
  }

  // ---------- url_decode ----------

  predicate IsHex(c: char) { '0' <= c <= '9' || 'A' <= c <= 'F' || 'a' <= c <= 'f' }

  function HexValue(c: char): nat
    requires IsHex(c)
  {
    if c >= 'a' then (c - 'a') as nat + 10 else if c >= 'A' then (c - 'A') as nat + 10 else (c - '0') as nat
  }

  /** `xtoi` on two characters: it stops at the first, from the right, that is no hexadecimal digit. */
  function HexPair(a: char, b: char): (n: nat)
    ensures n < 256
  {
    if !IsHex(b) then 0 else if !IsHex(a) then HexValue(b) else 16 * HexValue(a) + HexValue(b)
  }

  /** What `url_decode` makes of a string without zeros; the table of codes has 256 entries. A percent sign
      with fewer than two characters after it ends the loop, and what stands before it comes twice. */
  function Decoded(codes: seq<string>, s: string): string
    requires |codes| == 256
    decreases |s|
  {
    var k := Find(s, '%');
    if k == |s| then s
    else if k + 2 >= |s| then s[..k] + s
    else s[..k] + codes[HexPair(s[k + 1], s[k + 2])] + Decoded(codes, s[k + 3..])
  }

  /** What is meant: a code that is cut off stays as it stands. */
  function Wanted(codes: seq<string>, s: string): string
    requires |codes| == 256
    decreases |s|
  {
    var k := Find(s, '%');
    if k + 2 >= |s| then s
    else s[..k] + codes[HexPair(s[k + 1], s[k + 2])] + Wanted(codes, s[k + 3..])
  }

  /** How many characters stand between the last whole code and a code that is cut off: none when the string
      has no such code. */
  function Repeated(s: string): nat
    decreases |s|
  {
    var k := Find(s, '%');
    if k == |s| then 0 else if k + 2 >= |s| then k else Repeated(s[k + 3..])
  }

  /** The decoder returns what is meant exactly when nothing stands before a code that is cut off; otherwise
      just those characters come twice. */
  lemma {:induction false} DecodedMeans(codes: seq<string>, s: string)
    requires |codes| == 256
    ensures |Decoded(codes, s)| == |Wanted(codes, s)| + Repeated(s)
    ensures Decoded(codes, s) == Wanted(codes, s) <==> Repeated(s) == 0
    decreases |s|
  {
    var k := Find(s, '%');
    if k + 2 < |s| {
      DecodedMeans(codes, s[k + 3..]);
      var head := s[..k] + codes[HexPair(s[k + 1], s[k + 2])];
      assert Decoded(codes, s) == head + Decoded(codes, s[k + 3..]) && Wanted(codes, s) == head + Wanted(codes, s[k + 3..]);
      assert Decoded(codes, s)[|head|..] == Decoded(codes, s[k + 3..]) && Wanted(codes, s)[|head|..] == Wanted(codes, s[k + 3..]);
    } else if k < |s| {
      assert k == 0 ==> s[..k] + s == s;
    }
  }

  /** No code of the table is longer than the three characters it is written with. */
  predicate Short(codes: seq<string>) { |codes| == 256 && forall i | 0 <= i < 256 :: |codes[i]| <= 3 }

  /** A buffer of the size of the undecoded string holds the decoded one, unless characters come twice. */
  lemma {:induction false} WantedFits(codes: seq<string>, s: string)
    requires Short(codes)
    ensures |Wanted(codes, s)| <= |s| && |Decoded(codes, s)| <= |s| + Repeated(s)
    decreases |s|
  {
    DecodedMeans(codes, s);
    var k := Find(s, '%');
    if k + 2 < |s| { WantedFits(codes, s[k + 3..]); }
  }

  function Letters(k: nat): (s: string)
    ensures |s| == k && forall i | 0 <= i < k :: s[i] == 'a'
  {
    seq(k, _ => 'a')
  }

  /** k letters and a percent sign: the letters come twice. */
  lemma CutOff(codes: seq<string>, k: nat)
    requires |codes| == 256
    ensures var s := Letters(k) + "%"; Decoded(codes, s) == Letters(k) + s && Wanted(codes, s) == s && Repeated(s) == k
  {
    var s := Letters(k) + "%";
    assert s[..k] == Letters(k) && s[k] == '%';
    FindAt(s, '%', k);
  }

  lemma DecodedIs(codes: seq<string>, s: string)
    requires |codes| == 256
    ensures var k := Find(s, '%');
      && (k == |s| ==> Decoded(codes, s) == s)
      && (k < |s| <= k + 2 ==> Decoded(codes, s) == s[..k] + s)
      && (k + 2 < |s| ==> Decoded(codes, s) == s[..k] + codes[HexPair(s[k + 1], s[k + 2])] + Decoded(codes, s[k + 3..]))
  {
    hide HexPair, Find;
  }

  lemma Slices(url: string, at: nat, k: nat)
    requires at + k <= |url|
    ensures url[at..][..k] == url[at..at + k] && url[at..][k..] == url[at + k..]
  {
  }

  lemma DecodedAt(codes: seq<string>, url: string, at: nat)
    requires |codes| == 256 && at <= |url|
    ensures var ptr := at + Find(url[at..], '%'); var d := Decoded(codes, url[at..]);
      && (ptr == |url| ==> d == url[at..])
      && (ptr < |url| <= ptr + 2 ==> d == url[at..ptr] + url[at..])
      && (ptr + 2 < |url| ==> d == url[at..ptr] + codes[HexPair(url[ptr + 1], url[ptr + 2])] + Decoded(codes, url[ptr + 3..]))
  {
    hide Decoded, HexPair, Find;
    var k := Find(url[at..], '%');
    DecodedIs(codes, url[at..]);
    Slices(url, at, k);
    if k + 3 <= |url[at..]| { Behind3(url, at, k); }
  }

  lemma Behind3(url: string, at: nat, k: nat)
    requires at + k + 3 <= |url|
    ensures var r := url[at..]; r[k + 1] == url[at + k + 1] && r[k + 2] == url[at + k + 2] && r[k + 3..] == url[at + k + 3..]
  {
    Slices(url, at, k + 3);
  }

  lemma Assoc(a: string, b: string, c: string, d: string)
    ensures a + (b + c + d) == a + b + c + d && a + (b + c) == a + b + c
  {
  }

  method UrlDecode(codes: seq<string>, rawUrl: string, len: nat) returns (buffer: string)
    requires |codes| == 256 && len <= |rawUrl|
    ensures buffer == Decoded(codes, CString(rawUrl[..len]))
  {
    hide Decoded, Find, CString, HexPair;
    var url := CString(rawUrl[..len]);
    var at := 0;
    buffer := "";
    assert url[0..] == url;
    var ptr := at + Find(url[at..], '%');
    while ptr < |url|
      invariant at <= |url| && ptr == at + Find(url[at..], '%')
      invariant buffer + Decoded(codes, url[at..]) == Decoded(codes, url)
      decreases |url| - at
    {
      DecodedAt(codes, url, at);
      var mark := ptr + 1;
      if mark >= |url| || mark + 1 >= |url| {
        Assoc(buffer, url[at..ptr], url[at..], "");
        return buffer + url[at..ptr] + url[at..];
      }
      Assoc(buffer, url[at..ptr], codes[HexPair(url[mark], url[mark + 1])], Decoded(codes, url[mark + 2..]));
      buffer := buffer + url[at..ptr] + codes[HexPair(url[mark], url[mark + 1])];
      at := mark + 2;
      ptr := at + Find(url[at..], '%');
    }
    DecodedAt(codes, url, at);
    buffer := buffer + url[at..];
  }

  lemma DecodedPlain(codes: seq<string>, s: string)
    requires |codes| == 256 && '%' !in s
    ensures Decoded(codes, s) == s
  {
    FindAt(s, '%', |s|);
  }

  // ---------- percent codes ----------

  /** A hexadecimal digit, in either case. */
  predicate IsDigit(c: char, n: nat) { n < 16 && (c == "0123456789ABCDEF"[n] || c == "0123456789abcdef"[n]) }

  /** What a code stands for: the entry of its two digits, of the second where the first is none, and otherwise
      the first of the table. */
  lemma CodeMeans(codes: seq<string>, a: char, b: char, h: nat, l: nat, rest: string)
    requires |codes| == 256
    ensures var d, r := Decoded(codes, "%" + [a, b] + rest), Decoded(codes, rest);
      && (IsDigit(a, h) && IsDigit(b, l) ==> d == codes[16 * h + l] + r)
      && (NoDigit(a) && IsDigit(b, l) ==> d == codes[l] + r)
      && (NoDigit(b) ==> d == codes[0] + r)
  {
    hide Decoded, Find;
    var s := "%" + [a, b] + rest;
    FindAt(s, '%', 0);
    DecodedIs(codes, s);
    assert s[..0] == "" && s[3..] == rest && "" + codes[HexPair(a, b)] == codes[HexPair(a, b)];
    DigitValue(a, h);
    DigitValue(b, l);
  }

  predicate NoDigit(c: char) { forall n: nat | n < 16 :: !IsDigit(c, n) }

  lemma DigitValue(c: char, n: nat)
    ensures IsDigit(c, n) ==> IsHex(c) && HexValue(c) == n
    ensures NoDigit(c) ==> !IsHex(c)
  {
    if IsHex(c) { assert IsDigit(c, HexValue(c)); }
  }

  /** A string as it may be sent: some characters plain, others as codes. */
  datatype Piece = Plain(c: char) | Code(n: nat, high: char, low: char)

  predicate Right(p: Piece) {
    match p
    case Plain(c) => c != '%' && c != '\0'
    case Code(n, high, low) => n < 256 && IsDigit(high, n / 16) && IsDigit(low, n % 16)
  }

  function Spelling(p: Piece): string {
    match p
    case Plain(c) => [c]
    case Code(_, high, low) => "%" + [high, low]
  }

  function Spelled(ps: seq<Piece>): string { if ps == [] then "" else Spelling(ps[0]) + Spelled(ps[1..]) }

  function Means(codes: seq<string>, p: Piece): string
    requires |codes| == 256
  {
    match p
    case Plain(c) => [c]
    case Code(n, _, _) => if n < 256 then codes[n] else ""
  }

  /** What the codes of a string stand for. */
  function Text(codes: seq<string>, ps: seq<Piece>): string
    requires |codes| == 256
  {
    if ps == [] then "" else Means(codes, ps[0]) + Text(codes, ps[1..])
  }

  predicate AllRight(ps: seq<Piece>) { forall p | p in ps :: Right(p) }

  lemma PlainHead(codes: seq<string>, c: char, s: string)
    requires |codes| == 256 && c != '%' && var k := Find(s, '%'); k == |s| || k + 2 < |s|
    ensures Decoded(codes, [c] + s) == [c] + Decoded(codes, s) && Find([c] + s, '%') == 1 + Find(s, '%')
  {
    hide Decoded, HexPair, Find;
    var k := Find(s, '%');
    var r := [c] + s;
    assert r[..k + 1] == [c] + s[..k];
    FindAt(r, '%', k + 1);
    DecodedIs(codes, s);
    DecodedIs(codes, r);
    if k < |s| {
      assert r[k + 2] == s[k + 1] && r[k + 3] == s[k + 2] && r[k + 4..] == s[k + 3..];
      Ahead(c, s[..k], codes[HexPair(s[k + 1], s[k + 2])], Decoded(codes, s[k + 3..]));
    }
  }

  lemma Ahead(c: char, x: string, y: string, z: string)
    ensures [c] + x + y + z == [c] + (x + y + z)
  {
  }

  /** Decoding gives every code its meaning, the first digit counting sixteen times, and leaves the rest. */
  lemma {:induction false} DecodedPieces(codes: seq<string>, ps: seq<Piece>)
    requires |codes| == 256 && AllRight(ps)
    ensures Decoded(codes, Spelled(ps)) == Text(codes, ps)
    ensures var k := Find(Spelled(ps), '%'); k == |Spelled(ps)| || k + 2 < |Spelled(ps)|
  {
    hide Decoded, IsDigit, Find;
    if ps == [] {
      DecodedIs(codes, "");
      FindAt("", '%', 0);
    } else {
      assert ps[0] in ps;
      DecodedPieces(codes, ps[1..]);
      OnePiece(codes, ps[0], Spelled(ps[1..]));
    }
  }

  /** The first piece of a string. */
  lemma OnePiece(codes: seq<string>, p: Piece, r: string)
    requires |codes| == 256 && Right(p) && var k := Find(r, '%'); k == |r| || k + 2 < |r|
    ensures Decoded(codes, Spelling(p) + r) == Means(codes, p) + Decoded(codes, r)
    ensures var s := Spelling(p) + r; var k := Find(s, '%'); k == |s| || k + 2 < |s|
  {
    hide Decoded, IsDigit, Find;
    match p
    case Plain(c) =>
      PlainHead(codes, c, r);
    case Code(n, high, low) =>
      CodeMeans(codes, high, low, n / 16, n % 16, r);
      FindAt("%" + [high, low] + r, '%', 0);
  }

  predicate Bytes(s: string) { forall i | 0 <= i < |s| :: s[i] as int < 256 }

  function Digit(n: nat, capitals: bool): (c: char)
    requires n < 16
    ensures IsDigit(c, n)
  {
    if capitals then "0123456789ABCDEF"[n] else "0123456789abcdef"[n]
  }

  /** Every byte as a code, in capitals or not. */
  function Percent(s: string, capitals: bool): seq<Piece>
    requires Bytes(s)
  {
    if s == "" then [] else
      var n := s[0] as int;
      assert s[0] as int < 256 && Bytes(s[1..]);
      [Code(n, Digit(n / 16, capitals), Digit(n % 16, capitals))] + Percent(s[1..], capitals)
  }

  /** Where every code of the table stands for the one byte it is the code of, nothing is lost. */
  lemma PercentBack(codes: seq<string>, s: string, capitals: bool)
    requires |codes| == 256 && (forall i | 0 <= i < 256 :: codes[i] == [i as char]) && Bytes(s)
    ensures AllRight(Percent(s, capitals)) && |Spelled(Percent(s, capitals))| == 3 * |s|
    ensures Decoded(codes, Spelled(Percent(s, capitals))) == s
  {
    PercentText(codes, s, capitals);
    DecodedPieces(codes, Percent(s, capitals));
  }

  lemma {:induction false} PercentText(codes: seq<string>, s: string, capitals: bool)
    requires |codes| == 256 && (forall i | 0 <= i < 256 :: codes[i] == [i as char]) && Bytes(s)
    ensures AllRight(Percent(s, capitals)) && |Spelled(Percent(s, capitals))| == 3 * |s| && Text(codes, Percent(s, capitals)) == s
  {
    hide IsDigit;
    if s != "" {
      PercentText(codes, s[1..], capitals);
      assert s == [s[0]] + s[1..] && codes[s[0] as int] == [s[0]];
      var p := Percent(s, capitals)[0];
      assert Right(p) && Percent(s, capitals) == [p] + Percent(s[1..], capitals);
    }
  }

  // ---------- what a query string means ----------

  /** The check of a decoded name against the length it had undecoded: ASCII up to its end. */
  predicate Ascii(name: string, len: nat) {
    forall i | 0 <= i < len && i < |name| :: name[i] as int <= 127
  }

  /** The parameters of a query: fields between `&`, each a name and a value around the first `=`; a name that
      is too long, or not ASCII, ends the query. */
  function Meaning(codes: seq<string>, q: string, kind: int): seq<Param>
    requires |codes| == 256
    decreases |q|
  {
    if q == "" then [] else
      var v := Find(q, '&');
      var n := Find(q[..v], '=');
      var name := Decoded(codes, CString(q[..n]));
      if n >= PARAMS_NAME_MAX_LEN || !Ascii(name, n) then [] else
        var value := q[if n < v then n + 1 else n..v];
        [Param(name, Decoded(codes, CString(value)), |value|, kind)]
          + Meaning(codes, q[if v < |q| then v + 1 else v..], kind)
  }

  // ---------- the two pointers ----------

  lemma Longer(q: string, k: nat, c: char)
    requires k < |q| && c !in q[..k] && q[k] != c
    ensures c !in q[..k + 1]
  {
    assert q[..k + 1] == q[..k] + [q[k]];
  }

  /** `val` stops at the first `&` or at the end of the query, `name` at the first `=` before that. */
  method Scan(raw: string, from: nat, size: nat) returns (name: nat, val: nat)
    requires from + size < |raw|
    ensures var q := raw[from..from + size]; val == Find(q, '&') && name == Find(q[..val], '=')
  {
    ghost var q := raw[from..from + size];
    name, val := 0, 0;
    while val < size
      invariant name <= val <= size && '&' !in q[..val] && '=' !in q[..name]
      invariant name < val ==> q[name] == '='
    {
      if raw[from + val] == '&' { break; }
      Longer(q, val, '&');
      val := val + 1;
      if raw[from + name] != '=' {
        Longer(q, name, '=');
        name := name + 1;
      }
    }
    FindAt(q, '&', val);
    assert q[..val][..name] == q[..name];
    FindAt(q[..val], '=', name);
  }

  /** One field of the meaning. */
  function Field(codes: seq<string>, q: string, v: nat, n: nat, kind: int): Param
    requires |codes| == 256 && n <= v <= |q|
  {
    var value := q[if n < v then n + 1 else n..v];
    Param(Decoded(codes, CString(q[..n])), Decoded(codes, CString(value)), |value|, kind)
  }

  lemma MeaningIs(codes: seq<string>, q: string, kind: int)
    requires |codes| == 256
    ensures q == "" ==> Meaning(codes, q, kind) == []
    ensures q != "" ==> var v := Find(q, '&'); var n := Find(q[..v], '=');
      Meaning(codes, q, kind) == if n >= PARAMS_NAME_MAX_LEN || !Ascii(Decoded(codes, CString(q[..n])), n) then []
        else [Field(codes, q, v, n, kind)] + Meaning(codes, q[if v < |q| then v + 1 else v..], kind)
  {
    hide Decoded, CString, Find, Ascii;
  }

  lemma Cut(raw: string, at: nat, len: nat, i: nat, j: nat)
    requires at <= len <= |raw| && i <= j && at + j <= len
    ensures raw[at..][..j] == raw[at..len][..j] && raw[at + i..][..j - i] == raw[at..len][i..j] && raw[at..len][j..] == raw[at + j..len]
  {
  }

  /** What stands where the pointers stop. */
  lemma Ends(raw: string, at: nat, len: nat, v: nat, n: nat)
    requires at < len < |raw| && v == Find(raw[at..len], '&') && n == Find(raw[at..len][..v], '=')
    ensures n < v ==> raw[at + n] == '='
    ensures n == v && at + v < len ==> raw[at + n] != '='
    ensures at + v < len ==> raw[at + v] == '&'
  {
  }

  /** The writes of one turn leave their buffers: 128 bytes for the name, and for the value what it takes
      undecoded. When a query ends with a name, a `=` behind the query is skipped, and the value has length -1. */
  predicate FieldOverruns(codes: seq<string>, q: string, v: nat, n: nat, behind: char)
    requires |codes| == 256 && n <= v <= |q|
  {
    n < PARAMS_NAME_MAX_LEN &&
    var name := Decoded(codes, CString(q[..n]));
    var value := q[if n < v then n + 1 else n..v];
    || |name| >= PARAMS_NAME_MAX_LEN
    || (Ascii(name, n) && ((n == |q| && behind == '=') || |Decoded(codes, CString(value))| > |value|))
  }

  /** Whether reading a query leaves a buffer; `behind` is the byte behind it. */
  predicate Overruns(codes: seq<string>, q: string, behind: char)
    requires |codes| == 256
    decreases |q|
  {
    q != "" &&
    var v := Find(q, '&');
    var n := Find(q[..v], '=');
    || FieldOverruns(codes, q, v, n, behind)
    || (n < PARAMS_NAME_MAX_LEN && Ascii(Decoded(codes, CString(q[..n])), n)
        && Overruns(codes, q[if v < |q| then v + 1 else v..], behind))
  }

  lemma OverrunsIs(codes: seq<string>, q: string, behind: char)
    requires |codes| == 256
    ensures q == "" ==> !Overruns(codes, q, behind)
    ensures q != "" ==> var v := Find(q, '&'); var n := Find(q[..v], '=');
      Overruns(codes, q, behind) ==
        (FieldOverruns(codes, q, v, n, behind)
         || (n < PARAMS_NAME_MAX_LEN && Ascii(Decoded(codes, CString(q[..n])), n)
             && Overruns(codes, q[if v < |q| then v + 1 else v..], behind)))
  {
    hide Decoded, CString, Find, Ascii, FieldOverruns;
  }

  /** What one turn of the loop does. */
  datatype Turn = Overrun | Stop | Got(param: Param, next: nat)

  /** One turn of the loop: `next` is how far the pointers have come. */
  method ParseField(codes: seq<string>, raw: string, at: nat, len: nat, kind: int) returns (turn: Turn)
    requires |codes| == 256 && at < len < |raw|
    ensures var q := raw[at..len]; var v := Find(q, '&'); var n := Find(q[..v], '=');
      && (turn.Overrun? <==> FieldOverruns(codes, q, v, n, raw[len]))
      && (turn.Stop? ==> n >= PARAMS_NAME_MAX_LEN || !Ascii(Decoded(codes, CString(q[..n])), n))
      && (turn.Got? ==>
          && n < PARAMS_NAME_MAX_LEN && Ascii(Decoded(codes, CString(q[..n])), n) && turn.param == Field(codes, q, v, n, kind)
          && (v < |q| ==> turn.next == v + 1) && (v == |q| ==> turn.next == v || turn.next == v + 1))
  {
    hide Decoded, Find, CString, Ascii;
    var size := len - at;
    var nameEnd, valEnd := Scan(raw, at, size);
    Ends(raw, at, len, valEnd, nameEnd);
    if nameEnd >= PARAMS_NAME_MAX_LEN { return Stop; }
    Cut(raw, at, len, 0, nameEnd);
    var name := UrlDecode(codes, raw[at..], nameEnd);
    if |name| >= PARAMS_NAME_MAX_LEN { return Overrun; }
    if !Ascii(name, nameEnd) { return Stop; }
    var valueAt := if raw[at + nameEnd] == '=' then nameEnd + 1 else nameEnd;
    if valueAt > valEnd { return Overrun; }
    Cut(raw, at, len, valueAt, valEnd);
    var value := UrlDecode(codes, raw[at + valueAt..], valEnd - valueAt);
    if |value| > valEnd - valueAt { return Overrun; }
    var next := if raw[at + valEnd] == '&' then valEnd + 1 else valEnd;
    return Got(Param(name, value, valEnd - valueAt, kind), next);
  }

  /** What is left of the query after a field, in the query and in memory. */
  function Left(rest: string): string {
    var v := Find(rest, '&');
    rest[if v < |rest| then v + 1 else v..]
  }

  lemma LeftIs(raw: string, at: nat, len: nat, next: nat)
    requires at < len <= |raw|
    requires var v := Find(raw[at..len], '&'); (v < len - at ==> next == v + 1) && (v == len - at ==> next == v || next == v + 1)
    ensures at + next <= len ==> Left(raw[at..len]) == raw[at + next..len]
    ensures at + next > len ==> Left(raw[at..len]) == ""
    ensures next > 0
  {
    hide Find;
    var v := Find(raw[at..len], '&');
    Cut(raw, at, len, 0, v);
    if v < len - at { Cut(raw, at, len, 0, v + 1); }
  }

  /** The meaning and the overruns of a query, one field at a time. */
  lemma OneField(codes: seq<string>, q: string, kind: int, behind: char, params: seq<Param>)
    requires |codes| == 256 && q != ""
    ensures var v := Find(q, '&'); var n := Find(q[..v], '='); var f := Field(codes, q, v, n, kind);
      var good := n < PARAMS_NAME_MAX_LEN && Ascii(Decoded(codes, CString(q[..n])), n);
      && (!good ==> params + Meaning(codes, q, kind) == params && Overruns(codes, q, behind) == FieldOverruns(codes, q, v, n, behind))
      && (good ==> params + Meaning(codes, q, kind) == (params + [f]) + Meaning(codes, Left(q), kind))
      && (good ==> Overruns(codes, q, behind) == (FieldOverruns(codes, q, v, n, behind) || Overruns(codes, Left(q), behind)))
      && (FieldOverruns(codes, q, v, n, behind) ==> Overruns(codes, q, behind))
  {
    hide Meaning, Decoded, Find, CString, Ascii, Field, Overruns, FieldOverruns;
    MeaningIs(codes, q, kind);
    OverrunsIs(codes, q, behind);
  }

  lemma NoField(codes: seq<string>, kind: int, behind: char)
    requires |codes| == 256
    ensures Meaning(codes, "", kind) == [] && !Overruns(codes, "", behind)
  {
    MeaningIs(codes, "", kind);
    OverrunsIs(codes, "", behind);
  }

  /** `params_parse_qs`. The byte behind the query is looked at; `ok` tells that every buffer was large enough,
      and then the query is read as what it means. */
  method ParseQs(codes: seq<string>, raw: string, len: nat, kind: int) returns (ok: bool, params: seq<Param>)
    requires |codes| == 256 && len < |raw|
    ensures ok <==> !Overruns(codes, raw[..len], raw[len])
    ensures ok ==> params == Meaning(codes, raw[..len], kind)
  {
    hide Meaning, Decoded, Find, CString, Ascii, Field, Overruns, FieldOverruns, Left;
    params, ok := [], true;
    var at, size: int := 0, len;
    ghost var rest := raw[..len];
    while size > 0
      invariant 0 <= at && (size >= 0 ==> at + size == len && rest == raw[at..len]) && (size < 0 ==> rest == "")
      invariant params + Meaning(codes, rest, kind) == Meaning(codes, raw[..len], kind)
      invariant Overruns(codes, rest, raw[len]) <==> Overruns(codes, raw[..len], raw[len])
      decreases size
    {
      OneField(codes, rest, kind, raw[len], params);
      var turn := ParseField(codes, raw, at, len, kind);
      if turn.Overrun? { return false, params; }
      if turn.Stop? { return; }
      LeftIs(raw, at, len, turn.next);
      params := params + [turn.param];
      rest := Left(rest);
      at, size := at + turn.next, size - turn.next;
    }
    NoField(codes, kind, raw[len]);
  }

  /** Where a code is cut off: in the name or in the value of some field. */
  predicate CutsCode(q: string)
    decreases |q|
  {
    q != "" &&
    var v := Find(q, '&');
    var n := Find(q[..v], '=');
    || Repeated(CString(q[..n])) > 0 || Repeated(CString(q[if n < v then n + 1 else n..v])) > 0
    || CutsCode(q[if v < |q| then v + 1 else v..])
  }

  /** The reader comes to a last field that has no `=`. */
  predicate EndsInName(codes: seq<string>, q: string)
    requires |codes| == 256
    decreases |q|
  {
    q != "" &&
    var v := Find(q, '&');
    var n := Find(q[..v], '=');
    && n < PARAMS_NAME_MAX_LEN && Ascii(Decoded(codes, CString(q[..n])), n)
    && (n == |q| || EndsInName(codes, q[if v < |q| then v + 1 else v..]))
  }

  /** For a query that cuts off no code the buffers are large enough, unless it ends in a name without a value
      and a `=` stands behind it. */
  lemma {:induction false} BuffersSuffice(codes: seq<string>, q: string, behind: char)
    requires Short(codes) && !CutsCode(q)
    ensures Overruns(codes, q, behind) <==> behind == '=' && EndsInName(codes, q)
    decreases |q|
  {
    hide Decoded, Find, CString, Ascii, Overruns, Repeated;
    OverrunsIs(codes, q, behind);
    if q != "" {
      var v := Find(q, '&');
      var n := Find(q[..v], '=');
      WantedFits(codes, CString(q[..n]));
      WantedFits(codes, CString(q[if n < v then n + 1 else n..v]));
      BuffersSuffice(codes, q[if v < |q| then v + 1 else v..], behind);
      if n == |q| { OverrunsIs(codes, q[v..], behind); }
    }
  }

  /** A name of 126 letters and a percent sign passes the check of its length, and decodes to 253 characters. */
  lemma NameOverruns(codes: seq<string>, behind: char)
    requires |codes| == 256
    ensures Overruns(codes, Letters(126) + "%", behind)
  {
    var q := Letters(126) + "%";
    CutOff(codes, 126);
    FindAt(q, '&', 127);
    assert q[..127] == q;
    FindAt(q, '=', 127);
    FindAt(q, '\0', 127);
    assert CString(q) == q;
    OverrunsIs(codes, q, behind);
    hide Overruns, Decoded, Find, CString;
  }

  /** So does a value of letters and a percent sign: there is room for the value undecoded. */
  lemma ValueOverruns(codes: seq<string>, k: nat, behind: char)
    requires |codes| == 256 && k > 0
    ensures Overruns(codes, "=" + Letters(k) + "%", behind)
  {
    var value := Letters(k) + "%";
    var q := "=" + value;
    assert "=" + Letters(k) + "%" == q;
    CutOff(codes, k);
    FindAt(q, '&', |q|);
    assert q[..|q|] == q && q[1..] == value && q[..0] == "";
    FindAt(q, '=', 0);
    FindAt(value, '\0', |value|);
    assert CString(value) == value && CString("") == "" && Decoded(codes, "") == "";
    assert FieldOverruns(codes, q, |q|, 0, behind);
    OverrunsIs(codes, q, behind);
  }

  // ---------- round trip ----------

  /** Strings that can stand on either side of the first `=` of a field. */
  predicate NameString(s: string) { '&' !in s && '=' !in s && '\0' !in s }

  predicate ValueString(s: string) { '&' !in s && '\0' !in s }

  function Query(params: seq<Param>): string {
    if params == [] then "" else
      params[0].name + "=" + params[0].value + (if |params| == 1 then "" else "&" + Query(params[1..]))
  }

  /** What is still to be generated. */
  function Rest(params: seq<Param>, i: nat): string
    requires i <= |params|
  {
    if i == |params| then "" else (if i == 0 then "" else "&") + Query(params[i..])
  }

  /** `params_gen_qs` */
  method GenQs(params: seq<Param>) returns (qs: string)
    ensures qs == Query(params)
  {
    hide *;
    qs := "";
    RestStart(params);
    for i := 0 to |params|
      invariant Query(params) == qs + Rest(params, i)
    {
      RestStep(params, i, qs);
      if i != 0 { qs := qs + "&"; }
      qs := qs + params[i].name;
      qs := qs + "=";
      qs := qs + params[i].value;
    }
  }

  lemma RestStart(params: seq<Param>)
    ensures Query(params) == "" + Rest(params, 0) && Rest(params, |params|) == ""
  {
    assert params[0..] == params;
  }

  lemma RestStep(params: seq<Param>, i: nat, qs: string)
    requires i < |params|
    ensures qs + Rest(params, i)
      == qs + (if i == 0 then "" else "&") + params[i].name + "=" + params[i].value + Rest(params, i + 1)
    ensures i == 0 ==> qs + "" == qs
  {
    hide Query;
    QueryHead(params[i..]);
    assert params[i..][1..] == params[i + 1..] && params[i..][0] == params[i];
    var sep := if i == 0 then "" else "&";
    Chain(qs, sep, params[i].name, "=", params[i].value, Rest(params, i + 1));
    assert Rest(params, i) == sep + Query(params[i..]);
  }

  lemma QueryHead(params: seq<Param>)
    requires params != []
    ensures Query(params) == params[0].name + "=" + params[0].value + (if |params| == 1 then "" else "&" + Query(params[1..]))
  {
  }

  lemma Chain(a: string, b: string, c: string, d: string, e: string, f: string)
    ensures a + (b + (c + d + e + f)) == a + b + c + d + e + f
  {
    Assoc(c, d, e, f);
    Assoc(a, b, c + d + e + f, "");
  }

  /** A field that can be read: its name is not too long, and decodes to ASCII. */
  predicate Readable(codes: seq<string>, p: Param)
    requires |codes| == 256
  {
    && NameString(p.name) && ValueString(p.value)
    && |p.name| < PARAMS_NAME_MAX_LEN && Ascii(Decoded(codes, p.name), |p.name|)
  }

  /** There is room for what it decodes to. */
  predicate Roomy(codes: seq<string>, p: Param)
    requires |codes| == 256
  {
    |Decoded(codes, p.name)| < PARAMS_NAME_MAX_LEN && |Decoded(codes, p.value)| <= |p.value|
  }

  /** What a field is read as: name and value decoded, and the length the value had undecoded. */
  function Understood(codes: seq<string>, params: seq<Param>, kind: int): (r: seq<Param>)
    requires |codes| == 256
    ensures |r| == |params|
    ensures forall i | 0 <= i < |params| :: var p := params[i];
      r[i] == Param(Decoded(codes, p.name), Decoded(codes, p.value), |p.value|, kind)
  {
    seq(|params|, i requires 0 <= i < |params| =>
      Param(Decoded(codes, params[i].name), Decoded(codes, params[i].value), |params[i].value|, kind))
  }

  /** What stands behind a zero byte is not read. */
  lemma ZeroEnds(codes: seq<string>, s: string, t: string)
    requires |codes| == 256 && '\0' !in s
    ensures Decoded(codes, CString(s + "\0" + t)) == Decoded(codes, s)
  {
    hide Decoded;
    var q := s + "\0" + t;
    assert q[..|s|] == s && q[|s|] == '\0';
    FindAt(q, '\0', |s|);
  }

  lemma NoZero(s: string)
    requires '\0' !in s
    ensures CString(s) == s
  {
    FindAt(s, '\0', |s|);
  }

  /** What follows a field: nothing, or `&` and the rest. */
  predicate Tail(tail: string) { tail == "" || tail[0] == '&' }

  function Behind(tail: string): string { if tail == "" then "" else tail[1..] }

  /** A field is cut where it was put together. */
  lemma FieldEnds(name: string, value: string, tail: string)
    requires NameString(name) && ValueString(value) && Tail(tail)
    ensures var f := name + "=" + value; var q := f + tail;
      && Find(q, '&') == |f| && q[..|f|] == f && Find(f, '=') == |name| && f[..|name|] == name && f[|name| + 1..] == value
  {
    var f := name + "=" + value;
    assert '&' !in f && (f + tail)[..|f|] == f;
    FindAt(f + tail, '&', |f|);
    assert f[..|name|] == name && '=' !in name;
    FindAt(f, '=', |name|);
  }

  lemma FieldMeans(codes: seq<string>, p: Param, tail: string, kind: int)
    requires |codes| == 256 && Readable(codes, p) && Tail(tail)
    ensures Meaning(codes, p.name + "=" + p.value + tail, kind) == Understood(codes, [p], kind) + Meaning(codes, Behind(tail), kind)
    ensures Roomy(codes, p) ==> forall c :: Overruns(codes, p.name + "=" + p.value + tail, c) == Overruns(codes, Behind(tail), c)
  {
    hide Meaning, Decoded, CString, Find, Overruns, Ascii;
    var f := p.name + "=" + p.value;
    var q := f + tail;
    FieldEnds(p.name, p.value, tail);
    NoZero(p.name);
    NoZero(p.value);
    MeaningIs(codes, q, kind);
    assert q[..|p.name|] == p.name && q[|p.name| + 1..|f|] == p.value;
    assert q[if |f| < |q| then |f| + 1 else |f|..] == Behind(tail);
    if Roomy(codes, p) {
      forall c ensures Overruns(codes, q, c) == Overruns(codes, Behind(tail), c) { OverrunsIs(codes, q, c); }
    }
  }

  /** A generated query is read field by field, and then comes what follows it. */
  lemma {:induction false} QueryMeans(codes: seq<string>, params: seq<Param>, tail: string, kind: int)
    requires |codes| == 256 && params != [] && (forall p | p in params :: Readable(codes, p)) && Tail(tail)
    ensures Meaning(codes, Query(params) + tail, kind) == Understood(codes, params, kind) + Meaning(codes, Behind(tail), kind)
    ensures (forall p | p in params :: Roomy(codes, p)) ==>
      forall c :: Overruns(codes, Query(params) + tail, c) == Overruns(codes, Behind(tail), c)
  {
    hide Meaning, Readable, Roomy, Overruns, Decoded, Understood, Query;
    var p := params[0];
    assert p in params;
    var more := if |params| == 1 then tail else "&" + Query(params[1..]) + tail;
    QueryIs(params, tail);
    FieldMeans(codes, p, more, kind);
    if |params| > 1 {
      UnderstoodIs(codes, params, kind);
      assert Behind(more) == Query(params[1..]) + tail;
      QueryMeans(codes, params[1..], tail, kind);
      Grouped(Understood(codes, [p], kind), Understood(codes, params[1..], kind), Meaning(codes, Behind(tail), kind));
    }
  }

  lemma Grouped(a: seq<Param>, b: seq<Param>, c: seq<Param>)
    ensures a + b + c == a + (b + c)
  {
  }

  lemma QueryIs(params: seq<Param>, tail: string)
    requires params != []
    ensures var more := if |params| == 1 then tail else "&" + Query(params[1..]) + tail;
      Query(params) + tail == params[0].name + "=" + params[0].value + more
    ensures |params| == 1 ==> params == [params[0]]
  {
    hide Query;
    QueryHead(params);
    var f := params[0].name + "=" + params[0].value;
    Assoc(f, if |params| == 1 then "" else "&" + Query(params[1..]), tail, "");
    assert "" + tail == tail;
  }

  lemma UnderstoodIs(codes: seq<string>, params: seq<Param>, kind: int)
    requires |codes| == 256 && params != []
    ensures Understood(codes, params, kind) == Understood(codes, [params[0]], kind) + Understood(codes, params[1..], kind)
    ensures Understood(codes, [], kind) == []
  {
  }

  /** The same for a whole query. */
  lemma WholeQuery(codes: seq<string>, params: seq<Param>, kind: int)
    requires |codes| == 256 && forall p | p in params :: Readable(codes, p)
    ensures Meaning(codes, Query(params), kind) == Understood(codes, params, kind)
    ensures (forall p | p in params :: Roomy(codes, p)) ==> forall c :: !Overruns(codes, Query(params), c)
  {
    hide Meaning, Readable, Roomy, Overruns, Decoded;
    MeaningIs(codes, "", kind);
    forall c ensures !Overruns(codes, "", c) { OverrunsIs(codes, "", c); }
    if params != [] {
      QueryMeans(codes, params, "", kind);
      assert Query(params) + "" == Query(params);
    }
  }

  // ---------- what is plain comes back ----------

  predicate Plainly(p: Param, kind: int) {
    && NameString(p.name) && ValueString(p.value) && '%' !in p.name && '%' !in p.value
    && |p.name| < PARAMS_NAME_MAX_LEN && (forall i | 0 <= i < |p.name| :: (p.name[i] as int) < 128)
    && p.valueLen == |p.value| && p.kind == kind
  }

  /** A generated query means the parameters it was generated from, and reading it leaves no buffer. */
  lemma RoundTrip(codes: seq<string>, params: seq<Param>, kind: int)
    requires |codes| == 256 && forall p | p in params :: Plainly(p, kind)
    ensures Meaning(codes, Query(params), kind) == params
    ensures forall behind :: !Overruns(codes, Query(params), behind)
  {
    hide Meaning, Overruns, Decoded, Readable, Roomy, Plainly;
    forall p | p in params
      ensures Readable(codes, p) && Roomy(codes, p)
      ensures p == Param(Decoded(codes, p.name), Decoded(codes, p.value), |p.value|, kind)
    {
      PlainReadable(codes, p, kind);
    }
    WholeQuery(codes, params, kind);
    forall i | 0 <= i < |params| ensures Understood(codes, params, kind)[i] == params[i] { assert params[i] in params; }
    assert Understood(codes, params, kind) == params;
  }

  lemma PlainReadable(codes: seq<string>, p: Param, kind: int)
    requires |codes| == 256 && Plainly(p, kind)
    ensures Readable(codes, p) && Roomy(codes, p)
    ensures p == Param(Decoded(codes, p.name), Decoded(codes, p.value), |p.value|, kind)
  {
    DecodedPlain(codes, p.name);
    DecodedPlain(codes, p.value);
  }

  // ---------- and so is what is sent in codes ----------

  /** A parameter as it is sent. */
  datatype Sent = Sent(name: seq<Piece>, value: seq<Piece>)

  function Spell(x: Sent): Param { Param(Spelled(x.name), Spelled(x.value), 0, 0) }

  function SpellAll(xs: seq<Sent>): (r: seq<Param>)
    ensures |r| == |xs| && forall i | 0 <= i < |xs| :: r[i] == Spell(xs[i])
  {
    seq(|xs|, i requires 0 <= i < |xs| => Spell(xs[i]))
  }

  /** Outside its codes a name has no `&` and no `=`, and a value no `&`; and the name is short and means ASCII. */
  predicate Fine(codes: seq<string>, x: Sent)
    requires |codes| == 256
  {
    && AllRight(x.name) && AllRight(x.value) && Plain('&') !in x.name && Plain('=') !in x.name && Plain('&') !in x.value
    && |Spelled(x.name)| < PARAMS_NAME_MAX_LEN && forall c | c in Text(codes, x.name) :: (c as int) < 128
  }

  lemma {:induction false} SpelledWithout(ps: seq<Piece>, c: char)
    requires AllRight(ps) && Plain(c) !in ps && c != '%' && NoDigit(c)
    ensures c !in Spelled(ps)
  {
    hide NoDigit;
    if ps != [] {
      assert ps[0] in ps;
      SpelledWithout(ps[1..], c);
      SpellingWithout(ps[0], c);
    }
  }

  lemma SpellingWithout(p: Piece, c: char)
    requires Right(p) && p != Plain(c) && c != '%' && NoDigit(c)
    ensures c !in Spelling(p)
  {
  }

  /** Whatever the parameters are sent as, in codes of either case or plain: the reader has their names and values
      back, with the lengths the values had on the way, and no buffer is left if no code is longer than its spelling. */
  lemma CodedRoundTrip(codes: seq<string>, xs: seq<Sent>, kind: int)
    requires |codes| == 256 && forall x | x in xs :: Fine(codes, x)
    ensures var r := Meaning(codes, Query(SpellAll(xs)), kind);
      |r| == |xs| && forall i | 0 <= i < |xs| ::
        r[i] == Param(Text(codes, xs[i].name), Text(codes, xs[i].value), |Spelled(xs[i].value)|, kind)
    ensures Short(codes) ==> forall behind :: !Overruns(codes, Query(SpellAll(xs)), behind)
  {
    hide Meaning, Overruns, Decoded, Readable, Roomy, Fine, Short, Text, Spelled;
    var params := SpellAll(xs);
    forall p | p in params ensures Readable(codes, p) && (Short(codes) ==> Roomy(codes, p)) {
      var i :| 0 <= i < |params| && params[i] == p;
      assert xs[i] in xs;
      SentReadable(codes, xs[i]);
    }
    forall i | 0 <= i < |xs| ensures Decoded(codes, params[i].name) == Text(codes, xs[i].name) && Decoded(codes, params[i].value) == Text(codes, xs[i].value) {
      assert xs[i] in xs;
      SentReadable(codes, xs[i]);
    }
    WholeQuery(codes, params, kind);
  }

  lemma SentReadable(codes: seq<string>, x: Sent)
    requires |codes| == 256 && Fine(codes, x)
    ensures var p := Spell(x);
      && Readable(codes, p) && (Short(codes) ==> Roomy(codes, p))
      && Decoded(codes, p.name) == Text(codes, x.name) && Decoded(codes, p.value) == Text(codes, x.value)
  {
    hide Decoded, Spelled, Text;
    DecodedPieces(codes, x.name);
    DecodedPieces(codes, x.value);
    SpelledWithout(x.name, '&');
    SpelledWithout(x.name, '=');
    SpelledWithout(x.value, '&');
    SpelledWithout(x.name, '\0');
    SpelledWithout(x.value, '\0');
    AsciiAll(Text(codes, x.name), |Spelled(x.name)|);
    if Short(codes) {
      TextShort(codes, x.name);
      TextShort(codes, x.value);
    }
  }

  lemma AsciiAll(s: string, len: nat)
    requires forall c | c in s :: (c as int) < 128
    ensures Ascii(s, len)
  {
    forall i | 0 <= i < |s| ensures s[i] as int <= 127 { assert s[i] in s; }
  }

  lemma {:induction false} TextShort(codes: seq<string>, ps: seq<Piece>)
    requires Short(codes)
    ensures |Text(codes, ps)| <= |Spelled(ps)|
  {
    if ps != [] { TextShort(codes, ps[1..]); }
  }

  // ---------- what ends a query, and a name by itself ----------

  lemma NameEnds(name: string, tail: string)
    requires NameString(name) && (tail == "" || tail[0] == '=' || tail[0] == '&')
    ensures var q := name + tail; var v := Find(q, '&'); v >= |name| && Find(q[..v], '=') == |name| && q[..|name|] == name
  {
    var q := name + tail;
    var v := Find(q, '&');
    assert forall i | 0 <= i < |name| :: q[i] == name[i] && name[i] in name;
    assert q[..v][..|name|] == name && q[..|name|] == name;
    FindAt(q[..v], '=', |name|);
  }

  /** A name that is too long, or that means something that is not ASCII, ends the query: nothing from it on is read. */
  lemma BadName(codes: seq<string>, name: string, tail: string, i: nat, kind: int)
    requires |codes| == 256 && NameString(name) && (tail == "" || tail[0] == '=' || tail[0] == '&')
    requires |name| >= 128 || (i < |name| && i < |Decoded(codes, name)| && Decoded(codes, name)[i] as int > 127)
    ensures Meaning(codes, name + tail, kind) == []
  {
    hide Meaning, Decoded, CString, Find;
    NameEnds(name, tail);
    NoZero(name);
    MeaningIs(codes, name + tail, kind);
  }

  /** A name without a `=` has the empty value. */
  lemma NameAlone(codes: seq<string>, name: string, tail: string, kind: int)
    requires |codes| == 256 && name != "" && Readable(codes, Param(name, "", 0, kind)) && Tail(tail)
    ensures Meaning(codes, name + tail, kind) == [Param(Decoded(codes, name), "", 0, kind)] + Meaning(codes, Behind(tail), kind)
  {
    hide Meaning, Decoded, CString, Find, Ascii;
    var q := name + tail;
    NameEnds(name, tail);
    FindAt(q, '&', |name|);
    NoZero(name);
    NoZero("");
    DecodedIs(codes, "");
    MeaningIs(codes, q, kind);
    assert q[if |name| < |q| then |name| + 1 else |name|..] == Behind(tail);
  }
}
