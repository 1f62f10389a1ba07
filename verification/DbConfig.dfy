/** The self-sealing configuration file: plain text on the first start, four
    lines of ciphertext from then on.  A file of bytes is a text that meets
    `ByteText`; the cipher is a function that is given. */
module DbConfig {
  import opened Options
  import opened Decimal

  type Byte = x: int | 0 <= x < 256

  datatype Result<T> = Ok(value: T) | Err(error: Error)

  datatype Error =
    | OddHex
    | BadPort | NoFields | MissingHost | MissingUser | MissingPass | MissingName
    | BadFormat | BadNonce | BadTag | BadCiphertext | Tampered

  // ---- Hex ----

  const HEX := "0123456789abcdef"

  function HexValue(c: char): Option<nat> {
    if '0' <= c <= '9' then Some(c as int - '0' as int)
    else if 'a' <= c <= 'f' then Some(c as int - 'a' as int + 10)
    else if 'A' <= c <= 'F' then Some(c as int - 'A' as int + 10)
    else None
  }

  predicate IsSpace(c: char) {
    c == ' ' || c == '\t' || c == '\n' || c == '\r' || c == 11 as char || c == 12 as char
  }

  function HexPair(b: Byte): string {
    [HEX[b / 16], HEX[b % 16]]
  }

  function HexOf(buf: seq<Byte>): string {
    if buf == [] then "" else HexPair(buf[0]) + HexOf(buf[1..])
  }

  /** Two characters read by a stream in hex: leading space and a sign are
      taken, reading stops at the first other character, and nothing read is
      zero. */
  function PairValue(a: char, b: char): (v: Byte) {
    var hi, lo := HexValue(a), HexValue(b);
    if hi.Some? && lo.Some? then 16 * hi.value + lo.value
    else if hi.Some? then hi.value
    else if lo.Some? && (IsSpace(a) || a == '+') then lo.value
    else if lo.Some? && a == '-' then (256 - lo.value) % 256
    else 0
  }

  function BytesOf(hex: string): seq<Byte> {
    if |hex| < 2 then [] else [PairValue(hex[0], hex[1])] + BytesOf(hex[2..])
  }

  method ToHex(buf: seq<Byte>) returns (hex: string)
    ensures hex == HexOf(buf)
  {
    hex := "";
    for i := 0 to |buf|
      invariant hex + HexOf(buf[i..]) == HexOf(buf)
    {
      assert buf[i..][1..] == buf[i + 1..];
      hex := hex + HexPair(buf[i]);
    }
  }

  function Unhexed(hex: string): Result<seq<Byte>> {
    if |hex| % 2 != 0 then Err(OddHex) else Ok(BytesOf(hex))
  }

  lemma BytesMore(hex: string, i: nat)
    requires i + 1 < |hex|
    ensures BytesOf(hex[i..]) == [PairValue(hex[i], hex[i + 1])] + BytesOf(hex[i + 2..])
  {
    hide PairValue;
    assert hex[i..][2..] == hex[i + 2..];
  }

  method FromHex(hex: string) returns (bytes: Result<seq<Byte>>)
    ensures bytes == Unhexed(hex)
  {
    if |hex| % 2 != 0 {
      return Err(OddHex);
    }
    hide PairValue, HexValue;
    var out: seq<Byte> := [];
    var i := 0;
    while i < |hex|
      invariant 0 <= i <= |hex| && i % 2 == 0
      invariant out + BytesOf(hex[i..]) == BytesOf(hex)
    {
      BytesMore(hex, i);
      hide BytesOf;
      out := out + [PairValue(hex[i], hex[i + 1])];
      i := i + 2;
    }
    assert hex[i..] == "" && out + [] == out;
    return Ok(out);
  }

  /** Hex loses nothing, and it is twice as long. */
  lemma {:induction false} HexRoundTrip(buf: seq<Byte>)
    ensures |HexOf(buf)| == 2 * |buf|
    ensures Unhexed(HexOf(buf)) == Ok(buf)
    ensures '\n' !in HexOf(buf) && '\r' !in HexOf(buf)
    decreases |buf|
  {
    hide PairValue, HexValue;
    if buf != [] {
      HexRoundTrip(buf[1..]);
      PairRoundTrip(buf[0]);
      var hex, rest := HexOf(buf), HexOf(buf[1..]);
      assert hex == HexPair(buf[0]) + rest;
      hide HexOf;
      assert hex[2..] == rest;
      assert hex[0] == HEX[buf[0] / 16] && hex[1] == HEX[buf[0] % 16];
      assert BytesOf(hex) == [buf[0]] + buf[1..] == buf;
    }
  }

  /** Each byte is written as its upper and its lower half, in small letters. */
  lemma {:induction false} HexIsLower(buf: seq<Byte>, i: nat)
    requires i < |buf|
    ensures |HexOf(buf)| == 2 * |buf|
    ensures HexOf(buf)[2 * i] == "0123456789abcdef"[buf[i] / 16]
    ensures HexOf(buf)[2 * i + 1] == "0123456789abcdef"[buf[i] % 16]
    decreases |buf|
  {
    HexRoundTrip(buf);
    if i > 0 { HexIsLower(buf[1..], i - 1); }
  }

  lemma PairRoundTrip(b: Byte)
    ensures PairValue(HEX[b / 16], HEX[b % 16]) == b
    ensures '\n' !in HexPair(b) && '\r' !in HexPair(b)
  {
    DigitRoundTrip(b / 16);
    DigitRoundTrip(b % 16);
  }

  lemma DigitRoundTrip(d: nat)
    requires d < 16
    ensures HexValue(HEX[d]) == Some(d) && HEX[d] != '\n' && HEX[d] != '\r'
  {
    if d < 8 { assert HEX[..8] == "01234567"; } else { assert HEX[8..] == "89abcdef"; }
  }

  /** The value of one hex digit, in either case. */
  lemma HexValueIs(c: char, v: nat)
    ensures HexValue(c) == Some(v) <==> v < 16 && (c == "0123456789abcdef"[v] || c == "0123456789ABCDEF"[v])
  {
    if v < 16 {
      DigitRoundTrip(v);
      UpperDigit(v);
      HexCodes(v);
    }
  }

  lemma UpperDigit(v: nat)
    requires v < 16
    ensures HexValue("0123456789ABCDEF"[v]) == Some(v)
  {
    if v < 8 { assert "0123456789ABCDEF"[..8] == "01234567"; } else { assert "0123456789ABCDEF"[8..] == "89ABCDEF"; }
  }

  lemma HexCodes(v: nat)
    requires v < 16
    ensures "0123456789abcdef"[v] as int == (if v < 10 then 48 else 87) + v
    ensures "0123456789ABCDEF"[v] as int == (if v < 10 then 48 else 55) + v
  {}

  /** Two hex digits are a byte, upper half first; one alone counts after a space
      or a plus sign, or before anything else, and is taken negative after a
      minus sign; else the pair is 0. */
  lemma PairIs(a: char, b: char)
    ensures var hi, lo := HexValue(a), HexValue(b);
      && (hi.Some? && lo.Some? ==> PairValue(a, b) == 16 * hi.value + lo.value)
      && (hi.Some? && lo.None? ==> PairValue(a, b) == hi.value)
      && (hi.None? && lo.Some? && (IsSpace(a) || a == '+') ==> PairValue(a, b) == lo.value)
      && (hi.None? && lo.Some? && a == '-' && lo.value > 0 ==> PairValue(a, b) == 256 - lo.value)
      && (hi.None? && (lo.None? || !(IsSpace(a) || a in {'+', '-'})) ==> PairValue(a, b) == 0)
  {}

  // ---- Lines ----

  function IndexOf(s: string, c: char): (i: nat)
    ensures i <= |s| && (i < |s| ==> s[i] == c) && c !in s[..i]
  {
    if s == "" || s[0] == c then 0
    else
      var rest := IndexOf(s[1..], c);
      assert s[..1 + rest] == [s[0]] + s[1..][..rest];
      1 + rest
  }

  /** What `std::getline` reads one after another. */
  function Lines(content: string): seq<string> {
    if content == "" then []
    else
      var nl := IndexOf(content, '\n');
      if nl == |content| then [content] else [content[..nl]] + Lines(content[nl + 1..])
  }

  lemma {:induction false} IndexIs(s: string, c: char, i: nat)
    requires i < |s| && s[i] == c && c !in s[..i]
    ensures IndexOf(s, c) == i
    decreases i
  {
    if i > 0 {
      assert s[0] == s[..i][0];
      assert s[..i][1..] == s[1..][..i - 1];
      IndexIs(s[1..], c, i - 1);
    }
  }

  lemma FirstLine(line: string, rest: string)
    requires '\n' !in line
    ensures Lines(line + "\n" + rest) == [line] + Lines(rest)
  {
    var content := line + "\n" + rest;
    assert content[..|line|] == line && content[|line| + 1..] == rest;
    IndexIs(content, '\n', |line|);
  }

  lemma {:induction false} LinesHaveNoBreak(content: string)
    ensures forall i :: 0 <= i < |Lines(content)| ==> '\n' !in Lines(content)[i]
    decreases |content|
  {
    if content != "" {
      var nl := IndexOf(content, '\n');
      if nl < |content| {
        LinesHaveNoBreak(content[nl + 1..]);
      } else {
        assert content[..nl] == content;
      }
    }
  }

  /** The lines with a break after each. */
  function Joined(lines: seq<string>): string {
    if lines == [] then "" else lines[0] + "\n" + Joined(lines[1..])
  }

  /** `joined` is the text, with a break at the end if it had none. */
  predicate Completes(joined: string, content: string) {
    if content == "" || content[|content| - 1] == '\n' then joined == content else joined == content + "\n"
  }

  /** The lines are the text between the breaks, and a last break makes no
      difference. */
  lemma {:induction false} LinesRejoin(content: string)
    ensures Completes(Joined(Lines(content)), content)
    decreases |content|
  {
    if content != "" {
      var nl := IndexOf(content, '\n');
      if nl == |content| {
        LastLine(content);
      } else {
        var line, rest := content[..nl], content[nl + 1..];
        LinesRejoin(rest);
        LinesStep(content);
        JoinedMore(line, Lines(rest));
        hide Joined, Lines, IndexOf, Completes;
        CompletesMore(content, line, rest, Joined(Lines(rest)));
      }
    }
  }

  lemma CompletesMore(content: string, line: string, rest: string, joined: string)
    requires Completes(joined, rest) && |content| == |line| + 1 + |rest|
    requires content[..|line|] == line && content[|line|] == '\n' && content[|line| + 1..] == rest
    ensures Completes(line + "\n" + joined, content)
  {
    assert content == line + "\n" + rest;
    assert line + "\n" + (rest + "\n") == content + "\n";
  }

  lemma LastLine(content: string)
    requires content != "" && IndexOf(content, '\n') == |content|
    ensures Joined(Lines(content)) == content + "\n" && content[|content| - 1] != '\n'
  {
    assert content[..|content|] == content;
    JoinedMore(content, []);
    assert content[|content| - 1] in content;
    hide IndexOf;
  }

  lemma JoinedMore(line: string, rest: seq<string>)
    ensures Joined([line] + rest) == line + "\n" + Joined(rest)
  {
    assert ([line] + rest)[1..] == rest;
  }

  function DropCR(line: string): string {
    if line != "" && line[|line| - 1] == '\r' then line[..|line| - 1] else line
  }

  function TrimLeft(s: string): string {
    if s != "" && IsSpace(s[0]) then TrimLeft(s[1..]) else s
  }

  function TrimRight(s: string): string {
    if s != "" && IsSpace(s[|s| - 1]) then TrimRight(s[..|s| - 1]) else s
  }

  function Trim(s: string): string {
    TrimRight(TrimLeft(s))
  }

  // ---- Numbers ----

  const INT_MIN := -0x8000_0000
  const INT_MAX := 0x7fff_ffff

  predicate InInt(n: int) {
    INT_MIN <= n <= INT_MAX
  }

  function IntToString(n: int): string {
    if n < 0 then "-" + ToString(-n) else ToString(n)
  }

  /** How many digits a text starts with. */
  function DigitCount(s: string): (n: nat)
    ensures n <= |s| && forall i :: 0 <= i < n ==> IsDigit(s[i])
  {
    if s != "" && IsDigit(s[0]) then 1 + DigitCount(s[1..]) else 0
  }

  /** `std::stoi`: leading space, a sign, digits; what follows is ignored, and
      no digits or a number out of range is an exception. */
  function Stoi(s: string): Option<int> {
    var t := TrimLeft(s);
    var signed := t != "" && (t[0] == '-' || t[0] == '+');
    var digits := if signed then t[1..] else t;
    var n := DigitCount(digits);
    if n == 0 then None
    else
      var magnitude: int := Value(digits[..n]);
      var value := if signed && t[0] == '-' then -magnitude else magnitude;
      if InInt(value) then Some(value) else None
  }

  lemma {:induction false} AllDigits(s: string)
    requires forall i :: 0 <= i < |s| ==> IsDigit(s[i])
    ensures DigitCount(s) == |s|
    decreases |s|
  {
    if s != "" { AllDigits(s[1..]); }
  }

  lemma {:induction false} DigitsThen(digits: string, rest: string)
    requires forall i :: 0 <= i < |digits| ==> IsDigit(digits[i])
    requires rest == "" || !IsDigit(rest[0])
    ensures DigitCount(digits + rest) == |digits|
    decreases |digits|
  {
    if digits == "" {
      assert digits + rest == rest;
    } else {
      assert (digits + rest)[1..] == digits[1..] + rest;
      DigitsThen(digits[1..], rest);
    }
  }

  lemma {:induction false} SpaceThen(space: string, rest: string)
    requires AllSpace(space) && rest != "" && !IsSpace(rest[0])
    ensures TrimLeft(space + rest) == rest
    decreases |space|
  {
    if space == "" {
      assert space + rest == rest;
    } else {
      assert (space + rest)[1..] == space[1..] + rest;
      SpaceThen(space[1..], rest);
    }
  }

  /** A number is read past any space and one sign, up to the first character
      that is no digit; beyond 32 bits it is an error. */
  lemma StoiReads(space: string, sign: string, n: nat, rest: string)
    requires AllSpace(space) && sign in {"", "+", "-"} && (rest == "" || !IsDigit(rest[0]))
    ensures var value: int := if sign == "-" then -(n as int) else n;
      Stoi(space + (sign + (ToString(n) + rest))) ==
        if -0x8000_0000 <= value <= 0x7fff_ffff then Some(value) else None
  {
    var digits := ToString(n);
    var text := sign + (digits + rest);
    assert IsDigit(digits[0]);
    assert sign == "" ==> text == digits + rest;
    SpaceThen(space, text);
    ValueOfString(n);
    DigitsThen(digits, rest);
    assert (digits + rest)[..|digits|] == digits;
    assert sign != "" ==> text[1..] == digits + rest;
    hide ToString, Value, TrimLeft, DigitCount;
  }

  /** Without a digit there is no number. */
  lemma StoiNeedsDigit(s: string)
    requires forall i :: 0 <= i < |s| ==> !IsDigit(s[i])
    ensures Stoi(s) == None
  {
    TrimLeftFacts(s);
    hide TrimLeft;
  }

  lemma NumberRoundTrip(n: int)
    requires InInt(n)
    ensures Stoi(IntToString(n)) == Some(n)
    ensures Clean(IntToString(n)) && IntToString(n) != ""
  {
    hide ToString, Value;
    var digits := ToString(if n < 0 then -n else n);
    AllDigits(digits);
    ValueOfString(if n < 0 then -n else n);
    assert IsDigit(digits[0]) && IsDigit(digits[|digits| - 1]);
    assert digits[..|digits|] == digits;
    if n < 0 {
      assert IntToString(n)[1..] == digits;
    }
  }

  // ---- Credentials ----

  datatype Credentials = Credentials(host: string, port: int, user: string, pass: string, dbName: string)

  const Defaults := Credentials("", 33060, "", "", "")

  datatype Parsed = Parsed(creds: Credentials, anyField: bool)

  /** One line of the file. */
  function LineRead(p: Parsed, raw: string): Result<Parsed> {
    var line := DropCR(raw);
    if line == "" || line[0] == '[' || line[0] == '#' || line[0] == ';' then Ok(p)
    else
      var eq := IndexOf(line, '=');
      if eq == |line| then Ok(p) else FieldRead(p, Trim(line[..eq]), Trim(line[eq + 1..]))
  }

  function FieldRead(p: Parsed, key: string, val: string): Result<Parsed> {
    if key == "host" then Ok(Parsed(p.creds.(host := val), true))
    else if key == "port" then
      if Stoi(val).Some? then Ok(Parsed(p.creds.(port := Stoi(val).value), true)) else Err(BadPort)
    else if key == "user" then Ok(Parsed(p.creds.(user := val), true))
    else if key == "pass" then Ok(Parsed(p.creds.(pass := val), true))
    else if key == "name" then Ok(Parsed(p.creds.(dbName := val), true))
    else Ok(p)
  }

  function LinesRead(p: Parsed, lines: seq<string>): Result<Parsed>
    decreases lines
  {
    if lines == [] then Ok(p)
    else
      var next := LineRead(p, lines[0]);
      if next.Err? then next else LinesRead(next.value, lines[1..])
  }

  function Checked(p: Parsed): Result<Credentials> {
    if !p.anyField then Err(NoFields)
    else if p.creds.host == "" then Err(MissingHost)
    else if p.creds.user == "" then Err(MissingUser)
    else if p.creds.pass == "" then Err(MissingPass)
    else if p.creds.dbName == "" then Err(MissingName)
    else Ok(p.creds)
  }

  /** `parsePlainText`. */
  function Parse(content: string): Result<Credentials> {
    var read := LinesRead(Parsed(Defaults, false), Lines(content));
    if read.Err? then Err(read.error) else Checked(read.value)
  }

  lemma LinesStep(text: string)
    requires text != ""
    ensures var nl := IndexOf(text, '\n');
      var rest := if nl == |text| then "" else text[nl + 1..];
      Lines(text) == [text[..nl]] + Lines(rest) && ([text[..nl]] + Lines(rest))[1..] == Lines(rest)
  {
    hide IndexOf;
    var nl := IndexOf(text, '\n');
    if nl == |text| {
      assert text[..|text|] == text;
      assert Lines("") == [];
    } else {
      assert Lines(text) == [text[..nl]] + Lines(text[nl + 1..]);
    }
  }

  lemma ReadStep(p: Parsed, line: string, rest: seq<string>)
    ensures LinesRead(p, [line] + rest) ==
      if LineRead(p, line).Err? then LineRead(p, line) else LinesRead(LineRead(p, line).value, rest)
  {
    hide LineRead;
    assert ([line] + rest)[1..] == rest;
  }

  method ParsePlainText(content: string) returns (creds: Result<Credentials>)
    ensures creds == Parse(content)
  {
    hide LineRead, LinesRead, Lines, IndexOf, Checked;
    var p := Parsed(Defaults, false);
    var rest := content;
    while rest != ""
      invariant LinesRead(p, Lines(rest)) == LinesRead(Parsed(Defaults, false), Lines(content))
      decreases |rest|
    {
      LinesStep(rest);
      var nl := IndexOf(rest, '\n');
      var line := rest[..nl];
      rest := if nl == |rest| then "" else rest[nl + 1..];
      ReadStep(p, line, Lines(rest));
      var next := LineRead(p, line);
      if next.Err? {
        return Err(next.error);
      }
      p := next.value;
    }
    NothingLeft(p);
    return Checked(p);
  }

  /** `serializePlain`. */
  function Serialize(c: Credentials): string {
    "[database]" + "\n" +
    ("host=" + c.host + "\n" +
    ("port=" + IntToString(c.port) + "\n" +
    ("user=" + c.user + "\n" +
    ("pass=" + c.pass + "\n" +
    ("name=" + c.dbName + "\n" + "")))))
  }

  // ---- What is parsed survives being written and parsed again ----

  /** Without line breaks, and without space at either end. */
  predicate Clean(s: string) {
    && '\n' !in s
    && (s != "" ==> !IsSpace(s[0]) && !IsSpace(s[|s| - 1]))
  }

  predicate CleanCredentials(c: Credentials) {
    Clean(c.host) && Clean(c.user) && Clean(c.pass) && Clean(c.dbName) && InInt(c.port)
  }

  lemma {:induction false} TrimLeftFacts(s: string)
    ensures var t := TrimLeft(s); |t| <= |s| && t == s[|s| - |t|..] && (t != "" ==> !IsSpace(t[0]))
    decreases |s|
  {
    if s != "" && IsSpace(s[0]) { TrimLeftFacts(s[1..]); }
  }

  lemma {:induction false} TrimRightFacts(s: string)
    ensures var t := TrimRight(s); |t| <= |s| && t == s[..|t|] && (t != "" ==> !IsSpace(t[|t| - 1]))
    decreases |s|
  {
    if s != "" && IsSpace(s[|s| - 1]) {
      TrimRightFacts(s[..|s| - 1]);
    }
  }

  predicate AllSpace(s: string) {
    forall i :: 0 <= i < |s| ==> IsSpace(s[i])
  }

  lemma {:induction false} TrimLeftCuts(s: string)
    ensures |TrimLeft(s)| <= |s| && AllSpace(s[..|s| - |TrimLeft(s)|])
    decreases |s|
  {
    if s != "" && IsSpace(s[0]) {
      TrimLeftCuts(s[1..]);
      var cut := |s| - |TrimLeft(s)|;
      assert s[..cut] == [s[0]] + s[1..][..cut - 1];
    }
  }

  lemma {:induction false} TrimRightCuts(s: string)
    ensures |TrimRight(s)| <= |s| && AllSpace(s[|TrimRight(s)|..])
    decreases |s|
  {
    if s != "" && IsSpace(s[|s| - 1]) {
      var rest := s[..|s| - 1];
      TrimRightCuts(rest);
      assert s[|TrimRight(s)|..] == rest[|TrimRight(s)|..] + [s[|s| - 1]];
    }
  }

  lemma TrimmedStarts(t: string)
    requires t != "" ==> !IsSpace(t[0])
    ensures TrimRight(t) != "" ==> !IsSpace(TrimRight(t)[0])
  {
    TrimRightFacts(t);
    hide TrimRight, IsSpace;
  }

  /** Trimming cuts the spaces at both ends, all of them and nothing else. */
  lemma TrimIs(s: string) returns (left: string, right: string)
    ensures s == left + Trim(s) + right && AllSpace(left) && AllSpace(right)
    ensures Trim(s) != "" ==> !IsSpace(Trim(s)[0]) && !IsSpace(Trim(s)[|Trim(s)| - 1])
  {
    var t := TrimLeft(s);
    TrimLeftFacts(s);
    TrimLeftCuts(s);
    TrimRightFacts(t);
    TrimRightCuts(t);
    TrimmedStarts(t);
    hide TrimLeft, TrimRight, IsSpace;
    left, right := s[..|s| - |t|], t[|TrimRight(t)|..];
    assert s == left + t && t == TrimRight(t) + right;
  }

  /** The characters that count as space. */
  lemma SpaceIs(c: char)
    ensures IsSpace(c) <==> c as int in {9, 10, 11, 12, 13, 32}
  {}

  lemma TrimIsClean(s: string)
    requires '\n' !in s
    ensures Clean(Trim(s))
  {
    TrimLeftFacts(s);
    TrimRightFacts(TrimLeft(s));
  }

  lemma CleanIsTrimmed(s: string)
    requires Clean(s)
    ensures Trim(s) == s
  {}

  lemma LineKeepsClean(p: Parsed, line: string)
    requires CleanCredentials(p.creds) && '\n' !in line && LineRead(p, line).Ok?
    ensures CleanCredentials(LineRead(p, line).value.creds)
  {
    var text := DropCR(line);
    var eq := IndexOf(text, '=');
    if eq < |text| {
      TrimIsClean(text[eq + 1..]);
      if FieldRead(p, Trim(text[..eq]), Trim(text[eq + 1..])).Ok? {
        FieldKeepsClean(p, Trim(text[..eq]), Trim(text[eq + 1..]));
      }
    }
    hide Trim, Clean, FieldRead, CleanCredentials;
  }

  lemma FieldKeepsClean(p: Parsed, key: string, val: string)
    requires CleanCredentials(p.creds) && Clean(val) && FieldRead(p, key, val).Ok?
    ensures CleanCredentials(FieldRead(p, key, val).value.creds)
  {
    hide Clean;
  }

  lemma {:induction false} LinesKeepClean(p: Parsed, lines: seq<string>)
    requires CleanCredentials(p.creds) && LinesRead(p, lines).Ok?
    requires forall i :: 0 <= i < |lines| ==> '\n' !in lines[i]
    ensures CleanCredentials(LinesRead(p, lines).value.creds)
    decreases |lines|
  {
    hide LineRead, CleanCredentials;
    if lines != [] {
      LineKeepsClean(p, lines[0]);
      LinesKeepClean(LineRead(p, lines[0]).value, lines[1..]);
    }
  }

  /** Whatever is parsed is clean and complete. */
  lemma ParsedIsClean(content: string)
    requires Parse(content).Ok?
    ensures var c := Parse(content).value;
      CleanCredentials(c) && c.host != "" && c.user != "" && c.pass != "" && c.dbName != ""
  {
    LinesHaveNoBreak(content);
    LinesKeepClean(Parsed(Defaults, false), Lines(content));
  }

  lemma FieldLine(p: Parsed, key: string, val: string)
    requires key == "host" || key == "port" || key == "user" || key == "pass" || key == "name"
    requires Clean(val) && val != ""
    ensures LineRead(p, key + "=" + val) == FieldRead(p, key, val)
    ensures '\n' !in key + "=" + val
  {
    var line := key + "=" + val;
    assert line[|line| - 1] == val[|val| - 1];
    assert line[4] == '=' && line[..4] == key && line[5..] == val;
    IndexIs(line, '=', 4);
    CleanIsTrimmed(val);
    CleanIsTrimmed(key);
    hide Trim, FieldRead;
  }

  /** The fields may stand with space around them, and the port may be left
      out: it is 33060 then. */
  lemma DefaultPort(c: Credentials)
    requires Clean(c.host) && Clean(c.user) && Clean(c.pass) && Clean(c.dbName)
    requires c.host != "" && c.user != "" && c.pass != "" && c.dbName != ""
    ensures Parse("host=" + c.host + "\n" + ("user=" + c.user + "\n" + ("pass=" + c.pass + "\n"
      + ("name=" + c.dbName + "\n" + "")))) == Ok(c.(port := 33060))
  {
    hide Clean, LinesRead, Lines, LineRead, FieldRead;
    var name := "name=" + c.dbName + "\n" + "";
    var pass := "pass=" + c.pass + "\n" + name;
    var user := "user=" + c.user + "\n" + pass;
    assert "host" + "=" == "host=" && "user" + "=" == "user=" && "pass" + "=" == "pass=" && "name" + "=" == "name=";
    var p1 := FieldOn(Parsed(Defaults, false), "host", c.host, 0, user);
    var p2 := FieldOn(p1, "user", c.user, 0, pass);
    var p3 := FieldOn(p2, "pass", c.pass, 0, name);
    var p4 := FieldOn(p3, "name", c.dbName, 0, "");
    NothingLeft(p4);
    assert p4 == Parsed(c.(port := 33060), true);
  }

  /** What a line does is told by what stands before and after its first `=`,
      without the space around either. */
  lemma LineSets(p: Parsed, key: string, val: string)
    requires '=' !in key && '\r' !in val && key != "" && key[0] !in {'[', '#', ';'}
    ensures LineRead(p, key + "=" + val) == FieldRead(p, Trim(key), Trim(val))
  {
    var line := key + "=" + val;
    assert line[|line| - 1] == if val == "" then '=' else val[|val| - 1];
    assert line[..|key|] == key && line[|key| + 1..] == val;
    IndexIs(line, '=', |key|);
    hide Trim, FieldRead, IndexOf;
  }

  /** A field is set by its name; a line without a `=`, a section, a comment and
      an unknown name set nothing. */
  lemma FieldsByName(p: Parsed, val: string, line: string)
    ensures FieldRead(p, "host", val) == Ok(Parsed(p.creds.(host := val), true))
    ensures FieldRead(p, "user", val) == Ok(Parsed(p.creds.(user := val), true))
    ensures FieldRead(p, "pass", val) == Ok(Parsed(p.creds.(pass := val), true))
    ensures FieldRead(p, "name", val) == Ok(Parsed(p.creds.(dbName := val), true))
    ensures FieldRead(p, "port", val) ==
      if Stoi(val).Some? then Ok(Parsed(p.creds.(port := Stoi(val).value), true)) else Err(BadPort)
    ensures line !in {"host", "port", "user", "pass", "name"} ==> FieldRead(p, line, val) == Ok(p)
    ensures line == "" || line[0] in {'[', '#', ';'} || '=' !in line ==> LineRead(p, line) == Ok(p)
  {
    hide Stoi, IndexOf;
    assert forall c: char :: c !in line ==> c !in DropCR(line);
  }

  /** What is missing is named, in this order. */
  lemma MissingIsNamed(p: Parsed)
    ensures var c, out := p.creds, Checked(p);
      && (out == Err(NoFields) <==> !p.anyField)
      && (out == Err(MissingHost) <==> p.anyField && c.host == "")
      && (out == Err(MissingUser) <==> p.anyField && c.host != "" && c.user == "")
      && (out == Err(MissingPass) <==> p.anyField && c.host != "" && c.user != "" && c.pass == "")
      && (out == Err(MissingName) <==> p.anyField && c.host != "" && c.user != "" && c.pass != "" && c.dbName == "")
      && (out.Ok? ==> out.value == c && c.host != "" && c.user != "" && c.pass != "" && c.dbName != "")
  {}

  lemma {:induction false} ReadOn(p: Parsed, line: string, rest: string)
    requires '\n' !in line && LineRead(p, line).Ok?
    ensures LinesRead(p, Lines(line + "\n" + rest)) == LinesRead(LineRead(p, line).value, Lines(rest))
  {
    FirstLine(line, rest);
    assert ([line] + Lines(rest))[1..] == Lines(rest);
  }

  lemma ParseOfSerialized(c: Credentials)
    requires CleanCredentials(c) && c.host != "" && c.user != "" && c.pass != "" && c.dbName != ""
    ensures Parse(Serialize(c)) == Ok(c)
  {
    hide Clean, LinesRead, Lines, LineRead, FieldRead, Stoi, IntToString;
    var name := "name=" + c.dbName + "\n" + "";
    var pass := "pass=" + c.pass + "\n" + name;
    var user := "user=" + c.user + "\n" + pass;
    var port := "port=" + IntToString(c.port) + "\n" + user;
    var host := "host=" + c.host + "\n" + port;
    assert "host" + "=" == "host=" && "port" + "=" == "port=" && "user" + "=" == "user=";
    assert "pass" + "=" == "pass=" && "name" + "=" == "name=";
    var p0 := Parsed(Defaults, false);
    SectionLine(p0, host);
    var p1 := FieldOn(p0, "host", c.host, c.port, port);
    var p2 := FieldOn(p1, "port", IntToString(c.port), c.port, user);
    var p3 := FieldOn(p2, "user", c.user, c.port, pass);
    var p4 := FieldOn(p3, "pass", c.pass, c.port, name);
    var p5 := FieldOn(p4, "name", c.dbName, c.port, "");
    NothingLeft(p5);
    assert Serialize(c) == "[database]" + "\n" + host;
    assert p5 == Parsed(c, true);
  }

  lemma NothingLeft(p: Parsed)
    ensures LinesRead(p, Lines("")) == Ok(p)
  {}

  lemma SectionLine(p: Parsed, rest: string)
    ensures LinesRead(p, Lines("[database]" + "\n" + rest)) == LinesRead(p, Lines(rest))
  {
    ReadOn(p, "[database]", rest);
  }

  /** Reading on past a line that gives `key` the value `val`; for the port,
      `val` is the number `n`. */
  lemma FieldOn(p: Parsed, key: string, val: string, n: int, rest: string) returns (p': Parsed)
    requires key == "host" || key == "port" || key == "user" || key == "pass" || key == "name"
    requires if key == "port" then InInt(n) && val == IntToString(n) else Clean(val) && val != ""
    ensures LinesRead(p, Lines(key + "=" + val + "\n" + rest)) == LinesRead(p', Lines(rest))
    ensures p'.anyField && p'.creds ==
      if key == "host" then p.creds.(host := val)
      else if key == "port" then p.creds.(port := n)
      else if key == "user" then p.creds.(user := val)
      else if key == "pass" then p.creds.(pass := val)
      else p.creds.(dbName := val)
  {
    if key == "port" { NumberRoundTrip(n); }
    p' := FieldRead(p, key, val).value;
    hide Clean, FieldRead, LinesRead, Lines, LineRead, Stoi;
    FieldLine(p, key, val);
    ReadOn(p, key + "=" + val, rest);
  }

  /** What a text parses to, written out, parses to the same. */
  lemma ParseIsStable(content: string)
    requires Parse(content).Ok?
    ensures Parse(Serialize(Parse(content).value)) == Parse(content)
  {
    ParsedIsClean(content);
    ParseOfSerialized(Parse(content).value);
  }

  // ---- Bytes ----

  /** A character of the file is a byte. */
  predicate ByteText(s: string) {
    forall c :: c in s ==> c as int < 256
  }

  predicate ByteCredentials(c: Credentials) {
    ByteText(c.host) && ByteText(c.user) && ByteText(c.pass) && ByteText(c.dbName)
  }

  lemma PartIsBytes(s: string, lo: nat, hi: nat)
    requires ByteText(s) && lo <= hi <= |s|
    ensures ByteText(s[lo..hi])
  {
    forall c | c in s[lo..hi] ensures c as int < 256 {
      var k :| 0 <= k < hi - lo && s[lo..hi][k] == c;
      assert s[lo + k] in s;
    }
  }

  lemma TrimKeepsBytes(s: string)
    requires ByteText(s)
    ensures ByteText(Trim(s))
  {
    var t := TrimLeft(s);
    TrimLeftFacts(s);
    TrimRightFacts(t);
    PartIsBytes(s, |s| - |t|, |s|);
    assert s[|s| - |t|..|s|] == t;
    PartIsBytes(t, 0, |Trim(s)|);
    assert t[0..|Trim(s)|] == Trim(s);
  }

  lemma {:induction false} LinesAreBytes(content: string)
    requires ByteText(content)
    ensures forall line :: line in Lines(content) ==> ByteText(line)
    decreases |content|
  {
    if content != "" {
      var nl := IndexOf(content, '\n');
      PartIsBytes(content, 0, nl);
      assert content[0..nl] == content[..nl];
      if nl < |content| {
        PartIsBytes(content, nl + 1, |content|);
        assert content[nl + 1..|content|] == content[nl + 1..];
        LinesAreBytes(content[nl + 1..]);
      }
    }
  }

  lemma LineKeepsBytes(p: Parsed, line: string)
    requires ByteCredentials(p.creds) && ByteText(line) && LineRead(p, line).Ok?
    ensures ByteCredentials(LineRead(p, line).value.creds)
  {
    var text := DropCR(line);
    var eq := IndexOf(text, '=');
    PartIsBytes(line, 0, |text|);
    assert line[0..|text|] == text;
    if eq < |text| {
      PartIsBytes(text, eq + 1, |text|);
      assert text[eq + 1..|text|] == text[eq + 1..];
      TrimKeepsBytes(text[eq + 1..]);
    }
    hide Trim, ByteText;
  }

  lemma {:induction false} LinesKeepBytes(p: Parsed, lines: seq<string>)
    requires ByteCredentials(p.creds) && LinesRead(p, lines).Ok?
    requires forall line :: line in lines ==> ByteText(line)
    ensures ByteCredentials(LinesRead(p, lines).value.creds)
    decreases |lines|
  {
    hide LineRead, ByteCredentials, ByteText;
    if lines != [] {
      LineKeepsBytes(p, lines[0]);
      LinesKeepBytes(LineRead(p, lines[0]).value, lines[1..]);
    }
  }

  lemma ParsedIsBytes(content: string)
    requires ByteText(content) && Parse(content).Ok?
    ensures ByteCredentials(Parse(content).value)
  {
    LinesAreBytes(content);
    LinesKeepBytes(Parsed(Defaults, false), Lines(content));
  }

  lemma SerializedIsBytes(c: Credentials)
    requires ByteCredentials(c)
    ensures ByteText(Serialize(c))
  {
    assert ByteText(IntToString(c.port)) by {
      var digits := ToString(if c.port < 0 then -c.port else c.port);
      assert forall d :: d in digits ==> IsDigit(d);
    }
    hide IntToString;
  }

  // ---- Sealing ----

  const MAGIC := "DBCFG_V1_ENC"
  const NONCE_LEN := 12
  const TAG_LEN := 16

  /** AES-256-GCM under the key of this machine: `seal` gives ciphertext and
      tag, `unseal` nothing when the tag does not fit. */
  datatype Cipher = Cipher(
    seal: (seq<Byte>, string) -> (seq<Byte>, seq<Byte>),
    unseal: (seq<Byte>, seq<Byte>, seq<Byte>) -> Option<string>)

  /** The one law that is needed: bytes that were sealed can be unsealed. */
  ghost predicate Lawful(cipher: Cipher) {
    forall nonce, text :: ByteText(text) ==> Sealed(cipher, nonce, text)
  }

  predicate Sealed(cipher: Cipher, nonce: seq<Byte>, text: string) {
    var (bytes, tag) := cipher.seal(nonce, text);
    |bytes| == |text| && |tag| == TAG_LEN && cipher.unseal(nonce, bytes, tag) == Some(text)
  }

  function Codes(text: string): seq<Byte> {
    seq(|text|, i requires 0 <= i < |text| => text[i] as int % 256)
  }

  function Chars(bytes: seq<Byte>): string {
    seq(|bytes|, i requires 0 <= i < |bytes| => bytes[i] as char)
  }

  /** A cipher that hides nothing: the text as it stands, under one tag. */
  function PlainCipher(): Cipher {
    Cipher((nonce, text) => (Codes(text), seq(TAG_LEN, _ => 0)), (nonce, bytes, tag) => Some(Chars(bytes)))
  }

  /** So there are lawful ciphers. */
  lemma PlainIsLawful()
    ensures Lawful(PlainCipher())
  {
    forall nonce: seq<Byte>, text | ByteText(text) ensures Sealed(PlainCipher(), nonce, text) {
      forall i | 0 <= i < |text| ensures Chars(Codes(text))[i] == text[i] { assert text[i] in text; }
      assert Chars(Codes(text)) == text;
    }
  }

  /** `encryptCredentials`: the four lines. */
  function Encrypted(cipher: Cipher, nonce: seq<Byte>, creds: Credentials): string {
    var (bytes, tag) := cipher.seal(nonce, Serialize(creds));
    MAGIC + "\n" + (HexOf(nonce) + "\n" + (HexOf(tag) + "\n" + (HexOf(bytes) + "\n" + "")))
  }

  /** `decryptAndVerify`.  A missing line reads as one of the wrong length. */
  function Decrypted(cipher: Cipher, content: string): Result<Credentials> {
    var lines := Lines(content);
    if |lines| < 1 || lines[0] != MAGIC then Err(BadFormat)
    else if |lines| < 2 || |lines[1]| != NONCE_LEN * 2 then Err(BadNonce)
    else if |lines| < 3 || |lines[2]| != TAG_LEN * 2 then Err(BadTag)
    else if |lines| < 4 || lines[3] == "" then Err(BadCiphertext)
    else
      var nonce, tag, bytes := Unhexed(DropCR(lines[1])), Unhexed(DropCR(lines[2])), Unhexed(DropCR(lines[3]));
      if nonce.Err? || tag.Err? || bytes.Err? then Err(OddHex)
      else
        var text := cipher.unseal(nonce.value, bytes.value, tag.value);
        if text.None? then Err(Tampered) else Parse(text.value)
  }

  predicate IsEncrypted(content: string) {
    |content| >= |MAGIC| && content[..|MAGIC|] == MAGIC
  }

  /** `load` on the content of the file: the credentials, and the content it
      leaves.  `nonce` is drawn when it encrypts. */
  function Loaded(cipher: Cipher, nonce: seq<Byte>, content: string): (Result<Credentials>, string) {
    if IsEncrypted(content) then (Decrypted(cipher, content), content)
    else
      var creds := Parse(content);
      (creds, if creds.Ok? then Encrypted(cipher, nonce, creds.value) else content)
  }

  class ConfigFile {
    var content: string

    constructor (content: string)
      ensures this.content == content
    {
      this.content := content;
    }

    method Load(cipher: Cipher, nonce: seq<Byte>) returns (creds: Result<Credentials>)
      modifies this
      ensures (creds, content) == Loaded(cipher, nonce, old(content))
    {
      if IsEncrypted(content) {
        creds := Decrypted(cipher, content);
      } else {
        creds := ParsePlainText(content);
        if creds.Ok? {
          content := Encrypted(cipher, nonce, creds.value);
        }
      }
    }
  }

  /** A load that fails leaves the file as it was, and so does one of an encrypted
      file; any other leaves the four lines. */
  lemma LoadLeaves(cipher: Cipher, nonce: seq<Byte>, content: string)
    ensures var (creds, left) := Loaded(cipher, nonce, content);
      && (creds.Err? || IsEncrypted(content) ==> left == content)
      && (creds.Ok? && !IsEncrypted(content) ==>
            var (bytes, tag) := cipher.seal(nonce, Serialize(creds.value));
            left == "DBCFG_V1_ENC\n" + HexOf(nonce) + "\n" + HexOf(tag) + "\n" + HexOf(bytes) + "\n")
  {
    hide Parse, Decrypted, Serialize, HexOf;
  }

  lemma EncryptedLines(cipher: Cipher, nonce: seq<Byte>, creds: Credentials)
    ensures var (bytes, tag) := cipher.seal(nonce, Serialize(creds));
      var lines := Lines(Encrypted(cipher, nonce, creds));
      && |lines| == 4 && lines[0] == MAGIC
      && lines[1] == HexOf(nonce) && lines[2] == HexOf(tag) && lines[3] == HexOf(bytes)
  {
    var (bytes, tag) := cipher.seal(nonce, Serialize(creds));
    HexRoundTrip(nonce);
    HexRoundTrip(tag);
    HexRoundTrip(bytes);
    hide Serialize, HexOf, Lines;
    EmptyHasNoLines();
    FirstLine(MAGIC, HexOf(nonce) + "\n" + (HexOf(tag) + "\n" + (HexOf(bytes) + "\n" + "")));
    FirstLine(HexOf(nonce), HexOf(tag) + "\n" + (HexOf(bytes) + "\n" + ""));
    FirstLine(HexOf(tag), HexOf(bytes) + "\n" + "");
    FirstLine(HexOf(bytes), "");
  }

  lemma EmptyHasNoLines()
    ensures Lines("") == []
  {}

  lemma HexHasNoCR(buf: seq<Byte>)
    ensures DropCR(HexOf(buf)) == HexOf(buf) && Unhexed(DropCR(HexOf(buf))) == Ok(buf)
  {
    HexRoundTrip(buf);
  }

  /** A file counts as encrypted iff it starts with the magic word. */
  lemma IsEncryptedIff(content: string)
    ensures IsEncrypted(content) <==> exists rest :: content == "DBCFG_V1_ENC" + rest
  {
    if IsEncrypted(content) { assert content == "DBCFG_V1_ENC" + content[12..]; }
    if rest :| content == "DBCFG_V1_ENC" + rest { assert content[..12] == "DBCFG_V1_ENC"; }
  }

  /** The lines are checked in turn: the magic word, 24 characters of nonce, 32 of
      tag, and something to decrypt. */
  lemma LinesAreChecked(cipher: Cipher, content: string)
    ensures var lines, out := Lines(content), Decrypted(cipher, content);
      var marked := |lines| > 0 && lines[0] == "DBCFG_V1_ENC";
      var nonce := marked && |lines| > 1 && |lines[1]| == 24;
      var tag := nonce && |lines| > 2 && |lines[2]| == 32;
      && (!marked ==> out == Err(BadFormat))
      && (marked && !nonce ==> out == Err(BadNonce))
      && (nonce && !tag ==> out == Err(BadTag))
      && (tag && (|lines| == 3 || lines[3] == "") ==> out == Err(BadCiphertext))
  {
    hide Parse, Lines, Unhexed;
  }

  lemma DecryptedLines(cipher: Cipher, content: string, nonce: seq<Byte>, tag: seq<Byte>, bytes: seq<Byte>)
    requires var lines := Lines(content);
      && |lines| == 4 && lines[0] == MAGIC
      && lines[1] == HexOf(nonce) && lines[2] == HexOf(tag) && lines[3] == HexOf(bytes)
    requires |nonce| == NONCE_LEN && |tag| == TAG_LEN && |bytes| > 0
    ensures var text := cipher.unseal(nonce, bytes, tag);
      Decrypted(cipher, content) == if text.None? then Err(Tampered) else Parse(text.value)
  {
    hide Parse, HexOf, Unhexed, DropCR, Lines;
    HexLength(nonce);
    HexLength(tag);
    HexLength(bytes);
    HexHasNoCR(nonce);
    HexHasNoCR(tag);
    HexHasNoCR(bytes);
  }

  /** The four lines give the credentials back. */
  lemma DecryptedIsEncrypted(cipher: Cipher, nonce: seq<Byte>, creds: Credentials)
    requires Lawful(cipher) && |nonce| == NONCE_LEN && ByteCredentials(creds) && Parse(Serialize(creds)) == Ok(creds)
    ensures Decrypted(cipher, Encrypted(cipher, nonce, creds)) == Ok(creds)
  {
    var (bytes, tag) := cipher.seal(nonce, Serialize(creds));
    EncryptedLines(cipher, nonce, creds);
    SerializedIsBytes(creds);
    SealedAs(cipher, nonce, Serialize(creds));
    SerializedIsLong(creds);
    hide Serialize, Parse, Encrypted, Lines, Lawful, Decrypted;
    DecryptedLines(cipher, Encrypted(cipher, nonce, creds), nonce, tag, bytes);
  }

  lemma SealedAs(cipher: Cipher, nonce: seq<Byte>, text: string)
    requires Lawful(cipher) && ByteText(text)
    ensures var (bytes, tag) := cipher.seal(nonce, text);
      |bytes| == |text| && |tag| == TAG_LEN && cipher.unseal(nonce, bytes, tag) == Some(text)
  {
    assert Sealed(cipher, nonce, text);
  }

  lemma HexLength(buf: seq<Byte>)
    ensures |HexOf(buf)| == 2 * |buf|
  {
    HexRoundTrip(buf);
  }

  lemma SerializedIsLong(creds: Credentials)
    ensures |Serialize(creds)| > 0
  {}

  /** A file that loads is in the encrypted form afterwards, and loading it
      again gives the same credentials and changes nothing more. */
  lemma LoadTwice(cipher: Cipher, nonce: seq<Byte>, nonce': seq<Byte>, content: string)
    requires Lawful(cipher) && |nonce| == NONCE_LEN && ByteText(content) && Loaded(cipher, nonce, content).0.Ok?
    ensures var (creds, sealed') := Loaded(cipher, nonce, content);
      IsEncrypted(sealed') && Loaded(cipher, nonce', sealed') == (creds, sealed')
  {
    if !IsEncrypted(content) {
      var creds := Parse(content).value;
      ParseIsStable(content);
      ParsedIsBytes(content);
      DecryptedIsEncrypted(cipher, nonce, creds);
      EncryptedIsMarked(cipher, nonce, creds);
    }
    hide Parse, Serialize, Decrypted, Encrypted, IsEncrypted;
  }

  lemma EncryptedIsMarked(cipher: Cipher, nonce: seq<Byte>, creds: Credentials)
    ensures IsEncrypted(Encrypted(cipher, nonce, creds))
  {
    hide Serialize, HexOf;
    assert Encrypted(cipher, nonce, creds)[..|MAGIC|] == MAGIC;
  }

  // ---- One load, to the letter ----

  const SAMPLE := Credentials("h", 1, "u", "p", "n")

  lemma SampleIsPlain()
    ensures ByteText(Serialize(SAMPLE)) && !IsEncrypted(Serialize(SAMPLE)) && Parse(Serialize(SAMPLE)) == Ok(SAMPLE)
  {
    SerializedIsBytes(SAMPLE);
    ParseOfSerialized(SAMPLE);
    hide Parse, ByteText, IntToString;
    assert Serialize(SAMPLE)[0] == '[' && MAGIC[0] == 'D';
  }

  /** A plain file loads, is sealed, and loads again from its sealed form. */
  lemma SampleLoads(nonce: seq<Byte>)
    requires |nonce| == NONCE_LEN
    ensures ByteText(Serialize(SAMPLE)) && Loaded(PlainCipher(), nonce, Serialize(SAMPLE)).0 == Ok(SAMPLE)
    ensures Loaded(PlainCipher(), nonce, Loaded(PlainCipher(), nonce, Serialize(SAMPLE)).1).0 == Ok(SAMPLE)
  {
    hide Parse, Decrypted, Encrypted, PlainCipher, Lawful, ByteText;
    SampleIsPlain();
    PlainIsLawful();
    hide Serialize, IsEncrypted;
    LoadTwice(PlainCipher(), nonce, nonce, Serialize(SAMPLE));
  }
}
