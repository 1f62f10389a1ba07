/** The payload scan and the risk score of the fraud engine. */
module FalconRisk {
  import opened Json

  const MARKERS := [
    "<script", "javascript:", "onerror=", "union select", " or 1=1", "drop table", "../", "..\\", "/etc/passwd",
    "cmd.exe", "powershell", "wget ", "curl ", "${jndi:", "base64,", "xp_cmdshell", "sleep("]

  const MAX_DEPTH := 4
  const MAX_CHARS := 4_096

  function LowerChar(c: char): char {
    if 'A' <= c <= 'Z' then (c as int + 32) as char else c
  }

  function Lower(s: string): (t: string)
    ensures |t| == |s| && forall i :: 0 <= i < |s| ==> t[i] == LowerChar(s[i])
  {
    seq(|s|, i requires 0 <= i < |s| => LowerChar(s[i]))
  }

  /** `find`: the marker stands somewhere in the text. */
  predicate Contains(text: string, marker: string) {
    marker <= text || (text != "" && Contains(text[1..], marker))
  }

  predicate ContainsAny(text: string) {
    exists k | 0 <= k < |MARKERS| :: Contains(Lower(text), MARKERS[k])
  }

  /** `c` and `d` are one letter in two cases, or the same. */
  predicate SameLetter(c: char, d: char) {
    c == d || ('A' <= c <= 'Z' && d as int == c as int + 32)
  }

  /** From `i` on the text reads as the marker, capitals as small letters. */
  predicate ReadsAt(text: string, marker: string, i: nat) {
    i + |marker| <= |text| && forall k :: 0 <= k < |marker| ==>
      SameLetter(text[i + k], marker[k]) && !('A' <= marker[k] <= 'Z')
  }

  lemma {:induction false} ContainsAt(text: string, marker: string)
    ensures Contains(text, marker) <==> exists i :: 0 <= i <= |text| - |marker| && marker <= text[i..]
    decreases |text|
  {
    if marker <= text { assert marker <= text[0..]; }
    if text != "" {
      ContainsAt(text[1..], marker);
      if i :| 0 <= i <= |text[1..]| - |marker| && marker <= text[1..][i..] {
        assert text[i + 1..] == text[1..][i..];
      }
      if i :| 0 < i <= |text| - |marker| && marker <= text[i..] {
        assert text[1..][i - 1..] == text[i..];
      }
    }
  }

  /** A text has a marker iff from some place on it reads as one of them, in
      capitals or not. */
  lemma ContainsAnyIff(text: string)
    ensures ContainsAny(text) <==>
      exists k, i :: 0 <= k < |MARKERS| && 0 <= i <= |text| && ReadsAt(text, MARKERS[k], i)
  {
    MarkersAreSmall();
    forall k | 0 <= k < |MARKERS|
      ensures Contains(Lower(text), MARKERS[k]) <==> exists i :: 0 <= i <= |text| && ReadsAt(text, MARKERS[k], i)
    {
      ContainsAt(Lower(text), MARKERS[k]);
      forall i | 0 <= i <= |text| - |MARKERS[k]|
        ensures MARKERS[k] <= Lower(text)[i..] <==> ReadsAt(text, MARKERS[k], i)
      {
        PrefixReads(text, MARKERS[k], i);
      }
    }
  }

  lemma PrefixReads(text: string, marker: string, i: nat)
    requires i + |marker| <= |text| && forall k :: 0 <= k < |marker| ==> !('A' <= marker[k] <= 'Z')
    ensures marker <= Lower(text)[i..] <==> ReadsAt(text, marker, i)
  {
    forall k | 0 <= k < |marker| ensures Lower(text)[i..][k] == marker[k] <==> SameLetter(text[i + k], marker[k]) {}
    if ReadsAt(text, marker, i) {
      assert Lower(text)[i..][..|marker|] == marker;
    }
  }

  lemma MarkersAreSmall()
    ensures forall k, j :: 0 <= k < |MARKERS| && 0 <= j < |MARKERS[k]| ==> !('A' <= MARKERS[k][j] <= 'Z')
  {}

  predicate Skipped(key: string) {
    key != "" && key[0] == '_'
  }

  // ---- The scan ----

  datatype Scan = Scan(remaining: nat, matched: bool)

  predicate Stopped(s: Scan) {
    s.matched || s.remaining == 0
  }

  /** `scanJsonForAttackMarkers`, with what is left of its budget. */
  function Scanned(value: Value, depth: nat, s: Scan): Scan {
    if Stopped(s) || depth > MAX_DEPTH then s
    else
      match value
      case Str(chars) =>
        var text := if |chars| > s.remaining then chars[..s.remaining] else chars;
        Scan(s.remaining - |text|, ContainsAny(text))
      case Array(items) => ScannedItems(items, depth, s)
      case Object(fields) => ScannedFields(fields, depth, s)
      case _ => s
  }

  function ScannedItems(items: Items, depth: nat, s: Scan): Scan {
    match items
    case Nil => s
    case Item(head, tail) =>
      var next := Scanned(head, depth + 1, s);
      if Stopped(next) then next else ScannedItems(tail, depth, next)
  }

  function ScannedFields(fields: Fields, depth: nat, s: Scan): Scan {
    match fields
    case End => s
    case Field(key, value, rest) =>
      if Skipped(key) then ScannedFields(rest, depth, s)
      else if ContainsAny(key) then s.(matched := true)
      else
        var next := Scanned(value, depth + 1, s);
        if Stopped(next) then next else ScannedFields(rest, depth, next)
  }

  // ---- The scan without a budget ----

  /** A marker stands in some string or key outside the skipped fields. */
  predicate Marked(value: Value) {
    match value
    case Str(chars) => ContainsAny(chars)
    case Array(items) => MarkedItems(items)
    case Object(fields) => MarkedFields(fields)
    case _ => false
  }

  predicate MarkedItems(items: Items) {
    items.Item? && (Marked(items.head) || MarkedItems(items.tail))
  }

  predicate MarkedFields(fields: Fields) {
    && fields.Field?
    && ((!Skipped(fields.key) && (ContainsAny(fields.key) || Marked(fields.value))) || MarkedFields(fields.rest))
  }

  /** A field is looked at, key and value, unless its key starts with an
      underscore. */
  lemma FieldIsMarkedIff(key: string, value: Value)
    ensures var field := Object(Field(key, value, End));
      && (key == "" || key[0] != '_' ==> (Marked(field) <==> ContainsAny(key) || Marked(value)))
      && (key != "" && key[0] == '_' ==> !Marked(field))
  {
    hide ContainsAny;
    var fields := Field(key, value, End);
    assert Marked(Object(fields)) == MarkedFields(fields);
    assert !MarkedFields(End);
  }

  /** The characters of the strings that are looked at. */
  function Size(value: Value): nat {
    match value
    case Str(chars) => |chars|
    case Array(items) => SizeOfItems(items)
    case Object(fields) => SizeOfFields(fields)
    case _ => 0
  }

  function SizeOfItems(items: Items): nat {
    match items
    case Nil => 0
    case Item(head, tail) => Size(head) + SizeOfItems(tail)
  }

  function SizeOfFields(fields: Fields): nat {
    match fields
    case End => 0
    case Field(key, value, rest) => (if Skipped(key) then 0 else Size(value)) + SizeOfFields(rest)
  }

  function Max(a: nat, b: nat): nat {
    if a >= b then a else b
  }

  function Depth(value: Value): nat {
    match value
    case Array(items) => DepthOfItems(items)
    case Object(fields) => DepthOfFields(fields)
    case _ => 0
  }

  function DepthOfItems(items: Items): nat {
    match items
    case Nil => 0
    case Item(head, tail) => Max(1 + Depth(head), DepthOfItems(tail))
  }

  function DepthOfFields(fields: Fields): nat {
    match fields
    case End => 0
    case Field(key, value, rest) => Max(1 + Depth(value), DepthOfFields(rest))
  }

  // ---- A match is never wrong ----

  lemma {:induction false} ContainsInPrefix(text: string, n: nat, marker: string)
    requires n <= |text| && Contains(text[..n], marker)
    ensures Contains(text, marker)
    decreases n
  {
    if !(marker <= text[..n]) {
      assert text[..n][1..] == text[1..][..n - 1];
      ContainsInPrefix(text[1..], n - 1, marker);
    }
  }

  lemma CutIsPart(text: string, n: nat)
    requires n <= |text| && ContainsAny(text[..n])
    ensures ContainsAny(text)
  {
    var k :| 0 <= k < |MARKERS| && Contains(Lower(text[..n]), MARKERS[k]);
    assert Lower(text[..n]) == Lower(text)[..n];
    ContainsInPrefix(Lower(text), n, MARKERS[k]);
  }

  /** Whatever the budget, a match is a marker that is there. */
  lemma {:induction false} ScanIsSound(value: Value, depth: nat, s: Scan)
    requires !s.matched
    ensures Scanned(value, depth, s).matched ==> Marked(value)
    decreases value
  {
    hide ContainsAny;
    if !Stopped(s) && depth <= MAX_DEPTH {
      match value
      case Str(chars) =>
        if |chars| > s.remaining && ContainsAny(chars[..s.remaining]) { CutIsPart(chars, s.remaining); }
      case Array(items) => ItemsAreSound(items, depth, s);
      case Object(fields) => FieldsAreSound(fields, depth, s);
      case _ =>
    }
  }

  lemma {:induction false} ItemsAreSound(items: Items, depth: nat, s: Scan)
    requires !s.matched
    ensures ScannedItems(items, depth, s).matched ==> MarkedItems(items)
    decreases items
  {
    hide ContainsAny;
    if items.Item? {
      ScanIsSound(items.head, depth + 1, s);
      if !Stopped(Scanned(items.head, depth + 1, s)) {
        ItemsAreSound(items.tail, depth, Scanned(items.head, depth + 1, s));
      }
    }
  }

  lemma {:induction false} FieldsAreSound(fields: Fields, depth: nat, s: Scan)
    requires !s.matched
    ensures ScannedFields(fields, depth, s).matched ==> MarkedFields(fields)
    decreases fields
  {
    hide ContainsAny;
    if fields.Field? {
      if Skipped(fields.key) {
        FieldsAreSound(fields.rest, depth, s);
      } else if !ContainsAny(fields.key) {
        ScanIsSound(fields.value, depth + 1, s);
        if !Stopped(Scanned(fields.value, depth + 1, s)) {
          FieldsAreSound(fields.rest, depth, Scanned(fields.value, depth + 1, s));
        }
      }
    }
  }

  // ---- Within the budget nothing is missed ----

  lemma {:induction false} ScanIsComplete(value: Value, depth: nat, s: Scan)
    requires !s.matched && Size(value) < s.remaining && depth + Depth(value) <= MAX_DEPTH
    ensures Scanned(value, depth, s).matched <==> Marked(value)
    ensures !Marked(value) ==> Scanned(value, depth, s).remaining == s.remaining - Size(value)
    decreases value
  {
    hide ContainsAny;
    match value
    case Str(chars) =>
    case Array(items) => ItemsAreComplete(items, depth, s);
    case Object(fields) => FieldsAreComplete(fields, depth, s);
    case _ =>
  }

  lemma {:induction false} ItemsAreComplete(items: Items, depth: nat, s: Scan)
    requires !s.matched && SizeOfItems(items) < s.remaining && depth + DepthOfItems(items) <= MAX_DEPTH
    ensures ScannedItems(items, depth, s).matched <==> MarkedItems(items)
    ensures !MarkedItems(items) ==> ScannedItems(items, depth, s).remaining == s.remaining - SizeOfItems(items)
    decreases items
  {
    hide ContainsAny;
    if items.Item? {
      ScanIsComplete(items.head, depth + 1, s);
      if !Marked(items.head) {
        ItemsAreComplete(items.tail, depth, Scanned(items.head, depth + 1, s));
      }
    }
  }

  lemma {:induction false} FieldsAreComplete(fields: Fields, depth: nat, s: Scan)
    requires !s.matched && SizeOfFields(fields) < s.remaining && depth + DepthOfFields(fields) <= MAX_DEPTH
    ensures ScannedFields(fields, depth, s).matched <==> MarkedFields(fields)
    ensures !MarkedFields(fields) ==> ScannedFields(fields, depth, s).remaining == s.remaining - SizeOfFields(fields)
    decreases fields
  {
    hide ContainsAny;
    if fields.Field? {
      if Skipped(fields.key) {
        FieldsAreComplete(fields.rest, depth, s);
      } else if !ContainsAny(fields.key) {
        ScanIsComplete(fields.value, depth + 1, s);
        if !Marked(fields.value) {
          FieldsAreComplete(fields.rest, depth, Scanned(fields.value, depth + 1, s));
        }
      }
    }
  }

  /** On a payload of depth 4 and less than 4096 characters the scan finds a
      marker iff there is one. */
  lemma ScanFindsAll(data: Value)
    requires Depth(data) <= 4 && Size(data) < 4_096
    ensures Scanned(data, 0, Scan(4_096, false)).matched <==> Marked(data)
  {
    ScanIsComplete(data, 0, Scan(MAX_CHARS, false));
  }

  /** Of a text only the characters that are left of the budget are looked at,
      and deeper than 4 nothing is. */
  lemma ScanIsCut(text: string, value: Value, depth: nat, s: Scan)
    requires !s.matched && s.remaining < |text|
    ensures depth <= 4 ==> Scanned(Str(text), depth, s) == Scan(0, s.remaining > 0 && ContainsAny(text[..s.remaining]))
    ensures depth > 4 ==> Scanned(value, depth, s) == s
  {
    hide ContainsAny;
  }

  // ---- The score ----

  const FALCON_AI_DECLINE_SCORE := 85

  datatype Risk = Risk(points: nat, signal: string)

  function Min(a: int, b: int): int {
    if a <= b then a else b
  }

  /** The points of all signals, a repeated signal counting each time. */
  function Points(risks: seq<Risk>): nat {
    if risks == [] then 0 else Points(risks[..|risks| - 1]) + risks[|risks| - 1].points
  }

  /** The signals in the order of their first appearance. */
  function Signals(risks: seq<Risk>): seq<string> {
    if risks == [] then []
    else
      var before := Signals(risks[..|risks| - 1]);
      var signal := risks[|risks| - 1].signal;
      if signal in before then before else before + [signal]
  }

  class RiskScore {
    var score: int
    var signals: seq<string>
    var signalSet: set<string>

    ghost predicate Shows(risks: seq<Risk>)
      reads this
    {
      && score == Min(100, Points(risks))
      && signals == Signals(risks)
      && forall s :: s in signalSet <==> s in signals
    }

    constructor ()
      ensures Shows([])
    {
      score, signals, signalSet := 0, [], {};
    }

    /** `addRisk`. */
    method AddRisk(points: nat, signal: string, ghost before: seq<Risk>)
      requires Shows(before)
      modifies this
      ensures Shows(before + [Risk(points, signal)])
    {
      assert (before + [Risk(points, signal)])[..|before|] == before;
      score := if 100 <= score + points then 100 else score + points;
      if signal !in signalSet {
        signalSet := signalSet + {signal};
        signals := signals + [signal];
      }
    }
  }

  function Scored(risks: seq<Risk>): int {
    if risks == [] then 0 else Min(100, Scored(risks[..|risks| - 1]) + risks[|risks| - 1].points)
  }

  /** Capping at every step is capping once, and the transaction is declined iff the points reach 85. */
  lemma {:induction false} ScoreIsCappedSum(risks: seq<Risk>)
    ensures Scored(risks) == Min(100, Points(risks))
    ensures Scored(risks) >= FALCON_AI_DECLINE_SCORE <==> Points(risks) >= FALCON_AI_DECLINE_SCORE
    decreases |risks|
  {
    if risks != [] { ScoreIsCappedSum(risks[..|risks| - 1]); }
  }

  lemma {:induction false} PointsOfParts(a: seq<Risk>, b: seq<Risk>)
    ensures Points(a + b) == Points(a) + Points(b)
    decreases |b|
  {
    if b == [] {
      assert a + b == a;
    } else {
      assert (a + b)[..|a + b| - 1] == a + b[..|b| - 1];
      PointsOfParts(a, b[..|b| - 1]);
    }
  }

  function Without(risks: seq<Risk>, i: nat): seq<Risk>
    requires i < |risks|
  {
    risks[..i] + risks[i + 1..]
  }

  lemma BagOfThree(front: seq<Risk>, one: seq<Risk>, back: seq<Risk>)
    ensures multiset(front + one + back) == multiset(front + back) + multiset(one)
  {}

  lemma {:induction false} BagWithout(a: seq<Risk>, b: seq<Risk>, i: nat)
    requires a != [] && multiset(a) == multiset(b) && i < |b| && b[i] == a[|a| - 1]
    ensures multiset(a[..|a| - 1]) == multiset(Without(b, i))
  {
    var before, one, front, back := a[..|a| - 1], [b[i]], b[..i], b[i + 1..];
    assert a == before + one;
    assert b == front + one + back;
    calc {
      multiset(before);
      multiset(before + one) - multiset(one);
      multiset(front + one + back) - multiset(one);
      { BagOfThree(front, one, back); }
      multiset(front + back);
    }
  }

  lemma PointsOfOne(risk: Risk)
    ensures Points([risk]) == risk.points
  {
    assert [risk][..0] == [];
  }

  lemma {:induction false} PointsWithout(risks: seq<Risk>, i: nat)
    requires i < |risks|
    ensures Points(risks) == Points(Without(risks, i)) + risks[i].points
  {
    var front, one, back := risks[..i], [risks[i]], risks[i + 1..];
    PointsOfOne(risks[i]);
    hide Points;
    assert risks == front + one + back;
    PointsOfParts(front + one, back);
    PointsOfParts(front, one);
    PointsOfParts(front, back);
  }

  lemma {:induction false} PointsOfBag(a: seq<Risk>, b: seq<Risk>)
    requires multiset(a) == multiset(b)
    ensures Points(a) == Points(b)
    decreases |a|
  {
    assert |multiset(a)| == |a| && |multiset(b)| == |b|;
    if a != [] {
      assert a[|a| - 1] in multiset(a);
      var i :| 0 <= i < |b| && b[i] == a[|a| - 1];
      BagWithout(a, b, i);
      PointsWithout(b, i);
      hide Without;
      PointsOfBag(a[..|a| - 1], Without(b, i));
    }
  }

  /** The score is the same in whatever order the signals are found. */
  lemma ScoreOfAnyOrder(a: seq<Risk>, b: seq<Risk>)
    requires multiset(a) == multiset(b)
    ensures Scored(a) == Scored(b)
  {
    PointsOfBag(a, b);
    ScoreIsCappedSum(a);
    ScoreIsCappedSum(b);
  }

  /** Each signal is listed once. */
  lemma {:induction false} SignalsOnce(risks: seq<Risk>)
    ensures forall i, j :: 0 <= i < j < |Signals(risks)| ==> Signals(risks)[i] != Signals(risks)[j]
    ensures forall s :: s in Signals(risks) <==> exists k :: 0 <= k < |risks| && risks[k].signal == s
    decreases |risks|
  {
    if risks != [] {
      var n := |risks| - 1;
      SignalsOnce(risks[..n]);
      forall s ensures s in Signals(risks) <==> exists k :: 0 <= k < |risks| && risks[k].signal == s {
        if k :| 0 <= k < n && risks[k].signal == s {
          assert risks[..n][k].signal == s;
        }
      }
    }
  }
}
