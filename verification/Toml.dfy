/**
 The TOML value printer of the fleet store, and a reader for what it may print, after the sections Keys, String, Integer,
 Boolean, Array and Inline Table of TOML v1.0.0 (without multi-line strings, dotted keys, floats, dates and comments).
 */
module Toml {
  import opened Text

  datatype Value =
    | Bool(b: bool)
    | Int(n: int)
    | Str(s: string)
    | Arr(items: seq<Value>)
    | Table(entries: seq<Entry>)      // the map in the order of its sorted keys

  datatype Entry = Entry(key: string, value: Value)

  // ---------------------------------------------------------------- printing

  predicate IsControl(c: char) {
    (c as int) < 0x20 || c as int == 0x7F
  }

  predicate IsKeyChar(c: char) {
    'a' <= c <= 'z' || 'A' <= c <= 'Z' || '0' <= c <= '9' || c == '_' || c == '-'
  }

  function HexDigit(d: nat): char
    requires d < 16
  {
    if d < 10 then Digit(d) else ('A' as int + d - 10) as char
  }

  // One character inside a basic string.
  function Escaped(c: char): string {
    if c == '"' then "\\\"" else if c == '\\' then "\\\\"
    else if c == '\n' then "\\n" else if c == '\r' then "\\r" else if c == '\t' then "\\t"
    else if (c as int) < 0x20 then "\\u00" + [HexDigit(c as int / 16), HexDigit(c as int % 16)]
    else [c]
  }

  function EscapedFrom(s: string, i: nat): string
    requires i <= |s|
    decreases |s| - i
  {
    if i == |s| then "" else Escaped(s[i]) + EscapedFrom(s, i + 1)
  }

  function Quoted(s: string): string {
    "\"" + EscapedFrom(s, 0) + "\""
  }

  predicate IsLiteral(s: string) {
    forall i :: 0 <= i < |s| ==> s[i] != '\'' && !IsControl(s[i])
  }

  function PrintString(s: string): string {
    if IsLiteral(s) then "'" + s + "'" else Quoted(s)
  }

  predicate IsBare(k: string) {
    k != "" && forall i :: 0 <= i < |k| ==> IsKeyChar(k[i])
  }

  function PrintKey(k: string): string {
    if IsBare(k) then k else Quoted(k)
  }

  function Size(v: Value): nat {
    if v.Arr? then |v.items| else if v.Table? then |v.entries| else 0
  }

  function Print(v: Value): string
    decreases v, Size(v) + 1
  {
    match v
    case Bool(b) => if b then "true" else "false"
    case Int(n) => ItoaSigned(n)
    case Str(s) => PrintString(s)
    case Arr(_) => "[" + PrintItems(v, 0) + "]"
    case Table(_) => "{ " + PrintEntries(v, 0) + " }"
  }

  // The items from the k-th on, with commas between them.
  function PrintItems(v: Value, k: nat): string
    requires v.Arr? && k <= |v.items|
    decreases v, |v.items| - k
  {
    if k == |v.items| then ""
    else Print(v.items[k]) + (if k + 1 < |v.items| then ", " + PrintItems(v, k + 1) else "")
  }

  function PrintEntry(e: Entry): string
    decreases e
  {
    PrintKey(e.key) + " = " + Print(e.value)
  }

  function PrintEntries(v: Value, k: nat): string
    requires v.Table? && k <= |v.entries|
    decreases v, |v.entries| - k
  {
    if k == |v.entries| then ""
    else PrintEntry(v.entries[k]) + (if k + 1 < |v.entries| then ", " + PrintEntries(v, k + 1) else "")
  }

  lemma ItemsText(v: Value, k: nat)
    requires v.Arr? && k < |v.items|
    ensures PrintItems(v, k) == if k + 1 < |v.items| then Print(v.items[k]) + ", " + PrintItems(v, k + 1) else Print(v.items[k])
  {
  }

  lemma EntriesText(v: Value, k: nat)
    requires v.Table? && k < |v.entries|
    ensures PrintEntries(v, k) == if k + 1 < |v.entries| then PrintEntry(v.entries[k]) + ", " + PrintEntries(v, k + 1)
                                  else PrintEntry(v.entries[k])
  {
  }

  /** Keys are bare and strings literal exactly where TOML lets them be so and, for strings, without a control character. */
  lemma PlainForms(s: string)
    ensures PrintKey(s) == s <==> s != "" && forall c :: c in s ==> IsKeyChar(c)
    ensures PrintString(s) == "'" + s + "'" <==> '\'' !in s && forall c :: c in s ==> 32 <= c as int && c as int != 127
  {
    assert IsBare(s) <==> s != "" && forall c :: c in s ==> IsKeyChar(c);
    assert IsLiteral(s) <==> '\'' !in s && forall c :: c in s ==> !IsControl(c);
    assert Quoted(s)[0] == '"' && |Quoted(s)| >= 2;
    if Quoted(s) == s { assert s[0] == '"' && s[0] in s && !IsKeyChar(s[0]); Longer(s, 0); }
  }

  lemma {:induction false} Longer(s: string, i: nat)
    requires i <= |s|
    ensures |EscapedFrom(s, i)| >= |s| - i
    decreases |s| - i
  {
    if i < |s| { Longer(s, i + 1); }
  }

  predicate OneLine(text: string) {
    forall i :: 0 <= i < |text| ==> text[i] as int >= 32
  }

  lemma {:induction false} EscapedIsOneLine(s: string, i: nat)
    requires i <= |s|
    ensures OneLine(EscapedFrom(s, i))
    decreases |s| - i
  {
    if i < |s| { EscapedIsOneLine(s, i + 1); }
  }

  lemma StringIsOneLine(s: string)
    ensures OneLine(PrintString(s)) && OneLine(PrintKey(s))
  {
    EscapedIsOneLine(s, 0);
  }

  /** Whatever the value holds, its text has no line break and no control character but DEL, so that it stays on its line. */
  lemma {:induction false} PrintedIsOneLine(v: Value)
    ensures OneLine(Print(v))
    decreases v, Size(v) + 1
  {
    match v
    case Bool(_) =>
    case Int(n) => assert forall i :: 0 <= i < |ItoaSigned(n)| ==> ItoaSigned(n)[i] == '-' || IsDigit(ItoaSigned(n)[i]);
    case Str(s) => StringIsOneLine(s);
    case Arr(_) => ItemsAreOneLine(v, 0);
    case Table(_) => EntriesAreOneLine(v, 0);
  }

  lemma {:induction false} ItemsAreOneLine(v: Value, k: nat)
    requires v.Arr? && k <= |v.items|
    ensures OneLine(PrintItems(v, k))
    decreases v, |v.items| - k
  {
    if k < |v.items| {
      PrintedIsOneLine(v.items[k]);
      ItemsAreOneLine(v, k + 1);
      ItemsText(v, k);
    }
  }

  lemma {:induction false} EntriesAreOneLine(v: Value, k: nat)
    requires v.Table? && k <= |v.entries|
    ensures OneLine(PrintEntries(v, k))
    decreases v, |v.entries| - k
  {
    if k < |v.entries| {
      StringIsOneLine(v.entries[k].key);
      PrintedIsOneLine(v.entries[k].value);
      EntriesAreOneLine(v, k + 1);
      EntriesText(v, k);
    }
  }

  // ---------------------------------------------------------------- the printer as it is

  method EscapeRune(c: char) returns (out: string)
    ensures out == Escaped(c)
  {
    match c {
      case '"' => out := "\\\"";
      case '\\' => out := "\\\\";
      case '\n' => out := "\\n";
      case '\r' => out := "\\r";
      case '\t' => out := "\\t";
      case _ =>
        if (c as int) < 0x20 {
          out := "\\u00" + [HexDigit(c as int / 16), HexDigit(c as int % 16)];
        } else {
          out := [c];
        }
    }
  }

  method QuoteBasic(s: string) returns (out: string)
    ensures out == Quoted(s)
  {
    out := "\"";
    for i := 0 to |s|
      invariant out + EscapedFrom(s, i) == "\"" + EscapedFrom(s, 0)
    {
      ghost var before := out;
      var rune := EscapeRune(s[i]);
      out := out + rune;
      assert before + (rune + EscapedFrom(s, i + 1)) == out + EscapedFrom(s, i + 1);
    }
    assert EscapedFrom(s, |s|) == "";
    out := out + "\"";
  }

  method TomlString(s: string) returns (out: string)
    ensures out == PrintString(s)
  {
    var literal := true;
    for i := 0 to |s|
      invariant literal <==> IsLiteral(s[..i])
    {
      if s[i] == '\'' || s[i] == '\n' || s[i] == '\r' || s[i] == '\t' || (s[i] as int) < 0x20 || s[i] as int == 0x7F {
        literal := false;
      }
      assert s[..i + 1][i] == s[i];
      assert forall j :: 0 <= j < i ==> s[..i + 1][j] == s[..i][j];
    }
    assert s[..|s|] == s;
    if literal {
      return "'" + s + "'";
    }
    out := QuoteBasic(s);
  }

  method TomlKey(k: string) returns (out: string)
    ensures out == PrintKey(k)
  {
    if k == "" {
      return "\"\"";
    }
    for i := 0 to |k|
      invariant forall j :: 0 <= j < i ==> IsKeyChar(k[j])
    {
      if !IsKeyChar(k[i]) {
        out := QuoteBasic(k);
        return;
      }
    }
    return k;
  }

  // strings.Join(parts[k:], ", ").
  function Joined(parts: seq<string>, k: nat): string
    requires k <= |parts|
    decreases |parts| - k
  {
    if k == |parts| then "" else parts[k] + (if k + 1 < |parts| then ", " + Joined(parts, k + 1) else "")
  }

  method TomlValue(v: Value) returns (out: string)
    ensures out == Print(v)
    decreases v
  {
    match v {
      case Bool(b) =>
        return if b then "true" else "false";
      case Int(n) =>
        return ItoaSigned(n);
      case Str(s) =>
        out := TomlString(s);
      case Arr(items) =>
        var parts := [];
        for i := 0 to |items|
          invariant |parts| == i && forall j {:trigger parts[j]} :: 0 <= j < i ==> parts[j] == Print(items[j])
        {
          var part := TomlValue(items[i]);
          parts := parts + [part];
        }
        ItemsJoined(v, parts);
        return "[" + Joined(parts, 0) + "]";
      case Table(entries) =>
        var parts := [];
        for i := 0 to |entries|
          invariant |parts| == i && forall j {:trigger parts[j]} :: 0 <= j < i ==> parts[j] == PrintEntry(entries[j])
        {
          var key := TomlKey(entries[i].key);
          var value := TomlValue(entries[i].value);
          parts := parts + [key + " = " + value];
        }
        EntriesJoined(v, parts);
        return "{ " + Joined(parts, 0) + " }";
    }
  }

  lemma ItemsJoined(v: Value, parts: seq<string>)
    requires v.Arr? && |parts| == |v.items|
    requires forall j {:trigger parts[j]} :: 0 <= j < |parts| ==> parts[j] == Print(v.items[j])
    ensures Joined(parts, 0) == PrintItems(v, 0)
  {
    var texts := seq(|parts| + 1, k requires 0 <= k <= |v.items| => PrintItems(v, k));
    forall k | 0 <= k < |parts| ensures texts[k] == WithRest(parts[k], texts[k + 1], k + 1 < |parts|) {
      ItemTextAt(v, parts[k], k);
    }
    TextsJoined(parts, texts, 0);
  }

  lemma EntriesJoined(v: Value, parts: seq<string>)
    requires v.Table? && |parts| == |v.entries|
    requires forall j {:trigger parts[j]} :: 0 <= j < |parts| ==> parts[j] == PrintEntry(v.entries[j])
    ensures Joined(parts, 0) == PrintEntries(v, 0)
  {
    var texts := seq(|parts| + 1, k requires 0 <= k <= |v.entries| => PrintEntries(v, k));
    forall k | 0 <= k < |parts| ensures texts[k] == WithRest(parts[k], texts[k + 1], k + 1 < |parts|) {
      EntryTextAt(v, parts[k], k);
    }
    TextsJoined(parts, texts, 0);
  }

  lemma ItemTextAt(v: Value, part: string, k: nat)
    requires v.Arr? && k < |v.items| && part == Print(v.items[k])
    ensures PrintItems(v, k) == WithRest(part, PrintItems(v, k + 1), k + 1 < |v.items|)
  {
    ItemsText(v, k);
  }

  lemma EntryTextAt(v: Value, part: string, k: nat)
    requires v.Table? && k < |v.entries| && part == PrintEntry(v.entries[k])
    ensures PrintEntries(v, k) == WithRest(part, PrintEntries(v, k + 1), k + 1 < |v.entries|)
  {
    EntriesText(v, k);
  }

  function WithRest(part: string, rest: string, more: bool): string {
    if more then part + ", " + rest else part
  }

  lemma {:induction false} TextsJoined(parts: seq<string>, texts: seq<string>, k: nat)
    requires |texts| == |parts| + 1 && texts[|parts|] == "" && k <= |parts|
    requires forall i :: 0 <= i < |parts| ==> texts[i] == WithRest(parts[i], texts[i + 1], i + 1 < |parts|)
    ensures Joined(parts, k) == texts[k]
    decreases |parts| - k
  {
    if k < |parts| {
      TextsJoined(parts, texts, k + 1);
      JoinedText(parts, k);
    }
  }

  lemma JoinedText(parts: seq<string>, k: nat)
    requires k < |parts|
    ensures Joined(parts, k) == WithRest(parts[k], Joined(parts, k + 1), k + 1 < |parts|)
  {
  }

  // ---------------------------------------------------------------- reading

  datatype Parsed<T> = Got(value: T, next: nat) | Bad

  predicate IsBlank(c: char) {
    c == ' ' || c == '\t'
  }

  function SkipBlanks(s: string, i: nat): (j: nat)
    requires i <= |s|
    ensures i <= j <= |s|
    decreases |s| - i
  {
    if i < |s| && IsBlank(s[i]) then SkipBlanks(s, i + 1) else i
  }

  // Inside an array lines may break.
  function SkipSpace(s: string, i: nat): (j: nat)
    requires i <= |s|
    ensures i <= j <= |s|
    decreases |s| - i
  {
    if i < |s| && (IsBlank(s[i]) || s[i] == '\n' || s[i] == '\r') then SkipSpace(s, i + 1) else i
  }

  function HexOf(c: char): int {
    if '0' <= c <= '9' then c as int - '0' as int
    else if 'A' <= c <= 'F' then c as int - 'A' as int + 10
    else if 'a' <= c <= 'f' then c as int - 'a' as int + 10
    else -1
  }

  // The number written by `n` hexadecimal digits, or -1.
  function HexNumber(s: string, i: nat, n: nat): (v: int)
    requires i + n <= |s|
    ensures v >= -1
  {
    if n == 0 then 0
    else
      var high, low := HexNumber(s, i, n - 1), HexOf(s[i + n - 1]);
      if high < 0 || low < 0 then -1 else high * 16 + low
  }

  predicate IsScalar(v: int) {
    0 <= v < 0xD800 || 0xE000 <= v < 0x11_0000
  }

  // The character an escape sequence stands for; `i` is behind the backslash.
  function Unescaped(s: string, i: nat): (r: Parsed<char>)
    requires i <= |s|
    ensures r.Got? ==> i < r.next <= |s|
  {
    if i == |s| then Bad
    else match s[i]
      case 'b' => Got('\U{8}', i + 1)
      case 't' => Got('\t', i + 1)
      case 'n' => Got('\n', i + 1)
      case 'f' => Got('\U{C}', i + 1)
      case 'r' => Got('\r', i + 1)
      case '"' => Got('"', i + 1)
      case '\\' => Got('\\', i + 1)
      case 'u' => Scalar(s, i + 1, 4)
      case 'U' => Scalar(s, i + 1, 8)
      case _ => Bad
  }

  function Scalar(s: string, i: nat, n: nat): (r: Parsed<char>)
    requires i <= |s|
    ensures r.Got? ==> r.next == i + n <= |s|
  {
    if i + n > |s| || !IsScalar(HexNumber(s, i, n)) then Bad else Got(HexNumber(s, i, n) as char, i + n)
  }

  // The rest of a basic string; no control character but the tab may stand in it as it is.
  function ReadBasic(s: string, i: nat): (r: Parsed<string>)
    requires i <= |s|
    ensures r.Got? ==> i < r.next <= |s|
    decreases |s| - i
  {
    if i == |s| then Bad
    else if s[i] == '"' then Got("", i + 1)
    else if s[i] == '\\' then
      var c := Unescaped(s, i + 1);
      if c.Bad? then Bad else Before(c.value, ReadBasic(s, c.next))
    else if IsControl(s[i]) && s[i] != '\t' then Bad
    else Before(s[i], ReadBasic(s, i + 1))
  }

  function Before(c: char, r: Parsed<string>): Parsed<string> {
    if r.Bad? then Bad else Got([c] + r.value, r.next)
  }

  function ReadLiteral(s: string, i: nat): (r: Parsed<string>)
    requires i <= |s|
    ensures r.Got? ==> i < r.next <= |s|
    decreases |s| - i
  {
    if i == |s| then Bad
    else if s[i] == '\'' then Got("", i + 1)
    else if IsControl(s[i]) && s[i] != '\t' then Bad
    else Before(s[i], ReadLiteral(s, i + 1))
  }

  // Three quotes open a multi-line string, which this reader does not take.
  predicate OpensMultiLine(s: string, i: nat)
    requires i < |s|
  {
    i + 2 < |s| && s[i + 1] == s[i] && s[i + 2] == s[i]
  }

  function KeyEnd(s: string, i: nat): (j: nat)
    requires i <= |s|
    ensures i <= j <= |s|
    decreases |s| - i
  {
    if i < |s| && IsKeyChar(s[i]) then KeyEnd(s, i + 1) else i
  }

  function ReadKey(s: string, i: nat): (r: Parsed<string>)
    requires i <= |s|
    ensures r.Got? ==> i < r.next <= |s|
  {
    if i == |s| then Bad
    else if s[i] == '"' then (if OpensMultiLine(s, i) then Bad else ReadBasic(s, i + 1))
    else if s[i] == '\'' then (if OpensMultiLine(s, i) then Bad else ReadLiteral(s, i + 1))
    else if KeyEnd(s, i) == i then Bad
    else Got(s[i..KeyEnd(s, i)], KeyEnd(s, i))
  }

  function DigitsEnd(s: string, i: nat): (j: nat)
    requires i <= |s|
    ensures i <= j <= |s| && forall k :: i <= k < j ==> IsDigit(s[k])
    decreases |s| - i
  {
    if i < |s| && IsDigit(s[i]) then DigitsEnd(s, i + 1) else i
  }

  function DigitValue(c: char): nat
    requires IsDigit(c)
  {
    c as int - '0' as int
  }

  function Number(s: string, i: nat, j: nat): nat
    requires i <= j <= |s| && forall k :: i <= k < j ==> IsDigit(s[k])
    decreases j
  {
    if i == j then 0 else Number(s, i, j - 1) * 10 + DigitValue(s[j - 1])
  }

  // Decimal digits without a leading zero.
  function ReadNat(s: string, i: nat): (r: Parsed<nat>)
    requires i <= |s|
    ensures r.Got? ==> i < r.next <= |s|
  {
    var j := DigitsEnd(s, i);
    if j == i || (s[i] == '0' && j > i + 1) then Bad else Got(Number(s, i, j), j)
  }

  function Negated(r: Parsed<nat>): Parsed<Value> {
    if r.Bad? then Bad else
      var n: int := r.value;
      Got(Int(-n), r.next)
  }

  function NonNegative(r: Parsed<nat>): Parsed<Value> {
    if r.Bad? then Bad else Got(Int(r.value), r.next)
  }

  function AsString(r: Parsed<string>): Parsed<Value> {
    if r.Bad? then Bad else Got(Str(r.value), r.next)
  }

  predicate Starts(s: string, i: nat, t: string) {
    i + |t| <= |s| && forall k :: 0 <= k < |t| ==> s[i + k] == t[k]
  }

  function Read(s: string, i: nat): (r: Parsed<Value>)
    requires i <= |s|
    ensures r.Got? ==> i < r.next <= |s|
    decreases |s| - i, 1
  {
    if i == |s| then Bad
    else if s[i] == '"' then (if OpensMultiLine(s, i) then Bad else AsString(ReadBasic(s, i + 1)))
    else if s[i] == '\'' then (if OpensMultiLine(s, i) then Bad else AsString(ReadLiteral(s, i + 1)))
    else if s[i] == '[' then
      var r := ReadItems(s, SkipSpace(s, i + 1));
      if r.Bad? then Bad else Got(Arr(r.value), r.next)
    else if s[i] == '{' then
      var r := ReadEntries(s, SkipBlanks(s, i + 1), true);
      if r.Bad? then Bad else Got(Table(r.value), r.next)
    else if Starts(s, i, "true") then Got(Bool(true), i + 4)
    else if Starts(s, i, "false") then Got(Bool(false), i + 5)
    else if s[i] == '-' then Negated(ReadNat(s, i + 1))
    else if s[i] == '+' then NonNegative(ReadNat(s, i + 1))
    else NonNegative(ReadNat(s, i))
  }

  // The items up to the closing bracket; a comma may stand before it.
  function ReadItems(s: string, i: nat): (r: Parsed<seq<Value>>)
    requires i <= |s|
    ensures r.Got? ==> i < r.next <= |s|
    decreases |s| - i, 2
  {
    if i == |s| then Bad
    else if s[i] == ']' then Got([], i + 1)
    else
      var item := Read(s, i);
      if item.Bad? then Bad
      else
        var j := SkipSpace(s, item.next);
        if j == |s| then Bad
        else if s[j] == ']' then Got([item.value], j + 1)
        else if s[j] != ',' then Bad
        else
          var rest := ReadItems(s, SkipSpace(s, j + 1));
          if rest.Bad? then Bad else Got([item.value] + rest.value, rest.next)
  }

  function ReadEntry(s: string, i: nat): (r: Parsed<Entry>)
    requires i <= |s|
    ensures r.Got? ==> i < r.next <= |s|
    decreases |s| - i, 2
  {
    var key := ReadKey(s, i);
    if key.Bad? then Bad
    else
      var j := SkipBlanks(s, key.next);
      if j == |s| || s[j] != '=' then Bad
      else
        var value := Read(s, SkipBlanks(s, j + 1));
        if value.Bad? then Bad else Got(Entry(key.value, value.value), value.next)
  }

  // Some pair from the i-th on has the key.
  predicate HasKey(entries: seq<Entry>, i: nat, key: string)
    requires i <= |entries|
    decreases |entries| - i
  {
    i < |entries| && (entries[i].key == key || HasKey(entries, i + 1, key))
  }

  // The pairs up to the closing brace, on one line, without a comma before it, no key twice.
  function ReadEntries(s: string, i: nat, first: bool): (r: Parsed<seq<Entry>>)
    requires i <= |s|
    ensures r.Got? ==> i < r.next <= |s|
    decreases |s| - i, 3
  {
    if i == |s| then Bad
    else if s[i] == '}' then (if first then Got([], i + 1) else Bad)
    else
      var entry := ReadEntry(s, i);
      if entry.Bad? then Bad
      else
        var j := SkipBlanks(s, entry.next);
        if j == |s| then Bad
        else if s[j] == '}' then Got([entry.value], j + 1)
        else if s[j] != ',' then Bad
        else
          var rest := ReadEntries(s, SkipBlanks(s, j + 1), false);
          if rest.Bad? || HasKey(rest.value, 0, entry.value.key) then Bad else Got([entry.value] + rest.value, rest.next)
  }

  // ---------------------------------------------------------------- reading what was printed

  predicate NoDelFrom(s: string, k: nat) {
    forall i :: k <= i < |s| ==> s[i] as int != 0x7F
  }

  // No string or key of the tree holds a DEL, which the printer leaves as it is.
  predicate Clean(v: Value)
    decreases v, Size(v) + 1
  {
    match v
    case Bool(_) => true
    case Int(_) => true
    case Str(s) => NoDelFrom(s, 0)
    case Arr(_) => CleanItems(v, 0)
    case Table(_) => CleanEntries(v, 0)
  }

  predicate CleanItems(v: Value, k: nat)
    requires v.Arr? && k <= |v.items|
    decreases v, |v.items| - k
  {
    k == |v.items| || (Clean(v.items[k]) && CleanItems(v, k + 1))
  }

  predicate CleanEntry(e: Entry)
    decreases e
  {
    NoDelFrom(e.key, 0) && Clean(e.value)
  }

  predicate CleanEntries(v: Value, k: nat)
    requires v.Table? && k <= |v.entries|
    decreases v, |v.entries| - k
  {
    k == |v.entries| || (CleanEntry(v.entries[k]) && CleanEntries(v, k + 1))
  }

  // No table of the tree holds a key twice, as no Go map does.
  predicate DistinctKeys(v: Value)
    decreases v, Size(v) + 1
  {
    match v
    case Arr(_) => DistinctItems(v, 0)
    case Table(_) => DistinctEntries(v, 0)
    case _ => true
  }

  predicate DistinctItems(v: Value, k: nat)
    requires v.Arr? && k <= |v.items|
    decreases v, |v.items| - k
  {
    k == |v.items| || (DistinctKeys(v.items[k]) && DistinctItems(v, k + 1))
  }

  predicate DistinctEntries(v: Value, k: nat)
    requires v.Table? && k <= |v.entries|
    decreases v, |v.entries| - k
  {
    k == |v.entries|
    || (!HasKey(v.entries[k + 1..], 0, v.entries[k].key) && DistinctKeys(v.entries[k].value) && DistinctEntries(v, k + 1))
  }

  lemma StartsSplit(s: string, i: nat, a: string, b: string)
    requires Starts(s, i, a + b)
    ensures Starts(s, i, a) && Starts(s, i + |a|, b)
  {
    forall k | 0 <= k < |a| ensures s[i + k] == a[k] { assert (a + b)[k] == a[k]; }
    forall k | 0 <= k < |b| ensures s[i + |a| + k] == b[k] { assert (a + b)[|a| + k] == b[k]; }
  }

  lemma StartsHead(s: string, i: nat, t: string)
    requires Starts(s, i, t) && t != ""
    ensures i < |s| && s[i] == t[0]
  {
  }

  lemma EscapeIsRead(s: string, i: nat, c: char)
    requires Starts(s, i, Escaped(c)) && c as int != 0x7F && i + |Escaped(c)| < |s|
    ensures ReadBasic(s, i) == Before(c, ReadBasic(s, i + |Escaped(c)|))
  {
    var e := Escaped(c);
    assert s[i] == e[0];
    if |e| == 2 { assert s[i + 1] == e[1]; }
    if |e| == 6 {
      assert s[i + 1] == e[1] && s[i + 2] == e[2] && s[i + 3] == e[3] && s[i + 4] == e[4] && s[i + 5] == e[5];
      HexIsRead(s, i + 2, c as int);
    }
  }

  lemma HexIsRead(s: string, i: nat, v: nat)
    requires v < 0x20 && i + 4 <= |s|
    requires s[i] == '0' && s[i + 1] == '0' && s[i + 2] == HexDigit(v / 16) && s[i + 3] == HexDigit(v % 16)
    ensures HexNumber(s, i, 4) == v
  {
    assert HexNumber(s, i, 0) == 0;
    assert HexNumber(s, i, 1) == 0;
    assert HexNumber(s, i, 2) == 0;
    assert HexNumber(s, i, 3) == v / 16;
  }

  // What reading a basic string from its k-th character on is to give, when its closing quote ends at `end`.
  function BasicFrom(x: string, k: nat, end: nat): Parsed<string>
    requires k <= |x|
  {
    if NoDelFrom(x, k) then Got(x[k..], end) else Bad
  }

  lemma BasicCompose(x: string, k: nat, end: nat)
    requires k < |x|
    ensures BasicFrom(x, k, end) == if x[k] as int == 0x7F then Bad else Before(x[k], BasicFrom(x, k + 1, end))
  {
    assert x[k..] == [x[k]] + x[k + 1..];
  }

  lemma DelIsNotRead(s: string, i: nat)
    requires i < |s| && s[i] as int == 0x7F
    ensures ReadBasic(s, i) == Bad
  {
  }

  /** A basic string is read back, unless it holds a DEL: then nothing is. */
  lemma {:induction false} BasicIsRead(s: string, i: nat, x: string, k: nat, end: nat)
    requires k <= |x| && Starts(s, i, EscapedFrom(x, k) + "\"") && end == i + |EscapedFrom(x, k)| + 1
    ensures ReadBasic(s, i) == BasicFrom(x, k, end)
    decreases |x| - k
  {
    if k == |x| {
      BasicEnds(s, i, x);
    } else {
      EscapedSplits(s, i, x, k);
      BasicIsRead(s, i + |Escaped(x[k])|, x, k + 1, end);
      BasicMore(s, i, x, k, end);
    }
  }

  lemma BasicMore(s: string, i: nat, x: string, k: nat, end: nat)
    requires k < |x| && i + |Escaped(x[k])| < |s| && Starts(s, i, Escaped(x[k]))
    requires ReadBasic(s, i + |Escaped(x[k])|) == BasicFrom(x, k + 1, end)
    ensures ReadBasic(s, i) == BasicFrom(x, k, end)
  {
    BasicCompose(x, k, end);
    StartsHead(s, i, Escaped(x[k]));
    if x[k] as int == 0x7F { DelIsNotRead(s, i); } else { EscapeIsRead(s, i, x[k]); }
  }

  lemma BasicEnds(s: string, i: nat, x: string)
    requires Starts(s, i, EscapedFrom(x, |x|) + "\"")
    ensures ReadBasic(s, i) == Got(x[|x|..], i + 1)
  {
    var last := EscapedFrom(x, |x|) + "\"";
    assert last == ['"'] && x[|x|..] == "";
    StartsHead(s, i, last);
  }

  lemma EscapedSplits(s: string, i: nat, x: string, k: nat)
    requires k < |x| && Starts(s, i, EscapedFrom(x, k) + "\"")
    ensures var e := Escaped(x[k]);
            && Starts(s, i, e) && Starts(s, i + |e|, EscapedFrom(x, k + 1) + "\"")
            && i + |e| < |s| && |EscapedFrom(x, k)| == |e| + |EscapedFrom(x, k + 1)|
  {
    EscapedText(x, k);
    JoinSplits(s, i, Escaped(x[k]), EscapedFrom(x, k + 1), "\"");
  }

  lemma EscapedText(x: string, k: nat)
    requires k < |x|
    ensures EscapedFrom(x, k) == Escaped(x[k]) + EscapedFrom(x, k + 1)
  {
  }

  lemma JoinSplits(s: string, i: nat, a: string, b: string, tail: string)
    requires Starts(s, i, a + b + tail) && tail != ""
    ensures Starts(s, i, a) && Starts(s, i + |a|, b + tail) && i + |a| < |s|
  {
    assert a + b + tail == a + (b + tail);
    StartsSplit(s, i, a, b + tail);
  }

  lemma {:induction false} LiteralIsRead(s: string, i: nat, x: string, k: nat)
    requires k <= |x| && IsLiteral(x) && Starts(s, i, x[k..] + "'")
    ensures ReadLiteral(s, i) == Got(x[k..], i + |x| - k + 1)
    decreases |x| - k
  {
    if k == |x| {
      assert s[i] == (x[k..] + "'")[0];
    } else {
      assert x[k..] + "'" == [x[k]] + (x[k + 1..] + "'");
      StartsSplit(s, i, [x[k]], x[k + 1..] + "'");
      assert s[i] == [x[k]][0];
      LiteralIsRead(s, i + 1, x, k + 1);
      assert x[k..] == [x[k]] + x[k + 1..];
    }
  }

  // What may follow a printed value.
  predicate Stops(s: string, j: nat) {
    j == |s| || (j < |s| && (s[j] == ',' || s[j] == ']' || s[j] == ' '))
  }

  lemma QuotedHead(x: string)
    requires x != ""
    ensures |Quoted(x)| > 1 && Quoted(x)[0] == '"' && Quoted(x)[1] != '"'
  {
  }

  lemma QuotedTail(s: string, i: nat, x: string)
    requires Starts(s, i, Quoted(x))
    ensures Starts(s, i + 1, EscapedFrom(x, 0) + "\"") && |Quoted(x)| == |EscapedFrom(x, 0)| + 2
  {
    assert Quoted(x) == "\"" + (EscapedFrom(x, 0) + "\"");
    StartsSplit(s, i, "\"", EscapedFrom(x, 0) + "\"");
  }

  lemma StringIsRead(s: string, i: nat, x: string)
    requires Starts(s, i, PrintString(x)) && Stops(s, i + |PrintString(x)|)
    ensures i < |s| && Read(s, i) == if NoDelFrom(x, 0) then Got(Str(x), i + |PrintString(x)|) else Bad
  {
    StartsHead(s, i, PrintString(x));
    if IsLiteral(x) {
      assert PrintString(x) == "'" + (x + "'") && x[0..] == x;
      StartsSplit(s, i, "'", x + "'");
      LiteralIsRead(s, i + 1, x, 0);
      StartsHead(s, i + 1, x + "'");
    } else {
      QuotedTail(s, i, x);
      BasicIsRead(s, i + 1, x, 0, i + |Quoted(x)|);
      QuotedHead(x);
      assert s[i + 1] == Quoted(x)[1] && x[0..] == x;
    }
  }

  lemma {:induction false} KeyEndIs(s: string, i: nat, j: nat)
    requires i <= j < |s| && !IsKeyChar(s[j]) && forall k :: i <= k < j ==> IsKeyChar(s[k])
    ensures KeyEnd(s, i) == j
    decreases j - i
  {
    if i < j { KeyEndIs(s, i + 1, j); }
  }

  lemma KeyIsRead(s: string, i: nat, k: string)
    requires Starts(s, i, PrintKey(k)) && i + |PrintKey(k)| < |s| && s[i + |PrintKey(k)|] == ' '
    ensures ReadKey(s, i) == if NoDelFrom(k, 0) then Got(k, i + |PrintKey(k)|) else Bad
  {
    if IsBare(k) {
      forall j | i <= j < i + |k| ensures IsKeyChar(s[j]) { assert s[i + (j - i)] == k[j - i]; }
      KeyEndIs(s, i, i + |k|);
      assert s[i..i + |k|] == k;
      StartsHead(s, i, k);
    } else {
      StartsHead(s, i, Quoted(k));
      QuotedTail(s, i, k);
      BasicIsRead(s, i + 1, k, 0, i + |Quoted(k)|);
      assert k[0..] == k;
      if k != "" {
        QuotedHead(k);
        assert s[i + 1] == Quoted(k)[1];
      }
    }
  }

  // ---------------------------------------------------------------- numbers

  lemma {:induction false} DigitsEndIs(s: string, i: nat, j: nat)
    requires i <= j <= |s| && (j < |s| ==> !IsDigit(s[j])) && forall k :: i <= k < j ==> IsDigit(s[k])
    ensures DigitsEnd(s, i) == j
    decreases j - i
  {
    if i < j { DigitsEndIs(s, i + 1, j); }
  }

  lemma {:induction false} NumberIs(s: string, i: nat, n: nat)
    requires Starts(s, i, Itoa(n)) && forall k :: i <= k < i + |Itoa(n)| ==> IsDigit(s[k])
    ensures Number(s, i, i + |Itoa(n)|) == n
    decreases n
  {
    var t := Itoa(n);
    assert s[i + (|t| - 1)] == t[|t| - 1];
    if n >= 10 {
      StartsSplit(s, i, Itoa(n / 10), [Digit(n % 10)]);
      NumberIs(s, i, n / 10);
    }
  }

  lemma {:induction false} NoLeadingZero(n: nat)
    ensures Itoa(n)[0] == '0' <==> n == 0
    ensures n == 0 ==> |Itoa(n)| == 1
    decreases n
  {
    if n >= 10 { NoLeadingZero(n / 10); }
  }

  lemma NatIsRead(s: string, i: nat, n: nat)
    requires Starts(s, i, Itoa(n)) && Stops(s, i + |Itoa(n)|)
    ensures ReadNat(s, i) == Got(n, i + |Itoa(n)|)
  {
    var j := i + |Itoa(n)|;
    forall k | i <= k < j ensures IsDigit(s[k]) { assert s[i + (k - i)] == Itoa(n)[k - i]; }
    DigitsEndIs(s, i, j);
    NumberIs(s, i, n);
    NoLeadingZero(n);
    StartsHead(s, i, Itoa(n));
  }

  lemma IntIsRead(s: string, i: nat, n: int)
    requires Starts(s, i, ItoaSigned(n)) && Stops(s, i + |ItoaSigned(n)|)
    ensures i < |s| && Read(s, i) == Got(Int(n), i + |ItoaSigned(n)|)
  {
    StartsHead(s, i, ItoaSigned(n));
    if n < 0 {
      StartsSplit(s, i, "-", Itoa(-n));
      NatIsRead(s, i + 1, -n);
      NotAWord(s, i);
    } else {
      NatIsRead(s, i, n);
      NotAWord(s, i);
    }
  }

  lemma NotAWord(s: string, i: nat)
    requires i < |s| && (IsDigit(s[i]) || s[i] == '-')
    ensures !Starts(s, i, "true") && !Starts(s, i, "false")
  {
    if Starts(s, i, "true") { StartsHead(s, i, "true"); }
    if Starts(s, i, "false") { StartsHead(s, i, "false"); }
  }

  // ---------------------------------------------------------------- trees

  // A printed value starts with a character that neither ends a list nor is skipped.
  lemma PrintHead(v: Value)
    ensures Print(v) != "" && Print(v)[0] !in {']', '}', ' ', '\t', '\n', '\r'}
  {
  }

  lemma PrintKeyHead(k: string)
    ensures PrintKey(k) != "" && PrintKey(k)[0] !in {'}', ' ', '\t'}
  {
  }

  /**
   What the printer writes for a tree is read back as that tree exactly when no string or key in it holds a DEL; otherwise it is
   not TOML at all.
   */
  lemma {:induction false} ValueIsRead(s: string, i: nat, v: Value)
    requires Starts(s, i, Print(v)) && Stops(s, i + |Print(v)|) && DistinctKeys(v)
    ensures i <= |s| && Read(s, i) == if Clean(v) then Got(v, i + |Print(v)|) else Bad
    decreases v, Size(v) + 2
  {
    match v
    case Bool(b) => BoolIsRead(s, i, b);
    case Int(n) => IntIsRead(s, i, n);
    case Str(x) => StringIsRead(s, i, x);
    case Arr(_) => ArrIsRead(s, i, v);
    case Table(_) => TabIsRead(s, i, v);
  }

  lemma {:induction false} ArrIsRead(s: string, i: nat, v: Value)
    requires v.Arr? && Starts(s, i, Print(v)) && DistinctKeys(v)
    ensures i <= |s| && Read(s, i) == if Clean(v) then Got(v, i + |Print(v)|) else Bad
    decreases v, Size(v) + 1
  {
    ArrayOpens(s, i, v);
    ItemsAreRead(s, i + 1, v, 0);
    ArrayUnfold(s, i, ItemsFrom(v, 0, i + |Print(v)|));
    assert v.items[0..] == v.items;
  }

  lemma {:induction false} TabIsRead(s: string, i: nat, v: Value)
    requires v.Table? && Starts(s, i, Print(v)) && DistinctKeys(v)
    ensures i <= |s| && Read(s, i) == if Clean(v) then Got(v, i + |Print(v)|) else Bad
    decreases v, Size(v) + 1
  {
    TableOpens(s, i, v);
    if v.entries == [] {
      EmptyTableIsRead(s, i);
    } else {
      FullTableIsRead(s, i, v);
    }
  }

  lemma {:induction false} FullTableIsRead(s: string, i: nat, v: Value)
    requires v.Table? && v.entries != [] && Starts(s, i, Print(v)) && DistinctKeys(v)
    ensures i <= |s| && Read(s, i) == if Clean(v) then Got(v, i + |Print(v)|) else Bad
    decreases v, Size(v)
  {
    TableOpens(s, i, v);
    TableSkips(s, i, v);
    EntriesAreRead(s, i + 2, v, 0, true);
    TableUnfold(s, i, EntriesFrom(v, 0, i + |Print(v)|));
    assert v.entries[0..] == v.entries;
  }

  lemma ArrayOpens(s: string, i: nat, v: Value)
    requires v.Arr? && Starts(s, i, Print(v))
    ensures i + 1 <= |s| && s[i] == '[' && Starts(s, i + 1, PrintItems(v, 0) + "]") && |Print(v)| == |PrintItems(v, 0)| + 2
  {
    assert Print(v) == "[" + (PrintItems(v, 0) + "]");
    StartsSplit(s, i, "[", PrintItems(v, 0) + "]");
    StartsHead(s, i, "[");
  }

  lemma ArrayUnfold(s: string, i: nat, r: Parsed<seq<Value>>)
    requires i < |s| && s[i] == '[' && ReadItems(s, SkipSpace(s, i + 1)) == r
    ensures Read(s, i) == if r.Bad? then Bad else Got(Arr(r.value), r.next)
  {
  }

  lemma TableUnfold(s: string, i: nat, r: Parsed<seq<Entry>>)
    requires i < |s| && s[i] == '{' && ReadEntries(s, SkipBlanks(s, i + 1), true) == r
    ensures Read(s, i) == if r.Bad? then Bad else Got(Table(r.value), r.next)
  {
  }

  lemma BoolIsRead(s: string, i: nat, b: bool)
    requires Starts(s, i, if b then "true" else "false")
    ensures i < |s| && Read(s, i) == Got(Bool(b), i + if b then 4 else 5)
  {
    StartsHead(s, i, if b then "true" else "false");
    if !b && Starts(s, i, "true") { StartsHead(s, i, "true"); }
  }

  lemma TableOpens(s: string, i: nat, v: Value)
    requires v.Table? && Starts(s, i, Print(v))
    ensures i + 2 <= |s| && s[i] == '{' && s[i + 1] == ' ' && Starts(s, i + 2, PrintEntries(v, 0) + " }")
    ensures |Print(v)| == |PrintEntries(v, 0)| + 4
  {
    var t := PrintEntries(v, 0) + " }";
    assert Print(v) == "{ " + t;
    StartsSplit(s, i, "{ ", t);
    assert s[i + 0] == "{ "[0] && s[i + 1] == "{ "[1];
  }

  lemma TableSkips(s: string, i: nat, v: Value)
    requires v.Table? && v.entries != [] && i + 2 <= |s| && s[i + 1] == ' ' && Starts(s, i + 2, PrintEntries(v, 0) + " }")
    ensures SkipBlanks(s, i + 1) == i + 2
  {
    EntrySplits(s, i + 2, v, 0);
    SkipBlanksStays(s, i + 2, v.entries[0]);
  }

  lemma EmptyTableIsRead(s: string, i: nat)
    requires i + 2 <= |s| && s[i] == '{' && s[i + 1] == ' ' && Starts(s, i + 2, PrintEntries(Table([]), 0) + " }")
    ensures Read(s, i) == Got(Table([]), i + 4)
  {
    assert PrintEntries(Table([]), 0) + " }" == " }";
    assert Starts(s, i + 2, " }");
    assert s[i + 2 + 0] == " }"[0] && s[i + 2 + 1] == " }"[1];
    assert SkipBlanks(s, i + 3) == i + 3;
    assert SkipBlanks(s, i + 2) == i + 3;
    assert SkipBlanks(s, i + 1) == i + 3;
  }

  // The text of one item and of what follows it.
  lemma ItemSplits(s: string, i: nat, v: Value, k: nat)
    requires v.Arr? && k < |v.items| && Starts(s, i, PrintItems(v, k) + "]")
    ensures var p, j := Print(v.items[k]), i + |Print(v.items[k])|;
            && Starts(s, i, p) && j < |s|
            && (if k + 1 < |v.items| then
                  && s[j] == ',' && j + 1 < |s| && s[j + 1] == ' ' && Starts(s, j + 2, PrintItems(v, k + 1) + "]")
                  && |PrintItems(v, k)| == |p| + 2 + |PrintItems(v, k + 1)|
                else s[j] == ']' && |PrintItems(v, k)| == |p|)
  {
    ItemsText(v, k);
    if k + 1 < |v.items| {
      CommaSplits(s, i, Print(v.items[k]), PrintItems(v, k + 1), "]");
    } else {
      StartsSplit(s, i, Print(v.items[k]), "]");
      StartsHead(s, i + |Print(v.items[k])|, "]");
    }
  }

  lemma CommaSplits(s: string, i: nat, p: string, rest: string, tail: string)
    requires Starts(s, i, p + ", " + rest + tail)
    ensures var j := i + |p|;
      Starts(s, i, p) && j + 1 < |s| && s[j] == ',' && s[j + 1] == ' ' && Starts(s, j + 2, rest + tail)
  {
    assert p + ", " + rest + tail == p + (", " + (rest + tail));
    StartsSplit(s, i, p, ", " + (rest + tail));
    StartsSplit(s, i + |p|, ", ", rest + tail);
    assert s[i + |p| + 0] == ", "[0] && s[i + |p| + 1] == ", "[1];
  }

  lemma SkipSpaceStays(s: string, i: nat, v: Value)
    requires Starts(s, i, Print(v))
    ensures i < |s| && SkipSpace(s, i) == i && s[i] != ']'
  {
    PrintHead(v);
    StartsHead(s, i, Print(v));
  }

  lemma {:induction false} ItemsAreRead(s: string, i: nat, v: Value, k: nat)
    requires v.Arr? && k <= |v.items| && Starts(s, i, PrintItems(v, k) + "]") && DistinctItems(v, k)
    ensures i < |s| && SkipSpace(s, i) == i
    ensures ReadItems(s, i) == ItemsFrom(v, k, i + |PrintItems(v, k)| + 1)
    decreases v, |v.items| - k, 1
  {
    if k == |v.items| {
      ItemsEnd(s, i, v);
    } else {
      ItemSplits(s, i, v, k);
      SkipSpaceStays(s, i, v.items[k]);
      ValueIsRead(s, i, v.items[k]);
      if k + 1 < |v.items| {
        ItemsStep(s, i, i + |Print(v.items[k])|, v, k, i + |PrintItems(v, k)| + 1);
      } else {
        ItemsLast(s, i, v, k);
      }
    }
  }

  lemma {:induction false} ItemsStep(s: string, i: nat, j: nat, v: Value, k: nat, end: nat)
    requires v.Arr? && k + 1 < |v.items| && DistinctItems(v, k + 1)
    requires i < |s| && s[i] != ']' && j + 1 < |s| && s[j] == ',' && s[j + 1] == ' ' && Starts(s, j + 2, PrintItems(v, k + 1) + "]")
    requires Read(s, i) == if Clean(v.items[k]) then Got(v.items[k], j) else Bad
    requires end == j + 2 + |PrintItems(v, k + 1)| + 1
    ensures ReadItems(s, i) == ItemsFrom(v, k, end)
    decreases v, |v.items| - k, 0
  {
    ItemsAreRead(s, j + 2, v, k + 1);
    ItemsMore(s, i, j, v, k, end);
  }

  lemma ItemsEnd(s: string, i: nat, v: Value)
    requires v.Arr? && Starts(s, i, PrintItems(v, |v.items|) + "]")
    ensures i < |s| && SkipSpace(s, i) == i
    ensures ReadItems(s, i) == ItemsFrom(v, |v.items|, i + 1)
  {
    var last := PrintItems(v, |v.items|) + "]";
    assert last == [']'] && v.items[|v.items|..] == [];
    StartsHead(s, i, last);
  }

  lemma ItemsMore(s: string, i: nat, j: nat, v: Value, k: nat, end: nat)
    requires v.Arr? && k < |v.items|
    requires i < |s| && s[i] != ']' && j + 2 < |s| && s[j] == ',' && s[j + 1] == ' ' && SkipSpace(s, j + 2) == j + 2
    requires Read(s, i) == if Clean(v.items[k]) then Got(v.items[k], j) else Bad
    requires ReadItems(s, j + 2) == ItemsFrom(v, k + 1, end)
    ensures ReadItems(s, i) == ItemsFrom(v, k, end)
  {
    SkipAfterComma(s, j);
    ItemsUnfold(s, i, j, if Clean(v.items[k]) then Got(v.items[k], j) else Bad, ItemsFrom(v, k + 1, end));
    ItemsCompose(v, k, j, end);
  }

  lemma SkipAfterComma(s: string, j: nat)
    requires j + 2 < |s| && s[j] == ',' && s[j + 1] == ' ' && SkipSpace(s, j + 2) == j + 2
    ensures SkipSpace(s, j) == j && SkipSpace(s, j + 1) == j + 2
  {
  }

  lemma ItemsLast(s: string, i: nat, v: Value, k: nat)
    requires v.Arr? && k + 1 == |v.items| && i < |s| && s[i] != ']'
    requires var j := i + |Print(v.items[k])|;
             j < |s| && s[j] == ']' && Read(s, i) == (if Clean(v.items[k]) then Got(v.items[k], j) else Bad)
    ensures ReadItems(s, i) == ItemsFrom(v, k, i + |Print(v.items[k])| + 1)
  {
    assert v.items[k..] == [v.items[k]];
    assert CleanItems(v, k) <==> Clean(v.items[k]);
  }

  // What reading the items from the k-th on is to give, when the text of them and the bracket ends at `end`.
  function ItemsFrom(v: Value, k: nat, end: nat): Parsed<seq<Value>>
    requires v.Arr? && k <= |v.items|
  {
    if CleanItems(v, k) then Got(v.items[k..], end) else Bad
  }

  function ItemThen(item: Parsed<Value>, rest: Parsed<seq<Value>>): Parsed<seq<Value>> {
    if item.Bad? || rest.Bad? then Bad else Got([item.value] + rest.value, rest.next)
  }

  lemma ItemsCompose(v: Value, k: nat, j: nat, end: nat)
    requires v.Arr? && k < |v.items|
    ensures ItemThen(if Clean(v.items[k]) then Got(v.items[k], j) else Bad, ItemsFrom(v, k + 1, end)) == ItemsFrom(v, k, end)
  {
    assert v.items[k..] == [v.items[k]] + v.items[k + 1..];
  }

  // An item, a comma, and the rest.
  lemma ItemsUnfold(s: string, i: nat, j: nat, item: Parsed<Value>, rest: Parsed<seq<Value>>)
    requires i < |s| && s[i] != ']' && Read(s, i) == item && (item.Got? ==> item.next == j)
    requires j < |s| && s[j] == ',' && SkipSpace(s, j) == j && ReadItems(s, SkipSpace(s, j + 1)) == rest
    ensures ReadItems(s, i) == ItemThen(item, rest)
  {
  }

  lemma {:induction false} EntryIsRead(s: string, i: nat, e: Entry)
    requires Starts(s, i, PrintEntry(e)) && Stops(s, i + |PrintEntry(e)|) && DistinctKeys(e.value)
    ensures i <= |s| && ReadEntry(s, i) == if CleanEntry(e) then Got(e, i + |PrintEntry(e)|) else Bad
    decreases e
  {
    var j := i + |PrintKey(e.key)|;
    PairSplits(s, i, e);
    EqualsIsRead(s, j, e.value);
    KeyIsRead(s, i, e.key);
    ValueIsRead(s, j + 3, e.value);
    EntryUnfold(s, i, j, i + |PrintEntry(e)|, e, NoDelFrom(e.key, 0), Clean(e.value));
  }

  lemma PairSplits(s: string, i: nat, e: Entry)
    requires Starts(s, i, PrintEntry(e))
    ensures var j := i + |PrintKey(e.key)|;
            && Starts(s, i, PrintKey(e.key)) && Starts(s, j, " = ") && Starts(s, j + 3, Print(e.value))
            && |PrintEntry(e)| == j - i + 3 + |Print(e.value)|
  {
    var key, value := PrintKey(e.key), Print(e.value);
    assert PrintEntry(e) == key + (" = " + value);
    StartsSplit(s, i, key, " = " + value);
    StartsSplit(s, i + |key|, " = ", value);
  }

  // A key, an equals sign between blanks, and a value.
  lemma EntryUnfold(s: string, i: nat, j: nat, end: nat, e: Entry, goodKey: bool, goodValue: bool)
    requires i <= |s| && j + 3 <= |s| && s[j + 1] == '=' && SkipBlanks(s, j) == j + 1 && SkipBlanks(s, j + 2) == j + 3
    requires ReadKey(s, i) == (if goodKey then Got(e.key, j) else Bad)
    requires Read(s, j + 3) == (if goodValue then Got(e.value, end) else Bad)
    ensures ReadEntry(s, i) == if goodKey && goodValue then Got(e, end) else Bad
  {
  }

  lemma EqualsIsRead(s: string, j: nat, v: Value)
    requires Starts(s, j, " = ") && Starts(s, j + 3, Print(v))
    ensures j + 3 < |s| && s[j] == ' ' && SkipBlanks(s, j) == j + 1 && s[j + 1] == '=' && SkipBlanks(s, j + 2) == j + 3
  {
    assert s[j + 0] == " = "[0] && s[j + 1] == " = "[1] && s[j + 2] == " = "[2];
    PrintHead(v);
    StartsHead(s, j + 3, Print(v));
    assert SkipBlanks(s, j + 1) == j + 1;
    assert SkipBlanks(s, j + 3) == j + 3;
  }

  lemma EntrySplits(s: string, i: nat, v: Value, k: nat)
    requires v.Table? && k < |v.entries| && Starts(s, i, PrintEntries(v, k) + " }")
    ensures var p, j := PrintEntry(v.entries[k]), i + |PrintEntry(v.entries[k])|;
            && Starts(s, i, p) && j + 1 < |s|
            && (if k + 1 < |v.entries| then
                  && s[j] == ',' && s[j + 1] == ' ' && Starts(s, j + 2, PrintEntries(v, k + 1) + " }")
                  && |PrintEntries(v, k)| == |p| + 2 + |PrintEntries(v, k + 1)|
                else s[j] == ' ' && s[j + 1] == '}' && |PrintEntries(v, k)| == |p|)
  {
    EntriesText(v, k);
    var j := i + |PrintEntry(v.entries[k])|;
    if k + 1 < |v.entries| {
      CommaSplits(s, i, PrintEntry(v.entries[k]), PrintEntries(v, k + 1), " }");
    } else {
      StartsSplit(s, i, PrintEntry(v.entries[k]), " }");
      assert s[j + 0] == " }"[0] && s[j + 1] == " }"[1];
    }
  }

  lemma SkipBlanksStays(s: string, i: nat, e: Entry)
    requires Starts(s, i, PrintEntry(e))
    ensures i < |s| && SkipBlanks(s, i) == i && s[i] != '}'
  {
    PrintKeyHead(e.key);
    StartsHead(s, i, PrintEntry(e));
    assert PrintEntry(e)[0] == PrintKey(e.key)[0];
  }

  lemma {:induction false} EntriesAreRead(s: string, i: nat, v: Value, k: nat, first: bool)
    requires v.Table? && k < |v.entries| && Starts(s, i, PrintEntries(v, k) + " }") && DistinctEntries(v, k)
    ensures i < |s| && SkipBlanks(s, i) == i
    ensures ReadEntries(s, i, first) == EntriesFrom(v, k, i + |PrintEntries(v, k)| + 2)
    decreases v, |v.entries| - k, 2
  {
    if k + 1 < |v.entries| {
      FirstOfMany(s, i, v, k, first);
    } else {
      EntrySplits(s, i, v, k);
      SkipBlanksStays(s, i, v.entries[k]);
      EntryIsRead(s, i, v.entries[k]);
      EntriesLast(s, i, i + |PrintEntry(v.entries[k])|, v, k, first);
    }
  }

  lemma {:induction false} FirstOfMany(s: string, i: nat, v: Value, k: nat, first: bool)
    requires v.Table? && k + 1 < |v.entries| && Starts(s, i, PrintEntries(v, k) + " }") && DistinctEntries(v, k)
    ensures i < |s| && SkipBlanks(s, i) == i
    ensures ReadEntries(s, i, first) == EntriesFrom(v, k, i + |PrintEntries(v, k)| + 2)
    decreases v, |v.entries| - k, 1
  {
    var j, end := FirstIsRead(s, i, v, k);
    EntriesStep(s, i, j, v, k, first, end);
  }

  lemma {:induction false} FirstIsRead(s: string, i: nat, v: Value, k: nat) returns (j: nat, end: nat)
    requires v.Table? && k + 1 < |v.entries| && Starts(s, i, PrintEntries(v, k) + " }") && DistinctEntries(v, k)
    ensures i < |s| && SkipBlanks(s, i) == i && s[i] != '}' && end == i + |PrintEntries(v, k)| + 2
    ensures j + 1 < |s| && s[j] == ',' && s[j + 1] == ' ' && Starts(s, j + 2, PrintEntries(v, k + 1) + " }")
    ensures ReadEntry(s, i) == if CleanEntry(v.entries[k]) then Got(v.entries[k], j) else Bad
    ensures end == j + 2 + |PrintEntries(v, k + 1)| + 2
    decreases v, |v.entries| - k, 0
  {
    j, end := i + |PrintEntry(v.entries[k])|, i + |PrintEntries(v, k)| + 2;
    EntrySplits(s, i, v, k);
    SkipBlanksStays(s, i, v.entries[k]);
    EntryIsRead(s, i, v.entries[k]);
  }

  lemma {:induction false} EntriesStep(s: string, i: nat, j: nat, v: Value, k: nat, first: bool, end: nat)
    requires v.Table? && k + 1 < |v.entries| && DistinctEntries(v, k)
    requires i < |s| && s[i] != '}' && j + 1 < |s| && s[j] == ',' && s[j + 1] == ' ' && Starts(s, j + 2, PrintEntries(v, k + 1) + " }")
    requires ReadEntry(s, i) == if CleanEntry(v.entries[k]) then Got(v.entries[k], j) else Bad
    requires end == j + 2 + |PrintEntries(v, k + 1)| + 2
    ensures ReadEntries(s, i, first) == EntriesFrom(v, k, end)
    decreases v, |v.entries| - k, 0, 1
  {
    RestIsRead(s, j, v, k, end);
    EntriesMore(s, i, j, v, k, first, end);
  }

  lemma {:induction false} RestIsRead(s: string, j: nat, v: Value, k: nat, end: nat)
    requires v.Table? && k + 1 < |v.entries| && DistinctEntries(v, k) && Starts(s, j + 2, PrintEntries(v, k + 1) + " }")
    requires end == j + 2 + |PrintEntries(v, k + 1)| + 2
    ensures j + 2 < |s| && SkipBlanks(s, j + 2) == j + 2 && !HasKey(v.entries[k + 1..], 0, v.entries[k].key)
    ensures ReadEntries(s, j + 2, false) == EntriesFrom(v, k + 1, end)
    decreases v, |v.entries| - k, 0, 0
  {
    DistinctTail(v, k);
    EntriesAreRead(s, j + 2, v, k + 1, false);
  }

  lemma DistinctTail(v: Value, k: nat)
    requires v.Table? && k < |v.entries| && DistinctEntries(v, k)
    ensures !HasKey(v.entries[k + 1..], 0, v.entries[k].key) && DistinctEntries(v, k + 1)
  {
  }

  lemma EntriesMore(s: string, i: nat, j: nat, v: Value, k: nat, first: bool, end: nat)
    requires v.Table? && k < |v.entries| && !HasKey(v.entries[k + 1..], 0, v.entries[k].key)
    requires i < |s| && s[i] != '}' && j + 2 < |s| && s[j] == ',' && s[j + 1] == ' ' && SkipBlanks(s, j + 2) == j + 2
    requires ReadEntry(s, i) == if CleanEntry(v.entries[k]) then Got(v.entries[k], j) else Bad
    requires ReadEntries(s, j + 2, false) == EntriesFrom(v, k + 1, end)
    ensures ReadEntries(s, i, first) == EntriesFrom(v, k, end)
  {
    BlanksAfterComma(s, j);
    EntriesUnfold(s, i, j, first, if CleanEntry(v.entries[k]) then Got(v.entries[k], j) else Bad, EntriesFrom(v, k + 1, end));
    EntriesCompose(v, k, j, end);
  }

  lemma BlanksAfterComma(s: string, j: nat)
    requires j + 2 < |s| && s[j] == ',' && s[j + 1] == ' ' && SkipBlanks(s, j + 2) == j + 2
    ensures SkipBlanks(s, j) == j && SkipBlanks(s, j + 1) == j + 2
  {
  }

  lemma EntriesLast(s: string, i: nat, j: nat, v: Value, k: nat, first: bool)
    requires v.Table? && k + 1 == |v.entries| && i < |s| && s[i] != '}' && j + 1 < |s| && s[j] == ' ' && s[j + 1] == '}'
    requires ReadEntry(s, i) == (if CleanEntry(v.entries[k]) then Got(v.entries[k], j) else Bad)
    ensures ReadEntries(s, i, first) == EntriesFrom(v, k, j + 2)
  {
    assert SkipBlanks(s, j + 1) == j + 1 && SkipBlanks(s, j) == j + 1;
    assert v.entries[k..] == [v.entries[k]];
    assert CleanEntries(v, k) <==> CleanEntry(v.entries[k]);
  }

  function EntriesFrom(v: Value, k: nat, end: nat): Parsed<seq<Entry>>
    requires v.Table? && k <= |v.entries|
  {
    if CleanEntries(v, k) then Got(v.entries[k..], end) else Bad
  }

  function EntryThen(entry: Parsed<Entry>, rest: Parsed<seq<Entry>>): Parsed<seq<Entry>> {
    if entry.Bad? || rest.Bad? then Bad else Got([entry.value] + rest.value, rest.next)
  }

  lemma EntriesCompose(v: Value, k: nat, j: nat, end: nat)
    requires v.Table? && k < |v.entries|
    ensures EntryThen(if CleanEntry(v.entries[k]) then Got(v.entries[k], j) else Bad, EntriesFrom(v, k + 1, end)) == EntriesFrom(v, k, end)
  {
    assert v.entries[k..] == [v.entries[k]] + v.entries[k + 1..];
  }

  // A pair, a comma, and the rest.
  lemma EntriesUnfold(s: string, i: nat, j: nat, first: bool, entry: Parsed<Entry>, rest: Parsed<seq<Entry>>)
    requires i < |s| && s[i] != '}' && ReadEntry(s, i) == entry && (entry.Got? ==> entry.next == j)
    requires j < |s| && s[j] == ',' && SkipBlanks(s, j) == j && ReadEntries(s, SkipBlanks(s, j + 1), false) == rest
    requires entry.Got? && rest.Got? ==> !HasKey(rest.value, 0, entry.value.key)
    ensures ReadEntries(s, i, first) == EntryThen(entry, rest)
  {
  }

  /** The printed text as a whole. */
  lemma PrintThenRead(v: Value)
    requires DistinctKeys(v)
    ensures Read(Print(v), 0) == if Clean(v) then Got(v, |Print(v)|) else Bad
  {
    ValueIsRead(Print(v), 0, v);
  }
}
