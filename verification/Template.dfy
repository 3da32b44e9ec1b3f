/**
 The metadata template language: "/"-separated segments made of literal text, {field} captures and * wildcards.
 The compiler is the index loop of the source; the matcher is its backtracking search over a shared, mutable
 binding map. What a segment means is given independently, by `Print` and `Decomposes`.
 */
module Templates {
  import opened Wrappers

  datatype Token = Literal(text: string) | Field(name: string) | Wildcard

  datatype CompileError = EmptyPattern | EmptySegment(index: nat) | UnclosedCapture | EmptyCapture
                        | InvalidCapture(name: string) | DuplicateField(name: string) | UnmatchedBrace

  // ---------------------------------------------------------------- grammar

  predicate PlainChar(c: char) {
    c != '{' && c != '}' && c != '*'
  }

  predicate PlainText(s: string) {
    forall i :: 0 <= i < |s| ==> PlainChar(s[i])
  }

  predicate NameStart(c: char) {
    'A' <= c <= 'Z' || 'a' <= c <= 'z' || c == '_'
  }

  predicate ValidKeyName(name: string) {
    && name != ""
    && NameStart(name[0])
    && forall i :: 0 <= i < |name| ==> NameStart(name[i]) || '0' <= name[i] <= '9'
  }

  function PrintToken(t: Token): string {
    match t
    case Literal(text) => text
    case Field(name) => "{" + name + "}"
    case Wildcard => "*"
  }

  function Print(ts: seq<Token>): string {
    if ts == [] then "" else PrintToken(ts[0]) + Print(ts[1..])
  }

  predicate WellFormedToken(t: Token) {
    match t
    case Literal(text) => text != "" && PlainText(text)
    case Field(name) => ValidKeyName(name)
    case Wildcard => true
  }

  // Every token is well formed and no two literals are adjacent.
  predicate WellFormed(ts: seq<Token>) {
    ts != [] ==>
      && WellFormedToken(ts[0])
      && (|ts| > 1 ==> !(ts[0].Literal? && ts[1].Literal?))
      && WellFormed(ts[1..])
  }

  predicate DistinctFields(ts: seq<Token>) {
    forall i, j :: 0 <= i < j < |ts| && ts[i].Field? && ts[j].Field? ==> ts[i].name != ts[j].name
  }

  predicate Canonical(ts: seq<Token>) {
    ts != [] && WellFormed(ts) && DistinctFields(ts)
  }

  // Some canonical token list prints to `seg`.
  ghost predicate IsPrinting(seg: string) {
    exists ts {:trigger Canonical(ts)} :: Canonical(ts) && Print(ts) == seg
  }

  function FieldSet(ts: seq<Token>): set<string> {
    set i | 0 <= i < |ts| && ts[i].Field? :: ts[i].name
  }

  // ------------------------------------------------- reference reading

  // The end of the run of plain characters that starts at `j`.
  function RunEnd(s: string, j: nat): (n: nat)
    requires j <= |s|
    ensures j <= n <= |s| && (forall i :: j <= i < n ==> PlainChar(s[i])) && (n < |s| ==> !PlainChar(s[n]))
    decreases |s| - j
  {
    if j == |s| || !PlainChar(s[j]) then j else RunEnd(s, j + 1)
  }

  // The first position of `c` from `j` on, or |s|.
  function Find(s: string, j: nat, c: char): (n: nat)
    requires j <= |s|
    ensures j <= n <= |s| && (forall i :: j <= i < n ==> s[i] != c) && (n < |s| ==> s[n] == c)
    decreases |s| - j
  {
    if j == |s| || s[j] == c then j else Find(s, j + 1, c)
  }

  function Cons(t: Token, rest: Option<seq<Token>>): Option<seq<Token>> {
    match rest
    case None => None
    case Some(ts) => Some([t] + ts)
  }

  // The first token of s[j..] and where the next one starts, if s[j..] starts with a token.
  function First(s: string, j: nat): (r: Option<(Token, nat)>)
    requires j < |s|
    ensures r.Some? ==> j < r.value.1 <= |s|
  {
    if s[j] == '*' then Some((Wildcard, j + 1))
    else if s[j] == '}' then None
    else if s[j] == '{' then
      var e := Find(s, j, '}');
      if e == |s| || !ValidKeyName(s[j + 1..e]) then None else Some((Field(s[j + 1..e]), e + 1))
    else
      var n := RunEnd(s, j);
      Some((Literal(s[j..n]), n))
  }

  // The reading of s[j..] as a well-formed token list, if it has one.
  function Reading(s: string, j: nat): Option<seq<Token>>
    requires j <= |s|
    decreases |s| - j
  {
    if j == |s| then Some([]) else
      match First(s, j)
      case None => None
      case Some((t, n)) => Cons(t, Reading(s, n))
  }

  lemma FindIs(s: string, j: nat, c: char, n: nat)
    requires j <= n < |s| && s[n] == c && forall i :: j <= i < n ==> s[i] != c
    ensures Find(s, j, c) == n
    decreases n - j
  {
  }

  lemma FirstLiteral(s: string, j: nat, n: nat)
    requires j < n <= |s| && (forall i :: j <= i < n ==> PlainChar(s[i])) && (n < |s| ==> !PlainChar(s[n]))
    ensures First(s, j) == Some((Literal(s[j..n]), n))
  {
  }

  lemma FirstField(s: string, j: nat, n: nat)
    requires j + 2 <= n <= |s| && s[j] == '{' && s[n - 1] == '}' && ValidKeyName(s[j + 1..n - 1])
    ensures First(s, j) == Some((Field(s[j + 1..n - 1]), n))
  {
  }

  lemma PrintedField(s: string, j: nat, name: string, n: nat)
    requires j <= n <= |s| && s[j..n] == "{" + name + "}"
    ensures n == j + |name| + 2 && s[j] == '{' && s[n - 1] == '}' && s[j + 1..n - 1] == name
  {
    var w := s[j..n];
    assert w[0] == '{' && w[|w| - 1] == '}' && w[1..|w| - 1] == name;
    assert forall i :: 0 <= i < |name| ==> s[j + 1 + i] == w[i + 1] == name[i];
    assert s[j + 1..n - 1] == name;
  }

  // A well-formed token printed at `j` is what is read there, unless a literal could go on.
  lemma FirstPrinted(s: string, j: nat, t: Token, n: nat)
    requires j <= n <= |s| && s[j..n] == PrintToken(t) && WellFormedToken(t)
    requires t.Literal? && n < |s| ==> !PlainChar(s[n])
    ensures j < n && First(s, j) == Some((t, n))
  {
    if t.Literal? {
      assert forall i :: j <= i < n ==> s[i] == t.text[i - j];
      FirstLiteral(s, j, n);
    } else if t.Field? {
      PrintedField(s, j, t.name, n);
      FirstField(s, j, n);
    } else {
      assert s[j] == s[j..n][0];
    }
  }

  lemma FirstSound(s: string, j: nat)
    requires j < |s| && First(s, j).Some?
    ensures var (t, n) := First(s, j).value;
      s[j..n] == PrintToken(t) && WellFormedToken(t) && (t.Literal? ==> PlainChar(s[j]) && (n < |s| ==> !PlainChar(s[n])))
  {
    if s[j] == '{' {
      var e := Find(s, j, '}');
      assert s[j..e + 1] == [s[j]] + s[j + 1..e] + [s[e]];
    }
  }

  lemma ReadStep(s: string, j: nat, t: Token, n: nat)
    requires j < n <= |s| && First(s, j) == Some((t, n))
    ensures Reading(s, j) == Cons(t, Reading(s, n))
  {
  }

  lemma {:induction false} ReadPrinted(pre: string, ts: seq<Token>)
    requires WellFormed(ts)
    ensures Reading(pre + Print(ts), |pre|) == Some(ts)
    decreases |ts|
  {
    var s := pre + Print(ts);
    if ts != [] {
      var p, rest := PrintToken(ts[0]), Print(ts[1..]);
      assert s == (pre + p) + rest;
      ReadPrinted(pre + p, ts[1..]);
      assert [ts[0]] + ts[1..] == ts;
      assert |ts| > 1 ==> rest[0] == PrintToken(ts[1])[0] && s[|pre + p|] == rest[0];
      assert s[|pre|..|pre + p|] == p;
      FirstPrinted(s, |pre|, ts[0], |pre + p|);
      ReadStep(s, |pre|, ts[0], |pre + p|);
    }
  }

  lemma {:induction false} PrintRead(s: string, j: nat)
    requires j <= |s| && Reading(s, j).Some?
    ensures Print(Reading(s, j).value) == s[j..] && WellFormed(Reading(s, j).value)
    ensures j < |s| ==> Reading(s, j).value != [] && (Reading(s, j).value[0].Literal? ==> PlainChar(s[j]))
    decreases |s| - j
  {
    if j < |s| {
      var (t, n) := First(s, j).value;
      FirstSound(s, j);
      PrintRead(s, n);
      PrintCons(s, j, t, n, Reading(s, n).value);
    }
  }

  // One token in front of the rest of a segment.
  lemma PrintCons(s: string, j: nat, t: Token, n: nat, rest: seq<Token>)
    requires j < n <= |s| && s[j..n] == PrintToken(t) && WellFormedToken(t) && (t.Literal? && n < |s| ==> !PlainChar(s[n]))
    requires Print(rest) == s[n..] && WellFormed(rest) && (if n == |s| then rest == [] else rest != [] && (rest[0].Literal? ==> PlainChar(s[n])))
    ensures Print([t] + rest) == s[j..] && WellFormed([t] + rest)
  {
    assert ([t] + rest)[1..] == rest;
    assert s[j..] == s[j..n] + s[n..];
  }

  // Printing is injective on well-formed token lists: a segment is read in one way only.
  lemma PrintInjective(a: seq<Token>, b: seq<Token>)
    requires WellFormed(a) && WellFormed(b) && Print(a) == Print(b)
    ensures a == b
  {
    ReadPrinted("", a);
    ReadPrinted("", b);
    assert "" + Print(a) == "" + Print(b);
  }

  // --------------------------------------------------------------- compiler

  // `tokens` followed by the reading of what is left from `j` on.
  ghost function Resume(tokens: seq<Token>, seg: string, j: nat): Option<seq<Token>>
    requires j <= |seg|
  {
    match Reading(seg, j)
    case None => None
    case Some(ts) => Some(tokens + ts)
  }

  function Flushed(tokens: seq<Token>, lit: string): seq<Token> {
    if lit == "" then tokens else tokens + [Literal(lit)]
  }

  lemma ResumeEnds(tokens: seq<Token>, seg: string)
    ensures Resume([], seg, 0) == Reading(seg, 0)
    ensures Resume(tokens, seg, |seg|) == Some(tokens)
  {
    assert tokens + [] == tokens;
    if Reading(seg, 0).Some? {
      assert [] + Reading(seg, 0).value == Reading(seg, 0).value;
    }
  }

  lemma ResumeToken(tokens: seq<Token>, t: Token, seg: string, j: nat, n: nat)
    requires j <= |seg| && n <= |seg| && Reading(seg, j) == Cons(t, Reading(seg, n))
    ensures Resume(tokens, seg, j) == Resume(tokens + [t], seg, n)
  {
    if Reading(seg, n).Some? {
      assert tokens + ([t] + Reading(seg, n).value) == tokens + [t] + Reading(seg, n).value;
    }
  }

  lemma ResumeFlushed(tokens: seq<Token>, seg: string, j: nat, i: nat)
    requires j <= i <= |seg| && (forall k :: j <= k < i ==> PlainChar(seg[k])) && (i < |seg| ==> !PlainChar(seg[i]))
    ensures Resume(tokens, seg, j) == Resume(Flushed(tokens, seg[j..i]), seg, i)
  {
    if j < i {
      FirstLiteral(seg, j, i);
      ReadStep(seg, j, Literal(seg[j..i]), i);
      ResumeToken(tokens, Literal(seg[j..i]), seg, j, i);
    }
  }

  lemma NoReading(seg: string)
    requires Reading(seg, 0).None?
    ensures !IsPrinting(seg)
  {
    forall ts {:trigger Canonical(ts)} | Canonical(ts) ensures Print(ts) != seg {
      ReadPrinted("", ts);
      assert "" + Print(ts) == Print(ts);
    }
  }

  // A field met twice in the tokens read so far cannot be repaired by what follows.
  lemma DuplicateReading(seg: string, tokens: seq<Token>, name: string, j: nat)
    requires j <= |seg| && Reading(seg, 0) == Resume(tokens + [Field(name)], seg, j)
    requires name in FieldSet(tokens)
    ensures !IsPrinting(seg)
  {
    forall ts {:trigger Canonical(ts)} | WellFormed(ts) && Print(ts) == seg ensures !DistinctFields(ts) {
      ReadPrinted("", ts);
      assert "" + Print(ts) == Print(ts);
      var i :| 0 <= i < |tokens| && tokens[i].Field? && tokens[i].name == name;
      assert ts[i] == tokens[i] && ts[|tokens|] == Field(name);
    }
  }

  lemma FieldsSnoc(tokens: seq<Token>, t: Token)
    ensures FieldSet(tokens + [t]) == FieldSet(tokens) + if t.Field? then {t.name} else {}
    ensures DistinctFields(tokens) && (t.Field? ==> t.name !in FieldSet(tokens)) ==> DistinctFields(tokens + [t])
  {
    var ts := tokens + [t];
    assert ts[|tokens|] == t && forall i :: 0 <= i < |tokens| ==> ts[i] == tokens[i];
    forall f | f in FieldSet(tokens) ensures f in FieldSet(ts) {
      var i :| 0 <= i < |tokens| && tokens[i].Field? && tokens[i].name == f;
      assert ts[i] == tokens[i];
    }
  }

  lemma FlushedFields(tokens: seq<Token>, lit: string)
    ensures FieldSet(Flushed(tokens, lit)) == FieldSet(tokens)
    ensures DistinctFields(tokens) ==> DistinctFields(Flushed(tokens, lit))
  {
  }

  // The compiler's scanner: tokens emitted, the literal buffered since `j`, and the next index.
  ghost predicate Scanned(seg: string, tokens: seq<Token>, j: nat, i: nat) {
    && j <= i <= |seg|
    && (forall k :: j <= k < i ==> PlainChar(seg[k]))
    && DistinctFields(tokens)
    && Reading(seg, 0) == Resume(tokens, seg, j)
  }

  lemma ScanToken(seg: string, tokens: seq<Token>, j: nat, i: nat, t: Token, n: nat)
    requires Scanned(seg, tokens, j, i) && i < n <= |seg|
    requires !PlainChar(seg[i]) && First(seg, i) == Some((t, n))
    ensures var ts := Flushed(tokens, seg[j..i]);
      && FieldSet(ts) == FieldSet(tokens)
      && FieldSet(ts + [t]) == FieldSet(tokens) + (if t.Field? then {t.name} else {})
      && if t.Field? && t.name in FieldSet(tokens) then !IsPrinting(seg)
         else Scanned(seg, ts + [t], n, n)
  {
    var ts := Flushed(tokens, seg[j..i]);
    ResumeFlushed(tokens, seg, j, i);
    FlushedFields(tokens, seg[j..i]);
    ReadStep(seg, i, t, n);
    ResumeToken(ts, t, seg, i, n);
    FieldsSnoc(ts, t);
    if t.Field? && t.name in FieldSet(tokens) {
      DuplicateReading(seg, ts, t.name, n);
    }
  }

  lemma ScanStuck(seg: string, tokens: seq<Token>, j: nat, i: nat)
    requires Scanned(seg, tokens, j, i) && i < |seg| && !PlainChar(seg[i]) && First(seg, i).None?
    ensures !IsPrinting(seg)
  {
    ResumeFlushed(tokens, seg, j, i);
    NoReading(seg);
  }

  lemma ScanDone(seg: string, tokens: seq<Token>, j: nat)
    requires seg != "" && Scanned(seg, tokens, j, |seg|)
    ensures var ts := Flushed(tokens, seg[j..|seg|]);
      Canonical(ts) && Print(ts) == seg && FieldSet(ts) == FieldSet(tokens)
  {
    assert seg[0..] == seg;
    ResumeFlushed(tokens, seg, j, |seg|);
    FlushedFields(tokens, seg[j..|seg|]);
    ResumeEnds(Flushed(tokens, seg[j..|seg|]), seg);
    PrintRead(seg, 0);
  }

  // The capture that opens at `i`, and where it ends.
  method ReadCapture(seg: string, i: nat, tokens: seq<Token>, ghost j: nat, lit: string, fields: set<string>)
    returns (r: Result<(seq<Token>, set<string>, nat), CompileError>)
    requires Scanned(seg, tokens, j, i) && i < |seg| && seg[i] == '{' && lit == seg[j..i] && fields == FieldSet(tokens)
    ensures r.Success? ==> i < r.value.2 <= |seg| && Scanned(seg, r.value.0, r.value.2, r.value.2) && r.value.1 == FieldSet(r.value.0)
    ensures r.Failure? ==> !IsPrinting(seg)
  {
    var end := Find(seg, i, '}');
    if end == |seg| {
      ScanStuck(seg, tokens, j, i);
      return Failure(UnclosedCapture);
    }
    var name := seg[i + 1..end];
    if !ValidKeyName(name) {
      ScanStuck(seg, tokens, j, i);
      return Failure(if name == "" then EmptyCapture else InvalidCapture(name));
    }
    ScanToken(seg, tokens, j, i, Field(name), end + 1);
    if name in fields {
      return Failure(DuplicateField(name));
    }
    return Success((Flushed(tokens, lit) + [Field(name)], fields + {name}, end + 1));
  }

  /** Accepts exactly the segments that are printings of canonical token lists, and returns that list. */
  method CompileSegment(seg: string) returns (r: Result<(seq<Token>, set<string>), CompileError>)
    requires seg != ""
    ensures r.Success? ==> Canonical(r.value.0) && Print(r.value.0) == seg && r.value.1 == FieldSet(r.value.0)
    ensures r.Failure? ==> !IsPrinting(seg)
  {
    var tokens: seq<Token>, fields: set<string>, lit: string := [], {}, "";
    var i: nat := 0;
    ghost var j: nat := 0;  // where the buffered literal starts
    ResumeEnds([], seg);
    while i < |seg|
      invariant Scanned(seg, tokens, j, i)
      invariant lit == seg[j..i] && fields == FieldSet(tokens)
    {
      if seg[i] == '{' {
        var capture := ReadCapture(seg, i, tokens, j, lit, fields);
        if capture.Failure? {
          return Failure(capture.error);
        }
        tokens, fields, i, lit := capture.value.0, capture.value.1, capture.value.2, "";
        j := i;
      } else if seg[i] == '}' {
        ScanStuck(seg, tokens, j, i);
        return Failure(UnmatchedBrace);
      } else if seg[i] == '*' {
        ScanToken(seg, tokens, j, i, Wildcard, i + 1);
        tokens, lit, i, j := Flushed(tokens, lit) + [Wildcard], "", i + 1, i + 1;
      } else {
        lit, i := lit + [seg[i]], i + 1;
      }
    }
    ScanDone(seg, tokens, j);
    tokens := Flushed(tokens, lit);
    return Success((tokens, fields));
  }

  // --------------------------------------------------------------- patterns

  predicate SlashFree(s: string) {
    '/' !in s
  }

  function Join(parts: seq<string>): string
    requires parts != []
  {
    if |parts| == 1 then parts[0] else parts[0] + "/" + Join(parts[1..])
  }

  // strings.Split on "/".
  function Split(s: string): (parts: seq<string>)
    ensures parts != []
    decreases |s|
  {
    var n := Find(s, 0, '/');
    if n == |s| then [s] else [s[..n]] + Split(s[n + 1..])
  }

  lemma {:induction false} JoinSplit(s: string)
    ensures Join(Split(s)) == s && forall i :: 0 <= i < |Split(s)| ==> SlashFree(Split(s)[i])
    decreases |s|
  {
    var n := Find(s, 0, '/');
    if n < |s| {
      JoinSplit(s[n + 1..]);
      assert Split(s)[1..] == Split(s[n + 1..]);
      assert s == s[..n] + "/" + s[n + 1..];
    }
  }

  lemma SplitHead(p: string, rest: string)
    requires SlashFree(p)
    ensures Split(p) == [p]
    ensures Split(p + "/" + rest) == [p] + Split(rest)
  {
    assert forall i :: 0 <= i < |p| ==> p[i] in p;
    var s := p + "/" + rest;
    assert s[|p|] == '/' && forall i :: 0 <= i < |p| ==> s[i] == p[i];
    FindIs(s, 0, '/', |p|);
    assert s[..|p|] == p && s[|p| + 1..] == rest;
  }

  lemma {:induction false} SplitJoin(parts: seq<string>)
    requires parts != [] && forall i :: 0 <= i < |parts| ==> SlashFree(parts[i])
    ensures Split(Join(parts)) == parts
    decreases |parts|
  {
    if |parts| == 1 {
      SplitHead(parts[0], "");
    } else {
      SplitJoin(parts[1..]);
      SplitHead(parts[0], Join(parts[1..]));
      assert [parts[0]] + parts[1..] == parts;
    }
  }

  function PrintAll(segs: seq<seq<Token>>): (r: seq<string>)
    ensures |r| == |segs| && forall i :: 0 <= i < |segs| ==> r[i] == Print(segs[i])
  {
    seq(|segs|, i requires 0 <= i < |segs| => Print(segs[i]))
  }

  ghost predicate DisjointFields(segs: seq<seq<Token>>) {
    forall i, j :: 0 <= i < j < |segs| ==> FieldSet(segs[i]) !! FieldSet(segs[j])
  }

  // Canonical segments that share no field and contain no separator.
  ghost predicate CanonicalPattern(segs: seq<seq<Token>>) {
    && segs != []
    && (forall i :: 0 <= i < |segs| ==> Canonical(segs[i]) && SlashFree(Print(segs[i])))
    && DisjointFields(segs)
  }

  ghost predicate IsPatternPrinting(pattern: string) {
    exists segs {:trigger CanonicalPattern(segs)} :: CanonicalPattern(segs) && Join(PrintAll(segs)) == pattern
  }

  function PatternFields(segs: seq<seq<Token>>): set<string> {
    if segs == [] then {} else PatternFields(segs[..|segs| - 1]) + FieldSet(segs[|segs| - 1])
  }

  lemma {:induction false} PatternFieldsHas(segs: seq<seq<Token>>, i: nat)
    requires i < |segs|
    ensures FieldSet(segs[i]) <= PatternFields(segs)
    decreases |segs|
  {
    var n := |segs| - 1;
    if i < n {
      PatternFieldsHas(segs[..n], i);
      assert segs[..n][i] == segs[i];
    }
  }

  lemma {:induction false} PatternFieldsFrom(segs: seq<seq<Token>>, f: string) returns (i: nat)
    requires f in PatternFields(segs)
    ensures i < |segs| && f in FieldSet(segs[i])
  {
    if f in FieldSet(segs[|segs| - 1]) {
      i := |segs| - 1;
    } else {
      i := PatternFieldsFrom(segs[..|segs| - 1], f);
    }
  }

  // The segments of a canonical pattern are the pieces between the separators of its printing.
  lemma SegmentsOf(pattern: string, segs: seq<seq<Token>>)
    requires CanonicalPattern(segs) && Join(PrintAll(segs)) == pattern
    ensures Split(pattern) == PrintAll(segs)
  {
    SplitJoin(PrintAll(segs));
  }

  // The segments compiled so far against the pieces of the pattern.
  ghost predicate CompiledSoFar(raw: seq<string>, segs: seq<seq<Token>>) {
    && |segs| <= |raw|
    && (forall i :: 0 <= i < |segs| ==> Canonical(segs[i]) && Print(segs[i]) == raw[i])
    && DisjointFields(segs)
  }

  lemma BadSegment(pattern: string, i: nat)
    requires i < |Split(pattern)| && (Split(pattern)[i] == "" || !IsPrinting(Split(pattern)[i]))
    ensures !IsPatternPrinting(pattern)
  {
    forall segs {:trigger CanonicalPattern(segs)} | CanonicalPattern(segs) ensures Join(PrintAll(segs)) != pattern {
      if Join(PrintAll(segs)) == pattern {
        SegmentsOf(pattern, segs);
        ReadPrinted("", segs[i]);
        assert false;
      }
    }
  }

  lemma FieldsApart(ps: seq<seq<Token>>, a: nat, b: nat)
    requires CanonicalPattern(ps) && a < b < |ps|
    ensures FieldSet(ps[a]) !! FieldSet(ps[b])
  {
  }

  lemma SharedField(pattern: string, segs: seq<seq<Token>>, next: seq<Token>, f: string)
    requires CompiledSoFar(Split(pattern), segs) && |segs| < |Split(pattern)|
    requires Canonical(next) && Print(next) == Split(pattern)[|segs|]
    requires f in PatternFields(segs) * FieldSet(next)
    ensures !IsPatternPrinting(pattern)
  {
    var k := PatternFieldsFrom(segs, f);
    forall ps {:trigger CanonicalPattern(ps)} | CanonicalPattern(ps) ensures Join(PrintAll(ps)) != pattern {
      if Join(PrintAll(ps)) == pattern {
        SegmentsOf(pattern, ps);
        SameSegment(ps, segs[k], k, pattern);
        SameSegment(ps, next, |segs|, pattern);
        FieldsApart(ps, k, |segs|);
        assert false;
      }
    }
  }

  lemma SameSegment(ps: seq<seq<Token>>, seg: seq<Token>, k: nat, pattern: string)
    requires CanonicalPattern(ps) && Split(pattern) == PrintAll(ps)
    requires k < |Split(pattern)| && Canonical(seg) && Print(seg) == Split(pattern)[k]
    ensures ps[k] == seg
  {
    PrintInjective(ps[k], seg);
  }

  lemma DisjointSnoc(segs: seq<seq<Token>>, next: seq<Token>)
    requires DisjointFields(segs) && PatternFields(segs) !! FieldSet(next)
    ensures DisjointFields(segs + [next])
  {
    forall i | 0 <= i < |segs| ensures FieldSet(segs[i]) !! FieldSet(next) { PatternFieldsHas(segs, i); }
  }

  lemma SegmentSnoc(raw: seq<string>, segs: seq<seq<Token>>, next: seq<Token>)
    requires CompiledSoFar(raw, segs) && |segs| < |raw| && Canonical(next) && Print(next) == raw[|segs|]
    requires PatternFields(segs) !! FieldSet(next)
    ensures CompiledSoFar(raw, segs + [next]) && PatternFields(segs + [next]) == PatternFields(segs) + FieldSet(next)
  {
    DisjointSnoc(segs, next);
    assert (segs + [next])[..|segs|] == segs;
    forall i | 0 <= i < |segs| + 1 ensures Canonical((segs + [next])[i]) && Print((segs + [next])[i]) == raw[i] {
      assert (segs + [next])[i] == if i < |segs| then segs[i] else next;
    }
  }

  lemma PatternDone(pattern: string, segs: seq<seq<Token>>)
    requires CompiledSoFar(Split(pattern), segs) && |segs| == |Split(pattern)|
    ensures CanonicalPattern(segs) && Join(PrintAll(segs)) == pattern
  {
    JoinSplit(pattern);
    assert PrintAll(segs) == Split(pattern);
  }

  /** Accepts exactly the printings of canonical patterns; a field may be captured only once in the whole pattern. */
  method CompilePattern(pattern: string) returns (r: Result<(seq<seq<Token>>, set<string>), CompileError>)
    ensures r.Success? ==> CanonicalPattern(r.value.0) && Join(PrintAll(r.value.0)) == pattern
    ensures r.Success? ==> r.value.1 == PatternFields(r.value.0)
    ensures r.Failure? ==> !IsPatternPrinting(pattern)
  {
    var raw := Split(pattern);
    if pattern == "" {
      assert raw[0] == "";
      BadSegment(pattern, 0);
      return Failure(EmptyPattern);
    }
    var segments: seq<seq<Token>>, fields: set<string> := [], {};
    for i := 0 to |raw|
      invariant |segments| == i && CompiledSoFar(raw, segments) && fields == PatternFields(segments)
    {
      if raw[i] == "" {
        BadSegment(pattern, i);
        return Failure(EmptySegment(i));
      }
      var c := CompileSegment(raw[i]);
      if c.Failure? {
        BadSegment(pattern, i);
        return Failure(c.error);
      }
      var (tokens, segFields) := c.value;
      assert segFields == FieldSet(tokens);
      if fields * segFields != {} {
        var f :| f in fields * segFields;
        SharedField(pattern, segments, tokens, f);
        return Failure(DuplicateField(f));
      }
      assert forall f :: f in fields && f in segFields ==> f in fields * segFields;
      SegmentSnoc(raw, segments, tokens);
      fields := fields + segFields;
      segments := segments + [tokens];
    }
    PatternDone(pattern, segments);
    return Success((segments, fields));
  }

  /** Compiling a printed canonical pattern gives the pattern back. */
  lemma CompiledIsUnique(a: seq<seq<Token>>, b: seq<seq<Token>>)
    requires CanonicalPattern(a) && CanonicalPattern(b) && Join(PrintAll(a)) == Join(PrintAll(b))
    ensures a == b
  {
    SegmentsOf(Join(PrintAll(a)), a);
    SegmentsOf(Join(PrintAll(b)), b);
    forall i | 0 <= i < |a| ensures a[i] == b[i] {
      assert PrintAll(a)[i] == PrintAll(b)[i];
      PrintInjective(a[i], b[i]);
    }
  }
}
