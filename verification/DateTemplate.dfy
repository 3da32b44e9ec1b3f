/**
 Date templates: the vocabulary YYYY, YY, MM, DD inside otherwise literal text. The renderer, the discovery glob and
 the split of a machine path all scan the same way; `Parts` is that scan.
 */
module DateTemplates {
  import opened Wrappers
  import opened Text
  import opened Model

  datatype DateToken = YYYY | YY | MM | DD

  predicate CharAt(s: string, i: nat, c: char) {
    i < |s| && s[i] == c
  }

  // The token's letters stand at s[i..].
  predicate SpelledAt(t: DateToken, s: string, i: nat) {
    match t
    case YYYY => CharAt(s, i, 'Y') && CharAt(s, i + 1, 'Y') && CharAt(s, i + 2, 'Y') && CharAt(s, i + 3, 'Y')
    case YY => CharAt(s, i, 'Y') && CharAt(s, i + 1, 'Y')
    case MM => CharAt(s, i, 'M') && CharAt(s, i + 1, 'M')
    case DD => CharAt(s, i, 'D') && CharAt(s, i + 1, 'D')
  }

  function Width(t: DateToken): nat {
    if t == YYYY then 4 else 2
  }

  // The token at position i, longest first.
  function TokenAt(s: string, i: nat): (t: Option<DateToken>)
    ensures t.Some? ==> i + Width(t.value) <= |s|
  {
    if SpelledAt(YYYY, s, i) then Some(YYYY)
    else if SpelledAt(YY, s, i) then Some(YY)
    else if SpelledAt(MM, s, i) then Some(MM)
    else if SpelledAt(DD, s, i) then Some(DD)
    else None
  }

  datatype Part = Tok(token: DateToken) | Lit(c: char)

  // The part that starts at position i, and where the next one starts.
  function PartAt(s: string, i: nat): (p: Part)
    requires i < |s|
  {
    match TokenAt(s, i)
    case Some(t) => Tok(t)
    case None => Lit(s[i])
  }

  function After(s: string, i: nat): (n: nat)
    requires i < |s|
    ensures i < n <= |s|
  {
    match TokenAt(s, i)
    case Some(t) => i + Width(t)
    case None => i + 1
  }

  // The scan of s[i..].
  function Parts(s: string, i: nat): seq<Part>
    requires i <= |s|
    decreases |s| - i
  {
    if i == |s| then [] else [PartAt(s, i)] + Parts(s, After(s, i))
  }

  lemma PartsStep(s: string, i: nat)
    requires i < |s|
    ensures var ps := Parts(s, i);
      ps != [] && ps[0] == PartAt(s, i) && ps[1..] == Parts(s, After(s, i))
  {
  }

  // ---------------------------------------------------------------- rendering

  // fmt's %02d.
  function Pad2(n: int): string {
    if 0 <= n < 10 then "0" + Itoa(n) else ItoaSigned(n)
  }

  // The remainder as Go computes it: with the sign of the dividend.
  function Remainder100(y: int): int {
    if y < 0 then -((-y) % 100) else y % 100
  }

  function RenderToken(t: DateToken, d: CollectionDate): string {
    match t
    case YYYY => ItoaSigned(d.year)
    case YY => Pad2(Remainder100(d.year))
    case MM => Pad2(d.month)
    case DD => Pad2(d.day)
  }

  function RenderPart(p: Part, d: CollectionDate): string {
    match p
    case Tok(t) => RenderToken(t, d)
    case Lit(c) => [c]
  }

  function RenderParts(ps: seq<Part>, d: CollectionDate): string {
    if ps == [] then "" else RenderPart(ps[0], d) + RenderParts(ps[1..], d)
  }

  function Rendered(s: string, d: CollectionDate): string {
    RenderParts(Parts(s, 0), d)
  }

  lemma RenderStep(s: string, i: nat, d: CollectionDate)
    requires i < |s|
    ensures RenderParts(Parts(s, i), d) == RenderPart(PartAt(s, i), d) + RenderParts(Parts(s, After(s, i)), d)
  {
  }

  // ---------------------------------------------------------------- what a rendering shows

  predicate Stands(s: string, i: nat, word: string) {
    i + |word| <= |s| && s[i..i + |word|] == word
  }

  // Decimal digits stand at `j` and give this number.
  predicate NumberAt(out: string, j: nat, width: nat, n: int) {
    j + width <= |out| && (forall k :: j <= k < j + width ==> IsDigit(out[k])) && Decimal(out[j..j + width]) == n
  }

  // `out` from `j` on shows the date in place of the template from `i` on: the year, its last two digits, the month and the day where
  // these are named, longest names first, and every other character as it is.
  predicate Shows(s: string, i: nat, out: string, j: nat, d: CollectionDate)
    requires i <= |s|
    decreases |s| - i
  {
    if i == |s| then j == |out|
    else if Stands(s, i, "YYYY") then
      var w := |ItoaSigned(d.year)|;
      NumberAt(out, j, w, d.year) && Shows(s, i + 4, out, j + w, d)
    else if Stands(s, i, "YY") then NumberAt(out, j, 2, d.year % 100) && Shows(s, i + 2, out, j + 2, d)
    else if Stands(s, i, "MM") then NumberAt(out, j, 2, d.month) && Shows(s, i + 2, out, j + 2, d)
    else if Stands(s, i, "DD") then NumberAt(out, j, 2, d.day) && Shows(s, i + 2, out, j + 2, d)
    else j < |out| && out[j] == s[i] && Shows(s, i + 1, out, j + 1, d)
  }

  lemma StandsIsSpelled(s: string, i: nat)
    ensures Stands(s, i, "YYYY") <==> SpelledAt(YYYY, s, i)
    ensures Stands(s, i, "YY") <==> SpelledAt(YY, s, i)
    ensures Stands(s, i, "MM") <==> SpelledAt(MM, s, i)
    ensures Stands(s, i, "DD") <==> SpelledAt(DD, s, i)
  {
    assert i + 2 <= |s| ==> s[i..i + 2] == [s[i], s[i + 1]];
    assert i + 4 <= |s| ==> s[i..i + 4] == [s[i], s[i + 1], s[i + 2], s[i + 3]];
  }

  lemma Pad2IsNumber(n: nat)
    requires n < 100
    ensures |Pad2(n)| == 2 && NumberAt(Pad2(n), 0, 2, n)
  {
    Pad2Digits(n);
    var p := Pad2(n);
    assert p[0..2] == p && p[..1] == [p[0]] && p[..1][..0] == "";
    assert Decimal(p) == 10 * Decimal(p[..1]) + DigitOf(p[1]);
    assert Decimal(p[..1]) == 10 * Decimal("") + DigitOf(p[0]);
  }

  function NumberOf(t: DateToken, d: CollectionDate): int {
    match t
    case YYYY => d.year
    case YY => d.year % 100
    case MM => d.month
    case DD => d.day
  }

  // Each token is rendered as the number it names.
  lemma TokenIsNumber(t: DateToken, d: CollectionDate)
    requires d.year >= 0
    ensures var p := RenderToken(t, d);
      |p| == (if t == YYYY then |ItoaSigned(d.year)| else 2) && NumberAt(p, 0, |p|, NumberOf(t, d))
  {
    match t
    case YYYY =>
      ItoaIsDecimal(d.year);
      assert Itoa(d.year)[0..|Itoa(d.year)|] == Itoa(d.year);
    case YY => Pad2IsNumber(d.year % 100);
    case MM => Pad2IsNumber(d.month);
    case DD => Pad2IsNumber(d.day);
  }

  lemma NumberInPlace(out: string, j: nat, p: string, n: int)
    requires Stands(out, j, p) && NumberAt(p, 0, |p|, n)
    ensures NumberAt(out, j, |p|, n)
  {
    assert p[0..|p|] == p;
    assert forall k :: j <= k < j + |p| ==> out[k] == p[k - j];
  }

  lemma {:induction false} RenderedShows(s: string, i: nat, out: string, j: nat, d: CollectionDate)
    requires i <= |s| && j <= |out| && d.year >= 0 && out[j..] == RenderParts(Parts(s, i), d)
    ensures Shows(s, i, out, j, d)
    decreases |s| - i
  {
    if i < |s| {
      var p := RenderPart(PartAt(s, i), d);
      RenderStep(s, i, d);
      PieceStands(out, j, p, RenderParts(Parts(s, After(s, i)), d));
      RenderedShows(s, After(s, i), out, j + |p|, d);
      PartShows(s, i, out, j, d);
    }
  }

  lemma PartShows(s: string, i: nat, out: string, j: nat, d: CollectionDate)
    requires i < |s| && d.year >= 0
    requires var p := RenderPart(PartAt(s, i), d); Stands(out, j, p) && Shows(s, After(s, i), out, j + |p|, d)
    ensures Shows(s, i, out, j, d)
  {
    match TokenAt(s, i)
    case Some(t) => TokenShows(s, i, t, out, j, d);
    case None => LiteralShows(s, i, out, j, d);
  }

  lemma PieceStands(out: string, j: nat, p: string, rest: string)
    requires j <= |out| && out[j..] == p + rest
    ensures Stands(out, j, p) && out[j + |p|..] == rest
  {
    assert out[j..j + |p|] == out[j..][..|p|] && out[j + |p|..] == out[j..][|p|..];
  }

  lemma TokenShows(s: string, i: nat, t: DateToken, out: string, j: nat, d: CollectionDate)
    requires i < |s| && TokenAt(s, i) == Some(t) && d.year >= 0
    requires Stands(out, j, RenderToken(t, d)) && Shows(s, i + Width(t), out, j + |RenderToken(t, d)|, d)
    ensures Shows(s, i, out, j, d)
  {
    StandsIsSpelled(s, i);
    TokenIsNumber(t, d);
    NumberInPlace(out, j, RenderToken(t, d), NumberOf(t, d));
  }

  lemma LiteralShows(s: string, i: nat, out: string, j: nat, d: CollectionDate)
    requires i < |s| && TokenAt(s, i).None? && Stands(out, j, [s[i]]) && Shows(s, i + 1, out, j + 1, d)
    ensures Shows(s, i, out, j, d)
  {
    StandsIsSpelled(s, i);
    assert out[j..j + 1][0] == out[j];
  }

  // The scan has come to `i` and written `out`.
  predicate WrittenTo(s: string, i: nat, out: string, d: CollectionDate) {
    i <= |s| && out + RenderParts(Parts(s, i), d) == Rendered(s, d)
  }

  lemma WriteStep(s: string, i: nat, out: string, d: CollectionDate)
    requires WrittenTo(s, i, out, d) && i < |s|
    ensures match TokenAt(s, i)
      case Some(t) => WrittenTo(s, i + Width(t), out + RenderToken(t, d), d)
      case None => WrittenTo(s, i + 1, out + [s[i]], d)
  {
    RenderStep(s, i, d);
    Regroup(out, RenderPart(PartAt(s, i), d), RenderParts(Parts(s, After(s, i)), d));
  }

  lemma Regroup(a: string, b: string, c: string)
    ensures a + (b + c) == a + b + c
  {
  }

  // A scan that has come to its end has written what shows the date.
  lemma WrittenShows(s: string, out: string, d: CollectionDate)
    requires WrittenTo(s, |s|, out, d)
    ensures out == Rendered(s, d) && (d.year >= 0 ==> Shows(s, 0, out, 0, d))
  {
    assert out + "" == out;
    if d.year >= 0 { RenderedShows(s, 0, out, 0, d); }
  }

  /** Scans the pattern once; the result shows the date where the pattern names it. */
  method RenderDated(pattern: string, d: CollectionDate) returns (out: string)
    ensures out == Rendered(pattern, d)
    ensures d.year >= 0 ==> Shows(pattern, 0, out, 0, d)
  {
    out := "";
    var i := 0;
    assert WrittenTo(pattern, 0, "", d);
    while i < |pattern|
      invariant WrittenTo(pattern, i, out, d)
    {
      WriteStep(pattern, i, out, d);
      match TokenAt(pattern, i) {
        case Some(t) => out, i := out + RenderToken(t, d), i + Width(t);
        case None => out, i := out + [pattern[i]], i + 1;
      }
    }
    WrittenShows(pattern, out, d);
  }

  // ---------------------------------------------------------------- presence of a token

  ghost predicate Contains(s: string, t: DateToken) {
    exists i :: 0 <= i < |s| && SpelledAt(t, s, i)
  }

  ghost predicate HasDateToken(s: string) {
    Contains(s, YYYY) || Contains(s, YY) || Contains(s, MM) || Contains(s, DD)
  }

  ghost predicate Substitutes(ps: seq<Part>) {
    exists k :: 0 <= k < |ps| && ps[k].Tok?
  }

  lemma SubstitutesStep(s: string, i: nat)
    requires i < |s|
    ensures Substitutes(Parts(s, i)) <==> PartAt(s, i).Tok? || Substitutes(Parts(s, After(s, i)))
  {
    var ps := Parts(s, i);
    PartsStep(s, i);
    assert forall k :: 0 < k < |ps| ==> ps[k] == ps[1..][k - 1];
    assert forall k :: 0 <= k < |ps| - 1 ==> ps[1..][k] == ps[k + 1];
  }

  lemma {:induction false} ScanReaches(s: string, i: nat, at: nat)
    requires i <= at < |s| && TokenAt(s, at).Some?
    ensures Substitutes(Parts(s, i))
    decreases |s| - i
  {
    SubstitutesStep(s, i);
    if TokenAt(s, i).None? {
      ScanReaches(s, i + 1, at);
    }
  }

  lemma {:induction false} SubstitutesHasToken(s: string, i: nat)
    requires i <= |s| && Substitutes(Parts(s, i))
    ensures HasDateToken(s)
    decreases |s| - i
  {
    SubstitutesStep(s, i);
    if TokenAt(s, i).None? {
      SubstitutesHasToken(s, i + 1);
    }
  }

  /** The presence test holds exactly when the scanner substitutes something. */
  lemma HasTokenIffSubstitutes(s: string)
    ensures HasDateToken(s) <==> Substitutes(Parts(s, 0))
  {
    if HasDateToken(s) {
      var t := if Contains(s, YYYY) then YYYY else if Contains(s, YY) then YY else if Contains(s, MM) then MM else DD;
      assert Contains(s, t);
      var i :| 0 <= i < |s| && SpelledAt(t, s, i);
      ScanReaches(s, 0, i);
    }
    if Substitutes(Parts(s, 0)) {
      SubstitutesHasToken(s, 0);
    }
  }

  // ---------------------------------------------------------------- the discovery glob

  function DropTokens(ps: seq<Part>): (r: seq<Part>)
    ensures |r| <= |ps| && (r != [] ==> r[0].Lit?)
  {
    if ps != [] && ps[0].Tok? then DropTokens(ps[1..]) else ps
  }

  // Each run of tokens becomes one star.
  function GlobOf(ps: seq<Part>): string
    decreases |ps|
  {
    if ps == [] then "" else
      match ps[0]
      case Lit(c) => [c] + GlobOf(ps[1..])
      case Tok(_) => "*" + GlobOf(DropTokens(ps[1..]))
  }

  lemma GlobStep(s: string, i: nat)
    requires i < |s|
    ensures GlobOf(Parts(s, i)) ==
      if PartAt(s, i).Tok? then "*" + GlobOf(DropTokens(Parts(s, After(s, i))))
      else [s[i]] + GlobOf(Parts(s, i + 1))
    ensures PartAt(s, i).Tok? ==> DropTokens(Parts(s, i)) == DropTokens(Parts(s, After(s, i)))
    ensures PartAt(s, i).Lit? ==> DropTokens(Parts(s, i)) == Parts(s, i)
  {
  }

  // Skips a run of tokens.
  method SkipTokens(s: string, from: nat) returns (i: nat)
    requires from <= |s|
    ensures from <= i <= |s| && Parts(s, i) == DropTokens(Parts(s, from))
  {
    i := from;
    while i < |s| && TokenAt(s, i).Some?
      invariant from <= i <= |s| && DropTokens(Parts(s, i)) == DropTokens(Parts(s, from))
    {
      GlobStep(s, i);
      i := i + Width(TokenAt(s, i).value);
    }
    if i < |s| {
      GlobStep(s, i);
    }
  }

  // The scan has come to `i` and written `out`.
  predicate GlobWrittenTo(s: string, i: nat, out: string) {
    i <= |s| && out + GlobOf(Parts(s, i)) == GlobOf(Parts(s, 0))
  }

  lemma GlobWriteStep(s: string, i: nat, out: string, n: nat)
    requires GlobWrittenTo(s, i, out) && i < |s| && n <= |s|
    requires if TokenAt(s, i).Some? then Parts(s, n) == DropTokens(Parts(s, After(s, i))) else n == i + 1
    ensures GlobWrittenTo(s, n, out + (if TokenAt(s, i).Some? then "*" else [s[i]]))
  {
    GlobStep(s, i);
    Regroup(out, if TokenAt(s, i).Some? then "*" else [s[i]], GlobOf(Parts(s, n)));
  }

  lemma GlobWritten(s: string, out: string)
    requires GlobWrittenTo(s, |s|, out)
    ensures out == GlobOf(Parts(s, 0)) && forall name :: GlobMatch(out, name) <==> Fits(s, 0, name)
  {
    assert out + "" == out;
    forall name ensures GlobMatch(GlobOf(Parts(s, 0)), name) <==> Fits(s, 0, name) {
      GlobAcceptsWhatFits(s, 0, name);
    }
  }

  /** The discovery glob of a signature; without glob characters it accepts exactly the names that fit the signature. */
  method PatternFromMatch(signature: string) returns (out: string)
    ensures out == GlobOf(Parts(signature, 0))
    ensures (forall i :: 0 <= i < |signature| ==> GlobLiteral(signature[i])) ==> forall name :: GlobMatch(out, name) <==> Fits(signature, 0, name)
  {
    out := "";
    var i := 0;
    assert GlobWrittenTo(signature, 0, "");
    while i < |signature|
      invariant GlobWrittenTo(signature, i, out)
    {
      ghost var was, at := out, i;
      var t := TokenAt(signature, i);
      if t.Some? {
        out := out + "*";
        i := SkipTokens(signature, i + Width(t.value));
      } else {
        out, i := out + [signature[i]], i + 1;
      }
      GlobWriteStep(signature, at, was, i);
    }
    GlobWritten(signature, out);
  }

  predicate GlobLiteral(c: char) {
    c != '[' && c != ']' && c != '?' && c != '\\'
  }

  // filepath.Match for patterns without classes, single-character wildcards and escapes.
  ghost predicate GlobMatch(p: string, s: string)
    decreases |p|
  {
    if p == "" then s == ""
    else if p[0] == '*' then exists k :: 0 <= k <= |s| && '/' !in s[..k] && GlobMatch(p[1..], s[k..])
    else s != "" && s[0] == p[0] && GlobMatch(p[1..], s[1..])
  }

  // `name` fits the template from `i` on: any text without a slash stands for a token or a star, and every other
  // character for itself.
  ghost predicate Fits(s: string, i: nat, name: string)
    requires i <= |s|
    decreases |s| - i, 0
  {
    if i == |s| then name == ""
    else if Stands(s, i, "YYYY") then FitsBehindRun(s, i + 4, name)
    else if Stands(s, i, "YY") || Stands(s, i, "MM") || Stands(s, i, "DD") then FitsBehindRun(s, i + 2, name)
    else if s[i] == '*' then FitsBehindRun(s, i + 1, name)
    else name != "" && name[0] == s[i] && Fits(s, i + 1, name[1..])
  }

  ghost predicate FitsBehindRun(s: string, i: nat, name: string)
    requires i <= |s|
    decreases |s| - i, 1
  {
    exists k :: 0 <= k <= |name| && '/' !in name[..k] && Fits(s, i, name[k..])
  }

  // A star, then what the rest accepts.
  ghost predicate Starred(p: string, name: string) {
    exists k :: 0 <= k <= |name| && '/' !in name[..k] && GlobMatch(p, name[k..])
  }

  lemma StarIsStarred(p: string, name: string)
    ensures GlobMatch("*" + p, name) <==> Starred(p, name)
  {
    assert ("*" + p)[1..] == p;
  }

  // Two stars in a row accept what one accepts.
  lemma StarsMerge(p: string, name: string)
    ensures Starred("*" + p, name) <==> Starred(p, name)
  {
    if Starred("*" + p, name) {
      var k :| 0 <= k <= |name| && '/' !in name[..k] && GlobMatch("*" + p, name[k..]);
      StarIsStarred(p, name[k..]);
      var j :| 0 <= j <= |name[k..]| && '/' !in name[k..][..j] && GlobMatch(p, name[k..][j..]);
      assert name[k..][j..] == name[k + j..] && name[..k + j] == name[..k] + name[k..][..j];
    }
    if Starred(p, name) {
      StarIsStarred(p, name);
      assert name[0..] == name && '/' !in name[..0];
    }
  }

  // Text behind a run of tokens is what a star in front of the rest accepts.
  lemma RunIsStar(s: string, i: nat, name: string)
    requires i <= |s|
    ensures Starred(GlobOf(DropTokens(Parts(s, i))), name) <==> Starred(GlobOf(Parts(s, i)), name)
  {
    if i < |s| {
      GlobStep(s, i);
      if PartAt(s, i).Tok? {
        StarsMerge(GlobOf(DropTokens(Parts(s, After(s, i)))), name);
      }
    }
  }

  lemma {:induction false} GlobAcceptsWhatFits(s: string, i: nat, name: string)
    requires i <= |s|
    ensures GlobMatch(GlobOf(Parts(s, i)), name) <==> Fits(s, i, name)
    decreases |s| - i
  {
    if i < |s| {
      GlobStep(s, i);
      StandsIsSpelled(s, i);
      var n := After(s, i);
      forall rest ensures GlobMatch(GlobOf(Parts(s, n)), rest) <==> Fits(s, n, rest) {
        GlobAcceptsWhatFits(s, n, rest);
      }
      assert FitsBehindRun(s, n, name) <==> Starred(GlobOf(Parts(s, n)), name);
      if PartAt(s, i).Tok? {
        StarIsStarred(GlobOf(DropTokens(Parts(s, n))), name);
        RunIsStar(s, n, name);
      } else {
        var g := GlobOf(Parts(s, n));
        assert ([s[i]] + g)[1..] == g;
        if s[i] == '*' {
          StarIsStarred(g, name);
        }
      }
    }
  }

  lemma TokenHasNoSlash(t: DateToken, d: CollectionDate)
    ensures '/' !in RenderToken(t, d)
  {
  }

  lemma {:induction false} RunHasNoSlash(ps: seq<Part>, d: CollectionDate) returns (k: nat)
    ensures k <= |RenderParts(ps, d)| && '/' !in RenderParts(ps, d)[..k]
    ensures RenderParts(ps, d)[k..] == RenderParts(DropTokens(ps), d)
    decreases |ps|
  {
    k := 0;
    if ps != [] && ps[0].Tok? {
      var head, tail := RenderToken(ps[0].token, d), RenderParts(ps[1..], d);
      var j := RunHasNoSlash(ps[1..], d);
      TokenHasNoSlash(ps[0].token, d);
      k := |head| + j;
      assert RenderParts(ps, d) == head + tail;
      assert (head + tail)[..k] == head + tail[..j] && (head + tail)[k..] == tail[j..];
    }
  }

  lemma {:induction false} GlobAccepts(ps: seq<Part>, d: CollectionDate)
    ensures GlobMatch(GlobOf(ps), RenderParts(ps, d))
    decreases |ps|
  {
    if ps != [] {
      var s := RenderParts(ps, d);
      match ps[0] {
        case Lit(c) =>
          GlobAccepts(ps[1..], d);
          var p := GlobOf(ps);
          assert p[1..] == GlobOf(ps[1..]) && s[1..] == RenderParts(ps[1..], d);
          if c == '*' {
            SlashFreeStar(p, s);
          }
        case Tok(_) =>
          var rest := DropTokens(ps[1..]);
          assert DropTokens(ps) == rest;
          var k := RunHasNoSlash(ps, d);
          GlobAccepts(rest, d);
          assert GlobOf(ps)[1..] == GlobOf(rest);
          assert '/' !in s[..k] && GlobMatch(GlobOf(ps)[1..], s[k..]);
      }
    }
  }

  // A literal star in the template is a wildcard of the glob, and accepts itself.
  lemma SlashFreeStar(p: string, s: string)
    requires p != "" && s != "" && p[0] == '*' == s[0] && GlobMatch(p[1..], s[1..])
    ensures GlobMatch(p, s)
  {
  }

  /** Every rendering of a file-name signature is accepted by the glob derived from it. */
  lemma RenderedNameMatchesGlob(m: string, d: CollectionDate)
    requires forall i :: 0 <= i < |m| ==> GlobLiteral(m[i])
    ensures GlobMatch(GlobOf(Parts(m, 0)), Rendered(m, d))
  {
    GlobAccepts(Parts(m, 0), d);
  }

  // ---------------------------------------------------------------- splitting a machine path

  predicate IsSeparator(c: char) {
    c == '/' || c == '\\'
  }

  // strings.TrimRight(s, `/\`).
  function TrimSeparators(s: string): (r: string)
    ensures r <= s && (r != "" ==> !IsSeparator(r[|r| - 1]))
    ensures forall i :: |r| <= i < |s| ==> IsSeparator(s[i])
  {
    if s != "" && IsSeparator(s[|s| - 1]) then TrimSeparators(s[..|s| - 1]) else s
  }

  lemma SliceHead(p: string, i: nat, n: nat, rest: string)
    requires i < n <= |p|
    ensures p[i..n] + rest == [p[i]] + (p[i + 1..n] + rest)
  {
  }

  lemma {:induction false} LiteralRun(p: string, i: nat, n: nat, d: CollectionDate)
    requires i <= n <= |p| && forall k :: i <= k < n ==> TokenAt(p, k).None?
    ensures RenderParts(Parts(p, i), d) == p[i..n] + RenderParts(Parts(p, n), d)
    decreases n - i
  {
    if i < n {
      LiteralRun(p, i + 1, n, d);
      RenderStep(p, i, d);
      SliceHead(p, i, n, RenderParts(Parts(p, n), d));
    }
  }

  lemma SuffixToken(p: string, n: nat, i: nat)
    requires n <= |p|
    ensures TokenAt(p[n..], i) == TokenAt(p, n + i)
  {
  }

  lemma {:induction false} PartsOfSuffix(p: string, n: nat, i: nat)
    requires n <= |p| && i <= |p| - n
    ensures Parts(p[n..], i) == Parts(p, n + i)
    decreases |p| - n - i
  {
    if i < |p| - n {
      SuffixToken(p, n, i);
      assert PartAt(p[n..], i) == PartAt(p, n + i) && n + After(p[n..], i) == After(p, n + i);
      PartsOfSuffix(p, n, After(p[n..], i));
      PartsStep(p[n..], i);
      PartsStep(p, n + i);
      assert Parts(p, n + i) == [PartAt(p, n + i)] + Parts(p, After(p, n + i));
    }
  }

  // `root` and `layout` are the two ends of `p`, with only separators between them.
  ghost predicate SplitsAtSeparators(p: string, root: string, layout: string) {
    && |root| + |layout| <= |p| && root <= p && p[|p| - |layout|..] == layout
    && (forall i :: |root| <= i < |p| - |layout| ==> IsSeparator(p[i]))
    && (root != "" ==> !IsSeparator(root[|root| - 1]))
  }

  ghost predicate RendersBehind(p: string, layout: string)
    requires |layout| <= |p|
  {
    forall d :: Rendered(p, d) == p[..|p| - |layout|] + Rendered(layout, d)
  }

  lemma SplitAt(p: string, i: nat)
    requires i < |p| && TokenAt(p, i).Some? && forall k :: 0 <= k < i ==> TokenAt(p, k).None?
    ensures HasDateToken(p) && SplitsAtSeparators(p, TrimSeparators(p[..i]), p[i..]) && RendersBehind(p, p[i..])
    ensures TokenAt(p[i..], 0).Some?
  {
    ScanReaches(p, 0, i);
    HasTokenIffSubstitutes(p);
    SuffixToken(p, i, 0);
    PartsOfSuffix(p, i, 0);
    assert |p| - |p[i..]| == i;
    forall d ensures Rendered(p, d) == p[..i] + Rendered(p[i..], d) {
      LiteralRun(p, 0, i, d);
      assert p[0..i] == p[..i];
    }
    var root := TrimSeparators(p[..i]);
    assert forall k :: 0 <= k < i ==> p[..i][k] == p[k];
  }

  lemma NoSplit(p: string)
    requires forall k :: 0 <= k < |p| ==> TokenAt(p, k).None?
    ensures !HasDateToken(p) && forall d :: Rendered(p, d) == p
  {
    forall t: DateToken, i | 0 <= i < |p| ensures !SpelledAt(t, p, i) {
      assert TokenAt(p, i).None?;
    }
    forall d ensures Rendered(p, d) == p {
      LiteralRun(p, 0, |p|, d);
      assert p[0..|p|] + "" == p;
    }
  }

  /**
   Splits a machine path before its first date token. Only the separators between the two halves are dropped, and
   rendering the whole path is rendering the second half behind them.
   */
  method SplitDatePath(p: string) returns (root: string, layout: string, hasTokens: bool)
    ensures hasTokens <==> HasDateToken(p)
    ensures hasTokens ==> SplitsAtSeparators(p, root, layout) && TokenAt(layout, 0).Some? && RendersBehind(p, layout)
    ensures !hasTokens ==> root == p && layout == "" && forall d :: Rendered(p, d) == p
  {
    for i := 0 to |p|
      invariant forall k :: 0 <= k < i ==> TokenAt(p, k).None?
    {
      if TokenAt(p, i).Some? {
        SplitAt(p, i);
        return TrimSeparators(p[..i]), p[i..], true;
      }
    }
    NoSplit(p);
    return p, "", false;
  }

  // filepath.Join of a root and a clean relative path.
  function JoinPath(root: string, rest: string): string {
    if root == "" then rest else root + "/" + rest
  }

  /**
   Joining the static root and the rendered layout, as discovery does, gives the rendered path exactly when the layout
   starts the path or a path segment behind a non-empty root and a single slash.
   */
  lemma JoinedIffSegmentStart(p: string, root: string, layout: string, d: CollectionDate)
    requires SplitsAtSeparators(p, root, layout) && RendersBehind(p, layout)
    ensures JoinPath(root, Rendered(layout, d)) == Rendered(p, d)
      <==> p == layout || (root != "" && p == root + "/" + layout)
  {
    var n, r := |p| - |layout|, Rendered(layout, d);
    var seps := p[|root|..n];
    assert p == root + seps + layout && p[..n] == root + seps;
    assert Rendered(p, d) == root + seps + r;
    assert |seps| == 1 ==> seps == [seps[0]];
    if root == "" {
      assert (r == seps + r) <==> seps == "";
    } else {
      assert (root + "/" + r)[|root|] == '/';
      assert |seps| == 1 ==> (root + seps + r)[|root|] == seps[0];
      assert p == root + "/" + layout ==> |seps| == 1 && p[|root|] == '/';
    }
  }

  // ---------------------------------------------------------------- injectivity

  predicate FourDigitYear(d: CollectionDate) {
    1000 <= d.year <= 9999
  }

  lemma TokenWidth(t: DateToken, d: CollectionDate)
    requires FourDigitYear(d)
    ensures |RenderToken(t, d)| == Width(t)
  {
    var y := d.year;
    assert y / 10 / 10 == y / 100 && y / 100 / 10 == y / 1000;
    assert |Itoa(y / 1000)| == 1;
    assert |Itoa(y / 100)| == 2;
    assert |Itoa(y / 10)| == 3;
    assert |Itoa(y % 100)| == (if y % 100 < 10 then 1 else 2);
    assert d.month >= 10 ==> |Itoa(d.month)| == 1 + |Itoa(d.month / 10)|;
    assert d.day >= 10 ==> |Itoa(d.day)| == 1 + |Itoa(d.day / 10)|;
  }

  lemma {:induction false} SamePieces(ps: seq<Part>, a: CollectionDate, b: CollectionDate, k: nat)
    requires FourDigitYear(a) && FourDigitYear(b) && RenderParts(ps, a) == RenderParts(ps, b) && k < |ps|
    ensures RenderPart(ps[k], a) == RenderPart(ps[k], b)
    decreases |ps|
  {
    var x, y := RenderParts(ps, a), RenderParts(ps, b);
    var hx, hy := RenderPart(ps[0], a), RenderPart(ps[0], b);
    if ps[0].Tok? {
      TokenWidth(ps[0].token, a);
      TokenWidth(ps[0].token, b);
    }
    assert |hx| == |hy| && x[..|hx|] == hx && y[..|hx|] == hy;
    assert x[|hx|..] == RenderParts(ps[1..], a) && y[|hx|..] == RenderParts(ps[1..], b);
    if k > 0 {
      SamePieces(ps[1..], a, b, k - 1);
    }
  }

  lemma Pad2Digits(a: nat)
    requires a < 100
    ensures Pad2(a) == [Digit(a / 10), Digit(a % 10)]
  {
    if a < 10 {
      assert Pad2(a) == "0" + [Digit(a)];
    } else {
      assert Itoa(a / 10) == [Digit(a / 10)];
      assert Pad2(a) == [Digit(a / 10)] + [Digit(a % 10)];
    }
  }

  lemma Pad2Injective(a: nat, b: nat)
    requires a < 100 && b < 100 && Pad2(a) == Pad2(b)
    ensures a == b
  {
    Pad2Digits(a);
    Pad2Digits(b);
    var p, q := [Digit(a / 10), Digit(a % 10)], [Digit(b / 10), Digit(b % 10)];
    assert p[0] == q[0] && p[1] == q[1];
  }

  /** A template that names year, month and day renders different dates differently. */
  lemma FullTemplateInjective(s: string, a: CollectionDate, b: CollectionDate)
    requires FourDigitYear(a) && FourDigitYear(b)
    requires Tok(YYYY) in Parts(s, 0) && Tok(MM) in Parts(s, 0) && Tok(DD) in Parts(s, 0)
    requires Rendered(s, a) == Rendered(s, b)
    ensures a == b
  {
    var ps := Parts(s, 0);
    var y :| 0 <= y < |ps| && ps[y] == Tok(YYYY);
    var m :| 0 <= m < |ps| && ps[m] == Tok(MM);
    var d :| 0 <= d < |ps| && ps[d] == Tok(DD);
    SamePieces(ps, a, b, y);
    SamePieces(ps, a, b, m);
    SamePieces(ps, a, b, d);
    ItoaInjective(a.year, b.year);
    Pad2Injective(a.month, b.month);
    Pad2Injective(a.day, b.day);
  }
}
