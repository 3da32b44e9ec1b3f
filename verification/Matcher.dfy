/**
 The matcher: backtracking, longest piece first, over one binding map shared by all recursive calls. Its meaning is
 the set of ways to cut the input at the token boundaries.
 */
module Matching {
  import opened Wrappers
  import opened Templates

  // --------------------------------------------------------------- meaning

  predicate Fits(t: Token, piece: string) {
    match t
    case Literal(text) => piece == text
    case Field(_) => piece != ""
    case Wildcard => true
  }

  // `ends` cuts s[si..] into one fitting piece for each of the tokens from `ti` on.
  predicate Cuts(tokens: seq<Token>, ti: nat, s: string, si: nat, ends: seq<nat>)
    requires ti <= |tokens| && si <= |s|
    decreases |tokens| - ti
  {
    if ti == |tokens| then si == |s| && ends == [] else
      && ends != []
      && si <= ends[0] <= |s|
      && Fits(tokens[ti], s[si..ends[0]])
      && Cuts(tokens, ti + 1, s, ends[0], ends[1..])
  }

  // The earliest difference is a longer piece.
  predicate LongestFirst(a: seq<nat>, b: seq<nat>) {
    a != [] && b != [] ==> a[0] > b[0] || (a[0] == b[0] && LongestFirst(a[1..], b[1..]))
  }

  ghost predicate Greedy(tokens: seq<Token>, ti: nat, s: string, si: nat, ends: seq<nat>)
    requires ti <= |tokens| && si <= |s|
  {
    && Cuts(tokens, ti, s, si, ends)
    && forall other :: Cuts(tokens, ti, s, si, other) ==> LongestFirst(ends, other)
  }

  ghost predicate NoCut(tokens: seq<Token>, ti: nat, s: string, si: nat)
    requires ti <= |tokens| && si <= |s|
  {
    forall ends :: !Cuts(tokens, ti, s, si, ends)
  }

  // The bindings of a cut, laid over `m` from left to right.
  function Bound(tokens: seq<Token>, ti: nat, s: string, si: nat, ends: seq<nat>, m: map<string, string>): map<string, string>
    requires ti <= |tokens| && si <= |s| && Cuts(tokens, ti, s, si, ends)
    decreases |tokens| - ti
  {
    if ti == |tokens| then m else
      var m' := if tokens[ti].Field? then m[tokens[ti].name := s[si..ends[0]]] else m;
      Bound(tokens, ti + 1, s, ends[0], ends[1..], m')
  }

  lemma CutsCons(tokens: seq<Token>, ti: nat, s: string, si: nat, end: nat, ends: seq<nat>)
    requires ti < |tokens| && si <= end <= |s| && Fits(tokens[ti], s[si..end])
    requires Greedy(tokens, ti + 1, s, end, ends)
    requires forall q :: Cuts(tokens, ti, s, si, q) ==> q[0] <= end
    ensures Greedy(tokens, ti, s, si, [end] + ends)
    ensures ([end] + ends)[1..] == ends
  {
  }

  class Bindings {
    var m: map<string, string>

    constructor ()
      ensures m == map[]
    {
      m := map[];
    }
  }

  /**
   Succeeds exactly when s[si..] can be cut at the remaining tokens; the bindings are then those of the
   longest-first cut, and a failed search leaves the map as it found it.
   */
  method MatchAt(tokens: seq<Token>, ti: nat, s: string, si: nat, bind: Bindings) returns (ok: bool, ghost ends: seq<nat>)
    requires ti <= |tokens| && si <= |s|
    modifies bind
    ensures ok ==> Greedy(tokens, ti, s, si, ends) && bind.m == Bound(tokens, ti, s, si, ends, old(bind.m))
    ensures !ok ==> NoCut(tokens, ti, s, si) && bind.m == old(bind.m)
    decreases |tokens| - ti
  {
    ends := [];
    if ti == |tokens| {
      return si == |s|, [];
    }
    match tokens[ti] {
      case Literal(text) =>
        if si + |text| <= |s| && s[si..si + |text|] == text {
          ok, ends := MatchAt(tokens, ti + 1, s, si + |text|, bind);
          LiteralCut(tokens, ti, s, si);
          if ok {
            CutsCons(tokens, ti, s, si, si + |text|, ends);
            ends := [si + |text|] + ends;
          }
        } else {
          LiteralCut(tokens, ti, s, si);
          ok := false;
        }
      case Wildcard =>
        var end: int := |s|;
        while end >= si
          invariant si - 1 <= end <= |s| && bind.m == old(bind.m)
          invariant forall q :: Cuts(tokens, ti, s, si, q) ==> q[0] <= end
        {
          ok, ends := MatchAt(tokens, ti + 1, s, end, bind);
          if ok {
            CutsCons(tokens, ti, s, si, end, ends);
            ends := [end as nat] + ends;
            return;
          }
          PieceShorter(tokens, ti, s, si, end);
          end := end - 1;
        }
        ok := false;
      case Field(name) =>
        var had := name in bind.m;
        var prev := if had then bind.m[name] else "";
        var end: int := |s|;
        while end > si
          invariant si <= end <= |s| && bind.m - {name} == old(bind.m) - {name}
          invariant forall q :: Cuts(tokens, ti, s, si, q) ==> q[0] <= end
        {
          Overwritten(bind.m, old(bind.m), name, s[si..end]);
          bind.m := bind.m[name := s[si..end]];
          ok, ends := MatchAt(tokens, ti + 1, s, end, bind);
          if ok {
            CutsCons(tokens, ti, s, si, end, ends);
            ends := [end as nat] + ends;
            return;
          }
          PieceShorter(tokens, ti, s, si, end);
          end := end - 1;
        }
        Restored(bind.m, old(bind.m), name);
        bind.m := if had then bind.m[name := prev] else bind.m - {name};
        ok := false;
    }
  }

  lemma Overwritten(m: map<string, string>, was: map<string, string>, name: string, v: string)
    requires m - {name} == was - {name}
    ensures m[name := v] == was[name := v] && m[name := v] - {name} == was - {name}
  {
    assert forall k :: k in m && k != name <==> k in m - {name};
    assert forall k :: k in was && k != name <==> k in was - {name};
    assert forall k :: k in m - {name} ==> (m - {name})[k] == m[k] && (was - {name})[k] == was[k];
  }

  lemma Restored(m: map<string, string>, was: map<string, string>, name: string)
    requires m - {name} == was - {name}
    ensures (if name in was then m[name := was[name]] else m - {name}) == was
  {
    if name in was {
      Overwritten(m, was, name, was[name]);
    } else {
      assert was - {name} == was;
    }
  }

  lemma LiteralCut(tokens: seq<Token>, ti: nat, s: string, si: nat)
    requires ti < |tokens| && si <= |s| && tokens[ti].Literal?
    ensures forall q :: Cuts(tokens, ti, s, si, q) ==>
      q[0] == si + |tokens[ti].text| && s[si..q[0]] == tokens[ti].text && Cuts(tokens, ti + 1, s, q[0], q[1..])
  {
  }

  lemma PieceShorter(tokens: seq<Token>, ti: nat, s: string, si: nat, end: nat)
    requires ti < |tokens| && si <= end <= |s| && NoCut(tokens, ti + 1, s, end)
    requires forall q :: Cuts(tokens, ti, s, si, q) ==> q[0] <= end
    ensures forall q :: Cuts(tokens, ti, s, si, q) ==> q[0] <= end - 1
  {
  }

  // ------------------------------------------------- what a cut says

  function Concat(pieces: seq<string>): string {
    if pieces == [] then "" else pieces[0] + Concat(pieces[1..])
  }

  // The text decomposes into one non-empty piece per field, any piece per wildcard, and the literals themselves.
  ghost predicate Decomposes(tokens: seq<Token>, s: string, pieces: seq<string>) {
    && |pieces| == |tokens|
    && Concat(pieces) == s
    && forall i :: 0 <= i < |tokens| ==> Fits(tokens[i], pieces[i])
  }

  lemma {:induction false} CutToPieces(tokens: seq<Token>, ti: nat, s: string, si: nat, ends: seq<nat>) returns (pieces: seq<string>)
    requires ti <= |tokens| && si <= |s| && Cuts(tokens, ti, s, si, ends)
    ensures Decomposes(tokens[ti..], s[si..], pieces)
    decreases |tokens| - ti
  {
    if ti == |tokens| {
      pieces := [];
    } else {
      var rest := CutToPieces(tokens, ti + 1, s, ends[0], ends[1..]);
      pieces := [s[si..ends[0]]] + rest;
      assert pieces[1..] == rest && s[si..] == s[si..ends[0]] + s[ends[0]..];
      assert forall i :: 1 <= i < |pieces| ==> tokens[ti..][i] == tokens[ti + 1..][i - 1] && pieces[i] == rest[i - 1];
    }
  }

  lemma {:induction false} PiecesToCut(tokens: seq<Token>, ti: nat, s: string, si: nat, pieces: seq<string>) returns (ends: seq<nat>)
    requires ti <= |tokens| && si <= |s| && Decomposes(tokens[ti..], s[si..], pieces)
    ensures Cuts(tokens, ti, s, si, ends)
    decreases |tokens| - ti
  {
    if ti == |tokens| {
      ends := [];
    } else {
      var end := si + |pieces[0]|;
      assert s[si..] == pieces[0] + Concat(pieces[1..]);
      assert s[si..end] == pieces[0] && s[end..] == Concat(pieces[1..]);
      assert forall i {:trigger pieces[1..][i]} :: 0 <= i < |pieces| - 1 ==> Fits(tokens[ti..][i + 1], pieces[i + 1]);
      var rest := PiecesToCut(tokens, ti + 1, s, end, pieces[1..]);
      ends := [end] + rest;
      assert ends[1..] == rest;
    }
  }

  ghost predicate Cuttable(tokens: seq<Token>, s: string) {
    exists ends: seq<nat> :: Cuts(tokens, 0, s, 0, ends)
  }

  ghost predicate Decomposable(tokens: seq<Token>, s: string) {
    exists pieces :: Decomposes(tokens, s, pieces)
  }

  /** The matcher's notion of a cut is decomposition of the text into the tokens. */
  lemma CutsAreDecompositions(tokens: seq<Token>, s: string)
    ensures Cuttable(tokens, s) <==> Decomposable(tokens, s)
  {
    assert tokens[0..] == tokens && s[0..] == s;
    if Cuttable(tokens, s) {
      var ends: seq<nat> :| Cuts(tokens, 0, s, 0, ends);
      var pieces := CutToPieces(tokens, 0, s, 0, ends);
      assert Decomposes(tokens, s, pieces);
    }
    if Decomposable(tokens, s) {
      var pieces :| Decomposes(tokens, s, pieces);
      var ends := PiecesToCut(tokens, 0, s, 0, pieces);
      assert Cuts(tokens, 0, s, 0, ends);
    }
  }

  ghost predicate HasFieldFrom(tokens: seq<Token>, ti: nat, f: string) {
    exists i :: ti <= i < |tokens| && tokens[i].Field? && tokens[i].name == f
  }

  /** Only fields of the remaining tokens are rebound; with distinct fields each one is bound to its own piece. */
  lemma {:induction false} BoundOnlyFields(tokens: seq<Token>, ti: nat, s: string, si: nat, ends: seq<nat>, m: map<string, string>)
    requires ti <= |tokens| && si <= |s| && Cuts(tokens, ti, s, si, ends)
    ensures var b := Bound(tokens, ti, s, si, ends, m);
      && m.Keys <= b.Keys
      && (forall f :: f in b.Keys ==> f in m.Keys || HasFieldFrom(tokens, ti, f))
      && (forall f :: f in m.Keys && !HasFieldFrom(tokens, ti, f) ==> b[f] == m[f])
    decreases |tokens| - ti
  {
    if ti < |tokens| {
      var m' := if tokens[ti].Field? then m[tokens[ti].name := s[si..ends[0]]] else m;
      BoundOnlyFields(tokens, ti + 1, s, ends[0], ends[1..], m');
      forall f | HasFieldFrom(tokens, ti + 1, f) ensures HasFieldFrom(tokens, ti, f) {
        var i :| ti + 1 <= i < |tokens| && tokens[i].Field? && tokens[i].name == f;
      }
      assert tokens[ti].Field? ==> HasFieldFrom(tokens, ti, tokens[ti].name);
    }
  }

  lemma {:induction false} BoundToPiece(tokens: seq<Token>, ti: nat, s: string, si: nat, ends: seq<nat>, m: map<string, string>, i: nat)
    requires ti <= i < |tokens| && si <= |s| && Cuts(tokens, ti, s, si, ends)
    requires DistinctFields(tokens) && tokens[i].Field?
    ensures i - ti < |ends|
    ensures var from := if i == ti then si else ends[i - ti - 1];
      && from < ends[i - ti] <= |s|
      && tokens[i].name in Bound(tokens, ti, s, si, ends, m)
      && Bound(tokens, ti, s, si, ends, m)[tokens[i].name] == s[from..ends[i - ti]]
    decreases |tokens| - ti
  {
    var m' := if tokens[ti].Field? then m[tokens[ti].name := s[si..ends[0]]] else m;
    if i == ti {
      BoundOnlyFields(tokens, ti + 1, s, ends[0], ends[1..], m');
      assert !HasFieldFrom(tokens, ti + 1, tokens[i].name);
    } else {
      BoundToPiece(tokens, ti + 1, s, ends[0], ends[1..], m', i);
    }
  }

  // ------------------------------------------------- rules

  datatype Rule = Rule(name: string, segments: seq<seq<Token>>)

  // What compileRules guarantees of a compiled rule.
  ghost predicate ValidRule(rule: Rule) {
    CanonicalPattern(rule.segments) && rule.name in PatternFields(rule.segments)
  }

  ghost predicate RuleMatches(rule: Rule, segments: seq<string>) {
    && |segments| == |rule.segments|
    && forall i :: 0 <= i < |segments| ==> !NoCut(rule.segments[i], 0, segments[i], 0)
  }

  // `m` binds the rule's own key to the piece that a longest-first cut of segment `k` gives it.
  ghost predicate BindsOwnKey(rule: Rule, segments: seq<string>, k: nat, ends: seq<nat>, m: map<string, string>)
    requires k < |segments| && k < |rule.segments| && Cuts(rule.segments[k], 0, segments[k], 0, ends)
  {
    var b := Bound(rule.segments[k], 0, segments[k], 0, ends, map[]);
    rule.name in m && rule.name in b && m[rule.name] == b[rule.name] != ""
  }

  // If segment `k` has the rule's own key, `m` binds it as every longest-first cut of the segment does.
  ghost predicate CapturedAt(rule: Rule, segments: seq<string>, k: nat, m: map<string, string>)
    requires k < |segments| && k < |rule.segments|
  {
    rule.name in FieldSet(rule.segments[k]) ==>
      forall ends :: Greedy(rule.segments[k], 0, segments[k], 0, ends) ==> BindsOwnKey(rule, segments, k, ends, m)
  }

  // `m` agrees with the longest-first cuts of the first `n` segments on the rule's own key.
  ghost predicate Captured(rule: Rule, segments: seq<string>, n: nat, m: map<string, string>)
    requires n <= |segments| && n <= |rule.segments|
    decreases n
  {
    n == 0 || (Captured(rule, segments, n - 1, m) && CapturedAt(rule, segments, n - 1, m))
  }

  lemma GreedyUnique(tokens: seq<Token>, ti: nat, s: string, si: nat, a: seq<nat>, b: seq<nat>)
    requires ti <= |tokens| && si <= |s| && Cuts(tokens, ti, s, si, a) && Cuts(tokens, ti, s, si, b)
    requires LongestFirst(a, b) && LongestFirst(b, a)
    ensures a == b
    decreases |tokens| - ti
  {
    if ti < |tokens| {
      GreedyUnique(tokens, ti + 1, s, a[0], a[1..], b[1..]);
      assert a == [a[0]] + a[1..] && b == [b[0]] + b[1..];
    }
  }

  lemma BoundBase(tokens: seq<Token>, s: string, ends: seq<nat>, m: map<string, string>, f: string)
    requires Cuts(tokens, 0, s, 0, ends) && DistinctFields(tokens) && f in FieldSet(tokens)
    ensures f in Bound(tokens, 0, s, 0, ends, m) && f in Bound(tokens, 0, s, 0, ends, map[])
    ensures Bound(tokens, 0, s, 0, ends, m)[f] == Bound(tokens, 0, s, 0, ends, map[])[f] != ""
  {
    var i :| 0 <= i < |tokens| && tokens[i].Field? && tokens[i].name == f;
    BoundToPiece(tokens, 0, s, 0, ends, m, i);
    BoundToPiece(tokens, 0, s, 0, ends, map[], i);
  }

  lemma BoundKeys(ts: seq<Token>, s: string, ends: seq<nat>, m: map<string, string>)
    requires Cuts(ts, 0, s, 0, ends)
    ensures var b := Bound(ts, 0, s, 0, ends, m);
      b.Keys <= m.Keys + FieldSet(ts) && forall f :: f in m && f !in FieldSet(ts) ==> f in b && b[f] == m[f]
  {
    BoundOnlyFields(ts, 0, s, 0, ends, m);
    forall f | HasFieldFrom(ts, 0, f) ensures f in FieldSet(ts) {
      var i :| 0 <= i < |ts| && ts[i].Field? && ts[i].name == f;
    }
  }

  lemma CapturedNext(rule: Rule, segments: seq<string>, n: nat, m: map<string, string>, ends: seq<nat>)
    requires ValidRule(rule) && n < |rule.segments| == |segments| && Captured(rule, segments, n, m)
    requires Greedy(rule.segments[n], 0, segments[n], 0, ends)
    ensures Captured(rule, segments, n + 1, Bound(rule.segments[n], 0, segments[n], 0, ends, m))
  {
    BoundKeys(rule.segments[n], segments[n], ends, m);
    if rule.name !in FieldSet(rule.segments[n]) {
      CapturedStays(rule, segments, n, m, Bound(rule.segments[n], 0, segments[n], 0, ends, m));
    } else {
      NotBefore(rule, segments, n, n, Bound(rule.segments[n], 0, segments[n], 0, ends, m));
      forall e | Greedy(rule.segments[n], 0, segments[n], 0, e)
        ensures BindsOwnKey(rule, segments, n, e, Bound(rule.segments[n], 0, segments[n], 0, ends, m))
      {
        CapturedHere(rule, segments, n, m, ends, e);
      }
    }
  }

  lemma {:induction false} CapturedStays(rule: Rule, segments: seq<string>, k: nat, m: map<string, string>, b: map<string, string>)
    requires k <= |rule.segments| == |segments| && Captured(rule, segments, k, m)
    requires rule.name in m ==> rule.name in b && b[rule.name] == m[rule.name]
    ensures Captured(rule, segments, k, b)
    decreases k
  {
    if k > 0 {
      CapturedStays(rule, segments, k - 1, m, b);
      CapturedAtStays(rule, segments, k - 1, m, b);
    }
  }

  lemma CapturedAtStays(rule: Rule, segments: seq<string>, k: nat, m: map<string, string>, b: map<string, string>)
    requires k < |rule.segments| == |segments| && CapturedAt(rule, segments, k, m)
    requires rule.name in m ==> rule.name in b && b[rule.name] == m[rule.name]
    ensures CapturedAt(rule, segments, k, b)
  {
    if rule.name in FieldSet(rule.segments[k]) {
      forall e | Greedy(rule.segments[k], 0, segments[k], 0, e) ensures BindsOwnKey(rule, segments, k, e, b) {
        assert BindsOwnKey(rule, segments, k, e, m);
      }
    }
  }

  lemma NotAt(rule: Rule, segments: seq<string>, k: nat, n: nat, b: map<string, string>)
    requires CanonicalPattern(rule.segments) && k < n < |rule.segments| == |segments| && rule.name in FieldSet(rule.segments[n])
    ensures CapturedAt(rule, segments, k, b)
  {
    FieldsApart(rule.segments, k, n);
  }

  // The segments before the one with the rule's own key do not have it.
  lemma {:induction false} NotBefore(rule: Rule, segments: seq<string>, k: nat, n: nat, b: map<string, string>)
    requires CanonicalPattern(rule.segments) && k <= n < |rule.segments| == |segments| && rule.name in FieldSet(rule.segments[n])
    ensures Captured(rule, segments, k, b)
    decreases k
  {
    if k > 0 {
      NotBefore(rule, segments, k - 1, n, b);
      NotAt(rule, segments, k - 1, n, b);
    }
  }

  lemma {:induction false} CapturedGives(rule: Rule, segments: seq<string>, n: nat, m: map<string, string>, k: nat, ends: seq<nat>)
    requires k < n <= |rule.segments| == |segments| && Captured(rule, segments, n, m)
    requires rule.name in FieldSet(rule.segments[k]) && Greedy(rule.segments[k], 0, segments[k], 0, ends)
    ensures BindsOwnKey(rule, segments, k, ends, m)
    decreases n
  {
    if k < n - 1 { CapturedGives(rule, segments, n - 1, m, k, ends); }
  }

  lemma CapturedHere(rule: Rule, segments: seq<string>, n: nat, m: map<string, string>, ends: seq<nat>, e: seq<nat>)
    requires ValidRule(rule) && n < |rule.segments| == |segments| && rule.name in FieldSet(rule.segments[n])
    requires Greedy(rule.segments[n], 0, segments[n], 0, ends) && Greedy(rule.segments[n], 0, segments[n], 0, e)
    ensures BindsOwnKey(rule, segments, n, e, Bound(rule.segments[n], 0, segments[n], 0, ends, m))
  {
    GreedyUnique(rule.segments[n], 0, segments[n], 0, e, ends);
    BoundBase(rule.segments[n], segments[n], ends, m, rule.name);
  }

  // ------------------------------------------------- rendering

  predicate OneField(ts: seq<Token>, f: nat) {
    f < |ts| && ts[f].Field? && forall i :: 0 <= i < |ts| && i != f ==> ts[i].Literal?
  }

  function RenderFrom(ts: seq<Token>, ti: nat, vals: map<string, string>): string
    requires ti <= |ts| && forall i :: ti <= i < |ts| ==> !ts[i].Wildcard? && (ts[i].Field? ==> ts[i].name in vals)
    decreases |ts| - ti
  {
    if ti == |ts| then "" else
      (match ts[ti] case Literal(text) => text case Field(name) => vals[name] case Wildcard => "")
      + RenderFrom(ts, ti + 1, vals)
  }

  predicate CanRender(ts: seq<Token>, vals: map<string, string>) {
    forall i :: 0 <= i < |ts| ==> !ts[i].Wildcard? && (ts[i].Field? ==> ts[i].name in vals)
  }

  // The segments are the rendering of a wildcard-free rule, with non-empty values, whose own key is alone in its segment.
  ghost predicate RendersTo(rule: Rule, vals: map<string, string>, segments: seq<string>) {
    && |segments| == |rule.segments|
    && (forall f :: f in vals ==> vals[f] != "")
    && forall k :: 0 <= k < |segments| ==> SegmentRendersTo(rule, vals, k, segments[k])
  }

  ghost predicate SegmentRendersTo(rule: Rule, vals: map<string, string>, k: nat, segment: string)
    requires k < |rule.segments|
  {
    && CanRender(rule.segments[k], vals) && segment == RenderFrom(rule.segments[k], 0, vals)
    && (rule.name in FieldSet(rule.segments[k]) ==> exists f: nat :: OneField(rule.segments[k], f))
  }

  lemma TailSplits(s: string, si: nat, piece: string, rest: string)
    requires si <= |s| && s[si..] == piece + rest
    ensures si + |piece| <= |s| && s[si..si + |piece|] == piece && s[si + |piece|..] == rest
  {
    assert |s| - si == |piece| + |rest|;
    assert s[si..si + |piece|] == (piece + rest)[..|piece|] == piece;
    assert s[si + |piece|..] == (piece + rest)[|piece|..] == rest;
  }

  lemma {:induction false} RenderedCut(ts: seq<Token>, ti: nat, s: string, si: nat, vals: map<string, string>) returns (ends: seq<nat>)
    requires ti <= |ts| && forall i :: ti <= i < |ts| ==> !ts[i].Wildcard? && (ts[i].Field? ==> ts[i].name in vals)
    requires forall f :: f in vals ==> vals[f] != ""
    requires si <= |s| && s[si..] == RenderFrom(ts, ti, vals)
    ensures Cuts(ts, ti, s, si, ends)
    decreases |ts| - ti
  {
    if ti == |ts| {
      ends := [];
    } else {
      var piece := if ts[ti].Field? then vals[ts[ti].name] else ts[ti].text;
      var end := si + |piece|;
      TailSplits(s, si, piece, RenderFrom(ts, ti + 1, vals));
      var rest := RenderedCut(ts, ti + 1, s, end, vals);
      ends := [end] + rest;
      assert ends[1..] == rest;
    }
  }

  function LiteralsLen(ts: seq<Token>, ti: nat): nat
    requires ti <= |ts|
    decreases |ts| - ti
  {
    if ti == |ts| then 0 else (if ts[ti].Literal? then |ts[ti].text| else 0) + LiteralsLen(ts, ti + 1)
  }

  lemma {:induction false} LiteralTail(ts: seq<Token>, ti: nat, s: string, si: nat, ends: seq<nat>)
    requires ti <= |ts| && si <= |s| && Cuts(ts, ti, s, si, ends)
    requires forall i :: ti <= i < |ts| ==> ts[i].Literal?
    ensures |s| - si == LiteralsLen(ts, ti)
    decreases |ts| - ti
  {
    if ti < |ts| {
      LiteralTail(ts, ti + 1, s, ends[0], ends[1..]);
    }
  }

  // With one field and no wildcard the text can be cut in one way only.
  lemma {:induction false} OneFieldUnique(ts: seq<Token>, ti: nat, f: nat, s: string, si: nat, a: seq<nat>, b: seq<nat>)
    requires ti <= |ts| && si <= |s| && Cuts(ts, ti, s, si, a) && Cuts(ts, ti, s, si, b)
    requires forall i :: ti <= i < |ts| && i != f ==> ts[i].Literal?
    ensures a == b
    decreases |ts| - ti
  {
    if ti < |ts| {
      if ti == f {
        LiteralTail(ts, ti + 1, s, a[0], a[1..]);
        LiteralTail(ts, ti + 1, s, b[0], b[1..]);
      }
      OneFieldUnique(ts, ti + 1, f, s, a[0], a[1..], b[1..]);
      assert a == [a[0]] + a[1..] && b == [b[0]] + b[1..];
    }
  }

  lemma FieldRendered(ts: seq<Token>, f: nat, s: string, si: nat, ends: seq<nat>, vals: map<string, string>)
    requires f < |ts| && OneField(ts, f) && ts[f].name in vals
    requires si <= |s| && s[si..] == RenderFrom(ts, f, vals) && Cuts(ts, f, s, si, ends)
    ensures s[si..ends[0]] == vals[ts[f].name]
  {
    var v, tail := vals[ts[f].name], RenderFrom(ts, f + 1, vals);
    LiteralTail(ts, f + 1, s, ends[0], ends[1..]);
    RenderedLen(ts, f + 1, vals);
    assert s[si..] == v + tail && ends[0] == si + |v|;
    assert s[si..ends[0]] == s[si..][..|v|];
  }

  lemma LiteralRendered(ts: seq<Token>, ti: nat, f: nat, s: string, si: nat, ends: seq<nat>, vals: map<string, string>)
    requires ti < f < |ts| && OneField(ts, f) && ts[f].name in vals
    requires si <= |s| && s[si..] == RenderFrom(ts, ti, vals) && Cuts(ts, ti, s, si, ends)
    ensures s[ends[0]..] == RenderFrom(ts, ti + 1, vals)
  {
  }

  lemma {:induction false} RenderedBinds(ts: seq<Token>, ti: nat, f: nat, s: string, si: nat, ends: seq<nat>,
                                         vals: map<string, string>, m: map<string, string>)
    requires ti <= f < |ts| && OneField(ts, f) && ts[f].name in vals
    requires si <= |s| && s[si..] == RenderFrom(ts, ti, vals) && Cuts(ts, ti, s, si, ends)
    ensures ts[f].name in Bound(ts, ti, s, si, ends, m) && Bound(ts, ti, s, si, ends, m)[ts[f].name] == vals[ts[f].name]
    decreases |ts| - ti
  {
    if ti < f {
      LiteralRendered(ts, ti, f, s, si, ends, vals);
      RenderedBinds(ts, ti + 1, f, s, ends[0], ends[1..], vals, m);
    } else {
      FieldRendered(ts, f, s, si, ends, vals);
      BoundOnlyFields(ts, ti + 1, s, ends[0], ends[1..], m[ts[f].name := vals[ts[f].name]]);
      assert !HasFieldFrom(ts, ti + 1, ts[f].name);
    }
  }

  lemma {:induction false} RenderedLen(ts: seq<Token>, ti: nat, vals: map<string, string>)
    requires ti <= |ts| && forall i :: ti <= i < |ts| ==> ts[i].Literal?
    ensures |RenderFrom(ts, ti, vals)| == LiteralsLen(ts, ti)
    decreases |ts| - ti
  {
    if ti < |ts| {
      RenderedLen(ts, ti + 1, vals);
    }
  }

  lemma RenderingMatches(rule: Rule, vals: map<string, string>, segments: seq<string>)
    requires Renders(rule, vals, segments)
    ensures RuleMatches(rule, segments)
  {
    forall k | 0 <= k < |segments| ensures !NoCut(rule.segments[k], 0, segments[k], 0) {
      assert segments[k][0..] == segments[k];
      var _ := RenderedCut(rule.segments[k], 0, segments[k], 0, vals);
    }
  }

  lemma RenderedMatches(rule: Rule, vals: map<string, string>, segments: seq<string>)
    requires ValidRule(rule) && RendersTo(rule, vals, segments)
    ensures RuleMatches(rule, segments)
  {
    forall k | 0 <= k < |segments| ensures CanRender(rule.segments[k], vals) && segments[k] == RenderFrom(rule.segments[k], 0, vals) {
      assert SegmentRendersTo(rule, vals, k, segments[k]);
    }
    RenderingMatches(rule, vals, segments);
  }

  lemma RenderedCaptures(rule: Rule, vals: map<string, string>, segments: seq<string>, k: nat, ends: seq<nat>)
    requires ValidRule(rule) && RendersTo(rule, vals, segments)
    requires k < |segments| && rule.name in FieldSet(rule.segments[k]) && Cuts(rule.segments[k], 0, segments[k], 0, ends)
    ensures rule.name in Bound(rule.segments[k], 0, segments[k], 0, ends, map[]) && rule.name in vals
    ensures Bound(rule.segments[k], 0, segments[k], 0, ends, map[])[rule.name] == vals[rule.name]
  {
    var ts := rule.segments[k];
    assert SegmentRendersTo(rule, vals, k, segments[k]);
    var f: nat :| OneField(ts, f);
    assert segments[k][0..] == segments[k] && ts[f].name == rule.name;
    RenderedBinds(ts, 0, f, segments[k], 0, ends, vals, map[]);
  }

  /**
   Matches exactly when every segment can be cut, and returns the value that the longest-first cut gives the
   rule's own key; on the rendering of a wildcard-free rule whose own key is alone in its segment that is the rendered value.
   */
  method MatchRule(rule: Rule, segments: seq<string>) returns (r: Option<string>)
    requires ValidRule(rule)
    ensures r.Some? <==> RuleMatches(rule, segments)
    ensures r.Some? ==> Captured(rule, segments, |segments|, map[rule.name := r.value]) && GreedyGives(rule, segments, r.value)
    ensures Inverts(rule, segments, r)
  {
    if |segments| != |rule.segments| {
      NothingRendered(rule, segments);
      return None;
    }
    var bind := new Bindings();
    var ok, own, ends := MatchSegments(rule, segments, bind);
    if !ok {
      NothingRendered(rule, segments);
      return None;
    }
    RenderedInverts(rule, segments, own, ends, bind.m);
    if rule.name !in bind.m || bind.m[rule.name] == "" {
      return None;
    }
    CapturedOnly(rule, segments, |segments|, bind.m);
    GivenBy(rule, segments, own, ends, bind.m);
    return Some(bind.m[rule.name]);
  }

  // A longest-first cut gives the rule's own key this piece.
  ghost predicate GreedyGives(rule: Rule, segments: seq<string>, v: string)
    requires |segments| == |rule.segments|
  {
    exists k, ends :: 0 <= k < |segments| && GivesOwn(rule, segments, k, ends, v)
  }

  ghost predicate GivesOwn(rule: Rule, segments: seq<string>, k: nat, ends: seq<nat>, v: string)
    requires k < |segments| == |rule.segments|
  {
    && rule.name in FieldSet(rule.segments[k]) && Greedy(rule.segments[k], 0, segments[k], 0, ends)
    && BindsOwnKey(rule, segments, k, ends, map[rule.name := v])
  }

  lemma GivenBy(rule: Rule, segments: seq<string>, k: nat, ends: seq<nat>, m: map<string, string>)
    requires k < |segments| == |rule.segments| && rule.name in FieldSet(rule.segments[k]) && Greedy(rule.segments[k], 0, segments[k], 0, ends)
    requires BindsOwnKey(rule, segments, k, ends, m)
    ensures GreedyGives(rule, segments, m[rule.name])
  {
    assert GivesOwn(rule, segments, k, ends, m[rule.name]);
  }

  // The segments are the rendering of a wildcard-free rule with non-empty values, whatever shares a segment.
  ghost predicate Renders(rule: Rule, vals: map<string, string>, segments: seq<string>) {
    && |segments| == |rule.segments|
    && (forall f :: f in vals ==> vals[f] != "")
    && forall k :: 0 <= k < |segments| ==> CanRender(rule.segments[k], vals) && segments[k] == RenderFrom(rule.segments[k], 0, vals)
  }

  /**
   Exactly when: what a wildcard-free rule renders is matched by it, and the rendered value of its own key comes back if and only
   if the longest-first cut gives the key that piece. `r` is what `MatchRule` returns.
   */
  lemma InvertsIff(rule: Rule, vals: map<string, string>, segments: seq<string>, r: Option<string>)
    requires ValidRule(rule) && Renders(rule, vals, segments) && (r.Some? <==> RuleMatches(rule, segments))
    requires r.Some? ==> Captured(rule, segments, |segments|, map[rule.name := r.value]) && GreedyGives(rule, segments, r.value)
    ensures r.Some? && rule.name in vals && (r.value == vals[rule.name] <==> GreedyGives(rule, segments, vals[rule.name]))
  {
    RenderingMatches(rule, vals, segments);
    var own := PatternFieldsFrom(rule.segments, rule.name);
    OwnFieldHasValue(rule.segments[own], rule.name, vals);
    if GreedyGives(rule, segments, vals[rule.name]) {
      var k, ends :| 0 <= k < |segments| && GivesOwn(rule, segments, k, ends, vals[rule.name]);
      CapturedGives(rule, segments, |segments|, map[rule.name := r.value], k, ends);
    }
  }

  lemma OwnFieldHasValue(ts: seq<Token>, f: string, vals: map<string, string>)
    requires f in FieldSet(ts) && CanRender(ts, vals)
    ensures f in vals
  {
  }

  // Matches segment by segment; `own` is a segment with the rule's own key, and `ends` is how it was cut.
  method MatchSegments(rule: Rule, segments: seq<string>, bind: Bindings) returns (ok: bool, ghost own: nat, ghost ends: seq<nat>)
    requires ValidRule(rule) && |segments| == |rule.segments| && bind.m == map[]
    modifies bind
    ensures ok <==> RuleMatches(rule, segments)
    ensures ok ==> Captured(rule, segments, |segments|, bind.m)
    ensures ok ==> own < |segments| && rule.name in FieldSet(rule.segments[own]) && Greedy(rule.segments[own], 0, segments[own], 0, ends)
                   && BindsOwnKey(rule, segments, own, ends, bind.m)
  {
    own, ends := 0, [];
    ghost var cuts: seq<seq<nat>> := [];
    for i := 0 to |segments|
      invariant |cuts| == i && CutSoFar(rule, segments, cuts) && bind.m == BoundBy(rule, segments, cuts)
    {
      ghost var cut;
      ok, cut := MatchAt(rule.segments[i], 0, segments[i], 0, bind);
      if !ok {
        NotMatched(rule, segments, i);
        return;
      }
      CutNext(rule, segments, cuts, cut);
      cuts := cuts + [cut];
    }
    ok := true;
    BoundCaptures(rule, segments, cuts);
    own, ends := OwnCut(rule, segments, cuts, bind.m);
  }

  lemma NotMatched(rule: Rule, segments: seq<string>, i: nat)
    requires i < |segments| == |rule.segments| && NoCut(rule.segments[i], 0, segments[i], 0)
    ensures !RuleMatches(rule, segments)
  {
  }

  // The bindings of the cuts, laid over each other from left to right.
  ghost function BoundBy(rule: Rule, segments: seq<string>, cuts: seq<seq<nat>>): map<string, string>
    requires |cuts| <= |segments| == |rule.segments| && CutSoFar(rule, segments, cuts)
    decreases |cuts|
  {
    if cuts == [] then map[] else
      var n := |cuts| - 1;
      Bound(rule.segments[n], 0, segments[n], 0, cuts[n], BoundBy(rule, segments, cuts[..n]))
  }

  lemma CutNext(rule: Rule, segments: seq<string>, cuts: seq<seq<nat>>, cut: seq<nat>)
    requires |cuts| < |segments| == |rule.segments| && CutSoFar(rule, segments, cuts)
    requires Greedy(rule.segments[|cuts|], 0, segments[|cuts|], 0, cut)
    ensures CutSoFar(rule, segments, cuts + [cut])
    ensures BoundBy(rule, segments, cuts + [cut]) == Bound(rule.segments[|cuts|], 0, segments[|cuts|], 0, cut, BoundBy(rule, segments, cuts))
  {
    assert (cuts + [cut])[..|cuts|] == cuts;
  }

  lemma {:induction false} BoundCaptures(rule: Rule, segments: seq<string>, cuts: seq<seq<nat>>)
    requires ValidRule(rule) && |cuts| <= |segments| == |rule.segments| && CutSoFar(rule, segments, cuts)
    ensures Captured(rule, segments, |cuts|, BoundBy(rule, segments, cuts))
    decreases |cuts|
  {
    if cuts != [] {
      var n := |cuts| - 1;
      BoundCaptures(rule, segments, cuts[..n]);
      CapturedNext(rule, segments, n, BoundBy(rule, segments, cuts[..n]), cuts[n]);
    }
  }

  lemma OwnCut(rule: Rule, segments: seq<string>, cuts: seq<seq<nat>>, m: map<string, string>) returns (own: nat, ends: seq<nat>)
    requires ValidRule(rule) && |segments| == |rule.segments| == |cuts| && CutSoFar(rule, segments, cuts)
    requires Captured(rule, segments, |segments|, m)
    ensures RuleMatches(rule, segments)
    ensures own < |segments| && rule.name in FieldSet(rule.segments[own]) && Greedy(rule.segments[own], 0, segments[own], 0, ends)
    ensures BindsOwnKey(rule, segments, own, ends, m)
  {
    AllCut(rule, segments, cuts);
    own := PatternFieldsFrom(rule.segments, rule.name);
    ends := cuts[own];
    CutAt(rule, segments, cuts, own);
    CapturedGives(rule, segments, |segments|, m, own, ends);
  }

  // The first segments were cut longest first.
  ghost predicate CutSoFar(rule: Rule, segments: seq<string>, cuts: seq<seq<nat>>)
    requires |cuts| <= |segments| == |rule.segments|
    decreases |cuts|
  {
    cuts == [] ||
    (var n := |cuts| - 1; CutSoFar(rule, segments, cuts[..n]) && Greedy(rule.segments[n], 0, segments[n], 0, cuts[n]))
  }

  lemma {:induction false} CutAt(rule: Rule, segments: seq<string>, cuts: seq<seq<nat>>, k: nat)
    requires k < |cuts| <= |segments| == |rule.segments| && CutSoFar(rule, segments, cuts)
    ensures Greedy(rule.segments[k], 0, segments[k], 0, cuts[k])
    decreases |cuts|
  {
    if k < |cuts| - 1 { CutAt(rule, segments, cuts[..|cuts| - 1], k); }
  }

  lemma AllCut(rule: Rule, segments: seq<string>, cuts: seq<seq<nat>>)
    requires |segments| == |rule.segments| == |cuts| && CutSoFar(rule, segments, cuts)
    ensures RuleMatches(rule, segments)
  {
    forall k | 0 <= k < |segments| ensures !NoCut(rule.segments[k], 0, segments[k], 0) { CutAt(rule, segments, cuts, k); }
  }

  // The rule inverts rendering: on what it renders to, the value is the one that was rendered.
  ghost predicate Inverts(rule: Rule, segments: seq<string>, r: Option<string>) {
    forall vals {:trigger RendersTo(rule, vals, segments)} :: RendersTo(rule, vals, segments) ==> rule.name in vals && r == Some(vals[rule.name])
  }

  lemma NothingRendered(rule: Rule, segments: seq<string>)
    requires ValidRule(rule) && !RuleMatches(rule, segments)
    ensures Inverts(rule, segments, None)
  {
    forall vals | RendersTo(rule, vals, segments) ensures false { RenderedMatches(rule, vals, segments); }
  }

  lemma RenderedInverts(rule: Rule, segments: seq<string>, k: nat, ends: seq<nat>, m: map<string, string>)
    requires ValidRule(rule) && k < |segments| == |rule.segments| && rule.name in FieldSet(rule.segments[k])
    requires Cuts(rule.segments[k], 0, segments[k], 0, ends) && BindsOwnKey(rule, segments, k, ends, m)
    ensures Inverts(rule, segments, Some(m[rule.name]))
  {
    forall vals | RendersTo(rule, vals, segments) ensures rule.name in vals && m[rule.name] == vals[rule.name] {
      RenderedCaptures(rule, vals, segments, k, ends);
    }
  }

  lemma {:induction false} CapturedOnly(rule: Rule, segments: seq<string>, n: nat, m: map<string, string>)
    requires n <= |segments| == |rule.segments| && rule.name in m && Captured(rule, segments, n, m)
    ensures Captured(rule, segments, n, map[rule.name := m[rule.name]])
    decreases n
  {
    if n > 0 { CapturedOnly(rule, segments, n - 1, m); }
  }
}
