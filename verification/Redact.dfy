/**
 Redacted display copies of a configuration and their way back: the copy is made of fresh containers, the restoration changes
 the copy in place and may make it share parts of the stored configuration.
 */
module Redaction {
  import opened Wrappers

  const SENTINEL := "__REDACTED__"

  datatype Scalar = Text(s: string) | Other(n: int)

  // A nested tree of maps and arrays, as a value.
  datatype Tree = Leaf(v: Scalar) | Map(m: map<string, Tree>) | Slice(items: seq<Tree>)

  // The same in memory: containers are objects.
  datatype Node = Plain(v: Scalar) | MapRef(m: MapObj) | SliceRef(s: SliceObj)

  class MapObj {
    var entries: map<string, Node>
    constructor ()
      ensures entries == map[]
    {
      entries := map[];
    }
  }

  class SliceObj {
    var items: seq<Node>
    constructor (items: seq<Node>)
      ensures this.items == items
    {
      this.items := items;
    }
  }

  // ---------------------------------------------------------------- which keys are secret

  // Case folding as far as the words below go: besides the capitals, the Kelvin sign reads as k and the long s as s.
  function ToLower(c: char): char {
    if 'A' <= c <= 'Z' then (c as int - 'A' as int + 'a' as int) as char
    else if c == '\U{212A}' then 'k'
    else if c == '\U{17F}' then 's'
    else c
  }

  predicate OccursAt(s: string, i: nat, word: string) {
    i + |word| <= |s| && forall k :: 0 <= k < |word| ==> ToLower(s[i + k]) == word[k]
  }

  predicate Contains(s: string, word: string) {
    exists i :: 0 <= i <= |s| && OccursAt(s, i, word)
  }

  predicate Sensitive(key: string) {
    || Contains(key, "dsn") || Contains(key, "password") || Contains(key, "passwd") || Contains(key, "secret")
    || Contains(key, "token") || Contains(key, "credential") || Contains(key, "connection_string")
  }

  // The words that make a key secret.
  const SECRET_WORDS := ["dsn", "password", "passwd", "secret", "token", "credential", "connection_string"]

  // One character of a key and one of a word that are the same letter in some case.
  predicate SameLetter(x: char, c: char) {
    || x == c
    || ('a' <= c <= 'z' && x as int + 32 == c as int)
    || (c == 'k' && x == '\U{212A}') || (c == 's' && x == '\U{17F}')
  }

  predicate SameLetters(text: string, word: string) {
    |text| == |word| && forall k :: 0 <= k < |word| ==> SameLetter(text[k], word[k])
  }

  // The key is some text, the word in any case, and some more text.
  ghost predicate Bears(key: string, word: string) {
    exists before: string, text: string, behind: string :: key == before + text + behind && SameLetters(text, word)
  }

  ghost predicate NamesSecret(key: string) {
    exists w :: 0 <= w < |SECRET_WORDS| && Bears(key, SECRET_WORDS[w])
  }

  predicate Lower(word: string) {
    forall k :: 0 <= k < |word| ==> 'a' <= word[k] <= 'z' || word[k] == '_'
  }

  lemma SameLettersOccur(before: string, text: string, behind: string, word: string)
    requires Lower(word) && SameLetters(text, word)
    ensures Contains(before + text + behind, word)
  {
    var key := before + text + behind;
    forall k | 0 <= k < |word| ensures ToLower(key[|before| + k]) == word[k] {
      assert key[|before| + k] == text[k] && SameLetter(text[k], word[k]);
    }
    assert OccursAt(key, |before|, word);
  }

  lemma OccurrenceBears(key: string, i: nat, word: string)
    requires Lower(word) && OccursAt(key, i, word)
    ensures Bears(key, word)
  {
    var text := key[i..i + |word|];
    forall k | 0 <= k < |word| ensures SameLetter(text[k], word[k]) {
      assert text[k] == key[i + k] && ToLower(key[i + k]) == word[k];
    }
    assert key == key[..i] + text + key[i + |word|..];
  }

  lemma ContainsIff(key: string, word: string)
    requires Lower(word)
    ensures Contains(key, word) <==> Bears(key, word)
  {
    if Contains(key, word) {
      var i :| 0 <= i <= |key| && OccursAt(key, i, word);
      OccurrenceBears(key, i, word);
    }
    if Bears(key, word) {
      var before: string, text: string, behind: string :| key == before + text + behind && SameLetters(text, word);
      SameLettersOccur(before, text, behind, word);
    }
  }

  /** A key is secret exactly when one of the words stands somewhere in it, in any case. */
  lemma SensitiveIff(key: string)
    ensures Sensitive(key) <==> NamesSecret(key)
  {
    forall w | 0 <= w < |SECRET_WORDS| ensures Contains(key, SECRET_WORDS[w]) <==> Bears(key, SECRET_WORDS[w]) {
      ContainsIff(key, SECRET_WORDS[w]);
    }
    assert SECRET_WORDS[0] == "dsn" && SECRET_WORDS[1] == "password" && SECRET_WORDS[2] == "passwd" && SECRET_WORDS[3] == "secret"
           && SECRET_WORDS[4] == "token" && SECRET_WORDS[5] == "credential" && SECRET_WORDS[6] == "connection_string";
  }

  /** So text around a secret key does not hide it. */
  lemma SensitiveSurvives(before: string, key: string, behind: string)
    requires Sensitive(key)
    ensures Sensitive(before + key + behind)
  {
    SensitiveIff(key);
    var w :| 0 <= w < |SECRET_WORDS| && Bears(key, SECRET_WORDS[w]);
    var a: string, text: string, b: string :| key == a + text + b && SameLetters(text, SECRET_WORDS[w]);
    assert before + key + behind == (before + a) + text + (b + behind);
    SensitiveIff(before + key + behind);
  }

  // ---------------------------------------------------------------- what the two functions make of a tree

  function Redacted(t: Tree): Tree {
    match t
    case Leaf(_) => t
    case Map(m) => Map(map k | k in m :: if Sensitive(k) then Leaf(Text(SENTINEL)) else Redacted(m[k]))
    case Slice(items) => Slice(seq(|items|, i requires 0 <= i < |items| => Redacted(items[i])))
  }

  function MapOf(t: Option<Tree>): map<string, Tree> {
    if t.Some? && t.value.Map? then t.value.m else map[]
  }

  // What restoring makes of `t` when `stored` is in its place in the stored configuration.
  function Restored(t: Tree, stored: Option<Tree>): Tree
    decreases t
  {
    match t
    case Map(m) => Map(map k | k in m :: Restored(m[k], Find(MapOf(stored), k)))
    case Slice(items) =>
      if stored.Some? && stored.value.Slice? then
        Slice(seq(|items|, i requires 0 <= i < |items| =>
          if i < |stored.value.items| then Restored(items[i], Some(stored.value.items[i])) else items[i]))
      else t
    case Leaf(v) => if v == Text(SENTINEL) && stored.Some? then stored.value else t
  }

  /** Restoring an untouched redacted copy gives back the original, whatever the secrets were. */
  lemma {:induction false} RestoreUndoesRedact(t: Tree)
    ensures Restored(Redacted(t), Some(t)) == t
  {
    match t
    case Leaf(_) =>
    case Map(m) =>
      forall k | k in m && !Sensitive(k) ensures Restored(Redacted(m[k]), Some(m[k])) == m[k] { RestoreUndoesRedact(m[k]); }
      var r := Redacted(t);
      assert forall k :: k in m ==> Find(m, k) == Some(m[k]);
      assert Restored(r, Some(t)).m.Keys == m.Keys;
      assert forall k :: k in m ==> Restored(r, Some(t)).m[k] == m[k];
      assert Restored(r, Some(t)).m == m;
    case Slice(items) =>
      forall i | 0 <= i < |items| ensures Restored(Redacted(items[i]), Some(items[i])) == items[i] { RestoreUndoesRedact(items[i]); }
      assert Restored(Redacted(t), Some(t)).items == items;
  }

  datatype Step = Key(k: string) | Index(i: nat)

  // What stands in a tree at the end of a path.
  function Get(t: Tree, path: seq<Step>): Option<Tree>
    decreases |path|
  {
    if path == [] then Some(t) else
      match path[0]
      case Key(k) => if t.Map? && k in t.m then Get(t.m[k], path[1..]) else None
      case Index(i) => if t.Slice? && i < |t.items| then Get(t.items[i], path[1..]) else None
  }

  function GetIn(t: Option<Tree>, path: seq<Step>): Option<Tree> {
    if t.Some? then Get(t.value, path) else None
  }

  lemma {:induction false} RestoredFromNothing(t: Tree)
    ensures Restored(t, None) == t
  {
    match t
    case Leaf(_) =>
    case Slice(_) =>
    case Map(m) =>
      forall k | k in m ensures Restored(m[k], None) == m[k] { RestoredFromNothing(m[k]); }
      assert Restored(t, None).m == m;
  }

  /**
   Path by path: a sentinel becomes what is stored at the same path, if anything is; every other leaf stays as edited; and no
   container loses or gains a key or an element.
   */
  lemma {:induction false} RestoredAt(t: Tree, stored: Option<Tree>, path: seq<Step>)
    ensures var r, own := Get(Restored(t, stored), path), Get(t, path);
      && (own == Some(Leaf(Text(SENTINEL))) ==> r == if GetIn(stored, path).Some? then GetIn(stored, path) else own)
      && (own.Some? && own.value.Leaf? && own.value.v != Text(SENTINEL) ==> r == own)
      && (own.Some? && own.value.Map? ==> r.Some? && r.value.Map? && r.value.m.Keys == own.value.m.Keys)
      && (own.Some? && own.value.Slice? ==> r.Some? && r.value.Slice? && |r.value.items| == |own.value.items|)
    decreases |path|
  {
    if path != [] {
      match (t, path[0])
      case (Map(m), Key(k)) =>
        if k in m { RestoredAt(m[k], Find(MapOf(stored), k), path[1..]); }
      case (Slice(items), Index(i)) =>
        if i < |items| {
          RestoredFromNothing(items[i]);
          var below := if stored.Some? && stored.value.Slice? && i < |stored.value.items| then Some(stored.value.items[i]) else None;
          assert Restored(t, stored).items[i] == Restored(items[i], below);
          RestoredAt(items[i], below, path[1..]);
        }
      case _ =>
    }
  }

  // The trees are the same but for the values of sensitive keys, at any depth.
  predicate SameButSecrets(a: Tree, b: Tree) {
    match a
    case Leaf(_) => a == b
    case Map(m) => b.Map? && m.Keys == b.m.Keys && forall k :: k in m && !Sensitive(k) ==> SameButSecrets(m[k], b.m[k])
    case Slice(items) => b.Slice? && |items| == |b.items| && forall i :: 0 <= i < |items| ==> SameButSecrets(items[i], b.items[i])
  }

  /** The copy tells nothing of the secrets and all of the rest: two trees have one copy exactly when they differ in secrets only. */
  lemma {:induction false} RedactedHidesSecrets(a: Tree, b: Tree)
    ensures Redacted(a) == Redacted(b) <==> SameButSecrets(a, b)
  {
    match (a, b)
    case (Map(m), Map(n)) =>
      forall k | k in m && k in n && !Sensitive(k) ensures Redacted(m[k]) == Redacted(n[k]) <==> SameButSecrets(m[k], n[k]) {
        RedactedHidesSecrets(m[k], n[k]);
      }
      MapsRedactedAlike(m, n);
    case (Slice(x), Slice(y)) =>
      forall i | 0 <= i < |x| && i < |y| ensures Redacted(x[i]) == Redacted(y[i]) <==> SameButSecrets(x[i], y[i]) {
        RedactedHidesSecrets(x[i], y[i]);
      }
      SlicesRedactedAlike(x, y);
    case _ =>
  }

  lemma MapsRedactedAlike(m: map<string, Tree>, n: map<string, Tree>)
    ensures Redacted(Map(m)) == Redacted(Map(n))
            <==> m.Keys == n.Keys && forall k :: k in m && !Sensitive(k) ==> Redacted(m[k]) == Redacted(n[k])
  {
    var x, y := Redacted(Map(m)).m, Redacted(Map(n)).m;
    assert x.Keys == m.Keys && y.Keys == n.Keys;
    if x == y {
      forall k | k in m && !Sensitive(k) ensures Redacted(m[k]) == Redacted(n[k]) { assert x[k] == y[k]; }
    }
    if m.Keys == n.Keys && forall k :: k in m && !Sensitive(k) ==> Redacted(m[k]) == Redacted(n[k]) {
      assert forall k :: k in x ==> x[k] == y[k];
      assert x == y;
    }
  }

  lemma SlicesRedactedAlike(x: seq<Tree>, y: seq<Tree>)
    ensures Redacted(Slice(x)) == Redacted(Slice(y))
            <==> |x| == |y| && forall i :: 0 <= i < |x| ==> Redacted(x[i]) == Redacted(y[i])
  {
    var a, b := Redacted(Slice(x)).items, Redacted(Slice(y)).items;
    assert |a| == |x| && |b| == |y|;
    if a == b {
      forall i | 0 <= i < |x| ensures Redacted(x[i]) == Redacted(y[i]) { assert a[i] == b[i]; }
    }
    if |x| == |y| && forall i :: 0 <= i < |x| ==> Redacted(x[i]) == Redacted(y[i]) {
      assert forall i :: 0 <= i < |a| ==> a[i] == b[i];
      assert a == b;
    }
  }

  // ---------------------------------------------------------------- trees in memory

  // `n` stands for `t`; the objects it is made of are among `s`, and may be shared.
  ghost predicate Is(n: Node, t: Tree, s: set<object>)
    reads s
    decreases t
  {
    match t
    case Leaf(v) => n == Plain(v)
    case Map(m) => n.MapRef? && n.m in s && n.m.entries.Keys == m.Keys && forall k :: k in m ==> Is(n.m.entries[k], m[k], s)
    case Slice(items) =>
      n.SliceRef? && n.s in s && |n.s.items| == |items| && forall i :: 0 <= i < |items| ==> Is(n.s.items[i], items[i], s)
  }

  lemma {:induction false} IsInMore(n: Node, t: Tree, s: set<object>, s': set<object>)
    requires Is(n, t, s) && s <= s'
    ensures Is(n, t, s')
    decreases t
  {
    match t
    case Leaf(_) =>
    case Map(m) =>
      forall k | k in m ensures Is(n.m.entries[k], m[k], s') { IsInMore(n.m.entries[k], m[k], s, s'); }
    case Slice(items) =>
      forall i | 0 <= i < |items| ensures Is(n.s.items[i], items[i], s') { IsInMore(n.s.items[i], items[i], s, s'); }
  }

  // The containers of a tree that shares none of them; `objs` are all of them, from its root down.
  datatype Shape =
    | NoShape
    | MapShape(m: MapObj, objs: set<object>, kids: map<string, Shape>)
    | SliceShape(s: SliceObj, objs: set<object>, elems: seq<Shape>)

  function Objs(sh: Shape): set<object> {
    if sh.NoShape? then {} else sh.objs
  }

  ghost predicate Separate(sh: Shape) {
    match sh
    case NoShape => true
    case MapShape(m, objs, kids) =>
      && m in objs
      && (forall k :: k in kids ==> Separate(kids[k]) && Objs(kids[k]) <= objs - {m})
      && (forall k, l :: k in kids && l in kids && k != l ==> Objs(kids[k]) !! Objs(kids[l]))
    case SliceShape(s, objs, elems) =>
      && s in objs
      && (forall i :: 0 <= i < |elems| ==> Separate(elems[i]) && Objs(elems[i]) <= objs - {s})
      && (forall i, j :: 0 <= i < j < |elems| ==> Objs(elems[i]) !! Objs(elems[j]))
  }

  // `n` stands for `t` and is made of the containers of `sh`.
  ghost predicate Owns(n: Node, sh: Shape, t: Tree)
    requires Separate(sh)
    reads Objs(sh)
    decreases sh
  {
    match sh
    case NoShape => t.Leaf? && n == Plain(t.v)
    case MapShape(m, _, kids) =>
      && n == MapRef(m) && t.Map? && m.entries.Keys == kids.Keys == t.m.Keys
      && forall k :: k in kids ==> Owns(m.entries[k], kids[k], t.m[k])
    case SliceShape(s, _, elems) =>
      && n == SliceRef(s) && t.Slice? && |s.items| == |elems| == |t.items|
      && forall i :: 0 <= i < |elems| ==> Owns(s.items[i], elems[i], t.items[i])
  }

  // ---------------------------------------------------------------- redacting

  function RedactedEntry(m: map<string, Tree>, k: string): Tree
    requires k in m
  {
    if Sensitive(k) then Leaf(Text(SENTINEL)) else Redacted(m[k])
  }

  // A map under construction: the entries made so far, each of containers of its own.
  ghost predicate MapSoFar(sh: Shape, m: map<string, Tree>)
    reads Objs(sh)
  {
    && sh.MapShape? && Separate(sh) && sh.m.entries.Keys == sh.kids.Keys <= m.Keys
    && forall k :: k in sh.kids ==> Owns(sh.m.entries[k], sh.kids[k], RedactedEntry(m, k))
  }

  /** A copy of fresh containers; what it is a copy of is not touched. */
  method RedactMap(input: MapObj, ghost m: map<string, Tree>, ghost s: set<object>) returns (out: MapObj, ghost sh: Shape)
    requires Is(MapRef(input), Map(m), s)
    ensures Separate(sh) && fresh(Objs(sh)) && Owns(MapRef(out), sh, Redacted(Map(m)))
    decreases Map(m), 1
  {
    out := new MapObj();
    sh := MapShape(out, {out}, map[]);
    var todo := input.entries.Keys;
    while todo != {}
      invariant todo <= m.Keys && Is(MapRef(input), Map(m), s)
      invariant MapSoFar(sh, m) && sh.m == out && sh.kids.Keys == m.Keys - todo
      invariant fresh(sh.objs)
    {
      var k :| k in todo;
      sh := RedactKey(input, m, s, k, out, sh);
      todo := todo - {k};
    }
  }

  method RedactKey(input: MapObj, ghost m: map<string, Tree>, ghost s: set<object>, k: string, out: MapObj, ghost sh: Shape)
    returns (ghost sh': Shape)
    requires Is(MapRef(input), Map(m), s) && MapSoFar(sh, m) && sh.m == out && k in m && k !in sh.kids
    modifies out
    ensures MapSoFar(sh', m) && sh'.m == out && sh'.kids.Keys == sh.kids.Keys + {k} && fresh(sh'.objs - sh.objs)
    decreases Map(m), 0
  {
    var v := Plain(Text(SENTINEL));
    ghost var kid := NoShape;
    if !Sensitive(k) {
      v, kid := RedactNode(input.entries[k], m[k], s);
    }
    sh' := AddEntry(sh, m, out, k, v, kid);
  }

  method AddEntry(ghost sh: Shape, ghost m: map<string, Tree>, out: MapObj, k: string, v: Node, ghost kid: Shape) returns (ghost sh': Shape)
    requires MapSoFar(sh, m) && sh.m == out && k in m && k !in sh.kids
    requires Separate(kid) && Objs(kid) !! sh.objs && Owns(v, kid, RedactedEntry(m, k))
    modifies out
    ensures sh' == MapShape(out, sh.objs + Objs(kid), sh.kids[k := kid]) && MapSoFar(sh', m)
  {
    out.entries := out.entries[k := v];
    sh' := MapShape(out, sh.objs + Objs(kid), sh.kids[k := kid]);
  }

  method RedactNode(input: Node, ghost t: Tree, ghost s: set<object>) returns (out: Node, ghost sh: Shape)
    requires Is(input, t, s)
    ensures Separate(sh) && fresh(Objs(sh)) && Owns(out, sh, Redacted(t))
    decreases t, 2
  {
    match input {
      case MapRef(m) =>
        var copy;
        copy, sh := RedactMap(m, t.m, s);
        out := MapRef(copy);
      case SliceRef(l) =>
        var copy;
        copy, sh := RedactSlice(l, t.items, s);
        out := SliceRef(copy);
      case Plain(_) =>
        out, sh := input, NoShape;
    }
  }

  ghost predicate SliceSoFar(items: seq<Node>, elems: seq<Shape>, objs: set<object>, ts: seq<Tree>)
    reads objs
  {
    && |items| == |elems| <= |ts|
    && (forall i :: 0 <= i < |elems| ==> Separate(elems[i]) && Objs(elems[i]) <= objs)
    && (forall i, j :: 0 <= i < j < |elems| ==> Objs(elems[i]) !! Objs(elems[j]))
    && (forall i :: 0 <= i < |elems| ==> Owns(items[i], elems[i], Redacted(ts[i])))
  }

  method RedactSlice(input: SliceObj, ghost ts: seq<Tree>, ghost s: set<object>) returns (out: SliceObj, ghost sh: Shape)
    requires Is(SliceRef(input), Slice(ts), s)
    ensures Separate(sh) && fresh(Objs(sh)) && Owns(SliceRef(out), sh, Redacted(Slice(ts)))
    decreases Slice(ts), 0
  {
    var items: seq<Node> := [];
    ghost var elems: seq<Shape>, objs: set<object> := [], {};
    for i := 0 to |input.items|
      invariant |items| == i <= |ts| == |input.items| && Is(SliceRef(input), Slice(ts), s)
      invariant SliceSoFar(items, elems, objs, ts) && fresh(objs)
    {
      var v, kid := RedactNode(input.items[i], ts[i], s);
      items, elems, objs := items + [v], elems + [kid], objs + Objs(kid);
    }
    out := new SliceObj(items);
    sh := SliceShape(out, objs + {out}, elems);
  }

  // ---------------------------------------------------------------- restoring

  lemma {:induction false} OwnsIs(n: Node, sh: Shape, t: Tree)
    requires Separate(sh) && Owns(n, sh, t)
    ensures Is(n, t, Objs(sh))
    decreases sh
  {
    match sh
    case NoShape =>
    case MapShape(m, objs, kids) =>
      forall k | k in kids ensures Is(m.entries[k], t.m[k], objs) {
        OwnsIs(m.entries[k], kids[k], t.m[k]);
        IsInMore(m.entries[k], t.m[k], Objs(kids[k]), objs);
      }
    case SliceShape(l, objs, elems) =>
      forall i | 0 <= i < |elems| ensures Is(l.items[i], t.items[i], objs) {
        OwnsIs(l.items[i], elems[i], t.items[i]);
        IsInMore(l.items[i], t.items[i], Objs(elems[i]), objs);
      }
  }

  // What is stored in the place of a node, if anything, in memory and as a value.
  ghost predicate Stands(sv: Option<Node>, st: Option<Tree>, s: set<object>)
    reads s
  {
    (sv.Some? <==> st.Some?) && (sv.Some? ==> Is(sv.value, st.value, s))
  }

  /** Restores one node: containers in place, a sentinel by the stored node itself. */
  method RestoreNode(v: Node, ghost sh: Shape, ghost t: Tree, sv: Option<Node>, ghost st: Option<Tree>, ghost s: set<object>)
    returns (out: Node)
    requires Separate(sh) && Owns(v, sh, t) && Stands(sv, st, s) && Objs(sh) !! s
    modifies Objs(sh)
    ensures Is(out, Restored(t, st), Objs(sh) + s)
    decreases sh, 1
  {
    match v {
      case MapRef(m) =>
        var stored := if sv.Some? && sv.value.MapRef? then Some(sv.value.m) else None;
        RestoreRedacted(m, sh, t.m, stored, MapOf(st), s);
        assert Restored(t, st) == Restored(t, Some(Map(MapOf(st))));
        out := v;
      case SliceRef(l) =>
        if sv.Some? && sv.value.SliceRef? {
          RestoreRedactedSlice(l, sh, t.items, sv.value.s, st.value.items, s);
        } else {
          OwnsIs(v, sh, t);
          IsInMore(v, t, Objs(sh), Objs(sh) + s);
        }
        out := v;
      case Plain(x) =>
        if x == Text(SENTINEL) && sv.Some? {
          IsInMore(sv.value, st.value, s, Objs(sh) + s);
          out := sv.value;
        } else {
          out := v;
        }
    }
  }

  // A map part of whose keys are restored.
  ghost predicate HalfRestored(sh: Shape, m: map<string, Tree>, sm: map<string, Tree>, todo: set<string>, s: set<object>)
    reads Objs(sh), s
  {
    && sh.MapShape? && Separate(sh) && sh.m.entries.Keys == sh.kids.Keys == m.Keys && todo <= m.Keys
    && (forall k :: k in todo ==> Owns(sh.m.entries[k], sh.kids[k], m[k]))
    && (forall k :: k in m.Keys - todo ==> Is(sh.m.entries[k], Restored(m[k], Find(sm, k)), Objs(sh.kids[k]) + s))
  }

  /** Puts the stored values back in place; without a stored map nothing is put back, but what lies below is still visited. */
  method RestoreRedacted(incoming: MapObj, ghost sh: Shape, ghost m: map<string, Tree>, stored: Option<MapObj>, ghost sm: map<string, Tree>,
                         ghost s: set<object>)
    requires Separate(sh) && Owns(MapRef(incoming), sh, Map(m)) && Objs(sh) !! s
    requires if stored.Some? then Is(MapRef(stored.value), Map(sm), s) else sm == map[]
    modifies Objs(sh)
    ensures Is(MapRef(incoming), Restored(Map(m), Some(Map(sm))), Objs(sh) + s)
    decreases sh, 0
  {
    var todo := incoming.entries.Keys;
    while todo != {}
      invariant HalfRestored(sh, m, sm, todo, s) && sh.m == incoming
      invariant stored.Some? ==> Is(MapRef(stored.value), Map(sm), s)
    {
      var k :| k in todo;
      RestoreKey(sh, m, stored, sm, todo, s, k, incoming);
      todo := todo - {k};
    }
    HalfRestoredDone(sh, m, sm, s);
  }

  lemma HalfRestoredDone(sh: Shape, m: map<string, Tree>, sm: map<string, Tree>, s: set<object>)
    requires HalfRestored(sh, m, sm, {}, s)
    ensures Is(MapRef(sh.m), Restored(Map(m), Some(Map(sm))), Objs(sh) + s)
  {
    forall k | k in m ensures Is(sh.m.entries[k], Restored(m[k], Find(sm, k)), Objs(sh) + s) {
      IsInMore(sh.m.entries[k], Restored(m[k], Find(sm, k)), Objs(sh.kids[k]) + s, Objs(sh) + s);
    }
  }

  method RestoreKey(ghost sh: Shape, ghost m: map<string, Tree>, stored: Option<MapObj>, ghost sm: map<string, Tree>, ghost todo: set<string>,
                    ghost s: set<object>, k: string, incoming: MapObj)
    requires HalfRestored(sh, m, sm, todo, s) && sh.m == incoming && k in todo && Objs(sh) !! s
    requires if stored.Some? then Is(MapRef(stored.value), Map(sm), s) else sm == map[]
    modifies Objs(sh)
    ensures HalfRestored(sh, m, sm, todo - {k}, s)
    decreases sh, 0, 0
  {
    var sv := if stored.Some? && k in stored.value.entries then Some(stored.value.entries[k]) else None;
    var out := RestoreNode(incoming.entries[k], sh.kids[k], m[k], sv, Find(sm, k), s);
    PutBack(sh, m, sm, todo - {k}, s, k, incoming, out);
  }

  // All but one key is settled, and its new entry is at hand.
  method PutBack(ghost sh: Shape, ghost m: map<string, Tree>, ghost sm: map<string, Tree>, ghost todo: set<string>, ghost s: set<object>,
                 k: string, incoming: MapObj, out: Node)
    requires sh.MapShape? && Separate(sh) && sh.m == incoming && incoming.entries.Keys == sh.kids.Keys == m.Keys
    requires todo <= m.Keys && k in m.Keys - todo && Objs(sh) !! s
    requires forall l :: l in todo ==> Owns(incoming.entries[l], sh.kids[l], m[l])
    requires forall l :: l in m.Keys - todo && l != k ==> Is(incoming.entries[l], Restored(m[l], Find(sm, l)), Objs(sh.kids[l]) + s)
    requires Is(out, Restored(m[k], Find(sm, k)), Objs(sh.kids[k]) + s)
    modifies incoming
    ensures HalfRestored(sh, m, sm, todo, s)
  {
    incoming.entries := incoming.entries[k := out];
  }

  // A slice whose first elements are restored.
  ghost predicate FrontRestored(sh: Shape, ts: seq<Tree>, sts: seq<Tree>, n: nat, s: set<object>)
    reads Objs(sh), s
  {
    && sh.SliceShape? && Separate(sh) && |sh.s.items| == |sh.elems| == |ts| && n <= |ts|
    && (forall i :: n <= i < |ts| ==> Owns(sh.s.items[i], sh.elems[i], ts[i]))
    && (forall i :: 0 <= i < n && i < |sts| ==> Is(sh.s.items[i], Restored(ts[i], Some(sts[i])), Objs(sh.elems[i]) + s))
  }

  /** Restores by position, as far as the stored slice goes. */
  method RestoreRedactedSlice(incoming: SliceObj, ghost sh: Shape, ghost ts: seq<Tree>, stored: SliceObj, ghost sts: seq<Tree>,
                              ghost s: set<object>)
    requires Separate(sh) && Owns(SliceRef(incoming), sh, Slice(ts)) && Objs(sh) !! s
    requires Is(SliceRef(stored), Slice(sts), s)
    modifies Objs(sh)
    ensures Is(SliceRef(incoming), Restored(Slice(ts), Some(Slice(sts))), Objs(sh) + s)
    decreases sh, 0
  {
    var i := 0;
    while i < |incoming.items| && i < |stored.items|
      invariant FrontRestored(sh, ts, sts, i, s) && sh.s == incoming && i <= |sts|
      invariant Is(SliceRef(stored), Slice(sts), s)
      decreases |ts| - i
    {
      var out := RestoreNode(incoming.items[i], sh.elems[i], ts[i], Some(stored.items[i]), Some(sts[i]), s);
      incoming.items := incoming.items[i := out];
      i := i + 1;
    }
    FrontRestoredDone(sh, ts, sts, i, s);
  }

  lemma FrontRestoredDone(sh: Shape, ts: seq<Tree>, sts: seq<Tree>, n: nat, s: set<object>)
    requires FrontRestored(sh, ts, sts, n, s) && n <= |sts| && (n == |ts| || n == |sts|)
    ensures Is(SliceRef(sh.s), Restored(Slice(ts), Some(Slice(sts))), Objs(sh) + s)
  {
    var r := Restored(Slice(ts), Some(Slice(sts)));
    forall i | 0 <= i < |ts| ensures Is(sh.s.items[i], r.items[i], Objs(sh) + s) {
      if i < n {
        IsInMore(sh.s.items[i], r.items[i], Objs(sh.elems[i]) + s, Objs(sh) + s);
      } else {
        OwnsIs(sh.s.items[i], sh.elems[i], ts[i]);
        IsInMore(sh.s.items[i], ts[i], Objs(sh.elems[i]), Objs(sh) + s);
      }
    }
  }

  /** A display copy written back untouched: it becomes the stored configuration again, which itself was never changed. */
  method RoundTrip(config: MapObj, ghost m: map<string, Tree>, ghost s: set<object>) returns (back: MapObj, ghost all: set<object>)
    requires Is(MapRef(config), Map(m), s)
    ensures Is(MapRef(back), Map(m), all) && fresh(back) && fresh(all - s)
    ensures Is(MapRef(config), Map(m), s)
  {
    ghost var sh;
    back, sh := RedactMap(config, m, s);
    ghost var r := Redacted(Map(m)).m;
    assert Objs(sh) !! s;
    RestoreRedacted(back, sh, r, Some(config), m, s);
    RestoreUndoesRedact(Map(m));
    all := Objs(sh) + s;
  }
}
