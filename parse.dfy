/**
 * `Chord.fromString` (app/src/lib/chords/Chord.ts, lines 43-116) and the
 * name `updateName` writes (lines 118-151).
 *
 * The meaning of a name is stated through the grammar: `Interpret` looks at
 * the symbol `Recognize` finds and reads the chord's fields off it.
 * `ParseFields` performs the source's own buffer surgery (key characters,
 * backslash, parenthesis group, quality scan, split of what is left) and is
 * proved to compute exactly that meaning.
 */
module ChordParse {
  import opened Wrappers
  import opened JsText
  import opened ChordGrammar

  /** The public fields of a chord; `quality` is the source's `type`. */
  datatype ChordFields = ChordFields(key: string, quality: string, add: seq<string>, mod: seq<string>, bass: string)

  /** `Chord.types`, scanned in this order. */
  const Types: seq<string> := ["", "m", "aug", "dim", "sus2", "sus4"]

  const ErrorPrefix := "Unrecognized chord: "

  // ---------------------------------------------------------------- meaning

  /** A quality written after additions is never split off: it stays glued to the last addition. */
  function GlueLast(adds: seq<string>, post: string): seq<string>
  {
    if adds == [] then [] else adds[..|adds| - 1] + [adds[|adds| - 1] + post]
  }

  /** The fields of the chord spelled by `sym`. */
  function FieldsOf(sym: Symbol): ChordFields
  {
    ChordFields(
      sym.key,
      if sym.minor then "m" else if sym.adds == [] then sym.post else "",
      GlueLast(sym.adds, sym.post),
      sym.mods,
      match sym.bass
      case None => sym.key
      case Some(b) => b)
  }

  /** What `fromString` makes of a name: an error unless the name matches the chord grammar. */
  function Interpret(name: string): Result<ChordFields>
  {
    if |name| == 0 then Failure(ErrorPrefix + name)
    else
      match Recognize(name)
      case None => Failure(ErrorPrefix + name)
      case Some(sym) => Success(FieldsOf(sym))
  }

  // ---------------------------------------------------------------- built-ins

  /**
   * `/\(([^)]+)\)/` can match at position `k`: a '(' there, and the first
   * ')' after it is not the very next character (the group needs at least
   * one character, none of them a ')').
   */
  predicate OpensGroup(s: string, k: int)
  {
    0 <= k < |s| && s[k] == '(' && IndexOf(s[k + 1..], ')') > 0
  }

  /**
   * The regex engine's search from position `k`: the positions of the
   * parentheses of the first match starting at `k` or later.
   */
  function ParenFrom(s: string, k: nat): Option<(int, int)>
    decreases |s| - k
  {
    if k >= |s| then None
    else if OpensGroup(s, k) then Some((k, k + 1 + IndexOf(s[k + 1..], ')')))
    else ParenFrom(s, k + 1)
  }

  /** `buffer.match(/\(([^)]+)\)/)`: the leftmost match, as the positions of its parentheses. */
  function ParenGroup(s: string): Option<(int, int)>
  {
    ParenFrom(s, 0)
  }

  /** The search from `k` fails only when no position from `k` on matches. */
  lemma {:induction false} ParenFromNone(s: string, k: nat)
    requires ParenFrom(s, k).None?
    ensures forall m :: k <= m < |s| ==> !OpensGroup(s, m)
    decreases |s| - k
  {
    if k < |s| {
      ParenFromNone(s, k + 1);
    }
  }

  /** The search from `k` stops at the leftmost position from `k` on where the pattern matches. */
  lemma {:induction false} ParenFromLeftmost(s: string, k: nat)
    requires ParenFrom(s, k).Some?
    ensures var i := ParenFrom(s, k).value.0;
      k <= i && OpensGroup(s, i) && forall m :: k <= m < i ==> !OpensGroup(s, m)
    decreases |s| - k
  {
    if !OpensGroup(s, k) {
      ParenFromLeftmost(s, k + 1);
    }
  }

  /** A match spans a '(' and the first ')' after it, with at least one character between them. */
  lemma GroupShape(s: string, i: int)
    requires OpensGroup(s, i)
    ensures var j := i + 1 + IndexOf(s[i + 1..], ')');
      i + 1 < j < |s| && s[i] == '(' && s[j] == ')' && ')' !in s[i + 1..j]
  {
    var t := s[i + 1..];
    var j := IndexOf(t, ')');
    IndexOfSpec(t, ')');
    assert s[i + 1..i + 1 + j] == t[..j];
  }

  /** Positions holding no '(' are skipped by the search. */
  lemma {:induction false} SkipPlain(s: string, k: nat, n: nat)
    requires k <= n <= |s|
    requires forall m :: k <= m < n ==> s[m] != '('
    ensures ParenFrom(s, k) == ParenFrom(s, n)
    decreases n - k
  {
    if k < n {
      SkipPlain(s, k + 1, n);
    }
  }

  predicate OccursAt(s: string, pat: string, k: int)
  {
    0 <= k && k + |pat| <= |s| && s[k..k + |pat|] == pat
  }

  /** The first position where `pat` occurs in `s`, or -1. */
  function FindSub(s: string, pat: string): (r: int)
    ensures r == -1 || 0 <= r <= |s| - |pat|
    ensures r >= 0 ==> OccursAt(s, pat, r)
    ensures r >= 0 ==> forall k :: k < r ==> !OccursAt(s, pat, k)
    ensures r == -1 ==> forall k :: !OccursAt(s, pat, k)
    decreases |s|
  {
    if |s| < |pat| then -1
    else if s[..|pat|] == pat then 0
    else
      var r := FindSub(s[1..], pat);
      assert forall k :: 1 <= k ==> (OccursAt(s, pat, k) <==> OccursAt(s[1..], pat, k - 1)) by {
        forall k | 1 <= k ensures OccursAt(s, pat, k) <==> OccursAt(s[1..], pat, k - 1) {
          OccursShift(s, pat, k);
        }
      }
      if r < 0 then -1 else r + 1
  }

  lemma OccursShift(s: string, pat: string, k: int)
    requires 1 <= k && |s| >= 1
    ensures OccursAt(s, pat, k) <==> OccursAt(s[1..], pat, k - 1)
  {
    if k + |pat| <= |s| {
      var a, b := s[k..k + |pat|], s[1..][k - 1..k - 1 + |pat|];
      assert forall i :: 0 <= i < |pat| ==> a[i] == b[i];
      assert a == b;
    }
  }

  /** `s.replace(pat, '')` for a string pattern: the first occurrence removed. */
  function RemoveFirst(s: string, pat: string): string
  {
    var k := FindSub(s, pat);
    if k < 0 then s else s[..k] + s[k + |pat|..]
  }

  /** `parts.filter((s) => s.length > 0)`. */
  function NonEmptyParts(parts: seq<string>): (r: seq<string>)
    ensures forall k :: 0 <= k < |r| ==> |r[k]| > 0
    ensures (forall k :: 0 <= k < |parts| ==> |parts[k]| > 0) ==> r == parts
  {
    if parts == [] then []
    else
      assert forall k :: 0 <= k < |parts[1..]| ==> parts[1..][k] == parts[k + 1];
      (if |parts[0]| > 0 then [parts[0]] else []) + NonEmptyParts(parts[1..])
  }

  // ---------------------------------------------------------------- the quality scan

  /** The scan of `Chord.types` from index `k`, skipping the empty type: the first one `buffer` starts with. */
  function TypeAt(buffer: string, k: nat): (r: (string, string))
    requires k <= |Types|
    ensures r.0 == "" ==> r.1 == buffer
    ensures r.0 != "" ==> r.0 in Types[k..] && r.0 <= buffer && r.1 == buffer[|r.0|..]
    decreases |Types| - k
  {
    if k == |Types| then ("", buffer)
    else if Types[k] != "" && Types[k] <= buffer then (Types[k], buffer[|Types[k]|..])
    else
      var r := TypeAt(buffer, k + 1);
      assert Types[k + 1..] == Types[k..][1..];
      r
  }

  /** Lines 83-97: no quality is taken from an empty remainder or one starting with "maj". */
  function TypeSplit(buffer: string): (string, string)
  {
    if |buffer| == 0 || "maj" <= buffer then ("", buffer) else TypeAt(buffer, 0)
  }

  // ---------------------------------------------------------------- the steps on a spelling

  /** The quality text of a symbol, without what follows it. */
  function QText(sym: Symbol): string
  {
    QualityText(sym.minor, sym.adds, sym.post, "")
  }

  /** The modification block of a symbol, without what follows it. */
  function MText(sym: Symbol): string
  {
    ModsText(sym.mods, "")
  }

  /** A spelled body is the quality text, the modification block and the bass, in that order. */
  lemma BodyParts(sym: Symbol)
    ensures Body(sym) == (QText(sym) + MText(sym)) + BassText(sym.bass)
  {
    var m := MText(sym);
    QualityTextAppend(sym.minor, sym.adds, sym.post, ModsText(sym.mods, BassText(sym.bass)));
    ModsTextAppend(sym.mods, BassText(sym.bass));
  }

  /** The punctuation of a well-formed symbol's text: parentheses only around the modifications, and no backslash. */
  lemma SymbolPunctuation(sym: Symbol)
    requires WellFormed(sym)
    ensures '(' !in QText(sym) && ')' !in QText(sym) && '\\' !in QText(sym)
    ensures '\\' !in MText(sym)
    ensures sym.mods != [] ==>
      var inner := Join(sym.mods, '/');
      && MText(sym) == "(" + inner + ")"
      && |inner| >= 1 && ')' !in inner
      && Split(inner, '/') == sym.mods
  {
    QualityPlain(sym.minor, sym.adds, sym.post);
    if sym.mods != [] {
      var inner := Join(sym.mods, '/');
      ModsPlain(sym.mods);
      JoinPlain(sym.mods);
      assert MText(sym) == "(" + inner + ")";
      ModTokenStart(sym.mods[0]);
      JoinStart(sym.mods, '/', "");
      assert |inner| >= 1;
      SplitJoin(sym.mods, '/');
    }
  }

  /** Lines 66-72: a backslash-free text followed by the bass text is cut at the backslash. */
  lemma BassCut(qm: string, bass: Option<string>)
    requires '\\' !in qm
    ensures var b := qm + BassText(bass);
      && IndexOf(b, '\\') == (if bass.None? then -1 else |qm|)
      && (bass.None? ==> b == qm)
      && (bass.Some? ==> b[..|qm|] == qm && b[|qm| + 1..] == bass.value)
  {
    if bass.Some? {
      var b := qm + BassText(bass);
      IndexOfAppend(qm, "\\" + bass.value, '\\');
      assert b[..|qm|] == qm;
      assert b[|qm| + 1..] == bass.value;
    } else {
      assert qm + "" == qm;
      IndexOfAppend(qm, "", '\\');
    }
  }

  /** Lines 75-80: the group in a '('-free text followed by a block is that block. */
  lemma ModsCut(q: string, inner: string)
    requires '(' !in q && |inner| >= 1 && ')' !in inner
    ensures var s := q + ("(" + inner + ")");
      && ParenGroup(s) == Some((|q|, |s| - 1))
      && s[|q| + 1..|s| - 1] == inner
      && s[|q|..|s|] == "(" + inner + ")"
      && RemoveFirst(s, "(" + inner + ")") == q
  {
    ModsGroup(q, inner);
    BlockSlices(q, inner);
    RemoveAt(q, "(" + inner + ")");
  }

  /** The search passes over a '('-free text and matches the block after it. */
  lemma ModsGroup(q: string, inner: string)
    requires '(' !in q && |inner| >= 1 && ')' !in inner
    ensures var s := q + ("(" + inner + ")"); ParenGroup(s) == Some((|q|, |s| - 1))
  {
    var s := q + ("(" + inner + ")");
    forall m | 0 <= m < |q| ensures s[m] != '(' {
      assert s[m] == q[m];
    }
    SkipPlain(s, 0, |q|);
    assert s[|q| + 1..] == inner + ")";
    IndexOfAppend(inner, ")", ')');
  }

  lemma BlockSlices(q: string, inner: string)
    ensures var s := q + ("(" + inner + ")");
      s[|q| + 1..|s| - 1] == inner && s[|q|..|s|] == "(" + inner + ")"
  {
  }

  /** Without a '(' there is no match. */
  lemma NoParenGroup(q: string)
    requires '(' !in q
    ensures ParenGroup(q).None?
  {
    forall m | 0 <= m < |q| ensures q[m] != '(' {
      assert q[m] in q;
    }
    SkipPlain(q, 0, |q|);
  }

  /** When `pat` begins with a character `q` lacks, its first occurrence in `q + pat` is right after `q`. */
  lemma RemoveAt(q: string, pat: string)
    requires |pat| >= 1 && pat[0] !in q
    ensures RemoveFirst(q + pat, pat) == q
  {
    var s := q + pat;
    assert OccursAt(s, pat, |q|) by {
      assert s[|q|..|q| + |pat|] == pat;
    }
    forall k | 0 <= k < |q| ensures !OccursAt(s, pat, k) {
      assert s[k] == q[k];
      if k + |pat| <= |s| {
        assert s[k..k + |pat|][0] == s[k];
      }
    }
    assert s[..|q|] == q;
  }

  /** Lines 83-97 on a spelled quality text. */
  lemma TypeStep(minor: bool, adds: seq<string>, post: string)
    requires AllIn(adds, AddTokens) && (post == "" || post in PostQualities) && (minor ==> post == "")
    ensures TypeSplit(QualityText(minor, adds, post, "")) ==
      if minor then ("m", Join(adds, '/'))
      else if adds == [] then (post, "")
      else ("", Join(adds, '/') + post)
  {
    var q := QualityText(minor, adds, post, "");
    var j := Join(adds, '/');
    assert post + "" == post;
    assert q == (if minor then "m" else "") + (j + post);
    if post != "" {
      AfterAddsOf(post, "");
    }
    assert AfterAdds(post);
    AddsStart(adds, post);
    if minor {
      assert q == "m" + j;
      assert !("maj" <= q) by {
        if |q| >= 3 {
          assert q[1] == j[0];
        }
      }
      assert Types[1] == "m" && "m" <= q;
      assert q[1..] == j;
    } else if adds == [] {
      assert q == post;
      if post != "" {
        PostStart(post);
        TypeAtPost(post);
      }
    } else {
      assert q == j + post;
      NoTypeAfterAdds(adds, post);
    }
  }

  /** A post-quality is scanned as itself. */
  lemma TypeAtPost(post: string)
    requires post in PostQualities
    ensures "maj" <= post || TypeAt(post, 0) == (post, "")
  {
    PostStart(post);
    VocabulariesPrefixFree();
    var r := TypeAt(post, 0);
    if !("maj" <= post) {
      assert r.0 != "" by {
        var i :| 0 <= i < |PostQualities| && PostQualities[i] == post;
        assert Types[i + 2] == post;
        TypeAtFinds(post, 0, i + 2);
      }
      assert r.0 in Types[0..];
      assert post[0] != 'm';
      assert r.0 in PostQualities;
      assert r.1 == post[|r.0|..];
      assert post[|post|..] == "";
    }
  }

  lemma {:induction false} TypeAtFinds(buffer: string, k: nat, i: nat)
    requires k <= i < |Types| && Types[i] != "" && Types[i] <= buffer
    ensures TypeAt(buffer, k).0 != ""
    decreases i - k
  {
    if !(Types[k] != "" && Types[k] <= buffer) {
      TypeAtFinds(buffer, k + 1, i);
    }
  }

  /** After additions no quality is scanned: the remainder starts with a digit, or with "maj". */
  lemma NoTypeAfterAdds(adds: seq<string>, post: string)
    requires AllIn(adds, AddTokens) && adds != []
    ensures var s := Join(adds, '/') + post; "maj" <= s || TypeAt(s, 0) == ("", s)
  {
    var s := Join(adds, '/') + post;
    var a := adds[0];
    AddTokenStart(a);
    JoinStart(adds, '/', post);
    PrefixChars(a, s);
    if a[0] == 'm' {
      assert s[..3] == a[..3];
    } else {
      TypeAtNone(s, 0);
    }
  }

  lemma {:induction false} TypeAtNone(s: string, k: nat)
    requires k <= |Types|
    requires |s| >= 1 && s[0] in "0123456789"
    ensures TypeAt(s, k) == ("", s)
    decreases |Types| - k
  {
    if k < |Types| {
      assert Types[k] == "" || !(Types[k] <= s) by {
        PrefixChars(Types[k], s);
      }
      TypeAtNone(s, k + 1);
    }
  }

  /** Line 101 on a joined list of non-empty, slash-free parts followed by a slash-free tail. */
  lemma AddParts(adds: seq<string>, post: string)
    requires adds != []
    requires forall k :: 0 <= k < |adds| ==> |adds[k]| > 0 && '/' !in adds[k]
    requires '/' !in post
    ensures var rest := Join(adds, '/') + post;
      |rest| > 0 && NonEmptyParts(Split(rest, '/')) == GlueLast(adds, post)
  {
    JoinStart(adds, '/', post);
    SplitJoinTail(adds, '/', post);
  }

  /** What the quality scan leaves of a spelled quality text meets the requirements of the addition split. */
  lemma AddsLeft(sym: Symbol)
    requires WellFormed(sym)
    ensures var rest, post := TypeSplit(QText(sym)).1, if sym.minor then "" else sym.post;
      && (if sym.adds == [] then rest == "" else rest == Join(sym.adds, '/') + post)
      && (forall k :: 0 <= k < |sym.adds| ==> |sym.adds[k]| > 0 && '/' !in sym.adds[k])
      && '/' !in post
      && GlueLast(sym.adds, post) == GlueLast(sym.adds, sym.post)
  {
    TypeStep(sym.minor, sym.adds, sym.post);
    AddsPlain(sym.adds);
    forall k | 0 <= k < |sym.adds| ensures |sym.adds[k]| > 0 {
      AddTokenStart(sym.adds[k]);
    }
    if sym.post != "" {
      PostPlain(sym.post);
    }
    if sym.minor {
      assert Join(sym.adds, '/') + "" == Join(sym.adds, '/');
    }
  }

  /** Lines 75-80 on a quality text followed by a modification block, stated on the buffer alone. */
  lemma ModsStep(buffer: string, q: string, mods: seq<string>)
    requires '(' !in q && buffer == q + ModsText(mods, "")
    requires mods != [] ==> |Join(mods, '/')| >= 1 && ')' !in Join(mods, '/') && Split(Join(mods, '/'), '/') == mods
    ensures mods == [] ==> buffer == q && ParenGroup(buffer).None?
    ensures mods != [] ==>
      && ParenGroup(buffer) == Some((|q|, |buffer| - 1))
      && |q| + 1 < |buffer|
      && Split(buffer[|q| + 1..|buffer| - 1], '/') == mods
      && RemoveFirst(buffer, buffer[|q|..|buffer|]) == q
  {
    if mods == [] {
      assert buffer == q;
      NoParenGroup(q);
    } else {
      assert ModsText(mods, "") == "(" + Join(mods, '/') + ")";
      ModsCut(q, Join(mods, '/'));
    }
  }

  // ---------------------------------------------------------------- fromString

  /**
   * Lines 74-80: the parenthesis group of a quality text followed by a
   * modification block is that block; its parts are the modifications and
   * removing it leaves the quality text.
   */
  method CutMods(buffer: string, ghost q: string, ghost mods: seq<string>) returns (rest: string, mod: seq<string>)
    requires '(' !in q && buffer == q + ModsText(mods, "")
    requires mods != [] ==> |Join(mods, '/')| >= 1 && ')' !in Join(mods, '/') && Split(Join(mods, '/'), '/') == mods
    ensures rest == q && mod == mods
  {
    rest := buffer;
    mod := [];
    var modMatch := ParenGroup(rest);
    if modMatch.Some? {
      ModsStep(buffer, q, mods);
      var i, j := modMatch.value.0, modMatch.value.1;
      assert i == |q| && j == |buffer| - 1;
      var modStr := rest[i + 1..j];
      var parts := Split(modStr, '/');
      assert parts == mods;
      mod := mod + parts;
      assert rest[i..j + 1] == buffer[|q|..|buffer|];
      rest := RemoveFirst(rest, rest[i..j + 1]);
    } else {
      ModsStep(buffer, q, mods);
    }
  }

  /** Lines 83-97: the scan of `Chord.types` over the buffer, stopping at the first type it starts with. */
  method ScanType(buffer: string) returns (quality: string, rest: string)
    ensures (quality, rest) == TypeSplit(buffer)
  {
    quality, rest := "", buffer;
    if |rest| > 0 {
      if "maj" <= rest {
        quality := "";
      } else {
        var k := 0;
        while k < |Types|
          invariant 0 <= k <= |Types|
          invariant quality == "" && rest == buffer
          invariant TypeAt(buffer, k) == TypeAt(buffer, 0)
          decreases |Types| - k
        {
          var t := Types[k];
          if t != "" && t <= rest {
            quality := t;
            rest := rest[|t|..];
            break;
          }
          k := k + 1;
        }
      }
    }
  }

  /**
   * `fromString` up to the constructor call: names the chord grammar
   * rejects are refused, and the others are read by `SliceFields`.
   */
  method ParseFields(name: string) returns (r: Result<ChordFields>)
    ensures r == Interpret(name)
  {
    if |name| == 0 || Recognize(name).None? {
      return Failure(ErrorPrefix + name);
    }
    ghost var sym := Recognize(name).value;
    var fields := SliceFields(name, sym);
    r := Success(fields);
  }

  /** Lines 56-63: a note name followed by text that starts with neither '#' nor 'b' is cut after the note. */
  method CutKey(name: string, ghost note: string, ghost body: string) returns (key: string, rest: string)
    requires note in NoteNames && name == note + body
    requires body == [] || (body[0] != '#' && body[0] != 'b')
    ensures key == note && rest == body
  {
    NoteStart(note);
    key := [name[0]];
    if |name| > 1 && (name[1] == '#' || name[1] == 'b') {
      key := key + [name[1]];
      rest := name[2..];
    } else {
      rest := name[1..];
    }
    assert name[..|note|] == note;
  }

  /** Lines 65-72: a backslash-free text followed by the bass text is cut at the backslash; without one the bass is the key. */
  method CutBass(buffer: string, key: string, ghost qm: string, ghost b: Option<string>) returns (rest: string, bass: string)
    requires '\\' !in qm && buffer == qm + BassText(b)
    ensures rest == qm && bass == (if b.None? then key else b.value)
  {
    BassCut(qm, b);
    rest := buffer;
    var bassIndex := IndexOf(rest, '\\');
    if bassIndex != -1 {
      bass := rest[bassIndex + 1..];
      rest := rest[..bassIndex];
    } else {
      bass := key;
    }
  }

  /** Lines 99-102: what follows the quality is split at the slashes into the additions, the last one keeping any quality glued to it. */
  method CutAdds(buffer: string, ghost adds: seq<string>, ghost post: string) returns (add: seq<string>)
    requires if adds == [] then buffer == "" else buffer == Join(adds, '/') + post
    requires forall k :: 0 <= k < |adds| ==> |adds[k]| > 0 && '/' !in adds[k]
    requires '/' !in post
    ensures add == GlueLast(adds, post)
  {
    add := [];
    if adds != [] {
      AddParts(adds, post);
    }
    if |buffer| > 0 {
      add := add + NonEmptyParts(Split(buffer, '/'));
    }
  }

  /**
   * Lines 49-104 on a name that spells `sym`: the buffer is sliced exactly
   * as the source does, and the fields come out as the symbol says.
   */
  method SliceFields(name: string, ghost sym: Symbol) returns (f: ChordFields)
    requires WellFormed(sym) && Spell(sym) == name
    ensures f == FieldsOf(sym)
  {
    ghost var q, m := QText(sym), MText(sym);
    BodyParts(sym);
    BodyStart(sym);
    SymbolPunctuation(sym);
    var key, buffer := CutKey(name, sym.key, Body(sym));
    var bass;
    buffer, bass := CutBass(buffer, key, q + m, sym.bass);
    var mod;
    buffer, mod := CutMods(buffer, q, sym.mods);
    TypeStep(sym.minor, sym.adds, sym.post);
    var quality;
    quality, buffer := ScanType(buffer);
    AddsLeft(sym);
    var add := CutAdds(buffer, sym.adds, if sym.minor then "" else sym.post);
    f := ChordFields(key, quality, add, mod, bass);
  }

  // ---------------------------------------------------------------- updateName

  /** A piece written only when `present`. */
  function Opt(present: bool, text: string): seq<string>
  {
    if present then [text] else []
  }

  /** The pieces `updateName` writes, in order: a type of '' or 'm' comes before the additions, any other after them. */
  function NameParts(f: ChordFields): seq<string>
  {
    var typeFirst := f.quality == "" || f.quality == "m";
    [f.key]
    + (Opt(typeFirst, f.quality)
    + (Opt(|f.add| > 0, Join(f.add, '/'))
    + (Opt(!typeFirst && f.quality != "", f.quality)
    + (Opt(|f.mod| > 0, "(" + Join(f.mod, '/') + ")")
    + Opt(f.bass != f.key, "\\" + f.bass)))))
  }

  /** `nameParts.join('')`: the name `updateName` stores. */
  function NameOf(f: ChordFields): string
  {
    Concat(NameParts(f))
  }

  function Piece(present: bool, text: string): string
  {
    if present then text else ""
  }

  lemma ConcatOpt(present: bool, text: string, rest: seq<string>)
    ensures Concat(Opt(present, text) + rest) == Piece(present, text) + Concat(rest)
  {
    if present {
      assert ([text] + rest)[1..] == rest;
    } else {
      assert [] + rest == rest;
    }
  }

  lemma ConcatOne(present: bool, text: string)
    ensures Concat(Opt(present, text)) == Piece(present, text)
  {
    if present {
      assert [text][1..] == [];
    }
  }

  /** The name is the pieces' texts one after the other. */
  lemma NameText(f: ChordFields)
    ensures var typeFirst := f.quality == "" || f.quality == "m";
      NameOf(f) == f.key + (Piece(typeFirst, f.quality) + (Piece(|f.add| > 0, Join(f.add, '/'))
        + (Piece(!typeFirst && f.quality != "", f.quality) + (Piece(|f.mod| > 0, "(" + Join(f.mod, '/') + ")")
        + Piece(f.bass != f.key, "\\" + f.bass)))))
  {
    var typeFirst := f.quality == "" || f.quality == "m";
    var p5 := Opt(f.bass != f.key, "\\" + f.bass);
    var p4 := Opt(|f.mod| > 0, "(" + Join(f.mod, '/') + ")") + p5;
    var p3 := Opt(!typeFirst && f.quality != "", f.quality) + p4;
    var p2 := Opt(|f.add| > 0, Join(f.add, '/')) + p3;
    var p1 := Opt(typeFirst, f.quality) + p2;
    assert ([f.key] + p1)[1..] == p1;
    ConcatOpt(typeFirst, f.quality, p2);
    ConcatOpt(|f.add| > 0, Join(f.add, '/'), p3);
    ConcatOpt(!typeFirst && f.quality != "", f.quality, p4);
    ConcatOpt(|f.mod| > 0, "(" + Join(f.mod, '/') + ")", p5);
    ConcatOne(f.bass != f.key, "\\" + f.bass);
  }

  /** The symbol with a bass equal to its key left out: the two spell the same chord. */
  function Canonical(sym: Symbol): (c: Symbol)
    ensures WellFormed(sym) ==> WellFormed(c)
    ensures FieldsOf(c) == FieldsOf(sym)
    ensures c.bass.Some? <==> sym.bass.Some? && sym.bass.value != sym.key
  {
    if sym.bass == Some(sym.key) then sym.(bass := None) else sym
  }

  lemma GlueNothing(adds: seq<string>)
    requires adds != []
    ensures GlueLast(adds, "") == adds
  {
    assert adds[|adds| - 1] + "" == adds[|adds| - 1];
  }

  /** The quality text `updateName` writes for a symbol is the one it was spelled with. */
  lemma QualityName(sym: Symbol, rest: string)
    requires WellFormed(sym)
    ensures var f := FieldsOf(sym); var typeFirst := f.quality == "" || f.quality == "m";
      Piece(typeFirst, f.quality) + (Piece(|f.add| > 0, Join(f.add, '/')) + (Piece(!typeFirst && f.quality != "", f.quality) + rest))
        == QualityText(sym.minor, sym.adds, sym.post, rest)
  {
    if sym.adds != [] {
      JoinExtendLast(sym.adds, '/', sym.post);
      if sym.minor {
        GlueNothing(sym.adds);
        assert Join(sym.adds, '/') + "" == Join(sym.adds, '/');
      }
    } else if sym.post != "" {
      PostStart(sym.post);
    }
  }

  /** The modification block `updateName` writes is the one the symbol was spelled with. */
  lemma ModsName(mods: seq<string>, rest: string)
    ensures Piece(|mods| > 0, "(" + Join(mods, '/') + ")") + rest == ModsText(mods, rest)
  {
  }

  /** `updateName` writes the bass exactly when it differs from the key, as the canonical symbol does. */
  lemma BassName(sym: Symbol)
    ensures var f := FieldsOf(sym); Piece(f.bass != f.key, "\\" + f.bass) == BassText(Canonical(sym).bass)
  {
  }

  /**
   * Writing the fields a symbol stands for spells the symbol back, except
   * that a bass equal to the key is not written.
   */
  lemma NameOfFields(sym: Symbol)
    requires WellFormed(sym)
    ensures NameOf(FieldsOf(sym)) == Spell(Canonical(sym))
  {
    var f := FieldsOf(sym);
    var c := Canonical(sym);
    NameText(f);
    BassName(sym);
    ModsName(f.mod, BassText(c.bass));
    QualityName(sym, ModsText(c.mods, BassText(c.bass)));
  }

  /** A name `fromString` accepts is read back, field for field, from the name `updateName` writes for it. */
  lemma ParseName(name: string)
    requires Interpret(name).Success?
    ensures Interpret(NameOf(Interpret(name).value)) == Interpret(name)
  {
    var sym := Recognize(name).value;
    NameOfFields(sym);
    RecognizeSpell(Canonical(sym));
    NoteStart(sym.key);
  }

  /** `fromString` accepts exactly the non-empty names that spell a well-formed symbol. */
  lemma InterpretSucceeds(name: string)
    ensures Interpret(name).Success? <==> exists sym :: WellFormed(sym) && Spell(sym) == name
  {
    MatchesIffSpelled(name);
    if exists sym :: WellFormed(sym) && Spell(sym) == name {
      var sym :| WellFormed(sym) && Spell(sym) == name;
      NoteStart(sym.key);
    }
  }

  /** The error message names the rejected chord. */
  lemma InterpretError(name: string)
    requires Interpret(name).Failure?
    ensures Interpret(name).error == ErrorPrefix + name
  {
  }

  /**
   * Lines 84-96: the type is 'm' exactly when the text after the key starts
   * with "m" but not with "maj"; so "maj7" never makes a chord minor, while
   * "mmaj7" is minor with the addition "maj7".
   */
  lemma MinorIffMarked(name: string)
    requires Interpret(name).Success?
    ensures |Interpret(name).value.key| <= |name|
    ensures var f := Interpret(name).value; var body := name[|f.key|..];
      f.quality == "m" <==> "m" <= body && !("maj" <= body)
  {
    var sym := Recognize(name).value;
    var body := Body(sym);
    assert name[|sym.key|..] == body;
    var rest := ModsText(sym.mods, BassText(sym.bass));
    ModsBassStart(sym.mods, sym.bass);
    AfterAddsOf(sym.post, rest);
    LexMinorText(sym.minor, sym.adds, sym.post + rest);
    assert !sym.minor ==> sym.post != "m" by {
      if sym.post != "" {
        PostStart(sym.post);
      }
    }
  }

  /**
   * `bass` is what a name says after its backslash: nothing when the name
   * has no backslash, and otherwise the text after the first one.
   */
  predicate BassAt(name: string, bass: Option<string>)
  {
    var k := IndexOf(name, '\\');
    && (bass.None? <==> k == -1)
    && (bass.Some? ==> 0 <= k < |name| && bass.value == name[k + 1..])
  }

  /** A key and a quality text free of backslashes leave the bass after the only one. */
  lemma CutAtBackslash(key: string, qm: string, bass: Option<string>)
    requires '\\' !in key && '\\' !in qm
    ensures BassAt(key + (qm + BassText(bass)), bass)
  {
    var body := qm + BassText(bass);
    BassCut(qm, bass);
    IndexOfAppend(key, body, '\\');
    IndexOfSpec(body, '\\');
    if bass.Some? {
      DropAppend(key, body, |qm| + 1);
    }
  }

  /** The bass of a spelled symbol sits after the spelling's only backslash. */
  lemma SpelledBass(sym: Symbol)
    requires WellFormed(sym)
    ensures BassAt(Spell(sym), sym.bass)
  {
    var qm := QText(sym) + MText(sym);
    assert Spell(sym) == sym.key + (qm + BassText(sym.bass)) by {
      BodyParts(sym);
    }
    assert '\\' !in qm by {
      SymbolPunctuation(sym);
    }
    assert '\\' !in sym.key by {
      NotePlain(sym.key);
    }
    CutAtBackslash(sym.key, qm, sym.bass);
  }

  /**
   * The bass of fields read from `name`: the text after the name's first
   * backslash when it has one, and the key otherwise.
   */
  predicate BassRule(name: string, f: ChordFields)
  {
    var k := IndexOf(name, '\\');
    && (k == -1 ==> f.bass == f.key)
    && (k != -1 ==> 0 <= k < |name| && f.bass == name[k + 1..])
  }

  /** The fields read from a spelled symbol take the bass from after the backslash. */
  lemma FieldsBass(name: string, sym: Symbol, f: ChordFields)
    requires WellFormed(sym) && Spell(sym) == name && f == FieldsOf(sym)
    ensures BassRule(name, f)
  {
    SpelledBass(sym);
  }

  /**
   * Lines 65-72: after `fromString` the bass is the text after the
   * backslash when the name has one, and the key otherwise.
   */
  lemma BassAfterBackslash(name: string, f: ChordFields)
    requires Interpret(name) == Success(f)
    ensures BassRule(name, f)
  {
    FieldsBass(name, Recognize(name).value, f);
  }

}
