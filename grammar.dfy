/**
 * The grammar a chord symbol must match before it is parsed
 * (app/src/lib/chords/Chord.ts, lines 8-17):
 *
 *   note ( m? additions? | additions? post-quality ) ( "(" mods ")" )? ( "\" note )?
 *
 * where additions and mods are tokens of fixed vocabularies joined by "/".
 * A `Symbol` is one decomposition along that grammar and `Spell` writes it
 * out; the grammar's language is the set of spellings of well-formed
 * symbols. `Recognize` is a deterministic lexer for the same language: its
 * contract says every symbol it returns spells the input (soundness) and
 * `RecognizeSpell` says it finds every well-formed symbol (completeness).
 */
module ChordGrammar {
  import opened Wrappers
  import opened JsText

  /** The note alternatives, in the order the pattern tries them (two-character names first). */
  const NoteNames: seq<string> :=
    ["A#", "C#", "D#", "F#", "G#", "Ab", "Bb", "Db", "Eb", "Gb", "A", "B", "C", "D", "E", "F", "G"]
  /** Qualities written after the additions. */
  const PostQualities: seq<string> := ["aug", "dim", "sus2", "sus4"]
  const AddTokens: seq<string> := ["2", "4", "5", "6", "maj6", "maj7", "7", "maj9", "9", "11", "13"]
  const ModTokens: seq<string> := ["b3", "#4", "#5", "b5", "b6", "b9", "#9", "#11", "b13", "maj6", "maj7"]

  /** One decomposition of a chord symbol along the grammar. */
  datatype Symbol = Symbol(
    key: string,
    minor: bool,            // the "m" written right after the key
    adds: seq<string>,      // the additions, empty when absent
    post: string,           // a quality written after the additions, "" when absent
    mods: seq<string>,      // the parenthesised modifications, empty when absent
    bass: Option<string>)   // the note after the backslash

  predicate AllIn(ts: seq<string>, vocab: seq<string>)
  {
    forall k :: 0 <= k < |ts| ==> ts[k] in vocab
  }

  predicate WellFormed(sym: Symbol)
  {
    && sym.key in NoteNames
    && AllIn(sym.adds, AddTokens)
    && (sym.post == "" || sym.post in PostQualities)
    && (sym.minor ==> sym.post == "")
    && AllIn(sym.mods, ModTokens)
    && (sym.bass.Some? ==> sym.bass.value in NoteNames)
  }

  /** The quality-and-additions part, followed by `rest`. */
  function QualityText(minor: bool, adds: seq<string>, post: string, rest: string): string
  {
    (if minor then "m" else "") + (Join(adds, '/') + (post + rest))
  }

  /** The optional parenthesised modification block, followed by `rest`. */
  function ModsText(mods: seq<string>, rest: string): string
  {
    if mods == [] then rest else "(" + (Join(mods, '/') + (")" + rest))
  }

  function BassText(bass: Option<string>): string
  {
    match bass
    case None => ""
    case Some(b) => "\\" + b
  }

  /** Everything after the key. */
  function Body(sym: Symbol): string
  {
    QualityText(sym.minor, sym.adds, sym.post, ModsText(sym.mods, BassText(sym.bass)))
  }

  function Spell(sym: Symbol): string
  {
    sym.key + Body(sym)
  }

  // ---------------------------------------------------------------- lexer

  /** The first token of `vocab` that `s` starts with. */
  function LexToken(s: string, vocab: seq<string>): (r: Option<string>)
    ensures r.Some? ==> r.value in vocab && r.value <= s
    ensures r.None? ==> forall k :: 0 <= k < |vocab| ==> !(vocab[k] <= s)
  {
    if |vocab| == 0 then None
    else if vocab[0] <= s then Some(vocab[0])
    else
      var r := LexToken(s, vocab[1..]);
      assert forall k :: 1 <= k < |vocab| ==> vocab[k] == vocab[1..][k - 1];
      r
  }

  /** `token ("/" token)*` at the start of `s`, with what follows it. */
  function LexList(s: string, vocab: seq<string>): (r: Option<(seq<string>, string)>)
    ensures r.Some? ==>
      && |r.value.0| >= 1
      && AllIn(r.value.0, vocab)
      && s == Join(r.value.0, '/') + r.value.1
      && (r.value.1 == [] || r.value.1[0] != '/')
    decreases |s|
  {
    match LexToken(s, vocab)
    case None => None
    case Some(t) =>
      var rest := s[|t|..];
      assert s == t + rest;
      if |rest| > 0 && rest[0] == '/' then
        match LexList(rest[1..], vocab)
        case None => None
        case Some((ts, r)) =>
          LexListStep(s, t, rest, ts, r, vocab);
          Some(([t] + ts, r))
      else Some(([t], rest))
  }

  /** A token, a '/' and a lexed list make a longer lexed list. */
  lemma LexListStep(s: string, t: string, rest: string, ts: seq<string>, r: string, vocab: seq<string>)
    requires s == t + rest && |rest| > 0 && rest[0] == '/'
    requires t in vocab && |ts| >= 1 && AllIn(ts, vocab) && rest[1..] == Join(ts, '/') + r
    ensures AllIn([t] + ts, vocab) && s == Join([t] + ts, '/') + r
  {
    var u := [t] + ts;
    assert Join(u, '/') == t + ['/'] + Join(ts, '/') by {
      assert u[0] == t && u[1..] == ts;
    }
    assert s == t + (['/'] + (Join(ts, '/') + r)) by {
      assert rest == ['/'] + rest[1..];
    }
    Reassoc(t, ['/'], Join(ts, '/'), r);
    AllInCons(t, ts, vocab);
  }

  lemma Reassoc<T>(a: seq<T>, b: seq<T>, c: seq<T>, d: seq<T>)
    ensures a + (b + (c + d)) == a + b + c + d
  {
  }

  lemma AllInCons(t: string, ts: seq<string>, vocab: seq<string>)
    requires t in vocab && AllIn(ts, vocab)
    ensures AllIn([t] + ts, vocab)
  {
    forall k | 0 <= k < |ts| + 1 ensures ([t] + ts)[k] in vocab {
      if k > 0 {
        assert ([t] + ts)[k] == ts[k - 1];
      }
    }
  }

  /** The minor marker: an "m" that does not begin "maj". */
  function LexMinor(s: string): (r: (bool, string))
    ensures s == (if r.0 then "m" else "") + r.1
  {
    var minor := "m" <= s && !("maj" <= s);
    (minor, if minor then s[1..] else s)
  }

  /** Optional additions. */
  function LexAdds(s: string): (r: Option<(seq<string>, string)>)
    ensures r.Some? ==> AllIn(r.value.0, AddTokens) && s == Join(r.value.0, '/') + r.value.1
  {
    if LexToken(s, AddTokens).None? then Some(([], s)) else LexList(s, AddTokens)
  }

  /** A quality after the additions; never looked for once the minor marker was seen. */
  function LexPost(minor: bool, s: string): (r: (string, string))
    ensures (r.0 == "" || r.0 in PostQualities) && (minor ==> r.0 == "") && s == r.0 + r.1
  {
    var p := if minor then None else LexToken(s, PostQualities);
    if p.Some? then
      assert s == p.value + s[|p.value|..];
      (p.value, s[|p.value|..])
    else ("", s)
  }

  /** `m? additions? | additions? post-quality`, with what follows it. */
  function LexQuality(s: string): (r: Option<(bool, seq<string>, string, string)>)
    ensures r.Some? ==>
      var (minor, adds, post, rest) := r.value;
      && AllIn(adds, AddTokens)
      && (post == "" || post in PostQualities)
      && (minor ==> post == "")
      && s == QualityText(minor, adds, post, rest)
  {
    var (minor, s2) := LexMinor(s);
    match LexAdds(s2)
    case None => None
    case Some((adds, s3)) =>
      var (post, s4) := LexPost(minor, s3);
      Some((minor, adds, post, s4))
  }

  /** An optional `(mod/mod/...)` block, with what follows it. */
  function LexMods(s: string): (r: Option<(seq<string>, string)>)
    ensures r.Some? ==> AllIn(r.value.0, ModTokens) && s == ModsText(r.value.0, r.value.1)
  {
    if "(" <= s then
      assert s == "(" + s[1..];
      match LexList(s[1..], ModTokens)
      case None => None
      case Some((mods, rest)) =>
        if ")" <= rest then
          assert rest == ")" + rest[1..];
          Some((mods, rest[1..]))
        else None
    else Some(([], s))
  }

  /** An optional `\note` that must end the symbol. */
  function LexBass(s: string): (r: Option<Option<string>>)
    ensures r.Some? ==> (r.value.Some? ==> r.value.value in NoteNames) && s == BassText(r.value)
  {
    if "\\" <= s then
      match LexToken(s[1..], NoteNames)
      case None => None
      case Some(b) =>
        if |s| == 1 + |b| then
          assert s == "\\" + b;
          Some(Some(b))
        else None
    else if s == "" then Some(None)
    else None
  }

  /**
   * The chord-symbol grammar as a deterministic lexer. Sound: whatever it
   * returns is a well-formed symbol that spells the input exactly.
   */
  function Recognize(s: string): (r: Option<Symbol>)
    ensures r.Some? ==> WellFormed(r.value) && Spell(r.value) == s
  {
    match LexToken(s, NoteNames)
    case None => None
    case Some(key) =>
      var s1 := s[|key|..];
      assert s == key + s1;
      match LexQuality(s1)
      case None => None
      case Some((minor, adds, post, s2)) =>
        match LexMods(s2)
        case None => None
        case Some((mods, s3)) =>
          match LexBass(s3)
          case None => None
          case Some(bass) =>
            Some(Symbol(key, minor, adds, post, mods, bass))
  }

  /** The pattern test: true exactly for the spellings of well-formed symbols. */
  predicate MatchesChordPattern(s: string)
  {
    Recognize(s).Some?
  }

  // ---------------------------------------------------------------- completeness

  /** No token of the vocabulary is a proper prefix of another. */
  predicate PrefixFree(vocab: seq<string>)
  {
    forall u, t :: u in vocab && t in vocab && u <= t ==> u == t
  }

  lemma PrefixChars(u: string, t: string)
    ensures u <= t ==> (|u| == |t| ==> u == t) && (|u| >= 1 ==> u[0] == t[0]) && (|u| >= 2 ==> u[1] == t[1])
  {
  }

  lemma VocabulariesPrefixFree()
    ensures PrefixFree(AddTokens) && PrefixFree(ModTokens) && PrefixFree(PostQualities)
  {
    forall u, t | u in AddTokens && t in AddTokens ensures u <= t ==> u == t { PrefixChars(u, t); }
    forall u, t | u in ModTokens && t in ModTokens ensures u <= t ==> u == t { PrefixChars(u, t); }
    forall u, t | u in PostQualities && t in PostQualities ensures u <= t ==> u == t { PrefixChars(u, t); }
  }

  /** The lexer takes the only vocabulary token that starts `s`. */
  lemma {:induction false} LexOnly(s: string, vocab: seq<string>, t: string)
    requires t in vocab && t <= s
    requires forall k :: 0 <= k < |vocab| && vocab[k] <= s ==> vocab[k] == t
    ensures LexToken(s, vocab) == Some(t)
  {
    if vocab[0] != t {
      assert !(vocab[0] <= s);
      assert forall k :: 0 <= k < |vocab[1..]| ==> vocab[1..][k] == vocab[k + 1];
      LexOnly(s, vocab[1..], t);
    }
  }

  /** Two prefixes of one string: the shorter is a prefix of the longer. */
  lemma PrefixesNested(u: string, t: string, s: string)
    requires u <= s && t <= s && |u| <= |t|
    ensures u <= t
  {
    assert u == s[..|u|] == t[..|u|];
  }

  lemma LexPrefixFree(t: string, rest: string, vocab: seq<string>)
    requires PrefixFree(vocab) && t in vocab
    ensures LexToken(t + rest, vocab) == Some(t)
  {
    var s := t + rest;
    assert t <= s;
    forall k | 0 <= k < |vocab| && vocab[k] <= s ensures vocab[k] == t {
      assert vocab[k] in vocab;
      if |vocab[k]| <= |t| {
        PrefixesNested(vocab[k], t, s);
      } else {
        PrefixesNested(t, vocab[k], s);
      }
    }
    LexOnly(s, vocab, t);
  }

  /** Neither '#' nor 'b' can follow a key, so a key is lexed whole. */
  lemma LexNote(key: string, rest: string)
    requires key in NoteNames
    requires rest == [] || (rest[0] != '#' && rest[0] != 'b')
    ensures LexToken(key + rest, NoteNames) == Some(key)
  {
    var s := key + rest;
    assert key <= s;
    if |key| == 2 {
      LexFirstTwo(s, key);
    } else {
      forall k | 0 <= k < |NoteNames| && NoteNames[k] <= s ensures NoteNames[k] == key {
        var u := NoteNames[k];
        assert u in NoteNames;
        NoteStart(u);
        if |u| <= |key| {
          PrefixesNested(u, key, s);
        }
      }
      LexOnly(s, NoteNames, key);
    }
  }

  /** A two-character key wins over its one-character prefix because it is tried first. */
  lemma LexFirstTwo(s: string, key: string)
    requires key in NoteNames && |key| == 2 && key <= s
    ensures LexToken(s, NoteNames) == Some(key)
  {
    var twos := NoteNames[..10];
    assert NoteNames == twos + NoteNames[10..];
    assert key in twos;
    forall k | 0 <= k < |twos| && twos[k] <= s ensures twos[k] == key {
      PrefixesNested(twos[k], key, s);
    }
    LexOnly(s, twos, key);
    LexPrefixOfVocab(s, twos, NoteNames[10..]);
  }

  lemma {:induction false} LexPrefixOfVocab(s: string, front: seq<string>, back: seq<string>)
    requires LexToken(s, front).Some?
    ensures LexToken(s, front + back) == LexToken(s, front)
  {
    if !(front[0] <= s) {
      assert (front + back)[1..] == front[1..] + back;
      LexPrefixOfVocab(s, front[1..], back);
    }
  }

  lemma {:induction false} LexListJoin(ts: seq<string>, rest: string, vocab: seq<string>)
    requires PrefixFree(vocab) && |ts| >= 1 && AllIn(ts, vocab)
    requires rest == [] || rest[0] != '/'
    ensures LexList(Join(ts, '/') + rest, vocab) == Some((ts, rest))
    decreases |ts|
  {
    var s := Join(ts, '/') + rest;
    var t := ts[0];
    if |ts| == 1 {
      assert ts == [t] && s == t + rest;
      LexPrefixFree(t, rest, vocab);
      assert s[|t|..] == rest;
    } else {
      var tail := Join(ts[1..], '/') + rest;
      assert s == t + ("/" + tail);
      LexPrefixFree(t, "/" + tail, vocab);
      assert s[|t|..] == "/" + tail;
      assert ("/" + tail)[1..] == tail;
      LexListJoin(ts[1..], rest, vocab);
      assert [t] + ts[1..] == ts;
    }
  }

  /** How the tokens of each vocabulary begin. */
  lemma AddTokenStart(t: string)
    requires t in AddTokens
    ensures |t| >= 1 && t[0] in "m0123456789" && (t[0] == 'm' ==> |t| >= 3 && t[..3] == "maj")
  {
  }

  lemma ModTokenStart(t: string)
    requires t in ModTokens
    ensures |t| >= 2 && t[0] in "#bm"
  {
  }

  lemma PostStart(t: string)
    requires t in PostQualities
    ensures |t| >= 3 && t[0] in "ads"
  {
  }

  lemma NoteStart(t: string)
    requires t in NoteNames
    ensures 1 <= |t| <= 2 && t[0] in "ABCDEFG" && (|t| == 2 ==> t[1] in "#b")
  {
  }

  /** A token holds none of the grammar's punctuation. */
  predicate Plain(t: string)
  {
    '(' !in t && ')' !in t && '\\' !in t && '/' !in t
  }

  lemma AddTokenPlain(t: string)
    requires t in AddTokens
    ensures Plain(t)
  {
  }

  lemma ModTokenPlain(t: string)
    requires t in ModTokens
    ensures Plain(t)
  {
  }

  lemma PostPlain(t: string)
    requires t in PostQualities
    ensures Plain(t)
  {
  }

  lemma NotePlain(t: string)
    requires t in NoteNames
    ensures Plain(t)
  {
  }

  /** Joining plain tokens with '/' adds no other punctuation. */
  lemma JoinPlain(ts: seq<string>)
    requires forall k :: 0 <= k < |ts| ==> Plain(ts[k])
    ensures '(' !in Join(ts, '/') && ')' !in Join(ts, '/') && '\\' !in Join(ts, '/')
  {
    forall c | c in "()\\" && c in Join(ts, '/') ensures false {
      InJoin(ts, '/', c);
    }
  }

  lemma AddsPlain(ts: seq<string>)
    requires AllIn(ts, AddTokens)
    ensures forall k :: 0 <= k < |ts| ==> Plain(ts[k])
  {
    forall k | 0 <= k < |ts| ensures Plain(ts[k]) { AddTokenPlain(ts[k]); }
  }

  lemma ModsPlain(ts: seq<string>)
    requires AllIn(ts, ModTokens)
    ensures forall k :: 0 <= k < |ts| ==> Plain(ts[k])
  {
    forall k | 0 <= k < |ts| ensures Plain(ts[k]) { ModTokenPlain(ts[k]); }
  }

  /** The quality part holds no parenthesis and no backslash. */
  lemma QualityPlain(minor: bool, adds: seq<string>, post: string)
    requires AllIn(adds, AddTokens) && (post == "" || post in PostQualities)
    ensures var q := QualityText(minor, adds, post, "");
      '(' !in q && ')' !in q && '\\' !in q
  {
    AddsPlain(adds);
    JoinPlain(adds);
    if post != "" {
      PostPlain(post);
    }
    var q := QualityText(minor, adds, post, "");
    assert q == (if minor then "m" else "") + Join(adds, '/') + post;
  }

  /** The spellings are right-nested; these re-associate them. */
  lemma QualityTextAppend(minor: bool, adds: seq<string>, post: string, rest: string)
    ensures QualityText(minor, adds, post, rest) == QualityText(minor, adds, post, "") + rest
  {
    assert post + rest == (post + "") + rest;
  }

  lemma ModsTextAppend(mods: seq<string>, rest: string)
    ensures ModsText(mods, rest) == ModsText(mods, "") + rest
  {
    if mods != [] {
      assert ")" + rest == (")" + "") + rest;
    }
  }

  lemma JoinStart(ts: seq<string>, sep: char, rest: string)
    requires |ts| >= 1
    ensures ts[0] <= Join(ts, sep) + rest
  {
  }

  /** What can follow the additions: a post-quality, a modification block, a bass, or nothing. */
  predicate AfterAdds(s: string)
  {
    s == [] || s[0] in "ads(\\"
  }

  lemma AfterAddsOf(post: string, rest: string)
    requires post == "" || post in PostQualities
    requires AfterQuality(rest)
    ensures AfterAdds(post + rest)
  {
    if post != "" { PostStart(post); }
  }

  /** The minor marker is recognised exactly when it was written, even before a "maj" addition. */
  lemma LexMinorText(minor: bool, adds: seq<string>, after: string)
    requires AllIn(adds, AddTokens) && AfterAdds(after)
    requires minor && adds == [] ==> AfterQuality(after)
    ensures LexMinor((if minor then "m" else "") + (Join(adds, '/') + after)) == (minor, Join(adds, '/') + after)
  {
    var s2 := Join(adds, '/') + after;
    AddsStart(adds, after);
    if minor {
      var s := "m" + s2;
      assert s[1..] == s2;
      assert !("maj" <= s) by {
        if |s| >= 3 {
          assert s[1] == s2[0];
        }
      }
      assert LexMinor(s) == (true, s2);
    } else {
      assert "" + s2 == s2;
    }
  }

  /** What the additions and their follower start with, as far as the minor marker cares. */
  lemma AddsStart(adds: seq<string>, after: string)
    requires AllIn(adds, AddTokens) && AfterAdds(after)
    ensures var s2 := Join(adds, '/') + after;
      && (s2 == [] || s2[0] != 'a' || (adds == [] && after == s2))
      && ("m" <= s2 ==> "maj" <= s2)
  {
    var s2 := Join(adds, '/') + after;
    if adds != [] {
      var a := adds[0];
      AddTokenStart(a);
      JoinStart(adds, '/', after);
      PrefixChars(a, s2);
      if a[0] == 'm' {
        assert s2[..3] == a[..3];
      }
    } else {
      assert s2 == after;
    }
  }

  lemma LexNone(s: string, vocab: seq<string>)
    requires forall t :: t in vocab ==> !(t <= s)
    ensures LexToken(s, vocab).None?
  {
  }

  /** No addition starts where the additions may be followed. */
  lemma NoAddAt(s: string)
    requires AfterAdds(s)
    ensures LexToken(s, AddTokens).None?
  {
    forall t | t in AddTokens ensures !(t <= s) {
      AddTokenStart(t);
      PrefixChars(t, s);
    }
    LexNone(s, AddTokens);
  }

  /** The additions are lexed whole, and none are found where none were written. */
  lemma LexAddsText(adds: seq<string>, after: string)
    requires AllIn(adds, AddTokens) && AfterAdds(after)
    ensures LexAdds(Join(adds, '/') + after) == Some((adds, after))
  {
    var s := Join(adds, '/') + after;
    if adds == [] {
      assert s == after;
      NoAddAt(after);
    } else {
      VocabulariesPrefixFree();
      JoinStart(adds, '/', after);
      assert s == adds[0] + s[|adds[0]|..];
      LexPrefixFree(adds[0], s[|adds[0]|..], AddTokens);
      LexListJoin(adds, after, AddTokens);
    }
  }

  /** What can follow the qualities: a modification block, a bass, or nothing. */
  predicate AfterQuality(s: string)
  {
    s == [] || s[0] == '(' || s[0] == '\\'
  }

  lemma LexPostText(minor: bool, post: string, rest: string)
    requires (post == "" || post in PostQualities) && (minor ==> post == "") && AfterQuality(rest)
    ensures LexPost(minor, post + rest) == (post, rest)
  {
    if minor {
      assert post + rest == rest;
    } else if post != "" {
      VocabulariesPrefixFree();
      LexPrefixFree(post, rest, PostQualities);
      assert (post + rest)[|post|..] == rest;
    } else {
      assert post + rest == rest;
      forall k | 0 <= k < |PostQualities| ensures !(PostQualities[k] <= rest) {
        PostStart(PostQualities[k]);
        PrefixChars(PostQualities[k], rest);
      }
    }
  }

  lemma LexQualityText(minor: bool, adds: seq<string>, post: string, rest: string)
    requires AllIn(adds, AddTokens) && (post == "" || post in PostQualities) && (minor ==> post == "")
    requires AfterQuality(rest)
    ensures LexQuality(QualityText(minor, adds, post, rest)) == Some((minor, adds, post, rest))
  {
    AfterAddsOf(post, rest);
    LexMinorText(minor, adds, post + rest);
    LexAddsText(adds, post + rest);
    LexPostText(minor, post, rest);
  }

  /** A modification block or a bass starts with '(' or '\\'. */
  lemma ModsBassStart(mods: seq<string>, bass: Option<string>)
    ensures AfterQuality(ModsText(mods, BassText(bass)))
  {
  }

  lemma LexModsText(mods: seq<string>, rest: string)
    requires AllIn(mods, ModTokens)
    requires rest == [] || rest[0] == '\\'
    ensures LexMods(ModsText(mods, rest)) == Some((mods, rest))
  {
    if mods != [] {
      VocabulariesPrefixFree();
      var s := ModsText(mods, rest);
      var inner := Join(mods, '/') + (")" + rest);
      assert s[1..] == inner;
      LexListJoin(mods, ")" + rest, ModTokens);
      assert (")" + rest)[1..] == rest;
    }
  }

  lemma LexBassText(bass: Option<string>)
    requires bass.Some? ==> bass.value in NoteNames
    ensures LexBass(BassText(bass)) == Some(bass)
  {
    if bass.Some? {
      var b := bass.value;
      var s := "\\" + b;
      assert "\\" <= s;
      assert s[1..] == b + "";
      LexNote(b, "");
      assert LexToken(s[1..], NoteNames) == Some(b);
    }
  }

  /** A quality text whose first addition and tail start as the grammar allows starts with neither '#' nor 'b'. */
  lemma QualityStart(minor: bool, adds: seq<string>, after: string)
    requires adds != [] ==> |adds[0]| >= 1 && adds[0][0] in "m0123456789"
    requires AfterAdds(after)
    ensures var b := (if minor then "m" else "") + (Join(adds, '/') + after);
      b == [] || (b[0] != '#' && b[0] != 'b')
  {
    var s2 := Join(adds, '/') + after;
    if adds != [] {
      JoinStart(adds, '/', after);
      PrefixChars(adds[0], s2);
    }
    if minor {
      assert ("m" + s2)[0] == 'm';
    } else {
      assert "" + s2 == s2;
    }
  }

  /** Whatever follows a key starts with none of '#' and 'b'. */
  lemma BodyStart(sym: Symbol)
    requires WellFormed(sym)
    ensures Body(sym) == [] || (Body(sym)[0] != '#' && Body(sym)[0] != 'b')
  {
    var rest := ModsText(sym.mods, BassText(sym.bass));
    ModsBassStart(sym.mods, sym.bass);
    AfterAddsOf(sym.post, rest);
    if sym.adds != [] {
      AddTokenStart(sym.adds[0]);
    }
    QualityStart(sym.minor, sym.adds, sym.post + rest);
  }

  /** Completeness: every well-formed symbol is recognised from its spelling. */
  lemma RecognizeSpell(sym: Symbol)
    requires WellFormed(sym)
    ensures Recognize(Spell(sym)) == Some(sym)
  {
    var s := Spell(sym);
    BodyStart(sym);
    LexNote(sym.key, Body(sym));
    assert s[|sym.key|..] == Body(sym);
    var b := BassText(sym.bass);
    var rest := ModsText(sym.mods, b);
    ModsBassStart(sym.mods, sym.bass);
    LexQualityText(sym.minor, sym.adds, sym.post, rest);
    LexModsText(sym.mods, b);
    LexBassText(sym.bass);
  }

  /** The grammar test holds exactly for spellings of well-formed symbols. */
  lemma MatchesIffSpelled(s: string)
    ensures MatchesChordPattern(s) <==> exists sym :: WellFormed(sym) && Spell(sym) == s
  {
    if exists sym :: WellFormed(sym) && Spell(sym) == s {
      var sym :| WellFormed(sym) && Spell(sym) == s;
      RecognizeSpell(sym);
    }
  }
}
