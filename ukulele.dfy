/**
 * The ukulele voicing search of app/src/lib/chords/Ukulele.ts: the pitch
 * classes a chord asks for, the frets of each string that sound one of
 * them, the search over every combination of those frets, and the finger
 * placements of the best-scoring voicing.
 */
module Ukulele {
  import opened Wrappers
  import opened JsText
  import opened NoteTables
  import opened ChordParse
  import opened ChordModel

  /** The highest fret searched. */
  const MaxFret := 12
  /** The widest distance between fretted notes a hand can hold. */
  const MaxSpan := 6
  /** The default tuning, strings 1 to 4. */
  const StandardTuning: seq<string> := ["G", "C", "E", "A"]

  // ---------------------------------------------------------------- pitch classes

  /**
   * `fretToSemitone`: the pitch class a string tuned to `openNote` sounds at
   * `fret`, taken with JavaScript's `%`.
   */
  function FretToSemitone(openNote: string, fret: int): (r: int)
    ensures -12 < r < 12
  {
    JsRem(NoteToSemitone(openNote) + fret, 12)
  }

  /** A known string at a fret from 0 up sounds a pitch class in 0..11, congruent to its open note plus the fret. */
  lemma FretInOctave(openNote: string, fret: int)
    requires NoteToSemitone(openNote) >= 0 && fret >= 0
    ensures var r := FretToSemitone(openNote, fret);
      0 <= r < 12 && (NoteToSemitone(openNote) + fret - r) % 12 == 0
  {
  }

  /** Twelve frets higher sounds the same pitch class. */
  lemma FretOctave(openNote: string, fret: int)
    requires NoteToSemitone(openNote) + fret >= 0
    ensures FretToSemitone(openNote, fret + MaxFret) == FretToSemitone(openNote, fret)
  {
    var n := NoteToSemitone(openNote) + fret;
    ModOfMultiple(n + 12, 12, n / 12 + 1, n % 12);
  }

  /** Two tunings with the same semitone sound the same at every fret. */
  lemma FretSameSemitone(a: string, b: string, fret: int)
    requires NoteToSemitone(a) == NoteToSemitone(b)
    ensures FretToSemitone(a, fret) == FretToSemitone(b, fret)
  {
  }

  /** A string tuned to either spelling of a pitch class sounds the same at every fret. */
  lemma FretEnharmonic(i: int, fret: int)
    requires 0 <= i < 12
    ensures FretToSemitone(NotesUp[i], fret) == FretToSemitone(NotesDown[i], fret)
  {
    TablesAgree(i);
    FretSameSemitone(NotesUp[i], NotesDown[i], fret);
  }

  /** An open string whose tuning is in neither table sounds -1, which no known key asks for. */
  lemma FretUnknownOpen(openNote: string)
    requires openNote !in NotesUp && openNote !in NotesDown
    ensures FretToSemitone(openNote, 0) == -1
  {
    SemitoneSpec(openNote);
  }

  // ---------------------------------------------------------------- intervals

  /** The triad `getChordIntervals` starts from: by type, and major for any type it does not list. */
  function BaseIntervals(quality: string): set<int>
  {
    if quality == "m" then {0, 3, 7}
    else if quality == "aug" then {0, 4, 8}
    else if quality == "dim" then {0, 3, 6}
    else if quality == "sus2" then {0, 2, 7}
    else if quality == "sus4" then {0, 5, 7}
    else {0, 4, 7}
  }

  /** The intervals an addition other than '5' puts into the set. */
  function AddedBy(a: string): set<int>
  {
    if a == "2" then {2}
    else if a == "4" then {5}
    else if a == "6" || a == "maj6" then {9}
    else if a == "7" then {10}
    else if a == "maj7" then {11}
    else if a == "9" then {10, 2}
    else if a == "maj9" then {11, 2}
    else if a == "11" then {10, 2, 5}
    else if a == "13" then {10, 2, 5, 9}
    else {}
  }

  /** One addition: '5' makes a power chord of the whole set, any other adds its intervals. */
  function AfterAddition(s: set<int>, a: string): set<int>
  {
    if a == "5" then {0, 7} else s + AddedBy(a)
  }

  /** The additions, applied in order. */
  function AfterAdditions(s: set<int>, adds: seq<string>): set<int>
    decreases |adds|
  {
    if adds == [] then s
    else AfterAddition(AfterAdditions(s, adds[..|adds| - 1]), adds[|adds| - 1])
  }

  /** The interval a modification takes out before adding its own. */
  function RemovedBy(m: string): set<int>
  {
    if m == "b3" then {4}
    else if m == "#5" || m == "b5" then {7}
    else if m == "maj7" then {10}
    else {}
  }

  /** The interval a modification puts in. */
  function AddedByModification(m: string): set<int>
  {
    if m == "b3" || m == "#9" then {3}
    else if m == "#4" || m == "b5" || m == "#11" then {6}
    else if m == "#5" || m == "b6" || m == "b13" then {8}
    else if m == "b9" then {1}
    else if m == "maj6" then {9}
    else if m == "maj7" then {11}
    else {}
  }

  /** One modification: delete what it replaces, then add its interval. */
  function AfterModification(s: set<int>, m: string): set<int>
  {
    (s - RemovedBy(m)) + AddedByModification(m)
  }

  /** The modifications, applied in order. */
  function AfterModifications(s: set<int>, mods: seq<string>): set<int>
    decreases |mods|
  {
    if mods == [] then s
    else AfterModification(AfterModifications(s, mods[..|mods| - 1]), mods[|mods| - 1])
  }

  /** The interval set `getChordIntervals` builds for a type, its additions and its modifications. */
  function Intervals(quality: string, adds: seq<string>, mods: seq<string>): set<int>
  {
    AfterModifications(AfterAdditions(BaseIntervals(quality), adds), mods)
  }

  /** Holds the root and only pitch classes above it. */
  predicate RootedInOctave(s: set<int>)
  {
    0 in s && forall x :: x in s ==> 0 <= x < 12
  }

  lemma {:induction false} AdditionsRooted(s: set<int>, adds: seq<string>)
    requires RootedInOctave(s)
    ensures RootedInOctave(AfterAdditions(s, adds))
  {
    if adds != [] {
      AdditionsRooted(s, adds[..|adds| - 1]);
    }
  }

  lemma {:induction false} ModificationsRooted(s: set<int>, mods: seq<string>)
    requires RootedInOctave(s)
    ensures RootedInOctave(AfterModifications(s, mods))
  {
    if mods != [] {
      ModificationsRooted(s, mods[..|mods| - 1]);
    }
  }

  /** Every interval set holds the root and lies within one octave. */
  lemma IntervalsRooted(quality: string, adds: seq<string>, mods: seq<string>)
    ensures RootedInOctave(Intervals(quality, adds, mods))
  {
    AdditionsRooted(BaseIntervals(quality), adds);
    ModificationsRooted(AfterAdditions(BaseIntervals(quality), adds), mods);
  }

  /** A '5' among the additions discards everything before it: what follows starts from {0, 7}. */
  lemma {:induction false} PowerChordResets(s: set<int>, adds: seq<string>, k: int)
    requires 0 <= k < |adds| && adds[k] == "5"
    ensures AfterAdditions(s, adds) == AfterAdditions({0, 7}, adds[k + 1..])
  {
    var n := |adds|;
    if k < n - 1 {
      PowerChordResets(s, adds[..n - 1], k);
      assert adds[..n - 1][k + 1..] == adds[k + 1..][..n - 1 - (k + 1)];
    } else {
      assert adds[k + 1..] == [];
    }
  }

  /** With a '5' among the additions, the chord type no longer matters. */
  lemma PowerChordIgnoresType(q1: string, q2: string, adds: seq<string>, mods: seq<string>)
    requires "5" in adds
    ensures Intervals(q1, adds, mods) == Intervals(q2, adds, mods)
  {
    var k :| 0 <= k < |adds| && adds[k] == "5";
    PowerChordResets(BaseIntervals(q1), adds, k);
    PowerChordResets(BaseIntervals(q2), adds, k);
  }

  /**
   * The last modification wins over what came before: the interval it
   * replaces is gone and its own interval is there.
   */
  lemma LastModificationWins(quality: string, adds: seq<string>, mods: seq<string>)
    requires mods != []
    ensures var r, m := Intervals(quality, adds, mods), mods[|mods| - 1];
      && (forall x :: x in RemovedBy(m) ==> x !in r)
      && (forall x :: x in AddedByModification(m) ==> x in r)
  {
  }

  /** Flattening the third of a major triad gives the minor triad, sharpening its fifth the augmented one. */
  lemma ReplacementsSpellTriads()
    ensures Intervals("", [], ["b3"]) == Intervals("m", [], [])
    ensures Intervals("", [], ["#5"]) == Intervals("aug", [], [])
    ensures Intervals("m", [], ["b5"]) == Intervals("dim", [], [])
  {
    assert ["b3"][..0] == [] && ["#5"][..0] == [] && ["b5"][..0] == [];
  }

  /**
   * `Array.from(s).sort((a, b) => a - b)` for a set whose values lie in
   * [0, n): its elements in ascending order.
   */
  function SortedBelow(s: set<int>, n: int): (r: seq<int>)
    ensures forall j, k :: 0 <= j < k < |r| ==> r[j] < r[k]
    ensures forall x :: x in r <==> x in s && 0 <= x < n
    ensures forall j :: 0 <= j < |r| ==> 0 <= r[j] < n
    decreases n
  {
    if n <= 0 then []
    else SortedBelow(s, n - 1) + if n - 1 in s then [n - 1] else []
  }

  /** Line 147: `Array.from(intervals).sort((a, b) => a - b)` on a set holding 0 and lying in [0, 12). */
  method SortIntervals(intervals: set<int>) returns (r: seq<int>)
    requires RootedInOctave(intervals)
    ensures forall x :: x in r <==> x in intervals
    ensures forall j, k :: 0 <= j < k < |r| ==> r[j] < r[k]
    ensures r != [] && r[0] == 0 && r[|r| - 1] < 12
  {
    r := SortedBelow(intervals, 12);
    assert 0 in r;
  }

  /** Lines 60-101: one pass of the additions switch over the set. */
  method AddInterval(intervals: set<int>, a: string) returns (next: set<int>)
    ensures next == AfterAddition(intervals, a)
  {
    next := intervals;
    if a == "2" {
      next := next + {2};
    } else if a == "4" {
      next := next + {5};
    } else if a == "5" {
      next := {0, 7};
    } else if a == "6" || a == "maj6" {
      next := next + {9};
    } else if a == "7" {
      next := next + {10};
    } else if a == "maj7" {
      next := next + {11};
    } else if a == "9" {
      next := next + {10};
      next := next + {2};
    } else if a == "maj9" {
      next := next + {11};
      next := next + {2};
    } else if a == "11" {
      next := next + {10};
      next := next + {2};
      next := next + {5};
    } else if a == "13" {
      next := next + {10};
      next := next + {2};
      next := next + {5};
      next := next + {9};
    }
  }

  /** Lines 105-144: one pass of the modifications switch over the set. */
  method ModifyInterval(intervals: set<int>, m: string) returns (next: set<int>)
    ensures next == AfterModification(intervals, m)
  {
    next := intervals;
    if m == "b3" {
      next := next - {4};
      next := next + {3};
    } else if m == "#4" {
      next := next + {6};
    } else if m == "#5" {
      next := next - {7};
      next := next + {8};
    } else if m == "b5" {
      next := next - {7};
      next := next + {6};
    } else if m == "b6" {
      next := next + {8};
    } else if m == "b9" {
      next := next + {1};
    } else if m == "#9" {
      next := next + {3};
    } else if m == "#11" {
      next := next + {6};
    } else if m == "b13" {
      next := next + {8};
    } else if m == "maj6" {
      next := next + {9};
    } else if m == "maj7" {
      next := next - {10};
      next := next + {11};
    }
  }

  /**
   * Lines 30-148: `getChordIntervals` starts from the type's triad, passes
   * the set through every addition and every modification, then sorts it.
   */
  method GetChordIntervals(quality: string, adds: seq<string>, mods: seq<string>) returns (r: seq<int>)
    ensures forall x :: x in r <==> x in Intervals(quality, adds, mods)
    ensures forall j, k :: 0 <= j < k < |r| ==> r[j] < r[k]
    ensures r != [] && r[0] == 0 && r[|r| - 1] < 12
  {
    var intervals: set<int>;
    if quality == "m" {
      intervals := {0, 3, 7};
    } else if quality == "aug" {
      intervals := {0, 4, 8};
    } else if quality == "dim" {
      intervals := {0, 3, 6};
    } else if quality == "sus2" {
      intervals := {0, 2, 7};
    } else if quality == "sus4" {
      intervals := {0, 5, 7};
    } else {
      intervals := {0, 4, 7};
    }
    for i := 0 to |adds|
      invariant intervals == AfterAdditions(BaseIntervals(quality), adds[..i])
    {
      intervals := AddInterval(intervals, adds[i]);
      assert adds[..i + 1][..i] == adds[..i];
    }
    assert adds[..|adds|] == adds;
    for i := 0 to |mods|
      invariant intervals == AfterModifications(AfterAdditions(BaseIntervals(quality), adds), mods[..i])
    {
      intervals := ModifyInterval(intervals, mods[i]);
      assert mods[..i + 1][..i] == mods[..i];
    }
    assert mods[..|mods|] == mods;
    IntervalsRooted(quality, adds, mods);
    r := SortIntervals(intervals);
  }

  // ---------------------------------------------------------------- target notes

  /** `getTargetNotes`: the pitch classes of the intervals above the key, taken with JavaScript's `%`. */
  function TargetSet(f: ChordFields): set<int>
  {
    Shifted(NoteToSemitone(f.key), Intervals(f.quality, f.add, f.mod))
  }

  /** Each interval of `s` above `root`, taken with JavaScript's `%`. */
  function Shifted(root: int, s: set<int>): set<int>
  {
    set i | i in s :: JsRem(root + i, 12)
  }

  lemma ShiftedRemove(root: int, s: set<int>, x: int)
    requires x in s
    ensures Shifted(root, s) == Shifted(root, s - {x}) + {JsRem(root + x, 12)}
  {
    forall y | y in Shifted(root, s)
      ensures y in Shifted(root, s - {x}) + {JsRem(root + x, 12)}
    {
      var i :| i in s && y == JsRem(root + i, 12);
      if i != x {
        assert i in s - {x};
      }
    }
  }

  /** Distinct intervals of one octave above a root in -1..11 land on distinct values. */
  lemma ShiftInjective(root: int, i: int, j: int)
    requires -1 <= root < 12 && 0 <= i < 12 && 0 <= j < 12
    requires JsRem(root + i, 12) == JsRem(root + j, 12)
    ensures i == j
  {
    var a, b := root + i, root + j;
    if a >= 0 && b >= 0 {
      assert a / 12 == if a >= 12 then 1 else 0;
      assert b / 12 == if b >= 12 then 1 else 0;
    }
  }

  /** A non-empty set has an element. */
  lemma Inhabited(s: set<int>)
    requires s != {}
    ensures exists x :: x in s
  {
    if forall x :: x !in s {
      assert false;
    }
  }

  /** Shifting a set of intervals by the root keeps its size. */
  lemma {:induction false} ShiftedSize(root: int, s: set<int>)
    requires -1 <= root < 12
    requires forall x :: x in s ==> 0 <= x < 12
    ensures |Shifted(root, s)| == |s|
    decreases |s|
  {
    if s != {} {
      Inhabited(s);
      var x :| x in s;
      var rest := s - {x};
      ShiftedSize(root, rest);
      ShiftedRemove(root, s, x);
      assert JsRem(root + x, 12) !in Shifted(root, rest) by {
        forall i | i in rest ensures JsRem(root + i, 12) != JsRem(root + x, 12) {
          if JsRem(root + i, 12) == JsRem(root + x, 12) {
            ShiftInjective(root, i, x);
          }
        }
      }
    }
  }

  /**
   * The target has one pitch class per interval. For a known key it holds
   * the key's own pitch class and lies in 0..11; an unknown key is read as
   * -1, so its root lands on -1.
   */
  lemma TargetShape(f: ChordFields)
    ensures |TargetSet(f)| == |Intervals(f.quality, f.add, f.mod)|
    ensures NoteToSemitone(f.key) >= 0 ==>
      NoteToSemitone(f.key) in TargetSet(f) && forall x :: x in TargetSet(f) ==> 0 <= x < 12
    ensures NoteToSemitone(f.key) == -1 ==> -1 in TargetSet(f)
  {
    IntervalsRooted(f.quality, f.add, f.mod);
    ShiftedShape(NoteToSemitone(f.key), Intervals(f.quality, f.add, f.mod));
  }

  lemma ShiftedShape(root: int, s: set<int>)
    requires -1 <= root < 12 && RootedInOctave(s)
    ensures |Shifted(root, s)| == |s|
    ensures root >= 0 ==> root in Shifted(root, s) && forall x :: x in Shifted(root, s) ==> 0 <= x < 12
    ensures root == -1 ==> -1 in Shifted(root, s)
  {
    ShiftedSize(root, s);
    assert JsRem(root + 0, 12) in Shifted(root, s);
  }

  /** Lines 153-160: the sorted intervals, shifted by the key's semitone, as a set. */
  method GetTargetNotes(chord: Chord) returns (target: set<int>)
    ensures target == TargetSet(chord.Fields())
  {
    var root := NoteToSemitone(chord.key);
    var intervals := GetChordIntervals(chord.quality, chord.add, chord.mod);
    target := set i | i in intervals :: JsRem(root + i, 12);
  }

  // ---------------------------------------------------------------- candidate frets

  /** Strictly ascending. */
  predicate Ascending(s: seq<int>)
  {
    forall j, k :: 0 <= j < k < |s| ==> s[j] < s[k]
  }

  /**
   * `frets` lists, in ascending order, exactly the frets 0 to 12 at which
   * a string tuned to `openNote` sounds a target note.
   */
  ghost predicate CandidatesFor(frets: seq<int>, openNote: string, target: set<int>)
  {
    && Ascending(frets)
    && forall fret :: fret in frets <==> 0 <= fret <= MaxFret && FretToSemitone(openNote, fret) in target
  }

  /** Two ascending lists with the same elements are the same list. */
  lemma {:induction false} AscendingUnique(a: seq<int>, b: seq<int>)
    requires Ascending(a) && Ascending(b)
    requires forall x :: x in a <==> x in b
    ensures a == b
    decreases |a|
  {
    if a != [] {
      assert a[0] in a;
    }
    if b != [] {
      assert b[0] in b;
    }
    if a != [] && b != [] {
      assert a[0] == b[0] by {
        assert a[0] in b && b[0] in a;
      }
      forall x ensures x in a[1..] <==> x in b[1..] {
        if x in a[1..] {
          assert x in b && x != b[0];
        }
        if x in b[1..] {
          assert x in a && x != a[0];
        }
      }
      AscendingUnique(a[1..], b[1..]);
      assert a == [a[0]] + a[1..] && b == [b[0]] + b[1..];
    }
  }

  /** The candidate list of a string is determined by its tuning and the target. */
  lemma CandidatesUnique(a: seq<int>, b: seq<int>, openNote: string, target: set<int>)
    requires CandidatesFor(a, openNote, target) && CandidatesFor(b, openNote, target)
    ensures a == b
  {
    AscendingUnique(a, b);
  }

  /** Lines 172-180: the callback run for one string, pushing each fret 0 to 12 that sounds a target note. */
  method ValidFrets(openNote: string, target: set<int>) returns (frets: seq<int>)
    ensures CandidatesFor(frets, openNote, target)
  {
    frets := [];
    for fret := 0 to MaxFret + 1
      invariant Ascending(frets)
      invariant forall j :: 0 <= j < |frets| ==> frets[j] < fret
      invariant forall f :: f in frets <==> 0 <= f < fret && FretToSemitone(openNote, f) in target
    {
      if FretToSemitone(openNote, fret) in target {
        frets := frets + [fret];
      }
    }
  }

  /** Lines 168-181: `tune.map` of the callback above, one candidate list per string. */
  method GetValidFretsPerString(tune: seq<string>, target: set<int>) returns (valid: seq<seq<int>>)
    ensures |valid| == |tune|
    ensures forall s :: 0 <= s < |tune| ==> CandidatesFor(valid[s], tune[s], target)
  {
    valid := [];
    for s := 0 to |tune|
      invariant |valid| == s
      invariant forall k :: 0 <= k < s ==> CandidatesFor(valid[k], tune[k], target)
    {
      var frets := ValidFrets(tune[s], target);
      valid := valid + [frets];
    }
  }

  // ---------------------------------------------------------------- playability and score

  /** The fretted (positive) entries of a voicing, in string order. */
  function Fretted(frets: seq<int>): (r: seq<int>)
    ensures forall x :: x in r <==> x in frets && x > 0
    ensures forall i :: 0 <= i < |r| ==> r[i] > 0
  {
    if frets == [] then []
    else (if frets[0] > 0 then [frets[0]] else []) + Fretted(frets[1..])
  }

  /** `Math.max(...s)` of a non-empty list. */
  function Largest(s: seq<int>): (m: int)
    requires s != []
    ensures m in s && forall i :: 0 <= i < |s| ==> s[i] <= m
  {
    if |s| == 1 then s[0]
    else var rest := Largest(s[1..]); if s[0] > rest then s[0] else rest
  }

  /** `Math.min(...s)` of a non-empty list. */
  function Smallest(s: seq<int>): (m: int)
    requires s != []
    ensures m in s && forall i :: 0 <= i < |s| ==> m <= s[i]
  {
    if |s| == 1 then s[0]
    else var rest := Smallest(s[1..]); if s[0] < rest then s[0] else rest
  }

  /** The sum of a list (`reduce((a, b) => a + b, 0)`). */
  function Sum(s: seq<int>): int
  {
    if s == [] then 0 else s[0] + Sum(s[1..])
  }

  /** A voicing with no fretted string. */
  predicate AllOpen(frets: seq<int>)
  {
    forall i :: 0 <= i < |frets| ==> frets[i] <= 0
  }

  /** `isPlayable`: no fretted note at all, or the fretted notes span at most six frets. */
  predicate IsPlayable(frets: seq<int>)
  {
    var fretted := Fretted(frets);
    |fretted| == 0 || Largest(fretted) - Smallest(fretted) <= MaxSpan
  }

  lemma NoneFretted(frets: seq<int>)
    ensures Fretted(frets) == [] <==> AllOpen(frets)
  {
    if !AllOpen(frets) {
      var i :| 0 <= i < |frets| && frets[i] > 0;
      assert frets[i] in Fretted(frets);
    }
  }

  /**
   * Lines 186-190: a voicing is playable exactly when any two of its
   * fretted strings are at most six frets apart; in particular an
   * all-open voicing is playable.
   */
  lemma PlayableIffClose(frets: seq<int>)
    ensures IsPlayable(frets) <==>
      forall i, j :: 0 <= i < |frets| && 0 <= j < |frets| && frets[i] > 0 && frets[j] > 0 ==> frets[i] - frets[j] <= MaxSpan
    ensures AllOpen(frets) ==> IsPlayable(frets)
  {
    NoneFretted(frets);
    var fretted := Fretted(frets);
    if fretted != [] {
      var hi, lo := Largest(fretted), Smallest(fretted);
      var i :| 0 <= i < |frets| && frets[i] == hi;
      var j :| 0 <= j < |frets| && frets[j] == lo;
      forall i', j' | 0 <= i' < |frets| && 0 <= j' < |frets| && frets[i'] > 0 && frets[j'] > 0
        ensures frets[i'] <= hi && lo <= frets[j']
      {
        assert frets[i'] in fretted && frets[j'] in fretted;
      }
    }
  }

  /** `scoreVoicing`: 0 for an all-open voicing, else three times the lowest fret, twice the span, plus the sum. */
  function ScoreVoicing(frets: seq<int>): int
  {
    var fretted := Fretted(frets);
    if |fretted| == 0 then 0
    else
      var lo := Smallest(fretted);
      lo * 3 + (Largest(fretted) - lo) * 2 + Sum(fretted)
  }

  lemma {:induction false} SumPositive(s: seq<int>)
    requires forall i :: 0 <= i < |s| ==> s[i] > 0
    ensures s != [] ==> Sum(s) > 0
    ensures Sum(s) >= 0
  {
    if s != [] {
      SumPositive(s[1..]);
    }
  }

  /** Lines 214-221: scores are never negative, and a voicing scores 0 exactly when no string is fretted. */
  lemma ScoreZeroIffOpen(frets: seq<int>)
    ensures ScoreVoicing(frets) >= 0
    ensures ScoreVoicing(frets) == 0 <==> AllOpen(frets)
  {
    NoneFretted(frets);
    SumPositive(Fretted(frets));
  }

  // ---------------------------------------------------------------- coverage

  /** The pitch classes a voicing sounds, string `i` tuned to `tune[i]`. */
  function Played(frets: seq<int>, tune: seq<string>): set<int>
    requires |frets| <= |tune|
    decreases |frets|
  {
    if frets == [] then {}
    else
      var n := |frets| - 1;
      Played(frets[..n], tune) + {FretToSemitone(tune[n], frets[n])}
  }

  /** A pitch class is sounded exactly when some string sounds it. */
  lemma {:induction false} PlayedMembers(frets: seq<int>, tune: seq<string>, x: int)
    requires |frets| <= |tune|
    ensures x in Played(frets, tune) <==> exists i :: 0 <= i < |frets| && FretToSemitone(tune[i], frets[i]) == x
    decreases |frets|
  {
    if frets != [] {
      var n := |frets| - 1;
      PlayedMembers(frets[..n], tune, x);
      if x in Played(frets[..n], tune) {
        var i :| 0 <= i < n && FretToSemitone(tune[i], frets[..n][i]) == x;
        assert FretToSemitone(tune[i], frets[i]) == x;
      }
      if exists i :: 0 <= i < |frets| && FretToSemitone(tune[i], frets[i]) == x {
        var i :| 0 <= i < |frets| && FretToSemitone(tune[i], frets[i]) == x;
        if i < n {
          assert FretToSemitone(tune[i], frets[..n][i]) == x;
        }
      }
    }
  }

  /** A finite set inside another of the same size is that set. */
  lemma {:induction false} SameSizeSubset(a: set<int>, b: set<int>)
    requires a <= b && |a| == |b|
    ensures a == b
    decreases |a|
  {
    if a != {} {
      Inhabited(a);
      var x :| x in a;
      SameSizeSubset(a - {x}, b - {x});
      assert a == (a - {x}) + {x};
      assert b == (b - {x}) + {x};
    }
  }

  /** Lines 198-201: the set of pitch classes the strings sound. */
  method PlayedNotes(frets: seq<int>, tune: seq<string>) returns (played: set<int>)
    requires |frets| <= |tune|
    ensures played == Played(frets, tune)
  {
    played := {};
    for i := 0 to |frets|
      invariant played == Played(frets[..i], tune)
    {
      played := played + {FretToSemitone(tune[i], frets[i])};
      assert frets[..i + 1][..i] == frets[..i];
    }
    assert frets[..|frets|] == frets;
  }

  /**
   * Lines 193-208: `coversAllNotes` collects the sounded pitch classes,
   * compares sizes, then looks up every target note: true exactly when the
   * voicing sounds the target set and nothing else.
   */
  method CoversAllNotes(frets: seq<int>, tune: seq<string>, target: set<int>) returns (b: bool)
    requires |frets| <= |tune|
    ensures b <==> Played(frets, tune) == target
  {
    var played := PlayedNotes(frets, tune);
    if |played| != |target| {
      return false;
    }
    var rest := target;
    while |rest| > 0
      invariant rest <= target && target - rest <= played
      decreases |rest|
    {
      Inhabited(rest);
      var x :| x in rest;
      if x !in played {
        return false;
      }
      rest := rest - {x};
    }
    SameSizeSubset(target, played);
    return true;
  }

  /** A voicing sounds at most one pitch class per string. */
  lemma {:induction false} PlayedSize(frets: seq<int>, tune: seq<string>)
    requires |frets| <= |tune|
    ensures |Played(frets, tune)| <= |frets|
    decreases |frets|
  {
    if frets != [] {
      var n := |frets| - 1;
      PlayedSize(frets[..n], tune);
      var before := Played(frets[..n], tune);
      var x := FretToSemitone(tune[n], frets[n]);
      if x in before {
        assert before + {x} == before;
      }
    }
  }

  // ---------------------------------------------------------------- voicing search

  /**
   * What the search is after: one fret 0 to 12 per string, a playable
   * hand shape, sounding the target pitch classes and no other.
   */
  predicate ExactVoicing(v: seq<int>, tune: seq<string>, target: set<int>)
  {
    && |v| == |tune|
    && (forall s :: 0 <= s < |v| ==> 0 <= v[s] <= MaxFret)
    && IsPlayable(v)
    && Played(v, tune) == target
  }

  /** More target pitch classes than strings: nothing can sound them all. */
  lemma TooManyNotes(v: seq<int>, tune: seq<string>, target: set<int>)
    requires |target| > |tune|
    ensures !ExactVoicing(v, tune, target)
  {
    if |v| == |tune| {
      PlayedSize(v, tune);
    }
  }

  /** The test run on a complete combination (line 237). */
  predicate Keeps(v: seq<int>, tune: seq<string>, target: set<int>)
    requires |v| <= |tune|
  {
    IsPlayable(v) && Played(v, tune) == target
  }

  /**
   * The voicings `enumerate` pushes, in order, once the first |prefix|
   * strings hold `prefix`: at a full prefix the prefix itself when it is
   * kept, otherwise each candidate of the next string in turn.
   */
  function Enumerated(valid: seq<seq<int>>, tune: seq<string>, target: set<int>, prefix: seq<int>): seq<seq<int>>
    requires |prefix| <= |valid| <= |tune|
    decreases |valid| - |prefix|, 1, 0
  {
    if |prefix| == |valid| then
      if Keeps(prefix, tune, target) then [prefix] else []
    else
      EnumOver(valid, tune, target, prefix, valid[|prefix|])
  }

  /** The voicings pushed while string |prefix| runs through `frets`. */
  function EnumOver(valid: seq<seq<int>>, tune: seq<string>, target: set<int>, prefix: seq<int>, frets: seq<int>): seq<seq<int>>
    requires |prefix| < |valid| <= |tune|
    decreases |valid| - |prefix|, 0, |frets|
  {
    if frets == [] then []
    else
      var n := |frets| - 1;
      EnumOver(valid, tune, target, prefix, frets[..n]) + Enumerated(valid, tune, target, prefix + [frets[n]])
  }

  /** Everything `findAllVoicings` returns. */
  function Voicings(valid: seq<seq<int>>, tune: seq<string>, target: set<int>): seq<seq<int>>
    requires |valid| <= |tune|
  {
    Enumerated(valid, tune, target, [])
  }

  /** From string `from` on, `v` takes each fret from that string's candidate list. */
  predicate FromLists(v: seq<int>, valid: seq<seq<int>>, from: nat)
  {
    |v| == |valid| && forall k :: from <= k < |v| ==> v[k] in valid[k]
  }

  /** `v` starts with `prefix` and takes the remaining strings from their candidate lists. */
  predicate Extends(v: seq<int>, valid: seq<seq<int>>, prefix: seq<int>)
  {
    && |prefix| <= |v|
    && v[..|prefix|] == prefix
    && FromLists(v, valid, |prefix|)
  }

  lemma {:induction false} EnumeratedMembers(valid: seq<seq<int>>, tune: seq<string>, target: set<int>, prefix: seq<int>, v: seq<int>)
    requires |prefix| <= |valid| <= |tune|
    ensures v in Enumerated(valid, tune, target, prefix) <==> Extends(v, valid, prefix) && Keeps(v, tune, target)
    decreases |valid| - |prefix|, 1, 0
  {
    var n := |prefix|;
    if n == |valid| {
      if Extends(v, valid, prefix) {
        assert v == v[..n];
      }
    } else {
      EnumOverMembers(valid, tune, target, prefix, valid[n], v);
    }
  }

  lemma {:induction false} EnumOverMembers(valid: seq<seq<int>>, tune: seq<string>, target: set<int>, prefix: seq<int>, frets: seq<int>, v: seq<int>)
    requires |prefix| < |valid| <= |tune|
    ensures v in EnumOver(valid, tune, target, prefix, frets) <==>
      && |v| == |valid|
      && v[..|prefix|] == prefix
      && v[|prefix|] in frets
      && FromLists(v, valid, |prefix| + 1)
      && Keeps(v, tune, target)
    decreases |valid| - |prefix|, 0, |frets|
  {
    if frets != [] {
      var m := |frets| - 1;
      EnumOverMembers(valid, tune, target, prefix, frets[..m], v);
      EnumeratedMembers(valid, tune, target, prefix + [frets[m]], v);
      if |v| == |valid| {
        NextPrefix(v, prefix, frets[m]);
      }
      LastOrEarlier(frets);
    }
  }

  /** `v` starts with `prefix + [x]` exactly when it starts with `prefix` and then holds `x`. */
  lemma NextPrefix(v: seq<int>, prefix: seq<int>, x: int)
    requires |prefix| < |v|
    ensures v[..|prefix| + 1] == prefix + [x] <==> v[..|prefix|] == prefix && v[|prefix|] == x
  {
    var n := |prefix|;
    assert v[..n + 1] == v[..n] + [v[n]];
    if v[..n + 1] == prefix + [x] {
      assert v[..n] == v[..n + 1][..n];
    }
  }

  /** A fret in a non-empty list is its last one or one of those before. */
  lemma LastOrEarlier(frets: seq<int>)
    requires frets != []
    ensures forall x :: x in frets <==> x in frets[..|frets| - 1] || x == frets[|frets| - 1]
  {
    assert frets == frets[..|frets| - 1] + [frets[|frets| - 1]];
  }

  /**
   * Lines 226-250: given the candidate lists of every string, the search
   * returns exactly the voicings that sound the target and nothing else
   * and are playable.
   */
  lemma VoicingsExact(valid: seq<seq<int>>, tune: seq<string>, target: set<int>, v: seq<int>)
    requires |valid| == |tune|
    requires forall s :: 0 <= s < |tune| ==> CandidatesFor(valid[s], tune[s], target)
    ensures v in Voicings(valid, tune, target) <==> ExactVoicing(v, tune, target)
  {
    EnumeratedMembers(valid, tune, target, [], v);
    if ExactVoicing(v, tune, target) {
      forall k | 0 <= k < |v| ensures v[k] in valid[k] {
        assert FretToSemitone(tune[k], v[k]) in Played(v, tune) by {
          PlayedMembers(v, tune, FretToSemitone(tune[k], v[k]));
        }
      }
    }
    if Extends(v, valid, []) && Keeps(v, tune, target) {
      forall k | 0 <= k < |v| ensures 0 <= v[k] <= MaxFret {
        assert CandidatesFor(valid[k], tune[k], target);
      }
    }
  }

  /** `a` comes before `b` in dictionary order: they agree up to some string, where `a` has the lower fret. */
  predicate LexLess(a: seq<int>, b: seq<int>)
  {
    exists k :: 0 <= k < |a| && k < |b| && a[..k] == b[..k] && a[k] < b[k]
  }

  /** Every voicing of the list comes before every later one. */
  predicate LexSorted(list: seq<seq<int>>)
  {
    forall i, j :: 0 <= i < j < |list| ==> LexLess(list[i], list[j])
  }

  lemma SortedAppend(a: seq<seq<int>>, b: seq<seq<int>>)
    requires LexSorted(a) && LexSorted(b)
    requires forall x, y :: x in a && y in b ==> LexLess(x, y)
    ensures LexSorted(a + b)
  {
    forall i, j | 0 <= i < j < |a + b| ensures LexLess((a + b)[i], (a + b)[j]) {
      if j < |a| {
        assert (a + b)[i] == a[i] && (a + b)[j] == a[j];
      } else if i < |a| {
        assert (a + b)[i] in a && (a + b)[j] in b;
      } else {
        assert (a + b)[i] == b[i - |a|] && (a + b)[j] == b[j - |a|];
      }
    }
  }

  lemma {:induction false} EnumeratedSorted(valid: seq<seq<int>>, tune: seq<string>, target: set<int>, prefix: seq<int>)
    requires |prefix| <= |valid| <= |tune|
    requires forall s :: 0 <= s < |valid| ==> Ascending(valid[s])
    ensures LexSorted(Enumerated(valid, tune, target, prefix))
    decreases |valid| - |prefix|, 1, 0
  {
    if |prefix| < |valid| {
      EnumOverSorted(valid, tune, target, prefix, valid[|prefix|]);
    }
  }

  lemma {:induction false} EnumOverSorted(valid: seq<seq<int>>, tune: seq<string>, target: set<int>, prefix: seq<int>, frets: seq<int>)
    requires |prefix| < |valid| <= |tune|
    requires forall s :: 0 <= s < |valid| ==> Ascending(valid[s])
    requires Ascending(frets)
    ensures LexSorted(EnumOver(valid, tune, target, prefix, frets))
    decreases |valid| - |prefix|, 0, |frets|
  {
    if frets != [] {
      var n, m := |prefix|, |frets| - 1;
      var next := prefix + [frets[m]];
      var earlier := EnumOver(valid, tune, target, prefix, frets[..m]);
      var later := Enumerated(valid, tune, target, next);
      EnumOverSorted(valid, tune, target, prefix, frets[..m]);
      EnumeratedSorted(valid, tune, target, next);
      forall x, y | x in earlier && y in later ensures LexLess(x, y) {
        EnumOverMembers(valid, tune, target, prefix, frets[..m], x);
        EnumeratedMembers(valid, tune, target, next, y);
        assert y[..n] == y[..n + 1][..n] == prefix;
        assert y[n] == y[..n + 1][n] == frets[m];
        assert x[n] < frets[m] by {
          var i :| 0 <= i < m && frets[..m][i] == x[n];
        }
        assert x[..n] == y[..n];
      }
      SortedAppend(earlier, later);
    }
  }

  /**
   * Lines 242-245: strings are tried in order and each runs through its
   * ascending candidates, so the voicings come out in dictionary order,
   * each at most once.
   */
  lemma VoicingsSorted(valid: seq<seq<int>>, tune: seq<string>, target: set<int>)
    requires |valid| <= |tune|
    requires forall s :: 0 <= s < |valid| ==> Ascending(valid[s])
    ensures LexSorted(Voicings(valid, tune, target))
  {
    EnumeratedSorted(valid, tune, target, []);
  }

  /**
   * Lines 235-246: `enumerate(idx)`, the first `idx` strings of `current`
   * already chosen; it pushes its voicings after `results` and leaves those
   * strings as it found them.
   */
  method Enumerate(valid: seq<seq<int>>, tune: seq<string>, target: set<int>, current: array<int>, idx: nat, results: seq<seq<int>>)
    returns (out: seq<seq<int>>)
    requires current.Length == |valid| <= |tune| && idx <= |valid|
    modifies current
    ensures current[..idx] == old(current[..idx])
    ensures out == results + Enumerated(valid, tune, target, old(current[..idx]))
    decreases |valid| - idx
  {
    if idx == current.Length {
      var v := current[..];
      assert v == current[..idx];
      var keep := IsPlayable(v);
      if keep {
        keep := CoversAllNotes(v, tune, target);
      }
      if keep {
        out := results + [v];
      } else {
        out := results;
      }
      return;
    }
    ghost var prefix := current[..idx];
    var frets := valid[idx];
    out := results;
    for j := 0 to |frets|
      invariant current[..idx] == prefix
      invariant out == results + EnumOver(valid, tune, target, prefix, frets[..j])
    {
      current[idx] := frets[j];
      assert current[..idx + 1] == prefix + [frets[j]];
      out := Enumerate(valid, tune, target, current, idx + 1, out);
      assert current[..idx] == current[..idx + 1][..idx];
      assert frets[..j + 1][..j] == frets[..j];
    }
    assert frets[..|frets|] == frets;
  }

  /** Lines 226-250: the search from the first string with an empty `results`. */
  method FindAllVoicings(valid: seq<seq<int>>, tune: seq<string>, target: set<int>) returns (results: seq<seq<int>>)
    requires |valid| <= |tune|
    ensures results == Voicings(valid, tune, target)
  {
    var current := new int[|valid|];
    results := Enumerate(valid, tune, target, current, 0, []);
  }

  // ---------------------------------------------------------------- choosing the best voicing

  /** One step of a stable sort by `key`: `v` goes before the first voicing whose key is not lower. */
  function InsertByKey(v: seq<int>, sorted: seq<seq<int>>, key: seq<int> -> int): (r: seq<seq<int>>)
    ensures multiset(r) == multiset(sorted) + multiset{v}
  {
    if sorted == [] then [v]
    else if key(v) <= key(sorted[0]) then [v] + sorted
    else
      assert sorted == [sorted[0]] + sorted[1..];
      [sorted[0]] + InsertByKey(v, sorted[1..], key)
  }

  /**
   * `Array.prototype.sort` with the comparator `key(a) - key(b)`: ordered
   * by key, voicings with equal keys kept in their original order.
   */
  function SortByKey(vs: seq<seq<int>>, key: seq<int> -> int): (r: seq<seq<int>>)
    ensures multiset(r) == multiset(vs)
  {
    if vs == [] then []
    else
      assert vs == [vs[0]] + vs[1..];
      InsertByKey(vs[0], SortByKey(vs[1..], key), key)
  }

  predicate KeysAscend(vs: seq<seq<int>>, key: seq<int> -> int)
  {
    forall i, j :: 0 <= i < j < |vs| ==> key(vs[i]) <= key(vs[j])
  }

  lemma {:induction false} InsertKeepsOrder(v: seq<int>, sorted: seq<seq<int>>, key: seq<int> -> int)
    requires KeysAscend(sorted, key)
    ensures KeysAscend(InsertByKey(v, sorted, key), key)
    decreases |sorted|
  {
    if sorted != [] && key(v) > key(sorted[0]) {
      var rest := InsertByKey(v, sorted[1..], key);
      InsertKeepsOrder(v, sorted[1..], key);
      forall k | 0 <= k < |rest| ensures key(sorted[0]) <= key(rest[k]) {
        assert rest[k] in multiset(rest);
        if rest[k] != v {
          assert rest[k] in multiset(sorted[1..]);
          var i :| 0 <= i < |sorted[1..]| && sorted[1..][i] == rest[k];
          assert sorted[i + 1] == rest[k];
        }
      }
    }
  }

  /** Line 298: the sort leaves the voicings in ascending order of key. */
  lemma {:induction false} SortByKeyOrders(vs: seq<seq<int>>, key: seq<int> -> int)
    ensures KeysAscend(SortByKey(vs, key), key)
    decreases |vs|
  {
    if vs != [] {
      SortByKeyOrders(vs[1..], key);
      InsertKeepsOrder(vs[0], SortByKey(vs[1..], key), key);
    }
  }

  /** The first position holding the lowest key: every key is at least its key, every earlier key is higher. */
  function FirstLowest(vs: seq<seq<int>>, key: seq<int> -> int): (i: nat)
    requires vs != []
    ensures i < |vs|
    ensures forall j :: 0 <= j < |vs| ==> key(vs[i]) <= key(vs[j])
    ensures forall j :: 0 <= j < i ==> key(vs[i]) < key(vs[j])
  {
    if |vs| == 1 then 0
    else
      var r := FirstLowest(vs[1..], key);
      assert forall j :: 1 <= j < |vs| ==> vs[j] == vs[1..][j - 1];
      if key(vs[0]) <= key(vs[1..][r]) then 0 else r + 1
  }

  /** Lines 298-299: the voicing the stable sort puts first is the first one with the lowest key. */
  lemma {:induction false} SortByKeyHead(vs: seq<seq<int>>, key: seq<int> -> int)
    requires vs != []
    ensures SortByKey(vs, key) != []
    ensures SortByKey(vs, key)[0] == vs[FirstLowest(vs, key)]
    decreases |vs|
  {
    var rest := SortByKey(vs[1..], key);
    if rest == [] {
      assert vs[1..] == [] by {
        assert multiset(vs[1..]) == multiset(rest);
      }
    } else {
      SortByKeyHead(vs[1..], key);
    }
  }

  /**
   * The voicing a search picks: exact, no voicing scores less, and among
   * those scoring the same it comes first in dictionary order.
   */
  ghost predicate Preferred(v: seq<int>, tune: seq<string>, target: set<int>)
  {
    forall w :: ExactVoicing(w, tune, target) ==>
      ScoreVoicing(v) <= ScoreVoicing(w) && (ScoreVoicing(w) == ScoreVoicing(v) && w != v ==> LexLess(v, w))
  }

  /**
   * Lines 292-299: with the candidate lists of every string, no voicing
   * survives exactly when no exact voicing exists, and otherwise the first
   * voicing after the sort is exact and preferred.
   */
  lemma BestVoicing(valid: seq<seq<int>>, tune: seq<string>, target: set<int>)
    requires |valid| == |tune|
    requires forall s :: 0 <= s < |tune| ==> CandidatesFor(valid[s], tune[s], target)
    ensures Voicings(valid, tune, target) == [] <==> forall v :: !ExactVoicing(v, tune, target)
    ensures Voicings(valid, tune, target) != [] ==>
      var best := SortByKey(Voicings(valid, tune, target), ScoreVoicing)[0];
      ExactVoicing(best, tune, target) && Preferred(best, tune, target)
  {
    var vs := Voicings(valid, tune, target);
    forall v ensures v in vs <==> ExactVoicing(v, tune, target) {
      VoicingsExact(valid, tune, target, v);
    }
    if vs != [] {
      assert vs[0] in vs;
      SortByKeyHead(vs, ScoreVoicing);
      VoicingsSorted(valid, tune, target);
      FirstPreferred(vs, tune, target);
    }
  }

  /**
   * In a list in dictionary order holding exactly the exact voicings, the
   * first one with the lowest score is preferred.
   */
  lemma FirstPreferred(vs: seq<seq<int>>, tune: seq<string>, target: set<int>)
    requires vs != [] && LexSorted(vs)
    requires forall v :: v in vs <==> ExactVoicing(v, tune, target)
    ensures Preferred(vs[FirstLowest(vs, ScoreVoicing)], tune, target)
  {
    var i := FirstLowest(vs, ScoreVoicing);
    var best := vs[i];
    forall w | ExactVoicing(w, tune, target)
      ensures ScoreVoicing(best) <= ScoreVoicing(w) && (ScoreVoicing(w) == ScoreVoicing(best) && w != best ==> LexLess(best, w))
    {
      var j :| 0 <= j < |vs| && vs[j] == w;
      FirstLowestBeats(vs, ScoreVoicing, j);
    }
  }

  /** In a list in dictionary order, the first entry with the lowest key comes before every other entry with that key. */
  lemma FirstLowestBeats(vs: seq<seq<int>>, key: seq<int> -> int, j: int)
    requires LexSorted(vs) && 0 <= j < |vs|
    ensures var best := vs[FirstLowest(vs, key)];
      key(best) <= key(vs[j]) && (key(vs[j]) == key(best) && vs[j] != best ==> LexLess(best, vs[j]))
  {
    var i := FirstLowest(vs, key);
    if key(vs[j]) == key(vs[i]) && vs[j] != vs[i] {
      assert i != j;
      if j < i {
        assert false;
      }
      assert LexLess(vs[i], vs[j]);
    }
  }

  /** An exact voicing with every string open, when there is one, is the one picked. */
  lemma OpenPreferred(v: seq<int>, w: seq<int>, tune: seq<string>, target: set<int>)
    requires ExactVoicing(v, tune, target) && Preferred(v, tune, target)
    requires ExactVoicing(w, tune, target) && AllOpen(w)
    ensures v == w
  {
    ScoreZeroIffOpen(v);
    ScoreZeroIffOpen(w);
    assert forall s :: 0 <= s < |v| ==> v[s] == 0 == w[s];
  }

  /** Dictionary order is asymmetric. */
  lemma LexAsymmetric(a: seq<int>, b: seq<int>)
    requires LexLess(a, b)
    ensures !LexLess(b, a)
  {
    var k :| 0 <= k < |a| && k < |b| && a[..k] == b[..k] && a[k] < b[k];
    if LexLess(b, a) {
      var k' :| 0 <= k' < |b| && k' < |a| && b[..k'] == a[..k'] && b[k'] < a[k'];
    }
  }

  /** At most one exact voicing is preferred, so the choice is determined. */
  lemma PreferredUnique(v: seq<int>, w: seq<int>, tune: seq<string>, target: set<int>)
    requires ExactVoicing(v, tune, target) && Preferred(v, tune, target)
    requires ExactVoicing(w, tune, target) && Preferred(w, tune, target)
    ensures v == w
  {
    if v != w {
      assert LexLess(v, w) && LexLess(w, v);
      LexAsymmetric(v, w);
    }
  }

  // ---------------------------------------------------------------- finger placements

  /**
   * One entry of `fretsToFingerPlacements`: the string (numbered from 1),
   * its fret, the finger (numbered from 1) and the barre fret, 0 for none.
   */
  datatype FingerPlacement = FingerPlacement(stringNumber: int, fret: int, finger: int, barre: int)

  /** A fretted string before it is given a finger. */
  datatype Fretting = Fretting(stringNumber: int, fret: int)

  /** Lines 256-258: the strings numbered from 1 with their frets, open strings dropped, in string order. */
  function FrettedStrings(frets: seq<int>): (r: seq<Fretting>)
    ensures forall x :: x in r <==> 1 <= x.stringNumber <= |frets| && x.fret == frets[x.stringNumber - 1] && x.fret > 0
    ensures forall j, k :: 0 <= j < k < |r| ==> r[j].stringNumber < r[k].stringNumber
    decreases |frets|
  {
    if frets == [] then []
    else
      var n := |frets| - 1;
      var init := FrettedStrings(frets[..n]);
      assert forall x :: x in init ==> x.stringNumber <= n;
      init + (if frets[n] > 0 then [Fretting(n + 1, frets[n])] else [])
  }

  /** The comparator of line 259: lower fret first, then lower string. */
  predicate Before(a: Fretting, b: Fretting)
  {
    a.fret < b.fret || (a.fret == b.fret && a.stringNumber < b.stringNumber)
  }

  predicate InOrder(s: seq<Fretting>)
  {
    forall j, k :: 0 <= j < k < |s| ==> Before(s[j], s[k])
  }

  /** One step of the sort of line 259: `x` goes before the first fretting it precedes. */
  function InsertFretting(x: Fretting, s: seq<Fretting>): (r: seq<Fretting>)
    ensures multiset(r) == multiset(s) + multiset{x}
  {
    if s == [] then [x]
    else if Before(x, s[0]) then [x] + s
    else
      assert s == [s[0]] + s[1..];
      [s[0]] + InsertFretting(x, s[1..])
  }

  /** Line 259: the fretted strings sorted by fret, then string. */
  function SortFrettings(s: seq<Fretting>): (r: seq<Fretting>)
    ensures multiset(r) == multiset(s)
  {
    if s == [] then []
    else
      assert s == [s[0]] + s[1..];
      InsertFretting(s[0], SortFrettings(s[1..]))
  }

  lemma {:induction false} InsertInOrder(x: Fretting, s: seq<Fretting>)
    requires InOrder(s)
    requires forall y :: y in s ==> y.stringNumber != x.stringNumber
    ensures InOrder(InsertFretting(x, s))
    decreases |s|
  {
    if s != [] && !Before(x, s[0]) {
      var rest := InsertFretting(x, s[1..]);
      InsertInOrder(x, s[1..]);
      forall k | 0 <= k < |rest| ensures Before(s[0], rest[k]) {
        assert rest[k] in multiset(rest);
        if rest[k] != x {
          assert rest[k] in multiset(s[1..]);
          var i :| 0 <= i < |s[1..]| && s[1..][i] == rest[k];
          assert s[i + 1] == rest[k];
        }
      }
    }
  }

  /** Sorting frettings of distinct strings puts them in order. */
  lemma {:induction false} SortInOrder(s: seq<Fretting>)
    requires forall j, k :: 0 <= j < k < |s| ==> s[j].stringNumber != s[k].stringNumber
    ensures InOrder(SortFrettings(s))
    decreases |s|
  {
    if s != [] {
      var rest := SortFrettings(s[1..]);
      SortInOrder(s[1..]);
      forall y | y in rest ensures y.stringNumber != s[0].stringNumber {
        assert y in multiset(s[1..]);
        var i :| 0 <= i < |s[1..]| && s[1..][i] == y;
        assert s[i + 1] == y;
      }
      InsertInOrder(s[0], rest);
    }
  }

  /** Lines 261-266: finger `k + 1` for the `k`-th fretting, no barre. */
  function Fingered(s: seq<Fretting>): (r: seq<FingerPlacement>)
    ensures |r| == |s|
    ensures forall k :: 0 <= k < |r| ==> r[k] == FingerPlacement(s[k].stringNumber, s[k].fret, k + 1, 0)
  {
    seq(|s|, k requires 0 <= k < |s| => FingerPlacement(s[k].stringNumber, s[k].fret, k + 1, 0))
  }

  /** `fretsToFingerPlacements`. */
  function FretsToFingerPlacements(frets: seq<int>): seq<FingerPlacement>
  {
    Fingered(SortFrettings(FrettedStrings(frets)))
  }

  /** The sorted frettings: those of the fretted strings, each once, in the order of line 259. */
  lemma SortedFrettingsShape(frets: seq<int>)
    ensures var sorted := SortFrettings(FrettedStrings(frets));
      && InOrder(sorted)
      && forall x :: x in sorted <==> 1 <= x.stringNumber <= |frets| && x.fret == frets[x.stringNumber - 1] && x.fret > 0
  {
    var fretted := FrettedStrings(frets);
    var sorted := SortFrettings(fretted);
    SortInOrder(fretted);
    forall x ensures x in sorted <==> x in fretted {
      assert x in sorted <==> x in multiset(sorted);
      assert x in fretted <==> x in multiset(fretted);
    }
  }

  /**
   * What `fretsToFingerPlacements` promises of its result `r`: one
   * placement per fretted string and none for an open one, strings
   * numbered from 1, ordered by fret and then string, fingers 1, 2, ... in
   * that order, and never a barre.
   */
  predicate PlacementsFit(r: seq<FingerPlacement>, frets: seq<int>)
  {
    && FingersNumbered(r)
    && OnFrettedStrings(r, frets)
    && CoversFretted(r, frets)
    && OrderedByFret(r)
  }

  /** Fingers 1, 2, ... in list order, and never a barre. */
  predicate FingersNumbered(r: seq<FingerPlacement>)
  {
    forall k :: 0 <= k < |r| ==> r[k].finger == k + 1 && r[k].barre == 0
  }

  /** Every placement is on a fretted string, numbered from 1, at that string's fret. */
  predicate OnFrettedStrings(r: seq<FingerPlacement>, frets: seq<int>)
  {
    forall k :: 0 <= k < |r| ==> 1 <= r[k].stringNumber <= |frets| && r[k].fret == frets[r[k].stringNumber - 1] > 0
  }

  /** Every fretted string has a placement. */
  predicate CoversFretted(r: seq<FingerPlacement>, frets: seq<int>)
  {
    forall i :: 0 <= i < |frets| && frets[i] > 0 ==> exists k :: 0 <= k < |r| && r[k].stringNumber == i + 1
  }

  /** Placements ordered by fret, then by string. */
  predicate OrderedByFret(r: seq<FingerPlacement>)
  {
    forall j, k :: 0 <= j < k < |r| ==>
      r[j].fret < r[k].fret || (r[j].fret == r[k].fret && r[j].stringNumber < r[k].stringNumber)
  }

  /** Lines 255-267: the placements fit the voicing. */
  lemma PlacementsShape(frets: seq<int>)
    ensures PlacementsFit(FretsToFingerPlacements(frets), frets)
  {
    SortedFrettingsShape(frets);
    FingeredShape(SortFrettings(FrettedStrings(frets)), frets);
  }

  lemma FingeredShape(sorted: seq<Fretting>, frets: seq<int>)
    requires InOrder(sorted)
    requires forall x :: x in sorted <==> 1 <= x.stringNumber <= |frets| && x.fret == frets[x.stringNumber - 1] && x.fret > 0
    ensures PlacementsFit(Fingered(sorted), frets)
  {
    FingeredNumbered(sorted);
    FingeredOnFrets(sorted, frets);
    FingeredCovers(sorted, frets);
    FingeredOrdered(sorted);
  }

  lemma FingeredNumbered(sorted: seq<Fretting>)
    ensures FingersNumbered(Fingered(sorted))
  {
  }

  lemma FingeredOnFrets(sorted: seq<Fretting>, frets: seq<int>)
    requires forall x :: x in sorted ==> 1 <= x.stringNumber <= |frets| && x.fret == frets[x.stringNumber - 1] && x.fret > 0
    ensures OnFrettedStrings(Fingered(sorted), frets)
  {
    var r := Fingered(sorted);
    forall k | 0 <= k < |r| ensures 1 <= r[k].stringNumber <= |frets| && r[k].fret == frets[r[k].stringNumber - 1] > 0 {
      assert sorted[k] in sorted;
    }
  }

  lemma FingeredCovers(sorted: seq<Fretting>, frets: seq<int>)
    requires forall x: Fretting :: 1 <= x.stringNumber <= |frets| && x.fret == frets[x.stringNumber - 1] && x.fret > 0 ==> x in sorted
    ensures CoversFretted(Fingered(sorted), frets)
  {
    var r := Fingered(sorted);
    forall i | 0 <= i < |frets| && frets[i] > 0
      ensures exists k :: 0 <= k < |r| && r[k].stringNumber == i + 1
    {
      assert Fretting(i + 1, frets[i]) in sorted;
      var k :| 0 <= k < |sorted| && sorted[k] == Fretting(i + 1, frets[i]);
      assert r[k].stringNumber == i + 1;
    }
  }

  lemma FingeredOrdered(sorted: seq<Fretting>)
    requires InOrder(sorted)
    ensures OrderedByFret(Fingered(sorted))
  {
    var r := Fingered(sorted);
    forall j, k | 0 <= j < k < |r|
      ensures r[j].fret < r[k].fret || (r[j].fret == r[k].fret && r[j].stringNumber < r[k].stringNumber)
    {
      assert Before(sorted[j], sorted[k]);
    }
  }

  // ---------------------------------------------------------------- the public entry point

  /**
   * Lines 283-300: `chordToFingerPlacements`. It gives no placements
   * exactly when no exact, playable voicing of the chord exists on the
   * tuning; otherwise it gives the placements of the preferred one (lowest
   * score, first in dictionary order among equal scores).
   */
  method ChordToFingerPlacements(chord: Chord, tune: seq<string>) returns (r: Option<seq<FingerPlacement>>)
    ensures r.None? <==> forall v :: !ExactVoicing(v, tune, TargetSet(chord.Fields()))
    ensures r.Some? ==> exists v ::
      && ExactVoicing(v, tune, TargetSet(chord.Fields()))
      && Preferred(v, tune, TargetSet(chord.Fields()))
      && r.value == FretsToFingerPlacements(v)
  {
    var target := GetTargetNotes(chord);
    r := PlacementsForTarget(target, tune);
    assert target == TargetSet(chord.Fields());
  }

  /** Lines 289-299: everything after the target set is known. */
  method PlacementsForTarget(target: set<int>, tune: seq<string>) returns (r: Option<seq<FingerPlacement>>)
    ensures r.None? <==> forall v :: !ExactVoicing(v, tune, target)
    ensures r.Some? ==> exists v ::
      && ExactVoicing(v, tune, target)
      && Preferred(v, tune, target)
      && r.value == FretsToFingerPlacements(v)
  {
    if |target| > |tune| {
      forall v ensures !ExactVoicing(v, tune, target) {
        TooManyNotes(v, tune, target);
      }
      return None;
    }
    var valid := GetValidFretsPerString(tune, target);
    var voicings := FindAllVoicings(valid, tune, target);
    BestVoicing(valid, tune, target);
    if |voicings| == 0 {
      return None;
    }
    var best := SortByKey(voicings, ScoreVoicing)[0];
    r := Some(FretsToFingerPlacements(best));
  }
}
